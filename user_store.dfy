/** The per-user list cache (`useUserStore`): three lists of shows, favorites, watchlist
    and watched, each keyed by the pair (id, type). */
module UserStore {
  import opened Wrappers
  import opened Seqs

  datatype ShowType = Movie | Series

  /** A catalog show as the cache holds it; `kind` is the source's `type` field. */
  datatype Show = Show(id: int, name: string, image: Option<string>, kind: ShowType)

  /** The test every lookup uses: `item.id === id && item.type === type`. */
  predicate SameKey(item: Show, id: int, kind: ShowType)
  {
    item.id == id && item.kind == kind
  }

  /** Whether some entry carries the key (`some`, and the truthiness of `find`). */
  function HasKey(list: seq<Show>, id: int, kind: ShowType): (b: bool)
    ensures b <==> exists i :: 0 <= i < |list| && list[i].id == id && list[i].kind == kind
  {
    Any(list, (item: Show) => SameKey(item, id, kind))
  }

  /** The list after an `addTo...` call: the show is pushed unless its key is present. */
  function WithShow(list: seq<Show>, show: Show): (r: seq<Show>)
    ensures HasKey(r, show.id, show.kind)
    ensures list <= r && |r| <= |list| + 1
    ensures HasKey(list, show.id, show.kind) ==> r == list
    ensures !HasKey(list, show.id, show.kind) ==> r == list + [show]
  {
    if HasKey(list, show.id, show.kind) then list
    else
      var r := list + [show];
      assert r[|list|] == show;
      r
  }

  /** The list after a `removeFrom...` call: `filter` dropping every entry with the key. */
  function WithoutKey(list: seq<Show>, id: int, kind: ShowType): (r: seq<Show>)
    ensures !HasKey(r, id, kind)
    ensures forall i :: 0 <= i < |r| ==> r[i] in list
    ensures forall i :: 0 <= i < |list| && !SameKey(list[i], id, kind) ==> list[i] in r
  {
    Filter(list, (item: Show) => !SameKey(item, id, kind))
  }

  predicate DistinctKeys(a: Show, b: Show)
  {
    !(a.id == b.id && a.kind == b.kind)
  }

  /** The cache invariant: no two entries of one list share a key. */
  ghost predicate NoDupKeys(list: seq<Show>)
  {
    Pairwise(list, DistinctKeys)
  }

  /** The set of keys a list holds. */
  function Keys(list: seq<Show>): (ks: set<(int, ShowType)>)
    ensures forall id, kind :: (id, kind) in ks <==> HasKey(list, id, kind)
  {
    if list == [] then {}
    else
      var ks := {(list[0].id, list[0].kind)} + Keys(list[1..]);
      assert forall id, kind :: HasKey(list, id, kind) <==> SameKey(list[0], id, kind) || HasKey(list[1..], id, kind) by {
        forall id, kind ensures HasKey(list, id, kind) <==> SameKey(list[0], id, kind) || HasKey(list[1..], id, kind) {
          if HasKey(list, id, kind) && !SameKey(list[0], id, kind) {
            var i :| 0 <= i < |list| && list[i].id == id && list[i].kind == kind;
            assert list[1..][i - 1] == list[i];
          }
          if HasKey(list[1..], id, kind) {
            var i :| 0 <= i < |list[1..]| && list[1..][i].id == id && list[1..][i].kind == kind;
            assert list[i + 1] == list[1..][i];
          }
        }
      }
      ks
  }

  /** Without duplicate keys, a list has exactly as many entries as keys. */
  lemma {:induction false} NoDupKeysCount(list: seq<Show>)
    ensures NoDupKeys(list) ==> |Keys(list)| == |list|
  {
    if list != [] && NoDupKeys(list) {
      var tail := list[1..];
      assert NoDupKeys(tail) by {
        forall i, j | 0 <= i < j < |tail| ensures DistinctKeys(tail[i], tail[j]) {
          assert tail[i] == list[i + 1] && tail[j] == list[j + 1];
        }
      }
      NoDupKeysCount(tail);
      forall i | 0 <= i < |tail| ensures !SameKey(tail[i], list[0].id, list[0].kind) {
        assert DistinctKeys(list[0], list[i + 1]) && tail[i] == list[i + 1];
      }
    }
  }

  /** Adding keeps the invariant. */
  lemma WithShowKeepsNoDupKeys(list: seq<Show>, show: Show)
    requires NoDupKeys(list)
    ensures NoDupKeys(WithShow(list, show))
  {
    if !HasKey(list, show.id, show.kind) {
      PairwiseAppend(list, show, DistinctKeys);
    }
  }

  /** Removing keeps the invariant. */
  lemma WithoutKeyKeepsNoDupKeys(list: seq<Show>, id: int, kind: ShowType)
    requires NoDupKeys(list)
    ensures NoDupKeys(WithoutKey(list, id, kind))
  {
    FilterPairwise(list, (item: Show) => !SameKey(item, id, kind), DistinctKeys);
  }

  /** Adding the same show twice is adding it once. */
  lemma WithShowIdempotent(list: seq<Show>, show: Show)
    ensures WithShow(WithShow(list, show), show) == WithShow(list, show)
  {
  }

  /** Removing an absent key leaves the list as it was. */
  lemma WithoutAbsentKey(list: seq<Show>, id: int, kind: ShowType)
    requires !HasKey(list, id, kind)
    ensures WithoutKey(list, id, kind) == list
  {
    FilterKeepsAll(list, (item: Show) => !SameKey(item, id, kind));
  }

  /** Removal keeps the surviving entries in their order: it distributes over concatenation. */
  lemma WithoutKeyKeepsOrder(a: seq<Show>, b: seq<Show>, id: int, kind: ShowType)
    ensures WithoutKey(a + b, id, kind) == WithoutKey(a, id, kind) + WithoutKey(b, id, kind)
  {
    FilterAppend(a, b, (item: Show) => !SameKey(item, id, kind));
  }

  /** A remove leaves every other key's membership as it was. */
  lemma WithoutKeyOtherKey(list: seq<Show>, id: int, kind: ShowType, otherId: int, otherKind: ShowType)
    requires (otherId, otherKind) != (id, kind)
    ensures HasKey(WithoutKey(list, id, kind), otherId, otherKind) == HasKey(list, otherId, otherKind)
  {
    var r := WithoutKey(list, id, kind);
    if HasKey(list, otherId, otherKind) {
      var i :| 0 <= i < |list| && list[i].id == otherId && list[i].kind == otherKind;
      assert list[i] in r;
    }
    if HasKey(r, otherId, otherKind) {
      var i :| 0 <= i < |r| && r[i].id == otherId && r[i].kind == otherKind;
      assert r[i] in list;
    }
  }

  /** An add leaves every other key's membership as it was. */
  lemma WithShowOtherKey(list: seq<Show>, show: Show, otherId: int, otherKind: ShowType)
    requires (otherId, otherKind) != (show.id, show.kind)
    ensures HasKey(WithShow(list, show), otherId, otherKind) == HasKey(list, otherId, otherKind)
  {
    var w := WithShow(list, show);
    if HasKey(w, otherId, otherKind) {
      var i :| 0 <= i < |w| && w[i].id == otherId && w[i].kind == otherKind;
      assert i < |list|;
      assert w[i] == list[i];
    }
  }

  /** The key is the pair: another key, even with the same id, is unaffected by an add or a remove. */
  lemma OtherKeysUnaffected(list: seq<Show>, show: Show, id: int, kind: ShowType, otherId: int, otherKind: ShowType)
    requires (otherId, otherKind) != (id, kind)
    requires (otherId, otherKind) != (show.id, show.kind)
    ensures HasKey(WithoutKey(list, id, kind), otherId, otherKind) == HasKey(list, otherId, otherKind)
    ensures HasKey(WithShow(list, show), otherId, otherKind) == HasKey(list, otherId, otherKind)
  {
    WithoutKeyOtherKey(list, id, kind, otherId, otherKind);
    WithShowOtherKey(list, show, otherId, otherKind);
  }

  /** The store: three lists reassigned or pushed to by its actions. */
  class Store {
    var favorites: seq<Show>
    var watchlist: seq<Show>
    var watched: seq<Show>

    ghost predicate Valid()
      reads this
    {
      NoDupKeys(favorites) && NoDupKeys(watchlist) && NoDupKeys(watched)
    }

    /** An empty store; what `loadFromLocalStorage` would install is not modelled. */
    constructor ()
      ensures Valid()
      ensures favorites == [] && watchlist == [] && watched == []
    {
      favorites, watchlist, watched := [], [], [];
    }

    function FavoritesCount(): (n: nat)
      reads this
      ensures n == |favorites|
      ensures Valid() ==> n == |Keys(favorites)|
    {
      NoDupKeysCount(favorites);
      |favorites|
    }

    function WatchlistCount(): (n: nat)
      reads this
      ensures n == |watchlist|
      ensures Valid() ==> n == |Keys(watchlist)|
    {
      NoDupKeysCount(watchlist);
      |watchlist|
    }

    function WatchedCount(): (n: nat)
      reads this
      ensures n == |watched|
      ensures Valid() ==> n == |Keys(watched)|
    {
      NoDupKeysCount(watched);
      |watched|
    }

    method AddToFavorites(show: Show)
      modifies this
      ensures favorites == WithShow(old(favorites), show)
      ensures watchlist == old(watchlist) && watched == old(watched)
      ensures old(Valid()) ==> Valid()
    {
      if NoDupKeys(favorites) { WithShowKeepsNoDupKeys(favorites, show); }
      if !HasKey(favorites, show.id, show.kind) {
        favorites := favorites + [show];
      }
    }

    method RemoveFromFavorites(id: int, kind: ShowType)
      modifies this
      ensures favorites == WithoutKey(old(favorites), id, kind)
      ensures watchlist == old(watchlist) && watched == old(watched)
      ensures old(Valid()) ==> Valid()
    {
      if NoDupKeys(favorites) { WithoutKeyKeepsNoDupKeys(favorites, id, kind); }
      favorites := WithoutKey(favorites, id, kind);
    }

    function IsFavorite(id: int, kind: ShowType): (b: bool)
      reads this
      ensures b <==> exists i :: 0 <= i < |favorites| && favorites[i].id == id && favorites[i].kind == kind
    {
      HasKey(favorites, id, kind)
    }

    method AddToWatchlist(show: Show)
      modifies this
      ensures watchlist == WithShow(old(watchlist), show)
      ensures favorites == old(favorites) && watched == old(watched)
      ensures old(Valid()) ==> Valid()
    {
      if NoDupKeys(watchlist) { WithShowKeepsNoDupKeys(watchlist, show); }
      if !HasKey(watchlist, show.id, show.kind) {
        watchlist := watchlist + [show];
      }
    }

    method RemoveFromWatchlist(id: int, kind: ShowType)
      modifies this
      ensures watchlist == WithoutKey(old(watchlist), id, kind)
      ensures favorites == old(favorites) && watched == old(watched)
      ensures old(Valid()) ==> Valid()
    {
      if NoDupKeys(watchlist) { WithoutKeyKeepsNoDupKeys(watchlist, id, kind); }
      watchlist := WithoutKey(watchlist, id, kind);
    }

    function IsInWatchlist(id: int, kind: ShowType): (b: bool)
      reads this
      ensures b <==> exists i :: 0 <= i < |watchlist| && watchlist[i].id == id && watchlist[i].kind == kind
    {
      HasKey(watchlist, id, kind)
    }

    method AddToWatched(show: Show)
      modifies this
      ensures watched == WithShow(old(watched), show)
      ensures favorites == old(favorites) && watchlist == old(watchlist)
      ensures old(Valid()) ==> Valid()
    {
      if NoDupKeys(watched) { WithShowKeepsNoDupKeys(watched, show); }
      if !HasKey(watched, show.id, show.kind) {
        watched := watched + [show];
      }
    }

    method RemoveFromWatched(id: int, kind: ShowType)
      modifies this
      ensures watched == WithoutKey(old(watched), id, kind)
      ensures favorites == old(favorites) && watchlist == old(watchlist)
      ensures old(Valid()) ==> Valid()
    {
      if NoDupKeys(watched) { WithoutKeyKeepsNoDupKeys(watched, id, kind); }
      watched := WithoutKey(watched, id, kind);
    }

    function IsWatched(id: int, kind: ShowType): (b: bool)
      reads this
      ensures b <==> exists i :: 0 <= i < |watched| && watched[i].id == id && watched[i].kind == kind
    {
      HasKey(watched, id, kind)
    }
  }
}
