/** The list composable (`useUserLists`): add/remove delegations to the store, toggles that
    consult a membership check first, and the combined state check.

    The checks `checkIsFavorite`, `checkIsInWatchlist` and `checkIsWatched` are not defined by the
    store this model covers; each toggle therefore receives the check's outcome as a parameter:
    `Ok(b)` when the check answered `b`, `Err(message)` when it threw. */
module UserLists {
  import opened Wrappers
  import opened UserStore

  /** What a toggle does to its list: remove when the check says present, add when it says
      absent, nothing when the check failed (the error is caught). */
  function Toggled(list: seq<Show>, show: Show, check: Result<bool, string>): (r: seq<Show>)
    ensures check.Err? ==> r == list
    ensures check == Ok(true) ==> r == WithoutKey(list, show.id, show.kind) && !HasKey(r, show.id, show.kind)
    ensures check == Ok(false) ==> r == WithShow(list, show) && HasKey(r, show.id, show.kind)
    ensures forall id, kind :: (id, kind) != (show.id, show.kind) ==>
      (HasKey(r, id, kind) <==> HasKey(list, id, kind))
  {
    match check
    case Err(_) => list
    case Ok(present) =>
      forall id, kind | (id, kind) != (show.id, show.kind)
        ensures HasKey(WithoutKey(list, show.id, show.kind), id, kind) == HasKey(list, id, kind)
        ensures HasKey(WithShow(list, show), id, kind) == HasKey(list, id, kind)
      {
        OtherKeysUnaffected(list, show, show.id, show.kind, id, kind);
      }
      if present then WithoutKey(list, show.id, show.kind) else WithShow(list, show)
  }

  /** Toggling keeps the cache invariant, whatever the check answers. */
  lemma ToggledKeepsNoDupKeys(list: seq<Show>, show: Show, check: Result<bool, string>)
    requires NoDupKeys(list)
    ensures NoDupKeys(Toggled(list, show, check))
  {
    WithShowKeepsNoDupKeys(list, show);
    WithoutKeyKeepsNoDupKeys(list, show.id, show.kind);
  }

  /** The check answering with the cache's own membership. */
  function LocalCheck(list: seq<Show>, show: Show): Result<bool, string>
  {
    Ok(HasKey(list, show.id, show.kind))
  }

  /** When the check agrees with the cache, toggling twice restores the show's membership, and
      restores the very list when the show was absent at first. */
  lemma ToggleTwiceRestoresMembership(list: seq<Show>, show: Show)
    ensures var once := Toggled(list, show, LocalCheck(list, show));
            var twice := Toggled(once, show, LocalCheck(once, show));
            HasKey(twice, show.id, show.kind) == HasKey(list, show.id, show.kind) &&
            (!HasKey(list, show.id, show.kind) ==> twice == list)
  {
    if !HasKey(list, show.id, show.kind) {
      var once := list + [show];
      assert Toggled(list, show, LocalCheck(list, show)) == once;
      WithoutKeyKeepsOrder(list, [show], show.id, show.kind);
      WithoutAbsentKey(list, show.id, show.kind);
      assert WithoutKey([show], show.id, show.kind) == [];
    }
  }

  /** The three answers `checkCurrentState` reports. */
  datatype ListState = ListState(isFavorite: bool, isInWatchlist: bool, isWatched: bool)

  /** `checkCurrentState`: the three checks' answers, or all false as soon as one check fails
      (the checks run together and any rejection is caught). */
  function CheckCurrentState(favorite: Result<bool, string>, watchlist: Result<bool, string>,
                             watched: Result<bool, string>): (s: ListState)
    ensures s.isFavorite ==> favorite == Ok(true)
    ensures s.isInWatchlist ==> watchlist == Ok(true)
    ensures s.isWatched ==> watched == Ok(true)
    ensures favorite.Ok? && watchlist.Ok? && watched.Ok? ==>
      s == ListState(favorite.value, watchlist.value, watched.value)
    ensures favorite.Err? || watchlist.Err? || watched.Err? ==> s == ListState(false, false, false)
  {
    if favorite.Ok? && watchlist.Ok? && watched.Ok? then
      ListState(favorite.value, watchlist.value, watched.value)
    else
      ListState(false, false, false)
  }

  /** The composable, bound to one store. */
  class Lists {
    const store: Store

    constructor (store: Store)
      ensures this.store == store
    {
      this.store := store;
    }

    function FavoritesCount(): (n: nat)
      reads store
      ensures n == |store.favorites|
      ensures store.Valid() ==> n == |Keys(store.favorites)|
    {
      store.FavoritesCount()
    }

    function WatchlistCount(): (n: nat)
      reads store
      ensures n == |store.watchlist|
      ensures store.Valid() ==> n == |Keys(store.watchlist)|
    {
      store.WatchlistCount()
    }

    function WatchedCount(): (n: nat)
      reads store
      ensures n == |store.watched|
      ensures store.Valid() ==> n == |Keys(store.watched)|
    {
      store.WatchedCount()
    }

    method AddToFavorites(show: Show)
      modifies store
      ensures store.favorites == WithShow(old(store.favorites), show)
      ensures store.watchlist == old(store.watchlist) && store.watched == old(store.watched)
      ensures old(store.Valid()) ==> store.Valid()
    {
      store.AddToFavorites(show);
    }

    method RemoveFromFavorites(id: int, kind: ShowType)
      modifies store
      ensures store.favorites == WithoutKey(old(store.favorites), id, kind)
      ensures store.watchlist == old(store.watchlist) && store.watched == old(store.watched)
      ensures old(store.Valid()) ==> store.Valid()
    {
      store.RemoveFromFavorites(id, kind);
    }

    method ToggleFavorite(show: Show, check: Result<bool, string>)
      modifies store
      ensures store.favorites == Toggled(old(store.favorites), show, check)
      ensures store.watchlist == old(store.watchlist) && store.watched == old(store.watched)
      ensures old(store.Valid()) ==> store.Valid()
    {
      match check {
        case Err(_) =>
        case Ok(isFavorite) =>
          if isFavorite {
            RemoveFromFavorites(show.id, show.kind);
          } else {
            AddToFavorites(show);
          }
      }
    }

    function IsFavorite(id: int, kind: ShowType): (b: bool)
      reads store
      ensures b <==> exists i :: 0 <= i < |store.favorites| && store.favorites[i].id == id && store.favorites[i].kind == kind
    {
      store.IsFavorite(id, kind)
    }

    method AddToWatchlist(show: Show)
      modifies store
      ensures store.watchlist == WithShow(old(store.watchlist), show)
      ensures store.favorites == old(store.favorites) && store.watched == old(store.watched)
      ensures old(store.Valid()) ==> store.Valid()
    {
      store.AddToWatchlist(show);
    }

    method RemoveFromWatchlist(id: int, kind: ShowType)
      modifies store
      ensures store.watchlist == WithoutKey(old(store.watchlist), id, kind)
      ensures store.favorites == old(store.favorites) && store.watched == old(store.watched)
      ensures old(store.Valid()) ==> store.Valid()
    {
      store.RemoveFromWatchlist(id, kind);
    }

    method ToggleWatchlist(show: Show, check: Result<bool, string>)
      modifies store
      ensures store.watchlist == Toggled(old(store.watchlist), show, check)
      ensures store.favorites == old(store.favorites) && store.watched == old(store.watched)
      ensures old(store.Valid()) ==> store.Valid()
    {
      match check {
        case Err(_) =>
        case Ok(isInList) =>
          if isInList {
            RemoveFromWatchlist(show.id, show.kind);
          } else {
            AddToWatchlist(show);
          }
      }
    }

    function IsInWatchlist(id: int, kind: ShowType): (b: bool)
      reads store
      ensures b <==> exists i :: 0 <= i < |store.watchlist| && store.watchlist[i].id == id && store.watchlist[i].kind == kind
    {
      store.IsInWatchlist(id, kind)
    }

    /** `rating` and `notes` are handed on; the store's `addToWatched` takes only the show. */
    method AddToWatched(show: Show, rating: Option<int>, notes: Option<string>)
      modifies store
      ensures store.watched == WithShow(old(store.watched), show)
      ensures store.favorites == old(store.favorites) && store.watchlist == old(store.watchlist)
      ensures old(store.Valid()) ==> store.Valid()
    {
      store.AddToWatched(show);
    }

    method RemoveFromWatched(id: int, kind: ShowType)
      modifies store
      ensures store.watched == WithoutKey(old(store.watched), id, kind)
      ensures store.favorites == old(store.favorites) && store.watchlist == old(store.watchlist)
      ensures old(store.Valid()) ==> store.Valid()
    {
      store.RemoveFromWatched(id, kind);
    }

    method ToggleWatched(show: Show, rating: Option<int>, notes: Option<string>, check: Result<bool, string>)
      modifies store
      ensures store.watched == Toggled(old(store.watched), show, check)
      ensures store.favorites == old(store.favorites) && store.watchlist == old(store.watchlist)
      ensures old(store.Valid()) ==> store.Valid()
    {
      match check {
        case Err(_) =>
        case Ok(isWatchedShow) =>
          if isWatchedShow {
            RemoveFromWatched(show.id, show.kind);
          } else {
            AddToWatched(show, rating, notes);
          }
      }
    }

    function IsWatched(id: int, kind: ShowType): (b: bool)
      reads store
      ensures b <==> exists i :: 0 <= i < |store.watched| && store.watched[i].id == id && store.watched[i].kind == kind
    {
      store.IsWatched(id, kind)
    }
  }
}
