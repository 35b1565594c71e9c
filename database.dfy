/** The `users` and `user_shows` tables as the statements of `database.ts` use them: an
    in-memory relation with the schema's constraints and SQLite's statement semantics.
    `crypto.randomUUID` is a counter of fresh ids and the clock is a parameter. */
module Database {
  import opened Wrappers
  import opened Seqs
  import UserStore

  type ShowType = UserStore.ShowType

  /** Row ids (`TEXT PRIMARY KEY` filled by `crypto.randomUUID`). */
  type Id = nat

  /** `list_type`, restricted by its CHECK constraint to three values. */
  datatype ListType = Favorites | Watchlist | Watched

  /** What `createUser` returns. */
  datatype User = User(id: Id, name: string, email: string, createdAt: nat)

  /** A row of `users`; `password` is the digest column the sign-in code reads (`None` when the
      row has no such column). */
  datatype UserRow = UserRow(id: Id, name: string, email: string, createdAt: nat, password: Option<string>)

  /** The columns of the UNIQUE constraint of `user_shows`. */
  datatype ShowKey = ShowKey(userId: Id, showId: int, showType: ShowType, listType: ListType)

  /** A row of `user_shows`. */
  datatype UserShow = UserShow(id: Id, userId: Id, showId: int, showType: ShowType, listType: ListType, createdAt: nat)

  function KeyOf(row: UserShow): ShowKey
  {
    ShowKey(row.userId, row.showId, row.showType, row.listType)
  }

  /** The error SQLite reports when an insert would repeat an email. */
  const UniqueEmailViolation: string := "UNIQUE constraint failed: users.email"

  /** `result.rows[0] || null`. */
  function FirstRow<T>(rows: seq<T>): (r: Option<T>)
    ensures r.Some? <==> rows != []
    ensures r.Some? ==> r.value == rows[0]
  {
    if rows == [] then None else Some(rows[0])
  }

  /** `SELECT * FROM users WHERE email = ?` */
  function SelectByEmail(users: seq<UserRow>, email: string): (r: seq<UserRow>)
    ensures forall i :: 0 <= i < |r| ==> r[i] in users && r[i].email == email
    ensures forall i :: 0 <= i < |users| && users[i].email == email ==> users[i] in r
  {
    Filter(users, (u: UserRow) => u.email == email)
  }

  /** `getUserByEmail`: the first row with the email, if any. */
  function UserByEmail(users: seq<UserRow>, email: string): (r: Option<UserRow>)
    ensures r.Some? <==> exists i :: 0 <= i < |users| && users[i].email == email
    ensures r.Some? ==> r.value in users && r.value.email == email
  {
    FirstRow(SelectByEmail(users, email))
  }

  /** `getUserById`: the first row with the id, if any. */
  function UserById(users: seq<UserRow>, id: Id): (r: Option<UserRow>)
    ensures r.Some? <==> exists i :: 0 <= i < |users| && users[i].id == id
    ensures r.Some? ==> r.value in users && r.value.id == id
  {
    var selected := Filter(users, (u: UserRow) => u.id == id);
    assert forall i :: 0 <= i < |users| && users[i].id == id ==> users[i] in selected;
    FirstRow(selected)
  }

  /** The row `INSERT INTO users (id, name, email)` writes: the table has no digest column. */
  function InsertedRowAsWritten(id: Id, name: string, email: string, now: nat): (row: UserRow)
    ensures row.password.None?
  {
    UserRow(id, name, email, now, None)
  }

  /** A user appended with an email nobody had is what the lookup by that email finds. */
  lemma AppendedUserFound(users: seq<UserRow>, row: UserRow)
    requires !EmailTaken(users, row.email)
    ensures UserByEmail(users + [row], row.email) == Some(row)
  {
    var p := (u: UserRow) => u.email == row.email;
    FilterAppend(users, [row], p);
    FilterRejectsAll(users, p);
    assert Filter([row], p) == [row];
  }

  /** Whether some user already has the email (the UNIQUE test on insert). */
  function EmailTaken(users: seq<UserRow>, email: string): (b: bool)
    ensures b <==> exists i :: 0 <= i < |users| && users[i].email == email
  {
    Any(users, (u: UserRow) => u.email == email)
  }

  /** The rows whose four key columns equal `key` (the WHERE of DELETE and COUNT). */
  function RowsWithKey(rows: seq<UserShow>, key: ShowKey): (r: seq<UserShow>)
    ensures forall i :: 0 <= i < |r| ==> KeyOf(r[i]) == key && r[i] in rows
    ensures forall i :: 0 <= i < |rows| && KeyOf(rows[i]) == key ==> rows[i] in r
  {
    Filter(rows, (row: UserShow) => KeyOf(row) == key)
  }

  /** `SELECT COUNT(*) ... WHERE user_id = ? AND show_id = ? AND show_type = ? AND list_type = ?` */
  function CountKey(rows: seq<UserShow>, key: ShowKey): (n: nat)
    ensures n > 0 <==> exists i :: 0 <= i < |rows| && KeyOf(rows[i]) == key
  {
    var r := RowsWithKey(rows, key);
    assert r != [] ==> r[0] in rows;
    |r|
  }

  /** The table after `DELETE FROM user_shows WHERE` all four key columns match. */
  function DeleteKey(rows: seq<UserShow>, key: ShowKey): (r: seq<UserShow>)
    ensures forall i :: 0 <= i < |r| ==> KeyOf(r[i]) != key && r[i] in rows
    ensures forall i :: 0 <= i < |rows| && KeyOf(rows[i]) != key ==> rows[i] in r
  {
    Filter(rows, (row: UserShow) => KeyOf(row) != key)
  }

  /** The table after `INSERT OR REPLACE` of a row with a fresh id: SQLite's REPLACE resolution
      deletes the row that holds the same UNIQUE key, then inserts the new row. */
  function Upsert(rows: seq<UserShow>, row: UserShow): (r: seq<UserShow>)
    ensures RowsWithKey(r, KeyOf(row)) == [row]
    ensures forall i :: 0 <= i < |rows| && KeyOf(rows[i]) != KeyOf(row) ==> rows[i] in r
    ensures forall i :: 0 <= i < |r| ==> r[i] == row || (r[i] in rows && KeyOf(r[i]) != KeyOf(row))
  {
    var key := KeyOf(row);
    var d := DeleteKey(rows, key);
    FilterAppend(d, [row], (x: UserShow) => KeyOf(x) == key);
    FilterRejectsAll(d, (x: UserShow) => KeyOf(x) == key);
    d + [row]
  }

  /** `SELECT * FROM user_shows WHERE user_id = ? AND list_type = ?`, before ordering. */
  function SelectList(rows: seq<UserShow>, userId: Id, listType: ListType): (r: seq<UserShow>)
    ensures forall i :: 0 <= i < |r| ==> r[i] in rows && r[i].userId == userId && r[i].listType == listType
    ensures forall i :: 0 <= i < |rows| && rows[i].userId == userId && rows[i].listType == listType ==> rows[i] in r
  {
    Filter(rows, (row: UserShow) => row.userId == userId && row.listType == listType)
  }

  predicate DistinctUsers(a: UserRow, b: UserRow)
  {
    a.id != b.id && a.email != b.email
  }

  predicate DistinctShowKeys(a: UserShow, b: UserShow)
  {
    KeyOf(a) != KeyOf(b)
  }

  predicate DistinctRowIds(a: UserShow, b: UserShow)
  {
    a.id != b.id
  }

  predicate NotNewer(a: UserShow, b: UserShow)
  {
    a.createdAt <= b.createdAt
  }

  /** UNIQUE(user_id, show_id, show_type, list_type). */
  ghost predicate UniqueShowKeys(rows: seq<UserShow>)
  {
    Pairwise(rows, DistinctShowKeys)
  }

  /** ORDER BY created_at DESC. */
  ghost predicate NewestFirst(rows: seq<UserShow>)
  {
    forall i, j :: 0 <= i < j < |rows| ==> rows[i].createdAt >= rows[j].createdAt
  }

  /** The UNIQUE constraint allows at most one row per key, so the count is 0 or 1. */
  lemma {:induction false} AtMostOneRowPerKey(rows: seq<UserShow>, key: ShowKey)
    requires UniqueShowKeys(rows)
    ensures CountKey(rows, key) <= 1
  {
    if rows != [] {
      var tail := rows[1..];
      assert UniqueShowKeys(tail) by {
        forall i, j | 0 <= i < j < |tail| ensures DistinctShowKeys(tail[i], tail[j]) {
          assert tail[i] == rows[i + 1] && tail[j] == rows[j + 1];
        }
      }
      AtMostOneRowPerKey(tail, key);
      if KeyOf(rows[0]) == key {
        forall i | 0 <= i < |tail| ensures KeyOf(tail[i]) != key {
          assert DistinctShowKeys(rows[0], rows[i + 1]) && tail[i] == rows[i + 1];
        }
        FilterRejectsAll(tail, (r: UserShow) => KeyOf(r) == key);
      }
    }
  }

  /** Adding the same key twice leaves the table as one add of the second row would: one row for
      the key, carrying the newer fresh id. */
  lemma UpsertTwice(rows: seq<UserShow>, first: UserShow, second: UserShow)
    requires KeyOf(first) == KeyOf(second)
    ensures Upsert(Upsert(rows, first), second) == Upsert(rows, second)
  {
    var key := KeyOf(second);
    var d := DeleteKey(rows, key);
    FilterAppend(d, [first], (r: UserShow) => KeyOf(r) != key);
    FilterKeepsAll(d, (r: UserShow) => KeyOf(r) != key);
    assert DeleteKey([first], key) == [];
  }

  /** Deleting a key that no row holds changes nothing. */
  lemma DeleteAbsentKey(rows: seq<UserShow>, key: ShowKey)
    requires CountKey(rows, key) == 0
    ensures DeleteKey(rows, key) == rows
  {
    FilterKeepsAll(rows, (r: UserShow) => KeyOf(r) != key);
  }

  /** Deleting keeps the other rows in their order. */
  lemma DeleteKeepsOrder(a: seq<UserShow>, b: seq<UserShow>, key: ShowKey)
    ensures DeleteKey(a + b, key) == DeleteKey(a, key) + DeleteKey(b, key)
  {
    FilterAppend(a, b, (r: UserShow) => KeyOf(r) != key);
  }

  /** The membership test agrees with both writes. */
  lemma ExistsAgreesWithWrites(rows: seq<UserShow>, row: UserShow, key: ShowKey)
    ensures CountKey(Upsert(rows, row), KeyOf(row)) == 1
    ensures CountKey(DeleteKey(rows, key), key) == 0
    ensures key != KeyOf(row) ==> (CountKey(Upsert(rows, row), key) > 0 <==> CountKey(rows, key) > 0)
  {
    var u := Upsert(rows, row);
    if key != KeyOf(row) && CountKey(rows, key) > 0 {
      var i :| 0 <= i < |rows| && KeyOf(rows[i]) == key;
      assert rows[i] in u;
    }
  }

  /** Reading an oldest-first table backwards gives the newest first. */
  lemma ReverseNewestFirst(rows: seq<UserShow>)
    requires Pairwise(rows, NotNewer)
    ensures NewestFirst(Reverse(rows))
  {
    var r := Reverse(rows);
    forall i, j | 0 <= i < j < |r| ensures r[i].createdAt >= r[j].createdAt {
      assert NotNewer(rows[|rows| - 1 - j], rows[|rows| - 1 - i]);
    }
  }

  /** On an oldest-first table, the selected rows read backwards are newest first. */
  lemma SelectionNewestFirst(table: seq<UserShow>, userId: Id, listType: ListType)
    requires Pairwise(table, NotNewer)
    ensures NewestFirst(Reverse(SelectList(table, userId, listType)))
  {
    var selected := SelectList(table, userId, listType);
    FilterPairwise(table, (row: UserShow) => row.userId == userId && row.listType == listType, NotNewer);
    ReverseNewestFirst(selected);
  }

  /** The selected rows read backwards are exactly the user's rows of the list. */
  lemma SelectionSameRows(table: seq<UserShow>, userId: Id, listType: ListType)
    ensures var rows := Reverse(SelectList(table, userId, listType));
      && (forall i :: 0 <= i < |rows| ==> rows[i] in table && rows[i].userId == userId && rows[i].listType == listType)
      && (forall i :: 0 <= i < |table| && table[i].userId == userId && table[i].listType == listType ==> table[i] in rows)
  {
    var selected := SelectList(table, userId, listType);
    var rows := Reverse(selected);
    forall i | 0 <= i < |rows|
      ensures rows[i] in table && rows[i].userId == userId && rows[i].listType == listType
    {
      assert rows[i] == selected[|selected| - 1 - i];
    }
    ReverseMultiset(selected);
    forall i | 0 <= i < |table| && table[i].userId == userId && table[i].listType == listType
      ensures table[i] in rows
    {
      assert table[i] in multiset(selected);
    }
  }

  /** The two tables. Rows are kept in insertion order; `nextId` is the source of fresh ids and
      `clock` the latest timestamp written. */
  class Tables {
    var users: seq<UserRow>
    var userShows: seq<UserShow>
    var nextId: Id
    var clock: nat

    /** The schema's constraints, plus the facts about fresh ids and timestamps that keep them. */
    ghost predicate Valid()
      reads this
    {
      && Pairwise(users, DistinctUsers)
      && (forall i :: 0 <= i < |users| ==> users[i].id < nextId)
      && UniqueShowKeys(userShows)
      && Pairwise(userShows, DistinctRowIds)
      && Pairwise(userShows, NotNewer)
      && (forall i :: 0 <= i < |userShows| ==> userShows[i].id < nextId && userShows[i].createdAt <= clock)
    }

    constructor ()
      ensures Valid()
      ensures users == [] && userShows == []
    {
      users, userShows := [], [];
      nextId, clock := 0, 0;
    }

    /** `createUser`: inserts a user with a fresh id, or fails on the UNIQUE email. */
    method CreateUser(name: string, email: string, password: string, now: nat) returns (r: Result<User, string>)
      requires Valid() && clock <= now
      modifies this
      ensures Valid()
      ensures userShows == old(userShows)
      ensures EmailTaken(old(users), email) ==>
        r == Err(UniqueEmailViolation) && users == old(users) && nextId == old(nextId) && clock == old(clock)
      ensures !EmailTaken(old(users), email) ==>
        r == Ok(User(old(nextId), name, email, now)) &&
        users == old(users) + [UserRow(old(nextId), name, email, now, Some(password))] &&
        nextId == old(nextId) + 1 && clock == now
    {
      if EmailTaken(users, email) {
        return Err(UniqueEmailViolation);
      }
      var row := UserRow(nextId, name, email, now, Some(password));
      PairwiseAppend(users, row, DistinctUsers);
      users := users + [row];
      nextId, clock := nextId + 1, now;
      r := Ok(User(row.id, name, email, now));
    }

    method GetUserById(id: Id) returns (r: Option<UserRow>)
      ensures r == UserById(users, id)
      ensures Valid() ==> forall i :: 0 <= i < |users| && users[i].id == id ==> r == Some(users[i])
    {
      r := UserById(users, id);
      if Valid() && r.Some? {
        var k :| 0 <= k < |users| && users[k] == r.value;
        assert forall i :: 0 <= i < |users| && users[i].id == id ==> i == k;
      }
    }

    method GetUserByEmail(email: string) returns (r: Option<UserRow>)
      ensures r == UserByEmail(users, email)
      ensures Valid() ==> forall i :: 0 <= i < |users| && users[i].email == email ==> r == Some(users[i])
    {
      r := UserByEmail(users, email);
      if Valid() && r.Some? {
        var k :| 0 <= k < |users| && users[k] == r.value;
        assert forall i :: 0 <= i < |users| && users[i].email == email ==> i == k;
      }
    }

    /** `addUserShow`: `INSERT OR REPLACE` of the key with a fresh id and the current time. */
    method AddUserShow(userId: Id, showId: int, showType: ShowType, listType: ListType, now: nat)
      requires Valid() && clock <= now
      modifies this
      ensures Valid()
      ensures userShows == Upsert(old(userShows), UserShow(old(nextId), userId, showId, showType, listType, now))
      ensures users == old(users) && nextId == old(nextId) + 1 && clock == now
    {
      var row := UserShow(nextId, userId, showId, showType, listType, now);
      var kept := DeleteKey(userShows, KeyOf(row));
      FilterPairwise(userShows, (r: UserShow) => KeyOf(r) != KeyOf(row), DistinctShowKeys);
      FilterPairwise(userShows, (r: UserShow) => KeyOf(r) != KeyOf(row), DistinctRowIds);
      FilterPairwise(userShows, (r: UserShow) => KeyOf(r) != KeyOf(row), NotNewer);
      forall i | 0 <= i < |kept| ensures kept[i] in userShows {}
      PairwiseAppend(kept, row, DistinctShowKeys);
      PairwiseAppend(kept, row, DistinctRowIds);
      PairwiseAppend(kept, row, NotNewer);
      userShows := kept + [row];
      nextId, clock := nextId + 1, now;
    }

    /** `removeUserShow`: deletes the rows matching all four key columns. */
    method RemoveUserShow(userId: Id, showId: int, showType: ShowType, listType: ListType)
      requires Valid()
      modifies this
      ensures Valid()
      ensures userShows == DeleteKey(old(userShows), ShowKey(userId, showId, showType, listType))
      ensures users == old(users) && nextId == old(nextId) && clock == old(clock)
    {
      var key := ShowKey(userId, showId, showType, listType);
      FilterPairwise(userShows, (r: UserShow) => KeyOf(r) != key, DistinctShowKeys);
      FilterPairwise(userShows, (r: UserShow) => KeyOf(r) != key, DistinctRowIds);
      FilterPairwise(userShows, (r: UserShow) => KeyOf(r) != key, NotNewer);
      userShows := DeleteKey(userShows, key);
    }

    /** `getUserShows`: the user's rows of one list, newest first. */
    method GetUserShows(userId: Id, listType: ListType) returns (rows: seq<UserShow>)
      requires Valid()
      ensures forall i :: 0 <= i < |rows| ==> rows[i] in userShows && rows[i].userId == userId && rows[i].listType == listType
      ensures forall i :: 0 <= i < |userShows| && userShows[i].userId == userId && userShows[i].listType == listType ==> userShows[i] in rows
      ensures multiset(rows) == multiset(SelectList(userShows, userId, listType))
      ensures NewestFirst(rows)
    {
      var selected := SelectList(userShows, userId, listType);
      SelectionNewestFirst(userShows, userId, listType);
      SelectionSameRows(userShows, userId, listType);
      ReverseMultiset(selected);
      rows := Reverse(selected);
    }

    /** `isUserShowInList`: whether the count of matching rows is positive. */
    method IsUserShowInList(userId: Id, showId: int, showType: ShowType, listType: ListType) returns (b: bool)
      ensures b <==> exists i :: 0 <= i < |userShows| && KeyOf(userShows[i]) == ShowKey(userId, showId, showType, listType)
    {
      b := CountKey(userShows, ShowKey(userId, showId, showType, listType)) > 0;
    }
  }
}
