# Media-tracker list, account and routing core in Dafny

This project models the small, exactly stateable logic of a Vue media-tracking client and
proves properties of it:

- the per-user list cache (`useUserStore`): favorites, watchlist and watched, each a sequence
  of shows keyed by the pair (id, type), with idempotent adds and filtering removes;
- the list composable (`useUserLists`): delegations to the cache, and toggles that consult a
  membership check and then either remove or add, swallowing every error;
- the `users` and `user_shows` tables as `database.ts` uses them: the UNIQUE constraints,
  `INSERT OR REPLACE`, `DELETE`, `COUNT` and `SELECT ... ORDER BY created_at DESC`;
- the authentication composable (`useAuth`): `login`, `register` and `logout` over the
  `user`, `error` and `isLoading` fields, and the hexadecimal encoding of the password digest;
- the navigation guard (`authGuard`);
- the catalog client's image URL normalisation and first-page truncation (`useTVDB`).

Files: `wrappers.dfy` (Option, Result), `seqs.dfy` (Filter, Any, Reverse, Pairwise and their
lemmas, shared by the JavaScript `filter`/`some` and the SQL `WHERE`), `user_store.dfy`,
`user_lists.dfy`, `database.dfy`, `auth.dfy`, `route_guard.dfy`, `tvdb.dfy`.

Stateful parts are classes whose methods reassign their fields (`UserStore.Store`,
`UserLists.Lists`, `Database.Tables`, `Auth.Session`); each method's contract ties the new state
to a specification function of the old one (`favorites == WithShow(old(favorites), show)`,
`userShows == Upsert(old(userShows), row)`), and the properties the source promises are proved
about those functions as lemmas.

Modelling choices:

- A show's `type` field is called `kind` (`type` is a Dafny keyword); show types and list types
  are datatypes, so the schema's CHECK constraints on `show_type` and `list_type` hold by
  construction. The store's `removeFrom*`/`is*` take a string type, but only `movie` and
  `series` can match an entry, so the model takes the datatype.
- The membership checks `checkIsFavorite`, `checkIsInWatchlist`, `checkIsWatched` are called by
  `useUserLists.ts` but not defined by `userStore.ts`. Each toggle therefore receives the check's
  outcome as a parameter: `Ok(b)` when the check answered `b`, `Err(message)` when it threw.
  The twice-toggle lemma assumes the check answers with the cache's own membership
  (`UserLists.LocalCheck`).
- The store's `addToWatched` takes only the show, so the `rating` and `notes` that
  `toggleWatched` passes along have no effect on the cache; the model passes them and drops
  them the same way.
- The cache invariant (no two entries of a list share a key) is stated as
  `old(Valid()) ==> Valid()` on every mutator rather than as a precondition: the store can
  also be filled from local storage, which can install anything.
- `crypto.randomUUID` is a counter (`Tables.nextId`), so fresh ids are distinct from every id in
  use. The clock is a parameter `now` that never goes back (`clock <= now`); `created_at` of the
  rows and of `createUser`'s result both take it.
- The tables are kept in insertion order, and because the clock never goes back that order is
  oldest first; `getUserShows` is the matching rows read backwards. Its contract says only what
  SQL promises: the same rows, newest first (rows with equal timestamps may come in any order).
- SHA-256 over the UTF-8 encoding of the password is a function a `Session` is built with; only
  the hexadecimal encoding of its output is modelled.
- `password.length` is JavaScript's length in UTF-16 code units (`Auth.JsLength`): a character
  outside the Basic Multilingual Plane counts twice towards the minimum of 6.
- The error texts are the source's Spanish messages. A caught TypeError carries V8's message
  text (`Auth.UndefinedPasswordMessage`), which differs between JavaScript engines.

`addUserShow` uses `INSERT OR REPLACE`, so adding a key that is already present replaces its
row with one carrying a fresh id and timestamp; the schema keeps every list in the single
`user_shows` table, told apart by `list_type`.

The `users` table as written has no column for the password digest; the Findings section shows
what that does to sign-in. `Database.Tables.CreateUser`, `Auth.Session.Register` and
`Auth.RegisterThenLogIn` model the corrected table, which stores the digest with the user.

## Model

| member | source | states |
|---|---|---|
| UserStore.HasKey | src/stores/userStore.ts:40-42 | true exactly when some entry has both the id and the type |
| UserStore.WithShow | src/stores/userStore.ts:28-33 | after an add the key is present; a present key leaves the list unchanged, an absent one appends exactly the given show at the end |
| UserStore.WithoutKey | src/stores/userStore.ts:35-38 | after a remove the key is absent; the result keeps exactly the entries with another key |
| UserStore.NoDupKeysCount | src/stores/userStore.ts:23-25 | without duplicate keys a list's length is its number of distinct keys |
| UserStore.WithShowKeepsNoDupKeys | src/stores/userStore.ts:28-33 | adding keeps the no-duplicate-key invariant |
| UserStore.WithoutKeyKeepsNoDupKeys | src/stores/userStore.ts:35-38 | removing keeps the no-duplicate-key invariant |
| UserStore.WithShowIdempotent | src/stores/userStore.ts:28-33 | adding the same show twice equals adding it once |
| UserStore.WithoutAbsentKey | src/stores/userStore.ts:35-38 | removing an absent key leaves the list unchanged |
| UserStore.WithoutKeyKeepsOrder | src/stores/userStore.ts:36 | removal distributes over concatenation, so survivors keep their order |
| UserStore.OtherKeysUnaffected | src/stores/userStore.ts:29-41 | the key is the pair: membership of any other key, including the same id with the other type, is unchanged by an add or a remove |
| UserStore.Store.constructor | src/stores/userStore.ts:18-20 | the three lists start empty and valid |
| UserStore.Store.FavoritesCount | src/stores/userStore.ts:23 | equals the list's length, and its number of distinct keys when the invariant holds |
| UserStore.Store.WatchlistCount | src/stores/userStore.ts:24 | equals the list's length, and its number of distinct keys when the invariant holds |
| UserStore.Store.WatchedCount | src/stores/userStore.ts:25 | equals the list's length, and its number of distinct keys when the invariant holds |
| UserStore.Store.AddToFavorites | src/stores/userStore.ts:28-33 | favorites become WithShow of the old list; the other two lists are untouched; the invariant is kept |
| UserStore.Store.RemoveFromFavorites | src/stores/userStore.ts:35-38 | favorites become WithoutKey of the old list; the other two lists are untouched; the invariant is kept |
| UserStore.Store.IsFavorite | src/stores/userStore.ts:40-42 | true exactly when a favorite has the id and type |
| UserStore.Store.AddToWatchlist | src/stores/userStore.ts:45-50 | watchlist becomes WithShow of the old list; the other two lists are untouched; the invariant is kept |
| UserStore.Store.RemoveFromWatchlist | src/stores/userStore.ts:52-55 | watchlist becomes WithoutKey of the old list; the other two lists are untouched; the invariant is kept |
| UserStore.Store.IsInWatchlist | src/stores/userStore.ts:57-59 | true exactly when a watchlist entry has the id and type |
| UserStore.Store.AddToWatched | src/stores/userStore.ts:62-67 | watched becomes WithShow of the old list; the other two lists are untouched; the invariant is kept |
| UserStore.Store.RemoveFromWatched | src/stores/userStore.ts:69-72 | watched becomes WithoutKey of the old list; the other two lists are untouched; the invariant is kept |
| UserStore.Store.IsWatched | src/stores/userStore.ts:74-76 | true exactly when a watched entry has the id and type |
| UserLists.Toggled | src/composables/useUserLists.ts:31-49 | a failed check changes nothing; a check answering true is exactly the store's remove (key absent after), false exactly the store's add (key present after); every other key keeps its membership |
| UserLists.ToggledKeepsNoDupKeys | src/composables/useUserLists.ts:31-49 | a toggle keeps the no-duplicate-key invariant whatever the check answers |
| UserLists.ToggleTwiceRestoresMembership | src/composables/useUserLists.ts:31-49 | with a check that agrees with the cache, two toggles restore the show's membership, and the exact list when it was absent |
| UserLists.CheckCurrentState | src/composables/useUserLists.ts:122-143 | the three answers when every check succeeds, all false when any fails; a true flag always comes from a check answering true |
| UserLists.Lists.constructor | src/composables/useUserLists.ts:5-6 | the composable is bound to the given store |
| UserLists.Lists.FavoritesCount | src/composables/useUserLists.ts:18 | the store's favorites length, its distinct keys under the invariant |
| UserLists.Lists.WatchlistCount | src/composables/useUserLists.ts:19 | the store's watchlist length, its distinct keys under the invariant |
| UserLists.Lists.WatchedCount | src/composables/useUserLists.ts:20 | the store's watched length, its distinct keys under the invariant |
| UserLists.Lists.AddToFavorites | src/composables/useUserLists.ts:23-25 | same effect as the store's add |
| UserLists.Lists.RemoveFromFavorites | src/composables/useUserLists.ts:27-29 | same effect as the store's remove |
| UserLists.Lists.ToggleFavorite | src/composables/useUserLists.ts:31-49 | favorites become Toggled of the old list: remove exactly when the check says true, add when it says false, nothing when it throws; other lists untouched |
| UserLists.Lists.IsFavorite | src/composables/useUserLists.ts:51-53 | exactly the store's favorite membership for the key |
| UserLists.Lists.AddToWatchlist | src/composables/useUserLists.ts:56-58 | same effect as the store's add |
| UserLists.Lists.RemoveFromWatchlist | src/composables/useUserLists.ts:60-62 | same effect as the store's remove |
| UserLists.Lists.ToggleWatchlist | src/composables/useUserLists.ts:64-82 | watchlist becomes Toggled of the old list; other lists untouched |
| UserLists.Lists.IsInWatchlist | src/composables/useUserLists.ts:84-86 | exactly the store's watchlist membership for the key |
| UserLists.Lists.AddToWatched | src/composables/useUserLists.ts:89-91 | same effect as the store's add; rating and notes do not reach the cache |
| UserLists.Lists.RemoveFromWatched | src/composables/useUserLists.ts:93-95 | same effect as the store's remove |
| UserLists.Lists.ToggleWatched | src/composables/useUserLists.ts:97-115 | watched becomes Toggled of the old list, whatever rating and notes were passed; other lists untouched |
| UserLists.Lists.IsWatched | src/composables/useUserLists.ts:117-119 | exactly the store's watched membership for the key |
| Database.FirstRow | src/utils/database.ts:90 | `rows[0] \|\| null`: a row exactly when the result is non-empty, and then the first one |
| Database.SelectByEmail | src/utils/database.ts:85-88 | exactly the users with the email |
| Database.UserByEmail | src/utils/database.ts:84-91 | a row is found exactly when some user has the email, and it is such a user |
| Database.UserById | src/utils/database.ts:75-82 | a row is found exactly when some user has the id, and it is such a user |
| Database.EmailTaken | src/utils/database.ts:34 | true exactly when some user already has the email |
| Database.InsertedRowAsWritten | src/utils/database.ts:62-65 | the inserted users row carries no password digest |
| Database.AppendedUserFound | src/utils/database.ts:84-91 | a user inserted with an unused email is what the lookup by that email returns |
| Database.RowsWithKey | src/utils/database.ts:118-125 | exactly the rows matching all four key columns |
| Database.CountKey | src/utils/database.ts:118-125 | the count is positive exactly when some row matches all four columns |
| Database.DeleteKey | src/utils/database.ts:102-107 | the rows left are exactly those not matching all four columns |
| Database.SelectList | src/utils/database.ts:109-116 | exactly the rows of the user and list type |
| Database.AtMostOneRowPerKey | src/utils/database.ts:49 | under the UNIQUE constraint the count for a key is at most one |
| Database.Upsert | src/utils/database.ts:94-100 | after INSERT OR REPLACE the only row with the key is the new one, with its fresh id; every row with another key is kept, and nothing else appears |
| Database.UpsertTwice | src/utils/database.ts:94-100 | adding a key twice leaves the table a single add of the second row gives |
| Database.DeleteAbsentKey | src/utils/database.ts:102-107 | deleting a key no row holds changes nothing |
| Database.DeleteKeepsOrder | src/utils/database.ts:102-107 | deletion distributes over concatenation, leaving other rows in order |
| Database.ExistsAgreesWithWrites | src/utils/database.ts:94-125 | the exists count is one after an add, zero after a remove, and unchanged for other keys after an add |
| Database.ReverseNewestFirst | src/utils/database.ts:111 | an oldest-first table read backwards is newest first |
| Database.SelectionNewestFirst | src/utils/database.ts:111 | the selected rows read backwards are ordered by created_at descending |
| Database.SelectionSameRows | src/utils/database.ts:109-116 | the selected rows read backwards are exactly the user's rows of that list |
| Database.Tables.constructor | src/utils/database.ts:30-51 | both tables start empty and satisfy the schema's constraints |
| Database.Tables.CreateUser | src/utils/database.ts:60-73 | over the corrected table that stores the digest (see Findings): a taken email fails with the UNIQUE error and changes no field; otherwise one row with a fresh id, the current time and the digest is appended, the id counter advances, and the user is returned without the digest |
| Database.Tables.GetUserById | src/utils/database.ts:75-82 | returns the lookup, which under the constraints is the one user with the id |
| Database.Tables.GetUserByEmail | src/utils/database.ts:84-91 | returns the lookup, which under the constraints is the one user with the email |
| Database.Tables.AddUserShow | src/utils/database.ts:94-100 | the table becomes Upsert of the old one with a row carrying a fresh id and the current time; users untouched; constraints kept |
| Database.Tables.RemoveUserShow | src/utils/database.ts:102-107 | the table becomes DeleteKey of the old one; users untouched; constraints kept |
| Database.Tables.GetUserShows | src/utils/database.ts:109-116 | returns exactly the user's rows of the list, as a permutation of the selection, newest first |
| Database.Tables.IsUserShowInList | src/utils/database.ts:118-125 | true exactly when some row matches all four columns |
| Auth.ToHexString | src/composables/useAuth.ts:41 | one digit below 16, two digits (high then low nibble) from 16 to 255 |
| Auth.PadStart | src/composables/useAuth.ts:41 | the result has the width, ends with the input and is filled in front |
| Auth.ByteToHex | src/composables/useAuth.ts:41 | every byte becomes exactly two lower-case hex digits, high nibble first |
| Auth.HexEncode | src/composables/useAuth.ts:40-42 | the output is twice as long as the digest and made only of hex digits |
| Auth.HexRoundTrip | src/composables/useAuth.ts:40-42 | decoding the encoding gives back the digest |
| Auth.HexEncodeInjective | src/composables/useAuth.ts:40-42 | distinct digests give distinct strings |
| Auth.JsLength | src/composables/useAuth.ts:136 | the UTF-16 length lies between the character count and twice it; it is the character count when every character is in the Basic Multilingual Plane, twice it when none is |
| Auth.JsLengthAppend | src/composables/useAuth.ts:136 | the UTF-16 length of a concatenation is the sum of the lengths |
| Auth.JsLengthOfChar | src/composables/useAuth.ts:136 | one character counts one code unit below U+10000 and two from there on |
| Auth.Message | src/composables/useAuth.ts:115-118 | a caught exception's own message is stored as is; every rejection has a non-empty text |
| Auth.MessagesDistinct | src/composables/useAuth.ts:79-146 | the five rejection texts differ from one another |
| Auth.RegisterCheck | src/composables/useAuth.ts:131-146 | mismatch first, then length under 6, then an existing email; passes exactly when none applies |
| Auth.LoginOutcome | src/composables/useAuth.ts:77-112 | unknown email fails as not found; success exactly when the stored digest equals the typed one, giving the user without digest; a different digest fails as wrong password |
| Auth.AsWrittenRegisteredUserCannotLogIn | src/composables/useAuth.ts:79-99 | with the users row as written, sign-in after registration fails whatever the password |
| Auth.RegisteredUserCanLogIn | src/composables/useAuth.ts:149-156 | with the digest stored, sign-in after registration with the same password succeeds |
| Auth.Session.constructor | src/composables/useAuth.ts:28-30 | a session starts anonymous, not loading, without error |
| Auth.Session.HashPassword | src/composables/useAuth.ts:36-43 | the hex string is twice the digest's length and decodes back to the digest |
| Auth.Session.IsAuthenticated | src/composables/useAuth.ts:33 | true exactly when a user is held |
| Auth.Session.Login | src/composables/useAuth.ts:68-122 | succeeds exactly when LoginOutcome does and then holds the user without digest; on failure user is unchanged and error holds the message; never left loading |
| Auth.Session.Register | src/composables/useAuth.ts:125-176 | over the corrected table that stores the digest (see Findings): succeeds exactly when RegisterCheck passes, then appends the user with the digest and holds it; on failure no user is created, user is unchanged and error holds the message |
| Auth.Session.Logout | src/composables/useAuth.ts:179-185 | user becomes null unconditionally; error and loading flag unchanged |
| Auth.Session.ClearError | src/composables/useAuth.ts:188-190 | error becomes null; user and loading flag unchanged |
| Auth.RegisterThenLogIn | src/composables/useAuth.ts:68-176 | over the corrected table that stores the digest (see Findings): registering with an unused email and a valid password and then signing in leaves the session authenticated |
| RouteGuard.RequiresAuth | src/middleware/auth.ts:12-15 | true exactly when one of the four protected paths is a prefix of the path |
| RouteGuard.AuthGuard | src/middleware/auth.ts:17-25 | redirect to /login exactly for a protected path while anonymous; to / exactly for /login or /register while signed in; pass otherwise |
| RouteGuard.ProtectedByPrefix | src/middleware/auth.ts:15 | extending a protected path keeps it protected |
| RouteGuard.TargetsNotProtected | src/middleware/auth.ts:12-15 | neither /login nor / is protected |
| RouteGuard.RedirectsAreStable | src/middleware/auth.ts:17-25 | the target of a redirect passes in the same state, so no redirect loops |
| RouteGuard.AnonymousSignInPasses | src/middleware/auth.ts:17-25 | an anonymous visit to /login or /register passes |
| Tvdb.StripSlash | src/utils/useTVDB.ts:19-21 | a path starting with '/' loses exactly that one character; any other path is kept |
| Tvdb.FullImageUrl | src/utils/useTVDB.ts:17-23 | starts with the artwork base; length is base plus path minus one for a leading slash; the tail is the path without one leading slash |
| Tvdb.SameUrlIffSameStrippedPath | src/utils/useTVDB.ts:17-23 | two paths give the same URL exactly when they agree after one leading slash is removed |
| Tvdb.LeadingSlashIgnored | src/utils/useTVDB.ts:19-22 | "/p" and "p" give the same URL |
| Tvdb.OnlyOneSlashStripped | src/utils/useTVDB.ts:19-21 | "//p" gives base + "/p" |
| Tvdb.WithFullImage | src/utils/useTVDB.ts:46-49 | every other field copied; the image becomes the full URL when truthy and null otherwise |
| Tvdb.MapImages | src/utils/useTVDB.ts:46-49 | same length; every other field copied; the image is the full URL when truthy and null otherwise |
| Tvdb.FirstPage | src/utils/useTVDB.ts:44-49 | at most ten records, the first ones in order, each mapped |
| Tvdb.FetchMovies | src/utils/useTVDB.ts:30-50 | a failed response gives the prefixed error, a successful one the first page |
| Tvdb.FetchSeries | src/utils/useTVDB.ts:52-72 | a failed response gives the prefixed error, a successful one the first page |

## Left out

- Local storage: `saveToLocalStorage`, `loadFromLocalStorage`, `loadUser`, `saveUser` and the removal of `auth-user` in `logout` are device I/O. Loading can install lists with duplicate keys, so the invariant is stated over add and remove only, and stores and sessions start empty and anonymous.
- `loadUserData`, and the check functions themselves, are not defined in `userStore.ts`; their answers are parameters of the toggles.
- Failures of the store's add and remove: in `userStore.ts` they can only come from local storage, which is not modelled, so only the check can fail.
- `crypto.subtle.digest` and `TextEncoder`: a foreign call, given to the session as a function; nothing is proved about SHA-256.
- `crypto.randomUUID` and timestamps: a counter and a non-decreasing clock parameter.
- The libsql client, connectivity failures and `initDatabase`'s DDL execution: every statement succeeds unless a constraint is violated.
- The foreign key from `user_shows.user_id` to `users.id`: SQLite enforces it only when foreign keys are switched on, which the code does not do.
- `getUserShows` with ties in `created_at`: SQL leaves their order open; the model returns one order and its contract promises only the descending order.
- All `fetch` calls, the token exchange and the refs of `loginAndFetchContent`: network client code; the fetch functions are modelled from the arrived response on.
- `Promise.all` in `checkCurrentState`: concurrency; the checks are taken as three results.
- `fixDemoUser`, `resetUserPassword`, `createDemoUser`, `updateUserPassword` and `window.authDebug`: debug code calling functions absent from `database.ts`.
- `router.push` in `logout`, `src/router/index.ts`, `src/main.ts` and `src/composables/useDatabase.ts`: navigation and wiring.
- Console logging.
- Auth.Session.Login: the intermediate `isLoading == true` state during the awaited lookup is not observable in this sequential model; only the final state is stated.

## Findings

| source | as written | input that shows it | evidently intended | confidence | as-written member | corrected member |
|---|---|---|---|---|---|---|
| src/utils/database.ts:60-73 | `createUser` inserts only id, name and email, and `users` has no password column, so the digest `register` passes is dropped; `login` then reads `foundUser.password.substring` on an undefined value, the TypeError is caught and sign-in fails | register("Alice", "alice@x.com", "secret1", "secret1") then login("alice@x.com", "secret1") | the digest is stored with the user, and signing in with the registered password succeeds | medium, not executed | Auth.AsWrittenRegisteredUserCannotLogIn | Auth.RegisteredUserCanLogIn, Database.Tables.CreateUser |

The rest of the model uses the corrected table: `Database.Tables.CreateUser` stores the digest,
and `Auth.RegisterThenLogIn` shows the registration-then-sign-in round trip.
