# Session, request interceptor and mock backend of the board application

This project models the client-side authentication core of a board-management web
application, together with the in-browser mock backend it talks to during development.

- **Session store** (`Session`). The access token lives in a state cell mirrored in
  local storage under the key `token`. `login` and `logout` write both places.
  `refreshToken` answers a caller in one of three ways:
  - null when no truthy token is held;
  - the token itself while its `exp` claim is more than 30 seconds ahead of the current second;
  - otherwise, the result of one shared `POST /auth/refresh` request. Concurrent callers join
    the request already in flight instead of starting another.

  The asynchronous refresh is modelled as events on one store:
  - `RequestRefresh` is a call up to its `await`;
  - `Resolve` or `Reject` is the request completing;
  - `Settle` is the `finally` that empties the in-flight slot and hands every waiter the same outcome.
- **Interceptor** (`Interceptor`). Every outgoing request except login and refresh asks
  the session for a token exactly once. A truthy token is added as an
  `Authorization: Bearer <token>` header.
- **Mock authentication backend** (`AuthMock`). It keeps a user list and a password map.
  Login succeeds exactly when the email is known and a non-empty stored password equals
  the submitted one. Register refuses known emails; otherwise it appends a user whose id is
  the new count in decimal.
- **Mock board backend** (`BoardQuery`, `BoardsMock`). The board table supports:
  - listing, with a boolean `isFavorite` filter, a trimmed lower-cased name search, a sort
    by key, and clamped pagination;
  - topping the table up with seeded boards on the first unfiltered page;
  - creation, lookup, rename, favourite flag and deletion by id.

Shared pieces are in `Common` (option and result types, the error record, JavaScript
truthiness of an optional string) and `Strings` (the JavaScript string operations used:
`startsWith`, `includes`, `toLowerCase`, `trim`, `String(n)`, `padStart` and the string
order used by the sort).

Environment effects are parameters:
- `jwtDecode` is a total function `decode` from token to optional claims;
- `Date.now()` is a millisecond clock value `clockMs` or `baseMs`, and `toISOString` an opaque renderer `iso`;
- `crypto.randomUUID()` is an id oracle `uuid` indexed by how many ids were drawn (`uuidsDrawn`);
- local storage is a map field of the session store.

## Model

| member | source | states |
|---|---|---|
| Session.StoredToken | miro/src/shared/model/session.ts:18 | the stored token is present exactly when the `token` key is in local storage, and is its value |
| Session.EpochSeconds | miro/src/shared/model/session.ts:37 | the current second is the floor of the millisecond clock divided by 1000 |
| Session.Decide | miro/src/shared/model/session.ts:33-61 | each branch of `refreshToken` holds exactly under its condition: no truthy token; a live token returned as is; an expiring token starting a refresh when none is in flight; or joining the one in flight |
| Session.ImmediateReplies | miro/src/shared/model/session.ts:34-61 | a caller gets an immediate answer iff there is no truthy token or it is live; that answer is null iff there is no truthy token, and is the stored token iff it is live |
| Session.BufferBoundary | miro/src/shared/model/session.ts:38-40 | the 30-second buffer is inclusive: exactly 30 seconds left triggers renewal, 31 does not |
| Session.Delivered | miro/src/shared/model/session.ts:44-52 | the refresh yields the new access token when it is truthy, and null otherwise |
| Session.SessionStore.constructor | miro/src/shared/model/session.ts:18 | the token cell starts as the stored token, with no refresh in flight |
| Session.SessionStore.CurrentSession | miro/src/shared/model/session.ts:30 | the session is null iff no truthy token is held, and otherwise is the token's decoded claims |
| Session.SessionStore.Login | miro/src/shared/model/session.ts:20-23 | local storage and the token cell both hold the new token, and nothing else changes |
| Session.SessionStore.Logout | miro/src/shared/model/session.ts:25-28 | the key is removed from local storage, the cell becomes null, and nothing else changes |
| Session.SessionStore.RequestRefresh | miro/src/shared/model/session.ts:33-61 | the reply is the one `Decide` prescribes; an immediate reply leaves the slot alone; a first expiring caller starts exactly one request; later ones join it; the token is never changed here |
| Session.SessionStore.Resolve | miro/src/shared/model/session.ts:42-53 | a truthy new token is logged in, anything else logs out, and the in-flight outcome records the delivered value |
| Session.SessionStore.Reject | miro/src/shared/model/session.ts:42-56 | a rejected refresh changes neither local storage nor the token, and records the rejection as the outcome |
| Session.SessionStore.Settle | miro/src/shared/model/session.ts:54-58 | the slot is emptied whatever the outcome, and every waiter of that request receives its one outcome |
| Session.ConcurrentRefresh | miro/src/shared/model/session.ts:40-58 | n concurrent callers with an expiring token start exactly one refresh request; all of them await it; that request settles with exactly n waiters; all receive its one outcome, which the token cell then holds |
| Interceptor.BypassIsPrefixTest | miro/src/shared/api/instance.ts:21-23 | the bypass is a prefix test: extending a bypassed path keeps it bypassed |
| Interceptor.BypassExamples | miro/src/shared/api/instance.ts:21-23 | login and refresh paths, with suffixes, are bypassed; register, board paths and a prefixed `/api/auth/login` are not |
| Interceptor.BearerValue | miro/src/shared/api/instance.ts:25 | the header value is `Bearer ` followed by exactly the token |
| Interceptor.BearerToken | miro/src/shared/api/instance.ts:25 | reading a bearer value back gives a token iff the value starts with `Bearer `, and that token rebuilds the value |
| Interceptor.BearerRoundTrip | miro/src/shared/api/instance.ts:25 | the token read back from the header is the token that was set |
| Interceptor.WithToken | miro/src/shared/api/instance.ts:25 | only the `Authorization` entry changes; a truthy token is set and reads back; a falsy one leaves the headers as they were |
| Interceptor.Request.constructor | miro/src/shared/api/instance.ts:19-20 | a request carries its URL, its pathname and its headers |
| Interceptor.OnRequest | miro/src/shared/api/instance.ts:19-27 | a bypassed request is forwarded untouched and the session is not consulted; any other request calls `refreshToken` exactly once; an immediate token becomes the bearer header; a pending one suspends the request on that refresh call, starting it when none was in flight and joining the one in flight otherwise, with the session's slot and counters stated as for `refreshToken` |
| Interceptor.SharedRefresh | miro/src/shared/api/instance.ts:19-27 | two requests intercepted while the token is expiring and nothing is in flight wait on the same single refresh request, which then has two waiters |
| Interceptor.Resume | miro/src/shared/api/instance.ts:24-26 | after the awaited refresh, a rejection fails the request with its headers unchanged; a value is set as the bearer header when truthy |
| AuthMock.FirstWithEmail | miro/src/shared/api/mocks/handlers/auth.ts:22 | the index is -1 iff no user has the email; otherwise it is the first user with it |
| AuthMock.Authenticate | miro/src/shared/api/mocks/handlers/auth.ts:22-34 | success iff the email is known and a non-empty stored password equals the submitted one; the user returned has that email; every failure is 401 `INVALID_CREDENTIALS` |
| AuthMock.NewUser | miro/src/shared/api/mocks/handlers/auth.ts:73-76 | the new user carries the registered email |
| AuthMock.SeedInvariant | miro/src/shared/api/mocks/handlers/auth.ts:7-15 | the seeded administrator store satisfies the store invariant |
| AuthMock.IdsDistinct | miro/src/shared/api/mocks/handlers/auth.ts:74 | under the store invariant no two users share an id |
| AuthMock.RegisterKeepsInvariant | miro/src/shared/api/mocks/handlers/auth.ts:61-84 | registering an unknown email keeps emails distinct, ids equal to position plus one, and the password map keyed by exactly the users' emails |
| AuthMock.LoginAfterRegister | miro/src/shared/api/mocks/handlers/auth.ts:19-84 | after registering an unknown email with a non-empty password, logging in with them succeeds and yields the new user |
| AuthMock.EmptyPasswordNeverLogsIn | miro/src/shared/api/mocks/handlers/auth.ts:23-26 | an empty password never logs in, so a user registered with one can never log in |
| AuthMock.AuthBackend.constructor | miro/src/shared/api/mocks/handlers/auth.ts:7-15 | the store starts with the administrator, id "1", and password "123456", satisfying the invariant |
| AuthMock.AuthBackend.Login | miro/src/shared/api/mocks/handlers/auth.ts:19-53 | 200 with a stored user of that email iff the credentials match; 401 `INVALID_CREDENTIALS` otherwise |
| AuthMock.AuthBackend.Register | miro/src/shared/api/mocks/handlers/auth.ts:56-97 | a known email gives 400 `USER_EXISTS` and no change; otherwise exactly one user is appended, its password recorded, 201 returned, and the invariant kept |
| Strings.StartsWithAppend | miro/src/shared/api/instance.ts:21 | a prefix test is unaffected by what is appended |
| Strings.ContainsInfix | miro/src/shared/api/mocks/handlers/boards.ts:107 | a string includes any needle placed inside it |
| Strings.ToLower | miro/src/shared/api/mocks/handlers/boards.ts:35 | lower-casing keeps the length, turns each capital A-Z into its small letter, keeps every other character, and leaves no capital |
| Strings.ToLowerIdempotent | miro/src/shared/api/mocks/handlers/boards.ts:107 | lower-casing an already lower-cased string changes nothing |
| Strings.ToLowerKeepsWhitespace | miro/src/shared/api/mocks/handlers/boards.ts:94 | lower-casing neither creates nor removes whitespace at any position |
| Strings.Trim | miro/src/shared/api/mocks/handlers/boards.ts:94 | the result is an infix s[i..j] with only whitespace outside it, and neither starts nor ends with whitespace, so exactly the outer whitespace is removed; all-whitespace trims to empty; an already-trimmed string is unchanged |
| Strings.Decimal | miro/src/shared/api/mocks/handlers/auth.ts:74 | `String(n)` is a non-empty run of digits without a leading zero; only 0 renders as "0" |
| Strings.DecimalValue | miro/src/shared/api/mocks/handlers/auth.ts:74 | the digits of `String(n)` denote n |
| Strings.DecimalDistinct | miro/src/shared/api/mocks/handlers/auth.ts:74 | different counts give different decimal strings |
| Strings.PadStart | miro/src/shared/api/mocks/handlers/boards.ts:66 | padding reaches the width, keeps the string as a suffix and fills only with the fill character |
| Strings.StrLeTotal | miro/src/shared/api/mocks/handlers/boards.ts:51-53 | any two strings are comparable |
| Strings.StrLeTransitive | miro/src/shared/api/mocks/handlers/boards.ts:51-53 | the string order is transitive |
| Strings.StrLeAntisymmetric | miro/src/shared/api/mocks/handlers/boards.ts:51-53 | strings ordered both ways are equal |
| BoardQuery.ParseBooleanParam | miro/src/shared/api/mocks/handlers/boards.ts:33-38 | absent gives undefined; true iff it lower-cases to "true"; false iff it lower-cases to "false" |
| BoardQuery.ParseBooleanIgnoresCase | miro/src/shared/api/mocks/handlers/boards.ts:35-36 | strings that lower-case alike parse alike |
| BoardQuery.ParseBooleanExamples | miro/src/shared/api/mocks/handlers/boards.ts:33-38 | "TRUE" and "False" parse; "1", "" and "true " do not |
| BoardQuery.NormalizeSearch | miro/src/shared/api/mocks/handlers/boards.ts:94 | an absent search is ""; a present one is the lower-cased trim of the parameter, so it neither starts nor ends with whitespace, holds no capital A-Z, and is no longer than the parameter |
| BoardQuery.ParseSortKey | miro/src/shared/api/mocks/handlers/boards.ts:92 | an absent sort defaults to `createdAt` |
| BoardQuery.InOrderTotal | miro/src/shared/api/mocks/handlers/boards.ts:44-54 | the comparator orders any two boards under every key |
| BoardQuery.InOrderTransitive | miro/src/shared/api/mocks/handlers/boards.ts:44-54 | the comparator order is transitive under every key |
| BoardQuery.Insert | miro/src/shared/api/mocks/handlers/boards.ts:44-54 | insertion adds exactly the one board to the multiset |
| BoardQuery.InsertSorted | miro/src/shared/api/mocks/handlers/boards.ts:44-54 | inserting into a sorted sequence keeps it sorted |
| BoardQuery.SortBoards | miro/src/shared/api/mocks/handlers/boards.ts:42-56 | the result is a permutation of the input, sorted by the comparator |
| BoardQuery.SortOrders | miro/src/shared/api/mocks/handlers/boards.ts:47-53 | by name ascending, by date descending, favourites before non-favourites |
| BoardQuery.Filter | miro/src/shared/api/mocks/handlers/boards.ts:104-107 | a filter returns no more boards than it was given, each one from the input and satisfying the predicate |
| BoardQuery.FilterCounts | miro/src/shared/api/mocks/handlers/boards.ts:104-107 | a filter keeps every board satisfying the predicate as often as it occurs, and no other |
| BoardQuery.FilterAppend | miro/src/shared/api/mocks/handlers/boards.ts:104-107 | filtering a concatenation filters each part, so kept boards keep their input order |
| BoardQuery.FilterSingle | miro/src/shared/api/mocks/handlers/boards.ts:104-107 | a single board is kept exactly when it satisfies the predicate |
| BoardQuery.ApplyFilters | miro/src/shared/api/mocks/handlers/boards.ts:101-108 | every filtered board has the requested flag and a lower-cased name that includes the search |
| BoardQuery.ApplyFiltersCounts | miro/src/shared/api/mocks/handlers/boards.ts:101-108 | the filter chain keeps every matching board as often as it occurs in the table, and no other |
| BoardQuery.ApplyFiltersAppend | miro/src/shared/api/mocks/handlers/boards.ts:101-108 | the filter chain distributes over concatenation, so the filtered boards keep the table's order |
| BoardQuery.NoFiltersKeepAll | miro/src/shared/api/mocks/handlers/boards.ts:101-108 | with no flag and no search, every board is kept in place |
| BoardQuery.PageSize | miro/src/shared/api/mocks/handlers/boards.ts:115 | the page size equals a positive limit and is 1 for any other limit |
| BoardQuery.PageCount | miro/src/shared/api/mocks/handlers/boards.ts:113 | the page count is the fewest pages, at least one, that hold all items |
| BoardQuery.Paginate | miro/src/shared/api/mocks/handlers/boards.ts:112-116 | total is the result size; the page number is clamped into the page range; the list is the slice of at most one page starting at that page's first item |
| BoardQuery.NonEmptyPage | miro/src/shared/api/mocks/handlers/boards.ts:113-116 | a non-empty result never yields an empty page, whatever page is asked for |
| BoardQuery.FirstPageFull | miro/src/shared/api/mocks/handlers/boards.ts:112-116 | the first page of at least one page of boards is full |
| BoardQuery.EveryBoardOnItsPage | miro/src/shared/api/mocks/handlers/boards.ts:112-116 | the board at index i is listed on page i / size + 1, at position i mod size |
| BoardsMock.FindIndex | miro/src/shared/api/mocks/handlers/boards.ts:222 | -1 iff no board has the id; otherwise the first board with it |
| BoardsMock.SeedRunFields | miro/src/shared/api/mocks/handlers/boards.ts:61-72 | board i of a seeding run takes the i-th fresh id, is named `Board #` and i + 1 padded to four digits, carries three equal timestamps i minutes before the base time, and is a favourite iff i is even |
| BoardsMock.SeedRunStep | miro/src/shared/api/mocks/handlers/boards.ts:61-72 | each loop turn appends the next board of the run |
| BoardsMock.SeedNameExamples | miro/src/shared/api/mocks/handlers/boards.ts:66 | seeded names are four-digit numbered from "Board #0001" |
| BoardsMock.BoardTable.constructor | miro/src/shared/api/mocks/handlers/boards.ts:17-30 | the table starts with the two fixed boards |
| BoardsMock.BoardTable.SeedBoards | miro/src/shared/api/mocks/handlers/boards.ts:59-75 | exactly count boards are appended after the unchanged existing ones, count ids are drawn, and count is returned |
| BoardsMock.BoardTable.EnsureBoardsCount | miro/src/shared/api/mocks/handlers/boards.ts:78-82 | afterwards there are at least min boards; a table that had them is untouched; a shorter one is seeded exactly up to min, drawing one id per seeded board |
| BoardsMock.Listing | miro/src/shared/api/mocks/handlers/boards.ts:101-123 | every listed board passes the filters; total counts exactly the matching boards; the first unfiltered page of a table holding a full page is full |
| BoardsMock.PageKeepsFilters | miro/src/shared/api/mocks/handlers/boards.ts:110-116 | any page of a permutation of filtered boards lists only boards that pass the filters |
| BoardsMock.BoardTable.ListBoards | miro/src/shared/api/mocks/handlers/boards.ts:86-126 | only the first unfiltered page tops the table up, by exactly the seeding run of the missing boards, drawing one id for each; other requests leave it alone; the answer is the listing of the resulting table, full on the topped-up first page |
| BoardsMock.BoardTable.CreateBoard | miro/src/shared/api/mocks/handlers/boards.ts:129-150 | a falsy name gives 400 and no change; otherwise exactly one non-favourite board with that name and equal timestamps is appended and returned with 201 |
| BoardsMock.BoardTable.GetBoard | miro/src/shared/api/mocks/handlers/boards.ts:153-164 | 200 with the first board of that id iff one exists; 404 `NOT_FOUND` otherwise; the table is only read |
| BoardsMock.BoardTable.RenameBoard | miro/src/shared/api/mocks/handlers/boards.ts:167-190 | unknown id gives 404 before the body is checked; a falsy name gives 400; otherwise only that board's name and `updatedAt` change |
| BoardsMock.BoardTable.SetFavorite | miro/src/shared/api/mocks/handlers/boards.ts:193-216 | unknown id gives 404; a non-boolean flag gives 400; otherwise only that board's flag and `updatedAt` change |
| BoardsMock.BoardTable.DeleteBoard | miro/src/shared/api/mocks/handlers/boards.ts:219-233 | unknown id gives 404 and no change; otherwise the first board with that id is spliced out and 204 returned |
| BoardsMock.SpliceKeepsOthers | miro/src/shared/api/mocks/handlers/boards.ts:231 | deleting one board shortens the table by one, keeps the others in order, and removes exactly that board from the multiset |

## Left out

- Session.Decide: `jwtDecode` is a parameter, and its success on every truthy token is demanded of callers. The code does not catch a decoding error, so a malformed token makes `refreshToken` throw. The model does not reach that case.
- Session.SessionStore.CurrentSession: `session` also decodes without a catch and throws on a malformed token. Its `Decodable` precondition demands the same of callers, and the model does not reach that throw.
- Session: the React state hook and the global store wrapper are not modelled. The store is one object whose fields are the token cell, local storage and the module-level in-flight promise.
- Session.SessionStore.RequestRefresh: JavaScript promises and the event loop are not modelled. Interleavings are sequences of the `RequestRefresh`, `Resolve`, `Reject` and `Settle` events. The refresh request itself is an input (`Resolve` with the response's access token, or `Reject`).
- Session.SessionStore.RequestRefresh: the closure's view of `token` is taken to be the current state, so stale React closures are not modelled.
- Interceptor.OnRequest: `new URL(...)` parsing is not modelled; the pathname is given with the request.
- Interceptor.WithToken: headers are a map with exact-case names, whereas the Fetch `Headers` object matches names case-insensitively.
- Interceptor: the base URL configuration and the query-hook clients are not modelled; they only wire the fetch client.
- AuthMock.AuthBackend.Login: the access token, the refresh-token cookie and `generateTokens` are not modelled. The mock session module that signs and verifies tokens is not part of this model, and neither is `verifyTokenOrThrow` in the board handlers.
- AuthMock.AuthBackend.Register: the `await delay()` and `await generateTokens` suspensions are not modelled; the model runs each handler atomically. In the source, two concurrent registrations can both pass the duplicate check and both compute the id before either pushes. That can give two users the same email, or two users with different emails the same id `String(n + 1)`. The store invariant (distinct emails, ids equal to position plus one) and `RegisterKeepsInvariant` therefore hold only when handlers run one at a time.
- AuthMock: a request body is taken to have string `email` and `password` fields; JSON parsing failures are not modelled.
- BoardsMock.BoardTable.ListBoards: `page` and `limit` arrive as integers. `Number(...)` of a malformed or fractional parameter (NaN, 1.5) is not modelled.
- BoardsMock.BoardTable.CreateBoard: the JSON body's `name` is an optional string, and `None` also stands for a non-string value.
- BoardsMock.BoardTable.RenameBoard: the in-place mutation of the board object shared with the array is modelled as a sequence update. Aliasing of board objects already handed out in replies is not modelled.
- BoardsMock.BoardTable.SeedBoards: the default `count = 1000` of the exported function is not modelled; callers always pass a count.
- BoardsMock.BoardTable: `new Date()` is read through the parameters `baseMs`, `now`, `firstStamp` and `secondStamp`, and `toISOString` through the opaque `iso`. The mock's network `delay` is not modelled.
- BoardQuery.InOrder: `localeCompare` is modelled as ordinal code-point order. Locale collation is not modelled.
- Strings.ToLower: only ASCII letters are lower-cased; full Unicode case mapping is not modelled.
- BoardQuery.SortBoards: stability is not stated. The insertion sort keeps equal boards in input order, as the JavaScript sort does, but no lemma says so.
- The page components and the rest of the application's UI are not part of this model.
