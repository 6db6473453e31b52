# Timers: session store, timer lifecycle and CLI helpers

A verified Dafny model of the core of a small timer service: an HTTP server that
keeps users, sessions and timers in three MongoDB collections, and a command-line
client that logs in, starts and stops timers and prints them as a table.

- `server.dfy` (module `TimerServer`): the server's handlers as a class `Store`
  whose fields are the three collections (`users` and `timers` as sequences in
  natural order, `sessions` as a map from token to user id). `login`, `signup`,
  `auth`, `createSession`, `deleteSession`, `findIsActiv`, `createTimer`, the
  stop handler and `logout` are methods or functions over that state; the clock
  `Date.now()` is the parameter `now`. The stop handler is specified by the pure
  function `Stop`, which states what happens to every record and which answer
  (204, 400, 404) is given. The store invariant `Store.Valid` says ids are
  distinct, every session names an existing user, and every timer is either
  active without `end`/`duration` or stopped with `duration == end - start`.
- `format_time.dfy` (module `TimeFormat`): `formatTime` and its inner
  `timeString`, with decimal rendering and the lemmas about field ranges,
  recombination, padding, shape, length and read-back.
- `client.dfy` (module `TimerClient`): the `showTable` row builder, the `status`
  dispatch with its by-id lookup, and a class `Cli` holding the session file's
  contents and the shared table, with the guards of `signupOfLogin`, `logout`,
  `start` and `stop`.
- `search.dfy` (module `Search`): "first element that matches", used for
  MongoDB's `findOne` and JavaScript's `Array.prototype.find`.
- `fresh_names.dfy` (module `FreshNames`): proof that a non-empty string not yet
  in use always exists, which is all the model assumes of `nanoid()` and of the
  database's ObjectId generator.
- `end_to_end.dfy` (module `EndToEnd`): what the client's table shows for the
  elements of the server's listing.
- `wrappers.dfy`: the `Option` type standing for `undefined`/`null`.

Behaviour of the code a reader might not expect, which the model keeps:

- A second stop of a timer is not refused. It overwrites `end` and `duration`
  and answers 204, unless it happens in the same millisecond, where MongoDB
  modifies nothing and the answer is 400 (`TimerServer.StopTwice`).
- Signup does not check that the username is free, so login finds the first
  user with the name (`TimerServer.CheckCredentials`).
- Logout with a token that resolves to no user answers an error object; it
  changes nothing.
- A listing without the `isActive` parameter gets no answer at all (`NoReply`).
- Stopping needs no session and checks no owner.

## Model

| member | source | states |
|---|---|---|
| `Search.FirstIndex` | server/index.js:60 | The position found is the first one whose element matches, or the length when none matches. |
| `Search.First` | client/js/timer.js:162 | The result is absent exactly when no element matches; a present result matches and sits at a position before which no element matches, so it is the first match. |
| `Search.FirstOfConcat` | client/js/timer.js:161-162 | Searching `active ++ stopped` finds the first match in `active` if there is one, otherwise the first in `stopped`. |
| `FreshNames.MaxLength` | server/index.js:76 | Every string in the set is at most the returned length long. |
| `FreshNames.Unused` | server/index.js:76 | A non-empty string outside any finite set exists, so a fresh token or id can always be chosen. |
| `FreshNames.NewName` | server/index.js:76 | The generator returns a non-empty string that is not among those in use. |
| `TimerServer.HashInjective` | server/index.js:30-33 | Two passwords have the same stored digest exactly when they are equal. |
| `TimerServer.UserByName` | server/index.js:60 | No user is found exactly when no user has that username; otherwise the first user in natural order with that username. |
| `TimerServer.UserById` | server/index.js:72 | No user is found exactly when no user has that id; otherwise a stored user with that id. |
| `TimerServer.CheckCredentials` | server/index.js:98-104 | Login succeeds exactly when the first user with that username stores the digest of the given password; the user returned is that first user with the name, so the session is bound to its id. |
| `TimerServer.Resolve` | server/index.js:62-96 | A user is attached exactly when the header is present and non-empty, names a session, and that session's user id is a stored user; that user is the one returned. |
| `TimerServer.Selected` | server/index.js:38 | The query returns exactly the timers of that user whose `isActive` equals the flag, and the result is no longer than the collection. |
| `TimerServer.SelectedSubMultiset` | server/index.js:38 | The query returns no timer more often than the collection holds it. |
| `TimerServer.SelectedIdsDistinct` | server/index.js:38 | With distinct ids in the collection, the returned timers have distinct ids, so each matching timer is returned exactly once. |
| `TimerServer.Listing` | server/index.js:35-46 | The items are the timers of `Selected` for `isActive == "true"`, one per timer and in the same order, each of the caller and with the requested `isActive`; active items carry `progress = now - start` and their id text, stopped items carry neither. |
| `TimerServer.FindIsActiv` | server/index.js:35-46 | The `forEach` loop that decorates each active item produces exactly `Listing`. |
| `TimerServer.ListingDurations` | server/index.js:35-46 | In a consistent store an active listing never carries `duration`, and a stopped listing always carries `duration = end - start`, the value the stop handler fixed. |
| `TimerServer.TimerIndex` | server/index.js:151-154 | The position is that of the first timer with the id, or the length when no timer has it. |
| `TimerServer.StopRecord` | server/index.js:156-167 | The `$set` keeps id, start, description and owner, marks the timer stopped with `end = now`, and leaves it consistent (`duration = end - start`). |
| `TimerServer.Stop` | server/index.js:147-175 | An id that names no timer answers 404 and changes nothing; otherwise exactly the record with that id gets `isActive = false`, `end = now`, `duration = now - start`, with no owner or `isActive` check, and the answer is 400 exactly when that record already held those values. |
| `TimerServer.StopKeepsInvariant` | server/index.js:156-167 | Stopping keeps ids distinct and every timer consistent. |
| `TimerServer.StopTwice` | server/index.js:156-170 | A second stop answers 204 and overwrites `end` and `duration` with the later time, or 400 when both stops happen in the same millisecond. |
| `TimerServer.BoundTokenResolves` | server/index.js:62-83 | A token bound to a stored user's id resolves to that very user. |
| `TimerServer.LoginAfterSignup` | server/index.js:98-120 | After a signup whose username no earlier user has, login with the same password finds the new user. |
| `TimerServer.Store.CreateSession` | server/index.js:75-83 | A new non-empty token not already in the store is bound to the user id; nothing else changes. |
| `TimerServer.Store.Login` | server/index.js:98-107 | On success a fresh token is bound to the user found and resolves back to that user; on failure the error answer leaves sessions unchanged; users and timers never change. |
| `TimerServer.Store.Signup` | server/index.js:109-122 | Exactly one user with a fresh id, the username and the password's digest is appended, and a fresh token bound to it resolves to it. |
| `TimerServer.Store.ListTimers` | server/index.js:124-132 | No caller answers 401, a missing `isActive` gives no answer, otherwise the answer is `Listing` for `isActive == "true"`, with `duration` present exactly in stopped listings. |
| `TimerServer.Store.CreateTimer` | server/index.js:134-145 | No caller answers 401 and changes nothing; otherwise exactly one active timer with `start = now`, the description and the caller's id is appended under a fresh id, which is answered with 201; the status is 201 exactly when there is a caller. |
| `TimerServer.Store.StopTimer` | server/index.js:147-175 | The answer and the new timers are those of `Stop`; the status is 404 exactly when no timer has the id; users and sessions do not change. |
| `TimerServer.Store.DeleteSession` | server/index.js:85-87 | Exactly the session with that token is removed. |
| `TimerServer.Store.Logout` | server/index.js:177-181 | A header that resolves removes exactly its session; one that does not answers the error object and changes nothing. |
| `TimeFormat.Decimal` | client/js/timer.js:142 | `String(n)` is a non-empty digit string, one digit exactly below 10, at most two exactly below 100, and starts with '0' only for 0. |
| `TimeFormat.DecimalRoundTrip` | client/js/timer.js:142 | Reading the decimal rendering of `n` back gives `n`. |
| `TimeFormat.Pad` | client/js/timer.js:142 | Each field has at least two digits, exactly two below 100, reads back as the number when positive, has no leading zero from 10 up, and is "00" otherwise. |
| `TimeFormat.TimeString` | client/js/timer.js:142 | A field is the number's digits ("00" when not positive, a leading zero only below 10) followed by one colon, at least three characters and exactly three below 100. |
| `TimeFormat.FormatTime` | client/js/timer.js:137-148 | The result has at least 8 characters, colons three and six places from the end, and digits everywhere else. |
| `TimeFormat.FieldsInRange` | client/js/timer.js:137-146 | Minute and second fields lie in 0..59 and `hours*3600 + minutes*60 + seconds` is the whole seconds of the input. |
| `TimeFormat.FormatTimeShape` | client/js/timer.js:142-147 | The result is three padded fields joined by two colons and does not end in a colon. |
| `TimeFormat.FormatTimeLength` | client/js/timer.js:142-147 | From 0 up to 100 hours the result has exactly 8 characters with colons at positions 2 and 5. |
| `TimeFormat.FormatTimeReadsBack` | client/js/timer.js:137-147 | For a non-negative input, the three digit fields of the result recombine to the whole seconds of the input. |
| `TimeFormat.SubSecondIsZero` | client/js/timer.js:137-147 | Every input from 0 to 999 renders as "00:00:00". |
| `TimeFormat.NegativeWrapsToLastSecond` | client/js/timer.js:137-147 | Flooring makes -1 render as "00:59:59". |
| `TimerClient.FormatField` | client/js/timer.js:131 | A missing duration or progress renders as "00:00:00"; a present one as `formatTime` of it. |
| `TimerClient.MakeRow` | client/js/timer.js:128-132 | The ID cell is the id; the Task cell is the description plus " (stopped)" exactly when the item is inactive and the argument is not "old", and plus " " otherwise; the Time cell is the formatted duration of a stopped item or progress of an active one. |
| `TimerClient.Rows` | client/js/timer.js:128-132 | One row per item in input order, each with the item's id, a Task cell that is the description plus " (stopped)" exactly when the item is inactive and the argument is not "old" and plus " " otherwise, and the formatted duration or progress. |
| `TimerClient.FindById` | client/js/timer.js:162 | Nothing is found exactly when no item has the id; otherwise the first item with that id. |
| `TimerClient.StatusPlan` | client/js/timer.js:150-171 | No token fetches nothing; no argument queries active timers; "old" queries stopped ones; any other argument queries both and either shows one timer or reports the id unknown, the latter exactly when neither list has it; the timer shown is the first with that id in the active list followed by the stopped list. |
| `TimerClient.Cli.Token` | client/js/timer.js:23-30 | A token is used exactly when the session file holds a non-empty one, and it is that one. |
| `TimerClient.Cli.UpdateSessionFile` | client/js/timer.js:14-21 | The stored token is replaced by the new one, whether or not a file existed. |
| `TimerClient.Cli.DeleteSessionFile` | client/js/timer.js:10-12 | The stored token is removed. |
| `TimerClient.Cli.SignupOrLogin` | client/js/timer.js:32-47 | A reply without a token leaves the stored token unchanged, printing the wrong-credentials line only for login; a reply with a token replaces it. |
| `TimerClient.Cli.Logout` | client/js/timer.js:59-73 | With no stored token nothing is sent and nothing changes; otherwise the token is sent and the file is removed once the server has answered. |
| `TimerClient.Cli.Start` | client/js/timer.js:75-100 | No request without a description or without a stored token; otherwise the request carries both. |
| `TimerClient.Cli.Stop` | client/js/timer.js:102-124 | The same guards as start; a sent stop prints "stopped" exactly when the server answered 204 and "Unknown timer ID" otherwise. |
| `TimerClient.Cli.ShowTable` | client/js/timer.js:126-135 | The table keeps its rows and gains one row per item, in input order. |
| `TimerClient.Cli.Status` | client/js/timer.js:150-171 | Queries and outcome are those of `StatusPlan`; shown timers are appended to the table as rows; the session is untouched. |
| `EndToEnd.ActiveRowShowsProgress` | client/js/timer.js:128-132 | A row built from an active listing element shows its id, its description with no "(stopped)" mark, and the formatted `now - start` the server computed at server/index.js:41. |
| `EndToEnd.StoppedRowShowsDuration` | client/js/timer.js:128-132 | In a consistent store, a row built from a stopped listing element shows the formatted `duration`, which equals `end - start` as fixed by the stop handler, marked "(stopped)" exactly when the argument is not "old". |

## Left out

- Express routing and middleware chaining, the MongoDB connection and its pool, `dotenv` and the port listener: the handlers are methods over in-memory collections.
- SHA-256: a digest is kept symbolically (`Sha256(password)`), which makes hashing injective; collisions are not modelled.
- `nanoid()` and ObjectId generation: any non-empty string not already in use. The 24-hex-digit ObjectId format and its parser are not modelled; an id text that cannot be parsed and one that names no timer both answer 404 with no change, because no stored id equals it. Upper-case hex spellings that the parser would accept are not modelled.
- `findIsActiv` reads `Date.now()` once per item inside its `forEach`, so later items may see a later clock; the model uses one `now` for the whole listing.
- The stop handler reads `Date.now()` twice; the model reads one `now`, so `duration == end - start` holds exactly.
- After a 404 the stop handler goes on, fails on `timer._id` and tries to answer 404 again; the model answers 404 once and changes nothing.
- Storage failures: signup's 400 answer (an insert error, such as a unique index that is not part of this code), the 400 answer of `POST /api/timers` and the 404 of the stop handler's `catch` for errors other than the above are not modelled; storage always succeeds.
- A repeated `isActive` query parameter (which Express turns into an array) is not modelled; the parameter is an optional string.
- TimerServer.Selected: states which timers the query returns and, with `SelectedSubMultiset` and `SelectedIdsDistinct`, how often, but not that they keep the collection's natural order (the definition does keep it).
- TimerServer.LoginAfterSignup: holds only when no earlier user has the same username, since nothing in the code keeps usernames unique.
- All `console.log` output, `inquirer` prompts, `kleur` colouring, `table.toString()` rendering, and the login and signup commands printing success whatever happened.
- Client transport failures (an `axios` call that throws) are not modelled, except that `logout` removes the session file only after the server answered. `getSessionId` returns the file's contents as they are.
- The client's stop request puts its `X-SessionId` header in the request body; since the stop handler uses no session, this makes no difference to the model.
- JavaScript number semantics in `formatTime`: inputs are integer milliseconds and `Math.floor` of a quotient is integer division rounding down; floating-point rounding for very large inputs is not modelled.
