# Session, routing and small stores of an operations front end, in Dafny

This project models the client-side logic of a single-page operations tool written in
JavaScript with Vue, Vue Router and Pinia:

- **the session store** (`src/stores/userStore.js`): the signed-in user, the `isSigningOut`
  overlay flag, the admin list and blacklist fetched from the server, the user record
  persisted under the local-storage key `userInfo`, the getters `isAuthenticated`, `token`
  and `isAdmin`, and the actions `loadAdminList`, `loadUserFromStorage`, `signIn`, `signOut`
  and `forceSignOutDueToInactivity`. Module `Session` states each action as a function from
  the old state to the new one and proves properties of them. Module `UserStore` is the store
  as a class whose methods update its fields step by step. Each method is proved to reach
  the state the `Session` function computes.
- **the router** (`src/router/index.js`): the route table, redirect resolution and the
  `beforeEach` decision chain (module `Router`).
- **the companies list** (`src/stores/companyStore.js`): a class over a sequence, with
  `findIndex` as a function (module `CompanyStore`).
- **the tab-data cache** (`src/stores/appState.js`): a class over a map (module `AppState`).
- **the CSV text** built by `exportCSV` (`src/utils/exportCSV.js`), with a split function that
  reads it back (module `ExportCsv`).

Time is an integer number of milliseconds passed in as `now`. The outcome of the admin-list
request is an input value (`FetchResult`). A `tokenExpiration` is missing, an invalid date, or a
moment (`Expiry`). An invalid date compares false with every date: such a user is kept by
`loadUserFromStorage` and is never authenticated. Local storage is a map from keys to a `Stored`
value: a serialised user, the empty string, or text that does not parse to a user.

The model follows the code. It has no wildcard blacklist entry, and `isAdmin` does not require
authentication: `Session.ExpiredAdminIsStillAdmin` exhibits an expired administrator. The guard
has no blacklist or admin-only step. It sends an authenticated user on `/login` to `/home`
whatever their role. The admin list is fetched again on every load. No requests are coalesced.

The guard calls `loadUserFromStorage` without awaiting it. So it reads `isAuthenticated` from
the state the load has reached at its first `await`: `Session.LoadUserUntilFirstAwait`.
`Session.FirstAwaitSeesSettledAuthentication` proves that this gives the same answer as the
settled state.

## Model

| member | source | states |
|---|---|---|
| `Session.IsAuthenticated` | src/stores/userStore.js:13-17 | authenticated implies a non-empty token and a present, valid expiry that has not passed; a non-empty token with a moment of expiry the load would not call expired implies authenticated |
| `Session.IsAdmin` | src/stores/userStore.js:19-24 | admin implies the lower-cased e-mail is on the admin list and not on the blacklist; no user or an empty e-mail is never admin |
| `Session.AdminIgnoresEmailCase` | src/stores/userStore.js:21 | replacing the user's e-mail by its lower-cased form does not change `isAdmin` |
| `Session.Token` | src/stores/userStore.js:18 | the token is present exactly when a user is, and is that user's token |
| `Session.ExpiredIsNotAuthenticated` | src/stores/userStore.js:13-17 | a user whose expiry is at or before `now` is not authenticated, whatever the token |
| `Session.ExpiredAdminIsStillAdmin` | src/stores/userStore.js:19-24 | some state reads as admin and not authenticated: `isAdmin` ignores expiry |
| `Session.LowerAll` | src/stores/userStore.js:36-37 | each list entry is lower-cased, with length and order kept |
| `Session.LowerIdempotent` | src/stores/userStore.js:21 | lower-casing an already lower-cased e-mail changes nothing |
| `Session.Normalized` | src/stores/userStore.js:36-37 | a missing key gives `[]`; a present list gives its lower-cased entries, same length and order |
| `Session.LoadAdminList` | src/stores/userStore.js:28-47 | only the two lists change; on a response object each becomes its normalised response list (`[]` for a missing key); a falsy response or any failure empties both |
| `Session.AdminAfterLoad` | src/stores/userStore.js:19-24 | after a successful load, `isAdmin` holds iff the e-mail is non-empty, on the admin list up to case, and on no blacklist entry up to case |
| `Session.FailedLoadRevokesAdmin` | src/stores/userStore.js:38-46 | after a failed or falsy response nobody is admin |
| `Session.SignIn` | src/stores/userStore.js:69-74 | the user is set, its serialisation is stored under `userInfo`, and the lists are those `loadAdminList` gives for the response |
| `Session.BeginSignOut` | src/stores/userStore.js:77 | `isSigningOut` is raised at once; nothing else changes |
| `Session.CompleteSignOut` | src/stores/userStore.js:79-90 | no user, `userInfo` removed, other keys and both lists kept, `isSigningOut` lowered |
| `Session.SignOut` | src/stores/userStore.js:76-92 | after the whole sign-out: no user, `userInfo` removed, flag lowered, lists untouched |
| `Session.ForceSignOutDueToInactivity` | src/stores/userStore.js:95-101 | no change unless authenticated; otherwise exactly the completed sign-out of the state |
| `Session.LoadUserFromStorage` | src/stores/userStore.js:49-67 | absent or empty entry: no change; unparseable: key removed and no user; expired: the sign-out of the state holding the stored user; otherwise the stored user with storage kept and the lists reloaded from the response |
| `Session.LoadUserUntilFirstAwait` | src/stores/userStore.js:49-59 | up to the first `await`: lists untouched; a stored user is set with storage kept and the flag raised iff expired; unparseable text removes the key and the user and keeps the flag |
| `Session.KeptButNotAuthenticated` | src/stores/userStore.js:16-59 | a stored user with no expiry or an invalid date is kept by the load but is not authenticated |
| `Session.FirstAwaitSeesSettledAuthentication` | src/stores/userStore.js:49-67 | `isAuthenticated` read at the first `await` of the load equals its value once the load settles |
| `Session.LoadUserIdempotent` | src/stores/userStore.js:49-67 | loading twice with the same clock and response equals loading once |
| `Session.ReentrantLoadKeepsAuthentication` | src/stores/userStore.js:49-60 | starting the load again, in flight or settled, does not change `isAuthenticated` |
| `Session.SignInThenReload` | src/stores/userStore.js:51-71 | after `signIn` with an unexpired token, a fresh store loading the same storage has the same user, authentication and, for the same response, admin status |
| `Session.LoadAfterSignOutChangesNothing` | src/stores/userStore.js:51-52 | after a sign-out, loading from storage is a no-op |
| `Session.ActionsKeepPersisted` | src/stores/userStore.js:28-101 | every action keeps the in-memory user equal to the record persisted under `userInfo` |
| `Session.LoadedUserIsUnexpired` | src/stores/userStore.js:55-60 | under that invariant, a user left by the load has an unexpired token and is the stored record |
| `UserStore.Store.constructor` | src/stores/userStore.js:5-10 | no user, flag down, empty lists, storage as found |
| `UserStore.Store.LoadAdminList` | src/stores/userStore.js:28-47 | the fields reach `Session.LoadAdminList` of the old state |
| `UserStore.Store.LoadUserFromStorage` | src/stores/userStore.js:49-67 | the fields reach `Session.LoadUserFromStorage` of the old state |
| `UserStore.Store.SignIn` | src/stores/userStore.js:69-74 | the fields reach `Session.SignIn` of the old state |
| `UserStore.Store.BeginSignOut` | src/stores/userStore.js:77 | the fields reach `Session.BeginSignOut` of the old state |
| `UserStore.Store.CompleteSignOut` | src/stores/userStore.js:79-90 | the fields reach `Session.CompleteSignOut` of the old state |
| `UserStore.Store.SignOut` | src/stores/userStore.js:76-92 | the fields reach `Session.SignOut` of the old state |
| `UserStore.Store.ForceSignOutDueToInactivity` | src/stores/userStore.js:95-101 | signs out and navigates to `/login` exactly when authenticated |
| `Router.MatchIn` | src/router/index.js:7-63 | the first record with the path when one has it, the catch-all when none has it |
| `Router.Resolve` | src/router/index.js:8-62 | the landed path is the requested one or `/login`; `/login` never requires auth; a target that requires auth is a named path other than `/login` |
| `Router.TableShape` | src/router/index.js:8-62 | only `/` redirects; every other record is named; no protected record is `/login`; paths are distinct |
| `Router.MatchFacts` | src/router/index.js:8-62 | a matched path either redirects to `/login` or is a named record with that path; an unnamed path redirects to `/login` |
| `Router.Guard` | src/router/index.js:72-78 | redirect to `/login` iff auth is required and missing; to `/home` iff the target is `/login` and the user is authenticated; allow otherwise |
| `Router.BeforeEach` | src/router/index.js:66-79 | the decision read at the first `await` equals the guard's decision on the settled state, for every response |
| `Router.Navigate` | src/router/index.js:66-79 | a navigation is sent to `/login` only when it targets a named page other than `/login` |
| `Router.NamedRoutesRequireAuth` | src/router/index.js:13-58 | every named route other than `/login` requires authentication |
| `Router.UnnamedPathsLandOnLogin` | src/router/index.js:8-62 | `/` and every path no named route has resolve to `/login`, which does not require authentication |
| `Router.NamedPathsLandOnThemselves` | src/router/index.js:13-58 | a named route's path resolves to itself with that route's `requiresAuth` |
| `Router.AuthenticatedNeverSentToLogin` | src/router/index.js:72-78 | the guard never redirects an authenticated user to `/login` |
| `Router.LoginAllowsUnauthenticated` | src/router/index.js:13-16 | an unauthenticated user navigating to `/login` is let through |
| `Router.NoRedirectLoop` | src/router/index.js:66-79 | the redirect target of a navigation is allowed, whether the first load is in flight or settled, when both navigations read the same clock `now`; under a later clock the target may redirect again (a bounce, not a loop) |
| `Router.DecisionIgnoresAdminState` | src/router/index.js:66-79 | the source route, the admin list and the blacklist do not affect the decision |
| `CompanyStore.FindIndex` | src/stores/companyStore.js:15-17 | the index of the first company with the id, or -1 iff none has it |
| `CompanyStore.UpdateFirst` | src/stores/companyStore.js:14-20 | length kept; unchanged if the id is absent; otherwise the first match replaced and nothing else |
| `CompanyStore.UpdateKeepsLaterDuplicates` | src/stores/companyStore.js:15-19 | a later company with the same id is left as it was |
| `CompanyStore.Store.constructor` | src/stores/companyStore.js:4-6 | the list starts empty |
| `CompanyStore.Store.SetCompanies` | src/stores/companyStore.js:8-10 | the list becomes the argument |
| `CompanyStore.Store.AddCompany` | src/stores/companyStore.js:11-13 | the company is appended; length grows by one, earlier entries kept |
| `CompanyStore.Store.UpdateCompany` | src/stores/companyStore.js:14-20 | the list becomes `UpdateFirst` of the old list |
| `AppState.Store.constructor` | src/stores/appState.js:4-6 | the cache starts empty |
| `AppState.Store.GetTabData` | src/stores/appState.js:11-13 | the saved value when truthy, else an empty object; never falsy |
| `AppState.Store.SaveTabData` | src/stores/appState.js:8-10 | the entry is set; a truthy value reads back; every other tab reads as before |
| `AppState.SaveTwiceKeepsLast` | src/stores/appState.js:8-10 | a second save to a tab overwrites the first |
| `ExportCsv.CsvContent` | src/utils/exportCSV.js:2-6 | no text for empty data, where `data[0]` throws; otherwise the text begins with the data-URI prefix |
| `ExportCsv.Join` | src/utils/exportCSV.js:4-6 | the join begins with the first part, followed by the separator when there are more parts |
| `ExportCsv.Split` | src/utils/exportCSV.js:5-6 | at least one piece, and no piece holds the separator |
| `ExportCsv.JoinSplit` | src/utils/exportCSV.js:5-6 | joining the pieces of a split with its separator gives the text back |
| `ExportCsv.SplitJoin` | src/utils/exportCSV.js:5-6 | splitting a join on its one-character separator gives the parts back when no part holds it |
| `ExportCsv.JoinWithout` | src/utils/exportCSV.js:4-6 | a join holds a character only if a part or the separator does |
| `ExportCsv.CsvLines` | src/utils/exportCSV.js:2-6 | without line breaks in the data: the prefix, then `|data| + 1` lines, the first row's keys, then each row's values in order, comma-joined |
| `ExportCsv.ValuesAreWrittenVerbatim` | src/utils/exportCSV.js:4-6 | a one-cell table is the prefix, its key, a line break and its value, unquoted |
| `ExportCsv.CommaInValueSplitsIt` | src/utils/exportCSV.js:4-6 | for a one-cell table whose value is `a,b` (no commas or line breaks in key, `a`, `b`): two lines, the key, then a line that splits on `,` into `a` and `b` |

## Left out

- Network and environment access in `loadAdminList` (`fetch`, `response.json()`, the function key): the outcome is the input `FetchResult`.
- JSON: `Stored` and `Parse` stand for `JSON.stringify`/`JSON.parse`. A stored text that parses to a non-object (a number, say) is kept as the user in the source. It is not modelled.
- `Date` parsing and the clock: expiries are `Expiry` values and `now` is a parameter. A numeric expiry of `0`, which is falsy, is not distinguished from other moments.
- `toLowerCase` is modelled on ASCII letters only. Unicode case mapping is not modelled.
- The 1500 ms timer and the promise of `signOut`: sign-out is two steps, `BeginSignOut` and `CompleteSignOut`. Other actions running between the two steps are not modelled.
- The Google `disableAutoSelect` call in `signOut` is a foreign side effect and is not modelled. The `window.location.href` assignment in `forceSignOutDueToInactivity` is the returned `navigateTo`.
- `Session.LoadUserFromStorage` is the load once every `await` has resumed. Interleavings with other actions while the request is in flight are not modelled.
- UserStore.Store.ForceSignOutDueToInactivity: the source reads `isAuthenticated` as a cached Pinia getter that is recomputed only when `user` changes, since the clock is not a reactive dependency. A user whose token expired after the last read is still signed out and sent to `/login` there. The model evaluates the getter at `now` and does nothing for that user. Within one tab the guard is unaffected, because the load assigns `user` before the guard reads the getter.
- Session.IsAuthenticated is evaluated at the given `now` on every read. The source's Pinia getter is cached and recomputed only when `user` changes, so it can keep answering true after the token has expired.
- Local storage is shared by every tab of the origin. The modelled `storage` has this store as its only writer; changes made by other tabs, such as another tab's `signOut` removing `userInfo`, are not modelled. After such a removal the load leaves `user` alone, the cached getter can answer a stale true, and `Session.Persisted` no longer holds.
- Vue Router's path matching is modelled as exact string equality. Its case-insensitive and trailing-slash matching is not modelled. The lazy component imports of the route table are left out.
- `CompanyStore.Store.SetCompanies`: the store keeps a reference to the caller's array in the source, so later pushes are visible to the caller. The model copies the value and does not capture that aliasing.
- CompanyStore.Store.AddCompany and CompanyStore.Store.UpdateCompany: the source keeps a reference to the caller's company object in the list, so edits the caller makes to that object later show in the list. The model copies the value and does not capture that aliasing.
- Company records: only `carrier_id` is read; `===` between values of different JavaScript types is not modelled.
- AppState.Store.GetTabData and AppState.Store.SaveTabData assume tab names are not names of `Object.prototype` properties. In the source `tabData` is a plain object. So reading `constructor` or `toString` yields an inherited function, not `{}`, and saving under `__proto__` replaces the prototype instead of storing an entry.
- AppState.Store.SaveTabData and AppState.Store.GetTabData: the source keeps a reference to the caller's object and returns that same object, so a caller that edits the returned object in place (through a `v-model`, say) changes what later reads return without calling `saveTabData`. A never-saved tab returns a fresh `{}` that is not stored. The model copies values and does not capture that aliasing.
- `AppState.TabValue` covers falsy values and objects. Truthy non-object values (numbers, non-empty strings) are not modelled.
- `ExportCsv`: values are taken as strings. `join`'s rendering of `null`, `undefined`, numbers and nested objects is not modelled, and JavaScript's ordering of integer-like keys is taken to be the row's order. `encodeURI` and the DOM anchor and click steps are left out.
- `src/main.js` (application bootstrap) and `src/utils/msalConfig.js` (a wrapper over an external identity library) are not part of this model.
