/**
 * The session store of the operations front end (src/stores/userStore.js), as values.
 *
 * The store holds the signed-in user, a flag raised while a sign-out is in progress and the
 * two e-mail lists fetched from the server (administrators and blacklisted accounts). The
 * user record is persisted in the browser's local storage under the key "userInfo".
 * Every action of the store is a function from the old state to the new one; the class in
 * module UserStore performs the same updates field by field.
 *
 * The clock is the parameter `now` (milliseconds); the admin-list request is its outcome,
 * the parameter `fetch`; JSON is abstracted by the `Stored` datatype.
 */
module Session {
  import opened Common

  /** A user's `tokenExpiration` as `new Date(...)` reads it. */
  datatype Expiry =
    | NoExpiry     // missing or falsy: `tokenExpiration && ...` is falsy at once
    | InvalidDate  // present but not a date: an invalid date compares false with every date
    | At(ms: int)  // a moment, in milliseconds

  datatype User = User(token: string, email: string, name: string, tokenExpiration: Expiry)

  /** What local storage holds under a key, as `JSON.parse` sees it. */
  datatype Stored =
    | Json(user: User)  // the serialisation of a user record
    | EmptyText         // the empty string: falsy, so the store treats it as absent
    | Malformed         // text that `JSON.parse` rejects, or that parses to `null`

  const UserInfoKey: string := "userInfo"

  /** The body of a successful admin-list response: each key may be missing. */
  datatype Payload = Payload(admin: Option<seq<string>>, blacklist: Option<seq<string>>)

  /** How the request of `loadAdminList` ended. */
  datatype FetchResult =
    | Fetched(data: Payload)  // a response whose JSON is an object
    | FetchedFalsy            // a response whose JSON is `null` (or another falsy value)
    | FetchFailed             // a network or parse error, or an entry that is not a string

  datatype State = State(
    user: Option<User>,
    isSigningOut: bool,
    adminList: seq<string>,
    blacklist: seq<string>,
    storage: map<string, Stored>)

  /** The store as a page load creates it, over whatever local storage already holds. */
  function Initial(storage: map<string, Stored>): State {
    State(None, false, [], [], storage)
  }

  // ---------------------------------------------------------------- lower-casing

  function LowerChar(c: char): char {
    if 'A' <= c <= 'Z' then (c as int - 'A' as int + 'a' as int) as char else c
  }

  /** `toLowerCase`, on ASCII letters. */
  function Lower(s: string): string {
    seq(|s|, i requires 0 <= i < |s| => LowerChar(s[i]))
  }

  /** `xs.map(email => email.toLowerCase())`. */
  function LowerAll(xs: seq<string>): (r: seq<string>)
    ensures |r| == |xs|
    ensures forall i :: 0 <= i < |xs| ==> r[i] == Lower(xs[i])
  {
    seq(|xs|, i requires 0 <= i < |xs| => Lower(xs[i]))
  }

  lemma LowerIdempotent(s: string)
    ensures Lower(Lower(s)) == Lower(s)
  {
  }

  // ---------------------------------------------------------------- getters

  /** Getter `isAuthenticated`: a user with a non-empty token whose expiry is strictly after now. */
  predicate IsAuthenticated(st: State, now: int)
    ensures IsAuthenticated(st, now) ==> Token(st).Some? && Token(st).value != "" && !Expired(st.user.value, now)
    ensures IsAuthenticated(st, now) ==> st.user.value.tokenExpiration.At?
    ensures (st.user.Some? && st.user.value.token != "" && st.user.value.tokenExpiration.At?
             && !Expired(st.user.value, now)) ==> IsAuthenticated(st, now)
  {
    && st.user.Some?
    && st.user.value.token != ""
    && st.user.value.tokenExpiration.At?
    && st.user.value.tokenExpiration.ms > now
  }

  /** Getter `token`. */
  function Token(st: State): (t: Option<string>)
    ensures t.Some? <==> st.user.Some?
    ensures t.Some? ==> t.value == st.user.value.token
  {
    match st.user
    case None => None
    case Some(u) => Some(u.token)
  }

  /** Getter `isAdmin`: the lower-cased e-mail is on the admin list and not on the blacklist. */
  predicate IsAdmin(st: State)
    ensures IsAdmin(st) ==> st.user.Some? && Lower(st.user.value.email) in st.adminList
    ensures IsAdmin(st) ==> Lower(st.user.value.email) !in st.blacklist
    ensures st.user.None? || st.user.value.email == "" ==> !IsAdmin(st)
  {
    && st.user.Some?
    && st.user.value.email != ""
    && Lower(st.user.value.email) in st.adminList
    && Lower(st.user.value.email) !in st.blacklist
  }

  /** `isAdmin` ignores the case of the user's e-mail. */
  lemma {:induction false} AdminIgnoresEmailCase(st: State)
    requires st.user.Some?
    ensures IsAdmin(st) == IsAdmin(st.(user := Some(st.user.value.(email := Lower(st.user.value.email)))))
  {
    LowerIdempotent(st.user.value.email);
  }

  /** The test of `loadUserFromStorage` that treats a stored token as expired. */
  predicate Expired(u: User, now: int) {
    u.tokenExpiration.At? && u.tokenExpiration.ms <= now
  }

  lemma ExpiredIsNotAuthenticated(st: State, now: int)
    requires st.user.Some? && Expired(st.user.value, now)
    ensures !IsAuthenticated(st, now)
  {
  }

  /** `isAdmin` does not consult `isAuthenticated`: an expired administrator still reads as one. */
  lemma ExpiredAdminIsStillAdmin()
    ensures exists st: State, now: int :: IsAdmin(st) && !IsAuthenticated(st, now)
  {
    var u := User("t", "ops@example.com", "Ops", At(0));
    var st := State(Some(u), false, [Lower(u.email)], [], map[]);
    assert IsAdmin(st) && !IsAuthenticated(st, 0);
  }

  // ---------------------------------------------------------------- loadAdminList

  /** One list of the response: lower-cased when the key is present, empty when it is missing. */
  function Normalized(xs: Option<seq<string>>): (r: seq<string>)
    ensures xs.None? ==> r == []
    ensures xs.Some? ==> |r| == |xs.value| && forall i :: 0 <= i < |r| ==> r[i] == Lower(xs.value[i])
  {
    match xs
    case None => []
    case Some(list) => LowerAll(list)
  }

  /** Action `loadAdminList`: only the two lists change; any failure empties both. */
  function LoadAdminList(st: State, fetch: FetchResult): (r: State)
    ensures r.user == st.user && r.isSigningOut == st.isSigningOut && r.storage == st.storage
    ensures !fetch.Fetched? ==> r.adminList == [] && r.blacklist == []
    ensures fetch.Fetched? ==>
      r.adminList == Normalized(fetch.data.admin) && r.blacklist == Normalized(fetch.data.blacklist)
  {
    match fetch
    case Fetched(data) => st.(adminList := Normalized(data.admin), blacklist := Normalized(data.blacklist))
    case FetchedFalsy => st.(adminList := [], blacklist := [])
    case FetchFailed => st.(adminList := [], blacklist := [])
  }

  /** Whether some entry of a response list equals `email` up to case. */
  predicate Listed(xs: Option<seq<string>>, email: string) {
    xs.Some? && exists i :: 0 <= i < |xs.value| && Lower(xs.value[i]) == Lower(email)
  }

  /** After a successful load, admin status is case-insensitive membership in the response lists. */
  lemma {:induction false} AdminAfterLoad(st: State, data: Payload)
    requires st.user.Some?
    ensures var email := st.user.value.email;
      IsAdmin(LoadAdminList(st, Fetched(data)))
      <==> email != "" && Listed(data.admin, email) && !Listed(data.blacklist, email)
  {
  }

  /** A failed or empty response fails closed: nobody is an administrator afterwards. */
  lemma FailedLoadRevokesAdmin(st: State, fetch: FetchResult)
    requires !fetch.Fetched?
    ensures !IsAdmin(LoadAdminList(st, fetch))
  {
  }

  // ---------------------------------------------------------------- signIn / signOut

  /** `JSON.stringify` of a user record and `JSON.parse` of stored text, abstracted. */
  function Serialize(u: User): Stored {
    Json(u)
  }

  function Parse(s: Stored): Option<User> {
    match s
    case Json(u) => Some(u)
    case EmptyText => None
    case Malformed => None
  }

  /** Action `signIn`: set the user, persist it, then load the admin lists. */
  function SignIn(st: State, u: User, fetch: FetchResult): (r: State)
    ensures r.user == Some(u) && r.isSigningOut == st.isSigningOut
    ensures r.storage == st.storage[UserInfoKey := Serialize(u)]
    ensures r.adminList == LoadAdminList(st, fetch).adminList && r.blacklist == LoadAdminList(st, fetch).blacklist
  {
    LoadAdminList(st.(user := Some(u), storage := st.storage[UserInfoKey := Serialize(u)]), fetch)
  }

  /** The synchronous part of `signOut`: the overlay flag goes up at once. */
  function BeginSignOut(st: State): (r: State)
    ensures r.isSigningOut
    ensures r.user == st.user && r.storage == st.storage
    ensures r.adminList == st.adminList && r.blacklist == st.blacklist
  {
    st.(isSigningOut := true)
  }

  /** The timer callback of `signOut`. */
  function CompleteSignOut(st: State): (r: State)
    ensures r.user.None? && !r.isSigningOut
    ensures UserInfoKey !in r.storage
    ensures forall k :: k != UserInfoKey ==> (k in r.storage <==> k in st.storage)
    ensures forall k :: k in r.storage ==> r.storage[k] == st.storage[k]
    ensures r.adminList == st.adminList && r.blacklist == st.blacklist
  {
    st.(user := None, storage := st.storage - {UserInfoKey}, isSigningOut := false)
  }

  /** Action `signOut`, once its promise has resolved. */
  function SignOut(st: State): (r: State)
    ensures r.user.None? && !r.isSigningOut && UserInfoKey !in r.storage
    ensures r.storage == st.storage - {UserInfoKey}
    ensures r.adminList == st.adminList && r.blacklist == st.blacklist
  {
    CompleteSignOut(BeginSignOut(st))
  }

  /** Action `forceSignOutDueToInactivity`: signs out only an authenticated user. */
  function ForceSignOutDueToInactivity(st: State, now: int): (r: State)
    ensures !IsAuthenticated(st, now) ==> r == st
    ensures IsAuthenticated(st, now) ==> r.user.None? && UserInfoKey !in r.storage && !r.isSigningOut
    ensures IsAuthenticated(st, now) ==> r == SignOut(st)
  {
    if IsAuthenticated(st, now) then SignOut(st) else st
  }

  // ---------------------------------------------------------------- loadUserFromStorage

  /** Whether local storage holds a truthy `'userInfo'` string. */
  predicate HasStoredUser(st: State) {
    UserInfoKey in st.storage && !st.storage[UserInfoKey].EmptyText?
  }

  /** Action `loadUserFromStorage`, once every `await` in it has resumed. */
  function LoadUserFromStorage(st: State, now: int, fetch: FetchResult): (r: State)
    ensures !HasStoredUser(st) ==> r == st
    ensures HasStoredUser(st) && st.storage[UserInfoKey].Malformed? ==>
      r == st.(user := None, storage := st.storage - {UserInfoKey})
    ensures HasStoredUser(st) && st.storage[UserInfoKey].Json? ==>
      var u := st.storage[UserInfoKey].user;
      if Expired(u, now)
      then r.user.None? && UserInfoKey !in r.storage && !r.isSigningOut && r == SignOut(st.(user := Some(u)))
      else r.user == Some(u) && r.storage == st.storage && r.isSigningOut == st.isSigningOut
           && r == LoadAdminList(st.(user := Some(u)), fetch)
  {
    if !HasStoredUser(st) then st
    else match Parse(st.storage[UserInfoKey])
      case None => st.(user := None, storage := st.storage - {UserInfoKey})
      case Some(u) =>
        var loaded := st.(user := Some(u));
        if Expired(u, now) then SignOut(loaded) else LoadAdminList(loaded, fetch)
  }

  /**
   * The state `loadUserFromStorage` has reached when it first suspends: at the `await` of
   * `signOut` (whose flag is already up) or of the request in `loadAdminList`, or at its end.
   */
  function LoadUserUntilFirstAwait(st: State, now: int): (r: State)
    ensures r.adminList == st.adminList && r.blacklist == st.blacklist
    ensures !HasStoredUser(st) ==> r == st
    ensures HasStoredUser(st) && st.storage[UserInfoKey].Json? ==>
      var u := st.storage[UserInfoKey].user;
      && r.user == Some(u) && r.storage == st.storage
      && r.isSigningOut == (st.isSigningOut || Expired(u, now))
    ensures HasStoredUser(st) && st.storage[UserInfoKey].Malformed? ==>
      r.user.None? && r.storage == st.storage - {UserInfoKey} && r.isSigningOut == st.isSigningOut
  {
    if !HasStoredUser(st) then st
    else match Parse(st.storage[UserInfoKey])
      case None => st.(user := None, storage := st.storage - {UserInfoKey})
      case Some(u) =>
        var loaded := st.(user := Some(u));
        if Expired(u, now) then BeginSignOut(loaded) else loaded
  }

  /**
   * A stored user without an expiry, or with one that is not a date, passes the load's expiry
   * test and is kept, yet is never authenticated.
   */
  lemma {:induction false} KeptButNotAuthenticated(st: State, now: int, fetch: FetchResult)
    requires HasStoredUser(st) && st.storage[UserInfoKey].Json?
    requires st.storage[UserInfoKey].user.tokenExpiration in {NoExpiry, InvalidDate}
    ensures var r := LoadUserFromStorage(st, now, fetch);
      r.user == Some(st.storage[UserInfoKey].user) && !IsAuthenticated(r, now)
  {
  }

  /** Reading `isAuthenticated` before the load has settled gives the settled answer. */
  lemma {:induction false} FirstAwaitSeesSettledAuthentication(st: State, now: int, fetch: FetchResult)
    ensures IsAuthenticated(LoadUserUntilFirstAwait(st, now), now)
        == IsAuthenticated(LoadUserFromStorage(st, now, fetch), now)
  {
  }

  /** Loading twice with the same clock and response is loading once. */
  lemma {:induction false} LoadUserIdempotent(st: State, now: int, fetch: FetchResult)
    ensures var once := LoadUserFromStorage(st, now, fetch);
      LoadUserFromStorage(once, now, fetch) == once
  {
  }

  /** Re-entering the load before it settles does not change what `isAuthenticated` reads. */
  lemma {:induction false} ReentrantLoadKeepsAuthentication(st: State, now: int, fetch: FetchResult)
    ensures var early := LoadUserUntilFirstAwait(st, now);
      IsAuthenticated(LoadUserUntilFirstAwait(early, now), now) == IsAuthenticated(early, now)
    ensures var settled := LoadUserFromStorage(st, now, fetch);
      IsAuthenticated(LoadUserUntilFirstAwait(settled, now), now) == IsAuthenticated(settled, now)
  {
  }

  /** Signing in and loading a new page over the same storage restores the user. */
  lemma {:induction false} SignInThenReload(st: State, u: User, now: int, before: FetchResult, after: FetchResult)
    requires !Expired(u, now)
    ensures var signedIn := SignIn(st, u, before);
      var reloaded := LoadUserFromStorage(Initial(signedIn.storage), now, after);
      && reloaded.user == Some(u)
      && reloaded.storage == signedIn.storage
      && IsAuthenticated(reloaded, now) == IsAuthenticated(signedIn, now)
      && IsAdmin(reloaded) == IsAdmin(SignIn(st, u, after))
  {
  }

  /** After a sign-out there is nothing left to load. */
  lemma {:induction false} LoadAfterSignOutChangesNothing(st: State, now: int, fetch: FetchResult)
    ensures LoadUserFromStorage(SignOut(st), now, fetch) == SignOut(st)
  {
  }

  // ---------------------------------------------------------------- the persisted-user invariant

  /** A user in memory is exactly the record persisted under `'userInfo'`. */
  predicate Persisted(st: State) {
    st.user.Some? ==> UserInfoKey in st.storage && st.storage[UserInfoKey] == Json(st.user.value)
  }

  lemma {:induction false} ActionsKeepPersisted(st: State, u: User, now: int, fetch: FetchResult)
    requires Persisted(st)
    ensures Persisted(LoadAdminList(st, fetch))
    ensures Persisted(LoadUserFromStorage(st, now, fetch))
    ensures Persisted(LoadUserUntilFirstAwait(st, now))
    ensures Persisted(SignIn(st, u, fetch))
    ensures Persisted(BeginSignOut(st)) && Persisted(SignOut(st))
    ensures Persisted(ForceSignOutDueToInactivity(st, now))
  {
  }

  /** Under the invariant, a loaded user is never one whose token has expired. */
  lemma {:induction false} LoadedUserIsUnexpired(st: State, now: int, fetch: FetchResult)
    requires Persisted(st)
    ensures var r := LoadUserFromStorage(st, now, fetch);
      r.user.Some? ==> !Expired(r.user.value, now) && r.storage[UserInfoKey] == Json(r.user.value)
  {
  }
}
