/**
 * The route table and the global navigation guard of src/router/index.js.
 *
 * A navigation to a path is first resolved against the table (following a `redirect`
 * record), then the `beforeEach` hook decides to let it through or to send it elsewhere.
 */
module Router {
  import opened Common
  import Session

  const LoginPath: string := "/login"
  const HomePath: string := "/home"

  /** A record of the route table; `requiresAuth` is its `meta.requiresAuth` (missing reads false). */
  datatype Route = Route(path: string, name: Option<string>, requiresAuth: bool, redirect: Option<string>)

  /** The records with a fixed path, in the order of the table. */
  const Routes: seq<Route> := [
    Route("/", None, false, Some(LoginPath)),
    Route(LoginPath, Some("login"), false, None),
    Route(HomePath, Some("home"), true, None),
    Route("/dev", Some("dev"), true, None),
    Route("/fileManagement", Some("fileManagement"), true, None),
    Route("/runFiles", Some("runFiles"), true, None),
    Route("/runHistory", Some("runHistory"), true, None),
    Route("/settings", Some("settings"), true, None),
    Route("/searchContact", Some("searchContact"), true, None)
  ]

  /** The last record, whose pattern matches every path. */
  const CatchAll: Route := Route("/:pathMatch(.*)*", None, false, Some(LoginPath))

  /** The first of `routes` whose path is `path`, or the catch-all record. */
  function MatchIn(routes: seq<Route>, path: string): (r: Route)
    ensures r == CatchAll || (r in routes && r.path == path)
    ensures (forall i :: 0 <= i < |routes| ==> routes[i].path != path) ==> r == CatchAll
    ensures forall i :: (0 <= i < |routes| && routes[i].path == path
                         && forall j :: 0 <= j < i ==> routes[j].path != path) ==> r == routes[i]
  {
    if routes == [] then CatchAll
    else if routes[0].path == path then routes[0]
    else MatchIn(routes[1..], path)
  }

  function Match(path: string): Route {
    MatchIn(Routes, path)
  }

  /** The `to` route a guard sees: its path and whether it requires authentication. */
  datatype Target = Target(path: string, requiresAuth: bool)

  /** Where a navigation to `path` lands once the table's redirect has been followed. */
  function Resolve(path: string): (r: Target)
    ensures r.path == path || r.path == LoginPath
    ensures r.path == LoginPath ==> !r.requiresAuth
    ensures r.requiresAuth ==> IsNamedPath(path) && path != LoginPath
  {
    MatchFacts(path);
    var r := Match(path);
    match r.redirect
    case Some(target) => Target(target, Match(target).requiresAuth)
    case None => Target(path, r.requiresAuth)
  }

  // ---------------------------------------------------------------- the guard

  datatype Decision = Allow | RedirectTo(path: string)

  /** The decision chain of the `beforeEach` hook. */
  function Guard(to: Target, isAuthenticated: bool): (d: Decision)
    ensures d == RedirectTo(LoginPath) <==> to.requiresAuth && !isAuthenticated
    ensures d == RedirectTo(HomePath) <==> to.path == LoginPath && isAuthenticated
    ensures d == Allow <==> !(to.requiresAuth && !isAuthenticated) && !(to.path == LoginPath && isAuthenticated)
    ensures d.RedirectTo? ==> d.path in {LoginPath, HomePath}
  {
    if to.requiresAuth && !isAuthenticated then RedirectTo(LoginPath)
    else if to.path == LoginPath && isAuthenticated then RedirectTo(HomePath)
    else Allow
  }

  /**
   * The `beforeEach` hook. It starts `loadUserFromStorage` without waiting for it, so it reads
   * `isAuthenticated` from the state the load has reached at its first `await`.
   */
  function BeforeEach(to: Target, from: Target, st: Session.State, now: int): (d: Decision)
    ensures forall fetch :: d == Guard(to, Session.IsAuthenticated(Session.LoadUserFromStorage(st, now, fetch), now))
  {
    Guard(to, Session.IsAuthenticated(Session.LoadUserUntilFirstAwait(st, now), now))
  }

  /** A navigation to `path`, decided on the resolved target. */
  function Navigate(path: string, from: Target, st: Session.State, now: int): (d: Decision)
    ensures d == RedirectTo(LoginPath) ==> IsNamedPath(path) && path != LoginPath
  {
    BeforeEach(Resolve(path), from, st, now)
  }

  // ---------------------------------------------------------------- lemmas about the table

  /** Every named route other than the login page requires authentication. */
  lemma NamedRoutesRequireAuth()
    ensures forall i :: 0 <= i < |Routes| && Routes[i].name.Some? && Routes[i].path != LoginPath ==>
      Routes[i].requiresAuth
  {
  }

  /** The paths of the named routes. */
  predicate IsNamedPath(path: string) {
    exists i :: 0 <= i < |Routes| && Routes[i].name.Some? && Routes[i].path == path
  }

  /** `/` and every path the table does not name land on the login page. */
  lemma {:induction false} UnnamedPathsLandOnLogin(path: string)
    requires !IsNamedPath(path)
    ensures Resolve(path) == Target(LoginPath, false)
  {
    MatchFacts(path);
  }

  /** Shape of the table: only `/` redirects, and every protected record is named. */
  lemma TableShape()
    ensures Routes[0].redirect == Some(LoginPath) && Routes[0].name.None?
    ensures forall i :: 1 <= i < |Routes| ==> Routes[i].redirect.None? && Routes[i].name.Some?
    ensures forall i :: 0 <= i < |Routes| && Routes[i].requiresAuth ==> Routes[i].path != LoginPath
    ensures forall j, k :: 0 <= j < k < |Routes| ==> Routes[j].path != Routes[k].path
  {
  }

  /** What the table gives a path: a redirect to the login page, or a record with that path. */
  lemma {:induction false} MatchFacts(path: string)
    ensures Match(LoginPath) == Routes[1]
    ensures var r := Match(path);
      && (r.redirect.Some? ==> r.redirect.value == LoginPath)
      && (r.redirect.None? ==> r.path == path && IsNamedPath(path))
      && (r.requiresAuth ==> IsNamedPath(path) && path != LoginPath)
      && (!IsNamedPath(path) ==> r.redirect == Some(LoginPath))
  {
    TableShape();
    MatchUnique(Routes, 1);
    var r := Match(path);
    if r != CatchAll {
      var i :| 0 <= i < |Routes| && Routes[i] == r;
      if i != 0 {
        assert Routes[i].name.Some? && Routes[i].path == path;
        assert IsNamedPath(path);
      }
    }
  }

  /** A named path lands on its own route, with that route's `requiresAuth`. */
  lemma {:induction false} NamedPathsLandOnThemselves(i: nat)
    requires i < |Routes| && Routes[i].name.Some?
    ensures Resolve(Routes[i].path) == Target(Routes[i].path, Routes[i].requiresAuth)
  {
    assert Match(Routes[i].path) == Routes[i] by {
      assert forall j, k :: 0 <= j < k < |Routes| ==> Routes[j].path != Routes[k].path;
      MatchUnique(Routes, i);
    }
  }

  lemma {:induction false} MatchUnique(routes: seq<Route>, i: nat)
    requires i < |routes|
    requires forall j, k :: 0 <= j < k < |routes| ==> routes[j].path != routes[k].path
    ensures MatchIn(routes, routes[i].path) == routes[i]
  {
    if i > 0 {
      MatchUnique(routes[1..], i - 1);
    }
  }

  // ---------------------------------------------------------------- lemmas about the guard

  /** The guard never sends an authenticated user to the login page. */
  lemma AuthenticatedNeverSentToLogin(to: Target, from: Target, st: Session.State, now: int)
    requires Session.IsAuthenticated(Session.LoadUserUntilFirstAwait(st, now), now)
    ensures BeforeEach(to, from, st, now) != RedirectTo(LoginPath)
  {
  }

  /** An unauthenticated user reaching the login page is let through. */
  lemma {:induction false} LoginAllowsUnauthenticated(from: Target, st: Session.State, now: int)
    requires !Session.IsAuthenticated(Session.LoadUserUntilFirstAwait(st, now), now)
    ensures Navigate(LoginPath, from, st, now) == Allow
  {
  }

  /**
   * No redirect loop: the page a navigation is redirected to is let through, whether the
   * first load is still in flight or has settled when the second navigation starts.
   * Both navigations read the same clock `now`; under a later clock the token may have
   * expired in between, and the target may redirect once more.
   */
  lemma {:induction false} NoRedirectLoop(path: string, from: Target, st: Session.State, now: int,
                                          fetch: Session.FetchResult)
    ensures var d := Navigate(path, from, st, now);
      d.RedirectTo? ==>
        && Navigate(d.path, Resolve(path), Session.LoadUserUntilFirstAwait(st, now), now) == Allow
        && Navigate(d.path, Resolve(path), Session.LoadUserFromStorage(st, now, fetch), now) == Allow
  {
    var d := Navigate(path, from, st, now);
    var early := Session.LoadUserUntilFirstAwait(st, now);
    var settled := Session.LoadUserFromStorage(st, now, fetch);
    Session.ReentrantLoadKeepsAuthentication(st, now, fetch);
    Session.FirstAwaitSeesSettledAuthentication(st, now, fetch);
    NamedPathsLandOnThemselves(1);
    NamedPathsLandOnThemselves(2);
  }

  /** The source route, the admin list and the blacklist play no part in the decision. */
  lemma {:induction false} DecisionIgnoresAdminState(to: Target, from: Target, from': Target, st: Session.State,
                                                     now: int, admins: seq<string>, banned: seq<string>)
    ensures BeforeEach(to, from, st, now)
         == BeforeEach(to, from', st.(adminList := admins, blacklist := banned), now)
  {
  }
}
