/**
 * The Pinia store of src/stores/userStore.js as an object whose actions update its fields
 * in place. Each action is proved to leave the store in the state the matching function of
 * module Session computes, so the lemmas proved there hold of the store.
 */
module UserStore {
  import opened Common
  import opened Session

  class Store {
    var user: Option<User>
    var isSigningOut: bool
    var adminList: seq<string>
    var blacklist: seq<string>
    /** The browser's local storage, as far as this store reads and writes it. */
    var storage: map<string, Stored>

    function State(): Session.State
      reads this
    {
      Session.State(user, isSigningOut, adminList, blacklist, storage)
    }

    /** The store's initial state, over the storage a page load finds. */
    constructor (persisted: map<string, Stored>)
      ensures State() == Initial(persisted)
    {
      user := None;
      isSigningOut := false;
      adminList := [];
      blacklist := [];
      storage := persisted;
    }

    method LoadAdminList(fetch: FetchResult)
      modifies this
      ensures State() == Session.LoadAdminList(old(State()), fetch)
    {
      match fetch {
        case Fetched(data) =>
          adminList := if data.admin.Some? then LowerAll(data.admin.value) else [];
          blacklist := if data.blacklist.Some? then LowerAll(data.blacklist.value) else [];
        case FetchedFalsy =>
          adminList := [];
          blacklist := [];
        case FetchFailed =>
          adminList := [];
          blacklist := [];
      }
    }

    method LoadUserFromStorage(now: int, fetch: FetchResult)
      modifies this
      ensures State() == Session.LoadUserFromStorage(old(State()), now, fetch)
    {
      if UserInfoKey in storage && !storage[UserInfoKey].EmptyText? {
        var userData := Parse(storage[UserInfoKey]);
        if userData.None? {
          storage := storage - {UserInfoKey};
          user := None;
        } else {
          user := userData;
          if Expired(userData.value, now) {
            BeginSignOut();
            CompleteSignOut();
          } else {
            LoadAdminList(fetch);
          }
        }
      }
    }

    method SignIn(userData: User, fetch: FetchResult)
      modifies this
      ensures State() == Session.SignIn(old(State()), userData, fetch)
    {
      user := Some(userData);
      storage := storage[UserInfoKey := Serialize(userData)];
      LoadAdminList(fetch);
    }

    /** What `signOut` does before its timer fires. */
    method BeginSignOut()
      modifies this
      ensures State() == Session.BeginSignOut(old(State()))
    {
      isSigningOut := true;
    }

    /** The timer callback of `signOut`. */
    method CompleteSignOut()
      modifies this
      ensures State() == Session.CompleteSignOut(old(State()))
    {
      user := None;
      storage := storage - {UserInfoKey};
      isSigningOut := false;
    }

    /** `signOut` through to the resolution of its promise. */
    method SignOut()
      modifies this
      ensures State() == Session.SignOut(old(State()))
    {
      BeginSignOut();
      CompleteSignOut();
    }

    /**
     * `forceSignOutDueToInactivity`; `navigateTo` is the page the browser is sent to once the
     * sign-out has completed.
     */
    method ForceSignOutDueToInactivity(now: int) returns (navigateTo: Option<string>)
      modifies this
      ensures State() == Session.ForceSignOutDueToInactivity(old(State()), now)
      ensures navigateTo == if IsAuthenticated(old(State()), now) then Some("/login") else None
    {
      navigateTo := None;
      if IsAuthenticated(State(), now) {
        SignOut();
        navigateTo := Some("/login");
      }
    }
  }
}
