/** The session store: the logged-in user and the auth token, each
    overwritten by its own setter and both cleared by logout. */
module AuthStore {
  import opened JsValues

  /** The store's own user record. */
  datatype AuthUser = AuthUser(
    id: int,
    username: string,
    email: string,
    bio: Option<string>,
    profileImage: Option<string>,
    createdAt: string,
    updatedAt: string)

  class AuthState {
    var user: Option<AuthUser>
    var token: Option<string>

    /** The initial state: nobody is logged in. */
    constructor ()
      ensures user == None && token == None
    {
      user := None;
      token := None;
    }

    /** `setUser`: replaces the user, keeps the token. */
    method SetUser(u: AuthUser)
      modifies this
      ensures user == Some(u) && token == old(token)
    {
      user := Some(u);
    }

    /** `setToken`: replaces the token, keeps the user. */
    method SetToken(t: string)
      modifies this
      ensures token == Some(t) && user == old(user)
    {
      token := Some(t);
    }

    /** `logout`: clears both fields, whatever they held, so a second
        logout finds and leaves the same state. */
    method Logout()
      modifies this
      ensures user == None && token == None
    {
      user := None;
      token := None;
    }
  }

  /** Logging in, out and out again: the state is the initial one after the
      first logout and stays so. */
  method LoginLogoutScenario(u: AuthUser, t: string) returns (s: AuthState)
    ensures fresh(s) && s.user == None && s.token == None
  {
    s := new AuthState();
    s.SetToken(t);
    s.SetUser(u);
    assert s.user == Some(u) && s.token == Some(t);
    s.Logout();
    s.Logout();
  }
}
