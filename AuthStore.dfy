/** The dashboard's persisted authentication store
    (frontend/src/store/use-auth.ts): a token, a signed-in flag and the
    current user, replaced field by field by four actions. */
module AuthStore {
  import opened Common

  /** The user record the backend returns (the fields the store keeps). */
  datatype AuthUser = AuthUser(id: int, name: string, email: string)

  /** The slice written to local storage under "auth-storage". */
  datatype Persisted = Persisted(token: Option<string>, isAuthenticated: bool, user: Option<AuthUser>)

  const StorageName := "auth-storage"

  class Store {
    var token: Option<string>
    var isAuthenticated: bool
    var user: Option<AuthUser>

    /** The flag agrees with the presence of a token. Every action but
        `SetIsAuthenticated` keeps this. */
    predicate Consistent()
      reads this
    {
      isAuthenticated <==> token.Some?
    }

    /** The initial state: signed out. */
    constructor ()
      ensures token.None? && !isAuthenticated && user.None?
      ensures Consistent()
    {
      token := None;
      isAuthenticated := false;
      user := None;
    }

    /** `setAuth(token, user?)`: signed in with this token; the user is the
        given one, or null when none is given. */
    method SetAuth(newToken: string, newUser: Option<AuthUser>)
      modifies this
      ensures token == Some(newToken) && isAuthenticated && user == newUser
      ensures Consistent()
    {
      token := Some(newToken);
      isAuthenticated := true;
      user := newUser;
    }

    /** `setUser`: only the user changes. */
    method SetUser(newUser: AuthUser)
      modifies this
      ensures user == Some(newUser)
      ensures token == old(token) && isAuthenticated == old(isAuthenticated)
      ensures old(Consistent()) ==> Consistent()
    {
      user := Some(newUser);
    }

    /** `logout`: back to the initial state. */
    method Logout()
      modifies this
      ensures token.None? && !isAuthenticated && user.None?
      ensures Consistent()
    {
      token := None;
      isAuthenticated := false;
      user := None;
    }

    /** `setIsAuthenticated`: only the flag changes, whatever the token. */
    method SetIsAuthenticated(value: bool)
      modifies this
      ensures isAuthenticated == value
      ensures token == old(token) && user == old(user)
      ensures Consistent() <==> (value <==> token.Some?)
    {
      isAuthenticated := value;
    }

    /** `partialize`: the persisted slice is the whole state, field for field. */
    function Partialize(): (p: Persisted)
      reads this
      ensures p.token == token && p.isAuthenticated == isAuthenticated && p.user == user
    {
      Persisted(token, isAuthenticated, user)
    }
  }

  /** The flag can disagree with the token: after a logout, setting the flag
      leaves a signed-in store with no token. */
  method FlagWithoutToken(store: Store)
    modifies store
    ensures store.isAuthenticated && store.token.None?
    ensures !store.Consistent()
  {
    store.Logout();
    store.SetIsAuthenticated(true);
  }
}
