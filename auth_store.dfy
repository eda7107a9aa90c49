/** client/src/store/authStore.ts: the client's session store, three
    fields overwritten by three actions. */
module AuthStore {
  import opened Js

  datatype User = User(id: string, name: string, email: string, role: string)

  /** A snapshot of the three fields. */
  datatype Session = Session(token: Option<string>, user: Option<User>, isAuthenticated: bool)

  const SignedOut := Session(None, None, false)

  /** The store's own invariant: it counts as signed in exactly when it
      holds a token. */
  predicate Consistent(s: Session) {
    s.isAuthenticated <==> s.token.Some?
  }

  /** `setAuth(token, user)` on a snapshot. */
  function SetAuth(s: Session, token: string, user: User): (after: Session)
    ensures after.token == Some(token) && after.user == Some(user) && after.isAuthenticated
  {
    Session(Some(token), Some(user), true)
  }

  /** `clearAuth()` on a snapshot. */
  function ClearAuth(s: Session): (after: Session)
    ensures after.token == None && after.user == None && !after.isAuthenticated
  {
    SignedOut
  }

  /** `setUser(user)` on a snapshot: `{ ...state, user }`. */
  function SetUser(s: Session, user: User): (after: Session)
    ensures after.user == Some(user) && after.token == s.token && after.isAuthenticated == s.isAuthenticated
  {
    s.(user := Some(user))
  }

  /** Every action keeps the invariant, from any state for the first two
      and from a consistent one for `setUser`. */
  lemma ActionsKeepConsistency(s: Session, token: string, user: User)
    ensures Consistent(SignedOut)
    ensures Consistent(SetAuth(s, token, user)) && Consistent(ClearAuth(s))
    ensures Consistent(s) ==> Consistent(SetUser(s, user))
  {
  }

  /** Clearing twice is clearing once, and clearing forgets any sign-in. */
  lemma ClearAuthIdempotent(s: Session, token: string, user: User)
    ensures ClearAuth(ClearAuth(s)) == ClearAuth(s)
    ensures ClearAuth(SetAuth(s, token, user)) == SignedOut
  {
  }

  /** A later `setAuth` overrides whatever `setUser` did before it. */
  lemma SetAuthOverridesSetUser(s: Session, token: string, user: User, other: User)
    ensures SetAuth(SetUser(s, other), token, user) == SetAuth(s, token, user)
  {
  }

  /** The store object. */
  class Store {
    var token: Option<string>
    var user: Option<User>
    var isAuthenticated: bool

    function Snapshot(): Session
      reads this
    {
      Session(token, user, isAuthenticated)
    }

    ghost predicate Valid()
      reads this
    {
      Consistent(Snapshot())
    }

    /** The initial state: token null, user null, signed out. */
    constructor ()
      ensures Snapshot() == SignedOut && Valid()
    {
      token, user, isAuthenticated := None, None, false;
    }

    method SetAuthAction(newToken: string, newUser: User)
      modifies this
      ensures Snapshot() == SetAuth(old(Snapshot()), newToken, newUser) && Valid()
    {
      token, user, isAuthenticated := Some(newToken), Some(newUser), true;
    }

    method ClearAuthAction()
      modifies this
      ensures Snapshot() == ClearAuth(old(Snapshot())) && Valid()
    {
      token, user, isAuthenticated := None, None, false;
    }

    method SetUserAction(newUser: User)
      modifies this
      ensures Snapshot() == SetUser(old(Snapshot()), newUser)
      ensures old(Valid()) ==> Valid()
    {
      user := Some(newUser);
    }
  }
}
