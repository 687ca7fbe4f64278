/** The session context of src/contexts/AuthContext.tsx: a pure reducer over
    `{user, isLoading, isAuthenticated}`, the startup restore, and the
    `login`/`logout`/`updateUser` operations, each of which writes storage
    and then dispatches. A `Session` pairs the storage with the reducer state. */
module Session {
  import opened Wrappers
  import opened Types
  import opened Store
  import Account

  datatype AuthState = AuthState(user: Option<User>, isLoading: bool, isAuthenticated: bool)

  /** The dispatched actions; `Unrecognised` is any other `type`, which the
      reducer's default branch handles. */
  datatype Action =
    | SetLoading(loading: bool)
    | SetUser(payload: Option<User>)
    | Logout
    | Unrecognised(tag: string)

  /** Before the restore runs: nobody signed in, restore pending. */
  const InitialState: AuthState := AuthState(None, true, false)

  /** The state's authentication flag tells the truth about its user. */
  predicate Consistent(st: AuthState) {
    st.isAuthenticated <==> st.user.Some?
  }

  /** `authReducer`. */
  function Reduce(st: AuthState, a: Action): (st': AuthState)
    ensures Consistent(st) ==> Consistent(st')
    ensures a.SetUser? || a.Logout? ==> Consistent(st') && !st'.isLoading
    ensures a.SetUser? ==> st'.user == a.payload
    ensures a.Logout? ==> st'.user.None?
    ensures a.SetLoading? ==> st' == AuthState(st.user, a.loading, st.isAuthenticated)
    ensures a.Unrecognised? ==> st' == st
  {
    match a
    case SetLoading(b) => st.(isLoading := b)
    case SetUser(u) => st.(user := u, isAuthenticated := u.Some?, isLoading := false)
    case Logout() => st.(user := None, isAuthenticated := false, isLoading := false)
    case Unrecognised(_) => st
  }

  /** The state after dispatching `actions` in order. */
  function Run(st: AuthState, actions: seq<Action>): AuthState
    decreases |actions|
  {
    if |actions| == 0 then st else Run(Reduce(st, actions[0]), actions[1..])
  }

  /** Whatever sequence of actions is dispatched from the initial state, the
      authentication flag stays equal to "a user is set". */
  lemma {:induction false} RunConsistent(st: AuthState, actions: seq<Action>)
    requires Consistent(st)
    ensures Consistent(Run(st, actions))
    decreases |actions|
  {
    if |actions| > 0 {
      RunConsistent(Reduce(st, actions[0]), actions[1..]);
    }
  }

  lemma ReachableConsistent(actions: seq<Action>)
    ensures Consistent(InitialState)
    ensures Consistent(Run(InitialState, actions))
  {
    RunConsistent(InitialState, actions);
  }

  datatype Session = Session(store: Store, state: AuthState)

  /** What storage says the current user is: the parsed canonical record, or
      nobody when the key is absent, empty or unparsable. */
  function StoredUser(s: Store): Option<User> {
    if Holds(s, CurrentUserKey) then ParseUser(s[CurrentUserKey]) else None
  }

  /** The in-memory user agrees with storage. */
  predicate InSync(sess: Session) {
    sess.state.user == StoredUser(sess.store)
  }

  /** `checkAuthStatus`, run once on the initial state. A stored record signs
      its user in; unparsable text is removed and nobody is signed in; an
      absent or empty value leaves storage alone and nobody signed in. In
      every case loading is over and the state agrees with storage. */
  function CheckAuthStatus(s: Store): (r: Session)
    ensures !r.state.isLoading && Consistent(r.state) && InSync(r)
    ensures Holds(s, CurrentUserKey) && !s[CurrentUserKey].Unparsable? ==>
      r == Session(s, AuthState(ParseUser(s[CurrentUserKey]), false, true))
    ensures Holds(s, CurrentUserKey) && s[CurrentUserKey].Unparsable? ==>
      && r.store == s - {CurrentUserKey}
      && r.state == AuthState(None, false, false)
    ensures !Holds(s, CurrentUserKey) ==> r == Session(s, AuthState(None, false, false))
  {
    if !Holds(s, CurrentUserKey) then
      Session(s, Reduce(InitialState, SetLoading(false)))
    else
      match ParseUser(s[CurrentUserKey])
      case Some(u) => Session(s, Reduce(InitialState, SetUser(Some(u))))
      case None => Session(s - {CurrentUserKey}, Reduce(InitialState, SetLoading(false)))
  }

  /** `login`: write the record canonically, then set it. Afterwards the user
      is signed in, loading is over and storage agrees. The offline mirror is
      not refreshed. */
  function Login(sess: Session, user: User): (r: Session)
    ensures r.state.user == Some(user) && r.state.isAuthenticated && !r.state.isLoading
    ensures InSync(r)
    ensures CurrentUserKey in r.store && r.store[CurrentUserKey] == UserDoc(user)
    ensures OnlyTouched(sess.store, r.store, {CurrentUserKey})
  {
    Session(sess.store[CurrentUserKey := UserDoc(user)], Reduce(sess.state, SetUser(Some(user))))
  }

  /** `updateUser` performs the same two steps as `login`. It does not touch
      the offline mirror, so after a page changes the user through it the
      mirror still holds the record last written by the account service. */
  function UpdateUser(sess: Session, user: User): (r: Session)
    ensures r == Login(sess, user)
    ensures GetFromOfflineStorage(r.store, CurrentUserKey) == GetFromOfflineStorage(sess.store, CurrentUserKey)
  {
    KeysDistinct();
    Login(sess, user)
  }

  /** `logout`: remove the canonical record only, then sign out. The offline
      mirror survives, so a later login can still fall back on it. */
  function Logout(sess: Session): (r: Session)
    ensures r.state == AuthState(None, false, false)
    ensures CurrentUserKey !in r.store
    ensures OnlyTouched(sess.store, r.store, {CurrentUserKey})
    ensures GetFromOfflineStorage(r.store, CurrentUserKey) == GetFromOfflineStorage(sess.store, CurrentUserKey)
    ensures InSync(r)
  {
    KeysDistinct();
    Session(sess.store - {CurrentUserKey}, Reduce(sess.state, Action.Logout))
  }

  /** Each session operation keeps the reducer state consistent. */
  lemma OperationsKeepConsistent(sess: Session, user: User)
    requires Consistent(sess.state)
    ensures Consistent(Login(sess, user).state)
    ensures Consistent(UpdateUser(sess, user).state)
    ensures Consistent(Logout(sess).state)
  {
  }

  /** The offline fallback across a sign-out: after the demo login has been
      installed and the user has logged out, the demo email signs in again
      through the mirror with any password and gets the same record. */
  lemma LoginAfterLogoutFallsBack(sess: Session, now: int, later: int, password: string)
    ensures var first := Account.LoginUser(sess.store, Account.DemoEmail, Account.DemoPassword, now);
      && first.Success?
      && var out := Logout(Login(Session(first.value.store, sess.state), first.value.user));
      && var again := Account.LoginUser(out.store, Account.DemoEmail, password, later);
      && again.Success? && again.value.user == first.value.user
  {
    var first := Account.LoginUser(sess.store, Account.DemoEmail, Account.DemoPassword, now);
    var signedIn := Login(Session(first.value.store, sess.state), first.value.user);
    KeysDistinct();
    assert GetFromOfflineStorage(signedIn.store, CurrentUserKey) == GetFromOfflineStorage(first.value.store, CurrentUserKey);
  }
}
