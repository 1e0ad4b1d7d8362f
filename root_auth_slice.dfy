/** The `auth` store of the top-level `src/` application: a single token
    beside the account and the loading and error flags. */
module RootAuthSlice {
  import opened Wrappers
  import opened ClientTypes

  datatype AuthState = AuthState(
    user: Option<Account>,
    isAuthenticated: bool,
    loading: bool,
    error: Option<string>,
    token: Option<string>)

  /** Nobody signed in, nothing pending, no error. */
  const Initial := AuthState(None, false, false, None, None)

  /** The actions the slice's case reducers answer; a fulfilled login or
      sign-up carries the payload's `user` and `token`. The `Signup...`
      actions are those of the sign-up matchers, which the slice as written
      can never register (see `StoreNeverStartsAsWritten`). */
  datatype Action =
    | SetCredentials(account: Account, issued: string)
    | ClearCredentials
    | SetError(text: string)
    | ClearError
    | SetLoading(flag: bool)
    | LoginPending
    | LoginFulfilled(account: Account, issued: string)
    | LoginRejected(message: Option<string>)
    | SignupPending
    | SignupFulfilled(account: Account, issued: string)
    | SignupRejected(message: Option<string>)
    | LogoutFulfilled
    | CurrentUserFulfilled(account: Account)
    | CurrentUserRejected

  /** The new state after `a`. */
  function Reduce(st: AuthState, a: Action): AuthState {
    match a
    case SetCredentials(account, issued) =>
      st.(user := Some(account), token := Some(issued), isAuthenticated := true, error := None)
    case ClearCredentials =>
      st.(user := None, token := None, isAuthenticated := false, error := None)
    case SetError(text) => st.(error := Some(text), loading := false)
    case ClearError => st.(error := None)
    case SetLoading(flag) => st.(loading := flag)
    case LoginPending => st.(loading := true, error := None)
    case LoginFulfilled(account, issued) =>
      st.(loading := false, user := Some(account), token := Some(issued), isAuthenticated := true, error := None)
    case LoginRejected(message) =>
      st.(loading := false, error := Some(MessageOr(message, "Login failed")), isAuthenticated := false)
    case SignupPending => st.(loading := true, error := None)
    case SignupFulfilled(account, issued) =>
      st.(loading := false, user := Some(account), token := Some(issued), isAuthenticated := true, error := None)
    case SignupRejected(message) =>
      st.(loading := false, error := Some(MessageOr(message, "Registration failed")), isAuthenticated := false)
    case LogoutFulfilled =>
      st.(user := None, token := None, isAuthenticated := false, error := None, loading := false)
    case CurrentUserFulfilled(account) => st.(user := Some(account), isAuthenticated := true)
    case CurrentUserRejected => st.(user := None, token := None, isAuthenticated := false)
  }

  /** The fields of the state. */
  datatype Slot = UserSlot | AuthenticatedSlot | LoadingSlot | ErrorSlot | TokenSlot

  predicate Same(a: AuthState, b: AuthState, f: Slot) {
    match f
    case UserSlot => a.user == b.user
    case AuthenticatedSlot => a.isAuthenticated == b.isAuthenticated
    case LoadingSlot => a.loading == b.loading
    case ErrorSlot => a.error == b.error
    case TokenSlot => a.token == b.token
  }

  /** The fields each reducer assigns, read off the reducer bodies. */
  function Writes(a: Action): set<Slot> {
    match a
    case SetCredentials(_, _) => {UserSlot, TokenSlot, AuthenticatedSlot, ErrorSlot}
    case ClearCredentials => {UserSlot, TokenSlot, AuthenticatedSlot, ErrorSlot}
    case SetError(_) => {ErrorSlot, LoadingSlot}
    case ClearError => {ErrorSlot}
    case SetLoading(_) => {LoadingSlot}
    case LoginPending => {LoadingSlot, ErrorSlot}
    case LoginFulfilled(_, _) => {LoadingSlot, UserSlot, TokenSlot, AuthenticatedSlot, ErrorSlot}
    case LoginRejected(_) => {LoadingSlot, ErrorSlot, AuthenticatedSlot}
    case SignupPending => {LoadingSlot, ErrorSlot}
    case SignupFulfilled(_, _) => {LoadingSlot, UserSlot, TokenSlot, AuthenticatedSlot, ErrorSlot}
    case SignupRejected(_) => {LoadingSlot, ErrorSlot, AuthenticatedSlot}
    case LogoutFulfilled => {UserSlot, TokenSlot, AuthenticatedSlot, ErrorSlot, LoadingSlot}
    case CurrentUserFulfilled(_) => {UserSlot, AuthenticatedSlot}
    case CurrentUserRejected => {UserSlot, TokenSlot, AuthenticatedSlot}
  }

  /** No reducer touches a field outside its write set: `clearCredentials`
      leaves `loading`, `setError` leaves the session, `clearError` and
      `setLoading` touch one field each. */
  lemma ReducersWriteOnlyTheirFields(st: AuthState, a: Action)
    ensures forall f :: f !in Writes(a) ==> Same(st, Reduce(st, a), f)
  {
  }

  /** Logging out always returns to the initial state; clearing the
      credentials does too, except for the loading flag. */
  lemma LogoutResets(st: AuthState)
    ensures Reduce(st, LogoutFulfilled) == Initial
    ensures Reduce(st, ClearCredentials) == Initial.(loading := st.loading)
  {
  }

  /** With the sign-up matchers keyed to an endpoint that exists (see
      `IntendedStoreStarts`), a sign-up signs in at once: its outcomes act as
      the login's, apart from the fallback message of a rejection. */
  lemma SignupActsAsLogin(st: AuthState, account: Account, issued: string, message: Option<string>)
    ensures Reduce(st, SignupFulfilled(account, issued)) == Reduce(st, LoginFulfilled(account, issued))
    ensures Reduce(st, SignupPending) == Reduce(st, LoginPending)
    ensures Reduce(st, SignupRejected(message)).error.Some? && Reduce(st, LoginRejected(message)).error.Some?
    ensures Reduce(st, SignupRejected(message)) ==
      Reduce(st, LoginRejected(message)).(error := Reduce(st, SignupRejected(message)).error)
    ensures message.Some? && message.value != "" ==>
      Reduce(st, SignupRejected(message)) == Reduce(st, LoginRejected(message))
  {
  }

  /** Signed in only with an account at hand. */
  predicate AccountBacksSession(st: AuthState) {
    st.isAuthenticated ==> st.user.Some?
  }

  /** Every action keeps a session backed by an account. */
  lemma SessionsKeepAccount(st: AuthState, a: Action)
    requires AccountBacksSession(st)
    ensures AccountBacksSession(Reduce(st, a))
  {
  }

  /** A fetched account marks the store signed in with no token. */
  lemma SignedInWithoutToken(u: Account)
    ensures var r := Reduce(Initial, CurrentUserFulfilled(u));
      r.isAuthenticated && r.token.None?
  {
  }

  // ---------------------------------------------------------------- building the slice

  /** The endpoints the `src/` API slice declares, in order. */
  const ApiEndpoints: seq<string> := ["login", "register", "logout", "forgetPassword", "verifyForgetPassword",
    "resetPassword", "changePassword", "resendVerification", "verifyEmail", "getCurrentUser", "updateProfile"]

  /** The endpoints whose matchers `extraReducers` registers, in order, as written. */
  const WrittenMatchers: seq<string> := ["login", "signup", "logout", "getCurrentUser"]

  /** The same with the sign-up matchers keyed to the API's `register`. */
  const IntendedMatchers: seq<string> := ["login", "register", "logout", "getCurrentUser"]

  /** The first matcher that names an endpoint the API lacks: reading
      `.matchPending` of the missing endpoint throws a TypeError there. */
  function MissingEndpoint(matchers: seq<string>, endpoints: seq<string>): (r: Option<nat>)
    ensures r.Some? ==>
      && r.value < |matchers| && matchers[r.value] !in endpoints
      && forall k :: 0 <= k < r.value ==> matchers[k] in endpoints
    ensures r.None? <==> forall k :: 0 <= k < |matchers| ==> matchers[k] in endpoints
  {
    if matchers == [] then None
    else if matchers[0] !in endpoints then Some(0)
    else
      match MissingEndpoint(matchers[1..], endpoints)
      case None => None
      case Some(k) => Some(k + 1)
  }

  /** Creating the store: `combineReducers` calls the auth reducer at once,
      which runs `extraReducers`; the store starts in `Initial`, or not at
      all when a matcher throws. */
  function StartStore(matchers: seq<string>, endpoints: seq<string>): (r: Option<AuthState>)
    ensures r.Some? <==> forall k :: 0 <= k < |matchers| ==> matchers[k] in endpoints
    ensures r.Some? ==> r.value == Initial
  {
    if MissingEndpoint(matchers, endpoints).Some? then None else Some(Initial)
  }

  /** As written, the API has no `signup` endpoint, so building the reducer
      throws at the second matcher and the store never starts: no sign-up
      action, and no other action, ever reaches the slice. */
  lemma StoreNeverStartsAsWritten()
    ensures "signup" !in ApiEndpoints
    ensures MissingEndpoint(WrittenMatchers, ApiEndpoints) == Some(1)
    ensures StartStore(WrittenMatchers, ApiEndpoints).None?
  {
    assert WrittenMatchers[0] == ApiEndpoints[0];
    assert WrittenMatchers[1] !in ApiEndpoints;
  }

  /** With the sign-up matchers keyed to `register`, every matcher names a
      declared endpoint and the store starts signed out. */
  lemma IntendedStoreStarts()
    ensures StartStore(IntendedMatchers, ApiEndpoints) == Some(Initial)
  {
    assert IntendedMatchers[0] == ApiEndpoints[0];
    assert IntendedMatchers[1] == ApiEndpoints[1];
    assert IntendedMatchers[2] == ApiEndpoints[2];
    assert IntendedMatchers[3] == ApiEndpoints[9];
  }

  /** The store with its fields updated in place, as the reducers' draft does. */
  class AuthStore {
    var user: Option<Account>
    var isAuthenticated: bool
    var loading: bool
    var error: Option<string>
    var token: Option<string>

    function State(): AuthState
      reads this
    {
      AuthState(user, isAuthenticated, loading, error, token)
    }

    constructor()
      ensures State() == Initial
    {
      user := None;
      isAuthenticated := false;
      loading := false;
      error := None;
      token := None;
    }

    method Dispatch(a: Action)
      modifies this
      ensures State() == Reduce(old(State()), a)
    {
      match a
      case SetCredentials(account, issued) =>
        user := Some(account);
        token := Some(issued);
        isAuthenticated := true;
        error := None;
      case ClearCredentials =>
        user := None;
        token := None;
        isAuthenticated := false;
        error := None;
      case SetError(text) =>
        error := Some(text);
        loading := false;
      case ClearError =>
        error := None;
      case SetLoading(flag) =>
        loading := flag;
      case LoginPending =>
        loading := true;
        error := None;
      case LoginFulfilled(account, issued) =>
        loading := false;
        user := Some(account);
        token := Some(issued);
        isAuthenticated := true;
        error := None;
      case LoginRejected(message) =>
        loading := false;
        error := Some(MessageOr(message, "Login failed"));
        isAuthenticated := false;
      case SignupPending =>
        loading := true;
        error := None;
      case SignupFulfilled(account, issued) =>
        loading := false;
        user := Some(account);
        token := Some(issued);
        isAuthenticated := true;
        error := None;
      case SignupRejected(message) =>
        loading := false;
        error := Some(MessageOr(message, "Registration failed"));
        isAuthenticated := false;
      case LogoutFulfilled =>
        user := None;
        token := None;
        isAuthenticated := false;
        error := None;
        loading := false;
      case CurrentUserFulfilled(account) =>
        user := Some(account);
        isAuthenticated := true;
      case CurrentUserRejected =>
        user := None;
        token := None;
        isAuthenticated := false;
    }
  }
}
