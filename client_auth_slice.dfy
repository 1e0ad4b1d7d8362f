/** The `auth` store of the `client/` application: an access and a refresh
    token, the account, and the loading and error flags the forms show.
    Its reducers answer both direct actions and the outcomes of the API
    calls (pending, fulfilled, rejected). */
module ClientAuthSlice {
  import opened Wrappers
  import opened ClientTypes

  datatype AuthState = AuthState(
    user: Option<Account>,
    isAuthenticated: bool,
    loading: bool,
    error: Option<string>,
    accessToken: Option<string>,
    refreshToken: Option<string>)

  /** Nobody signed in, nothing pending, no error. */
  const Initial := AuthState(None, false, false, None, None, None)

  /** The actions the slice answers; a token pair is the payload's
      `access_token` and `refresh_token`, a rejection carries
      `action.error.message` when there is one. */
  datatype Action =
    | SetCredentials(account: Option<Account>, access: string, refresh: string)
    | ClearCredentials
    | SetError(text: string)
    | ClearError
    | SetLoading(flag: bool)
    | LoginPending
    | LoginFulfilled(access: string, refresh: string)
    | LoginRejected(message: Option<string>)
    | SignupPending
    | SignupFulfilled
    | SignupRejected(message: Option<string>)
    | GmailSignupFulfilled(access: string, refresh: string)
    | RefreshFulfilled(access: string, refresh: string)
    | LogoutFulfilled
    | CurrentUserFulfilled(fetched: Account)
    | CurrentUserRejected

  /** The new state after `a`. */
  function Reduce(st: AuthState, a: Action): AuthState {
    match a
    case SetCredentials(account, access, refresh) =>
      st.(user := if account.Some? then account else st.user,
          accessToken := Some(access), refreshToken := Some(refresh),
          isAuthenticated := true, error := None)
    case ClearCredentials =>
      st.(user := None, accessToken := None, refreshToken := None, isAuthenticated := false, error := None)
    case SetError(text) => st.(error := Some(text), loading := false)
    case ClearError => st.(error := None)
    case SetLoading(flag) => st.(loading := flag)
    case LoginPending => st.(loading := true, error := None)
    case LoginFulfilled(access, refresh) =>
      st.(loading := false, accessToken := Some(access), refreshToken := Some(refresh),
          isAuthenticated := true, error := None)
    case LoginRejected(message) =>
      st.(loading := false, error := Some(MessageOr(message, "Login failed")), isAuthenticated := false)
    case SignupPending => st.(loading := true, error := None)
    case SignupFulfilled => st.(loading := false, error := None)
    case SignupRejected(message) =>
      st.(loading := false, error := Some(MessageOr(message, "Registration failed")), isAuthenticated := false)
    case GmailSignupFulfilled(access, refresh) =>
      st.(loading := false, accessToken := Some(access), refreshToken := Some(refresh),
          isAuthenticated := true, error := None)
    case RefreshFulfilled(access, refresh) =>
      st.(accessToken := Some(access), refreshToken := Some(refresh), error := None)
    case LogoutFulfilled =>
      st.(user := None, accessToken := None, refreshToken := None, isAuthenticated := false,
          error := None, loading := false)
    case CurrentUserFulfilled(fetched) => st.(user := Some(fetched), isAuthenticated := true)
    case CurrentUserRejected =>
      st.(user := None, accessToken := None, refreshToken := None, isAuthenticated := false)
  }

  /** The state after a run of actions, oldest first. */
  function ReduceAll(st: AuthState, actions: seq<Action>): AuthState
    decreases |actions|
  {
    if actions == [] then st else ReduceAll(Reduce(st, actions[0]), actions[1..])
  }

  /** The fields of the state. */
  datatype Slot = UserSlot | AuthenticatedSlot | LoadingSlot | ErrorSlot | AccessSlot | RefreshSlot

  predicate Same(a: AuthState, b: AuthState, f: Slot) {
    match f
    case UserSlot => a.user == b.user
    case AuthenticatedSlot => a.isAuthenticated == b.isAuthenticated
    case LoadingSlot => a.loading == b.loading
    case ErrorSlot => a.error == b.error
    case AccessSlot => a.accessToken == b.accessToken
    case RefreshSlot => a.refreshToken == b.refreshToken
  }

  /** The fields each reducer assigns, read off the reducer bodies. */
  function Writes(a: Action): set<Slot> {
    match a
    case SetCredentials(account, _, _) =>
      (if account.Some? then {UserSlot} else {}) + {AccessSlot, RefreshSlot, AuthenticatedSlot, ErrorSlot}
    case ClearCredentials => {UserSlot, AccessSlot, RefreshSlot, AuthenticatedSlot, ErrorSlot}
    case SetError(_) => {ErrorSlot, LoadingSlot}
    case ClearError => {ErrorSlot}
    case SetLoading(_) => {LoadingSlot}
    case LoginPending => {LoadingSlot, ErrorSlot}
    case LoginFulfilled(_, _) => {LoadingSlot, AccessSlot, RefreshSlot, AuthenticatedSlot, ErrorSlot}
    case LoginRejected(_) => {LoadingSlot, ErrorSlot, AuthenticatedSlot}
    case SignupPending => {LoadingSlot, ErrorSlot}
    case SignupFulfilled => {LoadingSlot, ErrorSlot}
    case SignupRejected(_) => {LoadingSlot, ErrorSlot, AuthenticatedSlot}
    case GmailSignupFulfilled(_, _) => {LoadingSlot, AccessSlot, RefreshSlot, AuthenticatedSlot, ErrorSlot}
    case RefreshFulfilled(_, _) => {AccessSlot, RefreshSlot, ErrorSlot}
    case LogoutFulfilled => {UserSlot, AccessSlot, RefreshSlot, AuthenticatedSlot, ErrorSlot, LoadingSlot}
    case CurrentUserFulfilled(_) => {UserSlot, AuthenticatedSlot}
    case CurrentUserRejected => {UserSlot, AccessSlot, RefreshSlot, AuthenticatedSlot}
  }

  /** No reducer touches a field outside its write set: `clearCredentials`
      and `getCurrentUser` leave `loading`, `refreshToken` leaves the account
      and the flags, `clearError` and `setLoading` touch one field each. */
  lemma ReducersWriteOnlyTheirFields(st: AuthState, a: Action)
    ensures forall f :: f !in Writes(a) ==> Same(st, Reduce(st, a), f)
  {
  }

  /** Logging out always returns to the initial state. */
  lemma LogoutResets(st: AuthState)
    ensures Reduce(st, LogoutFulfilled) == Initial
  {
  }

  /** `clearCredentials` is a logout that leaves the loading flag alone. */
  lemma ClearCredentialsIsLogoutButLoading(st: AuthState)
    ensures Reduce(st, ClearCredentials) == Initial.(loading := st.loading)
    ensures Reduce(st, ClearCredentials) == Reduce(st, LogoutFulfilled).(loading := st.loading)
  {
  }

  /** The sign-up outcomes. */
  predicate IsSignupAction(a: Action) {
    a.SignupPending? || a.SignupFulfilled? || a.SignupRejected?
  }

  /** Signing up with a password only starts the e-mail confirmation: no run
      of sign-up outcomes stores a token, changes the account, or signs
      anyone in. */
  lemma {:induction false} SignupNeverAuthenticates(st: AuthState, actions: seq<Action>)
    requires forall i :: 0 <= i < |actions| ==> IsSignupAction(actions[i])
    decreases |actions|
    ensures var r := ReduceAll(st, actions);
      r.accessToken == st.accessToken && r.refreshToken == st.refreshToken && r.user == st.user
      && (r.isAuthenticated ==> st.isAuthenticated)
  {
    if actions != [] {
      SignupNeverAuthenticates(Reduce(st, actions[0]), actions[1..]);
    }
  }

  /** A rejected login or sign-up always leaves an error to show, and signs
      out without dropping the tokens or the account. */
  lemma RejectionsReportAndSignOut(st: AuthState, message: Option<string>)
    ensures var r := Reduce(st, LoginRejected(message));
      r.error.Some? && r.error.value != "" && !r.isAuthenticated && !r.loading
      && r.accessToken == st.accessToken && r.refreshToken == st.refreshToken && r.user == st.user
    ensures var r := Reduce(st, SignupRejected(message));
      r.error.Some? && r.error.value != "" && !r.isAuthenticated && !r.loading
      && r.accessToken == st.accessToken && r.refreshToken == st.refreshToken && r.user == st.user
    ensures message.Some? && message.value != "" ==>
      Reduce(st, LoginRejected(message)).error == Some(message.value)
  {
  }

  /** Being signed in with both tokens at hand. */
  predicate TokensBackSession(st: AuthState) {
    st.isAuthenticated ==> st.accessToken.Some? && st.refreshToken.Some?
  }

  /** Every action but a fetched account keeps a session backed by tokens. */
  lemma SessionsKeepTokens(st: AuthState, a: Action)
    requires TokensBackSession(st) && !a.CurrentUserFulfilled?
    ensures TokensBackSession(Reduce(st, a))
  {
  }

  /** A fetched account marks the store signed in whether or not it holds
      tokens, and a login marks it signed in before any account is known. */
  lemma SignedInWithoutTokensOrAccount(u: Account, access: string, refresh: string)
    ensures var r := Reduce(Initial, CurrentUserFulfilled(u));
      r.isAuthenticated && r.accessToken.None? && !TokensBackSession(r)
    ensures var r := Reduce(Initial, LoginFulfilled(access, refresh));
      r.isAuthenticated && r.user.None?
  {
  }

  /** The store with its fields updated in place, as the reducers' draft does. */
  class AuthStore {
    var user: Option<Account>
    var isAuthenticated: bool
    var loading: bool
    var error: Option<string>
    var accessToken: Option<string>
    var refreshToken: Option<string>

    function State(): AuthState
      reads this
    {
      AuthState(user, isAuthenticated, loading, error, accessToken, refreshToken)
    }

    constructor()
      ensures State() == Initial
    {
      user := None;
      isAuthenticated := false;
      loading := false;
      error := None;
      accessToken := None;
      refreshToken := None;
    }

    method Dispatch(a: Action)
      modifies this
      ensures State() == Reduce(old(State()), a)
    {
      match a
      case SetCredentials(account, access, refresh) =>
        if account.Some? {
          user := account;
        }
        accessToken := Some(access);
        refreshToken := Some(refresh);
        isAuthenticated := true;
        error := None;
      case ClearCredentials =>
        user := None;
        accessToken := None;
        refreshToken := None;
        isAuthenticated := false;
        error := None;
      case SetError(text) =>
        error := Some(text);
        loading := false;
      case ClearError =>
        error := None;
      case SetLoading(flag) =>
        loading := flag;
      case LoginPending =>
        loading := true;
        error := None;
      case LoginFulfilled(access, refresh) =>
        loading := false;
        accessToken := Some(access);
        refreshToken := Some(refresh);
        isAuthenticated := true;
        error := None;
      case LoginRejected(message) =>
        loading := false;
        error := Some(MessageOr(message, "Login failed"));
        isAuthenticated := false;
      case SignupPending =>
        loading := true;
        error := None;
      case SignupFulfilled =>
        loading := false;
        error := None;
      case SignupRejected(message) =>
        loading := false;
        error := Some(MessageOr(message, "Registration failed"));
        isAuthenticated := false;
      case GmailSignupFulfilled(access, refresh) =>
        loading := false;
        accessToken := Some(access);
        refreshToken := Some(refresh);
        isAuthenticated := true;
        error := None;
      case RefreshFulfilled(access, refresh) =>
        accessToken := Some(access);
        refreshToken := Some(refresh);
        error := None;
      case LogoutFulfilled =>
        user := None;
        accessToken := None;
        refreshToken := None;
        isAuthenticated := false;
        error := None;
        loading := false;
      case CurrentUserFulfilled(fetched) =>
        user := Some(fetched);
        isAuthenticated := true;
      case CurrentUserRejected =>
        user := None;
        accessToken := None;
        refreshToken := None;
        isAuthenticated := false;
    }
  }
}
