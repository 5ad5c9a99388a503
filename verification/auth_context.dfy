/**
 * The session provider: the `AuthProvider` component's state (`currentUser`,
 * the start-up `loading` flag, `error`), its four operations, and the values
 * it exposes through `useAuth`.
 *
 * Each asynchronous operation is modelled as running to completion; the
 * server's answers and the raw refresh call are parameters, and every post
 * goes through the shared HTTP gateway.
 */
module AuthContext {
  import opened Wrappers
  import opened ClientTypes
  import opened TokenStorage
  import AuthService
  import ApiClient

  const LoginFallback := "Login failed. Please check your credentials and try again."
  const RegisterFallback := "Registration failed. Please try again."
  const LogoutFallback := "Logout failed. Please try again."
  const OutsideProviderMessage := "useAuth must be used within an AuthProvider"

  /** The observable state of one react-query mutation. */
  datatype MutationState = Idle | Pending | Succeeded | Failed(error: ClientError) {
    /** `mutation.error?.message`, with a missing error read as the falsy `""`. */
    function ErrorMessage(): string {
      if Failed? then error.message else ""
    }
  }

  /** `a || b || ... || ''` over strings: the first non-empty one, else `""`. */
  function FirstNonEmpty(xs: seq<string>): (r: string)
    ensures (forall i | 0 <= i < |xs| :: xs[i] == "") ==> r == ""
    ensures forall i | 0 <= i < |xs| && xs[i] != "" :: (forall j | 0 <= j < i :: xs[j] == "") ==> r == xs[i]
  {
    if xs == [] then ""
    else if xs[0] != "" then xs[0]
    else FirstNonEmpty(xs[1..])
  }

  /** The exposed `loading`: the start-up flag or any of the three mutations in flight. */
  function ExposedLoading(initializing: bool, login: MutationState, register: MutationState,
                          logout: MutationState): bool
  {
    initializing || login.Pending? || register.Pending? || logout.Pending?
  }

  /** The exposed `error`: the local error, else the first mutation message that is not empty. */
  function ExposedError(local: string, login: MutationState, register: MutationState,
                        logout: MutationState): (r: string)
    ensures local != "" ==> r == local
    ensures local == "" && login.ErrorMessage() != "" ==> r == login.ErrorMessage()
    ensures local == "" && login.ErrorMessage() == "" && register.ErrorMessage() != "" ==> r == register.ErrorMessage()
    ensures local == "" && login.ErrorMessage() == "" && register.ErrorMessage() == "" ==> r == logout.ErrorMessage()
  {
    var xs := [local, login.ErrorMessage(), register.ErrorMessage(), logout.ErrorMessage()];
    assert xs[0] == local && xs[1] == login.ErrorMessage();
    assert xs[2] == register.ErrorMessage() && xs[3] == logout.ErrorMessage();
    FirstNonEmpty(xs)
  }

  datatype AuthContextValue = AuthContextValue(currentUser: Option<User>, loading: bool, error: string)

  /** `useAuth`: the nearest provider's value; outside any provider it throws. */
  function UseAuth(context: Option<AuthContextValue>): (r: Result<AuthContextValue, string>)
    ensures context.None? ==> r == Err(OutsideProviderMessage)
    ensures context.Some? ==> r == Ok(context.value)
  {
    match context
    case None => Err(OutsideProviderMessage)
    case Some(v) => Ok(v)
  }

  class AuthProvider {
    /** The shared HTTP gateway, whose credential store is the `TokenStorage` the provider reads. */
    const gateway: ApiClient.ApiClient
    var currentUser: Option<User>
    var loading: bool
    var error: string
    var loginMutation: MutationState
    var registerMutation: MutationState
    var logoutMutation: MutationState
    /** How many times `queryClient.clear()` has run. */
    var cacheClears: nat

    constructor (gateway: ApiClient.ApiClient)
      ensures this.gateway == gateway
      ensures currentUser == None && loading && error == ""
      ensures loginMutation == Idle && registerMutation == Idle && logoutMutation == Idle
      ensures cacheClears == 0
      ensures Value() == AuthContextValue(None, true, "")
    {
      this.gateway := gateway;
      currentUser := None;
      loading := true;
      error := "";
      loginMutation := Idle;
      registerMutation := Idle;
      logoutMutation := Idle;
      cacheClears := 0;
    }

    /** The value handed to consumers. */
    function Value(): AuthContextValue
      reads this
    {
      AuthContextValue(
        currentUser,
        ExposedLoading(loading, loginMutation, registerMutation, logoutMutation),
        ExposedError(error, loginMutation, registerMutation, logoutMutation))
    }

    /**
     * `initializeAuth`, run once on mount: with a stored user and a truthy
     * refresh token it posts a refresh; success restores the stored user
     * (the hook does not store the new pair), failure clears the tokens,
     * which a failed 401 refresh of the instance has already done. The
     * start-up flag ends false on every path and `error` is never set.
     */
    method InitializeAuth(server: ApiClient.Server<TokenPair>, refresh: ApiClient.RefreshCall, writesAccepted: nat)
      modifies this, gateway`location, gateway.store
      ensures !loading
      ensures Value().loading <==> loginMutation.Pending? || registerMutation.Pending? || logoutMutation.Pending?
      ensures error == old(error) && cacheClears == old(cacheClears)
      ensures loginMutation == old(loginMutation) && registerMutation == old(registerMutation)
      ensures logoutMutation == old(logoutMutation)
      ensures var user := old(gateway.store.GetUser());
        var rt := old(gateway.store.GetRefreshToken());
        && (user.None? || !Truthy(rt) ==>
              && currentUser == old(currentUser)
              && gateway.store.slots == old(gateway.store.slots) && gateway.location == old(gateway.location))
        && (user.Some? && Truthy(rt) ==>
              var ex := old(gateway.PostOutcome(AuthService.RefreshRequest(rt.value), server, refresh, writesAccepted));
              && gateway.location == ex.location
              && (ex.result.Ok? ==> currentUser == user && gateway.store.slots == ex.slots)
              && (ex.result.Err? ==>
                    currentUser == old(currentUser) && gateway.store.slots == Cleared(old(gateway.store.slots))))
    {
      var user := gateway.store.GetUser();
      var refreshToken := gateway.store.GetRefreshToken();
      if user.Some? && Truthy(refreshToken) {
        var answer := AuthService.RefreshToken(gateway, refreshToken.value, server, refresh, writesAccepted);
        if answer.Ok? {
          currentUser := user;
        } else {
          gateway.store.ClearTokens();
        }
      }
      loading := false;
    }

    /**
     * `login`: clears `error`, runs the login mutation; success sets and
     * returns the user, failure records the rejection's `error` text (or the
     * fallback), leaves `currentUser` alone and rethrows the same error.
     */
    method Login(email: string, password: string, server: ApiClient.Server<AuthResponse>,
                 refresh: ApiClient.RefreshCall, writesAccepted: nat)
      returns (r: Result<User, ClientError>)
      modifies this, gateway`location, gateway.store
      ensures var ex := old(gateway.PostOutcome(AuthService.LoginRequest(email, password), server, refresh, writesAccepted));
        && r == AuthService.LoginOutcome(ex.result, writesAccepted)
        && gateway.store.slots == AuthService.LoginSlots(gateway.store.codec, ex.slots, ex.result, writesAccepted)
        && gateway.location == ex.location
      ensures r.Ok? ==> currentUser == Some(r.value) && error == "" && loginMutation == Succeeded
      ensures r.Err? ==>
        && currentUser == old(currentUser)
        && error == ErrorTextOr(r.error, LoginFallback)
        && loginMutation == Failed(r.error)
        && Value().error == error
      ensures loading == old(loading) && cacheClears == old(cacheClears)
      ensures registerMutation == old(registerMutation) && logoutMutation == old(logoutMutation)
    {
      error := "";
      var outcome := AuthService.Login(gateway, email, password, server, refresh, writesAccepted);
      if outcome.Ok? {
        loginMutation := Succeeded;
        currentUser := Some(outcome.value);
      } else {
        loginMutation := Failed(outcome.error);
        error := ErrorTextOr(outcome.error, LoginFallback);
      }
      r := outcome;
    }

    /**
     * `register`: clears `error`, runs the register mutation and returns the
     * created user; it never sets `currentUser`. Failure records the error
     * text (or the fallback) and rethrows.
     */
    method Register(email: string, password: string, firstName: string, lastName: string,
                    server: ApiClient.Server<RegisterResponse>, refresh: ApiClient.RefreshCall, writesAccepted: nat)
      returns (r: Result<User, ClientError>)
      modifies this, gateway`location, gateway.store
      ensures var ex := old(gateway.PostOutcome(AuthService.RegisterRequest(email, password, firstName, lastName),
                                                server, refresh, writesAccepted));
        && gateway.store.slots == ex.slots && gateway.location == ex.location
        && (ex.result.Ok? ==> r == Ok(ex.result.value.user) && error == "" && registerMutation == Succeeded)
        && (ex.result.Err? ==>
              && r == Err(ex.result.error)
              && error == ErrorTextOr(ex.result.error, RegisterFallback)
              && registerMutation == Failed(ex.result.error)
              && Value().error == error)
      ensures currentUser == old(currentUser) && loading == old(loading) && cacheClears == old(cacheClears)
      ensures loginMutation == old(loginMutation) && logoutMutation == old(logoutMutation)
    {
      error := "";
      var outcome := AuthService.Register(gateway, email, password, firstName, lastName, server, refresh, writesAccepted);
      if outcome.Ok? {
        registerMutation := Succeeded;
        r := Ok(outcome.value.user);
      } else {
        registerMutation := Failed(outcome.error);
        error := ErrorTextOr(outcome.error, RegisterFallback);
        r := Err(outcome.error);
      }
    }

    /**
     * `logout`: runs the logout mutation (which clears the tokens only after
     * the post succeeds); success forgets the user and clears the query cache,
     * failure records the error text (or the fallback), keeps the user and
     * rethrows. `error` is not reset first.
     */
    method Logout(server: ApiClient.Server<()>, refresh: ApiClient.RefreshCall, writesAccepted: nat)
      returns (r: Outcome<ClientError>)
      modifies this, gateway`location, gateway.store
      ensures var ex := old(gateway.PostOutcome(AuthService.LogoutRequest, server, refresh, writesAccepted));
        && gateway.location == ex.location
        && (ex.result.Ok? ==>
              && r == Pass && currentUser == None && cacheClears == old(cacheClears) + 1
              && gateway.store.slots == Cleared(old(gateway.store.slots))
              && error == old(error) && logoutMutation == Succeeded)
        && (ex.result.Err? ==>
              && r == Fail(ex.result.error) && currentUser == old(currentUser) && cacheClears == old(cacheClears)
              && gateway.store.slots == ex.slots
              && error == ErrorTextOr(ex.result.error, LogoutFallback) && logoutMutation == Failed(ex.result.error)
              && Value().error == error)
      ensures loading == old(loading)
      ensures loginMutation == old(loginMutation) && registerMutation == old(registerMutation)
    {
      var outcome := AuthService.Logout(gateway, server, refresh, writesAccepted);
      if outcome.Pass? {
        logoutMutation := Succeeded;
        currentUser := None;
        cacheClears := cacheClears + 1;
      } else {
        logoutMutation := Failed(outcome.error);
        error := ErrorTextOr(outcome.error, LogoutFallback);
      }
      r := outcome;
    }
  }

  /**
   * The rendered login-error case: a rejection whose payload carries
   * `error: "Invalid credentials"` is shown exactly as that text.
   */
  lemma LoginErrorShownVerbatim(status: int, message: string, login: MutationState,
                                register: MutationState, logout: MutationState)
    ensures var e := ResponseError(status, message, Some(ErrorBody(Some("Invalid credentials"))));
      ExposedError(ErrorTextOr(e, LoginFallback), login, register, logout) == "Invalid credentials"
  {
  }

  /**
   * A wrong password answered 401 while no refresh token is stored never
   * shows the server's text: the instance clears the tokens, redirects, and
   * rejects with its own error, so the login shows the fallback message.
   */
  lemma WrongPasswordWithoutRefreshToken(baseURL: string, codec: JsonCodec, slots: map<string, string>,
                                         location: Option<string>, headers: map<string, string>,
                                         email: string, password: string, server: ApiClient.Server<AuthResponse>,
                                         refresh: ApiClient.RefreshCall, writesAccepted: nat)
    requires ApiClient.IsUnauthorized(server(AuthService.LoginRequest(email, password),
                                             ApiClient.WithToken(headers, AccessTokenIn(slots))))
    requires !Truthy(RefreshTokenIn(slots))
    ensures var ex := ApiClient.Exchanged(baseURL, codec, slots, location, AuthService.LoginRequest(email, password),
                                          headers, false, server, refresh, writesAccepted);
      var r := AuthService.LoginOutcome(ex.result, writesAccepted);
      && r == Err(Thrown(ApiClient.NoRefreshTokenMessage))
      && ErrorTextOr(r.error, LoginFallback) == LoginFallback
      && AuthService.LoginSlots(codec, ex.slots, ex.result, writesAccepted) == Cleared(slots)
      && ex.location == Some(ApiClient.LoginLocation)
  {
    ApiClient.UnauthorizedWithoutRefreshToken(baseURL, codec, slots, location, AuthService.LoginRequest(email, password),
                                              headers, server, refresh, writesAccepted);
  }
}
