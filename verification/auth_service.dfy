/**
 * The identity client: the four mutation functions of the auth hooks.
 *
 * Every post goes through the shared axios instance (`ApiClient`), so a 401
 * answer to any of them runs the refresh-and-retry interceptor, which may
 * store a refreshed token pair, or clear the tokens and redirect. The
 * server's answers and the raw refresh call are parameters.
 */
module AuthService {
  import opened Wrappers
  import opened ClientTypes
  import opened TokenStorage
  import ApiClient

  function LoginRequest(email: string, password: string): Post {
    Post(LoginPath, LoginBody(email, password))
  }

  function RegisterRequest(email: string, password: string, firstName: string, lastName: string): Post {
    Post(RegisterPath, RegisterBody(email, password, firstName, lastName))
  }

  /** `post('/api/v0/auth/logout')` sends no body. */
  const LogoutRequest := Post(LogoutPath, NoBody)

  function RefreshRequest(refreshToken: string): Post {
    Post(RefreshPath, RefreshBody(refreshToken))
  }

  /** What `setTokens` is given after a successful login post. */
  function LoginRecord(response: AuthResponse): TokenData {
    TokenData(response.accessToken, response.refreshToken, Some(response.user))
  }

  /** What the login promise settles to, given the post's outcome and the medium. */
  function LoginOutcome(reply: Result<AuthResponse, ClientError>, writesAccepted: nat): Result<User, ClientError> {
    if reply.Err? then Err(reply.error)
    else if writesAccepted < 3 then Err(Thrown(StoreFailureMessage))
    else Ok(reply.value.user)
  }

  /** `localStorage` after the login, given the storage the post left and its outcome. */
  function LoginSlots(codec: JsonCodec, slots: map<string, string>, reply: Result<AuthResponse, ClientError>,
                      writesAccepted: nat): map<string, string>
  {
    if reply.Err? then slots
    else Apply(slots, TokenWrites(codec, LoginRecord(reply.value))[..Min(writesAccepted, 3)])
  }

  /**
   * `useLogin`: posts the credentials; on success stores the token pair and
   * the user, and resolves with that user. A rejected post never reaches
   * `setTokens`; a failing `setTokens` rejects the login with its error.
   */
  method Login(gateway: ApiClient.ApiClient, email: string, password: string,
               server: ApiClient.Server<AuthResponse>, refresh: ApiClient.RefreshCall, writesAccepted: nat)
    returns (r: Result<User, ClientError>)
    modifies gateway`location, gateway.store
    ensures var ex := old(gateway.PostOutcome(LoginRequest(email, password), server, refresh, writesAccepted));
      && r == LoginOutcome(ex.result, writesAccepted)
      && gateway.store.slots == LoginSlots(gateway.store.codec, ex.slots, ex.result, writesAccepted)
      && gateway.location == ex.location
      && ApiClient.GatewayEffect(old(gateway.store.slots), gateway.store.slots, old(gateway.location),
                                 gateway.location, r.Err?)
    ensures var first := old(gateway.FirstAnswer(LoginRequest(email, password), server));
      !ApiClient.IsUnauthorized(first) ==>
        && gateway.location == old(gateway.location)
        && (first.Some? && first.value.Refused? ==>
              r == Err(ApiClient.RejectionOf(first)) && gateway.store.slots == old(gateway.store.slots))
    ensures var ex := old(gateway.PostOutcome(LoginRequest(email, password), server, refresh, writesAccepted));
      ex.result.Ok? && writesAccepted >= 3 ==>
        && r == Ok(ex.result.value.user)
        && (Faithful(gateway.store.codec) ==>
              && gateway.store.GetAccessToken() == Some(ex.result.value.accessToken)
              && gateway.store.GetRefreshToken() == Some(ex.result.value.refreshToken)
              && gateway.store.GetUser() == Some(ex.result.value.user))
  {
    var reply := gateway.SendPost(LoginRequest(email, password), server, refresh, writesAccepted);
    if reply.Err? {
      return Err(reply.error);
    }
    var response := reply.value;
    ghost var before := gateway.store.slots;
    var stored := gateway.store.SetTokens(LoginRecord(response), writesAccepted);
    ClearAfterWrites(gateway.store.codec, before, LoginRecord(response), Min(writesAccepted, 3));
    if stored.Fail? {
      return Err(stored.error);
    }
    r := Ok(response.user);
  }

  /**
   * `useRegister`: resolves with the response body. The hook itself never
   * touches token storage; only the instance's 401 handling can.
   */
  method Register(gateway: ApiClient.ApiClient, email: string, password: string, firstName: string, lastName: string,
                  server: ApiClient.Server<RegisterResponse>, refresh: ApiClient.RefreshCall, writesAccepted: nat)
    returns (r: Result<RegisterResponse, ClientError>)
    modifies gateway`location, gateway.store
    ensures var ex := old(gateway.PostOutcome(RegisterRequest(email, password, firstName, lastName),
                                              server, refresh, writesAccepted));
      r == ex.result && gateway.store.slots == ex.slots && gateway.location == ex.location
    ensures ApiClient.GatewayEffect(old(gateway.store.slots), gateway.store.slots, old(gateway.location),
                                    gateway.location, r.Err?)
    ensures var first := old(gateway.FirstAnswer(RegisterRequest(email, password, firstName, lastName), server));
      !ApiClient.IsUnauthorized(first) ==>
        && gateway.store.slots == old(gateway.store.slots) && gateway.location == old(gateway.location)
        && r == (if first.Some? && first.value.Resolved? then Ok(first.value.body)
                 else Err(ApiClient.RejectionOf(first)))
  {
    r := gateway.SendPost(RegisterRequest(email, password, firstName, lastName), server, refresh, writesAccepted);
  }

  /**
   * `useLogout`: clears the stored tokens only once the logout post has
   * succeeded; a rejected post rejects the logout with its error.
   */
  method Logout(gateway: ApiClient.ApiClient, server: ApiClient.Server<()>, refresh: ApiClient.RefreshCall,
                writesAccepted: nat)
    returns (r: Outcome<ClientError>)
    modifies gateway`location, gateway.store
    ensures var ex := old(gateway.PostOutcome(LogoutRequest, server, refresh, writesAccepted));
      && gateway.location == ex.location
      && (ex.result.Ok? ==> r == Pass && gateway.store.slots == Cleared(old(gateway.store.slots)))
      && (ex.result.Err? ==> r == Fail(ex.result.error) && gateway.store.slots == ex.slots)
    ensures ApiClient.GatewayEffect(old(gateway.store.slots), gateway.store.slots, old(gateway.location),
                                    gateway.location, r.Fail?)
    ensures var first := old(gateway.FirstAnswer(LogoutRequest, server));
      !ApiClient.IsUnauthorized(first) ==>
        && gateway.location == old(gateway.location)
        && (first.Some? && first.value.Resolved? ==> r == Pass)
        && (!(first.Some? && first.value.Resolved?) ==>
              r == Fail(ApiClient.RejectionOf(first)) && gateway.store.slots == old(gateway.store.slots))
  {
    var reply := gateway.SendPost(LogoutRequest, server, refresh, writesAccepted);
    if reply.Err? {
      return Fail(reply.error);
    }
    ClearedProperties(gateway.store.codec, old(gateway.store.slots));
    gateway.store.ClearTokens();
    r := Pass;
  }

  /**
   * `useRefreshToken`: resolves with the new token pair. The hook does not
   * store it; only the instance's 401 handling can change storage.
   */
  method RefreshToken(gateway: ApiClient.ApiClient, refreshToken: string,
                      server: ApiClient.Server<TokenPair>, refresh: ApiClient.RefreshCall, writesAccepted: nat)
    returns (r: Result<TokenPair, ClientError>)
    modifies gateway`location, gateway.store
    ensures var ex := old(gateway.PostOutcome(RefreshRequest(refreshToken), server, refresh, writesAccepted));
      r == ex.result && gateway.store.slots == ex.slots && gateway.location == ex.location
    ensures ApiClient.GatewayEffect(old(gateway.store.slots), gateway.store.slots, old(gateway.location),
                                    gateway.location, r.Err?)
    ensures var first := old(gateway.FirstAnswer(RefreshRequest(refreshToken), server));
      !ApiClient.IsUnauthorized(first) ==>
        && gateway.store.slots == old(gateway.store.slots) && gateway.location == old(gateway.location)
        && r == (if first.Some? && first.value.Resolved? then Ok(first.value.body)
                 else Err(ApiClient.RejectionOf(first)))
  {
    r := gateway.SendPost(RefreshRequest(refreshToken), server, refresh, writesAccepted);
  }
}
