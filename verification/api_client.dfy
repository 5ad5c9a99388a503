/**
 * The HTTP gateway: one shared client whose request interceptor attaches
 * `Authorization: Bearer <access token>` (section 2.1 of RFC 6750) and whose
 * response interceptor answers a 401 (section 15.5.2 of RFC 9110) with one
 * refresh-and-retry per request, guarded by the request's `_retry` marker.
 */
module ApiClient {
  import opened Wrappers
  import opened ClientTypes
  import opened TokenStorage

  const AuthorizationHeader := "Authorization"
  const LoginLocation := "/login"
  const NoRefreshTokenMessage := "No refresh token available"
  const DefaultApiUrl := "http://localhost:8080"
  const Unauthorized: nat := 401

  function Bearer(token: string): string {
    "Bearer " + token
  }

  /** The headers the request interceptor leaves on a request, given the stored access token. */
  function WithToken(headers: map<string, string>, token: Option<string>): (r: map<string, string>)
    ensures Truthy(token) ==> AuthorizationHeader in r && r[AuthorizationHeader] == Bearer(token.value)
    ensures !Truthy(token) ==> r == headers
    ensures forall h | h != AuthorizationHeader :: (h in r <==> h in headers) && (h in r ==> r[h] == headers[h])
  {
    if Truthy(token) then headers[AuthorizationHeader := Bearer(token.value)] else headers
  }

  type SuccessStatus = s: nat | 200 <= s < 300 witness 200
  type FailureStatus = s: nat | !(200 <= s < 300) witness 400

  /**
   * What the server answers to one request. axios resolves a 2xx answer with
   * its body, read as the type the caller declares, and rejects every other
   * status; `data` is then the error payload.
   */
  datatype Reply<T> =
    | Resolved(okStatus: SuccessStatus, body: T)
    | Refused(status: FailureStatus, data: Option<ErrorBody>)

  /** The server as the client sees it: its answer to a post sent with these headers, `None` when none arrives. */
  type Server<T> = (Post, map<string, string>) -> Option<Reply<T>>

  /** `axios.post` to the refresh endpoint, which bypasses the instance and its interceptors. */
  type RefreshCall = Post -> Result<TokenPair, ClientError>

  /** A 401 answer (section 15.5.2 of RFC 9110). */
  predicate IsUnauthorized<T>(answer: Option<Reply<T>>) {
    answer.Some? && answer.value.Refused? && answer.value.status == Unauthorized
  }

  /** What axios rejects with when no 2xx answer arrives. */
  function RejectionOf<T>(answer: Option<Reply<T>>): (e: ClientError)
    requires answer.None? || answer.value.Refused?
    ensures e.Status() == (if answer.None? then None else Some(answer.value.status as int))
    ensures answer.Some? ==> e.ServerError() == (if answer.value.data.Some? then answer.value.data.value.error else None)
  {
    if answer.None? then NetworkError("Network Error")
    else
      var status := answer.value.status;
      ResponseError(status, "Request failed with status code " + NatToString(status), answer.value.data)
  }

  /** The refresh post: the configured base URL joined with the refresh path. */
  function RefreshPost(baseURL: string, refreshToken: string): Post {
    Post(baseURL + RefreshPath, RefreshBody(refreshToken))
  }

  /** What one call of the instance settles to, and the storage and location it leaves. */
  datatype Exchange<T> = Exchange(result: Result<T, ClientError>, slots: map<string, string>, location: Option<string>)

  /** A failed refresh: the tokens are cleared, the browser is sent to `/login`, and the call rejects. */
  function SentToLogin<T>(reason: ClientError, slots: map<string, string>): Exchange<T> {
    Exchange(Err(reason), Cleared(slots), Some(LoginLocation))
  }

  /**
   * One call of the instance from the given storage and location, with the
   * request's headers before the request interceptor and its `_retry` marker.
   * Every `setTokens` of the call is given the same medium, `writesAccepted`.
   */
  function Exchanged<T>(baseURL: string, codec: JsonCodec, slots: map<string, string>, location: Option<string>,
                        request: Post, headers: map<string, string>, retried: bool,
                        server: Server<T>, refresh: RefreshCall, writesAccepted: nat): (ex: Exchange<T>)
    ensures ex.result.Ok? ==> ex.location == location
    ensures ex.location == location
         || (!retried && ex.location == Some(LoginLocation) && ex.result.Err? && ex.slots == Cleared(slots))
    decreases if retried then 0 else 1
  {
    var sentHeaders := WithToken(headers, AccessTokenIn(slots));
    var answer := server(request, sentHeaders);
    if answer.Some? && answer.value.Resolved? then Exchange(Ok(answer.value.body), slots, location)
    else if !IsUnauthorized(answer) || retried then Exchange(Err(RejectionOf(answer)), slots, location)
    else
      var refreshToken := RefreshTokenIn(slots);
      if !Truthy(refreshToken) then SentToLogin(Thrown(NoRefreshTokenMessage), slots)
      else
        var renewed := refresh(RefreshPost(baseURL, refreshToken.value));
        if renewed.Err? then SentToLogin(renewed.error, slots)
        else if writesAccepted < 3 then SentToLogin(Thrown(StoreFailureMessage), slots)
        else
          var pair := renewed.value;
          var stored := Apply(slots, TokenWrites(codec, TokenData(pair.accessToken, pair.refreshToken, UserIn(codec, slots))));
          Exchanged(baseURL, codec, stored, location, request, sentHeaders[AuthorizationHeader := Bearer(pair.accessToken)],
                    true, server, refresh, writesAccepted)
  }

  /**
   * What every call leaves behind: no key but the three token slots changes,
   * and the browser is sent to `/login` only by a rejected call that has
   * cleared the tokens.
   */
  predicate GatewayEffect(before: map<string, string>, after: map<string, string>,
                          locationBefore: Option<string>, locationAfter: Option<string>, rejected: bool)
  {
    && Cleared(after) == Cleared(before)
    && (locationAfter == locationBefore || (locationAfter == Some(LoginLocation) && after == Cleared(before) && rejected))
  }

  /** An outgoing request's config: the post it carries, its headers and the `_retry` marker. */
  class RequestConfig {
    const request: Post
    var headers: map<string, string>
    var retry: bool

    constructor (request: Post, headers: map<string, string>)
      ensures this.request == request && this.headers == headers && !retry
    {
      this.request := request;
      this.headers := headers;
      retry := false;
    }
  }

  /** What the response interceptor's error handler settles to. */
  datatype Decision = Reject(reason: ClientError) | Reissue

  /** The interceptor refreshes exactly when the error is a 401 of a request not yet retried. */
  predicate TriggersRefresh(error: ClientError, config: RequestConfig?, alreadyRetried: bool) {
    error.Status() == Some(Unauthorized) && config != null && !alreadyRetried
  }

  class ApiClient {
    const store: CredentialStore
    const baseURL: string
    const defaultHeaders: map<string, string>
    /** `window.location.href` as last assigned by the gateway. */
    var location: Option<string>

    constructor (store: CredentialStore, apiUrl: Option<string>)
      ensures this.store == store && location == None
      ensures baseURL == (if Truthy(apiUrl) then apiUrl.value else DefaultApiUrl)
      ensures defaultHeaders == map["Content-Type" := "application/json"]
    {
      this.store := store;
      baseURL := if Truthy(apiUrl) then apiUrl.value else DefaultApiUrl;
      defaultHeaders := map["Content-Type" := "application/json"];
      location := None;
    }

    /** Request interceptor: reads the access token afresh and attaches it when it is truthy. */
    method OnRequest(config: RequestConfig)
      modifies config`headers
      ensures config.headers == WithToken(old(config.headers), store.GetAccessToken())
    {
      var token := store.GetAccessToken();
      if Truthy(token) {
        config.headers := config.headers[AuthorizationHeader := Bearer(token.value)];
      }
    }

    /**
     * Response interceptor, error side. Anything but a first 401 of a request
     * with a config is rejected unchanged. Otherwise the request is marked
     * retried before anything else; a missing refresh token, a failed refresh
     * or a failed store all clear the tokens, send the browser to `/login` and
     * reject with that failure; a stored new pair sets the request's header and
     * re-issues it.
     */
    method OnResponseError(error: ClientError, config: RequestConfig?,
                           refresh: RefreshCall, writesAccepted: nat)
      returns (d: Decision)
      modifies this`location, store, config
      ensures d.Reissue? ==> config != null && !old(config.retry)
      ensures config != null ==> config.retry == (old(config.retry) || TriggersRefresh(error, config, old(config.retry)))
      ensures !(config != null && TriggersRefresh(error, config, old(config.retry))) ==>
        && d == Reject(error)
        && store.slots == old(store.slots) && location == old(location)
        && (config != null ==> config.headers == old(config.headers))
      ensures config != null && TriggersRefresh(error, config, old(config.retry)) ==>
        var rt := old(store.GetRefreshToken());
        && (!Truthy(rt) ==>
              d == Reject(Thrown(NoRefreshTokenMessage)) &&
              store.slots == Cleared(old(store.slots)) && location == Some(LoginLocation))
        && (Truthy(rt) ==>
              var answer := refresh(RefreshPost(baseURL, rt.value));
              && (answer.Err? ==>
                    d == Reject(answer.error) &&
                    store.slots == Cleared(old(store.slots)) && location == Some(LoginLocation))
              && (answer.Ok? && writesAccepted < 3 ==>
                    d == Reject(Thrown(StoreFailureMessage)) &&
                    store.slots == Cleared(old(store.slots)) && location == Some(LoginLocation))
              && (answer.Ok? && writesAccepted >= 3 ==>
                    && d == Reissue
                    && store.slots == Apply(old(store.slots), TokenWrites(store.codec,
                         TokenData(answer.value.accessToken, answer.value.refreshToken, old(store.GetUser()))))
                    && store.GetAccessToken() == Some(answer.value.accessToken)
                    && store.GetRefreshToken() == Some(answer.value.refreshToken)
                    && (Faithful(store.codec) ==> store.GetUser() == old(store.GetUser()))
                    && config.headers == old(config.headers)[AuthorizationHeader := Bearer(answer.value.accessToken)]
                    && location == old(location)))
    {
      if !(error.Status() == Some(Unauthorized) && config != null && !config.retry) {
        return Reject(error);
      }
      config.retry := true;
      var failure: ClientError;
      var refreshToken := store.GetRefreshToken();
      if !Truthy(refreshToken) {
        failure := Thrown(NoRefreshTokenMessage);
      } else {
        var answer := refresh(RefreshPost(baseURL, refreshToken.value));
        if answer.Err? {
          failure := answer.error;
        } else {
          ghost var before := store.slots;
          var data := TokenData(answer.value.accessToken, answer.value.refreshToken, store.GetUser());
          var stored := store.SetTokens(data, writesAccepted);
          if stored.Pass? {
            assert TokenWrites(store.codec, data)[..3] == TokenWrites(store.codec, data);
            RefreshKeepsUser(store.codec, before, data);
            config.headers := config.headers[AuthorizationHeader := Bearer(answer.value.accessToken)];
            return Reissue;
          }
          ClearAfterWrites(store.codec, before, data, Min(writesAccepted, 3));
          failure := stored.error;
        }
      }
      store.ClearTokens();
      location := Some(LoginLocation);
      d := Reject(failure);
    }

    /**
     * One call of the axios instance on `config`: request interceptor, the
     * server's answer, and on failure the response interceptor, whose
     * re-issue runs the instance again. `sent` lists the headers of every
     * request that reached the server. The re-issued promise is returned
     * without being awaited, so its failure is not caught by the refresh
     * handler: it neither clears the tokens nor redirects.
     */
    method Execute<T>(config: RequestConfig, server: Server<T>, refresh: RefreshCall, writesAccepted: nat)
      returns (r: Result<T, ClientError>, sent: seq<map<string, string>>)
      modifies this`location, store, config
      decreases if config.retry then 0 else 1
      ensures Exchange(r, store.slots, location)
        == Exchanged(baseURL, store.codec, old(store.slots), old(location), config.request, old(config.headers),
                     old(config.retry), server, refresh, writesAccepted)
      ensures 1 <= |sent| <= 2
      ensures old(config.retry) ==> |sent| == 1
      ensures |sent| == 2 ==> !old(config.retry) && IsUnauthorized(server(config.request, sent[0]))
      ensures sent[0] == WithToken(old(config.headers), old(store.GetAccessToken()))
      ensures |sent| == 2 ==>
        var rt := old(store.GetRefreshToken());
        && Truthy(rt)
        && refresh(RefreshPost(baseURL, rt.value)).Ok?
        && AuthorizationHeader in sent[1]
        && sent[1][AuthorizationHeader] == Bearer(refresh(RefreshPost(baseURL, rt.value)).value.accessToken)
      ensures config.retry == (old(config.retry) || IsUnauthorized(server(config.request, sent[0])))
    {
      OnRequest(config);
      sent := [config.headers];
      var answer := server(config.request, config.headers);
      var error: ClientError;
      if answer.Some? && answer.value.Resolved? {
        return Ok(answer.value.body), sent;
      }
      error := RejectionOf(answer);
      var d := OnResponseError(error, config, refresh, writesAccepted);
      if d.Reject? {
        return Err(d.reason), sent;
      }
      var again: seq<map<string, string>>;
      r, again := Execute(config, server, refresh, writesAccepted);
      sent := sent + again;
    }

    /** The answer to `request` sent now with the instance's default headers. */
    function FirstAnswer<T>(request: Post, server: Server<T>): Option<Reply<T>>
      reads this, store
    {
      server(request, WithToken(defaultHeaders, store.GetAccessToken()))
    }

    /** What `post(request)` on the instance settles to from the current storage and location. */
    function PostOutcome<T>(request: Post, server: Server<T>, refresh: RefreshCall, writesAccepted: nat): Exchange<T>
      reads this, store
    {
      Exchanged(baseURL, store.codec, store.slots, location, request, defaultHeaders, false, server, refresh, writesAccepted)
    }

    /**
     * `post(request)`: a new config with the instance's default headers, run
     * through the instance. An answer other than a 401 settles the call with
     * storage and location untouched; in every case only the three token
     * slots can change, and a redirect comes only with cleared tokens.
     */
    method SendPost<T>(request: Post, server: Server<T>, refresh: RefreshCall, writesAccepted: nat)
      returns (r: Result<T, ClientError>)
      modifies this`location, store
      ensures Exchange(r, store.slots, location) == old(PostOutcome(request, server, refresh, writesAccepted))
      ensures GatewayEffect(old(store.slots), store.slots, old(location), location, r.Err?)
      ensures var first := old(FirstAnswer(request, server));
        !IsUnauthorized(first) ==>
          && store.slots == old(store.slots) && location == old(location)
          && r == (if first.Some? && first.value.Resolved? then Ok(first.value.body) else Err(RejectionOf(first)))
    {
      ExchangeEffect(baseURL, store.codec, store.slots, location, request, defaultHeaders, false,
                     server, refresh, writesAccepted);
      if !IsUnauthorized(FirstAnswer(request, server)) {
        ExchangeWithoutUnauthorized(baseURL, store.codec, store.slots, location, request, defaultHeaders, false,
                                    server, refresh, writesAccepted);
      }
      var config := new RequestConfig(request, defaultHeaders);
      var sent;
      r, sent := Execute(config, server, refresh, writesAccepted);
    }
  }

  /** An answer other than a 401 of a first attempt settles the call as is: nothing is refreshed, cleared or redirected. */
  lemma ExchangeWithoutUnauthorized<T>(baseURL: string, codec: JsonCodec, slots: map<string, string>,
                                       location: Option<string>, request: Post, headers: map<string, string>,
                                       retried: bool, server: Server<T>, refresh: RefreshCall, writesAccepted: nat)
    requires retried || !IsUnauthorized(server(request, WithToken(headers, AccessTokenIn(slots))))
    ensures var answer := server(request, WithToken(headers, AccessTokenIn(slots)));
      var ex := Exchanged(baseURL, codec, slots, location, request, headers, retried, server, refresh, writesAccepted);
      && ex.slots == slots && ex.location == location
      && ex.result == (if answer.Some? && answer.value.Resolved? then Ok(answer.value.body) else Err(RejectionOf(answer)))
  {
  }

  /** A first 401 with no refresh token stored clears the tokens, redirects, and rejects with "No refresh token available". */
  lemma UnauthorizedWithoutRefreshToken<T>(baseURL: string, codec: JsonCodec, slots: map<string, string>,
                                           location: Option<string>, request: Post, headers: map<string, string>,
                                           server: Server<T>, refresh: RefreshCall, writesAccepted: nat)
    requires IsUnauthorized(server(request, WithToken(headers, AccessTokenIn(slots))))
    requires !Truthy(RefreshTokenIn(slots))
    ensures Exchanged(baseURL, codec, slots, location, request, headers, false, server, refresh, writesAccepted)
         == Exchange(Err(Thrown(NoRefreshTokenMessage)), Cleared(slots), Some(LoginLocation))
  {
  }

  /**
   * A first 401 whose refresh is stored re-issues the request once, with the
   * new access token as bearer; whatever that second answer is, even another
   * 401, it settles the call with the refreshed tokens kept and no redirect.
   */
  lemma {:induction false} RefreshedRetry<T>(baseURL: string, codec: JsonCodec, slots: map<string, string>,
                                             location: Option<string>, request: Post, headers: map<string, string>,
                                             server: Server<T>, refresh: RefreshCall, writesAccepted: nat)
    requires IsUnauthorized(server(request, WithToken(headers, AccessTokenIn(slots))))
    requires Truthy(RefreshTokenIn(slots))
    requires refresh(RefreshPost(baseURL, RefreshTokenIn(slots).value)).Ok?
    requires writesAccepted >= 3
    ensures var pair := refresh(RefreshPost(baseURL, RefreshTokenIn(slots).value)).value;
      var stored := Apply(slots, TokenWrites(codec, TokenData(pair.accessToken, pair.refreshToken, UserIn(codec, slots))));
      var retryHeaders := WithToken(headers, AccessTokenIn(slots))[AuthorizationHeader := Bearer(pair.accessToken)];
      var second := server(request, retryHeaders);
      var ex := Exchanged(baseURL, codec, slots, location, request, headers, false, server, refresh, writesAccepted);
      && AccessTokenIn(stored) == Some(pair.accessToken)
      && WithToken(retryHeaders, AccessTokenIn(stored)) == retryHeaders
      && ex.slots == stored && ex.location == location
      && ex.result == (if second.Some? && second.value.Resolved? then Ok(second.value.body) else Err(RejectionOf(second)))
  {
    var pair := refresh(RefreshPost(baseURL, RefreshTokenIn(slots).value)).value;
    var data := TokenData(pair.accessToken, pair.refreshToken, UserIn(codec, slots));
    var stored := Apply(slots, TokenWrites(codec, data));
    var retryHeaders := WithToken(headers, AccessTokenIn(slots))[AuthorizationHeader := Bearer(pair.accessToken)];
    RefreshKeepsUser(codec, slots, data);
    ExchangeWithoutUnauthorized(baseURL, codec, stored, location, request, retryHeaders, true,
                                server, refresh, writesAccepted);
  }

  /** Every call of the instance has a `GatewayEffect`, and a resolved call never redirects. */
  lemma {:induction false} ExchangeEffect<T>(baseURL: string, codec: JsonCodec, slots: map<string, string>,
                                             location: Option<string>, request: Post, headers: map<string, string>,
                                             retried: bool, server: Server<T>, refresh: RefreshCall, writesAccepted: nat)
    ensures var ex := Exchanged(baseURL, codec, slots, location, request, headers, retried, server, refresh, writesAccepted);
      && GatewayEffect(slots, ex.slots, location, ex.location, ex.result.Err?)
      && (ex.result.Ok? ==> ex.location == location)
    decreases if retried then 0 else 1
  {
    var sentHeaders := WithToken(headers, AccessTokenIn(slots));
    var answer := server(request, sentHeaders);
    if answer.Some? && answer.value.Resolved? {
    } else if !IsUnauthorized(answer) || retried {
    } else {
      var refreshToken := RefreshTokenIn(slots);
      ClearedProperties(codec, slots);
      if Truthy(refreshToken) {
        var renewed := refresh(RefreshPost(baseURL, refreshToken.value));
        if renewed.Ok? && writesAccepted >= 3 {
          var pair := renewed.value;
          var data := TokenData(pair.accessToken, pair.refreshToken, UserIn(codec, slots));
          var stored := Apply(slots, TokenWrites(codec, data));
          ClearAfterWrites(codec, slots, data, 3);
          assert TokenWrites(codec, data)[..3] == TokenWrites(codec, data);
          ExchangeEffect(baseURL, codec, stored, location, request, sentHeaders[AuthorizationHeader := Bearer(pair.accessToken)],
                         true, server, refresh, writesAccepted);
        }
      }
    }
  }

  /** After a stored refresh, `getUser` still returns the user stored before it. */
  lemma RefreshKeepsUser(codec: JsonCodec, slots: map<string, string>, data: TokenData)
    requires data.user == UserIn(codec, slots)
    ensures AccessTokenIn(Apply(slots, TokenWrites(codec, data))) == Some(data.accessToken)
    ensures RefreshTokenIn(Apply(slots, TokenWrites(codec, data))) == Some(data.refreshToken)
    ensures Faithful(codec) ==> UserIn(codec, Apply(slots, TokenWrites(codec, data))) == UserIn(codec, slots)
  {
    ApplyUpToThree(slots, TokenWrites(codec, data));
    if Faithful(codec) {
      AllWritesStored(codec, slots, data);
    }
  }

  /** `ApiClient.instance`, the process-wide gateway. */
  class Singleton {
    var instance: ApiClient?

    constructor ()
      ensures instance == null
    {
      instance := null;
    }

    /** `getInstance`: creates the gateway on first use and returns that same one ever after. */
    method GetInstance(store: CredentialStore, apiUrl: Option<string>) returns (c: ApiClient)
      modifies this
      ensures instance == c
      ensures old(instance) != null ==> c == old(instance)
      ensures old(instance) == null ==> fresh(c) && c.store == store && c.location == None
    {
      if instance == null {
        instance := new ApiClient(store, apiUrl);
      }
      c := instance;
    }
  }
}
