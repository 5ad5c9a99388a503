/**
 * The value types the browser client exchanges with the identity server,
 * and the shape of the errors its promises reject with.
 */
module ClientTypes {
  import opened Wrappers

  /** The user profile snapshot the server sends and the client stores. */
  datatype User = User(
    id: int,
    email: string,
    firstName: string,
    lastName: string,
    createdAt: string,
    updatedAt: string)

  /** Body of a successful login. */
  datatype AuthResponse = AuthResponse(accessToken: string, refreshToken: string, user: User)

  /** Body of a successful registration (the client's `UserResponse`). */
  datatype RegisterResponse = RegisterResponse(message: string, user: User)

  /** Body of a successful refresh. */
  datatype TokenPair = TokenPair(accessToken: string, refreshToken: string)

  const LoginPath := "/api/v0/auth/login"
  const RegisterPath := "/api/v0/auth/register"
  const LogoutPath := "/api/v0/auth/logout"
  const RefreshPath := "/api/v0/auth/refresh"

  /** The JSON body of a post. */
  datatype PostBody =
    | LoginBody(email: string, password: string)
    | RegisterBody(email: string, password: string, firstName: string, lastName: string)
    | RefreshBody(refreshToken: string)
    | NoBody

  /** A post: the URL it goes to and its body. */
  datatype Post = Post(path: string, body: PostBody)

  /** The server's error payload; only its `error` text is read by the client. */
  datatype ErrorBody = ErrorBody(error: Option<string>)

  /** Every value a client promise rejects with. */
  datatype ClientError =
    | ResponseError(status: int, message: string, data: Option<ErrorBody>)  // the server answered
    | NetworkError(message: string)                                          // no response arrived
    | Thrown(message: string)                                                // an `Error` thrown by client code
  {
    /** `err.response?.status` */
    function Status(): Option<int> {
      if ResponseError? then Some(status) else None
    }

    /** `err.response?.data?.error` */
    function ServerError(): Option<string> {
      if ResponseError? && data.Some? then data.value.error else None
    }
  }

  /** JavaScript truthiness of a string that may be null: present and non-empty. */
  predicate Truthy(s: Option<string>) {
    s.Some? && s.value != ""
  }

  /** `err.response?.data?.error || fallback` */
  function ErrorTextOr(e: ClientError, fallback: string): (r: string)
    ensures fallback != "" ==> r != ""
  {
    if Truthy(e.ServerError()) then e.ServerError().value else fallback
  }

  /** The number a string of decimal digits spells, read most significant digit first. */
  function DigitsValue(s: string): nat
    requires forall i | 0 <= i < |s| :: '0' <= s[i] <= '9'
  {
    if s == [] then 0 else DigitsValue(s[..|s| - 1]) * 10 + (s[|s| - 1] as int - '0' as int)
  }

  /** Decimal text of a natural number, as JavaScript's template literals print it: no leading zero. */
  function NatToString(n: nat): (r: string)
    ensures |r| >= 1
    ensures forall i | 0 <= i < |r| :: '0' <= r[i] <= '9'
    ensures DigitsValue(r) == n
    ensures r[0] == '0' ==> n == 0
  {
    var d := ['0', '1', '2', '3', '4', '5', '6', '7', '8', '9'][n % 10];
    if n < 10 then [d] else NatToString(n / 10) + [d]
  }
}
