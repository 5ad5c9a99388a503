/**
 * `UserServiceImpl` over an in-memory model of its JPA repository: the
 * `users` table as a map from id to row, with the table's constraints
 * (`email` unique and non-null, `password` non-null) enforced on save and
 * ids drawn from an identity counter. Password encoding, token generation,
 * the authentication manager's verdict and the database's constraint
 * messages are parameters.
 */
module UserService {
  import opened Wrappers
  import opened UserModel
  import opened UserResponseDto
  import opened Exceptions

  datatype RegistrationRequest = RegistrationRequest(email: string, password: string, firstName: string, lastName: string)
  datatype LoginRequest = LoginRequest(email: string, password: string)

  /** What `authenticationManager.authenticate` does with a login: accept it with a principal, or throw. */
  datatype AuthenticationOutcome =
    | Authenticated(principal: string)
    | BadCredentials
    | AuthenticationFailed(message: string)

  /** The security context's authentication: the principal's name and whether it is authenticated. */
  datatype Authentication = Authentication(name: string, authenticated: bool)

  /** The server's login result: one token and the user's public fields. */
  datatype AuthResponse = AuthResponse(token: string, user: ResponseRecord)

  /** A table constraint a save can violate. */
  datatype Constraint = NotNull(column: string) | Unique(column: string)

  const InvalidCredentialsMessage := "Invalid email or password"

  function UserTakenMessage(email: string): string {
    "User with email " + email + " already exists"
  }

  /** `existsByEmail`. */
  predicate EmailTaken(rows: map<int, UserRecord>, email: string) {
    exists id | id in rows :: rows[id].email == Some(email)
  }

  predicate UniqueEmails(rows: map<int, UserRecord>) {
    forall a, b | a in rows && b in rows && a != b :: rows[a].email != rows[b].email
  }

  /**
   * The table's invariants: every row is stored under its own id, below the
   * next identity value; `email` and `password` are non-null; no two rows
   * share an email.
   */
  predicate ValidRows(rows: map<int, UserRecord>, nextId: int) {
    && nextId >= 1
    && UniqueEmails(rows)
    && forall id | id in rows ::
         && rows[id].userId == Some(id)
         && rows[id].email.Some?
         && rows[id].passwordHash.Some?
         && 0 < id < nextId
  }

  /** The constraint saving `u` would violate, if any. */
  function Violation(rows: map<int, UserRecord>, u: UserRecord): (r: Option<Constraint>)
    ensures r.None? <==>
      && u.email.Some? && u.passwordHash.Some?
      && forall id | id in rows && rows[id].email == u.email :: Some(id) == u.userId
    ensures r == Some(Unique("email")) ==> exists id | id in rows :: Some(id) != u.userId && rows[id].email == u.email
  {
    if u.email.None? then Some(NotNull("email"))
    else if u.passwordHash.None? then Some(NotNull("password"))
    else if exists id | id in rows :: Some(id) != u.userId && rows[id].email == u.email then Some(Unique("email"))
    else None
  }

  /** One entry of `updateUser`'s `fields.forEach`, on the user built so far. */
  function ApplyField(rows: map<int, UserRecord>, encode: string -> string, u: UserRecord,
                      key: string, value: Option<string>): Result<UserRecord, ServiceException>
  {
    if key == "email" then
      if value.Some? && value != u.email then
        if EmailTaken(rows, value.value) then Err(UserAlreadyExists(UserTakenMessage(value.value)))
        else Ok(u.(email := value))
      else Ok(u)
    else if key == "firstName" then Ok(if value.Some? then u.(firstName := value) else u)
    else if key == "lastName" then Ok(if value.Some? then u.(lastName := value) else u)
    else if key == "phone" then Ok(if value.Some? then u.(phone := value) else u)
    else if key == "password" then
      Ok(if value.Some? && value.value != "" then u.(passwordHash := Some(encode(value.value))) else u)
    else Ok(u)
  }

  /** The whole `forEach`, in the map's order: the first failing entry ends it. */
  function ApplyFields(rows: map<int, UserRecord>, encode: string -> string, u: UserRecord,
                       fields: seq<(string, Option<string>)>): Result<UserRecord, ServiceException>
    decreases |fields|
  {
    if fields == [] then Ok(u)
    else
      match ApplyFields(rows, encode, u, fields[..|fields| - 1])
      case Err(e) => Err(e)
      case Ok(v) => ApplyField(rows, encode, v, fields[|fields| - 1].0, fields[|fields| - 1].1)
  }

  /**
   * What one entry does: `firstName`, `lastName` and `phone` take a non-null
   * value; `password` stores the encoding of a non-empty value; an email
   * equal to the current one is skipped, a different one is taken unless
   * some row already has it; null values and other keys change nothing.
   */
  lemma ApplyFieldEffects(rows: map<int, UserRecord>, encode: string -> string, u: UserRecord,
                          key: string, value: Option<string>)
    ensures var r := ApplyField(rows, encode, u, key, value);
      && (value.None? || key !in {"email", "firstName", "lastName", "phone", "password"} ==> r == Ok(u))
      && (key == "firstName" && value.Some? ==> r == Ok(u.(firstName := value)))
      && (key == "lastName" && value.Some? ==> r == Ok(u.(lastName := value)))
      && (key == "phone" && value.Some? ==> r == Ok(u.(phone := value)))
      && (key == "password" && value.Some? ==>
            r == Ok(if value.value == "" then u else u.(passwordHash := Some(encode(value.value)))))
      && (key == "email" && value == u.email ==> r == Ok(u))
      && (key == "email" && value.Some? && value != u.email ==>
            && (EmailTaken(rows, value.value) ==> r == Err(UserAlreadyExists(UserTakenMessage(value.value))))
            && (!EmailTaken(rows, value.value) ==> r == Ok(u.(email := value))))
  {
  }

  /** Once an entry has failed, the later entries do not matter. */
  lemma {:induction false} ApplyFieldsErrorStops(rows: map<int, UserRecord>, encode: string -> string, u: UserRecord,
                                                 fields: seq<(string, Option<string>)>, i: nat)
    requires i <= |fields|
    requires ApplyFields(rows, encode, u, fields[..i]).Err?
    ensures ApplyFields(rows, encode, u, fields) == ApplyFields(rows, encode, u, fields[..i])
    decreases |fields|
  {
    if i < |fields| {
      var init := fields[..|fields| - 1];
      assert init[..i] == fields[..i];
      ApplyFieldsErrorStops(rows, encode, u, init, i);
    } else {
      assert fields[..i] == fields;
    }
  }

  /**
   * A successful `forEach` keeps the id and timestamps, never nulls the email
   * or password hash, and leaves the email either as it was or at a value no
   * row holds.
   */
  lemma {:induction false} ApplyFieldsKeepsEmailFree(rows: map<int, UserRecord>, encode: string -> string,
                                                     u: UserRecord, fields: seq<(string, Option<string>)>,
                                                     v: UserRecord)
    requires ApplyFields(rows, encode, u, fields) == Ok(v)
    ensures v.userId == u.userId && v.createdAt == u.createdAt && v.updatedAt == u.updatedAt
    ensures u.email.Some? ==> v.email.Some?
    ensures u.passwordHash.Some? ==> v.passwordHash.Some?
    ensures v.email == u.email || (v.email.Some? && !EmailTaken(rows, v.email.value))
    decreases |fields|
  {
    if fields != [] {
      var init := fields[..|fields| - 1];
      var w := ApplyFields(rows, encode, u, init).value;
      ApplyFieldsKeepsEmailFree(rows, encode, u, init, w);
    }
  }

  /** A saved row that keeps its own email or takes a free one keeps emails unique. */
  lemma ReplacingRowKeepsValid(rows: map<int, UserRecord>, nextId: int, id: int, v: UserRecord)
    requires ValidRows(rows, nextId) && id in rows
    requires v.userId == Some(id) && v.email.Some? && v.passwordHash.Some?
    requires v.email == rows[id].email || !EmailTaken(rows, v.email.value)
    ensures Violation(rows, v) == None
    ensures ValidRows(rows[id := v], nextId)
  {
  }

  /** A new row under the next id, with an email no row holds, keeps the table valid. */
  lemma InsertingRowKeepsValid(rows: map<int, UserRecord>, nextId: int, v: UserRecord)
    requires ValidRows(rows, nextId)
    requires v.userId == Some(nextId) && v.email.Some? && v.passwordHash.Some?
    requires !EmailTaken(rows, v.email.value)
    ensures Violation(rows, v.(userId := None)) == None
    ensures ValidRows(rows[nextId := v], nextId + 1)
  {
  }

  /** A fresh entity holding a row's values, as the repository hands it out. */
  method Hydrate(row: UserRecord) returns (u: User)
    ensures fresh(u) && u.Value() == row
  {
    u := new User();
    u.SetUserId(row.userId);
    u.SetEmail(row.email);
    u.SetPasswordHash(row.passwordHash);
    u.SetFirstName(row.firstName);
    u.SetLastName(row.lastName);
    u.SetPhone(row.phone);
    u.SetCreatedAt(row.createdAt);
    u.SetUpdatedAt(row.updatedAt);
  }

  class UserServiceImpl {
    var rows: map<int, UserRecord>
    var nextId: int
    /** `SecurityContextHolder`'s current authentication. */
    var authentication: Option<Authentication>
    /** The ids passed to `deleteUser`, in call order. */
    ghost var deleteCalls: seq<int>
    const encode: string -> string
    const generateToken: string -> string
    /** The message of the database's error for a violated constraint. */
    const constraintMessage: Constraint -> string
    /** The message of the `NullPointerException` that `fromUser(null)` raises. */
    const nullUserMessage: string

    ghost predicate Valid()
      reads this
    {
      ValidRows(rows, nextId)
    }

    constructor (encode: string -> string, generateToken: string -> string,
                 constraintMessage: Constraint -> string, nullUserMessage: string)
      ensures Valid() && rows == map[] && nextId == 1 && authentication == None && deleteCalls == []
      ensures this.encode == encode && this.generateToken == generateToken
      ensures this.constraintMessage == constraintMessage && this.nullUserMessage == nullUserMessage
    {
      rows := map[];
      nextId := 1;
      authentication := None;
      deleteCalls := [];
      this.encode := encode;
      this.generateToken := generateToken;
      this.constraintMessage := constraintMessage;
      this.nullUserMessage := nullUserMessage;
    }

    /**
     * `userRepository.save`: a constraint violation stores nothing; a new
     * entity gets the next identity value; an existing one replaces its row.
     */
    method Save(user: User) returns (r: Result<UserRecord, ServiceException>)
      requires Valid()
      requires user.userId.None? || user.userId.value in rows
      modifies this`rows, this`nextId, user
      ensures Valid()
      ensures var u := old(user.Value());
        match Violation(old(rows), u)
        case Some(c) =>
          && r == Err(DataIntegrityViolation(constraintMessage(c)))
          && rows == old(rows) && nextId == old(nextId) && user.Value() == u
        case None =>
          if u.userId.None? then
            var saved := u.(userId := Some(old(nextId)));
            && r == Ok(saved) && user.Value() == saved
            && rows == old(rows)[old(nextId) := saved] && nextId == old(nextId) + 1
          else
            && r == Ok(u) && user.Value() == u
            && rows == old(rows)[u.userId.value := u] && nextId == old(nextId)
    {
      var u := user.Value();
      var violation := Violation(rows, u);
      if violation.Some? {
        return Err(DataIntegrityViolation(constraintMessage(violation.value)));
      }
      if u.userId.None? {
        user.SetUserId(Some(nextId));
        rows := rows[nextId := user.Value()];
        nextId := nextId + 1;
      } else {
        rows := rows[u.userId.value := u];
      }
      r := Ok(user.Value());
    }

    /** `userRepository.findByEmail`: the row with that email as a fresh entity, or null. */
    method FindByEmail(email: string) returns (u: User?)
      ensures u == null <==> !EmailTaken(rows, email)
      ensures u != null ==> fresh(u) && u.Value() in rows.Values && u.Value().email == Some(email)
    {
      if EmailTaken(rows, email) {
        var id :| id in rows && rows[id].email == Some(email);
        u := Hydrate(rows[id]);
      } else {
        u := null;
      }
    }

    /**
     * `registerUser`: a taken email is refused and nothing is saved;
     * otherwise one new row is saved with the email, the encoded password and
     * the two names, and its public fields are returned.
     */
    method RegisterUser(request: RegistrationRequest) returns (r: Result<ResponseRecord, ServiceException>)
      requires Valid()
      modifies this`rows, this`nextId
      ensures Valid()
      ensures authentication == old(authentication)
      ensures EmailTaken(old(rows), request.email) ==>
        && r == Err(UserAlreadyExists(UserTakenMessage(request.email)))
        && rows == old(rows) && nextId == old(nextId)
      ensures !EmailTaken(old(rows), request.email) ==>
        var saved := UserRecord(Some(old(nextId)), Some(request.email), Some(encode(request.password)),
                                Some(request.firstName), Some(request.lastName), None, None, None);
        && rows == old(rows)[old(nextId) := saved] && nextId == old(nextId) + 1
        && r == Ok(Project(saved))
    {
      if EmailTaken(rows, request.email) {
        return Err(UserAlreadyExists(UserTakenMessage(request.email)));
      }
      var user := new User();
      user.SetEmail(Some(request.email));
      user.SetPasswordHash(Some(encode(request.password)));
      user.SetFirstName(Some(request.firstName));
      user.SetLastName(Some(request.lastName));
      var saved := Save(user);
      assert saved.Ok?;
      var response := FromUser(user);
      r := Ok(response.Value());
    }

    /**
     * `authenticateUser`: bad credentials become "Invalid email or password";
     * other authentication failures propagate. On success the authentication
     * is put in the security context first, then the token is generated and
     * the user is looked up by the request's email; a missing user makes
     * `fromUser` throw.
     */
    method AuthenticateUser(request: LoginRequest, outcome: AuthenticationOutcome)
      returns (r: Result<AuthResponse, ServiceException>)
      requires Valid()
      modifies this`authentication
      ensures outcome.BadCredentials? ==>
        r == Err(InvalidCredentials(InvalidCredentialsMessage)) && authentication == old(authentication)
      ensures outcome.AuthenticationFailed? ==>
        r == Err(Unexpected(outcome.message)) && authentication == old(authentication)
      ensures outcome.Authenticated? ==>
        && authentication == Some(Authentication(outcome.principal, true))
        && (!EmailTaken(rows, request.email) ==> r == Err(Unexpected(nullUserMessage)))
        && (EmailTaken(rows, request.email) ==>
              && r.Ok? && r.value.token == generateToken(outcome.principal)
              && exists row | row in rows.Values :: row.email == Some(request.email) && r.value.user == Project(row))
    {
      match outcome {
        case BadCredentials =>
          return Err(InvalidCredentials(InvalidCredentialsMessage));
        case AuthenticationFailed(message) =>
          return Err(Unexpected(message));
        case Authenticated(principal) =>
          authentication := Some(Authentication(principal, true));
          var token := generateToken(principal);
          var user := FindByEmail(request.email);
          if user == null {
            return Err(Unexpected(nullUserMessage));
          }
          var response := FromUser(user);
          r := Ok(AuthResponse(token, response.Value()));
      }
    }

    /** `getCurrentUser`: null without an authenticated principal, else the user with the principal's name as email. */
    method GetCurrentUser() returns (u: User?)
      ensures authentication.None? || !authentication.value.authenticated ==> u == null
      ensures authentication.Some? && authentication.value.authenticated ==>
        && (u == null <==> !EmailTaken(rows, authentication.value.name))
        && (u != null ==> fresh(u) && u.Value() in rows.Values && u.Value().email == Some(authentication.value.name))
    {
      if authentication.None? || !authentication.value.authenticated {
        return null;
      }
      u := FindByEmail(authentication.value.name);
    }

    /** `getUserById`: the row as a fresh entity, if there is one. */
    method GetUserById(id: int) returns (u: Option<User>)
      ensures u.Some? <==> id in rows
      ensures u.Some? ==> fresh(u.value) && u.value.Value() == rows[id]
    {
      if id in rows {
        var user := Hydrate(rows[id]);
        u := Some(user);
      } else {
        u := None;
      }
    }

    /** `saveUser`. */
    method SaveUser(user: User) returns (r: Result<UserRecord, ServiceException>)
      requires Valid()
      requires user.userId.None? || user.userId.value in rows
      modifies this`rows, this`nextId, user
      ensures Valid()
      ensures var u := old(user.Value());
        && (Violation(old(rows), u).Some? ==>
              r == Err(DataIntegrityViolation(constraintMessage(Violation(old(rows), u).value))) && rows == old(rows))
        && (Violation(old(rows), u).None? && u.userId.Some? ==> r == Ok(u) && rows == old(rows)[u.userId.value := u])
        && (Violation(old(rows), u).None? && u.userId.None? ==>
              r == Ok(u.(userId := Some(old(nextId)))) && rows == old(rows)[old(nextId) := r.value])
    {
      r := Save(user);
    }

    /**
     * `updateUser`: an unknown id gives null and saves nothing; otherwise the
     * entries are applied in order, a taken email stops the update with
     * nothing saved, and the patched user is saved and returned.
     */
    method UpdateUser(id: int, fields: seq<(string, Option<string>)>)
      returns (r: Result<Option<UserRecord>, ServiceException>)
      requires Valid()
      modifies this`rows, this`nextId
      ensures Valid()
      ensures nextId == old(nextId) && authentication == old(authentication)
      ensures id !in old(rows) ==> r == Ok(None) && rows == old(rows)
      ensures id in old(rows) ==>
        match ApplyFields(old(rows), encode, old(rows)[id], fields)
        case Err(e) => r == Err(e) && rows == old(rows)
        case Ok(v) => r == Ok(Some(v)) && rows == old(rows)[id := v]
    {
      var found := GetUserById(id);
      if found.None? {
        return Ok(None);
      }
      var user := found.value;
      ghost var base := user.Value();
      for i := 0 to |fields|
        invariant rows == old(rows) && nextId == old(nextId) && authentication == old(authentication)
        invariant ApplyFields(rows, encode, base, fields[..i]) == Ok(user.Value())
      {
        assert fields[..i + 1][..i] == fields[..i];
        var (key, value) := fields[i];
        if key == "email" {
          if value.Some? && value != user.email {
            if EmailTaken(rows, value.value) {
              ApplyFieldsErrorStops(rows, encode, base, fields, i + 1);
              return Err(UserAlreadyExists(UserTakenMessage(value.value)));
            }
            user.SetEmail(value);
          }
        } else if key == "firstName" {
          if value.Some? {
            user.SetFirstName(value);
          }
        } else if key == "lastName" {
          if value.Some? {
            user.SetLastName(value);
          }
        } else if key == "phone" {
          if value.Some? {
            user.SetPhone(value);
          }
        } else if key == "password" {
          if value.Some? && value.value != "" {
            user.SetPasswordHash(Some(encode(value.value)));
          }
        }
      }
      assert fields[..|fields|] == fields;
      ApplyFieldsKeepsEmailFree(rows, encode, base, fields, user.Value());
      ReplacingRowKeepsValid(rows, nextId, id, user.Value());
      var saved := Save(user);
      assert saved.Ok?;
      r := Ok(Some(saved.value));
    }

    /** `deleteUser`: the row is gone; deleting an absent id changes nothing. */
    method DeleteUser(id: int)
      requires Valid()
      modifies this`rows, this`deleteCalls
      ensures Valid()
      ensures rows == old(rows) - {id}
      ensures deleteCalls == old(deleteCalls) + [id]
    {
      rows := rows - {id};
      deleteCalls := deleteCalls + [id];
    }
  }
}
