/**
 * `GlobalExceptionHandler`: turns each exception kind into a response whose
 * HTTP status is the one recorded in its `ApiError` body, and turns a failed
 * argument validation into a 400 listing one entry per invalid field.
 */
module GlobalExceptionHandler {
  import opened Wrappers
  import opened ApiErrors
  import opened Exceptions

  const ConstraintPrefix := "Database constraint violation: "
  const UnexpectedPrefix := "An unexpected error occurred: "
  const ValidationMessage := "Validation error"

  /** A `ResponseEntity` carrying an `ApiError`. */
  datatype ResponseEntity = ResponseEntity(status: HttpStatus, body: ApiErrorBody)

  /** One `FieldError` of a failed validation: the field and its default message (possibly null). */
  datatype FieldError = FieldError(field: string, defaultMessage: Option<string>)

  /**
   * The exception handlers, dispatched on the exception kind: 404, 400, 409
   * and 401 carry the exception's message; a constraint violation is a 409
   * naming its cause; anything else is a 500. The body's path is the request
   * URI and it lists no validation errors.
   */
  method Handle(ex: ServiceException, requestUri: string) returns (r: ResponseEntity)
    ensures r.body == ApiErrorBody(Some(r.status), r.status.Value(), r.body.message, Some(requestUri), [])
    ensures match ex
      case ResourceNotFound(m) => r.status == NotFound && r.body.message == Some(m)
      case BadRequest(m) => r.status == HttpStatus.BadRequest && r.body.message == Some(m)
      case UserAlreadyExists(m) => r.status == Conflict && r.body.message == Some(m)
      case InvalidCredentials(m) => r.status == Unauthorized && r.body.message == Some(m)
      case DataIntegrityViolation(cause) => r.status == Conflict && r.body.message == Some(ConstraintPrefix + cause)
      case Unexpected(m) => r.status == InternalServerError && r.body.message == Some(UnexpectedPrefix + m)
  {
    var status: HttpStatus;
    var message: string;
    match ex {
      case ResourceNotFound(m) =>
        status, message := NotFound, m;
      case BadRequest(m) =>
        status, message := HttpStatus.BadRequest, m;
      case UserAlreadyExists(m) =>
        status, message := Conflict, m;
      case InvalidCredentials(m) =>
        status, message := Unauthorized, m;
      case DataIntegrityViolation(cause) =>
        status, message := Conflict, ConstraintPrefix + cause;
      case Unexpected(m) =>
        status, message := InternalServerError, UnexpectedPrefix + m;
    }
    var apiError := new ApiError(status, Some(message), Some(requestUri));
    r := ResponseEntity(status, apiError.Body());
  }

  /** The fields of the errors, in order. */
  function Fields(fieldErrors: seq<FieldError>): (r: seq<string>)
    ensures |r| == |fieldErrors|
    ensures forall i | 0 <= i < |r| :: r[i] == fieldErrors[i].field
  {
    if fieldErrors == [] then []
    else Fields(fieldErrors[..|fieldErrors| - 1]) + [fieldErrors[|fieldErrors| - 1].field]
  }

  /** The messages of the errors, in order. */
  function Messages(fieldErrors: seq<FieldError>): (r: seq<Option<string>>)
    ensures |r| == |fieldErrors|
    ensures forall i | 0 <= i < |r| :: r[i] == fieldErrors[i].defaultMessage
  {
    if fieldErrors == [] then []
    else Messages(fieldErrors[..|fieldErrors| - 1]) + [fieldErrors[|fieldErrors| - 1].defaultMessage]
  }

  /** `put(keys[i], values[i])` for each `i` in turn, into an empty map. */
  function Overwrite(keys: seq<string>, values: seq<Option<string>>): map<string, Option<string>>
    requires |keys| == |values|
  {
    if keys == [] then map[]
    else Overwrite(keys[..|keys| - 1], values[..|values| - 1])[keys[|keys| - 1] := values[|values| - 1]]
  }

  /** The map `handleMethodArgumentNotValid` builds: each field bound to its message, later errors overwriting earlier ones. */
  function LastMessages(fieldErrors: seq<FieldError>): map<string, Option<string>> {
    Overwrite(Fields(fieldErrors), Messages(fieldErrors))
  }

  /** The keys put are the keys present. */
  lemma {:induction false} OverwriteKeys(keys: seq<string>, values: seq<Option<string>>)
    requires |keys| == |values|
    ensures Overwrite(keys, values).Keys == set i | 0 <= i < |keys| :: keys[i]
    decreases |keys|
  {
    if keys != [] {
      var init := keys[..|keys| - 1];
      OverwriteKeys(init, values[..|values| - 1]);
      assert (set i | 0 <= i < |keys| :: keys[i]) == (set i | 0 <= i < |init| :: init[i]) + {keys[|keys| - 1]};
    }
  }

  /** A key holds the value of its last put. */
  lemma {:induction false} OverwriteLastWins(keys: seq<string>, values: seq<Option<string>>, i: nat)
    requires |keys| == |values| && i < |keys|
    requires forall j | i < j < |keys| :: keys[j] != keys[i]
    ensures keys[i] in Overwrite(keys, values) && Overwrite(keys, values)[keys[i]] == values[i]
    decreases |keys|
  {
    if i < |keys| - 1 {
      OverwriteLastWins(keys[..|keys| - 1], values[..|values| - 1], i);
    }
  }

  /** The map has exactly one key per distinct field. */
  lemma LastMessagesKeys(fieldErrors: seq<FieldError>)
    ensures LastMessages(fieldErrors).Keys == set i | 0 <= i < |fieldErrors| :: fieldErrors[i].field
  {
    var fields := Fields(fieldErrors);
    OverwriteKeys(fields, Messages(fieldErrors));
    assert (set i | 0 <= i < |fields| :: fields[i]) == set i | 0 <= i < |fieldErrors| :: fieldErrors[i].field;
  }

  /** Each field keeps the message of its last error. */
  lemma LastMessageWins(fieldErrors: seq<FieldError>, i: nat)
    requires i < |fieldErrors|
    requires forall j | i < j < |fieldErrors| :: fieldErrors[j].field != fieldErrors[i].field
    ensures fieldErrors[i].field in LastMessages(fieldErrors)
    ensures LastMessages(fieldErrors)[fieldErrors[i].field] == fieldErrors[i].defaultMessage
  {
    OverwriteLastWins(Fields(fieldErrors), Messages(fieldErrors), i);
  }

  /**
   * `handleMethodArgumentNotValid`: always a 400 (whatever status the
   * framework passes in) with message "Validation error", listing each
   * invalid field once with the message of its last error.
   */
  method HandleMethodArgumentNotValid(fieldErrors: seq<FieldError>, status: int, requestUri: string)
    returns (r: ResponseEntity)
    ensures r.status == HttpStatus.BadRequest
    ensures r.body.status == Some(r.status) && r.body.statusCode == 400
    ensures r.body.message == Some(ValidationMessage) && r.body.path == Some(requestUri)
    ensures ListsEntries(r.body.errors, LastMessages(fieldErrors))
  {
    var errors: map<string, Option<string>> := map[];
    for i := 0 to |fieldErrors|
      invariant errors == Overwrite(Fields(fieldErrors)[..i], Messages(fieldErrors)[..i])
    {
      assert Fields(fieldErrors)[..i + 1][..i] == Fields(fieldErrors)[..i];
      assert Messages(fieldErrors)[..i + 1][..i] == Messages(fieldErrors)[..i];
      errors := errors[fieldErrors[i].field := fieldErrors[i].defaultMessage];
    }
    assert Fields(fieldErrors)[..|fieldErrors|] == Fields(fieldErrors);
    assert Messages(fieldErrors)[..|fieldErrors|] == Messages(fieldErrors);
    var apiError := new ApiError(HttpStatus.BadRequest, Some(ValidationMessage), Some(requestUri));
    apiError.AddValidationErrors(errors);
    assert apiError.errors[0..] == apiError.errors;
    r := ResponseEntity(HttpStatus.BadRequest, apiError.Body());
  }

  /** The validation body names every invalid field, once, with the message of its last error. */
  lemma ValidationBodyCoversEveryField(fieldErrors: seq<FieldError>, errors: seq<ValidationError>, i: nat)
    requires ListsEntries(errors, LastMessages(fieldErrors))
    requires i < |fieldErrors|
    requires forall j | i < j < |fieldErrors| :: fieldErrors[j].field != fieldErrors[i].field
    ensures ValidationError(fieldErrors[i].field, fieldErrors[i].defaultMessage) in errors
    ensures |errors| == |set k | 0 <= k < |fieldErrors| :: fieldErrors[k].field|
  {
    LastMessageWins(fieldErrors, i);
    LastMessagesKeys(fieldErrors);
    ListedEntriesCoverMap(errors, LastMessages(fieldErrors));
  }
}
