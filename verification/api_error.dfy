/**
 * `ApiError`: the JSON error body every exception handler returns — the HTTP
 * status and its numeric code, a message, the request path and a list of
 * per-field validation errors.
 */
module ApiErrors {
  import opened Wrappers

  /**
   * The statuses the handlers use, with their codes from RFC 9110:
   * 400 (section 15.5.1), 401 (section 15.5.2), 404 (section 15.5.5),
   * 409 (section 15.5.10) and 500 (section 15.6.1).
   */
  datatype HttpStatus = BadRequest | Unauthorized | NotFound | Conflict | InternalServerError
  {
    /** `HttpStatus.value()`. */
    function Value(): int {
      match this
      case BadRequest => 400
      case Unauthorized => 401
      case NotFound => 404
      case Conflict => 409
      case InternalServerError => 500
    }
  }

  datatype ValidationError = ValidationError(field: string, message: Option<string>)

  /** A snapshot of an `ApiError`'s fields (the timestamp is not modelled). */
  datatype ApiErrorBody = ApiErrorBody(status: Option<HttpStatus>, statusCode: int, message: Option<string>,
                                       path: Option<string>, errors: seq<ValidationError>)

  /**
   * `added` lists the entries of `errorMap`, each once, in some order: one
   * entry per key, carrying that key's value.
   */
  predicate ListsEntries(added: seq<ValidationError>, errorMap: map<string, Option<string>>) {
    && |added| == |errorMap|
    && (forall i | 0 <= i < |added| :: added[i].field in errorMap && errorMap[added[i].field] == added[i].message)
    && (forall i, j | 0 <= i < j < |added| :: added[i].field != added[j].field)
  }

  class ApiError {
    var status: Option<HttpStatus>
    var statusCode: int
    var message: Option<string>
    var path: Option<string>
    var errors: seq<ValidationError>

    /** The three-argument constructor: the code follows the status, and `errors` starts empty. */
    constructor (status: HttpStatus, message: Option<string>, path: Option<string>)
      ensures Body() == ApiErrorBody(Some(status), status.Value(), message, path, [])
    {
      this.status := Some(status);
      this.statusCode := status.Value();
      this.message := message;
      this.path := path;
      this.errors := [];
    }

    function Body(): ApiErrorBody
      reads this
    {
      ApiErrorBody(status, statusCode, message, path, errors)
    }

    /** `addValidationError`: appends one entry at the end. */
    method AddValidationError(field: string, message: Option<string>)
      modifies this
      ensures Body() == old(Body()).(errors := old(errors) + [ValidationError(field, message)])
    {
      errors := errors + [ValidationError(field, message)];
    }

    /**
     * `addValidationErrors`: appends one entry per map entry, in the map's
     * (unspecified) iteration order, keeping the existing entries.
     */
    method AddValidationErrors(errorMap: map<string, Option<string>>)
      modifies this
      ensures Body() == old(Body()).(errors := errors)
      ensures |errors| == |old(errors)| + |errorMap|
      ensures errors[..|old(errors)|] == old(errors)
      ensures ListsEntries(errors[|old(errors)|..], errorMap)
    {
      ghost var start := errors;
      var remaining := errorMap.Keys;
      while remaining != {}
        invariant remaining <= errorMap.Keys
        invariant Body() == old(Body()).(errors := errors)
        invariant |errors| == |start| + |errorMap| - |remaining|
        invariant errors[..|start|] == start
        invariant forall i | |start| <= i < |errors| ::
                    errors[i].field in errorMap && errorMap[errors[i].field] == errors[i].message
                    && errors[i].field !in remaining
        invariant forall i, j | |start| <= i < j < |errors| :: errors[i].field != errors[j].field
        decreases |remaining|
      {
        var field :| field in remaining;
        AddValidationError(field, errorMap[field]);
        remaining := remaining - {field};
      }
    }
  }

  /** Listing a map's entries misses none of them. */
  lemma {:induction false} ListedEntriesCoverMap(added: seq<ValidationError>, errorMap: map<string, Option<string>>)
    requires ListsEntries(added, errorMap)
    ensures forall field | field in errorMap :: ValidationError(field, errorMap[field]) in added
  {
    var fields := set i | 0 <= i < |added| :: added[i].field;
    assert fields <= errorMap.Keys;
    DistinctFieldsCount(added);
    var rest := errorMap.Keys - fields;
    assert errorMap.Keys == fields + rest && fields * rest == {};
    assert |rest| == 0;
    forall field | field in errorMap
      ensures ValidationError(field, errorMap[field]) in added
    {
      assert field in fields;
      var i :| 0 <= i < |added| && added[i].field == field;
      assert added[i] == ValidationError(field, errorMap[field]);
    }
  }

  /** Entries with pairwise distinct fields name as many fields as there are entries. */
  lemma {:induction false} DistinctFieldsCount(added: seq<ValidationError>)
    requires forall i, j | 0 <= i < j < |added| :: added[i].field != added[j].field
    ensures |set i | 0 <= i < |added| :: added[i].field| == |added|
    decreases |added|
  {
    if added != [] {
      var init := added[..|added| - 1];
      DistinctFieldsCount(init);
      var last := added[|added| - 1].field;
      assert (set i | 0 <= i < |added| :: added[i].field)
          == (set i | 0 <= i < |init| :: init[i].field) + {last};
      assert last !in (set i | 0 <= i < |init| :: init[i].field);
    }
  }
}
