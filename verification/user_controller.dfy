/**
 * `UserController`'s request handling under `/api/v0/users`: the paging and
 * sort parameters of the listing, and the 200/404 branching of the single-user
 * endpoints. Exceptions are returned as `Err` and answered by the global
 * exception handler; the hypermedia links around each body are not modelled.
 */
module Controllers {
  import opened Wrappers
  import opened JavaLang
  import opened UserModel
  import opened UserMapper
  import opened UserService
  import opened Exceptions

  datatype Direction = Asc | Desc

  /** `PageRequest.of(page, size, direction, property)`. */
  datatype Pageable = Pageable(page: int, size: int, direction: Direction, property: string)

  /** A handler's answer: 200 with a body, or an empty 404. */
  datatype Response<+T> = Ok200(body: T) | NotFound404

  const DefaultPage := 0
  const DefaultSize := 10
  const DefaultProperty := "userId"
  /** The `sort` default `"userId,asc"`, as Spring splits it on the comma. */
  const DefaultSort := ["userId", "asc"]

  /** The direction and property `getAllUsers` derives from its `sort` array. */
  function SortOf(sort: seq<string>): (r: (Direction, string))
    ensures |sort| == 0 ==> r == (Asc, DefaultProperty)
    ensures |sort| > 0 ==> r.1 == sort[0]
  {
    if |sort| == 0 then (Asc, DefaultProperty)
    else (if |sort| > 1 && EqualsIgnoreCase(sort[1], "desc") then Desc else Asc, sort[0])
  }

  /**
   * The direction is descending exactly when there is a second entry that
   * spells "desc" in any case (the long s `ſ` upper-cases to `S`, so it
   * counts too); anything else, including a missing entry, is ascending.
   */
  lemma SortDirection(sort: seq<string>)
    ensures SortOf(sort).0 == Desc <==>
              && |sort| > 1 && |sort[1]| == 4
              && sort[1][0] in "dD" && sort[1][1] in "eE" && sort[1][2] in "sSſ" && sort[1][3] in "cC"
  {
    if |sort| > 1 {
      EqualsIgnoreCaseDesc(sort[1]);
    }
  }

  /** The default parameters ask for the first ten users by ascending id. */
  lemma DefaultListing()
    ensures SortOf(DefaultSort) == (Asc, "userId")
    ensures Pageable(DefaultPage, DefaultSize, SortOf(DefaultSort).0, SortOf(DefaultSort).1) == Pageable(0, 10, Asc, "userId")
  {
    assert !EqualsIgnoreCase(DefaultSort[1], "desc") by {
      EqualsIgnoreCaseDesc(DefaultSort[1]);
    }
  }

  /** The local `direction`/`property` assignments of `getAllUsers`. */
  method ParseSort(sort: seq<string>) returns (direction: Direction, property: string)
    ensures (direction, property) == SortOf(sort)
  {
    direction := Asc;
    property := DefaultProperty;
    if |sort| > 0 {
      property := sort[0];
      if |sort| > 1 && EqualsIgnoreCase(sort[1], "desc") {
        direction := Desc;
      }
    }
  }

  class UserController {
    const service: UserServiceImpl

    constructor (service: UserServiceImpl)
      ensures this.service == service
    {
      this.service := service;
    }

    /**
     * `getAllUsers`: absent parameters take their defaults, the sort array
     * gives the direction and property, and the repository's page (validation
     * of the page request included) is converted element by element.
     */
    method GetAllUsers(page: Option<int>, size: Option<int>, sort: Option<seq<string>>,
                       findAll: (map<int, UserRecord>, Pageable) -> Result<Page<UserRecord>, ServiceException>)
      returns (r: Result<Page<UserDTO>, ServiceException>)
      ensures var (direction, property) := SortOf(sort.GetOr(DefaultSort));
        match findAll(service.rows, Pageable(page.GetOr(DefaultPage), size.GetOr(DefaultSize), direction, property))
        case Err(e) => r == Err(e)
        case Ok(users) => r == Ok(ToDTOPage(users))
    {
      var direction, property := ParseSort(sort.GetOr(DefaultSort));
      var pageable := Pageable(page.GetOr(DefaultPage), size.GetOr(DefaultSize), direction, property);
      var users := findAll(service.rows, pageable);
      match users {
        case Err(e) => r := Err(e);
        case Ok(p) => r := Ok(ToDTOPage(p));
      }
    }

    /** `getUserById`: 200 with the user's DTO when the id is stored, 404 otherwise. */
    method GetUserById(id: int) returns (r: Response<UserDTO>)
      ensures r.NotFound404? <==> id !in service.rows
      ensures id in service.rows ==> r == Ok200(ToDTO(service.rows[id]))
    {
      var found := service.GetUserById(id);
      if found.None? {
        return NotFound404;
      }
      r := Ok200(ToDTO(found.value.Value()));
    }

    /**
     * `updateUser` (PUT): a missing id is 404 and saves nothing; otherwise the
     * DTO's non-null fields are patched onto the stored user and the result is
     * saved, which the table's constraints may refuse.
     */
    method UpdateUser(id: int, dto: Option<UserUpdateDTO>) returns (r: Result<Response<UserDTO>, ServiceException>)
      requires service.Valid()
      modifies service
      ensures service.Valid()
      ensures id !in old(service.rows) ==> r == Ok(NotFound404) && service.rows == old(service.rows)
      ensures id in old(service.rows) ==>
        var v := Patched(old(service.rows)[id], dto);
        match Violation(old(service.rows), v)
        case Some(c) =>
          r == Err(DataIntegrityViolation(service.constraintMessage(c))) && service.rows == old(service.rows)
        case None => r == Ok(Ok200(ToDTO(v))) && service.rows == old(service.rows)[id := v]
    {
      var found := service.GetUserById(id);
      if found.None? {
        return Ok(NotFound404);
      }
      var updated := UpdateEntityFromDTO(dto, found.value);
      var saved := service.SaveUser(updated);
      match saved {
        case Err(e) => r := Err(e);
        case Ok(u) => r := Ok(Ok200(ToDTO(u)));
      }
    }

    /** `partialUpdateUser` (PATCH): 404 exactly when the service finds no user to update. */
    method PartialUpdateUser(id: int, fields: seq<(string, Option<string>)>)
      returns (r: Result<Response<UserDTO>, ServiceException>)
      requires service.Valid()
      modifies service
      ensures service.Valid()
      ensures r == Ok(NotFound404) <==> id !in old(service.rows)
      ensures id in old(service.rows) ==>
        match ApplyFields(old(service.rows), service.encode, old(service.rows)[id], fields)
        case Err(e) => r == Err(e) && service.rows == old(service.rows)
        case Ok(v) => r == Ok(Ok200(ToDTO(v))) && service.rows == old(service.rows)[id := v]
    {
      var updated := service.UpdateUser(id, fields);
      match updated {
        case Err(e) => r := Err(e);
        case Ok(None) => r := Ok(NotFound404);
        case Ok(Some(u)) => r := Ok(Ok200(ToDTO(u)));
      }
    }

    /** `deleteUser`: 200 after deleting a stored user; 404 without calling the service's delete. */
    method DeleteUser(id: int) returns (r: Response<()>)
      requires service.Valid()
      modifies service
      ensures service.Valid()
      ensures id in old(service.rows) ==>
        r == Ok200(()) && service.rows == old(service.rows) - {id} && service.deleteCalls == old(service.deleteCalls) + [id]
      ensures id !in old(service.rows) ==>
        r == NotFound404 && service.rows == old(service.rows) && service.deleteCalls == old(service.deleteCalls)
    {
      var found := service.GetUserById(id);
      if found.None? {
        return NotFound404;
      }
      service.DeleteUser(id);
      r := Ok200(());
    }
  }
}
