/**
 * `UserMapperImpl`: the null-skipping patch of a user from a `UserUpdateDTO`,
 * and the element-wise mapping of a page of users to `UserDTO`s.
 */
module UserMapper {
  import opened Wrappers
  import opened JavaLang
  import opened UserModel

  /** The patch body of a full update: every field optional. */
  datatype UserUpdateDTO = UserUpdateDTO(email: Option<string>, firstName: Option<string>,
                                         lastName: Option<string>, phone: Option<string>)

  /** The user as the API shows it: the entity's fields without the password hash. */
  datatype UserDTO = UserDTO(userId: Option<int>, email: Option<string>, firstName: Option<string>,
                             lastName: Option<string>, phone: Option<string>,
                             createdAt: Option<LocalDateTime>, updatedAt: Option<LocalDateTime>)

  /** One page of a paged query: its content and its position in the whole result. */
  datatype Page<T> = Page(content: seq<T>, number: nat, size: nat, totalElements: nat)

  /** A DTO field's value if it is non-null, else the user's. */
  function Overlay(value: Option<string>, current: Option<string>): Option<string> {
    if value.Some? then value else current
  }

  /** The user `updateEntityFromDTO` leaves behind. */
  function Patched(u: UserRecord, dto: Option<UserUpdateDTO>): UserRecord {
    match dto
    case None => u
    case Some(d) =>
      u.(email := Overlay(d.email, u.email),
         firstName := Overlay(d.firstName, u.firstName),
         lastName := Overlay(d.lastName, u.lastName),
         phone := Overlay(d.phone, u.phone))
  }

  /**
   * `updateEntityFromDTO`: a null DTO leaves the user alone; otherwise each
   * non-null DTO field is written through its setter. The same object is
   * returned.
   */
  method UpdateEntityFromDTO(dto: Option<UserUpdateDTO>, user: User) returns (r: User)
    modifies user
    ensures r == user
    ensures user.Value() == Patched(old(user.Value()), dto)
  {
    if dto.None? {
      return user;
    }
    var d := dto.value;
    if d.email.Some? {
      user.SetEmail(d.email);
    }
    if d.firstName.Some? {
      user.SetFirstName(d.firstName);
    }
    if d.lastName.Some? {
      user.SetLastName(d.lastName);
    }
    if d.phone.Some? {
      user.SetPhone(d.phone);
    }
    r := user;
  }

  /**
   * What a patch does field by field: a non-null DTO field overwrites the
   * user's, a null one keeps it, and the id, password hash and timestamps
   * are never touched.
   */
  lemma PatchedFields(u: UserRecord, dto: Option<UserUpdateDTO>)
    ensures var r := Patched(u, dto);
      && r.userId == u.userId && r.passwordHash == u.passwordHash
      && r.createdAt == u.createdAt && r.updatedAt == u.updatedAt
      && (dto.None? ==> r == u)
      && (dto.Some? ==>
            && (dto.value.email.Some? ==> r.email == dto.value.email)
            && (dto.value.email.None? ==> r.email == u.email)
            && (dto.value.firstName.Some? ==> r.firstName == dto.value.firstName)
            && (dto.value.firstName.None? ==> r.firstName == u.firstName)
            && (dto.value.lastName.Some? ==> r.lastName == dto.value.lastName)
            && (dto.value.lastName.None? ==> r.lastName == u.lastName)
            && (dto.value.phone.Some? ==> r.phone == dto.value.phone)
            && (dto.value.phone.None? ==> r.phone == u.phone))
  {
  }

  /** Applying the same DTO twice is applying it once. */
  lemma PatchedIdempotent(u: UserRecord, dto: Option<UserUpdateDTO>)
    ensures Patched(Patched(u, dto), dto) == Patched(u, dto)
  {
  }

  /** The `User` to `UserDTO` conversion: every same-named field copied, the password hash dropped. */
  function ToDTO(u: UserRecord): UserDTO {
    UserDTO(u.userId, u.email, u.firstName, u.lastName, u.phone, u.createdAt, u.updatedAt)
  }

  /** `ToDTO` applied to each user, in order. */
  function ToDTOs(users: seq<UserRecord>): (r: seq<UserDTO>)
    ensures |r| == |users|
    ensures forall i | 0 <= i < |users| :: r[i] == ToDTO(users[i])
  {
    if users == [] then [] else [ToDTO(users[0])] + ToDTOs(users[1..])
  }

  /** `toDTOPage`: the same page, each element converted, size and order kept. */
  function ToDTOPage(users: Page<UserRecord>): (r: Page<UserDTO>)
    ensures |r.content| == |users.content|
    ensures forall i | 0 <= i < |users.content| :: r.content[i] == ToDTO(users.content[i])
    ensures r.number == users.number && r.size == users.size && r.totalElements == users.totalElements
  {
    Page(ToDTOs(users.content), users.number, users.size, users.totalElements)
  }

  /** The DTO does not depend on the password hash. */
  lemma ToDTOHidesPassword(u: UserRecord, passwordHash: Option<string>)
    ensures ToDTO(u.(passwordHash := passwordHash)) == ToDTO(u)
  {
  }
}
