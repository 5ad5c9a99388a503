/**
 * `UserResponse`: the four public fields of a user (`id`, `email`,
 * `firstName`, `lastName`) that the service hands back; the password hash,
 * phone and timestamps are never part of it.
 */
module UserResponseDto {
  import opened Wrappers
  import opened UserModel
  import JavaLang

  /** A snapshot of a `UserResponse`'s fields. */
  datatype ResponseRecord = ResponseRecord(id: Option<int>, email: Option<string>,
                                           firstName: Option<string>, lastName: Option<string>)

  /** The projection `fromUser` performs. */
  function Project(u: UserRecord): ResponseRecord {
    ResponseRecord(u.userId, u.email, u.firstName, u.lastName)
  }

  class UserResponse {
    var id: Option<int>
    var email: Option<string>
    var firstName: Option<string>
    var lastName: Option<string>

    /** The no-argument constructor: every field null. */
    constructor ()
      ensures Value() == ResponseRecord(None, None, None, None)
    {
      id, email, firstName, lastName := None, None, None, None;
    }

    /** The four-argument constructor. */
    constructor WithFields(id: Option<int>, email: Option<string>, firstName: Option<string>, lastName: Option<string>)
      ensures Value() == ResponseRecord(id, email, firstName, lastName)
    {
      this.id, this.email, this.firstName, this.lastName := id, email, firstName, lastName;
    }

    function Value(): ResponseRecord
      reads this
    {
      ResponseRecord(id, email, firstName, lastName)
    }

    method SetId(v: Option<int>)
      modifies this
      ensures Value() == old(Value()).(id := v)
    {
      id := v;
    }

    method SetEmail(v: Option<string>)
      modifies this
      ensures Value() == old(Value()).(email := v)
    {
      email := v;
    }

    method SetFirstName(v: Option<string>)
      modifies this
      ensures Value() == old(Value()).(firstName := v)
    {
      firstName := v;
    }

    method SetLastName(v: Option<string>)
      modifies this
      ensures Value() == old(Value()).(lastName := v)
    {
      lastName := v;
    }
  }

  /** `fromUser`: a fresh response filled field by field from the user, which is left untouched. */
  method FromUser(user: User) returns (r: UserResponse)
    ensures fresh(r)
    ensures r.Value() == Project(user.Value())
  {
    r := new UserResponse();
    r.SetId(user.userId);
    r.SetEmail(user.email);
    r.SetFirstName(user.firstName);
    r.SetLastName(user.lastName);
  }

  /** The response copies `userId` to `id` and the three names exactly, and does not depend on the password hash, phone or timestamps. */
  lemma ProjectExposesOnlyPublicFields(u: UserRecord, passwordHash: Option<string>, phone: Option<string>,
                                       createdAt: Option<JavaLang.LocalDateTime>,
                                       updatedAt: Option<JavaLang.LocalDateTime>)
    ensures var r := Project(u);
      r.id == u.userId && r.email == u.email && r.firstName == u.firstName && r.lastName == u.lastName
    ensures Project(u.(passwordHash := passwordHash, phone := phone, createdAt := createdAt, updatedAt := updatedAt))
         == Project(u)
  {
  }
}
