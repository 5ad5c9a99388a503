/**
 * The `User` entity: eight nullable fields with Lombok `@Data` setters,
 * value equality and hash code. The repository-level constraints on it
 * (unique, non-null `email`; non-null `passwordHash`) live with the
 * repository in `UserServiceImpl`.
 */
module UserModel {
  import opened Wrappers
  import opened JavaLang

  /** A snapshot of a `User`'s fields; `None` stands for Java's `null`. */
  datatype UserRecord = UserRecord(
    userId: Option<int>,
    email: Option<string>,
    passwordHash: Option<string>,
    firstName: Option<string>,
    lastName: Option<string>,
    phone: Option<string>,
    createdAt: Option<LocalDateTime>,
    updatedAt: Option<LocalDateTime>)

  /** What `new User()` holds: every field null. */
  const NewRecord := UserRecord(None, None, None, None, None, None, None, None)

  /** Lombok's `hashCode` over the fields in declaration order. */
  function RecordHash(u: UserRecord): bv32 {
    LombokHash([
      LongFieldHash(u.userId),
      StringFieldHash(u.email),
      StringFieldHash(u.passwordHash),
      StringFieldHash(u.firstName),
      StringFieldHash(u.lastName),
      StringFieldHash(u.phone),
      DateTimeFieldHash(u.createdAt),
      DateTimeFieldHash(u.updatedAt)])
  }

  /** The argument of `equals`: null, a `User`, or an object of some other class. */
  datatype JavaObject = Null | UserRef(user: User) | OtherObject

  class User {
    var userId: Option<int>
    var email: Option<string>
    var passwordHash: Option<string>
    var firstName: Option<string>
    var lastName: Option<string>
    var phone: Option<string>
    var createdAt: Option<LocalDateTime>
    var updatedAt: Option<LocalDateTime>

    constructor ()
      ensures Value() == NewRecord
    {
      userId, email, passwordHash := None, None, None;
      firstName, lastName, phone := None, None, None;
      createdAt, updatedAt := None, None;
    }

    /** The entity's current field values. */
    function Value(): UserRecord
      reads this
    {
      UserRecord(userId, email, passwordHash, firstName, lastName, phone, createdAt, updatedAt)
    }

    method SetUserId(v: Option<int>)
      modifies this
      ensures Value() == old(Value()).(userId := v)
    {
      userId := v;
    }

    method SetEmail(v: Option<string>)
      modifies this
      ensures Value() == old(Value()).(email := v)
    {
      email := v;
    }

    method SetPasswordHash(v: Option<string>)
      modifies this
      ensures Value() == old(Value()).(passwordHash := v)
    {
      passwordHash := v;
    }

    method SetFirstName(v: Option<string>)
      modifies this
      ensures Value() == old(Value()).(firstName := v)
    {
      firstName := v;
    }

    method SetLastName(v: Option<string>)
      modifies this
      ensures Value() == old(Value()).(lastName := v)
    {
      lastName := v;
    }

    method SetPhone(v: Option<string>)
      modifies this
      ensures Value() == old(Value()).(phone := v)
    {
      phone := v;
    }

    method SetCreatedAt(v: Option<LocalDateTime>)
      modifies this
      ensures Value() == old(Value()).(createdAt := v)
    {
      createdAt := v;
    }

    method SetUpdatedAt(v: Option<LocalDateTime>)
      modifies this
      ensures Value() == old(Value()).(updatedAt := v)
    {
      updatedAt := v;
    }

    /** Lombok `equals`: only another `User`, and only when every field is equal. */
    function Equals(o: JavaObject): (r: bool)
      reads this, if o.UserRef? then {o.user} else {}
      ensures r <==> o.UserRef? && o.user.Value() == Value()
    {
      match o
      case UserRef(other) =>
        && userId == other.userId
        && email == other.email
        && passwordHash == other.passwordHash
        && firstName == other.firstName
        && lastName == other.lastName
        && phone == other.phone
        && createdAt == other.createdAt
        && updatedAt == other.updatedAt
      case _ => false
    }

    /** Lombok `hashCode`. */
    function HashCode(): bv32
      reads this
    {
      RecordHash(Value())
    }
  }

  /** Equal users have equal hash codes. */
  lemma EqualUsersHashAlike(a: User, b: User)
    requires a.Equals(UserRef(b))
    ensures a.HashCode() == b.HashCode()
    ensures b.Equals(UserRef(a))
  {
  }

  /** A fresh `new User()`: eight null fields folded as `((1 * 59 + 43) * 59 + 43) ...` in 32-bit arithmetic. */
  lemma NewRecordHash()
    ensures RecordHash(NewRecord) == 0xE1C9_6F71
  {
    var h := NullHash;
    assert [h][..0] == [];
    assert LombokHash([h]) == 0x66;
    assert [h, h][..1] == [h];
    assert LombokHash([h, h]) == 0x17ad;
    assert [h, h, h][..2] == [h, h];
    assert LombokHash([h, h, h]) == 0x5_750a;
    assert [h, h, h, h][..3] == [h, h, h];
    assert LombokHash([h, h, h, h]) == 0x141_f979;
    assert [h, h, h, h, h][..4] == [h, h, h, h];
    assert LombokHash([h, h, h, h, h]) == 0x4a34_7f0e;
    assert [h, h, h, h, h, h][..5] == [h, h, h, h, h];
    assert LombokHash([h, h, h, h, h, h]) == 0x1a19_4865;
    assert [h, h, h, h, h, h, h][..6] == [h, h, h, h, h, h];
    assert LombokHash([h, h, h, h, h, h, h]) == 0x3d3_af72;
    assert [h, h, h, h, h, h, h, h][..7] == [h, h, h, h, h, h, h];
    assert LombokHash([h, h, h, h, h, h, h, h]) == 0xe1c9_6f71;
  }

  /** The converse of `EqualUsersHashAlike` fails: users differing only in an email of "Aa" or "BB" hash alike. */
  lemma UnequalUsersHashAlike(u: UserRecord)
    ensures u.(email := Some("Aa")) != u.(email := Some("BB"))
    ensures RecordHash(u.(email := Some("Aa"))) == RecordHash(u.(email := Some("BB")))
  {
    StringHashCollision();
    assert "Aa"[1] != "BB"[1];
  }

  /** Users that differ in `userId` are never equal, whatever their other fields. */
  lemma DifferentIdsNotEqual(a: User, b: User)
    requires a.userId != b.userId
    ensures !a.Equals(UserRef(b)) && !b.Equals(UserRef(a))
  {
  }

  /** A user is not equal to null or to an object of another class, and is equal to itself. */
  lemma EqualsOnlyUsers(a: User)
    ensures !a.Equals(Null) && !a.Equals(OtherObject)
    ensures a.Equals(UserRef(a))
  {
  }
}
