/**
 * The parts of the Java platform's semantics the user service depends on:
 * `int` hashing in 32-bit two's complement, the hash codes of `String`,
 * `Long` and `LocalDateTime`, the hash and equality that Lombok's `@Data`
 * generates, and `String.equalsIgnoreCase`.
 */
module JavaLang {
  import opened Wrappers

  const TwoTo32: int := 0x1_0000_0000
  const TwoTo64: int := 0x1_0000_0000_0000_0000

  /** An unbounded integer's low 32 bits, as a Java `int` cast keeps them. */
  function Low32(x: int): bv32 {
    (x % TwoTo32) as bv32
  }

  /** A character's code, as `String.hashCode` adds it. */
  function CharCode(c: char): bv32 {
    Low32(c as int)
  }

  /** `String.hashCode`: `h = 31 * h + c` over the characters, in 32-bit arithmetic. */
  function StringHash(s: string): bv32 {
    if s == [] then 0 else StringHash(s[..|s| - 1]) * 31 + CharCode(s[|s| - 1])
  }

  /** `Long.hashCode`: the low 32 bits of `value ^ (value >>> 32)`. */
  function LongHash(v: int): bv32 {
    var b := ((v % TwoTo64) as bv64);
    Low32((b ^ (b >> 32)) as int)
  }

  /** Java's best-known collision: "Aa" and "BB" are different strings with the same hash. */
  lemma StringHashCollision()
    ensures StringHash("Aa") == StringHash("BB") == 2112
  {
    assert CharCode('A') == 65 && CharCode('B') == 66 && CharCode('a') == 97;
    assert "A"[..0] == [] && "B"[..0] == [];
    assert StringHash("A") == 65 && StringHash("B") == 66;
    assert "Aa"[..1] == "A" && "BB"[..1] == "B";
  }

  /** A `LocalDateTime`, by its fields. */
  datatype LocalDateTime = LocalDateTime(year: int, month: int, day: int,
                                         hour: int, minute: int, second: int, nano: int)
  {
    /** `LocalTime.toNanoOfDay`. */
    function NanoOfDay(): int {
      hour * 3_600_000_000_000 + minute * 60_000_000_000 + second * 1_000_000_000 + nano
    }

    /** `LocalDate.hashCode`: `(year & 0xFFFFF800) ^ ((year << 11) + (month << 6) + day)`. */
    function DateHash(): bv32 {
      var y := Low32(year);
      (y & 0xFFFF_F800) ^ ((y << 11) + (Low32(month) << 6) + Low32(day))
    }

    /** `LocalDateTime.hashCode`: the date's hash xor the time's `Long.hashCode(toNanoOfDay())`. */
    function HashCode(): bv32 {
      DateHash() ^ LongHash(NanoOfDay())
    }
  }

  /** What Lombok folds in for an absent field. */
  const NullHash: bv32 := 43
  /** Lombok's multiplier. */
  const Prime: bv32 := 59

  /** Lombok's `hashCode` over field hashes in declaration order: `result = result * 59 + h`, from 1. */
  function LombokHash(fieldHashes: seq<bv32>): bv32 {
    if fieldHashes == [] then 1
    else LombokHash(fieldHashes[..|fieldHashes| - 1]) * Prime + fieldHashes[|fieldHashes| - 1]
  }

  function StringFieldHash(s: Option<string>): bv32 {
    if s.None? then NullHash else StringHash(s.value)
  }

  function LongFieldHash(v: Option<int>): bv32 {
    if v.None? then NullHash else LongHash(v.value)
  }

  function DateTimeFieldHash(t: Option<LocalDateTime>): bv32 {
    if t.None? then NullHash else t.value.HashCode()
  }

  /**
   * `Character.toUpperCase` on ASCII letters and on the two non-ASCII
   * characters whose upper case is an ASCII letter (long s and dotless i);
   * every other character is its own upper case here.
   */
  function ToUpperCase(c: char): char {
    if 'a' <= c <= 'z' then (c as int - 32) as char
    else if c == 'ſ' then 'S'
    else if c == 'ı' then 'I'
    else c
  }

  /**
   * `Character.toLowerCase` on ASCII letters and on the two non-ASCII
   * characters whose lower case is an ASCII letter (Kelvin sign and capital
   * dotted I); every other character is its own lower case here.
   */
  function ToLowerCase(c: char): char {
    if 'A' <= c <= 'Z' then (c as int + 32) as char
    else if c == 'K' then 'k'
    else if c == 'İ' then 'i'
    else c
  }

  /** The per-character test of `String.equalsIgnoreCase`. */
  predicate CharEqualsIgnoreCase(a: char, b: char) {
    || a == b
    || ToUpperCase(a) == ToUpperCase(b)
    || ToLowerCase(ToUpperCase(a)) == ToLowerCase(ToUpperCase(b))
  }

  /**
   * `String.equalsIgnoreCase` against a non-null argument. The case tables
   * above hold every character whose case maps into ASCII, so the result is
   * exact whenever one side is all ASCII.
   */
  predicate EqualsIgnoreCase(a: string, b: string) {
    |a| == |b| && forall i | 0 <= i < |a| :: CharEqualsIgnoreCase(a[i], b[i])
  }

  /** Which strings `equalsIgnoreCase("desc")` accepts: four characters, each a case of d, e, s (or long s), c. */
  lemma EqualsIgnoreCaseDesc(s: string)
    ensures EqualsIgnoreCase(s, "desc") <==>
              && |s| == 4
              && s[0] in "dD" && s[1] in "eE" && s[2] in "sSſ" && s[3] in "cC"
  {
    if |s| == 4 {
      assert CharEqualsIgnoreCase(s[0], 'd') <==> s[0] in "dD";
      assert CharEqualsIgnoreCase(s[1], 'e') <==> s[1] in "eE";
      assert CharEqualsIgnoreCase(s[2], 's') <==> s[2] in "sSſ";
      assert CharEqualsIgnoreCase(s[3], 'c') <==> s[3] in "cC";
      assert "desc"[0] == 'd' && "desc"[1] == 'e' && "desc"[2] == 's' && "desc"[3] == 'c';
    }
  }
}
