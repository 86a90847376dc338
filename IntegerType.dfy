/** The core API's `int` primitive type: narrowing of `long` values and coercion of smaller Java integral values. */
module IntegerType {
  import opened Wrappers

  const TwoTo31: int := 0x8000_0000
  const TwoTo32: int := 0x1_0000_0000
  const TwoTo63: int := 0x8000_0000_0000_0000

  /** Java `long` values. */
  type Long = v: int | -TwoTo63 <= v < TwoTo63
  /** Java `int` values. */
  type Int = v: int | -TwoTo31 <= v < TwoTo31
  /** Java `short` values. */
  type Short = v: int | -0x8000 <= v < 0x8000
  /** Java `byte` values. */
  type Byte = v: int | -0x80 <= v < 0x80
  /** Java `char` values: UTF-16 code units. */
  type CodeUnit = v: int | 0 <= v < 0x1_0000

  /** The boxed value handed to `validate`. */
  datatype JavaValue =
    | JCharacter(code: CodeUnit)
    | JByte(b: Byte)
    | JShort(s: Short)
    | JInteger(i: Int)
    | JLong(l: Long)
    | JOther(description: string)

  /**
   * `downCast`: the Java cast `(int)value`, which keeps the low 32 bits of the
   * two's-complement `long` and reads them as a signed `int`.
   */
  function DownCast(value: Long): (r: Int)
    ensures (value - r) % TwoTo32 == 0
    ensures -TwoTo31 <= value < TwoTo31 ==> r == value
  {
    var low := value % TwoTo32;
    if low < TwoTo31 then low else low - TwoTo32
  }

  /** Only one `int` is congruent to a given `long` modulo 2^32, so `DownCast` is the unique such value. */
  lemma DownCastUnique(value: Long, other: Int)
    requires (value - other) % TwoTo32 == 0
    ensures other == DownCast(value)
  {
    var r := DownCast(value);
    var d := r - other;
    assert d % TwoTo32 == 0 by {
      assert d == (value - other) - (value - r);
    }
    assert -TwoTo32 < d < TwoTo32;
    var q := d / TwoTo32;
    assert d == q * TwoTo32;
    assert q == 0;
  }

  /**
   * `validate`: a Character gives its code unit, a Byte or a Short its own numeric value;
   * every other value is handed unchanged to the superclass's rule `superValidate`.
   */
  function Validate(obj: JavaValue, superValidate: JavaValue -> Result<Int>): (r: Result<Int>)
    ensures obj.JCharacter? ==> r == Success(obj.code) && 0 <= r.value <= 0xFFFF
    ensures obj.JByte? ==> r == Success(obj.b)
    ensures obj.JShort? ==> r == Success(obj.s)
    ensures !(obj.JCharacter? || obj.JByte? || obj.JShort?) ==> r == superValidate(obj)
  {
    match obj
    case JCharacter(c) => Success(c)
    case JByte(b) => Success(b)
    case JShort(s) => Success(s)
    case _ => superValidate(obj)
  }
}
