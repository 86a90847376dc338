/**
 * Object IDs as the parser sees them: 16 hexadecimal digits naming a 64-bit value, whose
 * leading part encodes the storage ID of the object's type. Which 16-digit strings are
 * valid object IDs, and how the storage ID is read off the value, are given by an
 * `IdRules` value; the ObjId class itself is not part of this model.
 */
module ObjIds {
  import opened Wrappers

  /** Number of hexadecimal digits in an object ID. */
  const IdLength: nat := 16

  predicate IsHexDigit(c: char) {
    ('0' <= c <= '9') || ('a' <= c <= 'f') || ('A' <= c <= 'F')
  }

  predicate IsHex(s: string) {
    forall i :: 0 <= i < |s| ==> IsHexDigit(s[i])
  }

  function DigitValue(c: char): (d: nat)
    requires IsHexDigit(c)
    ensures d < 16
  {
    if '0' <= c <= '9' then c as int - '0' as int
    else if 'a' <= c <= 'f' then c as int - 'a' as int + 10
    else c as int - 'A' as int + 10
  }

  /** The lower-case digit for a value below 16. */
  function DigitChar(d: nat): (c: char)
    requires d < 16
    ensures IsHexDigit(c) && DigitValue(c) == d
  {
    if d < 10 then ('0' as int + d) as char else ('a' as int + d - 10) as char
  }

  function Pow16(n: nat): (p: nat)
    ensures p >= 1
  {
    if n == 0 then 1 else 16 * Pow16(n - 1)
  }

  /** The value of a string of hexadecimal digits, most significant digit first. */
  function HexValue(s: string): (v: nat)
    requires IsHex(s)
    ensures v < Pow16(|s|)
  {
    if s == [] then 0 else HexValue(s[..|s| - 1]) * 16 + DigitValue(s[|s| - 1])
  }

  /** The `n` lower-case digits of `v`. */
  function ToHex(v: nat, n: nat): (s: string)
    ensures |s| == n && IsHex(s)
  {
    if n == 0 then [] else ToHex(v / 16, n - 1) + [DigitChar(v % 16)]
  }

  /** Writing a value with enough digits and reading it back gives the value. */
  lemma {:induction false} HexValueOfToHex(v: nat, n: nat)
    requires v < Pow16(n)
    ensures HexValue(ToHex(v, n)) == v
  {
    if n > 0 {
      var s := ToHex(v, n);
      HexValueOfToHex(v / 16, n - 1);
      assert s[..n - 1] == ToHex(v / 16, n - 1);
    }
  }

  /** The number of 64-bit values: 16^16. */
  const IdBound: nat := 0x1_0000_0000_0000_0000

  lemma {:induction false} Pow16Add(a: nat, b: nat)
    ensures Pow16(a + b) == Pow16(a) * Pow16(b)
  {
    if a > 0 {
      Pow16Add(a - 1, b);
      assert Pow16(a + b) == 16 * (Pow16(a - 1) * Pow16(b));
    }
  }

  lemma Pow16IdLength()
    ensures Pow16(IdLength) == IdBound
  {
    assert Pow16(4) == 0x1_0000;
    Pow16Add(4, 4);
    Pow16Add(8, 8);
  }

  /** The 64-bit values, read as unsigned. */
  type IdValue = v: nat | v < IdBound

  /** An object ID, by its 64-bit value; object IDs are ordered by this value. */
  datatype ObjId = ObjId(value: IdValue)

  /** What this model takes as given about object IDs: which strings are valid, and the storage ID of a value. */
  datatype IdRules = IdRules(valid: string -> bool, storageIdOf: nat -> int)

  /** `new ObjId(s)`: 16 hexadecimal digits that the rules accept; anything else is refused. */
  function ParseObjId(rules: IdRules, s: string): (r: Option<ObjId>)
    ensures r.Some? <==> |s| == IdLength && IsHex(s) && rules.valid(s)
    ensures r.Some? ==> r.value.value == HexValue(s) && r.value.value < IdBound
  {
    Pow16IdLength();
    if |s| == IdLength && IsHex(s) && rules.valid(s) then Some(ObjId(HexValue(s))) else None
  }

  /** `getStorageId()`. */
  function StorageId(rules: IdRules, id: ObjId): int {
    rules.storageIdOf(id.value)
  }

  /** `toString()`: the 16 lower-case digits of the value. */
  function IdString(id: ObjId): string {
    ToHex(id.value, IdLength)
  }

  /** The string form of an ID is 16 hex digits whose value is the ID's value. */
  lemma IdStringSpec(id: ObjId)
    ensures |IdString(id)| == IdLength && IsHex(IdString(id))
    ensures HexValue(IdString(id)) == id.value
  {
    Pow16IdLength();
    HexValueOfToHex(id.value, IdLength);
  }

  /** Raising digits, position by position, never lowers the value. */
  lemma {:induction false} HexValueMonotone(a: string, b: string)
    requires |a| == |b| && IsHex(a) && IsHex(b)
    requires forall i :: 0 <= i < |a| ==> DigitValue(a[i]) <= DigitValue(b[i])
    ensures HexValue(a) <= HexValue(b)
  {
    if a != [] {
      var n := |a|;
      assert forall i :: 0 <= i < n - 1 ==> a[..n - 1][i] == a[i] && b[..n - 1][i] == b[i];
      HexValueMonotone(a[..n - 1], b[..n - 1]);
    }
  }
}
