/**
 * Java's byte and character values as the password encryptor uses them:
 * a `byte` is 8 bits, a `char` is one 16-bit UTF-16 code unit and a
 * `String` is a sequence of code units. The two encodings of a password
 * that the encryptor derives are defined here: UTF-16 little endian
 * (for the MD4-based hashes) and the upper-cased ASCII bytes (for LanMan).
 */
module JavaText {

  type Byte = bv8
  type Bytes = seq<Byte>
  type CodeUnit = bv16
  type JavaString = seq<CodeUnit>

  /** `(byte) ch`: the low 8 bits of a code unit. */
  function LowByte(c: CodeUnit): Byte {
    (c & 0xFF) as Byte
  }

  /** `(byte) ((ch >> 8) & 0xFF)`: the high 8 bits of a code unit. */
  function HighByte(c: CodeUnit): Byte {
    ((c >> 8) & 0xFF) as Byte
  }

  /** The code unit whose low byte is `lo` and whose high byte is `hi`. */
  function CodeUnitOf(lo: Byte, hi: Byte): (c: CodeUnit)
    ensures LowByte(c) == lo && HighByte(c) == hi
  {
    (lo as CodeUnit) | ((hi as CodeUnit) << 8)
  }

  lemma CodeUnitOfBytes(c: CodeUnit)
    ensures CodeUnitOf(LowByte(c), HighByte(c)) == c
  {
  }

  // ---------------------------------------------------------------------
  // UTF-16 little endian ("UnicodeLittleUnmarked": no byte-order mark)
  // ---------------------------------------------------------------------

  /** Byte `k` of the UTF-16LE encoding of `s`: even bytes are low halves. */
  function Utf16LeByte(s: JavaString, k: nat): Byte
    requires k < 2 * |s|
  {
    if k % 2 == 0 then LowByte(s[k / 2]) else HighByte(s[k / 2])
  }

  /** The UTF-16LE encoding: each code unit becomes its low byte, then its high byte. */
  function Utf16Le(s: JavaString): (r: Bytes)
    ensures |r| == 2 * |s|
  {
    if s == [] then [] else [LowByte(s[0]), HighByte(s[0])] + Utf16Le(s[1..])
  }

  /** Reading UTF-16LE back: every byte pair becomes one code unit. */
  function Utf16LeDecode(b: Bytes): (s: JavaString)
    requires |b| % 2 == 0
    ensures 2 * |s| == |b|
  {
    if b == [] then [] else [CodeUnitOf(b[0], b[1])] + Utf16LeDecode(b[2..])
  }

  lemma {:induction false} Utf16LeAt(s: JavaString, k: nat)
    requires k < 2 * |s|
    ensures Utf16Le(s)[k] == Utf16LeByte(s, k)
  {
    if k >= 2 {
      Utf16LeAt(s[1..], k - 2);
      assert s[1..][(k - 2) / 2] == s[k / 2];
    }
  }

  /** Decoding the encoding gives the password back, so the encoding is injective. */
  lemma {:induction false} Utf16LeRoundTrip(s: JavaString)
    ensures Utf16LeDecode(Utf16Le(s)) == s
  {
    if s != [] {
      var b := Utf16Le(s);
      assert b[2..] == Utf16Le(s[1..]);
      CodeUnitOfBytes(s[0]);
      Utf16LeRoundTrip(s[1..]);
    }
  }

  /** Any byte sequence laid out as the encoding loop fills it is the encoding. */
  lemma {:induction false} Utf16LeUnique(s: JavaString, b: Bytes)
    requires |b| == 2 * |s|
    requires forall i :: 0 <= i < |s| ==> b[2 * i] == LowByte(s[i]) && b[2 * i + 1] == HighByte(s[i])
    ensures b == Utf16Le(s)
  {
    if s != [] {
      var t, rest := s[1..], b[2..];
      forall i | 0 <= i < |t|
        ensures rest[2 * i] == LowByte(t[i]) && rest[2 * i + 1] == HighByte(t[i])
      {
        assert b[2 * (i + 1)] == LowByte(s[i + 1]) && b[2 * (i + 1) + 1] == HighByte(s[i + 1]);
      }
      Utf16LeUnique(t, rest);
      assert b[0] == LowByte(s[0]) && b[1] == HighByte(s[0]);
      assert b == [b[0], b[1]] + rest;
    }
  }

  lemma Utf16LeInjective(s: JavaString, t: JavaString)
    requires Utf16Le(s) == Utf16Le(t)
    ensures s == t
  {
    Utf16LeRoundTrip(s);
    Utf16LeRoundTrip(t);
  }

  // ---------------------------------------------------------------------
  // ASCII: the range on which String.toUpperCase and String.getBytes are
  // modelled (see README, "Left out")
  // ---------------------------------------------------------------------

  predicate IsAscii(s: JavaString) {
    forall i :: 0 <= i < |s| ==> s[i] < 0x80
  }

  /** `Character.toUpperCase` on ASCII: only 'a'..'z' change. */
  function AsciiUpper(c: CodeUnit): (u: CodeUnit)
    requires c < 0x80
    ensures u < 0x80
    ensures !(0x61 <= u <= 0x7A)   // no lower-case letter is left
  {
    if 0x61 <= c <= 0x7A then c - 0x20 else c
  }

  /** Upper-casing an upper-cased character changes nothing. */
  lemma AsciiUpperIdempotent(c: CodeUnit)
    requires c < 0x80
    ensures AsciiUpper(AsciiUpper(c)) == AsciiUpper(c)
  {
  }

  /** `String.toUpperCase` restricted to ASCII: one code unit for one code unit. */
  function UpperCase(s: JavaString): (u: JavaString)
    requires IsAscii(s)
    ensures |u| == |s| && IsAscii(u)
    ensures forall i :: 0 <= i < |s| ==> u[i] == AsciiUpper(s[i])
  {
    if s == [] then [] else [AsciiUpper(s[0])] + UpperCase(s[1..])
  }

  /** `String.getBytes()` on an ASCII string: one byte per code unit. */
  function AsciiBytes(s: JavaString): (b: Bytes)
    requires IsAscii(s)
    ensures |b| == |s|
    ensures forall i :: 0 <= i < |s| ==> b[i] as CodeUnit == s[i]
  {
    if s == [] then [] else [s[0] as Byte] + AsciiBytes(s[1..])
  }
}
