/**
 * The 7-byte to 8-byte DES key expansion of `generateKey`.
 *
 * The 56 bits of a 7-byte window, read most significant bit first, are cut
 * into eight groups of seven bits; group k becomes bits 7..1 of key byte k
 * and bit 0 (the DES parity position) is left clear. This is the key layout
 * of DESL in section 6 of [MS-NLMP].
 */
module KeyExpansion {
  import opened JavaText
  import opened Primitives

  /** The 56 bits of a 7-byte window as one number, first byte most significant. */
  function Secret56(w: Bytes): bv64
    requires |w| == 7
  {
    Pack7(w[0], w[1], w[2], w[3], w[4], w[5], w[6])
  }

  function Pack7(a: Byte, b: Byte, c: Byte, d: Byte, e: Byte, f: Byte, g: Byte): bv64 {
    ((a as bv64) << 48) | ((b as bv64) << 40) | ((c as bv64) << 32) | ((d as bv64) << 24)
    | ((e as bv64) << 16) | ((f as bv64) << 8) | (g as bv64)
  }

  /** Bits 7..1 of a key byte: the low seven bits of `g`, shifted up by one. */
  function KeyByte(g: bv64): (b: Byte)
    ensures b & 1 == 0
  {
    ((g & 0x7F) as Byte) << 1
  }

  /** The secret shifted so that its seven-bit group `k` (from the top) is lowest. */
  function Group(x: bv64, k: nat): bv64
    requires k < 8
  {
    if k == 0 then x >> 49 else if k == 1 then x >> 42 else if k == 2 then x >> 35
    else if k == 3 then x >> 28 else if k == 4 then x >> 21 else if k == 5 then x >> 14
    else if k == 6 then x >> 7 else x
  }

  /** The DES key made from a 7-byte window: group k of seven bits in bits 7..1 of byte k. */
  function ExpandKey(w: Bytes): (key: Block8)
    requires |w| == 7
    ensures forall i :: 0 <= i < 8 ==> key[i] & 1 == 0
    ensures key[0] == w[0] & 0xFE
    ensures key[7] == (w[6] & 0x7F) << 1
  {
    var x := Secret56(w);
    seq(8, k requires 0 <= k < 8 => KeyByte(Group(x, k)))
  }

  /** The key `generateKey(byt, off)` makes from the seven bytes at `off`. */
  function KeyAt(byt: Bytes, off: nat): Block8
    requires off + 7 <= |byt|
  {
    ExpandKey(byt[off..off + 7])
  }

  // ---------------------------------------------------------------------
  // The inverse: reading bits 7..1 of the key bytes back, in order
  // ---------------------------------------------------------------------

  /** Bits 7..1 of eight key bytes, concatenated into 56 bits. */
  function Join8(k0: Byte, k1: Byte, k2: Byte, k3: Byte, k4: Byte, k5: Byte, k6: Byte, k7: Byte): bv64 {
    ((k0 >> 1) as bv64 << 49) | ((k1 >> 1) as bv64 << 42)
    | ((k2 >> 1) as bv64 << 35) | ((k3 >> 1) as bv64 << 28)
    | ((k4 >> 1) as bv64 << 21) | ((k5 >> 1) as bv64 << 14)
    | ((k6 >> 1) as bv64 << 7) | ((k7 >> 1) as bv64)
  }

  function KeyBits(key: Block8): bv64 {
    Join8(key[0], key[1], key[2], key[3], key[4], key[5], key[6], key[7])
  }

  /** Byte `i` (from the top) of a 56-bit number. */
  function Octet(x: bv64, i: nat): Byte
    requires i < 7
  {
    var y := if i == 0 then x >> 48 else if i == 1 then x >> 40 else if i == 2 then x >> 32
      else if i == 3 then x >> 24 else if i == 4 then x >> 16 else if i == 5 then x >> 8 else x;
    (y & 0xFF) as Byte
  }

  /** The 7-byte window a DES key was expanded from. */
  function CompressKey(key: Block8): (w: Bytes)
    ensures |w| == 7
  {
    var x := KeyBits(key);
    seq(7, i requires 0 <= i < 7 => Octet(x, i))
  }

  /** The bytes of `Pack7`, taken apart again. */
  lemma OctetsOfPack(a: Byte, b: Byte, c: Byte, d: Byte, e: Byte, f: Byte, g: Byte)
    ensures var x := Pack7(a, b, c, d, e, f, g);
      && x >> 56 == 0
      && Octet(x, 0) == a && Octet(x, 1) == b && Octet(x, 2) == c && Octet(x, 3) == d
      && Octet(x, 4) == e && Octet(x, 5) == f && Octet(x, 6) == g
  {
  }

  /** Cutting a 56-bit number into septets and joining them is the identity. */
  lemma SeptetsJoin(x: bv64)
    requires x >> 56 == 0
    ensures Join8(KeyByte(Group(x, 0)), KeyByte(Group(x, 1)), KeyByte(Group(x, 2)),
                  KeyByte(Group(x, 3)), KeyByte(Group(x, 4)), KeyByte(Group(x, 5)),
                  KeyByte(Group(x, 6)), KeyByte(Group(x, 7))) == x
  {
  }

  /** Joining the septets of eight key bytes and cutting them again is the identity. */
  lemma SeptetsSplit(k0: Byte, k1: Byte, k2: Byte, k3: Byte, k4: Byte, k5: Byte, k6: Byte, k7: Byte)
    requires k0 & 1 == 0 && k1 & 1 == 0 && k2 & 1 == 0 && k3 & 1 == 0
    requires k4 & 1 == 0 && k5 & 1 == 0 && k6 & 1 == 0 && k7 & 1 == 0
    ensures var x := Join8(k0, k1, k2, k3, k4, k5, k6, k7);
      && KeyByte(Group(x, 0)) == k0 && KeyByte(Group(x, 1)) == k1
      && KeyByte(Group(x, 2)) == k2 && KeyByte(Group(x, 3)) == k3
      && KeyByte(Group(x, 4)) == k4 && KeyByte(Group(x, 5)) == k5
      && KeyByte(Group(x, 6)) == k6 && KeyByte(Group(x, 7)) == k7
  {
  }

  /** Joining the bytes of a 56-bit number and cutting them again is the identity. */
  lemma OctetsJoin(x: bv64)
    requires x >> 56 == 0
    ensures Pack7(Octet(x, 0), Octet(x, 1), Octet(x, 2), Octet(x, 3),
                  Octet(x, 4), Octet(x, 5), Octet(x, 6)) == x
  {
  }

  lemma SecretIsKeyBits(w: Bytes)
    requires |w| == 7
    ensures KeyBits(ExpandKey(w)) == Secret56(w)
  {
    OctetsOfPack(w[0], w[1], w[2], w[3], w[4], w[5], w[6]);
    SeptetsJoin(Secret56(w));
  }

  /** Reading bits 7..1 of the expanded key in order gives back the 56 input bits. */
  lemma CompressExpand(w: Bytes)
    requires |w| == 7
    ensures CompressKey(ExpandKey(w)) == w
  {
    SecretIsKeyBits(w);
    OctetsOfPack(w[0], w[1], w[2], w[3], w[4], w[5], w[6]);
  }

  /** Every key with its parity bits clear is the expansion of some window. */
  lemma ExpandCompress(key: Block8)
    requires forall i :: 0 <= i < 8 ==> key[i] & 1 == 0
    ensures ExpandKey(CompressKey(key)) == key
  {
    var x := KeyBits(key);
    SeptetsSplit(key[0], key[1], key[2], key[3], key[4], key[5], key[6], key[7]);
    assert Secret56(CompressKey(key)) == x by {
      OctetsJoin(x);
    }
  }

  /** Different windows give different keys. */
  lemma ExpandKeyInjective(w: Bytes, v: Bytes)
    requires |w| == 7 && |v| == 7
    requires ExpandKey(w) == ExpandKey(v)
    ensures w == v
  {
    CompressExpand(w);
    CompressExpand(v);
  }

  /** The key depends on the seven bytes at `off` and on nothing else. */
  lemma KeyAtReadsWindow(byt: Bytes, off: nat, other: Bytes, otherOff: nat)
    requires off + 7 <= |byt| && otherOff + 7 <= |other|
    requires byt[off..off + 7] == other[otherOff..otherOff + 7]
    ensures KeyAt(byt, off) == KeyAt(other, otherOff)
  {
  }

  // ---------------------------------------------------------------------
  // generateKey as written: eight byte formulas, then a shift loop
  // ---------------------------------------------------------------------

  /** `(byte) (b >> 1)` for a signed Java byte: the shift copies the sign bit. */
  function SignedShiftRight1(b: Byte): (r: Byte)
    ensures r & 0x80 == b & 0x80
    ensures r << 1 == b & 0xFE  // the copied sign bit is shifted out again
  {
    (b >> 1) | (b & 0x80)
  }

  /** Key byte `k` as `generateKey` computes it before its shift loop. */
  function PreShift(w: Bytes, k: nat): (b: Byte)
    requires |w| == 7 && k < 8
    ensures k > 0 ==> b < 0x80
    ensures b << 1 == ExpandKey(w)[k]
  {
    if k == 0 then SignedShiftRight1(w[0])
    else if k == 1 then ((w[0] & 0x01) << 6) | (w[1] >> 2)
    else if k == 2 then ((w[1] & 0x03) << 5) | (w[2] >> 3)
    else if k == 3 then ((w[2] & 0x07) << 4) | (w[3] >> 4)
    else if k == 4 then ((w[3] & 0x0F) << 3) | (w[4] >> 5)
    else if k == 5 then ((w[4] & 0x1F) << 2) | (w[5] >> 6)
    else if k == 6 then ((w[5] & 0x3F) << 1) | (w[6] >> 7)
    else w[6] & 0x7F
  }

  /**
   * `generateKey(byt, off)`: the key bytes before the final shift, then each
   * byte shifted left by one in place. Java's `(byte)` casts keep the low
   * eight bits, which is what `bv8` arithmetic does.
   */
  method GenerateKey(byt: Bytes, off: nat) returns (key: Block8)
    requires off + 7 <= |byt|
    ensures key == KeyAt(byt, off)
  {
    // key[0] .. key[7] as the eight formulas of PreShift give them
    var w := byt[off..off + 7];
    var k := new Byte[8](j requires 0 <= j < 8 => PreShift(w, j));
    for i := 0 to 8
      invariant forall j :: 0 <= j < i ==> k[j] == ExpandKey(w)[j]
      invariant forall j :: i <= j < 8 ==> k[j] == PreShift(w, j)
    {
      k[i] := k[i] << 1;
    }
    key := k[..];
  }
}
