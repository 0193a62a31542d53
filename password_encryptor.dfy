/**
 * The LanMan / NTLMv1 password encryptor of the J2ME client.
 *
 * The operations that fill arrays are methods that do so as the Java code
 * does, each proved equal to a specification function; the lemmas at the end
 * of the module state what those functions promise: which bytes come from
 * where and at what offsets. `null` results are `None`. The block primitives
 * are the `Crypto` parameter `c`. The LanMan selector uses the corrected
 * `LanManResponse`; `P24Password` keeps the path as written.
 */
module PasswordEncryptor {
  import opened Wrappers
  import opened JavaText
  import opened KeyExpansion
  import opened Primitives

  // -----------------------------------------------------------------------
  // Algorithm selectors and their names
  // -----------------------------------------------------------------------

  const LANMAN: int := 0
  const NTLM1: int := 1
  const NTLM2: int := 2
  const MD4: int := 3

  const AlgNames: seq<string> := ["LanMan", "NTLMv1", "NTLMv2", "MD4"]

  /** `getAlgorithmName`: the name of a selector, "Unknown" outside the table. */
  function GetAlgorithmName(alg: int): (name: string)
    ensures alg == LANMAN ==> name == "LanMan"
    ensures alg == NTLM1 ==> name == "NTLMv1"
    ensures alg == NTLM2 ==> name == "NTLMv2"
    ensures alg == MD4 ==> name == "MD4"
    ensures name == "Unknown" <==> !(0 <= alg < 4)
  {
    if 0 <= alg < |AlgNames| then AlgNames[alg] else "Unknown"
  }

  /** A `null` password is treated as the empty string. */
  function Pwd(plainPwd: Option<JavaString>): (pwd: JavaString)
    ensures plainPwd.None? ==> pwd == []
    ensures plainPwd.Some? ==> pwd == plainPwd.value
  {
    if plainPwd.None? then [] else plainPwd.value
  }

  /** The LanMan seed: the bytes of the ASCII string "KGS!@#$%". */
  const LmMagic: Bytes := [0x4B, 0x47, 0x53, 0x21, 0x40, 0x23, 0x24, 0x25]

  /** The zero bytes that fill a 16-byte hash up to the 21-byte secret of P24. */
  const Pad5: Bytes := [0, 0, 0, 0, 0]

  /** `n` NUL characters. */
  function NulChars(n: nat): (z: JavaString)
    ensures |z| == n && forall i :: 0 <= i < n ==> z[i] == 0
  {
    if n == 0 then [] else [0] + NulChars(n - 1)
  }

  // -----------------------------------------------------------------------
  // Array writes: DESEngine.processBlock's output and System.arraycopy
  // -----------------------------------------------------------------------

  /** Copy `src` into `dst` at offset `off`; the rest of `dst` is unchanged. */
  method ArrayCopy(src: Bytes, dst: array<Byte>, off: nat)
    requires off + |src| <= dst.Length
    modifies dst
    ensures dst[..] == old(dst[..off]) + src + old(dst[off + |src|..])
  {
    for i := 0 to |src|
      invariant forall k :: 0 <= k < off ==> dst[k] == old(dst[k])
      invariant forall k :: 0 <= k < i ==> dst[off + k] == src[k]
      invariant forall k :: off + i <= k < dst.Length ==> dst[k] == old(dst[k])
    {
      dst[off + i] := src[i];
    }
    assert dst[..] == old(dst[..off]) + src + old(dst[off + |src|..]);
  }

  // -----------------------------------------------------------------------
  // The 14-byte LanMan password buffer (P16, first half)
  // -----------------------------------------------------------------------

  /**
   * The LanMan password buffer: the upper-cased password, cut to 14
   * characters or padded with NUL up to 14, one byte per character.
   */
  function LmPasswordBuffer(pwd: JavaString): (p14: Bytes)
    requires IsAscii(pwd)
    ensures |p14| == 14
    ensures forall i :: 0 <= i < 14 ==>
      p14[i] as CodeUnit == if i < |pwd| then AsciiUpper(pwd[i]) else 0
  {
    var u := UpperCase(pwd);
    var t := if |u| > 14 then u[..14] else u + NulChars(14 - |u|);
    AsciiBytes(t)
  }

  /** The P14 string of `P16`, built in a string buffer, then `getBytes()`. */
  method LmPasswordBytes(pwd: JavaString) returns (p14: Bytes)
    requires IsAscii(pwd)
    ensures p14 == LmPasswordBuffer(pwd)
  {
    var p14str := UpperCase(pwd);
    if |p14str| > 14 {
      p14str := p14str[..14];
    }
    while |p14str| < 14
      invariant |p14str| <= 14
      invariant |p14str| >= |pwd| || |p14str| == 14
      invariant forall i :: 0 <= i < |p14str| ==>
        p14str[i] == if i < |pwd| then AsciiUpper(pwd[i]) else 0
    {
      p14str := p14str + [0];
    }
    p14 := AsciiBytes(p14str);
    var spec := LmPasswordBuffer(pwd);
    assert forall i :: 0 <= i < 14 ==> p14[i] as CodeUnit == spec[i] as CodeUnit;
  }

  // -----------------------------------------------------------------------
  // P16: two DES blocks of a seed under the keys of the password buffer
  // -----------------------------------------------------------------------

  /**
   * `P16(pwd, s8)`: `s8` encrypted under the keys at offsets 0 and 7 of the
   * password buffer; `null` when `s8` is shorter than one DES block (the
   * cipher's exception is caught).
   */
  function P16Of(c: Crypto, pwd: JavaString, s8: Bytes): (r: Option<Bytes>)
    requires IsAscii(pwd)
  {
    if |s8| < 8 then None
    else
      var p14 := LmPasswordBuffer(pwd);
      Some(c.des(KeyAt(p14, 0), s8[..8]) + c.des(KeyAt(p14, 7), s8[..8]))
  }

  method P16(c: Crypto, pwd: JavaString, s8: Bytes) returns (r: Option<Bytes>)
    requires IsAscii(pwd)
    ensures r == P16Of(c, pwd, s8)
  {
    var p14 := LmPasswordBytes(pwd);
    var p16 := new Byte[16](_ => 0);
    var key := GenerateKey(p14, 0);
    if |s8| < 8 {
      // DESEngine rejects a short input block; the exception becomes null
      return None;
    }
    ArrayCopy(c.des(key, s8[..8]), p16, 0);
    assert p16[..8] == c.des(KeyAt(p14, 0), s8[..8]);
    key := GenerateKey(p14, 7);
    ArrayCopy(c.des(key, s8[..8]), p16, 8);
    assert p16[..] == c.des(KeyAt(p14, 0), s8[..8]) + c.des(KeyAt(p14, 7), s8[..8]);
    r := Some(p16[..]);
  }

  // -----------------------------------------------------------------------
  // P24 over bytes: three DES blocks of the challenge
  // -----------------------------------------------------------------------

  /**
   * `P24(p21, ch)`: the challenge encrypted under the keys at offsets 0, 7
   * and 14 of `p21`; `null` when `p21` is too short for the third key or
   * `ch` is shorter than a block (the exceptions are caught).
   */
  function P24Of(c: Crypto, p21: Bytes, ch: Bytes): (r: Option<Bytes>) {
    if |p21| < 21 || |ch| < 8 then None
    else
      Some(c.des(KeyAt(p21, 0), ch[..8]) + c.des(KeyAt(p21, 7), ch[..8])
           + c.des(KeyAt(p21, 14), ch[..8]))
  }

  method P24(c: Crypto, p21: Bytes, ch: Bytes) returns (r: Option<Bytes>)
    ensures r == P24Of(c, p21, ch)
  {
    var enc := new Byte[24](_ => 0);
    if |p21| < 7 || |ch| < 8 {
      return None;
    }
    var key := GenerateKey(p21, 0);
    ArrayCopy(c.des(key, ch[..8]), enc, 0);
    assert enc[..8] == c.des(KeyAt(p21, 0), ch[..8]);
    if |p21| < 14 {
      return None;
    }
    key := GenerateKey(p21, 7);
    ArrayCopy(c.des(key, ch[..8]), enc, 8);
    assert enc[..16] == c.des(KeyAt(p21, 0), ch[..8]) + c.des(KeyAt(p21, 7), ch[..8]);
    if |p21| < 21 {
      return None;
    }
    key := GenerateKey(p21, 14);
    ArrayCopy(c.des(key, ch[..8]), enc, 16);
    assert enc[..] == c.des(KeyAt(p21, 0), ch[..8]) + c.des(KeyAt(p21, 7), ch[..8])
                      + c.des(KeyAt(p21, 14), ch[..8]);
    r := Some(enc[..]);
  }

  // -----------------------------------------------------------------------
  // The LanMan response
  // -----------------------------------------------------------------------

  /** The LanMan hash: P16 of the password with the "KGS!@#$%" seed. */
  function LmHash(c: Crypto, pwd: JavaString): (h: Bytes)
    requires IsAscii(pwd)
    ensures |h| == 16
  {
    P16Of(c, pwd, LmMagic).value
  }

  /**
   * `P24(String, byte[])` as written: the 16-byte LanMan hash goes straight
   * into `P24(byte[], byte[])`.
   */
  function LanManAsWritten(c: Crypto, pwd: JavaString, c8: Bytes): (r: Option<Bytes>)
    requires IsAscii(pwd)
    ensures r.Some? <==> |LmHash(c, pwd)| >= 21 && |c8| >= 8
  {
    match P16Of(c, pwd, LmMagic)
    case None => None
    case Some(p16) => P24Of(c, p16, c8)
  }

  method P24Password(c: Crypto, pwd: JavaString, c8: Bytes) returns (r: Option<Bytes>)
    requires IsAscii(pwd)
    ensures r == LanManAsWritten(c, pwd, c8)
  {
    var p16 := P16(c, pwd, LmMagic);
    if p16.None? {
      // P24(null, c8) dereferences null inside its try block
      return None;
    }
    r := P24(c, p16.value, c8);
  }

  /** The third key reads bytes 14..20 of a 16-byte hash, so the result is always null. */
  lemma LanManAsWrittenIsNull(c: Crypto, pwd: JavaString, c8: Bytes)
    requires IsAscii(pwd)
    ensures LanManAsWritten(c, pwd, c8) == None
  {
  }

  /**
   * The LanMan response as intended: the 16-byte LanMan hash padded with
   * five zero bytes to the 21-byte secret that P24 expects.
   */
  function LanManOf(c: Crypto, pwd: JavaString, c8: Bytes): Option<Bytes>
    requires IsAscii(pwd)
  {
    P24Of(c, LmHash(c, pwd) + Pad5, c8)
  }

  /** A 16-byte hash written at the start of a fresh 21-byte array. */
  method Secret21(h: Bytes) returns (p21: Bytes)
    requires |h| == 16
    ensures p21 == h + Pad5
  {
    var a := new Byte[21](_ => 0);
    assert a[16..] == Pad5;
    ArrayCopy(h, a, 0);
    p21 := a[..];
  }

  method LanManResponse(c: Crypto, pwd: JavaString, c8: Bytes) returns (r: Option<Bytes>)
    requires IsAscii(pwd)
    ensures r == LanManOf(c, pwd, c8)
  {
    var p16 := P16(c, pwd, LmMagic);
    var p21 := Secret21(p16.value);
    r := P24(c, p21, c8);
  }

  // -----------------------------------------------------------------------
  // The MD4-based hashes
  // -----------------------------------------------------------------------

  /** The NTLM hash: MD4 of the UTF-16LE password. */
  function NtlmHash(c: Crypto, pwd: JavaString): Digest16 {
    c.md4(Utf16Le(pwd))
  }

  /** The 21-byte NTLMv1 secret: the NTLM hash followed by five zero bytes. */
  function NtlmSecret(c: Crypto, pwd: JavaString): (p21: Bytes)
    ensures |p21| == 21
  {
    NtlmHash(c, pwd) + Pad5
  }

  /** The UTF-16LE loop of the MD4 branch and of `generateSessionKey`. */
  method EncodeUtf16Le(pwd: JavaString) returns (pwdBytes: Bytes)
    ensures pwdBytes == Utf16Le(pwd)
  {
    var len := |pwd|;
    var a := new Byte[len * 2];
    for i := 0 to len
      invariant forall k :: 0 <= k < 2 * i ==> a[k] == Utf16LeByte(pwd, k)
    {
      var ch := pwd[i];
      a[i * 2] := LowByte(ch);
      a[i * 2 + 1] := HighByte(ch);
    }
    pwdBytes := a[..];
    forall k | 0 <= k < 2 * len
      ensures pwdBytes[k] == Utf16Le(pwd)[k]
    {
      Utf16LeAt(pwd, k);
    }
  }

  // -----------------------------------------------------------------------
  // generateEncryptedPassword
  // -----------------------------------------------------------------------

  /** The response for each selector; `None` where the Java code returns null. */
  function EncryptedPasswordOf(c: Crypto, plainPwd: Option<JavaString>, ch: Bytes, alg: int): Option<Bytes>
    requires alg == LANMAN ==> IsAscii(Pwd(plainPwd))
  {
    var pwd := Pwd(plainPwd);
    if alg == LANMAN then LanManOf(c, pwd, ch)
    else if alg == NTLM1 then P24Of(c, NtlmSecret(c, pwd), ch)
    else if alg == MD4 then Some(NtlmHash(c, pwd))
    else None
  }

  /**
   * `generateEncryptedPassword` as written: the LanMan selector goes through
   * the unpadded `P24(String, byte[])`; every other selector is as above.
   */
  function EncryptedPasswordAsWrittenOf(c: Crypto, plainPwd: Option<JavaString>, ch: Bytes, alg: int): (r: Option<Bytes>)
    requires alg == LANMAN ==> IsAscii(Pwd(plainPwd))
    ensures alg == LANMAN ==> r == None
    ensures alg != LANMAN ==> r == EncryptedPasswordOf(c, plainPwd, ch, alg)
  {
    if alg == LANMAN then LanManAsWritten(c, Pwd(plainPwd), ch)
    else EncryptedPasswordOf(c, plainPwd, ch, alg)
  }

  method GenerateEncryptedPassword(c: Crypto, plainPwd: Option<JavaString>, encryptKey: Bytes, alg: int)
    returns (encPwd: Option<Bytes>)
    requires alg == LANMAN ==> IsAscii(Pwd(plainPwd))
    ensures encPwd == EncryptedPasswordOf(c, plainPwd, encryptKey, alg)
  {
    var pwd := Pwd(plainPwd);
    encPwd := None;
    if alg == LANMAN {
      encPwd := LanManResponse(c, pwd, encryptKey);
    } else if alg == NTLM1 {
      var pwdBytes := Utf16Le(pwd);
      var p21 := Secret21(c.md4(pwdBytes));
      encPwd := P24(c, p21, encryptKey);
    } else if alg == NTLM2 {
    } else if alg == MD4 {
      var pwdBytes := EncodeUtf16Le(pwd);
      var out := new Byte[16](_ => 0);
      ArrayCopy(c.md4(pwdBytes), out, 0);
      assert out[..] == NtlmHash(c, pwd);
      encPwd := Some(out[..]);
    }
  }

  // -----------------------------------------------------------------------
  // generateSessionKey
  // -----------------------------------------------------------------------

  /** The NTLMv1 session key: MD4 of the NTLM hash, then the NTLMv1 response. */
  function SessionKeyOf(c: Crypto, plainPwd: Option<JavaString>, ch: Bytes, alg: int): Option<Bytes>
    requires alg == NTLM1 ==> |ch| >= 8
  {
    if alg != NTLM1 then None
    else Some(c.md4(NtlmHash(c, Pwd(plainPwd))) + EncryptedPasswordOf(c, plainPwd, ch, NTLM1).value)
  }

  /**
   * `generateSessionKey`. The source copies the NTLMv1 response without a
   * null check, so a challenge shorter than a DES block is the caller's
   * error (a NullPointerException escapes).
   */
  method GenerateSessionKey(c: Crypto, plainPwd: Option<JavaString>, encryptKey: Bytes, alg: int)
    returns (sessKey: Option<Bytes>)
    requires alg == NTLM1 ==> |encryptKey| >= 8
    ensures sessKey == SessionKeyOf(c, plainPwd, encryptKey, alg)
  {
    var pwd := Pwd(plainPwd);
    if alg != NTLM1 {
      return None;
    }
    // the loop reads plainPwd but runs |pwd| times, so never when plainPwd is null
    var pwdBytes := EncodeUtf16Le(pwd);
    var pt1 := c.md4(pwdBytes);
    var key := new Byte[40](_ => 0);
    ArrayCopy(c.md4(pt1), key, 0);
    assert key[..16] == c.md4(NtlmHash(c, pwd));
    var ntlmHash := GenerateEncryptedPassword(c, plainPwd, encryptKey, NTLM1);
    assert ntlmHash.value[..24] == ntlmHash.value;
    ArrayCopy(ntlmHash.value[..24], key, 16);
    assert key[..] == c.md4(NtlmHash(c, pwd)) + ntlmHash.value;
    sessKey := Some(key[..]);
  }

  // -----------------------------------------------------------------------
  // Properties
  // -----------------------------------------------------------------------

  /** Only the first 14 characters of a password reach the LanMan buffer. */
  lemma LmPasswordBufferTruncates(pwd: JavaString)
    requires IsAscii(pwd) && |pwd| > 14
    ensures LmPasswordBuffer(pwd) == LmPasswordBuffer(pwd[..14])
  {
    var a, b := LmPasswordBuffer(pwd), LmPasswordBuffer(pwd[..14]);
    assert forall i :: 0 <= i < 14 ==> a[i] as CodeUnit == b[i] as CodeUnit;
  }

  /** The LanMan buffer does not tell lower from upper case. */
  lemma LmPasswordBufferIgnoresCase(pwd: JavaString)
    requires IsAscii(pwd)
    ensures IsAscii(UpperCase(pwd))
    ensures LmPasswordBuffer(UpperCase(pwd)) == LmPasswordBuffer(pwd)
  {
    var a, b := LmPasswordBuffer(UpperCase(pwd)), LmPasswordBuffer(pwd);
    assert forall i :: 0 <= i < 14 ==> a[i] as CodeUnit == b[i] as CodeUnit;
  }

  /** P16: two DES blocks of the seed, under the keys from bytes 0..6 and 7..13 of the buffer. */
  lemma P16Layout(c: Crypto, pwd: JavaString, s8: Bytes)
    requires IsAscii(pwd)
    ensures P16Of(c, pwd, s8).Some? <==> |s8| >= 8
    ensures P16Of(c, pwd, s8).Some? ==>
      var r, p14 := P16Of(c, pwd, s8).value, LmPasswordBuffer(pwd);
      && |r| == 16
      && r[..8] == c.des(ExpandKey(p14[..7]), s8[..8])
      && r[8..] == c.des(ExpandKey(p14[7..]), s8[..8])
  {
    if |s8| >= 8 {
      var p14 := LmPasswordBuffer(pwd);
      assert p14[0..7] == p14[..7] && p14[7..14] == p14[7..];
    }
  }

  /** P24: three DES blocks of the challenge, under the keys from bytes 0..6, 7..13 and 14..20. */
  lemma P24Layout(c: Crypto, p21: Bytes, ch: Bytes)
    ensures P24Of(c, p21, ch).Some? <==> |p21| >= 21 && |ch| >= 8
    ensures P24Of(c, p21, ch).Some? ==>
      var r := P24Of(c, p21, ch).value;
      && |r| == 24
      && r[..8] == c.des(ExpandKey(p21[0..7]), ch[..8])
      && r[8..16] == c.des(ExpandKey(p21[7..14]), ch[..8])
      && r[16..] == c.des(ExpandKey(p21[14..21]), ch[..8])
  {
    if |p21| >= 21 && |ch| >= 8 {
      var r := P24Of(c, p21, ch).value;
      var b0: Bytes, b1: Bytes, b2: Bytes := c.des(KeyAt(p21, 0), ch[..8]), c.des(KeyAt(p21, 7), ch[..8]), c.des(KeyAt(p21, 14), ch[..8]);
      assert r == b0 + b1 + b2;
      assert r[..8] == b0 && r[8..16] == b1 && r[16..] == b2;
    }
  }

  /** P24 reads 21 bytes of the secret and 8 bytes of the challenge; the rest is ignored. */
  lemma P24IgnoresExtraBytes(c: Crypto, p21: Bytes, ch: Bytes)
    requires |p21| >= 21 && |ch| >= 8
    ensures P24Of(c, p21, ch) == P24Of(c, p21[..21], ch[..8])
  {
    var q := p21[..21];
    assert q[0..7] == p21[0..7] && q[7..14] == p21[7..14] && q[14..21] == p21[14..21];
    assert ch[..8][..8] == ch[..8];
  }

  /** P24 of a 16-byte hash padded with five zeros: its third key comes from bytes 14 and 15 only. */
  lemma PaddedSecretLayout(c: Crypto, h: Bytes, ch: Bytes)
    requires |h| == 16
    ensures P24Of(c, h + Pad5, ch).Some? <==> |ch| >= 8
    ensures P24Of(c, h + Pad5, ch).Some? ==>
      var r := P24Of(c, h + Pad5, ch).value;
      && |r| == 24
      && r[..8] == c.des(ExpandKey(h[0..7]), ch[..8])
      && r[8..16] == c.des(ExpandKey(h[7..14]), ch[..8])
      && r[16..] == c.des(ExpandKey([h[14], h[15], 0, 0, 0, 0, 0]), ch[..8])
  {
    var p21 := h + Pad5;
    P24Layout(c, p21, ch);
    assert p21[0..7] == h[0..7] && p21[7..14] == h[7..14];
    assert p21[14..21] == [h[14], h[15], 0, 0, 0, 0, 0];
  }

  /** The LanMan hash of a password: the "KGS!@#$%" block under both buffer keys. */
  lemma LmHashLayout(c: Crypto, pwd: JavaString)
    requires IsAscii(pwd)
    ensures var h, p14 := LmHash(c, pwd), LmPasswordBuffer(pwd);
      && h[..8] == c.des(ExpandKey(p14[..7]), LmMagic)
      && h[8..] == c.des(ExpandKey(p14[7..]), LmMagic)
  {
    P16Layout(c, pwd, LmMagic);
    assert LmMagic[..8] == LmMagic;
  }

  /**
   * The intended LanMan response: 24 bytes whose first two blocks use the
   * keys from bytes 0..13 of the LanMan hash and whose last block uses the
   * key from its bytes 14 and 15 followed by five zero bytes.
   */
  lemma LanManLayout(c: Crypto, pwd: JavaString, ch: Bytes)
    requires IsAscii(pwd)
    ensures LanManOf(c, pwd, ch).Some? <==> |ch| >= 8
    ensures LanManOf(c, pwd, ch).Some? ==>
      var r, h := LanManOf(c, pwd, ch).value, LmHash(c, pwd);
      && |r| == 24
      && r[..8] == c.des(ExpandKey(h[0..7]), ch[..8])
      && r[8..16] == c.des(ExpandKey(h[7..14]), ch[..8])
      && r[16..] == c.des(ExpandKey([h[14], h[15], 0, 0, 0, 0, 0]), ch[..8])
  {
    PaddedSecretLayout(c, LmHash(c, pwd), ch);
  }

  /** Two passwords that agree on their first 14 characters, ignoring case, give one response. */
  lemma LanManFirst14IgnoringCase(c: Crypto, pwd: JavaString, ch: Bytes)
    requires IsAscii(pwd)
    ensures IsAscii(UpperCase(pwd)) && LanManOf(c, UpperCase(pwd), ch) == LanManOf(c, pwd, ch)
    ensures |pwd| > 14 ==> LanManOf(c, pwd[..14], ch) == LanManOf(c, pwd, ch)
  {
    LmPasswordBufferIgnoresCase(pwd);
    if |pwd| > 14 {
      LmPasswordBufferTruncates(pwd);
    }
  }

  /** As written the LanMan path never yields a response; the padded version always does for a full challenge. */
  lemma LanManAsWrittenDiffers(c: Crypto, pwd: JavaString, c8: Bytes)
    requires IsAscii(pwd) && |c8| >= 8
    ensures LanManAsWritten(c, pwd, c8) == None
    ensures LanManOf(c, pwd, c8).Some? && |LanManOf(c, pwd, c8).value| == 24
  {
    LanManAsWrittenIsNull(c, pwd, c8);
    LanManLayout(c, pwd, c8);
  }

  /**
   * The NTLMv1 response: the 21-byte secret is the MD4 hash of the UTF-16LE
   * password followed by exactly five zero bytes, and the response is P24 of it.
   */
  lemma Ntlm1Layout(c: Crypto, plainPwd: Option<JavaString>, ch: Bytes)
    ensures var s := NtlmSecret(c, Pwd(plainPwd));
      s[..16] == c.md4(Utf16Le(Pwd(plainPwd))) && s[16..] == [0, 0, 0, 0, 0]
    ensures EncryptedPasswordOf(c, plainPwd, ch, NTLM1).Some? <==> |ch| >= 8
    ensures EncryptedPasswordOf(c, plainPwd, ch, NTLM1).Some? ==>
      var r, h := EncryptedPasswordOf(c, plainPwd, ch, NTLM1).value, c.md4(Utf16Le(Pwd(plainPwd)));
      && |r| == 24
      && r[..8] == c.des(ExpandKey(h[0..7]), ch[..8])
      && r[8..16] == c.des(ExpandKey(h[7..14]), ch[..8])
      && r[16..] == c.des(ExpandKey([h[14], h[15], 0, 0, 0, 0, 0]), ch[..8])
  {
    PaddedSecretLayout(c, NtlmHash(c, Pwd(plainPwd)), ch);
  }

  /**
   * The MD4 selector: the MD4 hash of the 2 * len bytes in which byte 2i is
   * the low half and byte 2i + 1 the high half of character i; the challenge
   * plays no part.
   */
  lemma Md4Response(c: Crypto, plainPwd: Option<JavaString>, ch: Bytes, other: Bytes, b: Bytes)
    requires |b| == 2 * |Pwd(plainPwd)|
    requires forall i :: 0 <= i < |Pwd(plainPwd)| ==>
      b[2 * i] == LowByte(Pwd(plainPwd)[i]) && b[2 * i + 1] == HighByte(Pwd(plainPwd)[i])
    ensures EncryptedPasswordOf(c, plainPwd, ch, MD4) == Some(c.md4(b))
    ensures EncryptedPasswordOf(c, plainPwd, other, MD4) == EncryptedPasswordOf(c, plainPwd, ch, MD4)
    ensures |EncryptedPasswordOf(c, plainPwd, ch, MD4).value| == 16
  {
    Utf16LeUnique(Pwd(plainPwd), b);
  }

  /**
   * `generateEncryptedPassword` is null exactly for NTLMv2, for selectors
   * outside 0..3 and for a challenge shorter than a DES block on the two
   * DES-based paths; otherwise its length is 24 (LanMan, NTLMv1) or 16 (MD4).
   */
  lemma EncryptedPasswordResults(c: Crypto, plainPwd: Option<JavaString>, ch: Bytes, alg: int)
    requires alg == LANMAN ==> IsAscii(Pwd(plainPwd))
    ensures EncryptedPasswordOf(c, plainPwd, ch, alg) == None <==>
      alg == NTLM2 || !(0 <= alg < 4) || ((alg == LANMAN || alg == NTLM1) && |ch| < 8)
    ensures EncryptedPasswordOf(c, plainPwd, ch, alg).Some? ==>
      |EncryptedPasswordOf(c, plainPwd, ch, alg).value| == if alg == MD4 then 16 else 24
  {
    if alg == LANMAN {
      LanManLayout(c, Pwd(plainPwd), ch);
    } else if alg == NTLM1 {
      Ntlm1Layout(c, plainPwd, ch);
    }
  }

  /**
   * As written, `generateEncryptedPassword` is null exactly for LanMan,
   * NTLMv2, selectors outside 0..3 and a short challenge on NTLMv1.
   */
  lemma EncryptedPasswordAsWrittenResults(c: Crypto, plainPwd: Option<JavaString>, ch: Bytes, alg: int)
    requires alg == LANMAN ==> IsAscii(Pwd(plainPwd))
    ensures EncryptedPasswordAsWrittenOf(c, plainPwd, ch, alg) == None <==>
      alg == LANMAN || alg == NTLM2 || !(0 <= alg < 4) || (alg == NTLM1 && |ch| < 8)
  {
    if alg == LANMAN {
      LanManAsWrittenIsNull(c, Pwd(plainPwd), ch);
    } else {
      EncryptedPasswordResults(c, plainPwd, ch, alg);
    }
  }

  /** A null password behaves as the empty one, for both operations and every selector. */
  lemma NullPasswordIsEmpty(c: Crypto, ch: Bytes, alg: int)
    ensures alg != LANMAN ==> EncryptedPasswordOf(c, None, ch, alg) == EncryptedPasswordOf(c, Some([]), ch, alg)
    ensures alg == LANMAN ==> IsAscii(Pwd(None)) && EncryptedPasswordOf(c, None, ch, alg) == EncryptedPasswordOf(c, Some([]), ch, alg)
    ensures alg == NTLM1 && |ch| >= 8 ==> SessionKeyOf(c, None, ch, alg) == SessionKeyOf(c, Some([]), ch, alg)
  {
  }

  /**
   * The NTLMv1 session key: 40 bytes, MD4 of the NTLM hash in bytes 0..15
   * and the NTLMv1 response in bytes 16..39; null for every other selector.
   */
  lemma SessionKeyLayout(c: Crypto, plainPwd: Option<JavaString>, ch: Bytes, alg: int)
    requires alg == NTLM1 ==> |ch| >= 8
    ensures SessionKeyOf(c, plainPwd, ch, alg).Some? <==> alg == NTLM1
    ensures alg == NTLM1 ==>
      var k := SessionKeyOf(c, plainPwd, ch, alg).value;
      && |k| == 40
      && k[..16] == c.md4(c.md4(Utf16Le(Pwd(plainPwd))))
      && Some(k[16..]) == EncryptedPasswordOf(c, plainPwd, ch, NTLM1)
  {
    if alg == NTLM1 {
      Ntlm1Layout(c, plainPwd, ch);
      var k := SessionKeyOf(c, plainPwd, ch, alg).value;
      var r := EncryptedPasswordOf(c, plainPwd, ch, NTLM1).value;
      assert k == c.md4(c.md4(Utf16Le(Pwd(plainPwd)))) + r;
      assert k[16..] == r;
    }
  }
}
