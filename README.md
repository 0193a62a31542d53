# J2ME password encryptor: LanMan and NTLMv1 responses

This project models `J2MEPasswordEncryptor`, the Alfresco JLAN client class that computes the password responses of the SMB session setup. It covers:

- the LanMan response (LMOWFv1 hash and DESL, sections 3.3.1 and 6 of [MS-NLMP]);
- the NTLMv1 response;
- the raw MD4 hash of the password;
- the NTLMv1 session key;
- the algorithm name table.

The model has four modules:

- `JavaText` fixes Java's value types. A `byte` is `bv8`, a `char` is a 16-bit code unit and a `String` is a sequence of code units. It defines the two password encodings the class uses: UTF-16 little endian, and upper-cased ASCII with one byte per character.
- `KeyExpansion` models `generateKey`. It is the imperative method `GenerateKey`, which fills an 8-byte array with the eight Java formulas and shifts each byte left in a loop. That method is proved equal to `ExpandKey`, the specification that cuts the 56 bits of a 7-byte window into eight 7-bit groups. The inverse `CompressKey` gives the round trips and injectivity.
- `Primitives` holds the two block primitives. DES (FIPS 46-3, Bouncy Castle `DESEngine`) and MD4 (RFC 1320, `MD4Digest`) are a `Crypto` value passed to every operation. Each is a function with the right shape: 8-byte key and block to 8-byte block, and bytes to 16-byte digest. Nothing is assumed about what they compute.
- `PasswordEncryptor` holds the rest. `P16`, both `P24` overloads, `generateEncryptedPassword`, `generateSessionKey` and the loops and array writes inside them are methods over arrays. Each method is proved equal to a specification function: `P16` to `P16Of`, `P24` (over bytes) to `P24Of`, `P24Password` (`P24(String, byte[])` as written) to `LanManAsWritten`, `GenerateEncryptedPassword` to `EncryptedPasswordOf` and `GenerateSessionKey` to `SessionKeyOf`. `LanManResponse`, not a method of the source, is the corrected LanMan path; it is proved equal to `LanManOf`. The lemmas state the byte layout those functions promise.

The LanMan branch as written never produces a response (see "## Findings"). The model keeps that path as `P24Password`, while `GenerateEncryptedPassword` uses the corrected `LanManResponse`.

In the model, Java `null` is `None`: for the password argument, and for the results of `P16` and `P24`, which catch every exception and return null. Those catches cover:

- a secret too short for a key, which throws ArrayIndexOutOfBounds;
- a challenge or seed shorter than one DES block, which makes `DESEngine` throw `DataLengthException`.

## Model

| member | source | states |
|---|---|---|
| `JavaText.Utf16Le` | alfresco-jlan/source/extras/org/alfresco/jlan/client/j2me/J2MEPasswordEncryptor.java:126-133 | the UTF-16LE encoding has two bytes per code unit |
| `JavaText.Utf16LeUnique` | alfresco-jlan/source/extras/org/alfresco/jlan/client/j2me/J2MEPasswordEncryptor.java:129-133 | any byte array laid out as the loop fills it (byte 2i the low half, byte 2i+1 the high half of char i) is the UTF-16LE encoding |
| `JavaText.Utf16LeRoundTrip` | alfresco-jlan/source/extras/org/alfresco/jlan/client/j2me/J2MEPasswordEncryptor.java:129-133 | decoding the byte pairs gives the password back |
| `JavaText.Utf16LeInjective` | alfresco-jlan/source/extras/org/alfresco/jlan/client/j2me/J2MEPasswordEncryptor.java:129-133 | different passwords have different encodings |
| `JavaText.AsciiUpper` | alfresco-jlan/source/extras/org/alfresco/jlan/client/j2me/J2MEPasswordEncryptor.java:220 | no lower-case 'a'..'z' is left in the result, and an ASCII character stays ASCII (under a locale without special case rules, see "## Left out") |
| `JavaText.AsciiUpperIdempotent` | alfresco-jlan/source/extras/org/alfresco/jlan/client/j2me/J2MEPasswordEncryptor.java:220 | upper-casing twice is upper-casing once |
| `JavaText.UpperCase` | alfresco-jlan/source/extras/org/alfresco/jlan/client/j2me/J2MEPasswordEncryptor.java:220 | upper-casing keeps the length and maps each character by itself |
| `JavaText.AsciiBytes` | alfresco-jlan/source/extras/org/alfresco/jlan/client/j2me/J2MEPasswordEncryptor.java:229 | `getBytes()` of an ASCII string has one byte per character, equal to it |
| `KeyExpansion.ExpandKey` | alfresco-jlan/source/extras/org/alfresco/jlan/client/j2me/J2MEPasswordEncryptor.java:362-384 | the key has 8 bytes, each with bit 0 clear; key[0] is byte 0 with bit 0 cleared and key[7] is the low 7 bits of byte 6 shifted up |
| `KeyExpansion.SecretIsKeyBits` | alfresco-jlan/source/extras/org/alfresco/jlan/client/j2me/J2MEPasswordEncryptor.java:370-381 | bits 7..1 of the 8 key bytes, read in order, are the 56 bits of the 7 input bytes |
| `KeyExpansion.CompressExpand` | alfresco-jlan/source/extras/org/alfresco/jlan/client/j2me/J2MEPasswordEncryptor.java:370-381 | compressing the expanded key gives back the 7-byte window |
| `KeyExpansion.ExpandCompress` | alfresco-jlan/source/extras/org/alfresco/jlan/client/j2me/J2MEPasswordEncryptor.java:370-381 | every 8-byte key with its parity bits clear is the expansion of the window it compresses to |
| `KeyExpansion.ExpandKeyInjective` | alfresco-jlan/source/extras/org/alfresco/jlan/client/j2me/J2MEPasswordEncryptor.java:362-384 | different windows expand to different keys |
| `KeyExpansion.KeyAtReadsWindow` | alfresco-jlan/source/extras/org/alfresco/jlan/client/j2me/J2MEPasswordEncryptor.java:370-377 | the key depends only on bytes off..off+6 |
| `KeyExpansion.SignedShiftRight1` | alfresco-jlan/source/extras/org/alfresco/jlan/client/j2me/J2MEPasswordEncryptor.java:370 | Java's signed `>> 1` of byte 0 keeps the sign bit, and the left shift at line 380 removes it again: the result shifted left is the byte with bit 0 cleared |
| `KeyExpansion.PreShift` | alfresco-jlan/source/extras/org/alfresco/jlan/client/j2me/J2MEPasswordEncryptor.java:370-381 | key bytes 1..7 as the eight formulas give them fit in 7 bits, and each formula shifted left by one is the matching byte of the expanded key |
| `KeyExpansion.GenerateKey` | alfresco-jlan/source/extras/org/alfresco/jlan/client/j2me/J2MEPasswordEncryptor.java:362-384 | the array filled by the formulas and shifted in place is the expansion of `byt[off..off+7]`, given `off + 7 <= |byt|` |
| `PasswordEncryptor.Pwd` | alfresco-jlan/source/extras/org/alfresco/jlan/client/j2me/J2MEPasswordEncryptor.java:72-74 | a null password is read as "", any other password as itself |
| `PasswordEncryptor.GetAlgorithmName` | alfresco-jlan/source/extras/org/alfresco/jlan/client/j2me/J2MEPasswordEncryptor.java:349-353 | 0..3 name "LanMan", "NTLMv1", "NTLMv2", "MD4"; the result is "Unknown" exactly when the selector is outside 0..3 |
| `PasswordEncryptor.ArrayCopy` | alfresco-jlan/source/extras/org/alfresco/jlan/client/j2me/J2MEPasswordEncryptor.java:196 | the copied bytes land at the offset and the rest of the destination is unchanged |
| `PasswordEncryptor.LmPasswordBuffer` | alfresco-jlan/source/extras/org/alfresco/jlan/client/j2me/J2MEPasswordEncryptor.java:219-229 | the buffer has 14 bytes: byte i is the upper-cased character i of the password, or 0 past its end |
| `PasswordEncryptor.LmPasswordBytes` | alfresco-jlan/source/extras/org/alfresco/jlan/client/j2me/J2MEPasswordEncryptor.java:219-229 | the string buffer, cut with `setLength(14)` and padded by the NUL loop, gives that buffer |
| `PasswordEncryptor.LmPasswordBufferTruncates` | alfresco-jlan/source/extras/org/alfresco/jlan/client/j2me/J2MEPasswordEncryptor.java:221-222 | characters after the 14th do not reach the buffer |
| `PasswordEncryptor.LmPasswordBufferIgnoresCase` | alfresco-jlan/source/extras/org/alfresco/jlan/client/j2me/J2MEPasswordEncryptor.java:220 | a password and its upper-cased form give the same buffer |
| `PasswordEncryptor.P16` | alfresco-jlan/source/extras/org/alfresco/jlan/client/j2me/J2MEPasswordEncryptor.java:213-262 | the method writing two DES blocks at offsets 0 and 8 returns `P16Of`, null for a seed shorter than 8 bytes |
| `PasswordEncryptor.P16Layout` | alfresco-jlan/source/extras/org/alfresco/jlan/client/j2me/J2MEPasswordEncryptor.java:232-257 | the result exists exactly when the seed has 8 bytes; it is 16 bytes, DES of the seed under the key from buffer bytes 0..6, then under the key from bytes 7..13 |
| `PasswordEncryptor.P24` | alfresco-jlan/source/extras/org/alfresco/jlan/client/j2me/J2MEPasswordEncryptor.java:294-341 | the method writing three blocks at offsets 0, 8 and 16 returns `P24Of`, null where a key or a block would be read past the end |
| `PasswordEncryptor.P24Layout` | alfresco-jlan/source/extras/org/alfresco/jlan/client/j2me/J2MEPasswordEncryptor.java:299-336 | the result exists exactly when the secret has 21 bytes and the challenge 8; block i, at offset 8i, is DES of the challenge under the key from secret bytes 7i..7i+6 |
| `PasswordEncryptor.P24IgnoresExtraBytes` | alfresco-jlan/source/extras/org/alfresco/jlan/client/j2me/J2MEPasswordEncryptor.java:311-331 | only the first 21 secret bytes and the first 8 challenge bytes matter |
| `PasswordEncryptor.PaddedSecretLayout` | alfresco-jlan/source/extras/org/alfresco/jlan/client/j2me/J2MEPasswordEncryptor.java:106-111 | for a 16-byte hash followed by five zeros, the third key comes from hash bytes 14 and 15 and five zero bytes |
| `PasswordEncryptor.LmHash` | alfresco-jlan/source/extras/org/alfresco/jlan/client/j2me/J2MEPasswordEncryptor.java:278-279 | the LanMan hash of any ASCII password has 16 bytes |
| `PasswordEncryptor.LmHashLayout` | alfresco-jlan/source/extras/org/alfresco/jlan/client/j2me/J2MEPasswordEncryptor.java:278-279 | the hash is "KGS!@#$%" under buffer key 0..6, then under buffer key 7..13 |
| `PasswordEncryptor.LanManAsWritten` | alfresco-jlan/source/extras/org/alfresco/jlan/client/j2me/J2MEPasswordEncryptor.java:272-284 | as written, the LanMan response exists exactly when the LanMan hash has 21 bytes and the challenge 8 |
| `PasswordEncryptor.P24Password` | alfresco-jlan/source/extras/org/alfresco/jlan/client/j2me/J2MEPasswordEncryptor.java:272-284 | `P24(String, byte[])` as written is P24 of the 16-byte hash itself |
| `PasswordEncryptor.LanManAsWrittenIsNull` | alfresco-jlan/source/extras/org/alfresco/jlan/client/j2me/J2MEPasswordEncryptor.java:283 | as written, that result is null for every password and challenge |
| `PasswordEncryptor.Secret21` | alfresco-jlan/source/extras/org/alfresco/jlan/client/j2me/J2MEPasswordEncryptor.java:106-107 | a 16-byte digest written into a fresh 21-byte array leaves five trailing zeros |
| `PasswordEncryptor.LanManResponse` | alfresco-jlan/source/extras/org/alfresco/jlan/client/j2me/J2MEPasswordEncryptor.java:272-284 | the corrected LanMan path returns `LanManOf`: P24 of the hash padded to 21 bytes |
| `PasswordEncryptor.LanManLayout` | alfresco-jlan/source/extras/org/alfresco/jlan/client/j2me/J2MEPasswordEncryptor.java:87-89 | the corrected LanMan response exists exactly for an 8-byte challenge; it is 24 bytes, with blocks under the keys from hash bytes 0..6, 7..13, and 14, 15 plus five zeros |
| `PasswordEncryptor.LanManFirst14IgnoringCase` | alfresco-jlan/source/extras/org/alfresco/jlan/client/j2me/J2MEPasswordEncryptor.java:219-222 | the LanMan response ignores case and everything after the 14th character |
| `PasswordEncryptor.LanManAsWrittenDiffers` | alfresco-jlan/source/extras/org/alfresco/jlan/client/j2me/J2MEPasswordEncryptor.java:279-283 | for every 8-byte challenge, the as-written path gives null while the corrected one gives 24 bytes |
| `PasswordEncryptor.NtlmSecret` | alfresco-jlan/source/extras/org/alfresco/jlan/client/j2me/J2MEPasswordEncryptor.java:106-107 | the NTLMv1 secret has 21 bytes |
| `PasswordEncryptor.EncodeUtf16Le` | alfresco-jlan/source/extras/org/alfresco/jlan/client/j2me/J2MEPasswordEncryptor.java:126-133 | the loop filling bytes 2i and 2i+1 from char i produces the UTF-16LE encoding |
| `PasswordEncryptor.GenerateEncryptedPassword` | alfresco-jlan/source/extras/org/alfresco/jlan/client/j2me/J2MEPasswordEncryptor.java:67-144 | the switch returns `EncryptedPasswordOf` for every selector, with null read as ""; on LanMan this is the corrected response (see "## Left out") |
| `PasswordEncryptor.EncryptedPasswordAsWrittenOf` | alfresco-jlan/source/extras/org/alfresco/jlan/client/j2me/J2MEPasswordEncryptor.java:83-139 | as written, the switch is null on LanMan (lines 87-88) and gives the corrected result on every other selector |
| `PasswordEncryptor.Ntlm1Layout` | alfresco-jlan/source/extras/org/alfresco/jlan/client/j2me/J2MEPasswordEncryptor.java:93-112 | the secret is MD4 of the UTF-16LE password followed by exactly five zero bytes; the response exists exactly for an 8-byte challenge and is its 24-byte P24 |
| `PasswordEncryptor.Md4Response` | alfresco-jlan/source/extras/org/alfresco/jlan/client/j2me/J2MEPasswordEncryptor.java:121-138 | the MD4 selector gives the 16-byte MD4 of the 2·len bytes laid out low half, high half per character; the challenge plays no part |
| `PasswordEncryptor.EncryptedPasswordResults` | alfresco-jlan/source/extras/org/alfresco/jlan/client/j2me/J2MEPasswordEncryptor.java:83-143 | with the corrected LanMan path, the result is null exactly for NTLMv2, selectors outside 0..3 and a short challenge on the DES paths; otherwise it has 24 bytes (LanMan, NTLMv1) or 16 (MD4) |
| `PasswordEncryptor.EncryptedPasswordAsWrittenResults` | alfresco-jlan/source/extras/org/alfresco/jlan/client/j2me/J2MEPasswordEncryptor.java:83-143 | as written, the result is null exactly for LanMan, NTLMv2, selectors outside 0..3 and a short challenge on NTLMv1 |
| `PasswordEncryptor.NullPasswordIsEmpty` | alfresco-jlan/source/extras/org/alfresco/jlan/client/j2me/J2MEPasswordEncryptor.java:72-74 | a null password gives the same response and session key as "" |
| `PasswordEncryptor.GenerateSessionKey` | alfresco-jlan/source/extras/org/alfresco/jlan/client/j2me/J2MEPasswordEncryptor.java:155-203 | filling the 40-byte array with the double MD4 and copying the response to offset 16 gives `SessionKeyOf` |
| `PasswordEncryptor.SessionKeyLayout` | alfresco-jlan/source/extras/org/alfresco/jlan/client/j2me/J2MEPasswordEncryptor.java:167-202 | for NTLMv1 the key is 40 bytes: bytes 0..15 are MD4(MD4(UTF-16LE password)) and bytes 16..39 are exactly the NTLMv1 response; every other selector gives null |

## Left out

- DES and MD4 internals: they are Bouncy Castle code, not part of this model. They are the `Crypto` parameter, with only their shapes.
- `LmPasswordBuffer`, `P16`, `LanManResponse` and `GenerateEncryptedPassword` on LanMan require an ASCII password. `String.toUpperCase()` at line 220 and `getBytes()` at lines 229 and 278 depend on the default locale and charset. Outside ASCII they can change the length.
- `AsciiUpper` assumes a default locale without special case rules and an ASCII-compatible default charset. Under a Turkish or Azeri locale, `"i".toUpperCase()` gives U+0130, which is not ASCII.
- `GenerateEncryptedPassword` and `EncryptedPasswordResults` take the LanMan case from the corrected `LanManResponse`. The public method as written returns null there for every input; that behaviour is `EncryptedPasswordAsWrittenOf` with `EncryptedPasswordAsWrittenResults`.
- `EncodeUtf16Le` and `GenerateSessionKey` do not model Java `int` overflow. For a password of 2^30 or more code units, `len * 2` (line 127) and `pwd.length() * 2` (line 175) overflow, and a NegativeArraySizeException escapes. The model still returns a digest there.
- Surrogate pairs: `getBytes("UnicodeLittleUnmarked")` at line 100 is modelled as the per-code-unit loop of lines 129-133. The two differ only on unpaired surrogates, which are not modelled.
- The swallowed `UnsupportedEncodingException` (lines 102-103) and `printStackTrace` (line 334): the encoding always exists, and printing is output only.
- `GenerateSessionKey` requires a challenge of at least 8 bytes for NTLMv1. With a shorter one, the response is null and `System.arraycopy` at line 196 throws an uncaught NullPointerException.
- Null byte arrays for the challenge or the seed are not modelled. A Java `byte[]` argument is always a sequence.
- `P16` takes a non-null password. The Java method is public, and `pwd.toUpperCase()` at line 220 runs outside the try at line 232, so `P16(null, s8)` throws an uncaught NullPointerException.
- `LmPasswordBytes`: `p14str.toString()` and the StringBuffer object are modelled as one string value rebuilt at each step.
- NTLMv2: the source only returns null for it. This is modelled, and there is nothing more.
- The base class `PasswordEncryptor` is not part of this model. The class has no state, so its methods are module-level members.
- `LockManager.java` (an interface with no behaviour) and `TooManyConnectionsException.java` (constructors only) are not part of this model.
- The exception objects of the caught failure paths (lines 255-257, 333-336) are not modelled. Only their result, null, is.

## Findings

| source | as written | input that shows it | evidently intended | confidence | as-written member | corrected member |
|---|---|---|---|---|---|---|
| alfresco-jlan/source/extras/org/alfresco/jlan/client/j2me/J2MEPasswordEncryptor.java:283 | `P24(String, byte[])` passes the 16-byte LanMan hash to `P24(byte[], byte[])`. Its third `generateKey(p21, 14)` reads bytes 16..20, throws ArrayIndexOutOfBounds inside the try, and the method returns null. So LANMAN never yields a response. | password "" with an 8-byte all-zero challenge (any ASCII password and any challenge) | pad the hash with five zero bytes to the 21-byte secret, as the NTLMv1 branch does at lines 106-107 and as DESL in section 6 of [MS-NLMP] requires | not executed | `PasswordEncryptor.LanManAsWrittenIsNull` | `PasswordEncryptor.LanManResponse` |
