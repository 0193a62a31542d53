/**
 * The two block primitives the encryptor borrows from Bouncy Castle:
 * single-block DES encryption (FIPS 46-3, `DESEngine`) and the MD4 digest
 * (RFC 1320, `MD4Digest`). Their internals are not part of this model; a
 * `Crypto` value stands for any pair of functions with their shapes, and
 * every property of the encryptor is proved for all of them.
 */
module Primitives {
  import opened JavaText

  /** Eight bytes: a DES key or a DES block. */
  type Block8 = s: Bytes | |s| == 8 witness [0, 0, 0, 0, 0, 0, 0, 0]

  type Digest16 = s: Bytes | |s| == 16 witness [0, 0, 0, 0, 0, 0, 0, 0, 0, 0, 0, 0, 0, 0, 0, 0]

  datatype Crypto = Crypto(
    /** `des(key, block)`: DES-encrypt one 8-byte block under an 8-byte key. */
    des: (Block8, Block8) -> Block8,
    /** `md4(data)`: the 16-byte MD4 digest of the data. */
    md4: Bytes -> Digest16)
}
