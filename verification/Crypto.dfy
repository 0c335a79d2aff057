/** The cryptographic primitives, as function values of which only the laws used are known. */
module Crypto {
  import opened Octets
  import Envelope

  type Digest = b: Bytes | |b| == 32 witness seq(32, _ => 0)
  type Address = b: Bytes | |b| == 16 witness seq(16, _ => 0)
  type Signature = b: Bytes | |b| == 64 witness seq(64, _ => 0)
  type Derived = b: Bytes | |b| == 256 witness seq(256, _ => 0)

  datatype Secret = Secret(seed: Bytes)
  datatype Public = Public(point: Bytes)

  /** `encrypt` takes the recipient, the randomness it draws and the plaintext. */
  datatype Suite = Suite(
    sha256: Bytes -> Digest,
    hkdf: (Bytes, Bytes) -> Derived,
    public: Secret -> Public,
    sign: (Secret, Bytes) -> Signature,
    verify: (Public, Bytes, Signature) -> bool,
    encrypt: (Public, Bytes, Bytes) -> Option<Bytes>,
    decrypt: (Secret, Bytes) -> Option<Bytes>)

  /** Signatures made with a key verify under its public half. */
  ghost predicate SignaturesVerify(c: Suite) {
    forall key, text :: c.verify(c.public(key), text, c.sign(key, text))
  }

  /** Decryption undoes encryption, where that succeeds; a ciphertext is an ephemeral key followed
      by a padded token. */
  ghost predicate DecryptsOwn(c: Suite) {
    forall key, random, text ::
      var sealed := c.encrypt(c.public(key), random, text);
      sealed.Some? ==> c.decrypt(key, sealed.value) == Some(text)
                       && |sealed.value| == 32 + Envelope.TokenLength(|text|)
  }

  /** The first half of the digest, as addresses and ticket stamps use it. */
  function TruncatedHash(c: Suite, text: Bytes): Address {
    c.sha256(text)[..16]
  }
}
