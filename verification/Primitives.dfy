/** The cryptographic library calls of both programs, as parameters of the model.

    Nothing is assumed of them beyond their output lengths and the one algebraic law of
    Diffie-Hellman (section 6.1 of RFC 7748).  The keystream is indexed by key, nonce and
    position, which is all that section 2.4 of RFC 8439 fixes about its use. */
module Primitives {
  import opened Bytes

  /** What `Signature::try_from` followed by `VerifyingKey::verify` can answer. */
  datatype SigVerdict = Malformed | Invalid | Genuine

  datatype Primitives = Primitives(
    pub: bytes -> bytes,
    dh: (bytes, bytes) -> bytes,
    keystream: (bytes, bytes, nat) -> byte,
    argon2Fails: bytes -> bool,
    argon2: bytes -> bytes,
    blake2s: (bytes, bytes) -> bytes,
    checkSig: (bytes, bytes) -> SigVerdict)
  {
    ghost predicate Valid() {
      && (forall a :: |pub(a)| == 32)
      && (forall a, b :: dh(a, pub(b)) == dh(b, pub(a)))
      && (forall p :: |argon2(p)| == 32)
      && (forall cdi, h :: |blake2s(cdi, h)| == 32)
    }

    /** The keyfile that a passphrase stands for on a device with this CDI. */
    function Keyfile(cdi: bytes, pass: bytes): bytes {
      blake2s(cdi, argon2(pass))
    }
  }
}
