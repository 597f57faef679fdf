/**
 * The primitives the file and onion code calls. SHA-256 and AES-GCM are functions of a
 * Crypto value; the laws a result needs are predicates on it.
 */
module Primitives {
  import opened Basics

  type Bytes = seq<bv8>

  datatype Crypto = Crypto(
    sha256: Bytes -> Bytes,
    encrypt: (Bytes, Bytes, Bytes) -> Bytes,
    decrypt: (Bytes, Bytes, Bytes) -> Option<Bytes>)
  {
    ghost predicate DecryptUndoesEncrypt() {
      forall key, nonce, plain :: decrypt(key, nonce, encrypt(key, nonce, plain)) == Some(plain)
    }

    /** AES-GCM appends a 16-byte tag. */
    ghost predicate TagIs16Bytes() {
      forall key, nonce, plain :: |encrypt(key, nonce, plain)| == |plain| + 16
    }

    ghost predicate DigestsAre32Bytes() { forall a :: |sha256(a)| == 32 }

    ghost predicate HashInjective() {
      forall a, b :: sha256(a) == sha256(b) ==> a == b
    }
  }
}
