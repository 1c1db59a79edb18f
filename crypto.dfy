/** The cryptographic primitives the security manager calls through the
    platform: PBKDF2 key derivation (section 5.2 of RFC 8018), AES-GCM
    authenticated encryption (NIST SP 800-38D) and the SHA-256 checksum
    (FIPS 180-4). They are symbolic: what is modelled is the one property the
    managers rely on, that opening a sealed value with the key and iv it was
    sealed with gives back the plaintext and that any other key fails. */
module Crypto {
  import opened Values

  /** PBKDF2-SHA256 with 310000 iterations and a 256-bit AES-GCM output,
      non-extractable: the result is an opaque handle. */
  const Pbkdf2Iterations: int := 310000

  function Pbkdf2(pin: string, salt: seq<bv8>): Key
  {
    Key(pin, salt)
  }

  /** AES-GCM encryption of the JSON text of `plain`. */
  function AesGcmEncrypt(key: Key, iv: seq<bv8>, plain: Json): Json
  {
    JSealed(key, iv, plain)
  }

  /** AES-GCM decryption followed by UTF-8 decoding and `JSON.parse`. It fails
      (the platform throws) when the iv is empty, when the input is not a
      ciphertext, or when the authentication tag does not verify, which is
      the case for any key or iv other than the ones used to seal it. */
  function AesGcmDecrypt(key: Key, iv: seq<bv8>, ciphertext: Option<Json>): Option<Json>
  {
    if |iv| == 0 then None
    else match ciphertext
      case Some(JSealed(k, v, plain)) => if k == key && v == iv then Some(plain) else None
      case _ => None
  }

  /** `calculateChecksum` / `generateChecksum`: SHA-256 of `JSON.stringify(v)`
      as lower-case hex. */
  function Checksum(v: Json): Json
  {
    JDigest(v)
  }

  /** Opening with the sealing key and iv returns the plaintext. */
  lemma OpenSealed(key: Key, iv: seq<bv8>, plain: Json)
    requires |iv| > 0
    ensures AesGcmDecrypt(key, iv, Some(AesGcmEncrypt(key, iv, plain))) == Some(plain)
  {
  }

  /** Opening with any other key fails. */
  lemma OpenWrongKey(key: Key, other: Key, iv: seq<bv8>, plain: Json)
    requires other != key
    ensures AesGcmDecrypt(other, iv, Some(AesGcmEncrypt(key, iv, plain))) == None
  {
  }

  /** Keys derived from different PINs or different salts differ. */
  lemma Pbkdf2Injective(pin1: string, salt1: seq<bv8>, pin2: string, salt2: seq<bv8>)
    ensures Pbkdf2(pin1, salt1) == Pbkdf2(pin2, salt2) <==> pin1 == pin2 && salt1 == salt2
  {
  }

  /** Equal checksums mean equal values. */
  lemma ChecksumInjective(a: Json, b: Json)
    ensures Checksum(a) == Checksum(b) <==> a == b
  {
  }
}
