/**
 * The pbkdf2_sha256 scheme of passlib, modelled symbolically.
 *
 * The derived key is a term that records what it was derived from: two
 * derived keys are equal exactly when secret and salt are. That is the
 * collision resistance of PBKDF2 the system relies on; nothing in the model
 * ever reads the secret back out of a digest.
 *
 * passlib refuses a secret longer than MAX_PASSWORD_SIZE characters with
 * PasswordSizeError, both when hashing and when verifying.
 */
module Passlib {
  import opened Wrappers

  /** passlib's MAX_PASSWORD_SIZE. */
  const MaxPasswordSize: nat := 4096

  datatype DerivedKey = Pbkdf2(secret: string, salt: string)

  /** A stored hash: the salt in clear and the key derived with it. */
  datatype Digest = Digest(salt: string, key: DerivedKey)

  /** The exception passlib raises for a secret over the size limit. */
  datatype PasswordSizeError = PasswordSizeError

  /** Hashing with a fresh random salt; the salt is a parameter here. */
  function Hash(secret: string, salt: string): (r: Result<Digest, PasswordSizeError>)
    ensures r.Err? <==> |secret| > MaxPasswordSize
    ensures r.Ok? ==> r.value.salt == salt && r.value.key.salt == salt && r.value.key.secret == secret
  {
    if |secret| > MaxPasswordSize then Err(PasswordSizeError) else Ok(Digest(salt, Pbkdf2(secret, salt)))
  }

  /** Re-derives the key with the digest's own salt and compares. */
  function Verify(secret: string, hashed: Digest): (r: Result<bool, PasswordSizeError>)
    ensures r.Err? <==> |secret| > MaxPasswordSize
    ensures r.Ok? ==> (r.value <==> hashed.key.secret == secret && hashed.key.salt == hashed.salt)
  {
    match Hash(secret, hashed.salt)
    case Err(e) => Err(e)
    case Ok(d) => Ok(d == hashed)
  }

  /** A digest verifies exactly the secret it was made from, whatever the salt. */
  lemma VerifyHash(secret: string, other: string, salt: string)
    requires |secret| <= MaxPasswordSize && |other| <= MaxPasswordSize
    ensures Verify(secret, Hash(other, salt).value) == Ok(secret == other)
  {
  }

  /** Two hashes of one secret under different salts differ, yet both verify it. */
  lemma SaltedHashesDiffer(secret: string, salt1: string, salt2: string)
    requires |secret| <= MaxPasswordSize
    requires salt1 != salt2
    ensures Hash(secret, salt1) != Hash(secret, salt2)
    ensures Verify(secret, Hash(secret, salt1).value) == Ok(true)
    ensures Verify(secret, Hash(secret, salt2).value) == Ok(true)
  {
  }
}
