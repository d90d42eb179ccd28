/**
 * Salted password hashing as the registration and login handlers use it. The
 * key-derivation function itself is library code; the model takes it as a
 * value, so every property below holds whatever that function is.
 */
module Passwords {

  /** A one-way derivation of a digest from a salt and a secret. */
  type KeyDerivation = (string, string) -> string

  /** What is stored in place of a password: the salt and the digest, never the secret. */
  datatype PasswordHash = PasswordHash(salt: string, digest: string)

  /**
   * `check_password_hash`: re-derive with the stored salt and compare digests.
   * With an injective derivation, no other password passes a check that this
   * one passes.
   */
  predicate CheckPasswordHash(derive: KeyDerivation, stored: PasswordHash, password: string): (ok: bool)
    ensures ok && Injective(derive) ==>
      forall other :: derive(stored.salt, other) == stored.digest ==> other == password
  {
    derive(stored.salt, password) == stored.digest
  }

  /** `generate_password_hash` with a freshly drawn `salt`: its result checks against the password. */
  function GeneratePasswordHash(derive: KeyDerivation, salt: string, password: string): (h: PasswordHash)
    ensures h.salt == salt
    ensures CheckPasswordHash(derive, h, password)
  {
    PasswordHash(salt, derive(salt, password))
  }

  /** Under one salt, distinct secrets give distinct digests. */
  ghost predicate Injective(derive: KeyDerivation) {
    forall salt, p, q :: derive(salt, p) == derive(salt, q) ==> p == q
  }

  /** With an injective derivation, a stored hash checks against its own password and no other. */
  lemma CheckOnlyOwnPassword(derive: KeyDerivation, salt: string, p: string, q: string)
    requires Injective(derive)
    ensures CheckPasswordHash(derive, GeneratePasswordHash(derive, salt, p), q) <==> p == q
  {
  }
}
