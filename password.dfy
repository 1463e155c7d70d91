/**
 * The password hashing the application delegates to bcrypt, kept abstract.
 *
 * bcrypt draws a fresh random salt for every hash, so hashing the same password twice gives two
 * different stored values; the salt is therefore an explicit input here, chosen by the caller.
 * A stored value keeps its salt beside the digest, and checking a password recomputes the digest
 * with that salt. The digest below is a stand-in, not bcrypt's algorithm: the application relies
 * only on the check accepting the password the value was made from.
 */
module Password {

  /** The random salt bcrypt generates for each new hash. */
  type Salt = nat

  /** A stored password: never the plaintext, always a salt and a digest. */
  datatype Hashed = Hashed(salt: Salt, digest: seq<int>)

  /** Keyed digest of a password: every character shifted by the salt and its position. */
  function Digest(salt: Salt, pw: string): seq<int>
  {
    seq(|pw|, i requires 0 <= i < |pw| => (pw[i] as int) + salt + i)
  }

  /** bcrypt.generate_password_hash: a new stored value for `pw` under `salt`. */
  function Hash(salt: Salt, pw: string): (h: Hashed)
    ensures Verify(h, pw)
  {
    Hashed(salt, Digest(salt, pw))
  }

  /** bcrypt.check_password_hash: does `pw` match the stored value? */
  predicate Verify(stored: Hashed, pw: string)
  {
    stored.digest == Digest(stored.salt, pw)
  }
}
