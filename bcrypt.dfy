/**
 * Password hashing as the routes use it from bcryptjs: `genSalt(10)`,
 * `hash(password, salt)` and `compare(password, digest)`. The key derivation
 * itself is foreign; it enters the model as the two functions of a Hasher,
 * and Sound states what the library guarantees about them.
 */
module Bcrypt {

  /** The cost factor passed to `genSalt` at registration. */
  const SaltRounds: nat := 10

  /** Length of every bcrypt digest in modular crypt form (`$2a$10$` + 53 characters). */
  const DigestLength: nat := 60

  /** A salt: its cost factor and the random bytes drawn for it. */
  datatype Salt = Salt(rounds: nat, random: seq<bv8>)

  /**
   * `genSalt(rounds)`: the randomness is a parameter, drawn by the caller.
   */
  function GenSalt(rounds: nat, random: seq<bv8>): Salt
  {
    Salt(rounds, random)
  }

  /** The library's two entry points. */
  datatype Hasher = Hasher(hash: (string, Salt) -> string, compare: (string, string) -> bool)

  /**
   * What bcryptjs guarantees: a password matches every digest made from it,
   * and every digest has the fixed modular-crypt length.
   */
  ghost predicate Sound(h: Hasher) {
    (forall p, s :: h.compare(p, h.hash(p, s))) &&
    (forall p, s :: |h.hash(p, s)| == DigestLength)
  }

  /**
   * The stored digest is not the plaintext: a password that is not itself
   * 60 characters long can never equal its own digest.
   */
  lemma DigestIsNotPlaintext(h: Hasher, password: string, salt: Salt)
    requires Sound(h)
    requires |password| != DigestLength
    ensures h.hash(password, salt) != password
  {
  }
}
