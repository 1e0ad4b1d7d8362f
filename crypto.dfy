/** The one-way hash used for passwords and OTP codes (bcrypt with a random
    salt) and the reversible cipher used for phone numbers. Both are
    represented by values that remember their input: only `Compare` and
    `Decrypt` look inside them. */
module Crypto {

  import opened Wrappers

  /** A bcrypt digest: the plaintext it was made from and the salt drawn for it. */
  datatype Digest = Digest(plain: string, salt: nat)

  /** `generateHash`: a digest of `plain` under a freshly drawn `salt`. */
  function Hash(plain: string, salt: nat): (d: Digest)
    ensures Compare(plain, d)
  {
    Digest(plain, salt)
  }

  /** `compareHash`: does `plain` hash to `d`? */
  predicate Compare(plain: string, d: Digest) {
    d.plain == plain
  }

  /** bcrypt compares a plaintext against a missing hash as false. */
  predicate CompareOpt(plain: string, d: Option<Digest>) {
    d.Some? && Compare(plain, d.value)
  }

  /** Two digests of the same plaintext under different salts differ, yet both
      verify; a digest verifies no other plaintext. */
  lemma HashIsSaltedAndBinding(p: string, q: string, s1: nat, s2: nat)
    ensures s1 != s2 ==> Hash(p, s1) != Hash(p, s2)
    ensures Compare(p, Hash(p, s1)) && Compare(p, Hash(p, s2))
    ensures Compare(q, Hash(p, s1)) <==> q == p
  {
  }

  /** A phone number encrypted with the server's key. */
  datatype Ciphertext = Ciphertext(plain: string)

  function Encrypt(plain: string): (c: Ciphertext)
    ensures Decrypt(c) == plain
  {
    Ciphertext(plain)
  }

  function Decrypt(c: Ciphertext): string {
    c.plain
  }
}
