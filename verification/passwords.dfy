/**
 * The BCrypt `PasswordEncoder`, abstracted: the salted one-way hash is an
 * uninterpreted function, and an encoded password carries BCrypt's "$2a$"
 * version prefix. Salting (two encodings of one password differing) is not
 * modelled.
 */
module Passwords {

  datatype PasswordEncoder = PasswordEncoder(hash: string -> string)

  const BcryptPrefix: string := "$2a$"

  /** `encode`. */
  function Encode(enc: PasswordEncoder, raw: string): (s: string)
    ensures |s| >= |BcryptPrefix| && s[..|BcryptPrefix|] == BcryptPrefix
  {
    BcryptPrefix + enc.hash(raw)
  }

  /** `matches(raw, encoded)`: the raw password hashes to the stored value.
      An empty stored value (a federated account) never matches. */
  predicate Matches(enc: PasswordEncoder, raw: string, encoded: string) {
    encoded == Encode(enc, raw)
  }

  lemma MatchesEncoded(enc: PasswordEncoder, raw: string)
    ensures Matches(enc, raw, Encode(enc, raw))
    ensures !Matches(enc, raw, "")
  {
  }
}
