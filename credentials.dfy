/**
 * Stand-ins for bcrypt and the signed token. `Hash` is a one-way tag that
 * never equals its input and never coincides for two passwords; `Verify` is
 * what `bcrypt.compare` answers. A token carries exactly the payload signed at
 * login, `(id, role)`.
 */
module Credentials {
  import opened Text
  import opened Accounts

  /** The prefix of a bcrypt hash with cost factor 10. */
  const HashPrefix: string := "$2a$10$"

  /** `bcrypt.hash(password, 10)`, without the salt. */
  function Hash(password: string): (h: string)
    ensures StartsWith(h, HashPrefix)
    ensures |h| > |password|
  {
    StartsWithConcat(HashPrefix, password);
    HashPrefix + password
  }

  /** `bcrypt.compare(password, hash)` */
  predicate Verify(password: string, hash: string)
    ensures Verify(password, hash) ==> |hash| > |password| && StartsWith(hash, HashPrefix)
  {
    hash == Hash(password)
  }

  /** The hashed password verifies, and no other password does. */
  lemma {:induction false} VerifyExactly(p: string, q: string)
    ensures Verify(p, Hash(p))
    ensures Verify(q, Hash(p)) <==> q == p
  {
    if Verify(q, Hash(p)) {
      assert Hash(q)[|HashPrefix|..] == q;
      assert Hash(p)[|HashPrefix|..] == p;
    }
  }

  /** A stored hash is never the plaintext, and an empty stored password verifies nothing. */
  lemma HashNotPlain(p: string, q: string)
    ensures Hash(p) != p
    ensures !Verify(q, "")
  {
  }

  /** The payload `jwt.sign({ id, role }, secret, { expiresIn: '1d' })` signs. */
  datatype Token = Token(id: Id, role: Role)

  function Sign(id: Id, role: Role): (t: Token)
    ensures t.id == id && t.role == role
  {
    Token(id, role)
  }

  /** Two logins get the same token exactly when they are for the same id and role. */
  lemma SignInjective(id1: Id, role1: Role, id2: Id, role2: Role)
    ensures Sign(id1, role1) == Sign(id2, role2) <==> id1 == id2 && role1 == role2
  {
  }
}
