/** The password hasher (bcrypt) and the token signer (jsonwebtoken), as uninterpreted
    functions. Their only assumed laws are stated by `Sound` and required where used. */
module Crypto {
  import opened Common

  /** The random salt bcrypt draws for each hash. */
  type Salt = nat

  /** The payload both issuance paths sign: the user's id and email. */
  datatype Claims = Claims(id: Id, email: string)

  /** bcrypt.hash(password, saltRounds) — with the salt it draws — and bcrypt.compare(password, hash). */
  datatype Bcrypt = Bcrypt(hash: (string, nat, Salt) -> string, compare: (string, string) -> bool)

  /** jwt.sign(payload, secret, { expiresIn }) and jwt.verify(token, secret); the secret is
      fixed per process and folded into both functions. `None` is a rejected token. */
  datatype Jwt = Jwt(sign: (Claims, string) -> string, verify: string -> Option<Claims>)

  /** The cost factor passed to bcrypt.hash on registration. */
  const SALT_ROUNDS: nat := 10

  /** The expiresIn option of every token the backend issues. */
  const TOKEN_LIFETIME: string := "7d"

  /** A password always matches a hash made from it, whatever the cost factor and the salt. */
  ghost predicate BcryptSound(b: Bcrypt)
  {
    forall p: string, rounds: nat, s: Salt :: b.compare(p, b.hash(p, rounds, s))
  }

  /** A signed token verifies back to its payload, and is a non-empty word without
      spaces (the compact JWS form), so it fits in an "Authorization: Bearer <token>" header. */
  ghost predicate JwtSound(j: Jwt)
  {
    forall c: Claims, e: string ::
      var t := j.sign(c, e); j.verify(t) == Some(c) && t != "" && ' ' !in t
  }

  /** The token both /register and /login send back. */
  function IssueToken(j: Jwt, id: Id, email: string): (token: string)
    ensures JwtSound(j) ==> j.verify(token) == Some(Claims(id, email))
    ensures JwtSound(j) ==> token != "" && ' ' !in token
  {
    j.sign(Claims(id, email), TOKEN_LIFETIME)
  }
}
