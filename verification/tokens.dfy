/** The issued token (`generateToken`): a signed JWT reduced to the claims it
    carries and its fixed lifetime. Signing with the server secret, and the
    issued-at/expiry timestamps the signer adds, are outside the model. */
module Tokens {
  import opened Schema

  /** The `expiresIn` option passed to the signer. */
  const TokenLifetime: string := "1h"

  datatype Claims = Claims(id: nat, username: string)

  datatype Token = Token(claims: Claims, expiresIn: string)

  /** The claims are exactly the user's id and username; nothing else of the
      record (password, provider tokens) goes into the token. */
  function GenerateToken(u: User): (t: Token)
    ensures t.claims.id == u.id && t.claims.username == u.username
    ensures t.expiresIn == TokenLifetime
  {
    Token(Claims(u.id, u.username), TokenLifetime)
  }

  /** Two records with the same id and username get the same token, whatever
      their other columns hold (a token refresh does not change it). */
  lemma TokenDependsOnIdAndUsername(a: User, b: User)
    requires a.id == b.id && a.username == b.username
    ensures GenerateToken(a) == GenerateToken(b)
  {
  }
}
