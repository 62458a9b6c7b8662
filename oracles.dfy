/**
 * The collaborators the account service calls but whose code is outside the
 * model: password hashing (HashPassword, VerifyPassword), JWT issue and
 * validation (GenerateJWT, ValidateToken) and the Google profile lookup.
 * They are values handed to the service; Lawful states the laws the
 * scenarios rely on.
 */
module Oracles {
  import opened Results
  import opened UserModel

  /** Hashing and token functions; the Instant is the clock reading of the call. */
  datatype Crypto = Crypto(
    hashPassword: string -> Result<string>,
    verifyPassword: (string, string) -> bool,                // (hashed password, password)
    generateJwt: (string, int, string, Instant) -> Result<string>,   // (subject, ttl, key, now)
    validateToken: (string, string, Instant) -> Result<string>)      // (token, key, now) to its subject

  /** The token settings of the application configuration. */
  datatype TokenConfig = TokenConfig(
    accessTokenKey: string,
    accessTokenExpiredIn: int,
    refreshTokenKey: string,
    refreshTokenExpiredIn: int)

  /** The profile the Google userinfo endpoint returns. */
  datatype GoogleUserInfo = GoogleUserInfo(id: string, email: string, name: string)

  /**
   * The laws: a hash verifies against its password, and a token validates,
   * under the key that signed it, to its subject until it expires (the `sub`
   * and `exp` claims of sections 4.1.2 and 4.1.4 of RFC 7519); a signed token
   * is never empty.
   */
  ghost predicate Lawful(c: Crypto) {
    && (forall p :: c.hashPassword(p).Ok? ==> c.verifyPassword(c.hashPassword(p).value, p))
    && (forall sub, ttl, key, now: Instant, at: Instant ::
          c.generateJwt(sub, ttl, key, now).Ok? && now <= at < now + ttl ==>
          c.validateToken(c.generateJwt(sub, ttl, key, now).value, key, at) == Ok(sub))
    && (forall sub, ttl, key, now: Instant ::
          c.generateJwt(sub, ttl, key, now).Ok? ==> c.generateJwt(sub, ttl, key, now).value != "")
  }
}
