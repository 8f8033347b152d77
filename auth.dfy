/**
 * Password hashing and access tokens (auth_utils.py). The bcrypt digest and the
 * HS256 token codec are library calls; they are carried here as the fields of a
 * `Crypto` record, whose behaviour is left open except for the properties stated
 * as predicates below, which the rest of the model assumes explicitly where it
 * needs them.
 */
module Auth {
  import opened Wrappers

  /** Token lifetime: 24 hours. */
  const AccessTokenExpireMinutes := 60 * 24
  const AccessTokenLifetime := AccessTokenExpireMinutes * 60

  /** The claims the service puts into a token; `userId` is `None` when the payload lacks one. */
  datatype TokenData = TokenData(userId: Option<int>, email: string, role: string)

  /** A decoded payload: the issued claims plus the absolute expiry, in seconds. */
  datatype Claims = Claims(data: TokenData, exp: int)

  /**
   * `hash` and `verify` stand for bcrypt; `encode` signs claims with the process-wide
   * secret; `decode(token, now)` yields the claims, or `None` when the signature, the
   * structure or the expiry (checked against `now`) is bad.
   */
  datatype Crypto = Crypto(
    hash: string -> string,
    verify: (string, string) -> bool,
    encode: Claims -> string,
    decode: (string, int) -> Option<Claims>)

  /** A password verifies against its own hash. */
  ghost predicate HashVerifies(crypto: Crypto) {
    forall password :: crypto.verify(password, crypto.hash(password))
  }

  /**
   * A token signed here decodes to exactly its claims until its expiry has passed,
   * and to nothing afterwards.
   */
  ghost predicate TokenRoundTrips(crypto: Crypto) {
    forall claims: Claims, now: int ::
      crypto.decode(crypto.encode(claims), now) == if now <= claims.exp then Some(claims) else None
  }

  /** Signs the claims with an expiry of `now` plus the token lifetime. */
  function CreateAccessToken(crypto: Crypto, data: TokenData, now: int): (token: string)
    ensures token == crypto.encode(Claims(data, now + AccessTokenLifetime))
  {
    crypto.encode(Claims(data, now + AccessTokenLifetime))
  }

  /** A token is accepted, with its claims intact, for 24 hours after it was issued. */
  lemma DecodeWithinLifetime(crypto: Crypto, data: TokenData, issuedAt: int, now: int)
    requires TokenRoundTrips(crypto)
    requires now <= issuedAt + AccessTokenLifetime
    ensures crypto.decode(CreateAccessToken(crypto, data, issuedAt), now) == Some(Claims(data, issuedAt + AccessTokenLifetime))
  {
    var claims := Claims(data, issuedAt + AccessTokenLifetime);
    assert crypto.decode(crypto.encode(claims), now) == Some(claims);
  }

  /** After 24 hours the same token is refused. */
  lemma DecodeAfterLifetime(crypto: Crypto, data: TokenData, issuedAt: int, now: int)
    requires TokenRoundTrips(crypto)
    requires now > issuedAt + AccessTokenLifetime
    ensures crypto.decode(CreateAccessToken(crypto, data, issuedAt), now) == None
  {
    var claims := Claims(data, issuedAt + AccessTokenLifetime);
    assert crypto.decode(crypto.encode(claims), now) == None;
  }
}
