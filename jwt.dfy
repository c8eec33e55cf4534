/** Token claims and error classification (pkg/jwt/jwt.go).

    The repository's own logic is which claims a token carries (exp, iat and
    nbf of sections 4.1.4 to 4.1.6 of RFC 7519), that it is signed with
    HS256 (section 3.2 of RFC 7518), which signing methods the key function
    accepts, and how the library's parse errors collapse into two sentinel
    errors. Signing, encoding and parsing belong to golang-jwt: a signed
    token is represented by the values it was made from, and a parse by its
    outcome (`ParseResult`). */
module Jwt {
  import opened Common

  const ErrInvalidToken: Error := Failure("invalid token")
  const ErrExpiredToken: Error := Failure("token has expired")

  const NsPerSecond: int := 1000000000
  const Hour: int := 3600 * NsPerSecond

  /** Go's `uint` is 64 bits wide on the targets the service is built for;
      `uint(x)` of a uint64 keeps x modulo this. */
  const UintModulus: nat := 0x1_0000_0000_0000_0000

  /** The `alg` a token header names. */
  datatype Alg = HS256 | HS384 | HS512 | RS256 | RS384 | RS512 | ES256 | PS256 | EdDSA | AlgNone

  /** The algorithms whose method is a *jwt.SigningMethodHMAC. */
  predicate IsHmac(a: Alg)
  {
    a.HS256? || a.HS384? || a.HS512?
  }

  /** Claims: user_id, email and the registered exp, iat and nbf, each a
      NumericDate in whole seconds. */
  datatype Claims = Claims(userID: nat, email: string, expiresAt: int, issuedAt: int, notBefore: int)

  /** A signed token: the header's algorithm, the claims, and the secret the
      signature was computed with. */
  datatype Token = Token(alg: Alg, claims: Claims, signedWith: string)

  /** Manager: the secret and the lifetime (a time.Duration, in ns) fixed
      by NewManager. */
  datatype Manager = Manager(secret: string, expiration: int)

  /** What jwt.ParseWithClaims reports: the claims of a valid token, an error
      that errors.Is recognises as jwt.ErrTokenExpired, the key function's
      refusal of the signing method, or any other failure. */
  datatype ParseResult = ParseOk(claims: Claims) | ParseExpired | ParseWrongMethod | ParseOtherError

  /** jwt.NewNumericDate: a time truncated to whole seconds. */
  function NumericDate(t: int): (r: int)
    ensures r * NsPerSecond <= t < (r + 1) * NsPerSecond
  {
    t / NsPerSecond
  }

  /** Manager.Generate: claims for `userID` and `email`, valid from now for
      the manager's lifetime, signed with HS256 and the manager's secret. */
  function Generate(m: Manager, userID: nat, email: string, now: int): (r: Token)
    ensures r.alg == HS256 && r.signedWith == m.secret
    ensures r.claims.userID == userID && r.claims.email == email
    ensures r.claims.issuedAt == r.claims.notBefore == NumericDate(now)
    ensures r.claims.expiresAt == NumericDate(now + m.expiration)
  {
    Token(HS256, Claims(userID, email, NumericDate(now + m.expiration), NumericDate(now), NumericDate(now)), m.secret)
  }

  /** uint(x) for a uint64 x. */
  function Narrow(x: nat): (r: nat)
    ensures r < UintModulus
    ensures x < UintModulus ==> r == x
  {
    x % UintModulus
  }

  /** GenerateToken: a 24-hour token with an empty email for an admin id. */
  function GenerateToken(userID: nat, secret: string, now: int): (r: Token)
    ensures r.alg == HS256 && r.signedWith == secret
    ensures r.claims.userID == Narrow(userID) && r.claims.email == ""
    ensures r.claims.issuedAt == r.claims.notBefore == NumericDate(now)
    ensures r.claims.expiresAt == NumericDate(now + 24 * Hour)
  {
    Token(HS256, Claims(Narrow(userID), "", NumericDate(now + 24 * Hour), NumericDate(now), NumericDate(now)), secret)
  }

  /** The key function: any HMAC method gets the secret, any other method is
      refused with ErrInvalidToken. */
  function KeyFunc(alg: Alg, secret: string): (r: Result<string>)
    ensures r.Ok? <==> IsHmac(alg)
    ensures r.Ok? ==> r.value == secret
    ensures r.Err? ==> r.error == ErrInvalidToken
  {
    if IsHmac(alg) then Ok(secret) else Err(ErrInvalidToken)
  }

  /** jwt.ParseWithClaims on a token with a key function that hands out
      `secret`, at time `now`, in golang-jwt v5's order: the key function,
      then the signature, then the registered claims (the token is expired
      once now is not before exp, and not yet valid while now is before
      nbf; an expired token reports expiry whatever else is wrong). */
  function Parse(t: Token, secret: string, now: int): (r: ParseResult)
    ensures r.ParseWrongMethod? <==> !IsHmac(t.alg)
    ensures r.ParseExpired? <==> IsHmac(t.alg) && t.signedWith == secret && now >= t.claims.expiresAt * NsPerSecond
    ensures r.ParseOk? <==> IsHmac(t.alg) && t.signedWith == secret
                            && t.claims.notBefore * NsPerSecond <= now < t.claims.expiresAt * NsPerSecond
    ensures r.ParseOk? ==> r.claims == t.claims
  {
    if KeyFunc(t.alg, secret).Err? then ParseWrongMethod
    else if t.signedWith != secret then ParseOtherError
    else if now >= t.claims.expiresAt * NsPerSecond then ParseExpired
    else if now < t.claims.notBefore * NsPerSecond then ParseOtherError
    else ParseOk(t.claims)
  }

  /** Manager.Validate: the claims of a valid token, or one of the two
      sentinels; expiry is the only failure reported as ErrExpiredToken. */
  function Validate(p: ParseResult): (r: Result<Claims>)
    ensures r.Ok? <==> p.ParseOk?
    ensures r.Ok? ==> r.value == p.claims
    ensures r.Err? ==> r.error == ErrInvalidToken || r.error == ErrExpiredToken
    ensures r == Err(ErrExpiredToken) <==> p.ParseExpired?
  {
    match p
    case ParseOk(c) => Ok(c)
    case ParseExpired => Err(ErrExpiredToken)
    case _ => Err(ErrInvalidToken)
  }

  /** ValidateToken: the user id widened to uint64 with a nil error, or 0
      with one of the two sentinels. */
  function ValidateToken(p: ParseResult): (r: (nat, Option<Error>))
    ensures r.1.None? <==> p.ParseOk?
    ensures r.1.None? ==> r.0 == p.claims.userID
    ensures r.1.Some? ==> r.0 == 0
    ensures r.1.Some? ==> r.1.value == ErrInvalidToken || r.1.value == ErrExpiredToken
    ensures r.1 == Some(ErrExpiredToken) <==> p.ParseExpired?
  {
    match Validate(p)
    case Ok(c) => (c.userID, None)
    case Err(e) => (0, Some(e))
  }

  /** A token from Generate carries the given identity, was issued and
      becomes valid at the same second, and expires `expiration` later. */
  lemma GenerateClaims(m: Manager, userID: nat, email: string, now: int)
    ensures var c := Generate(m, userID, email, now).claims;
      && c.userID == userID && c.email == email
      && c.issuedAt == c.notBefore
      && c.issuedAt * NsPerSecond <= now < (c.issuedAt + 1) * NsPerSecond
      && c.expiresAt * NsPerSecond <= now + m.expiration < (c.expiresAt + 1) * NsPerSecond
  {
  }

  /** GenerateToken is Generate with a fixed 24-hour lifetime, an empty email
      and the id narrowed to uint, whatever lifetime a Manager was given. */
  lemma GenerateTokenIsDayLong(userID: nat, secret: string, now: int)
    ensures GenerateToken(userID, secret, now) == Generate(Manager(secret, 24 * Hour), Narrow(userID), "", now)
    ensures GenerateToken(userID, secret, now).claims.expiresAt == NumericDate(now + 24 * Hour)
  {
  }

  /** Both issuers sign with HS256. */
  lemma IssuersSignWithHS256(m: Manager, userID: nat, email: string, secret: string, now: int)
    ensures Generate(m, userID, email, now).alg == HS256
    ensures GenerateToken(userID, secret, now).alg == HS256
  {
  }

  /** Every HMAC variant passes the method check, not only HS256. */
  lemma EveryHmacVariantAccepted(secret: string)
    ensures KeyFunc(HS256, secret) == Ok(secret)
    ensures KeyFunc(HS384, secret) == Ok(secret)
    ensures KeyFunc(HS512, secret) == Ok(secret)
    ensures KeyFunc(RS256, secret).Err? && KeyFunc(AlgNone, secret).Err?
  {
  }

  /** A freshly generated token validates, with its own claims, from the
      moment it is issued until its expiry second. */
  lemma ValidUntilExpiry(m: Manager, userID: nat, email: string, issued: int, now: int)
    requires issued <= now
    requires now < NumericDate(issued + m.expiration) * NsPerSecond
    ensures Validate(Parse(Generate(m, userID, email, issued), m.secret, now))
         == Ok(Claims(userID, email, NumericDate(issued + m.expiration), NumericDate(issued), NumericDate(issued)))
  {
    GenerateClaims(m, userID, email, issued);
  }

  /** From its expiry second on, the same token fails with ErrExpiredToken. */
  lemma ExpiredAfterExpiry(m: Manager, userID: nat, email: string, issued: int, now: int)
    requires now >= NumericDate(issued + m.expiration) * NsPerSecond
    ensures Validate(Parse(Generate(m, userID, email, issued), m.secret, now)) == Err(ErrExpiredToken)
  {
  }

  /** A token signed with another secret is invalid, never expired. */
  lemma ForeignSecretInvalid(m: Manager, userID: nat, email: string, issued: int, now: int, other: string)
    requires other != m.secret
    ensures Validate(Parse(Generate(m, userID, email, issued), other, now)) == Err(ErrInvalidToken)
  {
  }

  /** A token whose header names a non-HMAC method is invalid, even when it
      has also expired. */
  lemma WrongMethodInvalid(t: Token, secret: string, now: int)
    requires !IsHmac(t.alg)
    ensures Validate(Parse(t, secret, now)) == Err(ErrInvalidToken)
    ensures ValidateToken(Parse(t, secret, now)) == (0, Some(ErrInvalidToken))
  {
  }

  /** An admin id survives GenerateToken and ValidateToken within the day. */
  lemma AdminIdRoundTrip(userID: nat, secret: string, issued: int, now: int)
    requires userID < UintModulus
    requires issued <= now < NumericDate(issued + 24 * Hour) * NsPerSecond
    ensures ValidateToken(Parse(GenerateToken(userID, secret, issued), secret, now)) == (userID, None)
  {
  }
}
