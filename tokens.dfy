/**
 * TokenService: issues and validates signed bearer tokens (JWT, HS256).
 *
 * A token string is modelled by what the JWT handler parses out of it: the
 * claims and the signature, or text it cannot parse. The HMAC-SHA256 of the
 * claims under the secret is an uninterpreted parameter `hmac`.
 */
module Tokens {
  import opened Base

  const AdminRole: string := "Admin"
  const DoctorRole: string := "Doctor"

  /** The shortest secret the constructor accepts. */
  const MinSecretLength: nat := 16

  /** Tolerance the handler applies to the expiry (TokenValidationParameters' default, 5 minutes). */
  const ClockSkew: int := 300

  /** The Name claim, the Role claim and the expiry of a token. */
  datatype Claims = Claims(name: string, role: string, expires: int)

  datatype Jwt = Signed(claims: Claims, signature: string) | Malformed(text: string)

  /** models/Token.cs: the session a store keeps on a principal's row. */
  datatype Token = Token(value: Jwt, expirationDate: int)

  /** What GetUserRole yields: the role claim, or the exception ValidateToken throws. */
  datatype RoleClaim = Unverified | Claimed(role: string)

  datatype ArgumentException = ArgumentException(paramName: string)

  datatype TokenService = TokenService(secretKey: string, hmac: (string, Claims) -> string)
  {
    /** The token carries exactly the Name and Role claims and the given expiry, signed under the secret. */
    function GenerateToken(username: string, role: string, expiration: int): (t: Jwt)
      ensures t.Signed? && t.claims == Claims(username, role, expiration)
      ensures t.signature == hmac(secretKey, t.claims)
    {
      var claims := Claims(username, role, expiration);
      Signed(claims, hmac(secretKey, claims))
    }

    /**
     * The claims of a token signed under this secret and not yet past its
     * expiry (plus the skew); None stands for the exception the handler throws.
     * Issuer and audience are not checked.
     */
    function ValidateToken(token: Jwt, now: int): (r: Option<Claims>)
      ensures r.Some? <==> token.Signed? && token.signature == hmac(secretKey, token.claims)
                           && now <= token.claims.expires + ClockSkew
      ensures r.Some? ==> r.value == token.claims
    {
      match token
      case Malformed(_) => None
      case Signed(claims, signature) =>
        if signature == hmac(secretKey, claims) && now <= claims.expires + ClockSkew
        then Some(claims) else None
    }

    /** The Role claim of a validated token. */
    function GetUserRole(token: Jwt, now: int): (r: RoleClaim)
      ensures r.Unverified? <==> ValidateToken(token, now).None?
      ensures r.Claimed? ==> token.Signed? && r.role == token.claims.role
    {
      match ValidateToken(token, now)
      case None => Unverified
      case Some(claims) => Claimed(claims.role)
    }
  }

  /** The constructor: a missing, empty or short secret throws; otherwise it is kept unchanged. */
  function NewTokenService(secretKey: Option<string>, hmac: (string, Claims) -> string)
    : (r: Result<TokenService, ArgumentException>)
    ensures r.Success? <==> secretKey.Some? && |secretKey.value| >= MinSecretLength
    ensures r.Success? ==> r.value.secretKey == secretKey.value && r.value.hmac == hmac
    ensures r.Failure? ==> r.error == ArgumentException("secretKey")
  {
    if secretKey.None? || |secretKey.value| == 0 || |secretKey.value| < MinSecretLength
    then Failure(ArgumentException("secretKey"))
    else Success(TokenService(secretKey.value, hmac))
  }

  /** The Role claim GenerateToken writes is the one GetUserRole reads back, until the token expires. */
  lemma RoleRoundTrip(ts: TokenService, username: string, role: string, expiration: int, now: int)
    requires now <= expiration + ClockSkew
    ensures ts.GetUserRole(ts.GenerateToken(username, role, expiration), now) == Claimed(role)
  {
  }

  /** Once the clock passes the expiry and the skew, the same token is rejected. */
  lemma ExpiredTokenRejected(ts: TokenService, username: string, role: string, expiration: int, now: int)
    requires now > expiration + ClockSkew
    ensures ts.GetUserRole(ts.GenerateToken(username, role, expiration), now) == Unverified
  {
  }

  /** Changing any claim without re-signing invalidates the token (whenever the MAC differs). */
  lemma TamperedClaimsRejected(ts: TokenService, t: Jwt, forged: Claims, now: int)
    requires t.Signed? && ts.ValidateToken(t, now).Some?
    requires ts.hmac(ts.secretKey, forged) != t.signature
    ensures ts.GetUserRole(Signed(forged, t.signature), now) == Unverified
  {
  }
}
