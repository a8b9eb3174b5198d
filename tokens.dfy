/**
 * The token codec of app/auth.py. Tokens are JSON Web Tokens (RFC 7519)
 * carrying the `sub` claim (section 4.1.2) and the `exp` claim (section
 * 4.1.4), signed with HS256 (RFC 7518 section 3.2) under the process-wide
 * secret. The cryptography and the base64/JSON encoding are abstracted:
 * `Signed(sub, exp)` stands for the one string jwt.encode yields for those
 * claims under that secret, and `Unsigned(text)` for every other string
 * (forged, corrupted or empty). Time is a natural number of seconds.
 */
module Tokens {
  import opened Http

  const SECONDS_PER_DAY: nat := 86400

  /** The lifetimes read from the deployment configuration. */
  datatype Config = Config(accessTokenExpireMinutes: nat, refreshTokenExpireDays: nat)

  datatype Token = Signed(sub: string, exp: nat) | Unsigned(text: string) {
    /** The empty string, which the source's `if not token` treats as missing. */
    predicate Blank() {
      this == Unsigned("")
    }
  }

  /** The decoded payload. */
  datatype Claims = Claims(sub: string, exp: nat)

  /**
   * Lifetime of an access token in seconds. The source builds
   * `timedelta(days=ACCESS_TOKEN_EXPIRE_MINUTES)`, so the configured number
   * counts days, not minutes; this is kept as found.
   */
  function AccessLifetime(cfg: Config): (r: nat)
    ensures r == 1440 * (60 * cfg.accessTokenExpireMinutes)
    ensures r % SECONDS_PER_DAY == 0 && r / SECONDS_PER_DAY == cfg.accessTokenExpireMinutes
  {
    cfg.accessTokenExpireMinutes * SECONDS_PER_DAY
  }

  /** Lifetime of a refresh token in seconds: REFRESH_TOKEN_EXPIRE_DAYS days. */
  function RefreshLifetime(cfg: Config): (r: nat)
    ensures r % SECONDS_PER_DAY == 0 && r / SECONDS_PER_DAY == cfg.refreshTokenExpireDays
  {
    cfg.refreshTokenExpireDays * SECONDS_PER_DAY
  }

  /**
   * jwt.decode: the signature must verify and the `exp` claim must not have
   * passed (a token is rejected once exp < now). Expired and forged tokens
   * fail alike.
   */
  function Decode(t: Token, now: nat): (r: Option<Claims>)
    ensures r.Some? <==> t.Signed? && now <= t.exp
    ensures r.Some? ==> r.value == Claims(t.sub, t.exp)
  {
    match t
    case Signed(sub, exp) => if exp < now then None else Some(Claims(sub, exp))
    case Unsigned(_) => None
  }

  /** create_access_token({"sub": sub}) at time `now`. */
  function CreateAccessToken(sub: string, now: nat, cfg: Config): (t: Token)
    ensures t.Signed? && t.exp == now + AccessLifetime(cfg)
    ensures forall later :: now <= later <= t.exp ==> Decode(t, later) == Some(Claims(sub, t.exp))
    ensures Decode(t, t.exp + 1).None?
  {
    Signed(sub, now + AccessLifetime(cfg))
  }

  /** create_refresh_token({"sub": sub}) at time `now`. */
  function CreateRefreshToken(sub: string, now: nat, cfg: Config): (t: Token)
    ensures t.Signed? && t.exp == now + RefreshLifetime(cfg)
    ensures forall later :: now <= later <= t.exp ==> Decode(t, later) == Some(Claims(sub, t.exp))
    ensures Decode(t, t.exp + 1).None?
  {
    Signed(sub, now + RefreshLifetime(cfg))
  }

  const COULD_NOT_VALIDATE := HttpError(401, "Could not validate credentials")
  /** What get_username_from_token raises for a token that does not decode. */
  const USERNAME_TOKEN_INVALID := HttpError(401, "Invalid token")

  /** verify_token: the payload, or 401 "Could not validate credentials". */
  function VerifyToken(t: Token, now: nat): (r: Result<Claims>)
    ensures r.Ok? <==> t.Signed? && now <= t.exp
    ensures r.Ok? ==> r.value == Claims(t.sub, t.exp)
    ensures r.Err? ==> r.error == COULD_NOT_VALIDATE
  {
    match Decode(t, now)
    case Some(claims) => Ok(claims)
    case None => Err(COULD_NOT_VALIDATE)
  }

  /** get_username_from_token: the `sub` claim, or 401 "Invalid token". */
  function GetUsernameFromToken(t: Token, now: nat): (r: Result<string>)
    ensures r.Ok? <==> t.Signed? && now <= t.exp
    ensures r.Ok? ==> r.value == t.sub
    ensures r.Err? ==> r.error == USERNAME_TOKEN_INVALID
  {
    match Decode(t, now)
    case Some(claims) => Ok(claims.sub)
    case None => Err(USERNAME_TOKEN_INVALID)
  }
}
