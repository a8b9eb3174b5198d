/**
 * app/user_router.py: login, refresh and logout, and the session-protocol
 * properties they give the guard of app/auth.py. Each operation is given
 * twice: as a function of the stores (its effect, `...Step`) that the
 * lemmas compose, and as a method over the injected objects, proved to
 * have exactly that effect.
 */
module UserRouter {
  import opened Http
  import opened Tokens
  import opened Web
  import opened Models
  import opened Storage
  import opened Auth

  const BAD_LOGIN := HttpError(400, "Incorrect username or password")

  /** The effect of login on the session store. */
  function LoginStep(users: Users, sessions: Sessions, form: UserCreate, now: nat, cfg: Config): (o: SessionOutcome<TokenPair>)
    ensures o.result.Err? <==> AuthenticateUser(users, form.username, form.password).None?
    ensures o.result.Err? ==> o.result.error == BAD_LOGIN && o.sessions == sessions
    ensures o.result.Ok? ==>
      && o.result.value.accessToken == CreateAccessToken(form.username, now, cfg)
      && o.result.value.refreshToken == CreateRefreshToken(form.username, now, cfg)
      && o.sessions == StoreTokens(sessions, form.username, o.result.value, now)
  {
    match AuthenticateUser(users, form.username, form.password)
    case None => SessionOutcome(Err(BAD_LOGIN), sessions)
    case Some(_) =>
      var pair := TokenPair(CreateAccessToken(form.username, now, cfg), CreateRefreshToken(form.username, now, cfg));
      SessionOutcome(Ok(pair), StoreTokens(sessions, form.username, pair, now))
  }

  /** login: mint both tokens, store them, set both cookies, return them. */
  method Login(form: UserCreate, response: Response, redis: Redis, db: Database, now: nat, cfg: Config)
    returns (r: Result<TokenPair>)
    modifies response, redis
    ensures var o := LoginStep(db.users, old(redis.entries), form, now, cfg);
      r == o.result && redis.entries == o.sessions
    ensures r.Ok? ==>
      response.cookies == old(response.cookies)[REFRESH_COOKIE := Assign(r.value.refreshToken)][ACCESS_COOKIE := Assign(r.value.accessToken)]
    ensures r.Err? ==> response.cookies == old(response.cookies)
  {
    var user := AuthenticateUser(db.users, form.username, form.password);
    if user.None? {
      return Err(BAD_LOGIN);
    }
    var accessToken := CreateAccessToken(form.username, now, cfg);
    var refreshToken := CreateRefreshToken(form.username, now, cfg);
    var tokens := SetTokensInRedis(form.username, redis, accessToken, refreshToken, now);
    response.SetCookie(REFRESH_COOKIE, refreshToken);
    response.SetCookie(ACCESS_COOKIE, accessToken);
    return Ok(tokens);
  }

  /**
   * The effect of refresh. It looks at the refresh cookie alone: it neither
   * reads the session entry nor looks the user up, which is why it has no
   * user table among its arguments.
   */
  function RefreshStep(sessions: Sessions, request: Request, now: nat, cfg: Config): (o: SessionOutcome<TokenPair>)
    ensures o.result.Ok? <==> Present(request, REFRESH_COOKIE) && Decode(request.cookies[REFRESH_COOKIE], now).Some?
    ensures !Present(request, REFRESH_COOKIE) ==> o.result == Err(REFRESH_TOKEN_MISSING)
    ensures Present(request, REFRESH_COOKIE) && o.result.Err? ==> o.result == Err(USERNAME_TOKEN_INVALID)
    ensures o.result.Err? ==> o.sessions == sessions
    ensures o.result.Ok? ==>
      && var refresh := request.cookies[REFRESH_COOKIE];
         && refresh.Signed?
         && o.result.value == TokenPair(CreateAccessToken(refresh.sub, now, cfg), refresh)
         && o.sessions == StoreTokens(sessions, refresh.sub, o.result.value, now)
  {
    if !Present(request, REFRESH_COOKIE) then SessionOutcome(Err(REFRESH_TOKEN_MISSING), sessions)
    else
      var refreshToken := request.cookies[REFRESH_COOKIE];
      match GetUsernameFromToken(refreshToken, now)
      case Err(e) => SessionOutcome(Err(e), sessions)
      case Ok(username) =>
        var pair := TokenPair(CreateAccessToken(username, now, cfg), refreshToken);
        SessionOutcome(Ok(pair), StoreTokens(sessions, username, pair, now))
  }

  /** refresh: a new access token next to the same refresh token; no cookies are set. */
  method Refresh(request: Request, redis: Redis, now: nat, cfg: Config) returns (r: Result<TokenPair>)
    modifies redis
    ensures var o := RefreshStep(old(redis.entries), request, now, cfg);
      r == o.result && redis.entries == o.sessions
  {
    if !Present(request, REFRESH_COOKIE) {
      return Err(REFRESH_TOKEN_MISSING);
    }
    var refreshToken := request.cookies[REFRESH_COOKIE];
    var username := GetUsernameFromToken(refreshToken, now);
    if username.Err? {
      return Err(username.error);
    }
    var newAccessToken := CreateAccessToken(username.value, now, cfg);
    var tokens := SetTokensInRedis(username.value, redis, newAccessToken, refreshToken, now);
    return Ok(tokens);
  }

  /** logout: delete_tokens. */
  method Logout(request: Request, response: Response, redis: Redis, db: Database, now: nat)
    returns (r: Result<string>)
    modifies response, redis
    ensures var o := DeleteTokensStep(db.users, old(redis.entries), request, now);
      r == o.result && redis.entries == o.sessions
    ensures r.Ok? ==> response.cookies == old(response.cookies)[ACCESS_COOKIE := Clear][REFRESH_COOKIE := Clear]
    ensures r.Err? ==> response.cookies == old(response.cookies)
  {
    r := DeleteTokens(request, response, db, redis, now);
  }

  /**
   * Login followed by a request that carries the returned pair as cookies
   * authenticates as that user, while both the session entry and the
   * refresh token are still live. The access token's own expiry is never
   * checked by the guard.
   */
  lemma LoginThenAuthenticate(users: Users, sessions: Sessions, form: UserCreate, now: nat, later: nat, cfg: Config)
    requires AuthenticateUser(users, form.username, form.password).Some?
    requires now <= later < now + SESSION_TTL && later <= now + RefreshLifetime(cfg)
    ensures var o := LoginStep(users, sessions, form, now, cfg);
      o.result.Ok? && Guard(users, o.sessions, CookieRequest(o.result.value), later) == Ok(users[form.username])
  {
    var o := LoginStep(users, sessions, form, now, cfg);
    var request := CookieRequest(o.result.value);
    assert request.cookies[REFRESH_COOKIE] == o.result.value.refreshToken;
    assert request.cookies[ACCESS_COOKIE] == o.result.value.accessToken;
    assert LiveSession(o.sessions, form.username, later) == Some(o.result.value);
  }

  /**
   * After a login, any pair whose refresh token still decodes to the same
   * user is rejected with "Invalid credentials" unless it is value-equal to
   * the pair just issued; the new entry replaced whatever was stored.
   */
  lemma ReLoginInvalidatesEarlierPair(users: Users, sessions: Sessions, form: UserCreate, now: nat, cfg: Config,
                                      request: Request, later: nat)
    requires AuthenticateUser(users, form.username, form.password).Some?
    requires GetTokenFromCookies(request).Ok?
    requires Decode(request.cookies[REFRESH_COOKIE], later).Some?
    requires request.cookies[REFRESH_COOKIE].sub == form.username
    requires now <= later
    ensures var o := LoginStep(users, sessions, form, now, cfg);
      && (GetTokenFromCookies(request).value != o.result.value ==>
            Guard(users, o.sessions, request, later) == Err(INVALID_CREDENTIALS))
      && (GetTokenFromCookies(request).value == o.result.value && later < now + SESSION_TTL ==>
            Guard(users, o.sessions, request, later) == Ok(users[form.username]))
  {
    var o := LoginStep(users, sessions, form, now, cfg);
    if later < now + SESSION_TTL {
      assert LiveSession(o.sessions, form.username, later) == Some(o.result.value);
    } else {
      assert LiveSession(o.sessions, form.username, later).None?;
    }
  }

  /**
   * After a successful logout the same request is refused with 401: with
   * "Invalid credentials" while its refresh token still decodes (the entry
   * is gone), with "Invalid token!" once it has expired.
   */
  lemma LogoutRevokesSession(users: Users, sessions: Sessions, request: Request, now: nat, later: nat)
    requires DeleteTokensStep(users, sessions, request, now).result.Ok?
    ensures var o := DeleteTokensStep(users, sessions, request, now);
      && REFRESH_COOKIE in request.cookies
      && var r := Guard(users, o.sessions, request, later);
         && r.Err? && r.error.status == 401
         && (Decode(request.cookies[REFRESH_COOKIE], later).Some? ==> r == Err(INVALID_CREDENTIALS))
  {
    var o := DeleteTokensStep(users, sessions, request, now);
    var refresh := request.cookies[REFRESH_COOKIE];
    assert LiveSession(o.sessions, refresh.sub, later).None?;
  }

  /**
   * After a refresh, the guard accepts the stored refresh token together
   * with the new access token and with no other access token: the old
   * access token fails unless it happens to equal the new one.
   */
  lemma RefreshRotatesAccessToken(users: Users, sessions: Sessions, request: Request, now: nat, later: nat,
                                  cfg: Config, accessToken: Token)
    requires RefreshStep(sessions, request, now, cfg).result.Ok?
    requires request.cookies[REFRESH_COOKIE].sub in users
    requires now <= later < now + SESSION_TTL && later <= request.cookies[REFRESH_COOKIE].exp
    requires !accessToken.Blank()
    ensures var o := RefreshStep(sessions, request, now, cfg);
      var refresh := request.cookies[REFRESH_COOKIE];
      var presented := CookieRequest(TokenPair(accessToken, refresh));
      Guard(users, o.sessions, presented, later)
        == if accessToken == o.result.value.accessToken then Ok(users[refresh.sub]) else Err(INVALID_CREDENTIALS)
  {
    var o := RefreshStep(sessions, request, now, cfg);
    var refresh := request.cookies[REFRESH_COOKIE];
    var presented := CookieRequest(TokenPair(accessToken, refresh));
    assert presented.cookies[REFRESH_COOKIE] == refresh;
    assert presented.cookies[ACCESS_COOKIE] == accessToken;
    assert LiveSession(o.sessions, refresh.sub, later) == Some(o.result.value);
  }

  /**
   * Refresh succeeds for a validly signed refresh token whatever the session
   * store holds, even one whose user does not exist; the guard then refuses
   * that user with 404.
   */
  lemma RefreshTrustsSignatureAlone(users: Users, sessions: Sessions, other: Sessions, request: Request,
                                    now: nat, cfg: Config)
    requires Present(request, REFRESH_COOKIE) && Present(request, ACCESS_COOKIE)
    requires Decode(request.cookies[REFRESH_COOKIE], now).Some?
    requires request.cookies[REFRESH_COOKIE].sub !in users
    ensures RefreshStep(sessions, request, now, cfg).result == RefreshStep(other, request, now, cfg).result
    ensures RefreshStep(sessions, request, now, cfg).result.Ok?
    ensures Guard(users, RefreshStep(sessions, request, now, cfg).sessions, request, now) == Err(USER_NOT_FOUND)
  {
  }

  /** A refresh token past its expiry fails with "Invalid token!" whatever the session store holds. */
  lemma ExpiredRefreshTokenRejected(users: Users, sessions: Sessions, request: Request, later: nat)
    requires GetTokenFromCookies(request).Ok?
    requires request.cookies[REFRESH_COOKIE].Signed? && request.cookies[REFRESH_COOKIE].exp < later
    ensures Guard(users, sessions, request, later) == Err(CURRENT_USER_TOKEN_INVALID)
  {
  }

  /**
   * Register alice, log her in at second 0 and again at second 1, then
   * present each pair at second 1: the first is refused, the second accepted.
   */
  method SingleSessionScenario(cfg: Config) returns (first: Result<User>, second: Result<User>)
    requires cfg.refreshTokenExpireDays > 0
    ensures first == Err(INVALID_CREDENTIALS)
    ensures second.Ok? && second.value.username == "alice"
  {
    var db := new Database();
    var redis := new Redis();
    var response := new Response();
    var alice := UserCreate("alice", "pw1");
    var registered := RegisterUser(db, alice);
    var t1 := Login(alice, response, redis, db, 0, cfg);
    var t2 := Login(alice, response, redis, db, 1, cfg);
    assert t1.value != t2.value;
    first := Guard(db.users, redis.entries, CookieRequest(t1.value), 1);
    second := Guard(db.users, redis.entries, CookieRequest(t2.value), 1);
  }

  /** Register bob, log in, log out with the issued cookies, present them again. */
  method LogoutScenario(cfg: Config) returns (after: Result<User>)
    ensures after == Err(INVALID_CREDENTIALS)
  {
    var db := new Database();
    var redis := new Redis();
    var response := new Response();
    var bob := UserCreate("bob", "pw");
    var registered := RegisterUser(db, bob);
    var tokens := Login(bob, response, redis, db, 0, cfg);
    var request := CookieRequest(tokens.value);
    var out := Logout(request, response, redis, db, 0);
    after := Guard(db.users, redis.entries, request, 0);
  }
}
