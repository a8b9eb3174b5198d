/**
 * app/auth.py: password handling, registration, the session store writes,
 * the cookie lookup and get_current_user, the guard every protected request
 * passes. The guard decodes the refresh cookie, finds its user, reads that
 * user's session entry and requires the stored pair to equal the presented
 * pair exactly; the session store is what makes logout and re-login revoke
 * tokens that are still validly signed.
 */
module Auth {
  import opened Http
  import opened Tokens
  import opened Web
  import opened Models
  import opened Storage

  /** The `ex=604800` of set_tokens_in_redis: seven days. */
  const SESSION_TTL: nat := 604800

  const USERNAME_TAKEN := HttpError(400, "Username already registered")
  /** What get_current_user, and delete_tokens too, raise for a refresh token that does not decode. */
  const CURRENT_USER_TOKEN_INVALID := HttpError(401, "Invalid token!")
  const USER_NOT_FOUND := HttpError(404, "User not found!")
  const INVALID_CREDENTIALS := HttpError(401, "Invalid credentials")
  const REFRESH_TOKEN_MISSING := HttpError(401, "Refresh token not found!")
  const ACCESS_TOKEN_MISSING := HttpError(401, "Access token not found!")
  const LOGGED_OUT: string := "Logged out successfully"

  /** What an operation returns or raises, with the session map it leaves. */
  datatype SessionOutcome<T> = SessionOutcome(result: Result<T>, sessions: Sessions)

  /** hash_password */
  function HashPassword(password: string): (h: PasswordHash)
    ensures VerifyPassword(password, h)
    ensures forall other :: other != password ==> !VerifyPassword(other, h)
  {
    Bcrypt(password)
  }

  /** verify_password */
  function VerifyPassword(plain: string, hashed: PasswordHash): (r: bool)
    ensures r <==> hashed == Bcrypt(plain)
  {
    hashed.password == plain
  }

  /**
   * register_user: 400 if the username is taken, otherwise one new row with
   * the hashed password.
   */
  method RegisterUser(db: Database, form: UserCreate) returns (r: Result<User>)
    requires db.Valid()
    modifies db
    ensures db.Valid() && db.tasks == old(db.tasks)
    ensures form.username in old(db.users) ==> r == Err(USERNAME_TAKEN) && unchanged(db)
    ensures form.username !in old(db.users) ==>
      && r.Ok?
      && r.value.username == form.username
      && r.value.passwordHash == HashPassword(form.password)
      && (forall name :: name in old(db.users) ==> old(db.users)[name].id != r.value.id)
      && db.users == old(db.users)[form.username := r.value]
  {
    if form.username in db.users {
      return Err(USERNAME_TAKEN);
    }
    var hashed := HashPassword(form.password);
    var user := db.AddUser(form.username, hashed);
    return Ok(user);
  }

  /** authenticate_user: the row, if it exists and the password verifies. */
  function AuthenticateUser(users: Users, username: string, password: string): (r: Option<User>)
    ensures r.Some? <==> username in users && VerifyPassword(password, users[username].passwordHash)
    ensures r.Some? ==> r.value == users[username]
  {
    if username !in users then None
    else
      var user := users[username];
      if VerifyPassword(password, user.passwordHash) then Some(user) else None
  }

  /** A cookie that is there and not the empty string. */
  predicate Present(request: Request, name: string) {
    name in request.cookies && !request.cookies[name].Blank()
  }

  /**
   * get_token_from_cookies: the refresh cookie is checked first, then the
   * access cookie; the result is (access, refresh).
   */
  function GetTokenFromCookies(request: Request): (r: Result<TokenPair>)
    ensures r.Ok? <==> Present(request, REFRESH_COOKIE) && Present(request, ACCESS_COOKIE)
    ensures r.Ok? ==> r.value == TokenPair(request.cookies[ACCESS_COOKIE], request.cookies[REFRESH_COOKIE])
    ensures !Present(request, REFRESH_COOKIE) ==> r == Err(REFRESH_TOKEN_MISSING)
    ensures Present(request, REFRESH_COOKIE) && !Present(request, ACCESS_COOKIE) ==> r == Err(ACCESS_TOKEN_MISSING)
  {
    if !Present(request, REFRESH_COOKIE) then Err(REFRESH_TOKEN_MISSING)
    else if !Present(request, ACCESS_COOKIE) then Err(ACCESS_TOKEN_MISSING)
    else Ok(TokenPair(request.cookies[ACCESS_COOKIE], request.cookies[REFRESH_COOKIE]))
  }

  /**
   * get_current_user. The token decoded is the request's refresh cookie
   * (every caller has already checked it is there); the stored pair is
   * compared with the `accessToken`, `refreshToken` arguments. It reads the
   * user table and the session store and changes neither.
   */
  function GetCurrentUser(users: Users, sessions: Sessions, request: Request,
                          accessToken: Token, refreshToken: Token, now: nat): (r: Result<User>)
    requires REFRESH_COOKIE in request.cookies
    ensures var d := Decode(request.cookies[REFRESH_COOKIE], now);
      && (r.Ok? <==> d.Some? && d.value.sub in users
                     && LiveSession(sessions, d.value.sub, now) == Some(TokenPair(accessToken, refreshToken)))
      && (r.Ok? ==> d.Some? && d.value.sub in users && r.value == users[d.value.sub])
      && (d.None? ==> r == Err(CURRENT_USER_TOKEN_INVALID))
      && (d.Some? && d.value.sub !in users ==> r == Err(USER_NOT_FOUND))
      && (d.Some? && d.value.sub in users && r.Err? ==> r == Err(INVALID_CREDENTIALS))
  {
    match Decode(request.cookies[REFRESH_COOKIE], now)
    case None => Err(CURRENT_USER_TOKEN_INVALID)
    case Some(claims) =>
      if claims.sub !in users then Err(USER_NOT_FOUND)
      else
        match LiveSession(sessions, claims.sub, now)
        case None => Err(INVALID_CREDENTIALS)
        case Some(stored) =>
          if stored.accessToken != accessToken || stored.refreshToken != refreshToken then Err(INVALID_CREDENTIALS)
          else Ok(users[claims.sub])
  }

  /**
   * The guard each task endpoint runs: get_token_from_cookies, then
   * get_current_user with the two cookie values.
   */
  function Guard(users: Users, sessions: Sessions, request: Request, now: nat): (r: Result<User>)
    ensures r.Ok? <==>
      && Present(request, REFRESH_COOKIE) && Present(request, ACCESS_COOKIE)
      && Decode(request.cookies[REFRESH_COOKIE], now).Some?
      && request.cookies[REFRESH_COOKIE].sub in users
      && LiveSession(sessions, request.cookies[REFRESH_COOKIE].sub, now)
           == Some(TokenPair(request.cookies[ACCESS_COOKIE], request.cookies[REFRESH_COOKIE]))
    ensures GetTokenFromCookies(request).Err? ==> r == Err(GetTokenFromCookies(request).error)
    ensures r.Ok? ==>
      && Present(request, REFRESH_COOKIE) && Present(request, ACCESS_COOKIE)
      && var refresh := request.cookies[REFRESH_COOKIE];
         && refresh.Signed? && now <= refresh.exp && refresh.sub in users
         && r.value == users[refresh.sub]
         && LiveSession(sessions, refresh.sub, now) == Some(TokenPair(request.cookies[ACCESS_COOKIE], refresh))
  {
    match GetTokenFromCookies(request)
    case Err(e) => Err(e)
    case Ok(pair) => GetCurrentUser(users, sessions, request, pair.accessToken, pair.refreshToken, now)
  }

  /** The request a client sends back after receiving `pair` as cookies. */
  function CookieRequest(pair: TokenPair): Request {
    Request(map[ACCESS_COOKIE := pair.accessToken, REFRESH_COOKIE := pair.refreshToken])
  }

  /**
   * The session map after set_tokens_in_redis(username, ...) at time `now`:
   * the user's entry holds exactly this pair for SESSION_TTL seconds, and no
   * other user's entry changes.
   */
  function StoreTokens(sessions: Sessions, username: string, pair: TokenPair, now: nat): (r: Sessions)
    ensures forall later :: now <= later < now + SESSION_TTL ==> LiveSession(r, username, later) == Some(pair)
    ensures LiveSession(r, username, now + SESSION_TTL).None?
    ensures r.Keys == sessions.Keys + {username}
    ensures forall name :: name in sessions && name != username ==> r[name] == sessions[name]
  {
    sessions[username := SessionEntry(pair, now + SESSION_TTL)]
  }

  /** set_tokens_in_redis: overwrite the user's entry and return the pair. */
  method SetTokensInRedis(username: string, redis: Redis, accessToken: Token, refreshToken: Token, now: nat)
    returns (tokens: TokenPair)
    modifies redis
    ensures tokens == TokenPair(accessToken, refreshToken)
    ensures redis.entries == StoreTokens(old(redis.entries), username, tokens, now)
  {
    tokens := TokenPair(accessToken, refreshToken);
    redis.Set(username, tokens, SESSION_TTL, now);
  }

  /**
   * The effect of delete_tokens: after the cookie checks, the refresh token
   * must decode and name an existing user; that user's entry is then removed
   * without comparing it with the presented tokens.
   */
  function DeleteTokensStep(users: Users, sessions: Sessions, request: Request, now: nat): (o: SessionOutcome<string>)
    ensures o.result.Err? ==> o.sessions == sessions
    ensures o.result.Ok? ==>
      && GetTokenFromCookies(request).Ok?
      && var refresh := request.cookies[REFRESH_COOKIE];
         && Decode(refresh, now).Some? && refresh.sub in users
         && o.sessions == sessions - {refresh.sub}
         && o.result.value == LOGGED_OUT
    ensures GetTokenFromCookies(request).Err? ==> o.result == Err(GetTokenFromCookies(request).error)
    ensures GetTokenFromCookies(request).Ok? && Decode(request.cookies[REFRESH_COOKIE], now).None? ==>
      o.result == Err(CURRENT_USER_TOKEN_INVALID)
    ensures GetTokenFromCookies(request).Ok? && Decode(request.cookies[REFRESH_COOKIE], now).Some? ==>
      var refresh := request.cookies[REFRESH_COOKIE];
      && (refresh.sub !in users ==> o.result == Err(USER_NOT_FOUND))
      && (refresh.sub in users ==> o.result == Ok(LOGGED_OUT) && o.sessions == sessions - {refresh.sub})
  {
    match GetTokenFromCookies(request)
    case Err(e) => SessionOutcome(Err(e), sessions)
    case Ok(pair) =>
      match Decode(pair.refreshToken, now)
      case None => SessionOutcome(Err(CURRENT_USER_TOKEN_INVALID), sessions)
      case Some(claims) =>
        if claims.sub !in users then SessionOutcome(Err(USER_NOT_FOUND), sessions)
        else SessionOutcome(Ok(LOGGED_OUT), sessions - {claims.sub})
  }

  /** delete_tokens: remove the session entry and clear both cookies. */
  method DeleteTokens(request: Request, response: Response, db: Database, redis: Redis, now: nat)
    returns (r: Result<string>)
    modifies response, redis
    ensures var o := DeleteTokensStep(db.users, old(redis.entries), request, now);
      r == o.result && redis.entries == o.sessions
    ensures r.Ok? ==> response.cookies == old(response.cookies)[ACCESS_COOKIE := Clear][REFRESH_COOKIE := Clear]
    ensures r.Err? ==> response.cookies == old(response.cookies)
  {
    var tokens := GetTokenFromCookies(request);
    if tokens.Err? {
      return Err(tokens.error);
    }
    var claims := Decode(tokens.value.refreshToken, now);
    if claims.None? {
      return Err(CURRENT_USER_TOKEN_INVALID);
    }
    var username := claims.value.sub;
    if username !in db.users {
      return Err(USER_NOT_FOUND);
    }
    redis.Delete(username);
    response.DeleteCookie(ACCESS_COOKIE);
    response.DeleteCookie(REFRESH_COOKIE);
    return Ok(LOGGED_OUT);
  }

  /**
   * delete_tokens never compares the presented pair with the stored one: its
   * answer is the same whatever the store holds. When both cookies are there,
   * the refresh token decodes and names a user who has no entry, logout
   * succeeds and leaves the store as it was.
   */
  lemma DeleteTokensIgnoresStoredPair(users: Users, sessions: Sessions, other: Sessions, request: Request, now: nat)
    ensures DeleteTokensStep(users, sessions, request, now).result == DeleteTokensStep(users, other, request, now).result
    ensures (&& GetTokenFromCookies(request).Ok? && Decode(request.cookies[REFRESH_COOKIE], now).Some?
             && request.cookies[REFRESH_COOKIE].sub in users && request.cookies[REFRESH_COOKIE].sub !in sessions) ==>
        var o := DeleteTokensStep(users, sessions, request, now);
        o.result.Ok? && o.sessions == sessions
  {
    var o := DeleteTokensStep(users, sessions, request, now);
    if GetTokenFromCookies(request).Ok? && Decode(request.cookies[REFRESH_COOKIE], now).Some?
      && request.cookies[REFRESH_COOKIE].sub in users && request.cookies[REFRESH_COOKIE].sub !in sessions {
      assert sessions - {request.cookies[REFRESH_COOKIE].sub} == sessions;
    }
  }

  /** A freshly registered user authenticates with that password and no other. */
  lemma RegisterThenAuthenticate(users: Users, id: nat, form: UserCreate, password: string)
    requires form.username !in users
    ensures var table := users[form.username := User(id, form.username, HashPassword(form.password))];
      AuthenticateUser(table, form.username, password).Some? <==> password == form.password
  {
  }
}
