# Session authentication and task CRUD, modelled in Dafny

This project models the core of a FastAPI task manager: a dual-token session
protocol guarding a per-user task API.

- **Login** checks the password. It mints an access token and a refresh token, both JSON Web Tokens (RFC 7519) with a `sub` and an `exp` claim. It stores the pair in Redis under the username with a 604800-second time-to-live, sets both as cookies and returns them.
- **The guard** (`get_current_user`) decodes the refresh cookie and finds its user. It reads that user's Redis entry and accepts the request only if the stored pair equals the presented pair exactly. A re-login overwrites the entry, so it revokes earlier pairs. Logout deletes the entry, so it revokes the current pair. Both work even while the tokens are still validly signed.
- **Refresh** mints a new access token. It keeps the presented refresh token and overwrites the entry with the new pair.
- **The task endpoints** run the guard and then one CRUD operation. That operation is scoped to the authenticated user's id.

The model has these modules, one per source file or shared concern:

| module | file | models |
|---|---|---|
| `Http` | http.dfy | `HTTPException` as `HttpError(status, detail)`; `Result`, `Option`; the two cookie names |
| `Tokens` | tokens.dfy | the JWT codec: `Signed(sub, exp)` versus any other string, decoding with expiry, the two token lifetimes |
| `Web` | web.dfy | request cookies; the injected `Response` whose cookie calls update it in place |
| `Models` | models.dfy | users, tasks, statuses, the create/update schemas, the token pair, `setattr` on one patch item |
| `Storage` | storage.dfy | the `Database` (user and task tables, autoincrement ids) and `Redis` (entries with expiry) objects |
| `Auth` | auth.dfy | app/auth.py |
| `Crud` | crud.dfy | app/crud.py |
| `UserRouter` | user_router.dfy | app/user_router.py and the protocol properties |
| `TaskRouter` | task_router.dfy | app/task_router.py |

### How the model works

- Pure source code becomes functions over maps: the token helpers, `authenticate_user`, `get_token_from_cookies`, `get_current_user`, `get_tasks` and `get_task`.
- Code that writes a store becomes a method over the objects the source injects (`db`, `redis`, `response`). The methods have `modifies` clauses.
- Each such method's `ensures` states its whole new state:
  - Login, refresh, logout, `delete_tokens`, `create_task`, `update_task` and `delete_task` are each proved to have exactly the effect of a `...Step` function (for example `LoginStep` or `UpdateTaskStep`). The multi-step lemmas compose those functions.
  - `set_tokens_in_redis` is proved against the `StoreTokens` map.
  - `register_user` and the `Database`, `Redis` and `Response` methods state their new fields directly, relative to the old ones.
- `update_task` keeps its `setattr` loop. The loop is proved equal to an independent field-by-field definition of a partial update (`ApplyPatch`).
- The `status` filter of `get_tasks` is read the way the `Enum(TaskStatus)` column reads a string (`ParseStatus`). `TaskStatus` is a `str` enum, so both a value ("Завершена") and a member name ("COMPLETED") select that status. This follows the column type's lookup in SQLAlchemy, which is not part of the repository.
- Time is a natural number of seconds passed in as `now`.
- The lifetimes in the deployment configuration are a `Config` parameter. app/config.py is not part of this model.

### Quirks of the code, kept as found

- **Access-token lifetime.** `create_access_token` adds `timedelta(days=ACCESS_TOKEN_EXPIRE_MINUTES)` (app/auth.py:68), so access tokens live that many days. `AccessLifetime` keeps this.
- **Guard failures.** A missing session entry and a stored pair that differs from the presented one raise the same 401 "Invalid credentials" (app/auth.py:139-149).
- **Decode failures.** Each caller maps a decode failure to its own detail text:
  - `get_current_user` and `delete_tokens` raise "Invalid token!" (app/auth.py:151-155, 200-204);
  - `get_username_from_token`, used by `refresh`, raises "Invalid token" (app/auth.py:110-114);
  - `verify_token` raises "Could not validate credentials" (app/auth.py:89-100).
- **Missing cookies.** `get_token_from_cookies` checks the refresh cookie first ("Refresh token not found!"), then the access cookie ("Access token not found!"). An empty cookie counts as missing (app/auth.py:159-170).
- **Re-login.** Tokens carry only `sub` and `exp`, so a second login in the same second mints a pair equal to the first. The model never assumes the new pair differs from the old one.
- **The access token is never checked.** `get_current_user` only compares the access token with the stored one (app/auth.py:145). Its signature and expiry are never checked.

## Model

| member | source | states |
|---|---|---|
| Tokens.Decode | app/auth.py:94-100 | jwt.decode accepts only a token signed with the secret whose `exp` has not passed, and returns its `sub` and `exp` |
| Tokens.AccessLifetime | app/auth.py:68 | the access lifetime is a whole number of days equal to ACCESS_TOKEN_EXPIRE_MINUTES, which is 1440 times the lifetime that many minutes would give |
| Tokens.RefreshLifetime | app/auth.py:79 | the refresh lifetime is exactly REFRESH_TOKEN_EXPIRE_DAYS whole days |
| Tokens.CreateAccessToken | app/auth.py:65-74 | the token is signed, carries the caller's `sub` and has `exp` = now + the configured number of days; it decodes to that `sub` until `exp` and not after |
| Tokens.CreateRefreshToken | app/auth.py:76-85 | the same with `exp` = now + REFRESH_TOKEN_EXPIRE_DAYS days |
| Tokens.VerifyToken | app/auth.py:88-100 | returns the claims exactly when the token decodes, otherwise 401 "Could not validate credentials" |
| Tokens.GetUsernameFromToken | app/auth.py:103-114 | returns the `sub` exactly when the token decodes, otherwise 401 "Invalid token" |
| Web.Response.SetCookie | app/user_router.py:48-55 | the response sets that cookie to that value and keeps its other cookies |
| Web.Response.DeleteCookie | app/auth.py:197-198 | the response clears that cookie and keeps its other cookies |
| Storage.LiveSession | app/auth.py:138-139 | redis.get yields the stored pair exactly when the key is present and its time-to-live has not run out |
| Storage.Redis.Set | app/auth.py:217-219 | the key's entry is replaced by the value, expiring `ex` seconds from now; other keys are untouched |
| Storage.Redis.Delete | app/auth.py:196 | the key is removed; a missing key is no error; other keys are untouched |
| Storage.Database.AddUser | app/auth.py:45-51 | one row is added under the username, with an id no existing user has; tasks are untouched |
| Storage.Database.AddTask | app/crud.py:23-27 | one row is added with the given fields and owner, under an id not yet in the table |
| Storage.Database.SetTaskField | app/crud.py:40-42 | one attribute of one task row is set; nothing else changes |
| Storage.Database.DeleteTask | app/crud.py:55-56 | exactly that row is removed |
| Auth.HashPassword | app/auth.py:24-25 | verify_password accepts the password a digest was made from and rejects every other |
| Auth.VerifyPassword | app/auth.py:27-32 | a password verifies against a digest exactly when the digest is that password's hash |
| Auth.RegisterUser | app/auth.py:34-52 | a taken username gives 400 "Username already registered" and changes nothing; otherwise exactly one user is added, with that name, the hashed password and a fresh id |
| Auth.AuthenticateUser | app/auth.py:54-63 | returns the user exactly when the username exists and the password verifies against its stored hash; otherwise None |
| Auth.RegisterThenAuthenticate | app/auth.py:44-63 | a newly registered user authenticates with their password and with no other |
| Auth.GetTokenFromCookies | app/auth.py:157-171 | succeeds exactly when both cookies are present and non-empty, returning (access, refresh) as sent; a missing refresh cookie is reported first, then a missing access cookie |
| Auth.GetCurrentUser | app/auth.py:117-155 | returns the user exactly when the refresh cookie decodes, its `sub` is a user, that user has a live entry and the entry equals the presented pair; otherwise 401 "Invalid token!", 404 "User not found!" or 401 "Invalid credentials", in that order |
| Auth.Guard | app/task_router.py:20-29 | the cookie lookup then get_current_user: it accepts exactly when both cookies are present and non-empty, the refresh token is signed and unexpired, its `sub` is a user, and that user's live entry holds exactly the two cookies; a cookie error passes through unchanged |
| Auth.StoreTokens | app/auth.py:206-220 | after the write the user's entry is exactly the pair for 604800 seconds and then gone; no other user's entry changes |
| Auth.SetTokensInRedis | app/auth.py:206-220 | overwrites the user's entry with the pair (the StoreTokens map) and returns that pair |
| Auth.DeleteTokensStep | app/auth.py:173-204 | a cookie error from get_token_from_cookies passes through; a refresh token that does not decode gives 401 "Invalid token!"; one naming no user gives 404 "User not found!"; one naming a user succeeds with "Logged out successfully" and removes exactly that user's entry; every failure leaves the store unchanged |
| Auth.DeleteTokens | app/auth.py:173-204 | has exactly the DeleteTokensStep effect on the store; on success it clears both cookies, and on failure it leaves the response alone |
| Auth.DeleteTokensIgnoresStoredPair | app/auth.py:183-199 | the outcome does not depend on what the store holds (the presented pair is never compared); with both cookies present, a decoding refresh token and an existing user who has no entry, logout succeeds and leaves the store unchanged |
| Models.ParseStatus | app/models.py:27-30 | a string compared with the `Enum(TaskStatus)` column denotes a status exactly when it is that status's value or its member name |
| Crud.GetTasks | app/crud.py:7-14 | returns exactly the user's tasks, unchanged; a status filter that is neither None nor empty further keeps only the tasks whose status it denotes (by value or by member name) |
| Crud.GetTask | app/crud.py:16-20 | returns the task exactly when it exists and the user owns it; otherwise None |
| Crud.CreateTaskStep | app/crud.py:22-29 | adds one task with the given title, description, status and owner under the new id; every existing task is unchanged |
| Crud.CreateTask | app/crud.py:22-29 | adds the task under an id not yet used, with the CreateTaskStep effect |
| Crud.SetFields | app/crud.py:40 | the items are exactly the (attribute, value) pairs the patch sets, each attribute at most once, in the schema's field order |
| Models.SetAttr | app/crud.py:41 | setattr changes only the named attribute, to the given value; id, owner and the other attributes keep theirs |
| Crud.SetAttrs | app/crud.py:40-41 | the setattr loop never changes a task's id or owner |
| Crud.SetAttrsAppend | app/crud.py:40-41 | running the loop over two item lists in turn equals running it over their concatenation |
| Crud.SetAttrsIsPatch | app/crud.py:40-41 | the loop over the set items equals the field-by-field patch: set fields take the patch's value, and the others keep theirs |
| Crud.UpdateTaskStep | app/crud.py:31-44 | a missing or foreign task gives 404 "Task not found" and no change; otherwise the task becomes the field-by-field patch of itself (ApplyPatch), is returned and is the only row that changes; no other user's task changes |
| Crud.UpdateTask | app/crud.py:31-44 | the ownership check and the setattr loop have exactly the UpdateTaskStep effect |
| Crud.UpdateTaskIdempotent | app/crud.py:40-41 | applying the same patch twice gives the same task and table as applying it once |
| Crud.DeleteTaskStep | app/crud.py:46-57 | a missing or foreign task gives 404 and no change; otherwise it returns that task and removes exactly that one |
| Crud.DeleteTask | app/crud.py:46-57 | has exactly the DeleteTaskStep effect |
| UserRouter.LoginStep | app/user_router.py:19-57 | wrong credentials give 400 "Incorrect username or password" with the store unchanged; otherwise both tokens are minted for the user, and the store holds exactly them under the username |
| UserRouter.Login | app/user_router.py:19-57 | has the LoginStep effect; on success it sets both cookies to the stored pair, which it also returns |
| UserRouter.RefreshStep | app/user_router.py:67-85 | fails without touching the store exactly when the refresh cookie is missing or empty (401 "Refresh token not found!") or does not decode (401 "Invalid token"); otherwise it stores a new access token with the unchanged refresh token under the token's `sub` |
| UserRouter.Refresh | app/user_router.py:67-85 | has exactly the RefreshStep effect and touches no cookie |
| UserRouter.Logout | app/user_router.py:59-66 | has exactly the delete_tokens effect on the store and the cookies |
| UserRouter.LoginThenAuthenticate | app/user_router.py:36-47 | after a login, the returned pair presented as cookies authenticates as that user while the entry and the refresh token are live |
| UserRouter.ReLoginInvalidatesEarlierPair | app/user_router.py:42-47 | after a login, every pair whose refresh token names that user fails with 401 "Invalid credentials" unless it equals the new pair |
| UserRouter.LogoutRevokesSession | app/user_router.py:59-66 | after logout the same cookies always fail with a 401, and with "Invalid credentials" whenever the refresh token still decodes |
| UserRouter.RefreshRotatesAccessToken | app/user_router.py:74-85 | after a refresh, the kept refresh token authenticates with the new access token and with no other |
| UserRouter.RefreshTrustsSignatureAlone | app/user_router.py:67-85 | refresh's answer does not depend on the stored entry; it succeeds even for a user that does not exist, whom the guard then refuses with 404 |
| UserRouter.ExpiredRefreshTokenRejected | app/auth.py:123-155 | a refresh token past its `exp` gives 401 "Invalid token!" whatever the store holds |
| UserRouter.SingleSessionScenario | app/user_router.py:19-57 | register alice, then log in at seconds 0 and 1: the first pair is refused with "Invalid credentials" and the second is accepted |
| UserRouter.LogoutScenario | app/user_router.py:59-66 | register bob, log in, log out: the same cookies are then refused with "Invalid credentials" |
| TaskRouter.CreateTaskEndpoint | app/task_router.py:12-35 | a guard failure is returned with the table unchanged; otherwise the new task is owned by the authenticated user and nothing else changes |
| TaskRouter.GetTasksEndpoint | app/task_router.py:37-60 | a guard failure is returned; otherwise exactly get_tasks for the caller's id, so every task returned is the caller's |
| TaskRouter.GetTaskEndpoint | app/task_router.py:62-87 | a guard failure is returned; 404 "Task not found" exactly when the caller does not own that id; otherwise that task |
| TaskRouter.UpdateTaskEndpoint | app/task_router.py:90-113 | a guard failure leaves the table unchanged; otherwise the UpdateTaskStep effect for the caller's id, and no other user's task changes |
| TaskRouter.DeleteTaskEndpoint | app/task_router.py:115-139 | a guard failure leaves the table unchanged; otherwise the DeleteTaskStep effect for the caller's id; the message names the deleted id, and no other user's task changes |
| TaskRouter.DeletedMessage | app/task_router.py:137-139 | the message is "Task " and " deleted successfully" around decimal digits that read back to the deleted id |
| TaskRouter.DecimalString | app/task_router.py:137-139 | the id is rendered as decimal digits with no leading zero |
| TaskRouter.DecimalRoundTrip | app/task_router.py:137-139 | reading the rendered digits back gives the id |
| TaskRouter.DeletedMessageNamesTask | app/task_router.py:132-139 | two delete messages are equal only if they name the same task id |

## Left out

- Cryptography is not modelled. This covers HS256 signing, base64 and JSON encoding of tokens, and the secret key. A token is `Signed(sub, exp)` or some other string, and forging is assumed impossible.
- bcrypt is modelled as a digest that determines its password. Salting, cost, and bcrypt's 72-byte truncation are not modelled.
- The JSON encoding of the Redis value (`json.dumps`/`json.loads`) is not modelled. The pair is stored directly.
- Clock reads are not modelled. One `now` stands for every `datetime.utcnow()` and Redis clock reading within one request. The source reads the clock separately for each token, so its two `exp` values can straddle a second.
- Concurrency and async execution are not modelled. Each operation is one atomic step, so two logins racing on the same key are out of scope.
- Database and Redis connection setup is not modelled (app/database.py, app/main.py, app/task_redis.py). A store that cannot be reached is not modelled either.
- FastAPI plumbing is not modelled: dependency injection, headers (including `WWW-Authenticate`), cookie attributes and response shapes. Refresh returns only its token pair; the source also sends the fixed message "Refreshed successfully". The `/auth/register` route only calls `register_user`, which is modelled.
- Auth.GetCurrentUser: requires the refresh cookie to be present. Every caller has already checked this with `get_token_from_cookies`. The source would pass `None` to `jwt.decode` here, and that case is not modelled.
- Crud.GetTasks: a status string that is neither a `TaskStatus` value nor a member name matches no task. In the source, the database layer decides that case: depending on the backend, it matches nothing or raises an error.
- TaskUpdate: an explicit JSON `null` in a patch counts as "set" for pydantic, so the source would write NULL to the column. The model's patch fields carry values only, so null writes are not represented.
- The database's unique constraint on usernames, and the race it guards against, are not modelled. The check before the insert is.
- Task ids are unbounded natural numbers. A negative `task_id` in a path parses as an int in the source but matches no row, so it gives the same 404 as any other missing id. A path id beyond the id column's integer range makes the database layer raise an error (a 500) in the source; the model answers 404 for it. The exact limit depends on the database backend.
- The model takes the configured `ALGORITHM` to be "HS256". One `Decode` stands for every `jwt.decode` call. The encoders, `verify_token` and `get_username_from_token` use the configured `ALGORITHM` (app/auth.py:71-73, 82-84, 95-97, 105-107). `get_current_user` and `delete_tokens` hard-code `algorithms=["HS256"]` (app/auth.py:126-128, 184-186). With any other setting, the guard and logout would reject every token that refresh accepts.
