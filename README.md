# auth-flow: session lifecycle model

A Dafny model of the credential core of the auth-flow service: password
hashing and verification, issuance and decoding of JWT access and refresh
tokens, the bearer-token check that guards protected routes, the user table
operations, and the `/auth` routes `register`, `login`, `refresh` and
`logout` acting on the table of refresh-token records keyed by `jti`.

Layout (one module per source file, plus the two foreign libraries):

- `wrappers.dfy` — `Option` and `Result`.
- `config.dfy` — `Config`: the settings value with the defaults of `app/config.py` (HS256, 30 minutes, 7 days).
- `passlib.dfy` — `Passlib`: pbkdf2_sha256 hashing as a symbolic term; a digest verifies exactly the secret it was derived from, and a secret over 4096 characters raises passlib's size error.
- `jose.dfy` — `Jose`: JWT encode/decode as a symbolic signed term `Jws(claims, key, alg)`; decoding checks key and algorithm, then the claims in jose's order: `iat`, `nbf` (not after now), `exp` (`exp < now` fails), `aud`, `sub`, `jti`, `at_hash`.
- `auth.dfy` — `Auth` (`app/auth.py`): truncation to 72 characters, hashing, verification, TTL fallbacks, access and refresh token construction, `decode_token`.
- `models.dfy` — `Models`: the `User` and `RefreshTokenRecord` rows, the request body, and the class `Db` holding `users: seq<User>` and `refreshTokens: map<string, RefreshTokenRecord>` with its invariant `Valid()` (unique ids and emails, every record owned by a registered user).
- `http.dfy` — `Http`: the status-and-detail error the handlers raise.
- `crud.dfy` — `Crud` (`app/crud.py`): lookups by email and id, `CreateUser` as a method that takes the database `db: Db`, password check.
- `deps.dfy` — `Deps` (`app/deps.py`): the bearer-token decision.
- `router_auth.dfy` — `AuthRouter` (`app/routers/auth.py`): the four handlers as module-level methods that take the database `db: Db`, the table helpers and lemmas about revocation and expiry, and an end-to-end session.

Time is a single integer clock in seconds passed as `now`. The random values
of the source (`uuid4` for `jti`, the PBKDF2 salt) and the id the database
assigns to a new user are parameters; the fresh ones carry a precondition that they are not in use.

## Model

| member | source | states |
|---|---|---|
| Passlib.Hash | app/auth.py:7-10 | a secret over 4096 characters raises the size error; otherwise the digest keeps the salt in clear and a key derived from exactly that secret and salt |
| Passlib.Verify | app/auth.py:7-13 | a secret over 4096 characters raises the size error; otherwise a digest verifies a secret iff its key was derived from that secret with the digest's own salt |
| Passlib.VerifyHash | app/auth.py:7-13 | within the size limit, a PBKDF2 digest verifies a secret exactly when the secret is the one it was made from, whatever the salt |
| Passlib.SaltedHashesDiffer | app/auth.py:7-10 | two hashes of one secret under different salts differ, yet each verifies the secret |
| Jose.Encode | app/auth.py:19 | the signed token carries exactly the given claims, key and algorithm |
| Jose.Decode | app/auth.py:29-34 | decoding succeeds iff the token was signed with the same key and algorithm, its iat/nbf/exp are numbers and sub/jti strings, it has no aud and no at_hash, nbf is not after now and exp not before now, and then yields the signed claims; unparseable text is Malformed, a wrong key or algorithm is InvalidSignature, Expired only for an exp before now |
| Jose.DecodeEncode | app/auth.py:15-34 | round trip: a token with acceptable claims decodes with its own key to the claims it was encoded from, from its nbf until it expires |
| Jose.DecodeWithOtherKey | app/auth.py:29-34 | a token signed with another key fails with InvalidSignature |
| Jose.DecodeAfterExpiry | app/auth.py:29-34 | a correctly signed token whose exp is strictly before now fails with Expired, when the iat and nbf checks before it pass |
| Jose.DecodeBeforeNotBefore | app/auth.py:29-34 | a correctly signed token is refused with InvalidClaims before its nbf time |
| Auth.Truncate | app/auth.py:10 | the hashed part of a password is its prefix of exactly min(length, 72) characters, equal to the password iff it has at most 72 |
| Auth.GetPasswordHash | app/auth.py:9-10 | hashing never meets the size limit; the stored digest, under the given salt, verifies the first 72 characters of the password and rejects the whole password when that has 73 to 4096 characters |
| Auth.VerifyPasswordAsWritten | app/auth.py:12-13 | the program's check: raises the size error iff the candidate has over 4096 characters, else accepts iff the digest was derived from exactly the untruncated candidate |
| Auth.VerifyPassword | app/auth.py:9-13 | the corrected check: never raises, and accepts iff the digest was derived from the candidate's first 72 characters |
| Auth.VerifiersAgreeOnShortPasswords | app/auth.py:9-13 | for candidates of at most 72 characters the corrected and the as-written check agree on every digest |
| Auth.AsWrittenVerifiesShortPasswords | app/auth.py:9-13 | as written, a password of at most 72 characters verifies against its own hash |
| Auth.AsWrittenRejectsLongPasswords | app/auth.py:9-13 | as written, a password longer than 72 characters never verifies against its own hash: up to 4096 characters the check answers false, beyond it raises the size error |
| Auth.LongPasswordLockedOut | app/auth.py:9-13 | the concrete 73-character password "aaa…a" fails the as-written check and passes the corrected one |
| Auth.VerifyPasswordExactly | app/auth.py:9-13 | with truncation on both sides, a password verifies against the hash of a stored one iff their first 72 characters agree |
| Auth.HashVerifyRoundTrip | app/auth.py:9-13 | with truncation on both sides, every password verifies against its own hash |
| Auth.AccessTtl | app/auth.py:17 | an absent or zero override falls back to the configured minutes; any other override is used as is |
| Auth.RefreshTtl | app/auth.py:24 | an absent or zero override falls back to the configured days; any other override is used as is |
| Auth.CreateAccessToken | app/auth.py:15-19 | the token is signed with the configured key and algorithm and carries exactly the caller's claims plus exp = now + TTL and type "access", these two overriding the caller's |
| Auth.CreateRefreshToken | app/auth.py:21-27 | the returned jti and expiry are the ones embedded in the token, whose claims are the caller's plus exp, jti and type "refresh" |
| Auth.DecodeToken | app/auth.py:29-34 | returns jose's result unchanged: the payload of a token signed with the configured secret, or jose's own error |
| Auth.DecodeIssuedAccessToken | app/auth.py:15-34 | given caller claims with string sub/jti, numeric iat and no nbf, aud or at_hash, an issued access token decodes to its claims, with type "access" and the caller's sub, from issue until exp inclusive |
| Auth.DecodeIssuedRefreshToken | app/auth.py:21-34 | given such caller claims, an issued refresh token decodes to its claims, with type "refresh", its jti and the caller's sub, until exp inclusive |
| Auth.RefreshOutlivesAccess | app/auth.py:15-27 | under the defaults a refresh token lives 7 days and an access token 30 minutes, so the refresh token expires later |
| Crud.GetUserByEmail | app/crud.py:5-6 | returns a user of the table with that email, and none iff no user has it |
| Crud.GetUserById | app/crud.py:8-9 | returns a user of the table with that id, and none iff no user has it |
| Crud.GetUserByEmailFinds | app/crud.py:5-6 | with unique emails the lookup returns exactly the user holding the email |
| Crud.GetUserByIdFinds | app/crud.py:8-9 | with unique ids the lookup returns exactly the user holding the id |
| Crud.CreateUser | app/crud.py:11-20 | appends exactly one user, with the given id, email and full name and the hash of the password, leaving earlier users unchanged |
| Crud.VerifyUserPassword | app/crud.py:22-23 | a user's password check is verify_password, as written, applied to the candidate and the stored hash, size error included |
| Crud.CreatedUserVerifies | app/crud.py:11-23 | a candidate over 4096 characters raises the size error; any other verifies against a created user iff it equals the first 72 characters of the creation password |
| Deps.SubjectUser | app/deps.py:17-21 | the user found is in the table with id equal to the sub claim; none iff no user has that id or sub is absent |
| Deps.GetCurrentUser | app/deps.py:9-22 | decode failure gives 401 "Invalid token"; a decoded non-access type gives 401 "Invalid token type"; an access token whose sub names no user gives 401 "User not found"; success happens iff the token decodes, is of type access and its sub is the id of a user in the table, and then returns such a user |
| Deps.AccessTokenAuthenticates | app/deps.py:9-22 | an access token issued for a registered user authenticates exactly that user until it expires |
| Deps.RefreshTokenIsNotBearer | app/deps.py:15-16 | a refresh token is always refused as a bearer token, never reaching the user lookup |
| Models.Db.constructor | app/main.py:14 | a freshly created database has empty users and refresh-token tables and satisfies the table invariant |
| AuthRouter.JtiClaim | app/routers/auth.py:40-41 | the jti used as table key is the payload's jti string; absent or non-string jti matches no row |
| AuthRouter.Subject | app/routers/auth.py:44 | the subject passed on is the payload's sub, or null when absent |
| AuthRouter.FindActive | app/routers/auth.py:41 | finds a row iff a record with that jti exists and is not revoked, and then returns that record |
| AuthRouter.RevokeRecord | app/routers/auth.py:57-62 | logout's effect keeps the table's keys, revokes the matching record only, and changes nothing for an unknown or absent jti |
| AuthRouter.RevokeIdempotent | app/routers/auth.py:57-63 | revoking twice equals revoking once |
| AuthRouter.RevokedIsNotUsable | app/routers/auth.py:41-43 | after logout of a jti, no refresh with that jti is accepted at any time |
| AuthRouter.RevokeKeepsRevocations | app/routers/auth.py:57-62 | revocation never sets a revoked flag back to false |
| AuthRouter.RunKeepsRevocations | app/routers/auth.py:17-63 | over any history of logins (issue under a new jti) and logouts (revoke by jti), no revoked record is removed or un-revoked |
| AuthRouter.RevokedStaysUnusable | app/routers/auth.py:41-43 | a revoked jti is never refreshable again after any later history of logins and logouts: Revoked is terminal |
| AuthRouter.RunKeepsExpiries | app/routers/auth.py:17-63 | over any history of logins and logouts, no record is removed and no record's expiry changes |
| AuthRouter.ExpiredStaysUnusable | app/routers/auth.py:41-43 | a record whose expiry is before some time is not refreshable at that time or any later one, after any history of logins and logouts: Expired is terminal |
| AuthRouter.Register | app/routers/auth.py:9-15 | an already-registered email gives 400 and leaves the users unchanged; otherwise exactly one user is added with the hashed password; the table invariant is kept |
| AuthRouter.Login | app/routers/auth.py:17-27 | unknown email and wrong password give the same 401 "Incorrect credentials" and change nothing; a candidate over 4096 characters for a registered email raises passlib's size error, answered with 500 and nothing changed, and that is the only way to get a 500, so for candidates up to 4096 characters every failure is the 401; success adds exactly the record (user id, expiry of the issued refresh token, not revoked) under the new jti, returns that token and an access token for the user, who is the only one with that email; that step is an issue step of the history lemmas, keeps every revocation and every expiry, and with a non-negative configured lifetime the new jti is refreshable at once |
| AuthRouter.Refresh | app/routers/auth.py:29-46 | a blank field gives 400 before any decode, a decode failure 401 "Invalid refresh token", a non-refresh type 400 "Not a refresh token", an unrevoked record whose expiry is not before now is required else 401; success iff all checks pass, the table is untouched, the same refresh token is returned with an access token for the payload's sub (null when absent); when the payload has a sub and the configured access lifetime is not negative, that access token decodes at once to type "access" with that sub |
| AuthRouter.Logout | app/routers/auth.py:48-63 | a blank field gives 400, a decode failure 401; any decoded token (refresh or access) gives "logged out" and the table becomes RevokeRecord of the old table by the payload's jti (a revoke step of the history lemmas): no record created or removed, no revocation undone and no expiry changed |
| AuthRouter.SessionLifecycle | app/routers/auth.py:9-63 | register, login, refresh, logout, refresh on a fresh database with a password of at most 72 characters and a non-negative access lifetime: the first refresh succeeds with the same refresh token and an access token that decodes with the user's id as sub, logout acknowledges, and the second refresh fails with "Refresh token revoked or expired" |
| AuthRouter.LongPasswordLockout | app/routers/auth.py:9-27 | with a password over 72 characters, registration succeeds on a fresh database and the login with the same password fails: with 401 "Incorrect credentials" up to 4096 characters, with 500 beyond |

## Findings

| source | as written | input that shows it | evidently intended | confidence | as-written member | corrected member |
|---|---|---|---|---|---|---|
| app/auth.py:10-13 | `get_password_hash` hashes `password[:72]`, `verify_password` checks the whole candidate password | any password of 73 to 4096 characters, e.g. 73 times "a" (Auth.LongPasswordLockedOut): registration succeeds, the login with that password fails with 401 (AuthRouter.LongPasswordLockout); beyond 4096 characters the login fails with 500 instead | truncate the candidate to 72 characters in verification too, as hashing does (proved: Auth.HashVerifyRoundTrip) | high, not executed | Auth.VerifyPasswordAsWritten | Auth.VerifyPassword |

The handlers keep the program's behaviour: `Crud.VerifyUserPassword`, and
through it `AuthRouter.Login`, apply `Auth.VerifyPasswordAsWritten`. The
corrected verifier `Auth.VerifyPassword` is proved to accept every password
against its own hash (`Auth.HashVerifyRoundTrip`) and agrees with the
as-written one on every candidate of at most 72 characters
(`Auth.VerifiersAgreeOnShortPasswords`), so the two differ only on candidates
over 72 characters: there the corrected one also accepts a candidate that
agrees with the stored password on its first 72 characters, and it never
raises the size error the as-written one raises beyond 4096 characters.

## Left out

- HTTP plumbing: routing, FastAPI dependency injection, HTTPBearer's own rejection of a missing Authorization header, and response shaping (`UserOut`, `Token`) are not part of this model; a handler returns a `Result` whose error is the status and detail it raises.
- PBKDF2 and HMAC are symbolic terms: iteration counts, the hash string format, constant-time comparison and malformed stored hashes are not modelled. passlib's size limit counts the characters of the secret.
- JWT wire format (base64url segments, header) is not modelled; a string that is not a token signed by some key is `Text`. jose's claim checks are modelled without leeway and with no audience, issuer, subject or access token passed, so `iss` is never looked at. A claim value is a string, an integer or null: jose's acceptance of a numeric string as `iat`, `nbf` or `exp`, and the `TypeError` it lets escape for a null one, are not modelled; both count as a claims error here.
- Clock: one integer clock in UTC seconds. The source computes expiry with naive `datetime.utcnow()` (app/auth.py:24) but compares the stored expiry against `datetime.now(expires_at.tzinfo)` (app/routers/auth.py:42), which is local time when the stored datetime is naive; the model compares against the same UTC clock. Each `create_*` call also reads its own clock; the model reads one `now` per request, and sub-second precision is dropped.
- `uuid.uuid4()` for `jti`, the id the database assigns to a new user, and the PBKDF2 salt are parameters; freshness of `jti` and of user ids is a precondition. The code never checks for a `jti` collision; a duplicate would only fail at `db.commit()` (app/routers/auth.py:26), so that case is excluded rather than modelled.
- `app/models.py` is not part of this model: the model assumes `revoked` defaults to false, `jti` keys the refresh-token table, user ids are strings compared as such, and emails are unique; `is_active` and `is_verified` are not modelled because the core never reads them.
- `Crud.GetUserByEmail` returns the first match; the error `scalar_one_or_none` raises on two users with one email cannot arise under `Db.Valid`, which register maintains.
- A `refresh_token` body field that is a JSON value other than a string or null (a number, a list, `false`) is not modelled.
- Concurrent requests, transactions and commit atomicity are not modelled; each handler runs to completion alone.
- The browser client (`website/script.js`), database engine setup, application wiring, environment loading of settings, `EmailStr` validation and the `users`/`general` routers are not part of this model.
