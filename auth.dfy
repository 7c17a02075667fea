/**
 * Password hashing and token issuance of app/auth.py.
 *
 * The clock is the parameter `now` (seconds); an optional `expiresDelta`
 * (seconds) overrides the configured lifetime unless it is absent or zero,
 * which is how Python treats a falsy timedelta.
 */
module Auth {
  import opened Wrappers
  import opened Config
  import Passlib
  import opened Jose

  // ---------------------------------------------------------------------
  // Passwords

  /** The longest prefix of a password that takes part in hashing. */
  const MaxPasswordLength: nat := 72

  /** Python's password[:72]: the first 72 characters, or all of a shorter password. */
  function Truncate(password: string): (r: string)
    ensures |r| <= MaxPasswordLength
    ensures r <= password
    ensures |r| == if |password| <= MaxPasswordLength then |password| else MaxPasswordLength
    ensures |password| <= MaxPasswordLength <==> r == password
  {
    if |password| <= MaxPasswordLength then password else password[..MaxPasswordLength]
  }

  /** The stored digest covers only the first 72 characters, under the given salt. */
  function GetPasswordHash(password: string, salt: string): (d: Passlib.Digest)
    ensures d.salt == salt
    ensures Passlib.Verify(Truncate(password), d) == Ok(true)
    ensures MaxPasswordLength < |password| <= Passlib.MaxPasswordSize ==> Passlib.Verify(password, d) == Ok(false)
  {
    // A truncated password is far below passlib's size limit, so hashing it never fails.
    Passlib.Hash(Truncate(password), salt).value
  }

  /**
   * verify_password as written: the candidate password is not truncated, and
   * passlib's size error for a candidate over 4096 characters escapes.
   */
  function VerifyPasswordAsWritten(plain: string, hashed: Passlib.Digest): (r: Result<bool, Passlib.PasswordSizeError>)
    ensures r.Err? <==> |plain| > Passlib.MaxPasswordSize
    ensures r.Ok? ==> (r.value <==> hashed.key.secret == plain && hashed.key.salt == hashed.salt)
  {
    Passlib.Verify(plain, hashed)
  }

  /** The verifier with the truncation applied on both sides, as hashing does; it never meets the size limit. */
  function VerifyPassword(plain: string, hashed: Passlib.Digest): (ok: bool)
    ensures ok <==> hashed.key.secret == Truncate(plain) && hashed.key.salt == hashed.salt
  {
    Passlib.Verify(Truncate(plain), hashed) == Ok(true)
  }

  /** As written, a password of at most 72 characters verifies against its own hash. */
  lemma AsWrittenVerifiesShortPasswords(password: string, salt: string)
    requires |password| <= MaxPasswordLength
    ensures VerifyPasswordAsWritten(password, GetPasswordHash(password, salt)) == Ok(true)
  {
  }

  /**
   * As written, a password longer than 72 characters never verifies against
   * its own hash: up to 4096 characters the check answers no, beyond that it
   * raises passlib's size error.
   */
  lemma AsWrittenRejectsLongPasswords(password: string, salt: string)
    requires |password| > MaxPasswordLength
    ensures VerifyPasswordAsWritten(password, GetPasswordHash(password, salt)) ==
      if |password| <= Passlib.MaxPasswordSize then Ok(false) else Err(Passlib.PasswordSizeError)
  {
  }

  /** A concrete password that is locked out: 73 times the letter a. */
  lemma LongPasswordLockedOut()
    ensures var p := seq(73, _ => 'a');
      VerifyPasswordAsWritten(p, GetPasswordHash(p, "salt")) == Ok(false) && VerifyPassword(p, GetPasswordHash(p, "salt"))
  {
  }

  /**
   * With truncation on both sides, a password verifies against a hash exactly
   * when the two agree on their first 72 characters: every password verifies
   * against its own hash, and a different one only if it collides there.
   */
  lemma VerifyPasswordExactly(plain: string, stored: string, salt: string)
    ensures VerifyPassword(plain, GetPasswordHash(stored, salt)) <==> Truncate(plain) == Truncate(stored)
  {
  }

  /** On passwords of at most 72 characters the two verifiers give the same answer for every digest. */
  lemma VerifiersAgreeOnShortPasswords(plain: string, hashed: Passlib.Digest)
    requires |plain| <= MaxPasswordLength
    ensures VerifyPasswordAsWritten(plain, hashed) == Ok(VerifyPassword(plain, hashed))
  {
  }

  lemma HashVerifyRoundTrip(password: string, salt: string)
    ensures VerifyPassword(password, GetPasswordHash(password, salt))
  {
  }

  // ---------------------------------------------------------------------
  // Tokens

  const AccessType: Value := Str("access")
  const RefreshType: Value := Str("refresh")

  /** The lifetime of an access token: the override unless absent or zero, else the configured minutes. */
  function AccessTtl(cfg: Settings, expiresDelta: Option<int>): (ttl: int)
    ensures expiresDelta.None? || expiresDelta == Some(0) ==> ttl == cfg.accessTokenExpireMinutes * SecondsPerMinute
    ensures expiresDelta.Some? && expiresDelta.value != 0 ==> ttl == expiresDelta.value
  {
    if expiresDelta.Some? && expiresDelta.value != 0 then expiresDelta.value
    else cfg.accessTokenExpireMinutes * SecondsPerMinute
  }

  /** The lifetime of a refresh token: the override unless absent or zero, else the configured days. */
  function RefreshTtl(cfg: Settings, expiresDelta: Option<int>): (ttl: int)
    ensures expiresDelta.None? || expiresDelta == Some(0) ==> ttl == cfg.refreshTokenExpireDays * SecondsPerDay
    ensures expiresDelta.Some? && expiresDelta.value != 0 ==> ttl == expiresDelta.value
  {
    if expiresDelta.Some? && expiresDelta.value != 0 then expiresDelta.value
    else cfg.refreshTokenExpireDays * SecondsPerDay
  }

  /**
   * The caller's claims with "exp" and "type" set, whatever the caller put
   * under those names; the caller's map itself is a value and stays as it was.
   */
  function CreateAccessToken(cfg: Settings, data: Claims, expiresDelta: Option<int>, now: int): (t: Token)
    ensures t.Jws? && t.key == cfg.secretKey && t.alg == cfg.algorithm
    ensures t.claims.Keys == data.Keys + {"exp", "type"}
    ensures t.claims["exp"] == Int(now + AccessTtl(cfg, expiresDelta))
    ensures t.claims["type"] == AccessType
    ensures forall name :: name in data && name != "exp" && name != "type" ==> t.claims[name] == data[name]
  {
    Encode(data["exp" := Int(now + AccessTtl(cfg, expiresDelta))]["type" := AccessType], cfg.secretKey, cfg.algorithm)
  }

  /** What create_refresh_token returns besides the token: its identifier and expiry. */
  datatype IssuedRefreshToken = IssuedRefreshToken(token: Token, jti: string, expire: int)

  /**
   * Like an access token but of type "refresh", with the longer lifetime and
   * the identifier `jti` (a fresh uuid4 in the source, a parameter here). The
   * identifier and expiry handed back are the ones inside the token.
   */
  function CreateRefreshToken(cfg: Settings, data: Claims, expiresDelta: Option<int>, now: int, jti: string): (r: IssuedRefreshToken)
    ensures r.jti == jti && r.expire == now + RefreshTtl(cfg, expiresDelta)
    ensures r.token.Jws? && r.token.key == cfg.secretKey && r.token.alg == cfg.algorithm
    ensures r.token.claims.Keys == data.Keys + {"exp", "jti", "type"}
    ensures r.token.claims["exp"] == Int(r.expire)
    ensures r.token.claims["jti"] == Str(r.jti)
    ensures r.token.claims["type"] == RefreshType
    ensures forall name :: name in data && name !in {"exp", "jti", "type"} ==> r.token.claims[name] == data[name]
  {
    var expire := now + RefreshTtl(cfg, expiresDelta);
    var claims := data["exp" := Int(expire)]["jti" := Str(jti)]["type" := RefreshType];
    IssuedRefreshToken(Encode(claims, cfg.secretKey, cfg.algorithm), jti, expire)
  }

  /** decode_token: jose's decode with the configured secret and algorithm; its errors pass through unchanged. */
  function DecodeToken(cfg: Settings, token: Token, now: int): (r: Result<Claims, DecodeError>)
    ensures r == Decode(token, cfg.secretKey, cfg.algorithm, now)
    ensures r.Ok? ==> token.Jws? && token.key == cfg.secretKey && r.value == token.claims
  {
    Decode(token, cfg.secretKey, cfg.algorithm, now)
  }

  /**
   * The claims a caller may pass for the token to decode: whatever it puts
   * under "sub" or "jti" is a string and under "iat" a number, and it sets
   * none of "nbf", "aud" and "at_hash", which decoding here would refuse or
   * make depend on the clock. Whatever it puts under "exp" is overwritten.
   */
  predicate CallerClaims(data: Claims)
  {
    && ("sub" in data ==> data["sub"].Str?)
    && ("jti" in data ==> data["jti"].Str?)
    && ("iat" in data ==> data["iat"].Int?)
    && "nbf" !in data && "aud" !in data && "at_hash" !in data
  }

  /** An access token decodes to its claims from issue until its expiry, inclusive. */
  lemma DecodeIssuedAccessToken(cfg: Settings, data: Claims, expiresDelta: Option<int>, now: int, at: int)
    requires CallerClaims(data)
    requires at <= now + AccessTtl(cfg, expiresDelta)
    ensures var t := CreateAccessToken(cfg, data, expiresDelta, now);
      DecodeToken(cfg, t, at) == Ok(t.claims)
      && Get(t.claims, "type") == Some(AccessType)
      && Get(t.claims, "sub") == Get(data, "sub")
  {
  }

  /** A refresh token decodes to its claims, with its own jti, until its expiry. */
  lemma DecodeIssuedRefreshToken(cfg: Settings, data: Claims, expiresDelta: Option<int>, now: int, jti: string, at: int)
    requires CallerClaims(data)
    requires at <= now + RefreshTtl(cfg, expiresDelta)
    ensures var r := CreateRefreshToken(cfg, data, expiresDelta, now, jti);
      DecodeToken(cfg, r.token, at) == Ok(r.token.claims)
      && Get(r.token.claims, "type") == Some(RefreshType)
      && Get(r.token.claims, "jti") == Some(Str(jti))
      && Get(r.token.claims, "sub") == Get(data, "sub")
  {
  }

  /** Under the default settings a refresh token outlives an access token issued at the same time. */
  lemma RefreshOutlivesAccess(secretKey: string, data: Claims, now: int, jti: string)
    ensures var cfg := Defaults(secretKey);
      CreateRefreshToken(cfg, data, None, now, jti).expire == now + 7 * 86400
      && CreateAccessToken(cfg, data, None, now).claims["exp"] == Int(now + 30 * 60)
      && CreateAccessToken(cfg, data, None, now).claims["exp"].i < CreateRefreshToken(cfg, data, None, now, jti).expire
  {
  }
}
