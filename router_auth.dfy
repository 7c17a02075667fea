/**
 * The /auth routes of app/routers/auth.py: register, login, refresh and
 * logout over the database. Each handler is a module-level method that
 * takes the database `db` and works on its tables; the clock, the fresh
 * jti, the id the database assigns to a new user and the fresh salt are
 * parameters.
 */
module AuthRouter {
  import opened Wrappers
  import opened Config
  import opened Jose
  import opened Auth
  import opened Models
  import opened Crud
  import opened Http
  import Passlib

  const EmailAlreadyRegistered := HttpError(400, "Email already registered")
  const IncorrectCredentials := HttpError(401, "Incorrect credentials")
  const RefreshTokenRequired := HttpError(400, "refresh_token required")
  const InvalidRefreshToken := HttpError(401, "Invalid refresh token")
  const NotARefreshToken := HttpError(400, "Not a refresh token")
  const RevokedOrExpired := HttpError(401, "Refresh token revoked or expired")

  const LoggedOut: string := "logged out"
  const Bearer: string := "bearer"

  datatype TokenResponse = TokenResponse(accessToken: Token, tokenType: string, refreshToken: Option<Token>)

  type RefreshTable = map<string, RefreshTokenRecord>

  /** The "refresh_token" field of a request body is missing, null or the empty string. */
  predicate Blank(field: Option<Token>)
  {
    field.None? || field == Some(Text(""))
  }

  /** payload.get("jti") as a key of the table; anything but a string matches no row. */
  function JtiClaim(payload: Claims): (jti: Option<string>)
    ensures jti.Some? <==> Get(payload, "jti").Some? && Get(payload, "jti").value.Str?
    ensures jti.Some? ==> payload["jti"] == Str(jti.value)
  {
    match Get(payload, "jti")
    case Some(Str(j)) => Some(j)
    case _ => None
  }

  /** payload.get("sub"): the subject claim, or null when there is none. */
  function Subject(payload: Claims): (sub: Value)
    ensures "sub" in payload ==> sub == payload["sub"]
    ensures "sub" !in payload ==> sub == Null
  {
    if "sub" in payload then payload["sub"] else Null
  }

  /** The row with this jti that is not revoked, if any. */
  function FindActive(table: RefreshTable, jti: Option<string>): (row: Option<RefreshTokenRecord>)
    ensures row.Some? <==> jti.Some? && jti.value in table && !table[jti.value].revoked
    ensures row.Some? ==> row.value == table[jti.value]
  {
    if jti.Some? && jti.value in table && !table[jti.value].revoked then Some(table[jti.value]) else None
  }

  /** A refresh by this jti is allowed at `now`: an unrevoked row whose expiry is not before now. */
  predicate Usable(table: RefreshTable, jti: Option<string>, now: int)
  {
    FindActive(table, jti).Some? && !(FindActive(table, jti).value.expiresAt < now)
  }

  /** The effect of logout on the table: the row with this jti, if any, becomes revoked. */
  function RevokeRecord(table: RefreshTable, jti: Option<string>): (after: RefreshTable)
    ensures after.Keys == table.Keys
    ensures forall k :: k in table && Some(k) != jti ==> after[k] == table[k]
    ensures jti.Some? && jti.value in table ==> after[jti.value] == table[jti.value].(revoked := true)
  {
    if jti.Some? && jti.value in table then table[jti.value := table[jti.value].(revoked := true)] else table
  }

  /** Logging out twice is logging out once. */
  lemma RevokeIdempotent(table: RefreshTable, jti: Option<string>)
    ensures RevokeRecord(RevokeRecord(table, jti), jti) == RevokeRecord(table, jti)
  {
  }

  /** After logout, the token's jti can no longer be refreshed, at any time. */
  lemma RevokedIsNotUsable(table: RefreshTable, jti: Option<string>, now: int)
    ensures !Usable(RevokeRecord(table, jti), jti, now)
  {
  }

  /** Revoking keeps every earlier revocation. */
  lemma RevokeKeepsRevocations(table: RefreshTable, jti: Option<string>)
    ensures RevocationsKept(table, RevokeRecord(table, jti))
  {
  }

  /**
   * The two ways the handlers change the refresh-token table: login issues a
   * record under a new jti (a jti already present is never reissued), logout
   * revokes by jti. Register and refresh leave the table alone.
   */
  datatype TableStep = Issue(jti: string, record: RefreshTokenRecord) | Revoke(target: Option<string>)

  function ApplyStep(table: RefreshTable, step: TableStep): (after: RefreshTable)
  {
    match step
    case Issue(jti, record) => if jti in table then table else table[jti := record]
    case Revoke(target) => RevokeRecord(table, target)
  }

  /** `after` is `before` with one login step issuing a record under the new `jti`. */
  ghost predicate IssuedUnder(before: RefreshTable, after: RefreshTable, jti: string)
  {
    jti !in before && jti in after && after == ApplyStep(before, Issue(jti, after[jti]))
  }

  /** The table after a history of steps, oldest first. */
  function Run(table: RefreshTable, steps: seq<TableStep>): (after: RefreshTable)
    decreases |steps|
  {
    if |steps| == 0 then table else Run(ApplyStep(table, steps[0]), steps[1..])
  }

  /** No history of logins and logouts ever undoes a revocation. */
  lemma {:induction false} RunKeepsRevocations(table: RefreshTable, steps: seq<TableStep>)
    ensures RevocationsKept(table, Run(table, steps))
    decreases |steps|
  {
    if |steps| > 0 {
      var next := ApplyStep(table, steps[0]);
      if steps[0].Revoke? {
        RevokeKeepsRevocations(table, steps[0].target);
      }
      RunKeepsRevocations(next, steps[1..]);
    }
  }

  /** Revoked is terminal: once a jti is revoked, no later history makes it refreshable again. */
  lemma RevokedStaysUnusable(table: RefreshTable, steps: seq<TableStep>, jti: string, now: int)
    requires jti in table && table[jti].revoked
    ensures !Usable(Run(table, steps), Some(jti), now)
  {
    RunKeepsRevocations(table, steps);
  }

  /** No history of logins and logouts removes a record or moves its expiry. */
  lemma {:induction false} RunKeepsExpiries(table: RefreshTable, steps: seq<TableStep>)
    ensures ExpiriesKept(table, Run(table, steps))
    decreases |steps|
  {
    if |steps| > 0 {
      RunKeepsExpiries(ApplyStep(table, steps[0]), steps[1..]);
    }
  }

  /**
   * Expired is terminal too: once a record's expiry is before some time, no
   * refresh by its jti is accepted at that time or later, whatever logins and
   * logouts happen in between.
   */
  lemma ExpiredStaysUnusable(table: RefreshTable, steps: seq<TableStep>, jti: string, now: int, later: int)
    requires jti in table && table[jti].expiresAt < now <= later
    ensures !Usable(Run(table, steps), Some(jti), later)
  {
    RunKeepsExpiries(table, steps);
  }

  method Register(db: Db, userIn: UserCreate, id: UserId, salt: string) returns (r: Result<User, HttpError>)
    requires db.Valid()
    requires id !in UserIds(db.users)
    modifies db`users
    ensures db.Valid()
    ensures GetUserByEmail(old(db.users), userIn.email).Some? ==>
      r == Err(EmailAlreadyRegistered) && db.users == old(db.users)
    ensures GetUserByEmail(old(db.users), userIn.email).None? ==>
      && r.Ok?
      && db.users == old(db.users) + [r.value]
      && r.value.id == id && r.value.email == userIn.email && r.value.fullName == userIn.fullName
      && r.value.hashedPassword == GetPasswordHash(userIn.password, salt)
  {
    var existing := GetUserByEmail(db.users, userIn.email);
    if existing.Some? {
      return Err(EmailAlreadyRegistered);
    }
    ghost var before := db.users;
    var user := CreateUser(db, userIn, id, salt);
    assert UserIds(db.users) == UserIds(before) + {id};
    return Ok(user);
  }

  method Login(db: Db, cfg: Settings, form: UserCreate, now: int, jti: string) returns (r: Result<TokenResponse, HttpError>)
    requires db.Valid()
    requires jti !in db.refreshTokens
    modifies db`refreshTokens
    ensures db.Valid()
    ensures RevocationsKept(old(db.refreshTokens), db.refreshTokens)
    ensures ExpiriesKept(old(db.refreshTokens), db.refreshTokens)
    ensures var user := GetUserByEmail(db.users, form.email);
      if user.None? || VerifyUserPassword(user.value, form.password) == Ok(false) then
        r == Err(IncorrectCredentials) && db.refreshTokens == old(db.refreshTokens)
      else if VerifyUserPassword(user.value, form.password).Err? then
        r == Err(InternalServerError) && db.refreshTokens == old(db.refreshTokens)
      else
        var sub := map["sub" := Str(user.value.id)];
        var issued := CreateRefreshToken(cfg, sub, None, now, jti);
        && r == Ok(TokenResponse(CreateAccessToken(cfg, sub, None, now), Bearer, Some(issued.token)))
        && (forall other :: other in db.users && other.email == form.email ==> other == user.value)
        && db.refreshTokens == old(db.refreshTokens)[jti := RefreshTokenRecord(user.value.id, issued.expire, false)]
    ensures r == Err(InternalServerError) <==>
      GetUserByEmail(db.users, form.email).Some? && |form.password| > Passlib.MaxPasswordSize
    ensures |form.password| <= Passlib.MaxPasswordSize && r.Err? ==> r == Err(IncorrectCredentials)
    ensures r.Ok? && cfg.refreshTokenExpireDays >= 0 ==> Usable(db.refreshTokens, Some(jti), now)
    ensures r.Ok? ==> IssuedUnder(old(db.refreshTokens), db.refreshTokens, jti)
  {
    var user := GetUserByEmail(db.users, form.email);
    if user.None? {
      return Err(IncorrectCredentials);
    }
    // passlib's size error is not caught: the request fails with a server error.
    var verified := VerifyUserPassword(user.value, form.password);
    if verified.Err? {
      return Err(InternalServerError);
    }
    if !verified.value {
      return Err(IncorrectCredentials);
    }
    forall other | other in db.users && other.email == form.email
      ensures other == user.value
    {
      GetUserByEmailFinds(db.users, other);
    }
    var access := CreateAccessToken(cfg, map["sub" := Str(user.value.id)], None, now);
    var issued := CreateRefreshToken(cfg, map["sub" := Str(user.value.id)], None, now, jti);
    db.refreshTokens := db.refreshTokens[issued.jti := RefreshTokenRecord(user.value.id, issued.expire, false)];
    return Ok(TokenResponse(access, Bearer, Some(issued.token)));
  }

  method Refresh(db: Db, cfg: Settings, field: Option<Token>, now: int) returns (r: Result<TokenResponse, HttpError>)
    ensures Blank(field) ==> r == Err(RefreshTokenRequired)
    ensures !Blank(field) && DecodeToken(cfg, field.value, now).Err? ==> r == Err(InvalidRefreshToken)
    ensures r == Err(NotARefreshToken) <==>
      !Blank(field) && DecodeToken(cfg, field.value, now).Ok?
      && Get(DecodeToken(cfg, field.value, now).value, "type") != Some(RefreshType)
    ensures r == Err(RevokedOrExpired) <==>
      !Blank(field) && DecodeToken(cfg, field.value, now).Ok?
      && Get(DecodeToken(cfg, field.value, now).value, "type") == Some(RefreshType)
      && !Usable(db.refreshTokens, JtiClaim(DecodeToken(cfg, field.value, now).value), now)
    ensures r.Ok? <==>
      && !Blank(field) && DecodeToken(cfg, field.value, now).Ok?
      && Get(DecodeToken(cfg, field.value, now).value, "type") == Some(RefreshType)
      && Usable(db.refreshTokens, JtiClaim(DecodeToken(cfg, field.value, now).value), now)
    ensures r.Ok? ==>
      var payload := DecodeToken(cfg, field.value, now).value;
      && r.value.refreshToken == field
      && r.value.tokenType == Bearer
      && r.value.accessToken == CreateAccessToken(cfg, map["sub" := Subject(payload)], None, now)
    ensures r.Ok? && cfg.accessTokenExpireMinutes >= 0 && "sub" in DecodeToken(cfg, field.value, now).value ==>
      var renewed := DecodeToken(cfg, r.value.accessToken, now);
      && renewed.Ok?
      && Get(renewed.value, "type") == Some(AccessType)
      && Get(renewed.value, "sub") == Get(DecodeToken(cfg, field.value, now).value, "sub")
  {
    if Blank(field) {
      return Err(RefreshTokenRequired);
    }
    var decoded := DecodeToken(cfg, field.value, now);
    if decoded.Err? {
      return Err(InvalidRefreshToken);
    }
    var payload := decoded.value;
    if Get(payload, "type") != Some(RefreshType) {
      return Err(NotARefreshToken);
    }
    var row := FindActive(db.refreshTokens, JtiClaim(payload));
    if row.None? || row.value.expiresAt < now {
      return Err(RevokedOrExpired);
    }
    var access := CreateAccessToken(cfg, map["sub" := Subject(payload)], None, now);
    if "sub" in payload && cfg.accessTokenExpireMinutes >= 0 {
      DecodeIssuedAccessToken(cfg, map["sub" := Subject(payload)], None, now, now);
    }
    return Ok(TokenResponse(access, Bearer, field));
  }

  method Logout(db: Db, cfg: Settings, field: Option<Token>, now: int) returns (r: Result<string, HttpError>)
    requires db.Valid()
    modifies db`refreshTokens
    ensures db.Valid()
    ensures RevocationsKept(old(db.refreshTokens), db.refreshTokens)
    ensures ExpiriesKept(old(db.refreshTokens), db.refreshTokens)
    ensures db.refreshTokens.Keys == old(db.refreshTokens).Keys
    ensures Blank(field) ==> r == Err(RefreshTokenRequired)
    ensures !Blank(field) && DecodeToken(cfg, field.value, now).Err? ==> r == Err(InvalidRefreshToken)
    ensures r.Err? ==> db.refreshTokens == old(db.refreshTokens)
    ensures r.Ok? ==> db.refreshTokens == ApplyStep(old(db.refreshTokens), Revoke(JtiClaim(DecodeToken(cfg, field.value, now).value)))
    ensures !Blank(field) && DecodeToken(cfg, field.value, now).Ok? ==>
      && r == Ok(LoggedOut)
      && db.refreshTokens == RevokeRecord(old(db.refreshTokens), JtiClaim(DecodeToken(cfg, field.value, now).value))
  {
    if Blank(field) {
      return Err(RefreshTokenRequired);
    }
    var decoded := DecodeToken(cfg, field.value, now);
    if decoded.Err? {
      return Err(InvalidRefreshToken);
    }
    var jti := JtiClaim(decoded.value);
    if jti.Some? && jti.value in db.refreshTokens {
      db.refreshTokens := db.refreshTokens[jti.value := db.refreshTokens[jti.value].(revoked := true)];
    }
    return Ok(LoggedOut);
  }

  /**
   * One session end to end on a fresh database: register, log in at t0,
   * refresh at t1, log out at t2, refresh again at t3, all before the refresh
   * token expires. The first refresh hands back the login's refresh token;
   * after logout the same token is refused as revoked. The password has at
   * most 72 characters; a longer one cannot log in (LongPasswordLockout).
   */
  method SessionLifecycle(cfg: Settings, userIn: UserCreate, id: UserId, salt: string, jti: string, t0: int, t1: int, t2: int, t3: int)
    returns (login: Result<TokenResponse, HttpError>, first: Result<TokenResponse, HttpError>,
             logout: Result<string, HttpError>, second: Result<TokenResponse, HttpError>)
    requires |userIn.password| <= MaxPasswordLength
    requires cfg.accessTokenExpireMinutes >= 0
    requires t0 <= t1 <= t2 <= t3 <= t0 + RefreshTtl(cfg, None)
    ensures login.Ok? && login.value.refreshToken.Some?
    ensures first.Ok? && first.value.refreshToken == login.value.refreshToken
    ensures DecodeToken(cfg, first.value.accessToken, t1).Ok?
    ensures Get(DecodeToken(cfg, first.value.accessToken, t1).value, "sub") == Some(Str(id))
    ensures logout == Ok(LoggedOut)
    ensures second == Err(RevokedOrExpired)
  {
    var db := new Db();
    var registered := Register(db, userIn, id, salt);
    assert db.users == [registered.value];
    AsWrittenVerifiesShortPasswords(userIn.password, salt);
    login := Login(db, cfg, userIn, t0, jti);
    var sub := map["sub" := Str(id)];
    assert Usable(db.refreshTokens, Some(jti), t1);
    DecodeIssuedRefreshToken(cfg, sub, None, t0, jti, t1);
    DecodeIssuedRefreshToken(cfg, sub, None, t0, jti, t2);
    DecodeIssuedRefreshToken(cfg, sub, None, t0, jti, t3);
    first := Refresh(db, cfg, login.value.refreshToken, t1);
    logout := Logout(db, cfg, login.value.refreshToken, t2);
    RevokedIsNotUsable(db.refreshTokens, Some(jti), t3);
    second := Refresh(db, cfg, login.value.refreshToken, t3);
  }

  /**
   * Registration succeeds with a password longer than 72 characters, but the
   * login that follows with the same password is refused: the stored hash
   * covers only the first 72 characters and the check compares all of them.
   * Up to 4096 characters the refusal is the ordinary 401; beyond that
   * passlib's size error makes it a server error.
   */
  method LongPasswordLockout(cfg: Settings, userIn: UserCreate, id: UserId, salt: string, jti: string, now: int)
    returns (registered: Result<User, HttpError>, login: Result<TokenResponse, HttpError>)
    requires |userIn.password| > MaxPasswordLength
    ensures registered.Ok? && registered.value.email == userIn.email
    ensures login == if |userIn.password| <= Passlib.MaxPasswordSize then Err(IncorrectCredentials) else Err(InternalServerError)
  {
    var db := new Db();
    registered := Register(db, userIn, id, salt);
    assert db.users == [registered.value];
    AsWrittenRejectsLongPasswords(userIn.password, salt);
    login := Login(db, cfg, userIn, now, jti);
  }
}
