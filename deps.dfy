/**
 * The bearer-token check of app/deps.py that guards protected routes:
 * decode, then the token type, then the subject's user. It only reads the
 * users table, which it takes as a value.
 */
module Deps {
  import opened Wrappers
  import opened Config
  import opened Jose
  import Auth
  import opened Models
  import Crud
  import opened Http

  const InvalidToken := HttpError(401, "Invalid token")
  const InvalidTokenType := HttpError(401, "Invalid token type")
  const UserNotFound := HttpError(401, "User not found")

  /** The user a subject claim names: none when the claim is absent or no user has that id. */
  function SubjectUser(users: seq<User>, payload: Claims): (r: Option<User>)
    ensures r.Some? ==> r.value in users && Get(payload, "sub") == Some(Str(r.value.id))
    ensures r.None? <==> forall u :: u in users ==> Get(payload, "sub") != Some(Str(u.id))
  {
    match Get(payload, "sub")
    case Some(Str(id)) => Crud.GetUserById(users, id)
    case _ => None
  }

  function GetCurrentUser(users: seq<User>, cfg: Settings, token: Token, now: int): (r: Result<User, HttpError>)
    ensures Auth.DecodeToken(cfg, token, now).Err? ==> r == Err(InvalidToken)
    ensures r == Err(InvalidTokenType) <==>
      Auth.DecodeToken(cfg, token, now).Ok? && Get(Auth.DecodeToken(cfg, token, now).value, "type") != Some(Auth.AccessType)
    ensures r == Err(UserNotFound) <==>
      && Auth.DecodeToken(cfg, token, now).Ok?
      && Get(Auth.DecodeToken(cfg, token, now).value, "type") == Some(Auth.AccessType)
      && forall u :: u in users ==> Get(Auth.DecodeToken(cfg, token, now).value, "sub") != Some(Str(u.id))
    ensures r.Ok? <==>
      && Auth.DecodeToken(cfg, token, now).Ok?
      && Get(Auth.DecodeToken(cfg, token, now).value, "type") == Some(Auth.AccessType)
      && exists u :: u in users && Get(Auth.DecodeToken(cfg, token, now).value, "sub") == Some(Str(u.id))
    ensures r.Ok? ==>
      && Auth.DecodeToken(cfg, token, now).Ok?
      && Get(Auth.DecodeToken(cfg, token, now).value, "type") == Some(Auth.AccessType)
      && r.value in users
      && Get(Auth.DecodeToken(cfg, token, now).value, "sub") == Some(Str(r.value.id))
  {
    match Auth.DecodeToken(cfg, token, now)
    case Err(_) => Err(InvalidToken)
    case Ok(payload) =>
      if Get(payload, "type") != Some(Auth.AccessType) then Err(InvalidTokenType)
      else
        match SubjectUser(users, payload)
        case None => Err(UserNotFound)
        case Some(user) => Ok(user)
  }

  /** An access token issued for a registered user authenticates that user until it expires. */
  lemma AccessTokenAuthenticates(users: seq<User>, cfg: Settings, u: User, now: int, at: int)
    requires UniqueUsers(users) && u in users
    requires at <= now + Auth.AccessTtl(cfg, None)
    ensures GetCurrentUser(users, cfg, Auth.CreateAccessToken(cfg, map["sub" := Str(u.id)], None, now), at) == Ok(u)
  {
  }

  /** A refresh token is never accepted as a bearer token. */
  lemma RefreshTokenIsNotBearer(users: seq<User>, cfg: Settings, data: Claims, delta: Option<int>, now: int, jti: string, at: int)
    ensures var r := GetCurrentUser(users, cfg, Auth.CreateRefreshToken(cfg, data, delta, now, jti).token, at);
      r == Err(InvalidToken) || r == Err(InvalidTokenType)
  {
  }
}
