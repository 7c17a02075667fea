/**
 * The two tables the core works on, the request shape it reads, and the
 * database that holds the tables.
 */
module Models {
  import opened Wrappers
  import Passlib

  type UserId = string

  /** A row of the users table, as far as the core reads or writes it. */
  datatype User = User(id: UserId, email: string, fullName: Option<string>, hashedPassword: Passlib.Digest)

  /** A row of the refresh-token table; its key, the jti, is the map key in Db. */
  datatype RefreshTokenRecord = RefreshTokenRecord(userId: UserId, expiresAt: int, revoked: bool)

  /** The body of register and login. */
  datatype UserCreate = UserCreate(email: string, password: string, fullName: Option<string>)

  function UserIds(users: seq<User>): (ids: set<UserId>)
  {
    set u | u in users :: u.id
  }

  /** No two users share an id or an email. */
  predicate UniqueUsers(users: seq<User>)
  {
    forall i, j :: 0 <= i < j < |users| ==> users[i].id != users[j].id && users[i].email != users[j].email
  }

  /** Once revoked, a record stays present and revoked. */
  ghost predicate RevocationsKept(before: map<string, RefreshTokenRecord>, after: map<string, RefreshTokenRecord>)
  {
    forall jti :: jti in before && before[jti].revoked ==> jti in after && after[jti].revoked
  }

  /** Records are never removed, and a record's expiry never changes. */
  ghost predicate ExpiriesKept(before: map<string, RefreshTokenRecord>, after: map<string, RefreshTokenRecord>)
  {
    forall jti :: jti in before ==> jti in after && after[jti].expiresAt == before[jti].expiresAt
  }

  /** The database: users in insertion order and refresh-token records by jti. */
  class Db {
    var users: seq<User>
    var refreshTokens: map<string, RefreshTokenRecord>

    /** Ids and emails are unique, and every refresh-token record belongs to a registered user. */
    ghost predicate Valid()
      reads this
    {
      && UniqueUsers(users)
      && forall jti :: jti in refreshTokens ==> refreshTokens[jti].userId in UserIds(users)
    }

    constructor ()
      ensures Valid()
      ensures users == [] && refreshTokens == map[]
    {
      users := [];
      refreshTokens := map[];
    }
  }
}
