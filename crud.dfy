/** The user-table operations of app/crud.py. */
module Crud {
  import opened Wrappers
  import Auth
  import Passlib
  import opened Models

  /** The user with this email, or none. */
  function GetUserByEmail(users: seq<User>, email: string): (r: Option<User>)
    ensures r.Some? ==> r.value in users && r.value.email == email
    ensures r.None? <==> forall u :: u in users ==> u.email != email
  {
    if |users| == 0 then None
    else if users[0].email == email then Some(users[0])
    else GetUserByEmail(users[1..], email)
  }

  /** The first user with this id, or none. */
  function GetUserById(users: seq<User>, id: UserId): (r: Option<User>)
    ensures r.Some? ==> r.value in users && r.value.id == id
    ensures r.None? <==> id !in UserIds(users)
  {
    if |users| == 0 then None
    else if users[0].id == id then Some(users[0])
    else
      assert UserIds(users) == {users[0].id} + UserIds(users[1..]);
      GetUserById(users[1..], id)
  }

  /** With unique emails, the lookup by email finds each user. */
  lemma GetUserByEmailFinds(users: seq<User>, u: User)
    requires UniqueUsers(users) && u in users
    ensures GetUserByEmail(users, u.email) == Some(u)
  {
  }

  /** With unique ids, the lookup by id finds each user. */
  lemma GetUserByIdFinds(users: seq<User>, u: User)
    requires UniqueUsers(users) && u in users
    ensures GetUserById(users, u.id) == Some(u)
  {
  }

  /**
   * create_user: appends one row holding the hash of the password, made with
   * a fresh salt, and never the password itself; `id` is the id the database
   * assigns to the new row.
   */
  method CreateUser(db: Db, userCreate: UserCreate, id: UserId, salt: string) returns (u: User)
    modifies db`users
    ensures db.users == old(db.users) + [u]
    ensures u.id == id && u.email == userCreate.email && u.fullName == userCreate.fullName
    ensures u.hashedPassword == Auth.GetPasswordHash(userCreate.password, salt)
  {
    u := User(id, userCreate.email, userCreate.fullName, Auth.GetPasswordHash(userCreate.password, salt));
    db.users := db.users + [u];
  }

  /**
   * verify_user_password: the password verifier of app/auth.py, which does
   * not truncate the candidate and lets passlib's size error through.
   */
  function VerifyUserPassword(user: User, plainPassword: string): (r: Result<bool, Passlib.PasswordSizeError>)
    ensures r == Auth.VerifyPasswordAsWritten(plainPassword, user.hashedPassword)
  {
    Auth.VerifyPasswordAsWritten(plainPassword, user.hashedPassword)
  }

  /**
   * A created user verifies exactly with the first 72 characters of its
   * password (with the whole password only when that has at most 72), and
   * any candidate over passlib's size limit raises instead.
   */
  lemma CreatedUserVerifies(userCreate: UserCreate, id: UserId, salt: string, attempt: string)
    ensures var u := User(id, userCreate.email, userCreate.fullName, Auth.GetPasswordHash(userCreate.password, salt));
      VerifyUserPassword(u, attempt) ==
        if |attempt| > Passlib.MaxPasswordSize then Err(Passlib.PasswordSizeError)
        else Ok(attempt == Auth.Truncate(userCreate.password))
  {
  }
}
