/**
 * The `/auth` router of backend/app/routes/auth.py: `register_user` inserts
 * into the user table after two uniqueness checks, and `login_user` checks
 * the credentials and issues a token. Password hashing and verification,
 * token signing and any unexpected failure are parameters.
 */
module AuthRoutes {
  import opened Wrappers
  import opened Text
  import opened Database
  import opened AuthUtils
  import UserSchema

  /** The `UserRead` answer of a registration. */
  datatype UserRead = UserRead(id: int, username: string, email: Option<string>)

  /** The `UserLogin` body: two strings, with no validation. */
  datatype UserLogin = UserLogin(username: string, password: string)

  /** The login answer `{access_token, token_type, username}`. */
  datatype LoginResponse = LoginResponse(accessToken: string, tokenType: string, username: string)

  const UsernameExists := "Username already exists"
  const EmailRegistered := "Email already registered"
  const CreateFailed := "Error creating user"
  const InvalidCredentials := "Invalid username or password"
  const LoginFailed := "Login failed"

  predicate UsernameTaken(rows: map<int, UserRow>, name: string)
  {
    exists k :: k in rows && rows[k].username == name
  }

  predicate EmailTaken(rows: map<int, UserRow>, email: string)
  {
    exists k :: k in rows && rows[k].email == Some(email)
  }

  /**
   * `register_user` on a validated body: a taken username is refused before
   * the email is looked at, a taken email next; a failing insert is rolled
   * back; otherwise exactly one row is added, holding the hash of the
   * password and never the password itself.
   */
  method RegisterUser(users: UserTable, req: UserSchema.UserCreate, hash: string -> string, insertFails: bool)
    returns (r: Result<UserRead, HttpError>)
    requires users.Valid()
    modifies users
    ensures users.Valid()
    ensures UsernameTaken(old(users.rows), req.username) ==>
              r == Err(HttpError(400, UsernameExists)) && users.rows == old(users.rows) && users.nextId == old(users.nextId)
    ensures !UsernameTaken(old(users.rows), req.username) && EmailTaken(old(users.rows), req.email) ==>
              r == Err(HttpError(400, EmailRegistered)) && users.rows == old(users.rows) && users.nextId == old(users.nextId)
    ensures !UsernameTaken(old(users.rows), req.username) && !EmailTaken(old(users.rows), req.email) && insertFails ==>
              r == Err(HttpError(500, CreateFailed)) && users.rows == old(users.rows) && users.nextId == old(users.nextId)
    ensures !UsernameTaken(old(users.rows), req.username) && !EmailTaken(old(users.rows), req.email) && !insertFails ==>
              var id := old(users.nextId);
              && users.rows == old(users.rows)[id := UserRow(id, req.username, Some(req.email), hash(req.password))]
              && id !in old(users.rows) && users.nextId == id + 1
              && r == Ok(UserRead(id, req.username, Some(req.email)))
  {
    var existingUser := FindByUsername(users.rows, req.username, users.nextId);
    if existingUser.Some? {
      return Err(HttpError(400, UsernameExists));
    }
    var existingEmail := FindByEmail(users.rows, req.email, users.nextId);
    if existingEmail.Some? {
      return Err(HttpError(400, EmailRegistered));
    }
    if insertFails {
      // the session is rolled back
      return Err(HttpError(500, CreateFailed));
    }
    var id := users.nextId;
    var row := UserRow(id, req.username, Some(req.email), hash(req.password));
    users.rows := users.rows[id := row];
    users.nextId := id + 1;
    r := Ok(UserRead(id, req.username, Some(req.email)));
  }

  /** The claims of a login token: `sub` is the decimal id and `username` the name. */
  function LoginClaims(user: UserRow): (c: Payload)
    ensures c.Keys == {"sub", "username"}
    ensures c["sub"] == CStr(IntToString(user.id)) && c["username"] == CStr(user.username)
  {
    map["sub" := CStr(IntToString(user.id)), "username" := CStr(user.username)]
  }

  /**
   * `login_user`: an unknown username and a wrong password get the same 401;
   * on success the answer carries a token for that user's claims, the type
   * `bearer` and the username. `fault` stands for any other exception inside
   * the `try`, which becomes a 500.
   */
  function LoginUser(users: map<int, UserRow>, bound: int, req: UserLogin,
                     verify: (string, string) -> bool, encode: Payload -> string,
                     nowSec: int, expireMinutes: int, fault: bool): (r: Result<LoginResponse, HttpError>)
    requires forall k :: k in users ==> 0 < k < bound
    requires forall j, k :: j in users && k in users && users[j].username == users[k].username ==> j == k
    ensures fault ==> r == Err(HttpError(500, LoginFailed))
    ensures !fault && !UsernameTaken(users, req.username) ==> r == Err(HttpError(401, InvalidCredentials))
    ensures r.Ok? <==>
              !fault && exists k :: k in users && users[k].username == req.username
                                   && verify(req.password, users[k].passwordHash)
    ensures r.Err? ==> r.error == HttpError(500, LoginFailed) || r.error == HttpError(401, InvalidCredentials)
    ensures r.Ok? ==>
              exists u :: u in users.Values && u.username == req.username && verify(req.password, u.passwordHash)
                          && r.value == LoginResponse(CreateAccessToken(LoginClaims(u), nowSec, expireMinutes, encode),
                                                      "bearer", u.username)
  {
    if fault then Err(HttpError(500, LoginFailed))
    else
      match FindByUsername(users, req.username, bound)
      case None => Err(HttpError(401, InvalidCredentials))
      case Some(u) =>
        assert forall k :: k in users && users[k].username == req.username ==> users[k] == u;
        if !verify(req.password, u.passwordHash) then Err(HttpError(401, InvalidCredentials))
        else Ok(LoginResponse(CreateAccessToken(LoginClaims(u), nowSec, expireMinutes, encode), "bearer", u.username))
  }

  /** An unknown username and a wrong password cannot be told apart from the answer. */
  lemma UnknownUserLooksLikeWrongPassword(users: map<int, UserRow>, bound: int, unknown: UserLogin, wrong: UserLogin,
                                          verify: (string, string) -> bool, encode: Payload -> string,
                                          nowSec: int, expireMinutes: int)
    requires forall k :: k in users ==> 0 < k < bound
    requires forall j, k :: j in users && k in users && users[j].username == users[k].username ==> j == k
    requires !UsernameTaken(users, unknown.username)
    requires forall k :: k in users && users[k].username == wrong.username ==> !verify(wrong.password, users[k].passwordHash)
    ensures LoginUser(users, bound, unknown, verify, encode, nowSec, expireMinutes, false)
            == LoginUser(users, bound, wrong, verify, encode, nowSec, expireMinutes, false)
            == Err(HttpError(401, InvalidCredentials))
  {
  }
}
