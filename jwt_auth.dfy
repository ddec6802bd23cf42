/**
 * The token helpers of backend/app/utils/auth.py: configuration loading,
 * `create_access_token`, `decode_access_token`, the bearer-credential
 * extraction of its `OAuth2PasswordBearer` dependency, and
 * `get_current_user`.
 *
 * PyJWT's signing and verification (including its `exp` check) are the
 * parameters `encode` and `decode`; a JWT payload is a map of claims
 * (section 4.1 of RFC 7519).
 */
module AuthUtils {
  import opened Wrappers
  import opened Text
  import opened Database

  /** A claim value: the payloads here hold text (`sub`, `username`) and integers (`exp`). */
  datatype ClaimValue = CStr(s: string) | CInt(n: int)

  type Payload = map<string, ClaimValue>

  /** An `HTTPException`: status code and `detail`. */
  datatype HttpError = HttpError(status: int, detail: string)

  // ------------------------------------------------------------- settings

  /** The settings read from the environment when the module loads. */
  datatype Config = Config(secret: string, algorithm: Option<string>, expireMinutes: int)

  /** Why loading the module fails. */
  datatype ConfigError = TypeError | ValueError | RuntimeError(message: string)

  const SecretMissing := "JWT_SECRET is not set in .env file"

  /**
   * `int(os.getenv("ACCESS_TOKEN_EXPIRE_MINUTES"))` runs first and raises
   * `TypeError` when the variable is unset and `ValueError` when it is not an
   * integer; then an unset or empty `JWT_SECRET` raises `RuntimeError`.
   */
  function LoadConfig(env: map<string, string>): (r: Result<Config, ConfigError>)
    ensures "ACCESS_TOKEN_EXPIRE_MINUTES" !in env <==> r == Err(TypeError)
    ensures r == Err(ValueError) <==>
              "ACCESS_TOKEN_EXPIRE_MINUTES" in env && PyInt(env["ACCESS_TOKEN_EXPIRE_MINUTES"]).None?
    ensures r == Err(RuntimeError(SecretMissing)) <==>
              "ACCESS_TOKEN_EXPIRE_MINUTES" in env && PyInt(env["ACCESS_TOKEN_EXPIRE_MINUTES"]).Some?
              && ("JWT_SECRET" !in env || env["JWT_SECRET"] == "")
    ensures r.Ok? ==>
              "JWT_SECRET" in env && r.value.secret == env["JWT_SECRET"] != ""
              && Some(r.value.expireMinutes) == PyInt(env["ACCESS_TOKEN_EXPIRE_MINUTES"])
              && r.value.algorithm == (if "JWT_ALGORITHM" in env then Some(env["JWT_ALGORITHM"]) else None)
  {
    if "ACCESS_TOKEN_EXPIRE_MINUTES" !in env then Err(TypeError)
    else
      match PyInt(env["ACCESS_TOKEN_EXPIRE_MINUTES"])
      case None => Err(ValueError)
      case Some(minutes) =>
        if "JWT_SECRET" !in env || env["JWT_SECRET"] == "" then Err(RuntimeError(SecretMissing))
        else
          var algorithm := if "JWT_ALGORITHM" in env then Some(env["JWT_ALGORITHM"]) else None;
          Ok(Config(env["JWT_SECRET"], algorithm, minutes))
  }

  // --------------------------------------------------------------- tokens

  /**
   * The claims `create_access_token` signs: a copy of `data` with `exp` set
   * to the current time in seconds plus the configured minutes. The
   * caller's map is a value and is not changed.
   */
  function TokenClaims(data: Payload, nowSec: int, expireMinutes: int): (c: Payload)
    ensures "exp" in c && c["exp"] == CInt(nowSec + 60 * expireMinutes)
    ensures c - {"exp"} == data - {"exp"}
    ensures forall k :: k in data && k != "exp" ==> k in c && c[k] == data[k]
    ensures c.Keys == data.Keys + {"exp"}
  {
    data["exp" := CInt(nowSec + 60 * expireMinutes)]
  }

  /** `create_access_token(data)`: the signed claims. */
  function CreateAccessToken(data: Payload, nowSec: int, expireMinutes: int, encode: Payload -> string): string
  {
    encode(TokenClaims(data, nowSec, expireMinutes))
  }

  /** `decode_access_token`: a `PyJWTError` from `jwt.decode` becomes `None`. */
  function DecodeAccessToken(token: string, decode: string -> Result<Payload, string>): (r: Option<Payload>)
    ensures r.None? <==> decode(token).Err?
    ensures r.Some? ==> r.value == decode(token).value
  {
    match decode(token)
    case Ok(p) => Some(p)
    case Err(_) => None
  }

  // ------------------------------------------------------ bearer credential

  const NotAuthenticated := "Not authenticated"

  /**
   * `OAuth2PasswordBearer`: the `Authorization` header is split at its first
   * space; the scheme must be `bearer` in any ASCII case, and the rest is the
   * token. A missing header or another scheme is a 401.
   */
  function BearerCredential(headers: map<string, string>): (r: Result<string, HttpError>)
    ensures r.Err? ==> r.error == HttpError(401, NotAuthenticated)
    ensures "Authorization" !in headers ==> r.Err?
    ensures r.Ok? ==>
              var v := headers["Authorization"];
              || (exists i :: 0 <= i < |v| && v[i] == ' ' && (forall j :: 0 <= j < i ==> v[j] != ' ')
                               && ToLower(v[..i]) == "bearer" && r.value == v[i + 1..])
              || ((forall j :: 0 <= j < |v| ==> v[j] != ' ') && ToLower(v) == "bearer" && r.value == "")
    ensures "Authorization" in headers ==>
              var v := headers["Authorization"];
              forall i :: (0 <= i < |v| && v[i] == ' ' && (forall j :: 0 <= j < i ==> v[j] != ' ')
                           && ToLower(v[..i]) == "bearer") ==> r == Ok(v[i + 1..])
    ensures "Authorization" in headers ==>
              var v := headers["Authorization"];
              (forall j :: 0 <= j < |v| ==> v[j] != ' ') && ToLower(v) == "bearer" ==> r == Ok("")
  {
    if "Authorization" !in headers || headers["Authorization"] == "" then Err(HttpError(401, NotAuthenticated))
    else
      var value := headers["Authorization"];
      var (scheme, param) := match FirstIndexOf(value, ' ')
                              case Some(i) => (value[..i], value[i + 1..])
                              case None => (value, "");
      if ToLower(scheme) != "bearer" then Err(HttpError(401, NotAuthenticated))
      else Ok(param)
  }

  /** The header the front-end interceptor attaches yields the token it carries. */
  lemma {:induction false} BearerHeaderRoundTrip(headers: map<string, string>, token: string)
    ensures var h := headers["Authorization" := "Bearer " + token];
            BearerCredential(h) == Ok(token)
  {
    var value := "Bearer " + token;
    assert value[6] == ' ';
    assert FirstIndexOf(value, ' ') == Some(6);
    assert value[..6] == "Bearer";
    assert value[7..] == token;
  }

  // -------------------------------------------------------- current user

  const InvalidToken := "Invalid token"
  const UserNotFound := "User not found"
  const InternalError := "Internal Server Error"

  /** `int(payload["sub"])`: an integer, or text that parses as one; anything else raises `ValueError`. */
  function SubjectId(v: ClaimValue): Option<int>
  {
    match v
    case CInt(n) => Some(n)
    case CStr(s) => PyInt(s)
  }

  /**
   * `get_current_user`: a token that does not decode, or whose (possibly
   * empty) payload has no `sub`, is a 401; an unparsable `sub` escapes as an
   * unhandled `ValueError` (a 500); an id without a row is a 404; otherwise
   * it is the row whose id is `int(sub)`.
   */
  function GetCurrentUser(token: string, decode: string -> Result<Payload, string>,
                          users: map<int, UserRow>): (r: Result<UserRow, HttpError>)
    ensures DecodeAccessToken(token, decode).None? ==> r == Err(HttpError(401, InvalidToken))
    ensures var p := DecodeAccessToken(token, decode);
            p.Some? && "sub" !in p.value ==> r == Err(HttpError(401, InvalidToken))
    ensures var p := DecodeAccessToken(token, decode);
            p.Some? && "sub" in p.value && SubjectId(p.value["sub"]).None? ==> r == Err(HttpError(500, InternalError))
    ensures var p := DecodeAccessToken(token, decode);
            p.Some? && "sub" in p.value && SubjectId(p.value["sub"]).Some? ==>
              var id := SubjectId(p.value["sub"]).value;
              (id !in users ==> r == Err(HttpError(404, UserNotFound)))
              && (id in users ==> r == Ok(users[id]))
    ensures r.Ok? ==> r.value in users.Values
  {
    match DecodeAccessToken(token, decode)
    case None => Err(HttpError(401, InvalidToken))
    case Some(payload) =>
      if "sub" !in payload then Err(HttpError(401, InvalidToken))
      else
        match SubjectId(payload["sub"])
        case None => Err(HttpError(500, InternalError))
        case Some(id) => if id in users then Ok(users[id]) else Err(HttpError(404, UserNotFound))
  }

  /** A token signed for subject `str(id)` resolves to row `id`, if `decode` inverts `encode`. */
  lemma {:induction false} IssuedTokenResolves(data: Payload, nowSec: int, minutes: int,
                                               encode: Payload -> string, decode: string -> Result<Payload, string>,
                                               users: map<int, UserRow>, id: int)
    requires forall c :: decode(encode(c)) == Ok(c)
    requires "sub" in data && data["sub"] == CStr(IntToString(id))
    requires id in users
    ensures GetCurrentUser(CreateAccessToken(data, nowSec, minutes, encode), decode, users) == Ok(users[id])
  {
    var c := TokenClaims(data, nowSec, minutes);
    assert decode(encode(c)) == Ok(c);
    assert c["sub"] == CStr(IntToString(id));
    PyIntRoundTrip(id);
  }
}
