/**
 * The sign-in path across both halves of the system: the token
 * backend/app/routes/auth.py issues is stored by the auth provider,
 * attached by the request interceptor of frontend/src/services/api.js, taken
 * out of the header by the bearer scheme of backend/app/utils/auth.py and
 * resolved back to the user who signed in.
 */
module EndToEnd {
  import opened Wrappers
  import opened SessionStore
  import opened AuthProvider
  import ApiClient
  import opened Database
  import opened AuthUtils
  import opened AuthRoutes

  /** The client half: a signed-in session's next request carries its token as a bearer credential. */
  lemma ClientSendsToken(s: Session, key: string, token: string, username: string, headers: map<string, string>)
    requires token != "" && username != "" && s.available
    ensures var after := LoginStep(s, key, token, username);
            var sent := ApiClient.AttachBearer(headers, ReadAuth(after.items, after.available, key));
            after.state.user == Some(User(None, username, token)) && BearerCredential(sent) == Ok(token)
  {
    var after := LoginStep(s, key, token, username);
    var stored := StoredAuth(token, username);
    assert after.items == s.items[key := Serialize(stored)] && after.available;
    WriteThenRead(s.items, key, stored);
    var sent := ApiClient.AttachBearer(headers, ReadAuth(after.items, after.available, key));
    assert sent == headers["Authorization" := "Bearer " + token];
    BearerHeaderRoundTrip(headers, token);
  }

  /**
   * After a successful `/auth/login` and the client's `login(token,
   * username)`, the next request authenticates as the same user, provided
   * `decode` inverts `encode`, tokens are never empty and the user table is
   * keyed by id with unique usernames.
   */
  lemma {:induction false} LoginAuthenticatesLaterRequests(
    users: map<int, UserRow>, bound: int, req: UserLogin,
    verify: (string, string) -> bool, encode: Payload -> string, decode: string -> Result<Payload, string>,
    nowSec: int, expireMinutes: int, s: Session, key: string, headers: map<string, string>)
    requires forall k :: k in users ==> 0 < k < bound && users[k].id == k
    requires forall j, k :: j in users && k in users && users[j].username == users[k].username ==> j == k
    requires forall c :: decode(encode(c)) == Ok(c)
    requires forall c :: encode(c) != ""
    requires req.username != "" && s.available
    requires LoginUser(users, bound, req, verify, encode, nowSec, expireMinutes, false).Ok?
    ensures var resp := LoginUser(users, bound, req, verify, encode, nowSec, expireMinutes, false).value;
            var after := LoginStep(s, key, resp.accessToken, resp.username);
            var sent := ApiClient.AttachBearer(headers, ReadAuth(after.items, after.available, key));
            && after.state.user == Some(User(None, req.username, resp.accessToken))
            && BearerCredential(sent) == Ok(resp.accessToken)
            && var me := GetCurrentUser(resp.accessToken, decode, users);
               me.Ok? && me.value in users.Values && me.value.username == req.username
  {
    var resp := LoginUser(users, bound, req, verify, encode, nowSec, expireMinutes, false).value;
    var u :| u in users.Values && u.username == req.username && verify(req.password, u.passwordHash)
             && resp == LoginResponse(CreateAccessToken(LoginClaims(u), nowSec, expireMinutes, encode), "bearer", u.username);
    var k :| k in users && users[k] == u;
    assert u.id == k;
    ClientSendsToken(s, key, resp.accessToken, resp.username, headers);
    IssuedTokenResolves(LoginClaims(u), nowSec, expireMinutes, encode, decode, users, u.id);
  }
}
