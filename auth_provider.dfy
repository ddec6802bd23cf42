/**
 * The session state machine of frontend/src/context/AuthProvider.jsx: the
 * `{user, loading, error}` record and the operations `initialize`, `login`
 * and `logout`, which read and write the one session entry of the store.
 *
 * Each operation is a method of `AuthProvider` whose new state is given by a
 * pure step function over a `Session` snapshot (state, store contents,
 * store availability); the properties are stated about the step functions.
 */
module AuthProvider {
  import opened Wrappers
  import opened TokenCodec
  import opened SessionStore

  /** The signed-in user held in the state. `id` is read from the stored record, which never has one. */
  datatype User = User(id: Option<string>, username: string, token: string)

  /** The context value `{user, loading, error}`. */
  datatype AuthState = AuthState(user: Option<User>, loading: bool, error: Option<string>)

  /** The provider's state together with the store it owns. */
  datatype Session = Session(state: AuthState, items: map<string, string>, available: bool)

  const AuthenticationFailed := "Authentication failed"
  const LoginFailed := "Login failed"

  /** The state before `initialize` has run. */
  function InitialState(): (s: AuthState)
    ensures s.user.None? && s.loading && s.error.None?
  {
    AuthState(None, true, None)
  }

  /** The state after a successful sign-in or rehydration. */
  function SignedIn(username: string, token: string): AuthState
  {
    AuthState(Some(User(None, username, token)), false, None)
  }

  /** The signed-out state without an error. */
  function SignedOut(): AuthState
  {
    AuthState(None, false, None)
  }

  /**
   * `initialize`: rehydrates the user from a stored record whose token is
   * valid, and otherwise clears the entry and signs out. When storage throws,
   * the `removeItem` inside `clearStoredAuth` raises and the catch block sets
   * the error `'Authentication failed'`.
   */
  function InitializeStep(s: Session, key: string, decode: Decoder, nowMs: int): (r: Session)
    ensures !r.state.loading
    ensures r.available == s.available
    ensures r.items - {key} == s.items - {key}
    ensures r.state.user.Some? <==>
              ReadAuth(s.items, s.available, key).Some? &&
              IsValidToken(Some(ReadAuth(s.items, s.available, key).value.token), decode, nowMs)
    ensures r.state.user.Some? ==>
              r.items == s.items && r.state.error.None? &&
              r.state.user == Some(User(None, ReadAuth(s.items, s.available, key).value.username,
                                        ReadAuth(s.items, s.available, key).value.token))
    ensures r.state.user.None? && s.available ==> key !in r.items && r.state.error.None?
    ensures r.state.error.Some? <==> !s.available
    ensures r.state.error.Some? ==> r.state.error.value == AuthenticationFailed && r.items == s.items
  {
    var record := ReadAuth(s.items, s.available, key);
    if record.Some? && IsValidToken(Some(record.value.token), decode, nowMs) then
      Session(SignedIn(record.value.username, record.value.token), s.items, s.available)
    else if s.available then
      Session(SignedOut(), s.items - {key}, s.available)
    else
      Session(AuthState(None, false, Some(AuthenticationFailed)), s.items, s.available)
  }

  /**
   * `login(token, username)`: with either value missing or empty it keeps the
   * user and the store and reports `'Login failed'`; otherwise it writes
   * exactly `{token, username}` and signs in. Expiry is not checked.
   */
  function LoginStep(s: Session, key: string, token: string, username: string): (r: Session)
    ensures !r.state.loading
    ensures r.available == s.available
    ensures token == "" || username == "" ==>
              r.items == s.items && r.state.user == s.state.user && r.state.error == Some(LoginFailed)
    ensures token != "" && username != "" ==>
              r.state.user == Some(User(None, username, token)) && r.state.error.None?
    ensures token != "" && username != "" && s.available ==>
              r.items == s.items[key := Serialize(StoredAuth(token, username))]
    ensures !s.available ==> r.items == s.items
  {
    if token == "" || username == "" then
      Session(s.state.(error := Some(LoginFailed), loading := false), s.items, s.available)
    else
      var items := if s.available then s.items[key := Serialize(StoredAuth(token, username))] else s.items;
      Session(SignedIn(username, token), items, s.available)
  }

  /**
   * `logout`: clears the entry and signs out. When storage throws, the
   * exception from `clearStoredAuth` leaves `logout` before `setState`.
   */
  function LogoutStep(s: Session, key: string): (r: Session)
    ensures r.available == s.available
    ensures s.available ==> r.state == SignedOut() && key !in r.items && r.items == s.items - {key}
    ensures !s.available ==> r == s
  {
    if s.available then Session(SignedOut(), s.items - {key}, s.available) else s
  }

  /** Logging out twice leaves the same store and state as logging out once. */
  lemma LogoutIdempotent(s: Session, key: string)
    ensures LogoutStep(LogoutStep(s, key), key) == LogoutStep(s, key)
  {
  }

  /** Re-running `initialize` changes nothing: the second run finds what the first left behind. */
  lemma {:induction false} InitializeIdempotent(s: Session, key: string, decode: Decoder, nowMs: int)
    ensures InitializeStep(InitializeStep(s, key, decode, nowMs), key, decode, nowMs) == InitializeStep(s, key, decode, nowMs)
  {
    var once := InitializeStep(s, key, decode, nowMs);
    if once.state.user.None? && s.available {
      ClearThenRead(s.items, s.available, key);
      assert once.items == s.items - {key};
      assert once.items - {key} == once.items;
    }
  }

  /** After logout, `initialize` finds nothing and stays signed out. */
  lemma InitializeAfterLogout(s: Session, key: string, decode: Decoder, nowMs: int)
    requires s.available
    ensures InitializeStep(LogoutStep(s, key), key, decode, nowMs).state == SignedOut()
  {
    ClearThenRead(s.items, s.available, key);
  }

  /**
   * A successful login survives a reload: `initialize` on the store that
   * `login` wrote restores the same user, as long as the token is still valid.
   */
  lemma {:induction false} LoginThenInitialize(s: Session, key: string, token: string, username: string,
                                                decode: Decoder, nowMs: int)
    requires s.available && token != "" && username != ""
    requires IsValidToken(Some(token), decode, nowMs)
    ensures var after := LoginStep(s, key, token, username);
            InitializeStep(after, key, decode, nowMs) == after
  {
    var after := LoginStep(s, key, token, username);
    WriteThenRead(s.items, key, StoredAuth(token, username));
    assert ReadAuth(after.items, after.available, key) == Some(StoredAuth(token, username));
  }

  /**
   * The same after a reload with an expired token: the entry is removed and
   * the user is signed out.
   */
  lemma {:induction false} ExpiredLoginThenInitialize(s: Session, key: string, token: string, username: string,
                                                       decode: Decoder, nowMs: int)
    requires s.available && token != "" && username != ""
    requires !IsValidToken(Some(token), decode, nowMs)
    ensures var after := InitializeStep(LoginStep(s, key, token, username), key, decode, nowMs);
            after.state == SignedOut() && key !in after.items
  {
    WriteThenRead(s.items, key, StoredAuth(token, username));
  }

  /** The provider component: its state fields and the store it reads and writes. */
  class AuthProvider {
    var user: Option<User>
    var loading: bool
    var error: Option<string>
    const storage: LocalStorage
    const key: string

    /** The provider's state and its store as one value. */
    function Snap(): Session
      reads this, storage
    {
      Session(AuthState(user, loading, error), storage.items, storage.available)
    }

    constructor (storage: LocalStorage, key: string)
      ensures AuthState(user, loading, error) == InitialState()
      ensures this.storage == storage && this.key == key
    {
      user, loading, error := None, true, None;
      this.storage := storage;
      this.key := key;
    }

    method Initialize(decode: Decoder, nowMs: int)
      modifies this, storage
      ensures Snap() == InitializeStep(old(Snap()), key, decode, nowMs)
    {
      var authData := GetStoredAuth(storage, key);
      if authData.Some? && IsValidToken(Some(authData.value.token), decode, nowMs) {
        user, loading, error := Some(User(None, authData.value.username, authData.value.token)), false, None;
      } else {
        var threw := ClearStoredAuth(storage, key);
        if threw {
          user, loading, error := None, false, Some(AuthenticationFailed);
        } else {
          user, loading, error := None, false, None;
        }
      }
    }

    method Login(token: string, username: string)
      modifies this, storage
      ensures Snap() == LoginStep(old(Snap()), key, token, username)
    {
      if token == "" || username == "" {
        // the thrown 'Invalid authentication data' is caught
        error, loading := Some(LoginFailed), false;
        return;
      }
      SetStoredAuth(storage, key, StoredAuth(token, username));
      user, loading, error := Some(User(None, username, token)), false, None;
    }

    method Logout() returns (threw: bool)
      modifies this, storage
      ensures threw == !old(storage.available)
      ensures Snap() == LogoutStep(old(Snap()), key)
    {
      threw := ClearStoredAuth(storage, key);
      if threw {
        return;
      }
      user, loading, error := None, false, None;
    }
  }

  /**
   * The scenario of a stored record with a valid token: `initialize` yields
   * the stored user with `loading` false and no error.
   */
  lemma {:induction false} RehydrateScenario(items: map<string, string>, key: string, token: string,
                                             decode: Decoder, nowMs: int)
    requires decode(token) == Some(Claims(Some(nowMs / 1000 + 3600), Some("1")))
    requires token != ""
    ensures var r := InitializeStep(Session(InitialState(), items[key := Serialize(StoredAuth(token, "alice"))], true),
                                    key, decode, nowMs);
            r.state == AuthState(Some(User(None, "alice", token)), false, None)
  {
    WriteThenRead(items, key, StoredAuth(token, "alice"));
  }
}
