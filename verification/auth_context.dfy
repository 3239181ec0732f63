/** The browser-side session: what `AuthProvider` keeps in `localStorage`, the
    default `Authorization` header of the shared HTTP client, the signed-in
    user and the `loading` flag, and the transitions that change them. Network
    replies and `JSON.parse` results are inputs of the transitions. */
module AuthContext {
  import opened Wrappers
  import opened Js
  import Http

  /** The user object the server returns and the client keeps. */
  datatype SessionUser = SessionUser(id: int, name: string, email: string, isAdmin: int)

  datatype Session = Session(
    storage: map<string, string>,
    authHeader: Option<string>,
    user: Option<SessionUser>,
    loading: bool)

  const TokenKey := "token"
  const UserKey := "user"
  const ProviderMissingMessage := "useAuth must be used within an AuthProvider"
  const LoginFailedMessage := "Login failed"
  const RegistrationFailedMessage := "Registration failed"

  /** `localStorage.getItem(key)`. */
  function Stored(s: Session, key: string): Option<string> {
    if key in s.storage then Some(s.storage[key]) else None
  }

  /** `useAuth`: the context value inside a provider, an error outside one. */
  function UseAuth(context: Option<Session>): (r: Result<Session, string>)
    ensures context.None? <==> r == Err(ProviderMissingMessage)
    ensures context.Some? ==> r == Ok(context.value)
  {
    match context
    case None => Err(ProviderMissingMessage)
    case Some(s) => Ok(s)
  }

  /** The provider as first rendered: no user, no header, still loading. */
  function Mount(storage: map<string, string>): (s: Session)
    ensures s.storage == storage && s.authHeader.None? && s.user.None? && s.loading
  {
    Session(storage, None, None, true)
  }

  /** What `JSON.parse` made of the stored user: a value (`null` or a user
      object), or an exception. */
  datatype Parsed = ParseError | ParsedUser(value: Option<SessionUser>)

  /** Both session keys removed, every other key kept. */
  function ForgetSession(storage: map<string, string>): (m: map<string, string>)
    ensures TokenKey !in m && UserKey !in m
    ensures forall k | k in storage && k != TokenKey && k != UserKey :: k in m && m[k] == storage[k]
    ensures forall k | k in m :: k in storage
  {
    storage - {TokenKey, UserKey}
  }

  /** The mount effect. Without a stored token: stop loading. With one: set
      the header to `"Bearer " + token`; restore a stored user if it parses
      and forget both keys if it does not; then check the token with a request
      (`validated` is whether it succeeded): on failure forget both keys, drop
      the header and the user. Loading ends either way. */
  function Startup(s: Session, parsed: Parsed, validated: bool): (r: Session)
    ensures !r.loading
    ensures !Truthy(Stored(s, TokenKey)) ==> r == s.(loading := false)
    ensures Truthy(Stored(s, TokenKey)) && !validated ==>
              r.storage == ForgetSession(s.storage) && r.authHeader.None? && r.user.None?
    ensures Truthy(Stored(s, TokenKey)) && validated ==>
              r.authHeader == Some(Http.BearerPrefix + s.storage[TokenKey])
    ensures Truthy(Stored(s, TokenKey)) && validated && Truthy(Stored(s, UserKey)) && parsed.ParsedUser? ==>
              r.storage == s.storage && r.user == parsed.value
    ensures Truthy(Stored(s, TokenKey)) && validated && Truthy(Stored(s, UserKey)) && parsed.ParseError? ==>
              r.storage == ForgetSession(s.storage) && r.user == s.user
    ensures Truthy(Stored(s, TokenKey)) && validated && !Truthy(Stored(s, UserKey)) ==>
              r.storage == s.storage && r.user == s.user
  {
    var token := Stored(s, TokenKey);
    if !Truthy(token) then s.(loading := false)
    else
      var withHeader := s.(authHeader := Some(Http.BearerPrefix + token.value));
      var restored :=
        if !Truthy(Stored(s, UserKey)) then withHeader
        else
          match parsed
          case ParsedUser(u) => withHeader.(user := u)
          case ParseError => withHeader.(storage := ForgetSession(s.storage));
      var checked :=
        if validated then restored
        else restored.(storage := ForgetSession(restored.storage), authHeader := None, user := None);
      assert !validated ==> ForgetSession(restored.storage) == ForgetSession(s.storage);
      checked.(loading := false)
  }

  /** The server's answer to a sign-in request: the token and user on
      success; on failure the server's `message` (if it sent one) and the
      client error's own `message`. `userJson` is `JSON.stringify(user)`. */
  datatype Reply =
    | Accepted(token: string, user: SessionUser, userJson: string)
    | Rejected(serverMessage: Option<string>, errorMessage: Option<string>)

  /** What `login`/`register` return: `{success: true}` or `{success: false, message}`. */
  datatype SignInResult = SignInResult(success: bool, message: Option<string>)

  /** The shared body of `login` and `register`. On success: store the token
      and the serialised user, set the header to `"Bearer " + token`, set the
      user. On failure nothing changes and the message is the server's, else
      the error's, else `fallback`. */
  function SignIn(s: Session, reply: Reply, fallback: string): (r: (Session, SignInResult))
    ensures reply.Accepted? ==>
      && r.1 == SignInResult(true, None)
      && r.0.storage.Keys == s.storage.Keys + {TokenKey, UserKey}
      && r.0.storage[TokenKey] == reply.token && r.0.storage[UserKey] == reply.userJson
      && (forall k | k in s.storage && k != TokenKey && k != UserKey :: r.0.storage[k] == s.storage[k])
      && r.0.authHeader == Some(Http.BearerPrefix + reply.token)
      && r.0.user == Some(reply.user)
      && r.0.loading == s.loading
    ensures reply.Rejected? ==>
      && r.0 == s
      && r.1 == SignInResult(false, Some(FirstTruthy(reply.serverMessage, reply.errorMessage, fallback)))
  {
    match reply
    case Accepted(token, user, json) =>
      var s' := s.(storage := s.storage[TokenKey := token][UserKey := json],
                   authHeader := Some(Http.BearerPrefix + token),
                   user := Some(user));
      (s', SignInResult(true, None))
    case Rejected(server, err) =>
      (s, SignInResult(false, Some(FirstTruthy(server, err, fallback))))
  }

  /** `login`: sign in; a failure without any message reads "Login failed". */
  function Login(s: Session, reply: Reply): (r: (Session, SignInResult))
    ensures r.1.success <==> reply.Accepted?
    ensures reply.Rejected? ==> r.0 == s
    ensures reply.Rejected? && !Truthy(reply.serverMessage) && !Truthy(reply.errorMessage) ==>
              r.1.message == Some(LoginFailedMessage)
    ensures reply.Accepted? ==> r.0.user == Some(reply.user) && Stored(r.0, TokenKey) == Some(reply.token)
  {
    SignIn(s, reply, LoginFailedMessage)
  }

  /** `register`: the same session update as `login`; a failure without any
      message reads "Registration failed". */
  function Register(s: Session, reply: Reply): (r: (Session, SignInResult))
    ensures r.1.success <==> reply.Accepted?
    ensures reply.Rejected? ==> r.0 == s
    ensures reply.Rejected? && !Truthy(reply.serverMessage) && !Truthy(reply.errorMessage) ==>
              r.1.message == Some(RegistrationFailedMessage)
    ensures reply.Accepted? ==> r.0 == Login(s, reply).0
  {
    SignIn(s, reply, RegistrationFailedMessage)
  }

  /** `logout`: forget both keys, drop the header and the user. */
  function Logout(s: Session): (r: Session)
    ensures r.storage == ForgetSession(s.storage)
    ensures r.authHeader.None? && r.user.None? && r.loading == s.loading
  {
    s.(storage := ForgetSession(s.storage), authHeader := None, user := None)
  }

  /** Logging out twice is logging out once. */
  lemma LogoutIdempotent(s: Session)
    ensures Logout(Logout(s)) == Logout(s)
  {
  }

  /** A reload after logging out stays signed out: no token is found, so no
      header is set and no user is restored. */
  lemma ReloadAfterLogoutSignedOut(s: Session, parsed: Parsed, validated: bool)
    ensures var r := Startup(Mount(Logout(s).storage), parsed, validated);
            r.user.None? && r.authHeader.None? && !r.loading
  {
  }

  /** A reload after signing in restores the session: the stored token is
      put back in the header and the stored user, parsed back, becomes the
      user, provided the token still validates. (`JSON.stringify` of a user
      object is never empty.) */
  lemma {:induction false} ReloadAfterSignInRestores(s: Session, token: string, u: SessionUser, json: string)
    requires token != "" && json != ""
    ensures var signedIn := Login(s, Accepted(token, u, json)).0;
            var r := Startup(Mount(signedIn.storage), ParsedUser(Some(u)), true);
            r.user == Some(u) && r.authHeader == signedIn.authHeader && r.storage == signedIn.storage
  {
    var signedIn := Login(s, Accepted(token, u, json)).0;
    assert Stored(Mount(signedIn.storage), TokenKey) == Some(token);
    assert Stored(Mount(signedIn.storage), UserKey) == Some(json);
  }
}
