/** The client's start-up token check run against the server pipeline: the
    mount effect sends `GET /api/tasks` with the header it just set, and keeps
    the session only if that request succeeds. */
module EndToEnd {
  import opened Wrappers
  import opened Js
  import opened Schema
  import opened Http
  import opened TaskController
  import opened TaskRoutes
  import opened AuthContext

  /** The check request: `GET /api/tasks` with the given `Authorization` header. */
  function CheckRequest(header: Option<string>): Request {
    Request(GET, "/", header, None, TaskFields(None, None, None, None))
  }

  /** The client's HTTP library treats a 2xx status as success. */
  predicate Succeeded(r: Response) {
    200 <= r.status < 300
  }

  /** A page load: mount the provider over `storage`, run the start-up effect,
      with the token check answered by the server over `db`. */
  function Reload(storage: map<string, string>, parsed: Parsed, db: Db, env: Env): (r: Session)
    ensures !r.loading
  {
    var s := Mount(storage);
    var token := Stored(s, TokenKey);
    var validated := Truthy(token) && Succeeded(Handle(CheckRequest(Some(BearerPrefix + token.value)), db, env).response);
    Startup(s, parsed, validated)
  }

  /** With a working store, a stored token that still verifies to an existing
      user survives a reload, and the stored user is restored. */
  lemma ReloadKeepsValidSession(storage: map<string, string>, su: SessionUser, db: Db, env: Env, u: User)
    requires TokenKey in storage && storage[TokenKey] != ""
    requires UserKey in storage && storage[UserKey] != ""
    requires u in db.users && env.verify(storage[TokenKey]) == Some(u.id) && !env.authFault && !env.handlerFault
    ensures var r := Reload(storage, ParsedUser(Some(su)), db, env);
            r.user == Some(su) && r.authHeader == Some(BearerPrefix + storage[TokenKey]) && r.storage == storage
  {
    var token := storage[TokenKey];
    SignedInOwnerListsTasks(CheckRequest(Some(BearerPrefix + token)), db, env, token, u);
  }

  /** As wired (every query raising), the token check always answers 401, so
      every reload with a stored token signs the user out and forgets the
      stored session. */
  lemma ReloadAsWiredSignsOut(storage: map<string, string>, parsed: Parsed, db: Db, env: Env)
    requires TokenKey in storage && storage[TokenKey] != ""
    ensures var r := Reload(storage, parsed, db, env.(authFault := true, handlerFault := true));
            r.user.None? && r.authHeader.None? && TokenKey !in r.storage && UserKey !in r.storage
  {
    var req := CheckRequest(Some(BearerPrefix + storage[TokenKey]));
    assert Dispatch(req) == Some((Router[0], ""));
    assert HandleAsWired(req, db, env) == Handle(req, db, env.(authFault := true, handlerFault := true));
  }
}
