/** The `/api/tasks` router: each route is a method, a path pattern and a
    middleware chain ending in a handler. A request runs the chain of the first
    route it matches; each middleware either calls `next` or answers. */
module TaskRoutes {
  import opened Wrappers
  import opened Js
  import opened Schema
  import opened Http
  import opened TaskController
  import opened AuthMiddleware

  datatype Method = GET | POST | PUT | DELETE

  datatype Handler = GetTasksHandler | CreateTaskHandler | UpdateTaskHandler | DeleteTaskHandler
                   | GetAllUsersHandler | GetAllTasksHandler

  /** One entry of a middleware chain. */
  datatype Stage = Authenticate | RequireAdmin | Invoke(handler: Handler)

  /** A path literal, or the single-segment parameter `/:id`. */
  datatype Pattern = Exact(path: string) | IdParam

  datatype Route = Route(verb: Method, pattern: Pattern, chain: seq<Stage>)

  /** The route table, in registration order. */
  const Router: seq<Route> := [
    Route(GET, Exact("/"), [Authenticate, Invoke(GetTasksHandler)]),
    Route(POST, Exact("/"), [Authenticate, Invoke(CreateTaskHandler)]),
    Route(PUT, IdParam, [Authenticate, Invoke(UpdateTaskHandler)]),
    Route(DELETE, IdParam, [Authenticate, Invoke(DeleteTaskHandler)]),
    Route(GET, Exact("/admin/users"), [Authenticate, RequireAdmin, Invoke(GetAllUsersHandler)]),
    Route(GET, Exact("/admin/all-tasks"), [Authenticate, RequireAdmin, Invoke(GetAllTasksHandler)])
  ]

  /** A request below `/api/tasks`: the path is relative to that mount point. */
  datatype Request = Request(
    verb: Method,
    path: string,
    authorization: Option<string>,
    statusQuery: Option<string>,
    body: TaskFields)

  /** What the pipeline consults besides the request and the store: the token
      verifier, the clock, whether the store raises on `auth`'s user lookup,
      and whether it raises on the handler's statement. */
  datatype Env = Env(verify: string -> Option<int>, now: int, authFault: bool, handlerFault: bool)

  /** The route parameter a pattern binds, or `None` if the path does not match. */
  function MatchPattern(pattern: Pattern, path: string): (r: Option<string>)
    ensures pattern.Exact? ==> (r.Some? <==> path == pattern.path)
    ensures pattern.IdParam? && r.Some? ==> path == "/" + r.value && r.value != "" && '/' !in r.value
  {
    match pattern
    case Exact(p) => if path == p then Some("") else None
    case IdParam =>
      if |path| >= 2 && path[0] == '/' && '/' !in path[1..] then
        assert path == "/" + path[1..];
        Some(path[1..])
      else None
  }

  /** The first route (from `routes[k..]`) matching the request, with its parameter. */
  function FindRoute(routes: seq<Route>, m: Method, path: string, k: nat): (r: Option<(Route, string)>)
    decreases |routes| - k
    ensures r.Some? ==> r.value.0 in routes && r.value.0.verb == m
                        && MatchPattern(r.value.0.pattern, path) == Some(r.value.1)
    ensures r.None? ==> forall j | k <= j < |routes| :: routes[j].verb != m || MatchPattern(routes[j].pattern, path).None?
  {
    if k >= |routes| then None
    else if routes[k].verb == m && MatchPattern(routes[k].pattern, path).Some? then
      Some((routes[k], MatchPattern(routes[k].pattern, path).value))
    else FindRoute(routes, m, path, k + 1)
  }

  /** The route found is the earliest match: every route registered before it
      (from `k` on) differs in method or does not match the path. */
  lemma {:induction false} FindRouteFirst(routes: seq<Route>, m: Method, path: string, k: nat)
    decreases |routes| - k
    ensures var r := FindRoute(routes, m, path, k);
            r.Some? ==> exists j | k <= j < |routes| :: routes[j] == r.value.0 && NoMatchBetween(routes, m, path, k, j)
  {
    if k < |routes| && !(routes[k].verb == m && MatchPattern(routes[k].pattern, path).Some?) {
      FindRouteFirst(routes, m, path, k + 1);
      var r := FindRoute(routes, m, path, k);
      if r.Some? {
        var j :| k + 1 <= j < |routes| && routes[j] == r.value.0 && NoMatchBetween(routes, m, path, k + 1, j);
        assert NoMatchBetween(routes, m, path, k, j);
      }
    } else if k < |routes| {
      assert NoMatchBetween(routes, m, path, k, k);
    }
  }

  /** No route of `routes[lo..hi]` matches the method and path. */
  predicate NoMatchBetween(routes: seq<Route>, m: Method, path: string, lo: nat, hi: nat)
    requires hi <= |routes|
  {
    forall i | lo <= i < hi :: routes[i].verb != m || MatchPattern(routes[i].pattern, path).None?
  }

  function Dispatch(req: Request): Option<(Route, string)> {
    FindRoute(Router, req.verb, req.path, 0)
  }

  predicate IsAdminHandler(h: Handler) {
    h == GetAllUsersHandler || h == GetAllTasksHandler
  }

  /** A handler with the principal attached. Read-only handlers leave the store as it was. */
  function RunHandler(h: Handler, req: Request, id: string, p: Principal, db: Db, env: Env): (r: Outcome)
    ensures !h.CreateTaskHandler? && !h.UpdateTaskHandler? && !h.DeleteTaskHandler? ==> r.db == db
    ensures Valid(db) ==> Valid(r.db)
  {
    match h
    case GetTasksHandler => Outcome(GetTasks(db, p, req.statusQuery, env.handlerFault), db)
    case CreateTaskHandler => CreateTask(db, p, req.body, env.now, env.handlerFault)
    case UpdateTaskHandler => UpdateTask(db, p, id, req.body, env.now, env.handlerFault)
    case DeleteTaskHandler => DeleteTask(db, p, id, env.handlerFault)
    case GetAllUsersHandler => Outcome(GetAllUsers(db, env.handlerFault), db)
    case GetAllTasksHandler => Outcome(GetAllTasks(db, env.handlerFault), db)
  }

  /** Runs a middleware chain. A stage that needs `req.user` before any
      middleware set it raises a TypeError, which ends in a 500; the route
      table never builds such a chain. A chain that runs out without
      answering falls through to the framework's 404. */
  function RunChain(chain: seq<Stage>, req: Request, id: string, user: Option<Principal>, db: Db, env: Env): (r: Outcome)
    decreases |chain|
    ensures Valid(db) ==> Valid(r.db)
  {
    if |chain| == 0 then Outcome(Response(404, NoRoute), db)
    else
      match chain[0]
      case Authenticate =>
        (match Auth(req.authorization, db.users, env.verify, env.authFault)
         case Halt(resp) => Outcome(resp, db)
         case Next(p) => RunChain(chain[1..], req, id, Some(p), db, env))
      case RequireAdmin =>
        if user.None? then Outcome(ServerError, db)
        else
          (match AdminAuth(user.value)
           case Halt(resp) => Outcome(resp, db)
           case Next(p) => RunChain(chain[1..], req, id, Some(p), db, env))
      case Invoke(h) =>
        if user.None? then Outcome(ServerError, db)
        else RunHandler(h, req, id, user.value, db, env)
  }

  /** Serves one request: an unmatched method/path gets the framework's 404;
      a matched one runs its route's chain. */
  function Handle(req: Request, db: Db, env: Env): (r: Outcome)
    ensures Dispatch(req).None? ==> r == Outcome(Response(404, NoRoute), db)
    ensures Valid(db) ==> Valid(r.db)
  {
    match Dispatch(req)
    case None => Outcome(Response(404, NoRoute), db)
    case Some((route, id)) => RunChain(route.chain, req, id, None, db, env)
  }

  // ------------------------------------------------------------------ properties

  /** A chain that authenticates first and ends in its handler, with
      `adminAuth` in between exactly when the handler is an admin view. */
  predicate GuardedChain(r: Route) {
    && |r.chain| >= 2 && r.chain[0] == Authenticate && r.chain[|r.chain| - 1].Invoke?
    && (IsAdminHandler(r.chain[|r.chain| - 1].handler) ==> |r.chain| == 3 && r.chain[1] == RequireAdmin)
    && (!IsAdminHandler(r.chain[|r.chain| - 1].handler) ==> |r.chain| == 2)
  }

  /** Every route authenticates first; the user routes then run their handler
      directly, and the admin routes pass `adminAuth` before theirs. */
  lemma RouteTableShape()
    ensures forall r | r in Router :: GuardedChain(r)
  {
    assert GuardedChain(Router[0]) && GuardedChain(Router[1]) && GuardedChain(Router[2]);
    assert GuardedChain(Router[3]) && GuardedChain(Router[4]) && GuardedChain(Router[5]);
  }

  /** The result of `auth` on a request. */
  function AuthOf(req: Request, db: Db, env: Env): Step {
    Auth(req.authorization, db.users, env.verify, env.authFault)
  }

  /** No handler runs unless `auth` called `next`: on every route an
      authentication failure is the response, and the store is untouched. */
  lemma {:induction false} AuthGuardsEveryRoute(req: Request, db: Db, env: Env)
    requires Dispatch(req).Some? && AuthOf(req, db, env).Halt?
    ensures Handle(req, db, env) == Outcome(AuthOf(req, db, env).response, db)
    ensures Handle(req, db, env).response.status == 401
  {
    var (route, id) := Dispatch(req).value;
    RouteTableShape();
  }

  /** Because `auth` precedes `adminAuth`, an unauthenticated request to an
      admin route gets 401, never 403. */
  lemma UnauthenticatedAdminRequestGets401(req: Request, db: Db, env: Env)
    requires req.verb == GET && (req.path == "/admin/users" || req.path == "/admin/all-tasks")
    requires AuthOf(req, db, env).Halt?
    ensures Handle(req, db, env).response.status == 401
    ensures Handle(req, db, env).db == db
  {
    AuthGuardsEveryRoute(req, db, env);
  }

  /** The admin paths dispatch to the fifth and sixth routes. */
  lemma AdminPathDispatch(req: Request)
    requires req.verb == GET && (req.path == "/admin/users" || req.path == "/admin/all-tasks")
    ensures req.path == "/admin/users" ==> Dispatch(req) == Some((Router[4], ""))
    ensures req.path == "/admin/all-tasks" ==> Dispatch(req) == Some((Router[5], ""))
  {
    assert req.path != "/";
    assert FindRoute(Router, GET, req.path, 0) == FindRoute(Router, GET, req.path, 1);
    assert FindRoute(Router, GET, req.path, 1) == FindRoute(Router, GET, req.path, 4);
    if req.path == "/admin/all-tasks" {
      assert MatchPattern(Router[4].pattern, req.path).None?;
    }
  }

  /** The last stage of a chain runs its handler with the attached principal. */
  lemma InvokeRunsHandler(h: Handler, req: Request, id: string, p: Principal, db: Db, env: Env)
    ensures RunChain([Invoke(h)], req, id, Some(p), db, env) == RunHandler(h, req, id, p, db, env)
  {
  }

  /** The first stage: `auth` answers, or hands its principal to the rest of
      the chain. */
  lemma AuthenticateFirst(rest: seq<Stage>, req: Request, id: string, db: Db, env: Env)
    ensures RunChain([Authenticate] + rest, req, id, None, db, env)
         == if AuthOf(req, db, env).Halt? then Outcome(AuthOf(req, db, env).response, db)
            else RunChain(rest, req, id, Some(AuthOf(req, db, env).principal), db, env)
  {
    assert ([Authenticate] + rest)[1..] == rest;
  }

  /** `adminAuth` followed by a handler: the handler runs for a principal with
      a truthy admin flag; any other principal gets 403 and the store is
      untouched. */
  lemma AdminGate(h: Handler, req: Request, p: Principal, db: Db, env: Env)
    ensures RunChain([RequireAdmin, Invoke(h)], req, "", Some(p), db, env)
         == if TruthyInt(p.isAdmin) then RunHandler(h, req, "", p, db, env) else Outcome(AdminOnly, db)
  {
    assert [RequireAdmin, Invoke(h)][1..] == [Invoke(h)];
    InvokeRunsHandler(h, req, "", p, db, env);
  }

  /** The request bears `"Bearer " + token`, the token verifies to the id of
      `u`, a user of a store that keeps its constraints, and the store answers
      `auth`'s user lookup. */
  predicate SignedInAs(req: Request, db: Db, env: Env, token: string, u: User) {
    && req.authorization == Some(BearerPrefix + token) && token != ""
    && Valid(db) && u in db.users && env.verify(token) == Some(u.id) && !env.authFault
  }

  /** Such a request authenticates as exactly `u`. */
  lemma SignedInAuthenticates(req: Request, db: Db, env: Env, token: string, u: User)
    requires SignedInAs(req, db, env, token, u)
    ensures AuthOf(req, db, env) == Next(Project(u))
  {
    BearerOfUserAuthenticates(token, db.users, env.verify, u);
  }

  /** The admin chain of the route an admin path dispatches to, run for a
      signed-in user: `adminAuth` decides on that user's own admin flag. */
  lemma AdminRouteRuns(req: Request, db: Db, env: Env, token: string, u: User)
    requires req.verb == GET && (req.path == "/admin/users" || req.path == "/admin/all-tasks")
    requires SignedInAs(req, db, env, token, u)
    ensures var h := if req.path == "/admin/users" then GetAllUsersHandler else GetAllTasksHandler;
            Handle(req, db, env)
              == (if TruthyInt(u.isAdmin) then RunHandler(h, req, "", Project(u), db, env) else Outcome(AdminOnly, db))
  {
    AdminPathDispatch(req);
    SignedInAuthenticates(req, db, env, token, u);
    var h := if req.path == "/admin/users" then GetAllUsersHandler else GetAllTasksHandler;
    var k := if req.path == "/admin/users" then 4 else 5;
    assert Router[k].chain == [Authenticate] + [RequireAdmin, Invoke(h)];
    AuthenticateFirst([RequireAdmin, Invoke(h)], req, "", db, env);
    AdminGate(h, req, Project(u), db, env);
  }

  /** A signed-in non-admin on an admin route gets 403 "Access denied. Admin
      only." and the admin views never run. */
  lemma NonAdminForbidden(req: Request, db: Db, env: Env, token: string, u: User)
    requires req.verb == GET && (req.path == "/admin/users" || req.path == "/admin/all-tasks")
    requires SignedInAs(req, db, env, token, u) && !TruthyInt(u.isAdmin)
    ensures Handle(req, db, env) == Outcome(AdminOnly, db)
  {
    AdminRouteRuns(req, db, env, token, u);
  }

  /** A signed-in admin on `GET /admin/users` gets the user listing. */
  lemma AdminListsUsers(req: Request, db: Db, env: Env, token: string, u: User)
    requires req.verb == GET && req.path == "/admin/users"
    requires SignedInAs(req, db, env, token, u) && TruthyInt(u.isAdmin) && !env.handlerFault
    ensures Handle(req, db, env) == Outcome(GetAllUsers(db, false), db)
    ensures Handle(req, db, env).response.status == 200
  {
    var listing := GetAllUsers(db, false);
    assert listing.status == 200;
    AdminRouteRuns(req, db, env, token, u);
    assert RunHandler(GetAllUsersHandler, req, "", Project(u), db, env) == Outcome(listing, db);
  }

  /** A signed-in admin on `GET /admin/all-tasks` gets every owned task. */
  lemma AdminListsAllTasks(req: Request, db: Db, env: Env, token: string, u: User)
    requires req.verb == GET && req.path == "/admin/all-tasks"
    requires SignedInAs(req, db, env, token, u) && TruthyInt(u.isAdmin) && !env.handlerFault
    ensures Handle(req, db, env) == Outcome(GetAllTasks(db, false), db)
    ensures Handle(req, db, env).response.status == 200
  {
    var listing := GetAllTasks(db, false);
    assert listing.status == 200;
    AdminRouteRuns(req, db, env, token, u);
    assert RunHandler(GetAllTasksHandler, req, "", Project(u), db, env) == Outcome(listing, db);
  }

  /** On a two-stage chain, an authenticated request runs the handler. */
  lemma UserChainRunsHandler(h: Handler, req: Request, id: string, db: Db, env: Env)
    requires AuthOf(req, db, env).Next?
    ensures RunChain([Authenticate, Invoke(h)], req, id, None, db, env)
         == RunHandler(h, req, id, AuthOf(req, db, env).principal, db, env)
  {
    var p := AuthOf(req, db, env).principal;
    assert [Authenticate, Invoke(h)][1..] == [Invoke(h)];
    assert RunChain([Authenticate, Invoke(h)], req, id, None, db, env)
        == RunChain([Invoke(h)], req, id, Some(p), db, env);
    InvokeRunsHandler(h, req, id, p, db, env);
  }

  /** The user routes are not gated by `adminAuth`: once `auth` calls `next`,
      the owner-scoped handler runs with that principal, admin or not. */
  lemma UserRoutesIgnoreAdminFlag(req: Request, db: Db, env: Env)
    requires AuthOf(req, db, env).Next?
    ensures var p := AuthOf(req, db, env).principal;
      && (req.verb == GET && req.path == "/" ==>
            Handle(req, db, env) == Outcome(GetTasks(db, p, req.statusQuery, env.handlerFault), db))
      && (req.verb == POST && req.path == "/" ==>
            Handle(req, db, env) == CreateTask(db, p, req.body, env.now, env.handlerFault))
  {
    if req.verb == GET && req.path == "/" {
      assert Dispatch(req) == Some((Router[0], ""));
      UserChainRunsHandler(GetTasksHandler, req, "", db, env);
    } else if req.verb == POST && req.path == "/" {
      assert FindRoute(Router, POST, "/", 0) == FindRoute(Router, POST, "/", 1);
      assert Dispatch(req) == Some((Router[1], ""));
      UserChainRunsHandler(CreateTaskHandler, req, "", db, env);
    }
  }

  /** The id routes hand the path segment to the handler as the id. */
  lemma IdRoutesPassSegment(req: Request, db: Db, env: Env, segment: string)
    requires AuthOf(req, db, env).Next?
    requires req.path == "/" + segment && segment != "" && '/' !in segment
    ensures var p := AuthOf(req, db, env).principal;
      && (req.verb == PUT ==> Handle(req, db, env) == UpdateTask(db, p, segment, req.body, env.now, env.handlerFault))
      && (req.verb == DELETE ==> Handle(req, db, env) == DeleteTask(db, p, segment, env.handlerFault))
  {
    assert req.path[1..] == segment;
    assert MatchPattern(IdParam, req.path) == Some(segment);
    if req.verb == PUT {
      assert FindRoute(Router, PUT, req.path, 0) == FindRoute(Router, PUT, req.path, 2);
      assert Dispatch(req) == Some((Router[2], segment));
      UserChainRunsHandler(UpdateTaskHandler, req, segment, db, env);
    } else if req.verb == DELETE {
      assert FindRoute(Router, DELETE, req.path, 0) == FindRoute(Router, DELETE, req.path, 3);
      assert Dispatch(req) == Some((Router[3], segment));
      UserChainRunsHandler(DeleteTaskHandler, req, segment, db, env);
    }
  }

  // ------------------------------------------------------ the store as wired

  /** The pipeline as the modules are wired: `auth` and every handler call
      `pool.query`, but the database module exports `{db, dbRun, dbGet, dbAll}`,
      so every query raises a TypeError, exactly as a store that always fails. */
  function HandleAsWired(req: Request, db: Db, env: Env): (r: Outcome)
    ensures Dispatch(req).Some? ==> r.response.status == 401 && r.db == db
  {
    var failing := env.(authFault := true, handlerFault := true);
    if Dispatch(req).Some? then
      assert AuthOf(req, db, failing).Halt?;
      AuthGuardsEveryRoute(req, db, failing);
      Handle(req, db, failing)
    else Handle(req, db, failing)
  }

  /** As wired, even a signed-in owner with a valid token is refused: the
      request for their own task list answers 401 "Invalid token.". */
  lemma AsWiredRefusesValidToken(req: Request, db: Db, env: Env, token: string, u: User)
    requires req.verb == GET && req.path == "/" && req.authorization == Some(BearerPrefix + token) && token != ""
    requires u in db.users && env.verify(token) == Some(u.id)
    ensures HandleAsWired(req, db, env).response == InvalidToken
  {
    BearerHeaderYieldsToken(token);
    assert Dispatch(req) == Some((Router[0], ""));
    AuthGuardsEveryRoute(req, db, env.(authFault := true, handlerFault := true));
  }

  /** With a working store, a request bearing a token that verifies to an
      existing user reaches `getTasks` and lists that user's tasks. */
  lemma SignedInOwnerListsTasks(req: Request, db: Db, env: Env, token: string, u: User)
    requires req.verb == GET && req.path == "/" && req.authorization == Some(BearerPrefix + token) && token != ""
    requires u in db.users && env.verify(token) == Some(u.id) && !env.authFault && !env.handlerFault
    ensures Handle(req, db, env).response.status == 200
    ensures Handle(req, db, env).db == db
    ensures var rows := Handle(req, db, env).response.body.tasks;
            forall i | 0 <= i < |rows| :: rows[i] in db.tasks && rows[i].userId == u.id
  {
    BearerHeaderYieldsToken(token);
    assert HasToken(req.authorization);
    var i :| 0 <= i < |db.users| && db.users[i] == u;
    assert AuthOf(req, db, env).Next?;
    UserRoutesIgnoreAdminFlag(req, db, env);
  }

  /** A signed-in user whose request gets past `auth`, but whose handler
      statement raises, gets 500 "Server error" and the store is untouched. */
  lemma HandlerFaultAnswers500(req: Request, db: Db, env: Env, token: string, u: User)
    requires req.verb == GET && req.path == "/"
    requires SignedInAs(req, db, env, token, u) && env.handlerFault
    ensures Handle(req, db, env) == Outcome(ServerError, db)
  {
    SignedInAuthenticates(req, db, env, token, u);
    UserRoutesIgnoreAdminFlag(req, db, env);
  }
}
