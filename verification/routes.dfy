/** The route table of the server and the dispatcher that runs a request through the matching
    route's guards and handler. Routes are tried in registration order. */
module Routes {
  import opened Wrappers
  import opened Text
  import opened Json
  import opened ObjectIds
  import opened Store
  import opened Jwt
  import opened Http
  import opened Middleware
  import opened Handlers

  /** A path pattern segment: a literal, or a `:id` parameter (which matches a non-empty segment). */
  datatype Segment = Lit(name: string) | Param

  datatype Handler =
    | CreateUserRoute | ListUsersRoute | DeleteUserRoute | ProfileRoute | GetUserRoute
    | PatchUserRoute | LoginRoute | PatchBusinessRoute | PatchContentRoute

  datatype Route = Route(verb: Method, pattern: seq<Segment>, chain: seq<Guard>, handler: Handler)

  /** The routes with decision logic, in registration order, with their middleware chains. */
  const Table: seq<Route> := [
    Route(POST, [Lit("users")], [Auth, Admin], CreateUserRoute),
    Route(GET, [Lit("users")], [Auth, Admin], ListUsersRoute),
    Route(DELETE, [Lit("users"), Param], [Auth, Admin], DeleteUserRoute),
    Route(GET, [Lit("profile")], [Auth], ProfileRoute),
    Route(GET, [Lit("users"), Param], [Auth, Admin], GetUserRoute),
    Route(PATCH, [Lit("users"), Param], [Auth, Admin], PatchUserRoute),
    Route(POST, [Lit("login")], [], LoginRoute),
    Route(PATCH, [Lit("businesses"), Param], [], PatchBusinessRoute),
    Route(PATCH, [Lit("regularcontents"), Param], [], PatchContentRoute)
  ]

  function ParamCount(pattern: seq<Segment>): nat
    decreases |pattern|
  {
    if |pattern| == 0 then 0 else (if pattern[0] == Param then 1 else 0) + ParamCount(pattern[1..])
  }

  /** The path parameters a pattern extracts from a path, if it matches. */
  function MatchPattern(pattern: seq<Segment>, path: seq<string>): (r: Option<seq<string>>)
    ensures r.Some? ==> |path| == |pattern| && |r.value| == ParamCount(pattern)
    ensures r.Some? ==> forall k :: 0 <= k < |pattern| && pattern[k].Lit? ==> path[k] == pattern[k].name
    decreases |pattern|
  {
    if |pattern| == 0 then (if |path| == 0 then Some([]) else None)
    else if |path| == 0 then None
    else
      match pattern[0]
      case Lit(name) =>
        if path[0] != name then None else MatchPattern(pattern[1..], path[1..])
      case Param =>
        if path[0] == "" then None
        else
          match MatchPattern(pattern[1..], path[1..])
          case Some(ps) => Some([path[0]] + ps)
          case None => None
  }

  /** A path fits a pattern when it has one segment per pattern segment, each literal is
      matched exactly, and each parameter is a non-empty segment. */
  predicate PathFits(pattern: seq<Segment>, path: seq<string>) {
    && |path| == |pattern|
    && (forall k :: 0 <= k < |pattern| && pattern[k].Lit? ==> path[k] == pattern[k].name)
    && (forall k :: 0 <= k < |pattern| && pattern[k].Param? ==> path[k] != "")
  }

  /** Matching a pattern succeeds exactly when the path fits it. */
  lemma {:induction false} MatchPatternFits(pattern: seq<Segment>, path: seq<string>)
    ensures MatchPattern(pattern, path).Some? <==> PathFits(pattern, path)
    decreases |pattern|
  {
    if |pattern| > 0 && |path| > 0 {
      MatchPatternFits(pattern[1..], path[1..]);
      if PathFits(pattern[1..], path[1..]) && (pattern[0].Param? ==> path[0] != "") && (pattern[0].Lit? ==> path[0] == pattern[0].name) {
        forall k | 1 <= k < |pattern| ensures pattern[k] == pattern[1..][k - 1] && path[k] == path[1..][k - 1] { }
      }
    }
  }

  predicate RouteMatches(route: Route, req: Request) {
    route.verb == req.verb && MatchPattern(route.pattern, req.path).Some?
  }

  /** The first route that matches the request, with its path parameters. */
  function FindRoute(routes: seq<Route>, req: Request): (r: Option<(Route, seq<string>)>)
    ensures r.Some? ==> r.value.0 in routes && RouteMatches(r.value.0, req)
    ensures r.Some? ==> MatchPattern(r.value.0.pattern, req.path) == Some(r.value.1)
    ensures r.Some? ==>
      exists k :: && 0 <= k < |routes| && routes[k] == r.value.0
                  && forall j :: 0 <= j < k ==> !RouteMatches(routes[j], req)
    ensures r.None? <==> forall k :: 0 <= k < |routes| ==> !RouteMatches(routes[k], req)
    decreases |routes|
  {
    if |routes| == 0 then None
    else if RouteMatches(routes[0], req) then Some((routes[0], MatchPattern(routes[0].pattern, req.path).value))
    else
      var r := FindRoute(routes[1..], req);
      assert forall k :: 1 <= k < |routes| ==> routes[k] == routes[1..][k - 1];
      if r.Some? then
        var k :| && 0 <= k < |routes[1..]| && routes[1..][k] == r.value.0
                 && forall j :: 0 <= j < k ==> !RouteMatches(routes[1..][j], req);
        assert routes[k + 1] == r.value.0;
        assert forall j :: 0 <= j < k + 1 ==> !RouteMatches(routes[j], req);
        r
      else r
  }

  /** How many path parameters a handler reads. */
  function Arity(h: Handler): nat {
    if h in {DeleteUserRoute, GetUserRoute, PatchUserRoute, PatchBusinessRoute, PatchContentRoute} then 1 else 0
  }

  /** Every route's pattern supplies exactly the parameters its handler reads. */
  lemma TableArity()
    ensures forall r :: r in Table ==> ParamCount(r.pattern) == Arity(r.handler)
  {
    assert ParamCount([Lit("users"), Param]) == 1;
    assert ParamCount([Lit("businesses"), Param]) == 1;
    assert ParamCount([Lit("regularcontents"), Param]) == 1;
  }

  /** The three collections: users, businesses, regular contents. */
  datatype Db = Db(users: Collection, businesses: Collection, contents: Collection)

  datatype Served = Served(reply: Reply, db: Db)

  /** Runs a handler once the chain has let the request through; `newId` is the identifier the
      driver would generate for an insert. Among the modelled handlers, each collection changes
      only under its own writers. */
  function Handle(h: Handler, ctx: Context, params: seq<string>, db: Db, env: Env, newId: ObjectId): (r: Served)
    requires |params| == Arity(h)
    ensures r.db.users != db.users ==> h in {CreateUserRoute, DeleteUserRoute, PatchUserRoute}
    ensures r.db.businesses != db.businesses ==> h == PatchBusinessRoute
    ensures r.db.contents != db.contents ==> h == PatchContentRoute
  {
    var body := ctx.request.body;
    match h
    case CreateUserRoute =>
      var o := CreateUser(body, db.users, newId);
      Served(o.reply, db.(users := o.coll))
    case ListUsersRoute => Served(ListUsers(db.users), db)
    case DeleteUserRoute =>
      var o := DeleteUser(params[0], db.users);
      Served(o.reply, db.(users := o.coll))
    case ProfileRoute => Served(Profile(ctx.user, db.users), db)
    case GetUserRoute => Served(GetUser(params[0], db.users), db)
    case PatchUserRoute =>
      var o := PatchDocument(params[0], body, db.users);
      Served(o.reply, db.(users := o.coll))
    case LoginRoute => Served(Login(body, db.users, env), db)
    case PatchBusinessRoute =>
      var o := PatchDocument(params[0], body, db.businesses);
      Served(o.reply, db.(businesses := o.coll))
    case PatchContentRoute =>
      var o := PatchDocument(params[0], body, db.contents);
      Served(o.reply, db.(contents := o.coll))
  }

  /** The header carries a token that verifies now and whose role claim is "admin". */
  predicate AdminHeader(authorization: Option<string>, env: Env) {
    && authorization.Some?
    && StartsWith(authorization.value, BearerPrefix)
    && var v := Verify(BearerToken(authorization.value), env.secret, env.now);
       v.Success? && v.value.role == AdminRole
  }

  /** Serves one request: `None` when no modelled route matches. */
  function Dispatch(req: Request, db: Db, env: Env, newId: ObjectId): (r: Option<Served>)
    ensures r.Some? <==> exists k :: 0 <= k < |Table| && RouteMatches(Table[k], req)
  {
    match FindRoute(Table, req)
    case None => None
    case Some((route, params)) =>
      match RunChain(route.chain, Context(req, None), env)
      case Halt(reply) => Some(Served(reply, db))
      case Next(ctx) =>
        TableArity();
        Some(Handle(route.handler, ctx, params, db, env, newId))
  }

  /** Only a request carrying a valid admin token can change the user collection. */
  lemma OnlyAdminsChangeUsers(req: Request, db: Db, env: Env, newId: ObjectId)
    ensures var r := Dispatch(req, db, env, newId);
      r.Some? && r.value.db.users != db.users ==> AdminHeader(req.authorization, env)
  {
    var r := Dispatch(req, db, env, newId);
    if r.Some? && r.value.db.users != db.users {
      var (route, params) := FindRoute(Table, req).value;
      var ctx0 := Context(req, None);
      var step := RunChain(route.chain, ctx0, env);
      assert step.Next?;
      TableArity();
      var served := Handle(route.handler, step.ctx, params, db, env, newId);
      assert r == Some(served);
      assert route.handler in {CreateUserRoute, DeleteUserRoute, PatchUserRoute};
      TableGuards();
      AdminChain(ctx0, env);
    }
  }

  /** Every user-management route runs `verifyToken` then `verifyAdmin`; the profile route runs
      `verifyToken` alone; login and the PATCH routes for businesses and contents are open. */
  lemma TableGuards()
    ensures forall k :: 0 <= k < |Table| ==>
      Table[k].handler in {CreateUserRoute, ListUsersRoute, DeleteUserRoute, GetUserRoute, PatchUserRoute} ==>
      Table[k].chain == [Auth, Admin]
    ensures forall k :: 0 <= k < |Table| ==> Table[k].handler == ProfileRoute ==> Table[k].chain == [Auth]
    ensures forall k :: 0 <= k < |Table| ==>
      Table[k].handler in {LoginRoute, PatchBusinessRoute, PatchContentRoute} ==> Table[k].chain == []
  {
  }

  /** Among the modelled routes, only `PATCH /businesses/:id` changes the business collection
      (the unmodelled `POST /businesses` also writes to it). */
  lemma OnlyPatchChangesBusinesses(req: Request, db: Db, env: Env, newId: ObjectId)
    ensures var r := Dispatch(req, db, env, newId);
      r.Some? && r.value.db.businesses != db.businesses ==>
        req.verb == PATCH && |req.path| == 2 && req.path[0] == "businesses"
  {
    var r := Dispatch(req, db, env, newId);
    if r.Some? && r.value.db.businesses != db.businesses {
      var (route, params) := FindRoute(Table, req).value;
      var step := RunChain(route.chain, Context(req, None), env);
      assert step.Next?;
      TableArity();
      var served := Handle(route.handler, step.ctx, params, db, env, newId);
      assert r == Some(served);
      assert route.handler == PatchBusinessRoute;
      var k :| 0 <= k < |Table| && Table[k] == route;
      TablePatterns();
    }
  }

  /** Among the modelled routes, only `PATCH /regularcontents/:id` changes the regular-content
      collection (the unmodelled `POST /regularcontents` and `DELETE /regularcontents/:id` also
      write to it). */
  lemma OnlyPatchChangesContents(req: Request, db: Db, env: Env, newId: ObjectId)
    ensures var r := Dispatch(req, db, env, newId);
      r.Some? && r.value.db.contents != db.contents ==>
        req.verb == PATCH && |req.path| == 2 && req.path[0] == "regularcontents"
  {
    var r := Dispatch(req, db, env, newId);
    if r.Some? && r.value.db.contents != db.contents {
      var (route, params) := FindRoute(Table, req).value;
      var step := RunChain(route.chain, Context(req, None), env);
      assert step.Next?;
      TableArity();
      var served := Handle(route.handler, step.ctx, params, db, env, newId);
      assert r == Some(served);
      assert route.handler == PatchContentRoute;
      var k :| 0 <= k < |Table| && Table[k] == route;
      TablePatterns();
    }
  }

  lemma TablePatterns()
    ensures forall k :: 0 <= k < |Table| && Table[k].handler == PatchBusinessRoute ==>
      Table[k].verb == PATCH && Table[k].pattern == [Lit("businesses"), Param]
    ensures forall k :: 0 <= k < |Table| && Table[k].handler == PatchContentRoute ==>
      Table[k].verb == PATCH && Table[k].pattern == [Lit("regularcontents"), Param]
  {
  }

  /** The route a request is dispatched to, if a modelled one matches. */
  function RouteOf(req: Request): Option<Route> {
    match FindRoute(Table, req)
    case None => None
    case Some((route, _)) => Some(route)
  }

  /** The user-management endpoints, as registered: `POST /users`, `GET /users`, and
      `DELETE`, `GET` and `PATCH` on `/users/:id`. */
  predicate UserManagementRequest(req: Request) {
    || (req.verb == POST && req.path == ["users"])
    || (req.verb == GET && req.path == ["users"])
    || (req.verb in {DELETE, GET, PATCH} && |req.path| == 2 && req.path[0] == "users" && req.path[1] != "")
  }

  /** The profile endpoint, `GET /profile`. */
  predicate ProfileRequest(req: Request) {
    req.verb == GET && req.path == ["profile"]
  }

  predicate GuardedRequest(req: Request) {
    UserManagementRequest(req) || ProfileRequest(req)
  }

  /** The table puts `verifyToken` then `verifyAdmin` in front of exactly the user-management
      endpoints. */
  lemma UserManagementGuards(req: Request)
    ensures RouteOf(req).Some? && RouteOf(req).value.chain == [Auth, Admin] <==> UserManagementRequest(req)
  {
    if UserManagementRequest(req) {
      var k := if req.verb == POST then 0 else if req.path == ["users"] then 1
               else if req.verb == DELETE then 2 else if req.verb == GET then 4 else 5;
      MatchPatternFits(Table[k].pattern, req.path);
      assert RouteMatches(Table[k], req);
    }
    FoundRoute(req);
  }

  /** The table puts `verifyToken` alone in front of exactly the profile endpoint. */
  lemma ProfileGuards(req: Request)
    ensures RouteOf(req).Some? && RouteOf(req).value.chain == [Auth] <==> ProfileRequest(req)
  {
    if ProfileRequest(req) {
      assert RouteMatches(Table[3], req);
    }
    FoundRoute(req);
  }

  /** What the route found for a request says about the request: its verb and path. */
  lemma FoundRoute(req: Request)
    ensures RouteOf(req).Some? ==>
      && (RouteOf(req).value.chain == [Auth, Admin] <==> UserManagementRequest(req))
      && (RouteOf(req).value.chain == [Auth] <==> ProfileRequest(req))
  {
    if RouteOf(req).Some? {
      var k :| 0 <= k < |Table| && Table[k] == RouteOf(req).value;
      RouteAt(k, req);
    }
  }

  /** A route of the table that matches a request is guarded by both middlewares exactly when
      the request is a user-management one, and by `verifyToken` alone exactly when it asks for
      the profile. */
  lemma RouteAt(k: nat, req: Request)
    requires k < |Table| && RouteMatches(Table[k], req)
    ensures Table[k].chain == [Auth, Admin] <==> UserManagementRequest(req)
    ensures Table[k].chain == [Auth] <==> ProfileRequest(req)
  {
    var route := Table[k];
    MatchPatternFits(route.pattern, req.path);
    assert req.verb == route.verb && |req.path| == |route.pattern|;
    assert req.path[0] == route.pattern[0].name;
    if |route.pattern| == 1 {
      assert req.path == [route.pattern[0].name];
    } else {
      assert req.path[1] != "";
    }
  }

  /** Every request the table serves is guarded exactly when it is a user-management or profile
      request. */
  lemma GuardedRequests(req: Request)
    ensures RouteOf(req).Some? && RouteOf(req).value.chain == [Auth, Admin] <==> UserManagementRequest(req)
    ensures RouteOf(req).Some? && RouteOf(req).value.chain == [Auth] <==> ProfileRequest(req)
    ensures RouteOf(req).Some? && RouteOf(req).value.chain != [] <==> GuardedRequest(req)
  {
    UserManagementGuards(req);
    ProfileGuards(req);
    TableChains();
  }

  /** The table uses three chains: none, `verifyToken` alone, and `verifyToken` then `verifyAdmin`. */
  lemma TableChains()
    ensures forall route :: route in Table ==> route.chain in {[], [Auth], [Auth, Admin]}
  {
  }

  /** On a guarded route, a missing header or one without the "Bearer " prefix gets 403 and the
      handler never runs: the store is unchanged. */
  lemma GuardedRouteNeedsBearer(req: Request, db: Db, env: Env, newId: ObjectId)
    requires GuardedRequest(req)
    requires !HasBearerHeader(req)
    ensures Dispatch(req, db, env, newId) == Some(Served(Respond(403, ErrorBody(TokenRequired)), db))
  {
    GuardedRequests(req);
    var (route, params) := FindRoute(Table, req).value;
    assert route.chain[0] == Auth;
  }

  /** On a guarded route, a "Bearer " header whose token fails verification for any reason gets
      401 and the handler never runs. */
  lemma GuardedRouteNeedsValidToken(req: Request, db: Db, env: Env, newId: ObjectId)
    requires GuardedRequest(req)
    requires HasBearerHeader(req)
    requires Verify(BearerToken(req.authorization.value), env.secret, env.now).Failure?
    ensures Dispatch(req, db, env, newId) == Some(Served(Respond(401, ErrorBody(InvalidToken)), db))
  {
    GuardedRequests(req);
    var (route, params) := FindRoute(Table, req).value;
    assert route.chain[0] == Auth;
  }

  /** On a user-management route, a valid token whose role claim is not "admin" gets 403 and the
      handler never runs. */
  lemma AdminRouteNeedsAdminRole(req: Request, db: Db, env: Env, newId: ObjectId)
    requires UserManagementRequest(req)
    requires HasBearerHeader(req)
    requires Verify(BearerToken(req.authorization.value), env.secret, env.now).Success?
    requires Verify(BearerToken(req.authorization.value), env.secret, env.now).value.role != AdminRole
    ensures Dispatch(req, db, env, newId) == Some(Served(Respond(403, ErrorBody(AdminsOnly)), db))
  {
    GuardedRequests(req);
    AdminChain(Context(req, None), env);
  }

  /** When a guarded route's handler runs, `req.user` is exactly the payload of the bearer
      token, whatever the request carried. */
  lemma HandlerSeesVerifiedClaims(req: Request, env: Env)
    requires GuardedRequest(req)
    ensures RouteOf(req).Some?
    ensures var step := RunChain(RouteOf(req).value.chain, Context(req, None), env);
      step.Next? ==>
        && HasBearerHeader(req)
        && Verify(BearerToken(req.authorization.value), env.secret, env.now).Success?
        && step.ctx.user == Some(Verify(BearerToken(req.authorization.value), env.secret, env.now).value)
  {
    GuardedRequests(req);
    var route := RouteOf(req).value;
    var ctx0 := Context(req, None);
    if route.chain == [Auth] {
      assert [Auth][1..] == [];
    } else {
      AdminChain(ctx0, env);
    }
  }
}
