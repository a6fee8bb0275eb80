/** Whole-request properties that follow several requests through the dispatcher. */
module Scenarios {
  import opened Wrappers
  import opened Json
  import opened ObjectIds
  import opened Store
  import opened Jwt
  import opened Http
  import opened Middleware
  import opened Handlers
  import opened Routes

  function Credentials(name: string, password: string): Doc {
    map["username" := VStr(name), "password" := VStr(password)]
  }

  lemma RouteOfCreateUser(req: Request)
    requires req.verb == POST && req.path == ["users"]
    ensures FindRoute(Table, req) == Some((Table[0], []))
  {
    assert RouteMatches(Table[0], req);
  }

  lemma RouteOfLogin(req: Request)
    requires req.verb == POST && req.path == ["login"]
    ensures FindRoute(Table, req) == Some((Table[6], []))
  {
    assert forall k :: 0 <= k < 6 ==> !RouteMatches(Table[k], req);
    assert RouteMatches(Table[6], req);
  }

  lemma RouteOfProfile(req: Request)
    requires req.verb == GET && req.path == ["profile"]
    ensures FindRoute(Table, req) == Some((Table[3], []))
  {
    assert forall k :: 0 <= k < 3 ==> !RouteMatches(Table[k], req);
    assert RouteMatches(Table[3], req);
  }

  /** Creating user `name` without a role and then logging in as `name` succeeds: the login
      finds the new record, whose role is the default "user", and the token verifies to exactly
      its id, username and role. */
  lemma CreateThenLoginHandlers(users: Collection, env: Env, newId: ObjectId, name: string, password: string)
    requires newId !in Ids(users)
    requires !UsernameTakenIn(users, VStr(name))
    ensures var created := CreateUser(Credentials(name, password), users, newId);
      && created.reply == Respond(201, CreatedBody(UserCreated, newId))
      && var login := Login(Credentials(name, password), created.coll, env);
         && HasStatus(login, 200)
         && login.body.user.id == newId
         && Verify(login.body.token, env.secret, env.now) ==
              Success(Payload(newId.hex, Some(VStr(name)), Some(VStr(DefaultRole)), env.now, env.now + SevenDays))
  {
    var body := Credentials(name, password);
    var o := CreateUser(body, users, newId);
    assert Get(body, "username") == Some(VStr(name));
    assert Get(body, "password") == Some(VStr(password));
    assert Get(body, "role") == None;
    assert HasStatus(o.reply, 201);
    var e := Entry(newId, NewUser(Some(VStr(name)), Some(VStr(password)), None));
    assert o.coll == users + [e];
    LoginFindsLastUser(users, e, body, env);
    var login := Login(body, o.coll, env);
    assert login.body.user == e;
    assert !Truthy(None) && Get(e.fields, "role") == Some(VStr(DefaultRole));
    assert Get(e.fields, "username") == Some(VStr(name));
    var claims := Payload(newId.hex, Some(VStr(name)), Some(VStr(DefaultRole)), env.now, env.now + SevenDays);
    assert Decode(login.body.token) == Some(Token(claims, env.secret));
  }

  /** A record appended under a username no earlier record has is the one login finds. */
  lemma LoginFindsLastUser(users: Collection, e: Entry, body: Doc, env: Env)
    requires !UsernameTakenIn(users, UsernameOf(e))
    requires UsernameOf(e) == Stored(Get(body, "username"))
    requires Get(e.fields, "password") == Get(body, "password")
    ensures HasStatus(Login(body, users + [e], env), 200)
    ensures Login(body, users + [e], env).body.user == e
  {
    var c := users + [e];
    var n := |users|;
    assert forall j :: 0 <= j < n ==> c[j] == users[j];
    assert FirstNamed(c, n, UsernameOf(e));
    var r := Login(body, c, env);
    var k :| 0 <= k < |c| && c[k] == r.body.user;
    assert k == n;
  }

  /** The same through the dispatcher: an admin's `POST /users` followed by `POST /login`. */
  lemma CreateThenLogin(db: Db, env: Env, adminHeader: string, newId: ObjectId, loginId: ObjectId,
                        name: string, password: string)
    requires AdminHeader(Some(adminHeader), env)
    requires newId !in Ids(db.users)
    requires !UsernameTakenIn(db.users, VStr(name))
    ensures var created := Dispatch(Request(POST, ["users"], Some(adminHeader), Credentials(name, password)), db, env, newId);
      && created.Some?
      && created.value.reply == Respond(201, CreatedBody(UserCreated, newId))
      && var login := Dispatch(Request(POST, ["login"], None, Credentials(name, password)), created.value.db, env, loginId);
         && login.Some?
         && HasStatus(login.value.reply, 200)
         && login.value.reply.body.LoginBody?
         && login.value.reply.body.user.id == newId
         && Verify(login.value.reply.body.token, env.secret, env.now) ==
              Success(Payload(newId.hex, Some(VStr(name)), Some(VStr(DefaultRole)), env.now, env.now + SevenDays))
  {
    var body := Credentials(name, password);
    CreateThenLoginHandlers(db.users, env, newId, name, password);
    var o := CreateUser(body, db.users, newId);
    AdminCreatesThroughDispatch(Request(POST, ["users"], Some(adminHeader), body), db, env, newId);
    LoginThroughDispatch(Request(POST, ["login"], None, body), db.(users := o.coll), env, loginId);
  }

  /** An admin's `POST /users` reaches `CreateUser`. */
  lemma AdminCreatesThroughDispatch(req: Request, db: Db, env: Env, newId: ObjectId)
    requires req.verb == POST && req.path == ["users"]
    requires AdminHeader(req.authorization, env)
    ensures var o := CreateUser(req.body, db.users, newId);
      Dispatch(req, db, env, newId) == Some(Served(o.reply, db.(users := o.coll)))
  {
    RouteOfCreateUser(req);
    AdminChain(Context(req, None), env);
    var ctx := RunChain(Table[0].chain, Context(req, None), env).ctx;
    DispatchReachesHandler(req, db, env, newId, Table[0], []);
    HandleCreateUser(ctx, db, env, newId);
  }

  lemma HandleCreateUser(ctx: Context, db: Db, env: Env, newId: ObjectId)
    ensures var o := CreateUser(ctx.request.body, db.users, newId);
      Handle(CreateUserRoute, ctx, [], db, env, newId) == Served(o.reply, db.(users := o.coll))
  {
  }

  /** `POST /login` reaches `Login` with no guard in between, and never changes the store. */
  lemma LoginThroughDispatch(req: Request, db: Db, env: Env, newId: ObjectId)
    requires req.verb == POST && req.path == ["login"]
    ensures Dispatch(req, db, env, newId) == Some(Served(Login(req.body, db.users, env), db))
  {
    RouteOfLogin(req);
    var ctx := Context(req, None);
    assert RunChain(Table[6].chain, ctx, env) == Next(ctx);
    DispatchReachesHandler(req, db, env, newId, Table[6], []);
    HandleLogin(ctx, db, env, newId);
  }

  lemma HandleLogin(ctx: Context, db: Db, env: Env, newId: ObjectId)
    ensures Handle(LoginRoute, ctx, [], db, env, newId) == Served(Login(ctx.request.body, db.users, env), db)
  {
  }

  /** Once the chain lets a request through, the dispatcher's answer is the handler's. */
  lemma DispatchReachesHandler(req: Request, db: Db, env: Env, newId: ObjectId, route: Route, params: seq<string>)
    ensures FindRoute(Table, req) == Some((route, params)) && RunChain(route.chain, Context(req, None), env).Next? ==>
      && |params| == Arity(route.handler)
      && Dispatch(req, db, env, newId) ==
           Some(Handle(route.handler, RunChain(route.chain, Context(req, None), env).ctx, params, db, env, newId))
  {
    TableArity();
  }

  /** `GET /profile` with a token issued for a stored user answers with that user's record,
      password removed, until the token expires, and with 401 from then on. */
  lemma ProfileWithIssuedToken(db: Db, env: Env, newId: ObjectId, i: nat, issued: nat)
    requires UniqueIds(db.users) && i < |db.users|
    ensures var u := db.users[i];
      var token := Sign(u.id.hex, Get(u.fields, "username"), Get(u.fields, "role"), env.secret, issued);
      var served := Dispatch(Request(GET, ["profile"], Some(BearerPrefix + token), map[]), db, env, newId);
      && (env.now < issued + SevenDays ==>
            served == Some(Served(Respond(200, ProfileBody(WithoutPassword(u))), db)))
      && (env.now >= issued + SevenDays ==>
            served == Some(Served(Respond(401, ErrorBody(InvalidToken)), db)))
  {
    var u := db.users[i];
    var token := Sign(u.id.hex, Get(u.fields, "username"), Get(u.fields, "role"), env.secret, issued);
    var req := Request(GET, ["profile"], Some(BearerPrefix + token), map[]);
    BearerTokenOf(token);
    SignThenVerify(u.id.hex, Get(u.fields, "username"), Get(u.fields, "role"), env.secret, issued, env.secret, env.now);
    ProfileThroughDispatch(req, db, env, newId);
    if env.now < issued + SevenDays {
      ProfileOfStoredUser(db.users, i, Payload(u.id.hex, Get(u.fields, "username"), Get(u.fields, "role"), issued, issued + SevenDays));
    }
  }

  /** `GET /profile` runs `verifyToken` and then the profile handler with the verified payload. */
  lemma ProfileThroughDispatch(req: Request, db: Db, env: Env, newId: ObjectId)
    requires req.verb == GET && req.path == ["profile"]
    ensures var step := VerifyToken(Context(req, None), env);
      && (step.Halt? ==> Dispatch(req, db, env, newId) == Some(Served(step.reply, db)))
      && (step.Next? ==> Dispatch(req, db, env, newId) == Some(Served(Profile(step.ctx.user, db.users), db)))
  {
    RouteOfProfile(req);
    var ctx0 := Context(req, None);
    assert [Auth][1..] == [];
    var step := RunChain(Table[3].chain, ctx0, env);
    assert step == VerifyToken(ctx0, env);
    if step.Next? {
      DispatchReachesHandler(req, db, env, newId, Table[3], []);
      HandleProfile(step.ctx, db, env, newId);
    }
  }

  lemma HandleProfile(ctx: Context, db: Db, env: Env, newId: ObjectId)
    ensures Handle(ProfileRoute, ctx, [], db, env, newId) == Served(Profile(ctx.user, db.users), db)
  {
  }

  /** The profile of a payload whose id claim is a stored record's id is that record without
      its password. */
  lemma ProfileOfStoredUser(users: Collection, i: nat, p: Payload)
    requires UniqueIds(users) && i < |users|
    requires p.id == users[i].id.hex
    ensures Profile(Some(p), users) == Respond(200, ProfileBody(WithoutPassword(users[i])))
  {
    ParseHexString(users[i].id);
    FindByIdUnique(users, users[i].id, i);
  }

  /** Tokens are not revoked: after a user is deleted, a token issued to them still verifies,
      and `GET /profile` with it answers 404. */
  lemma TokenOutlivesDeletion(users: Collection, i: nat, env: Env, issued: nat)
    requires UniqueIds(users) && i < |users|
    requires env.now < issued + SevenDays
    ensures var u := users[i];
      var token := Sign(u.id.hex, Get(u.fields, "username"), Get(u.fields, "role"), env.secret, issued);
      var deleted := DeleteUser(u.id.hex, users);
      && HasStatus(deleted.reply, 200)
      && Verify(token, env.secret, env.now).Success?
      && Profile(Some(Verify(token, env.secret, env.now).value), deleted.coll) == Respond(404, ErrorBody(UserNotFound))
  {
    var u := users[i];
    ParseHexString(u.id);
    assert u.id in Ids(users);
    SignThenVerify(u.id.hex, Get(u.fields, "username"), Get(u.fields, "role"), env.secret, issued, env.secret, env.now);
  }

  function IdOf(last: char): (o: ObjectId)
    requires IsLowerHexDigit(last)
    ensures o.hex == Zeros(23) + [last]
  {
    Oid(Zeros(23) + [last])
  }

  /** Username uniqueness is checked only when a user is created: PATCH can give a second user
      an existing username, after which the collection no longer has unique usernames. */
  lemma PatchCanDuplicateUsername()
    ensures var users := [Entry(IdOf('1'), map["username" := VStr("bob")]),
                          Entry(IdOf('2'), map["username" := VStr("eve")])];
      var patched := PatchDocument(IdOf('2').hex, map["username" := VStr("bob")], users);
      && UniqueUsernames(users)
      && HasStatus(patched.reply, 200)
      && !UniqueUsernames(patched.coll)
  {
    var a := IdOf('1');
    var b := IdOf('2');
    assert a.hex[23] != b.hex[23];
    var users := [Entry(a, map["username" := VStr("bob")]), Entry(b, map["username" := VStr("eve")])];
    ParseHexString(b);
    assert users[1].id == b;
    assert b in Ids(users);
    var patched := PatchDocument(b.hex, map["username" := VStr("bob")], users);
    assert UsernameOf(patched.coll[0]) == VStr("bob");
    assert UsernameOf(patched.coll[1]) == VStr("bob");
  }

  /** When two records share a username and a password, as a PATCH can leave them, login
      answers with the first of them in store order, and its token carries that record's id. */
  lemma LoginPicksFirstOfDuplicates(env: Env)
    ensures var bob := map["username" := VStr("bob"), "password" := VStr("x")];
      var users := [Entry(IdOf('1'), bob), Entry(IdOf('2'), bob)];
      var r := Login(Credentials("bob", "x"), users, env);
      && HasStatus(r, 200)
      && r.body.LoginBody?
      && r.body.user.id == IdOf('1')
  {
    var bob := map["username" := VStr("bob"), "password" := VStr("x")];
    var users := [Entry(IdOf('1'), bob), Entry(IdOf('2'), bob)];
    var body := Credentials("bob", "x");
    assert Stored(Get(body, "username")) == VStr("bob");
    assert UsernameOf(users[0]) == VStr("bob");
    assert FirstNamed(users, 0, VStr("bob"));
    assert Get(users[0].fields, "password") == Get(body, "password");
    var r := Login(body, users, env);
    var i: nat :| FirstNamed(users, i, VStr("bob")) && r.body.user == users[i];
    assert i == 0;
  }
}
