/** The `verifyToken` and `verifyAdmin` middlewares and the chain that runs them in order. */
module Middleware {
  import opened Wrappers
  import opened Text
  import opened Json
  import opened Jwt
  import opened Http

  const BearerPrefix := "Bearer "

  const TokenRequired := "Token is required"
  const InvalidToken := "Invalid or expired token"
  const AdminsOnly := "Access denied. Admins only."

  /** A middleware either ends the request with a reply or calls `next()` with the context. */
  datatype Step = Halt(reply: Reply) | Next(ctx: Context)

  /** The header is present and begins with the literal "Bearer ". */
  predicate HasBearerHeader(req: Request) {
    req.authorization.Some? && StartsWith(req.authorization.value, BearerPrefix)
  }

  /** `authHeader.split(" ")[1]`: the text after "Bearer " up to the next space or the end. */
  function BearerToken(header: string): (t: string)
    requires StartsWith(header, BearerPrefix)
    ensures ' ' !in t
    ensures |BearerPrefix| + |t| <= |header|
    ensures header[|BearerPrefix|..|BearerPrefix| + |t|] == t
    ensures |BearerPrefix| + |t| == |header| || header[|BearerPrefix| + |t|] == ' '
  {
    var rest := header[|BearerPrefix|..];
    assert header == "Bearer" + [' '] + rest;
    SplitAfterField("Bearer", ' ', rest);
    SplitFirstField(rest, ' ');
    Split(header, ' ')[1]
  }

  /** A token containing no space is extracted unchanged. */
  lemma BearerTokenOf(t: string)
    requires ' ' !in t
    ensures StartsWith(BearerPrefix + t, BearerPrefix)
    ensures BearerToken(BearerPrefix + t) == t
  {
    var h := BearerPrefix + t;
    assert h[..|BearerPrefix|] == BearerPrefix;
    var r := BearerToken(h);
    assert h[|BearerPrefix|..] == t;
  }

  /** A second space right after the prefix yields the empty token. */
  lemma DoubleSpaceGivesEmptyToken(rest: string)
    ensures StartsWith("Bearer  " + rest, BearerPrefix)
    ensures BearerToken("Bearer  " + rest) == ""
  {
    var h := "Bearer  " + rest;
    assert h[..|BearerPrefix|] == BearerPrefix;
    assert h[|BearerPrefix|] == ' ';
  }

  /** `verifyToken`: 403 without a "Bearer " header, 401 when the token does not verify, and
      otherwise `req.user` becomes the verified payload and the chain continues. */
  function VerifyToken(ctx: Context, env: Env): (r: Step)
    ensures !HasBearerHeader(ctx.request) <==> r == Halt(Respond(403, ErrorBody(TokenRequired)))
    ensures HasBearerHeader(ctx.request) && r.Halt? ==> r.reply == Respond(401, ErrorBody(InvalidToken))
    ensures r.Next? <==>
      && HasBearerHeader(ctx.request)
      && var t := Decode(BearerToken(ctx.request.authorization.value));
         t.Some? && t.value.signature == env.secret && env.now < t.value.payload.exp
    ensures r.Next? ==>
      r.ctx == ctx.(user := Some(Decode(BearerToken(ctx.request.authorization.value)).value.payload))
  {
    if !HasBearerHeader(ctx.request) then Halt(Respond(403, ErrorBody(TokenRequired)))
    else
      match Verify(BearerToken(ctx.request.authorization.value), env.secret, env.now)
      case Failure(_) => Halt(Respond(401, ErrorBody(InvalidToken)))
      case Success(p) => Next(ctx.(user := Some(p)))
  }

  /** The `role` claim an admin carries. */
  const AdminRole: Field := Some(VStr("admin"))

  /** `verifyAdmin`: passes exactly when `req.user` is set and its role is the string "admin". */
  function VerifyAdmin(ctx: Context): (r: Step)
    ensures r.Next? <==> ctx.user.Some? && ctx.user.value.role == AdminRole
    ensures r.Next? ==> r.ctx == ctx
    ensures r.Halt? ==> r.reply == Respond(403, ErrorBody(AdminsOnly))
  {
    if ctx.user.None? || ctx.user.value.role != AdminRole then Halt(Respond(403, ErrorBody(AdminsOnly)))
    else Next(ctx)
  }

  datatype Guard = Auth | Admin

  function RunGuard(g: Guard, ctx: Context, env: Env): Step {
    match g
    case Auth => VerifyToken(ctx, env)
    case Admin => VerifyAdmin(ctx)
  }

  /** Runs the guards left to right; the first that replies ends the request. Guards never
      change the request itself, a chain that passes an `Auth` guard has set `req.user`, and a
      chain that ends with `Admin` lets only an admin through. */
  function RunChain(chain: seq<Guard>, ctx: Context, env: Env): (r: Step)
    ensures r.Next? ==> r.ctx.request == ctx.request
    ensures r.Next? && Auth in chain ==> r.ctx.user.Some?
    ensures r.Next? && |chain| > 0 && chain[|chain| - 1] == Admin ==>
      r.ctx.user.Some? && r.ctx.user.value.role == AdminRole
    decreases |chain|
  {
    if |chain| == 0 then Next(ctx)
    else
      match RunGuard(chain[0], ctx, env)
      case Halt(reply) => Halt(reply)
      case Next(ctx') =>
        var r := RunChain(chain[1..], ctx', env);
        assert forall g :: g in chain ==> g == chain[0] || g in chain[1..];
        r
  }

  /** The chain of the admin routes: it passes exactly when the header carries a token that
      verifies and whose role claim is "admin", and `req.user` is then that token's payload. */
  lemma AdminChain(ctx: Context, env: Env)
    ensures var r := RunChain([Auth, Admin], ctx, env);
      && (r.Next? <==>
            && HasBearerHeader(ctx.request)
            && var v := Verify(BearerToken(ctx.request.authorization.value), env.secret, env.now);
               v.Success? && v.value.role == AdminRole)
      && (r.Next? ==>
            r.ctx == ctx.(user := Some(Verify(BearerToken(ctx.request.authorization.value), env.secret, env.now).value)))
  {
    var r := RunChain([Auth, Admin], ctx, env);
    assert [Auth, Admin][1..] == [Admin];
    assert [Admin][1..] == [];
  }
}
