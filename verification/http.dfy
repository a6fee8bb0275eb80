/** Requests as the handlers see them and the replies they send. */
module Http {
  import opened Wrappers
  import opened Json
  import opened ObjectIds
  import opened Store
  import opened Jwt

  datatype Method = GET | POST | PATCH | DELETE

  /** An incoming request: the path as decoded segments (`/users/abc` is `["users", "abc"]`), the
      `Authorization` header if present, and the parsed JSON body (`{}` when there is none). */
  datatype Request = Request(verb: Method, path: seq<string>, authorization: Option<string>, body: Doc)

  /** A request on its way through the middleware chain: `user` is `req.user`. */
  datatype Context = Context(request: Request, user: Option<Payload>)

  /** The JSON bodies the server sends. */
  datatype Body =
    | ErrorBody(error: string)
    | MessageBody(message: string)
    | CreatedBody(message: string, userId: ObjectId)
    | ProfileBody(user: Entry)
    | LoginBody(message: string, token: string, user: Entry)
    | UpdateBody(result: UpdateResult)
    | EntriesBody(entries: seq<Entry>)
    | EntryBody(entry: Entry)
    | EmptyBody

  /** What a handler does with the response: send a status and a body, or nothing at all because
      its promise rejected outside any `try`. */
  datatype Reply = Respond(status: nat, body: Body) | Rejected

  predicate HasStatus(r: Reply, status: nat) {
    r.Respond? && r.status == status
  }

  /** A signing key: the configured secret or the literal fallback, never empty. */
  type Key = k: string | k != "" witness "k"

  /** The process-wide signing key and the clock, in seconds. */
  datatype Env = Env(secret: Key, now: nat)
}
