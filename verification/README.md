# crm-backend request logic in Dafny

This project models the decision logic of the crm-backend server (`index.js`): a small Express
REST API over a MongoDB store with bearer-token authentication. The model covers:

- the `verifyToken` middleware: the `"Bearer "` prefix test, extraction of the token with
  `split(" ")[1]`, verification, and attaching the payload to `req.user`;
- the `verifyAdmin` middleware: a role check on `req.user`;
- the user-management handlers over the `usersCollection`: create, list, get by id, delete,
  PATCH, the `/profile` lookup, and `/login`;
- the `$set` PATCH handler, which the server uses for users, businesses and regular contents;
- the route table, with each route's middleware chain, and a dispatcher that runs a request
  through the chain and then the handler.

Everything is a pure function. A handler takes the request data and a collection. It returns
the reply (a status and a JSON body, or no reply at all) and the collection afterwards.

Modules, leaves first:

- `Wrappers`: `Option` and `Result`.
- `Text`: JavaScript's `split` on one character, `join`, and `startsWith`.
- `Decimal`: decimal text for numbers.
- `Escaping`: escaping for token segments.
- `Json`: the untyped documents. `Field = Option<Value>`, and `None` is `undefined`.
- `ObjectIds`: `new ObjectId(string)` as a partial parse. It accepts exactly 24 hex digits and
  stores them in lower case.
- `Jwt`: the token codec that stands in for `jsonwebtoken`. `Sign` issues a token with
  `exp = iat + 7 days`. `Verify` fails on a malformed token, then on a bad signature, then on
  expiry (the clock has reached `exp`).
- `Store`: a collection as a sequence of `Entry(id, fields)` in natural order. It provides
  `findOne` (first match), `insertOne`, `deleteOne`, and `updateOne` with `$set`.
- `Http`: requests, replies and bodies.
- `Middleware`: `verifyToken`, `verifyAdmin`, and the chain that runs them.
- `Handlers`: the route handlers.
- `Routes`: the route table and `Dispatch`.
- `Scenarios`: properties that follow several requests.

Storage behaviour is modelled as the MongoDB Node driver behaves by default:

- a property that is `undefined` is stored as null;
- an equality filter `{username: null}` also matches a record with no `username`;
- `_id` is a unique index, so inserting under an id that is already taken fails;
- a `$set` that names `_id` on a matched document fails.

Two behaviours of `index.js` that the model keeps as written:

- `PATCH /users/:id` (and the business and content PATCH routes) answers 200 with
  `matchedCount: 0` when no document has the id.
- `GET /users/:id` answers 200 with an empty body when no record has the id. It has no `try`,
  so an id that does not parse rejects the handler's promise, which Express 4 does not catch:
  no reply is sent (`Reply.Rejected`).

Identifiers are parsed as major version 6 of the bson package parses them.

## Model

| member | source | states |
|---|---|---|
| `Middleware.BearerToken` | index.js:35 | `split(" ")[1]` of a header that starts with "Bearer " is the text after the prefix up to the next space or the end of the header; it never contains a space |
| `Middleware.BearerTokenOf` | index.js:35 | a token containing no space, sent as "Bearer " + token, is extracted unchanged |
| `Middleware.DoubleSpaceGivesEmptyToken` | index.js:35 | with a second space right after "Bearer ", the extracted token is the empty string |
| `Text.JoinSplit` | index.js:35 | joining the fields of `split(sep)` with `sep` gives back the string, so no text is lost or invented |
| `Text.SplitJoin` | index.js:35 | splitting a join of separator-free fields gives back exactly those fields |
| `Text.SplitFirstField` | index.js:35 | the first field of a split is the longest prefix free of the separator |
| `Middleware.VerifyToken` | index.js:28-44 | 403 "Token is required" exactly when the header is missing or lacks the "Bearer " prefix; 401 "Invalid or expired token" when the token fails verification; otherwise `req.user` becomes the verified payload, nothing else changes, and the chain continues |
| `Middleware.VerifyAdmin` | index.js:47-52 | passes exactly when `req.user` is set and its role is the string "admin", leaving the request as it was; otherwise 403 "Access denied. Admins only." |
| `Middleware.RunChain` | index.js:66 | guards never change the request; a chain that passes `verifyToken` has set `req.user`; a chain that ends with `verifyAdmin` lets only an admin through |
| `Middleware.AdminChain` | index.js:28-52 | `verifyToken` then `verifyAdmin` passes if and only if the header's token verifies and its role claim is "admin"; the handler then sees that token's payload as `req.user` |
| `Jwt.Sign` | index.js:177-181 | an issued token contains no space and decodes to the claims `{id, username, role}`, issued now, expiring seven days later, signed with the key |
| `Jwt.DecodeEncode` | index.js:177-181 | every token decodes back to itself from its text form |
| `Jwt.Verify` | index.js:38 | verification succeeds exactly when the token decodes, carries the key's signature, and the clock is before its expiry; the result is then the payload unchanged; an undecodable token is malformed |
| `Jwt.SignThenVerify` | index.js:38 | a token issued with a key verifies under that key to exactly the issued payload until its expiry, is expired from then on, and is a bad signature under any other key |
| `Jwt.ExpiredNeverVerifies` | index.js:38 | once the clock has reached a token's expiry it does not verify, whatever its claims |
| `Jwt.EmptyTokenIsMalformed` | index.js:35-38 | the empty token is rejected as malformed |
| `ObjectIds.ParseObjectId` | index.js:110 | an id parses exactly when it is 24 hexadecimal digits; the identifier is its lower-case form |
| `ObjectIds.ParseHexString` | index.js:128 | the text form of an identifier, as carried in a token's `id` claim, parses back to the same identifier |
| `Json.Truthy` | index.js:80 | JavaScript truthiness as the role default uses it: a value is falsy exactly when it is undefined, null, false, 0 or "" |
| `Store.Matches` | index.js:71 | an equality filter on an undefined or null value matches a record whose property is missing or null; on any other value, exactly the records holding that value |
| `Store.FindFirst` | index.js:71 | `findOne` returns the first document in store order that matches, and nothing when none matches |
| `Store.FindByIdUnique` | index.js:127-130 | with a unique `_id` index, `findOne` by id finds exactly the document that has that id |
| `Store.InsertOne` | index.js:77-81 | the insert fails exactly when the id is taken; otherwise it appends exactly one document and keeps ids unique |
| `Store.DeleteOne` | index.js:109-111 | `deletedCount` is 0 exactly when no document has the id, and then nothing changes; otherwise one document with that id is removed, every other document stays, and none is added |
| `Store.Merge` | index.js:155 | `$set` overwrites the submitted properties, adds new ones, and leaves every other property untouched |
| `Store.MergeIdempotent` | index.js:155 | applying the same `$set` twice equals applying it once |
| `Store.UpdateOne` | index.js:153-156 | no match gives counts 0 and no change; a match with `_id` in the patch fails; otherwise only the matched document is merged, and it counts as modified exactly when a value changed |
| `Store.UpdateOnePointwise` | index.js:153-156 | with unique ids, the document with the id becomes the merge and every other document is unchanged |
| `Handlers.NewUser` | index.js:77-81 | a new record holds exactly username, password and role; the role is the submitted one when truthy and "user" otherwise |
| `Handlers.CreateUser` | index.js:66-91 | 400 "Username already exists" with no change exactly when a record has the username; otherwise 201 with the new id and exactly one record appended; 500 with no change when the insert fails; unique ids and unique usernames are preserved |
| `Handlers.Login` | index.js:166-188 | 404 unless the first record with the submitted username has exactly the submitted password; on 200 the body holds that first record, password included, and the token decodes to its id, username and role, issued now for seven days; the store is never changed |
| `Handlers.LoginWithUniqueUsernames` | index.js:170-171 | with unique usernames, login succeeds if and only if some record has both the submitted username and the submitted password |
| `Handlers.DeleteUser` | index.js:105-122 | 500 when the id does not parse; 404 with no change exactly when no record has the id; otherwise 200 and exactly that record is removed |
| `Handlers.WithoutPassword` | index.js:129 | the projection removes `password` and keeps the id and every other property |
| `Handlers.Profile` | index.js:125-138 | 200 with the record whose id is the `id` claim, with no password property; 404 exactly when no record has that id; 500 when the claim is not an identifier |
| `Handlers.ListUsers` | index.js:94-102 | `GET /users` answers 200 with one entry per stored record, in store order, each with the record's id and all its properties |
| `Handlers.ListUsersShowsPasswords` | index.js:94-102 | `GET /users` answers 200 with the records applying no projection: a stored password is sent as it is |
| `Handlers.GetUser` | index.js:141-147 | no reply exactly when the id does not parse; otherwise 200 with the record that has the id, or an empty body exactly when there is none |
| `Handlers.PatchDocument` | index.js:149-163 | 500 "Failed to update status" exactly when the id does not parse or the patch names `_id` of a matched document; otherwise 200 with the match count, and only the submitted properties of the matched document change |
| `Routes.Handle` | index.js:66-272 | among the modelled handlers, only create, delete and PATCH on users change the users; only the business PATCH changes businesses; only the content PATCH changes contents |
| `Routes.Dispatch` | index.js:66-272 | a request is served exactly when it matches a route of the table |
| `Routes.TableGuards` | index.js:66-166 | the user-management routes run `verifyToken` then `verifyAdmin`; `/profile` runs `verifyToken` alone; login and the PATCH routes for businesses and contents run none |
| `Routes.FindRoute` | index.js:66-258 | the route that serves a request is the first registered route whose verb and pattern match it; none exactly when no route matches |
| `Routes.MatchPatternFits` | index.js:105 | a pattern such as `/users/:id` matches exactly the paths with one segment per pattern segment, each literal equal and each parameter non-empty |
| `Routes.GuardedRequests` | index.js:66-149 | the table puts `verifyToken` then `verifyAdmin` in front of exactly `POST /users`, `GET /users` and `DELETE`, `GET` and `PATCH /users/:id`, and `verifyToken` alone in front of exactly `GET /profile`; every other request it serves is unguarded |
| `Routes.GuardedRouteNeedsBearer` | index.js:31-33 | on a user-management or profile request, a missing header or one without "Bearer " gets 403 and the store is unchanged |
| `Routes.GuardedRouteNeedsValidToken` | index.js:37-43 | on a user-management or profile request, a token that fails verification for any reason gets 401 and the store is unchanged |
| `Routes.AdminRouteNeedsAdminRole` | index.js:48-51 | on a user-management request, a valid token whose role is not "admin" gets 403 and the store is unchanged |
| `Routes.HandlerSeesVerifiedClaims` | index.js:38-40 | when the handler of a user-management or profile request runs, the bearer token verified and `req.user` is exactly its payload |
| `Routes.OnlyAdminsChangeUsers` | index.js:66-163 | any request that changes the users carries a token that verifies and has the role "admin" |
| `Routes.OnlyPatchChangesBusinesses` | index.js:211-225 | among the modelled routes, only `PATCH /businesses/:id` changes the businesses |
| `Routes.OnlyPatchChangesContents` | index.js:258-272 | among the modelled routes, only `PATCH /regularcontents/:id` changes the regular contents |
| `Scenarios.LoginFindsLastUser` | index.js:170-184 | a record appended under a username no earlier record has is the one login finds and returns |
| `Scenarios.CreateThenLoginHandlers` | index.js:66-188 | creating a user without a role and then logging in with the same credentials gives 201 and then 200; the token verifies to the new id, the username, and the role "user" |
| `Scenarios.CreateThenLogin` | index.js:66-188 | the same holds through the dispatcher, for an admin's `POST /users` followed by `POST /login` |
| `Scenarios.AdminCreatesThroughDispatch` | index.js:66 | an admin's `POST /users` reaches the create handler |
| `Scenarios.LoginThroughDispatch` | index.js:166 | `POST /login` runs no guard and never changes the store |
| `Scenarios.ProfileThroughDispatch` | index.js:125 | `GET /profile` answers with `verifyToken`'s rejection, or else with the profile of the verified payload |
| `Scenarios.ProfileOfStoredUser` | index.js:127-134 | the profile of a payload whose id claim is a stored record's id is that record without its password |
| `Scenarios.ProfileWithIssuedToken` | index.js:125-138 | `GET /profile` with a token issued for a stored user returns that user without password before expiry, and 401 from the expiry on |
| `Scenarios.TokenOutlivesDeletion` | index.js:105-138 | tokens are not revoked: after the user is deleted the token still verifies, and the profile answers 404 |
| `Scenarios.LoginPicksFirstOfDuplicates` | index.js:170-181 | when two records share a username and a password, login returns the first in store order and its token carries that record's id |
| `Scenarios.PatchCanDuplicateUsername` | index.js:149-163 | uniqueness is checked only at creation: a PATCH can give a second user an existing username |

## Left out

- The MongoDB client and its connection lifecycle (index.js:14-22, 55-63, 274-279). These are external I/O. Each collection is an in-memory sequence, and `Db` holds the three collections.
- Real JWT cryptography (index.js:4, 38, 177-181). The model does not include HMAC signing, the JOSE header, the algorithm check, or base64url. The stand-in token carries the key itself as its signature. It states which key signed a token and makes no secrecy claim.
- Jwt.Verify: only tokens shaped like those `Sign` issues decode, that is, with claims exactly `{id: string, username, role, iat, exp}`. Any other payload is treated as malformed, so `verifyToken` answers 401. With the key, `jsonwebtoken` would accept other payloads too: a token without `exp` never expires, and one without `id` reaches `new ObjectId(undefined)` at index.js:128, which generates a fresh id so that the profile answers 404. Payloads of other shapes are not modelled.
- The signing key and its fallback to a literal (index.js:25). The key is the `Env.secret` parameter, of type `Http.Key`, which is never empty: both the configured secret and the fallback are non-empty, and `jsonwebtoken` refuses to sign with an empty key. The clock is `Env.now` in seconds.
- Express wiring, CORS, body parsing, `listen`, and console logging (index.js:1-12, 281-287). Express's own routing details are also left out: `HEAD` requests (which Express serves with the `GET` routes, guards included), case-insensitive paths, trailing slashes, percent-decoding, and the default 404 for unknown paths. `Dispatch` returns `None` for any request outside the modelled routes.
- The pass-through routes for listing, getting and inserting businesses, and for inserting, listing, getting and deleting regular contents (index.js:191-208, 228-256), and the greeting route (index.js:281-283). Each is one storage call that echoes the driver's result, with no decision logic.
- Routes.Handle: its users/businesses/contents separation covers the modelled handlers only. The unmodelled pass-through routes also write: `POST /businesses` (index.js:197), `POST /regularcontents` (index.js:228) and `DELETE /regularcontents/:id` (index.js:250).
- Routes.OnlyPatchChangesBusinesses: holds for the requests `Dispatch` serves. `POST /businesses` (index.js:197) also inserts into the businesses, and it is not modelled.
- Routes.OnlyPatchChangesContents: holds for the requests `Dispatch` serves. `POST /regularcontents` (index.js:228) and `DELETE /regularcontents/:id` (index.js:250) also write to the regular contents, and they are not modelled.
- Concurrency between requests. Each request is served atomically.
- Generating a new ObjectId. The driver's fresh id is the `newId` parameter of `Dispatch` and `CreateUser`.
- Storage failures other than the two modelled write errors (duplicate `_id`, `$set` on `_id`), such as network errors. Those would also become the 500 catch-all replies.
- What happens after a handler's promise rejects (`GetUser` with an unparsable id). The model assumes Express 4 and records only that no reply is sent. On Node 15 or later the unhandled rejection then ends the whole server process, and the model does not follow that. Express 5 would instead answer 500 through its default error handler.
- JSON values beyond flat scalars. Nested objects, arrays, non-integer numbers, and bodies that are JSON arrays are not modelled. `$set` field names are not interpreted as dotted paths or operators.
- More than one `Authorization` header on a request.

## Findings

None. The 404 on failed login, the password in the login response, and the 200 from PATCH when
nothing matched are modelled as the code behaves.
