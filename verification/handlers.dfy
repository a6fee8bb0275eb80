/** The route handlers that carry decisions: user creation, deletion, profile, lookup, login, and
    the `$set` update shared by the PATCH routes. Each takes the request's data and a collection
    and returns the reply together with the collection afterwards. */
module Handlers {
  import opened Wrappers
  import opened Json
  import opened ObjectIds
  import opened Store
  import opened Jwt
  import opened Http

  const DefaultRole := "user"

  const ServerError := "Server error"
  const UsernameTaken := "Username already exists"
  const UserCreated := "User created successfully"
  const UserNotFound := "User not found"
  const UserDeleted := "User deleted successfully"
  const BadCredentials := "Invalid username or password"
  const LoginOk := "Login successful"
  const UpdateFailed := "Failed to update status"

  datatype Outcome = Outcome(reply: Reply, coll: Collection)

  /** What a `{username}` query compares against: the stored username, null when missing. */
  function UsernameOf(e: Entry): Value {
    FieldOrNull(e.fields, "username")
  }

  /** No two users share a username (null counting as one value), as creation maintains. */
  predicate UniqueUsernames(c: Collection) {
    forall i, j :: 0 <= i < j < |c| ==> UsernameOf(c[i]) != UsernameOf(c[j])
  }

  predicate UsernameTakenIn(users: Collection, name: Value) {
    exists i :: 0 <= i < |users| && UsernameOf(users[i]) == name
  }

  /** The record `POST /users` inserts: username and password as sent, and the role as sent
      when it is truthy, "user" otherwise. */
  function NewUser(username: Field, password: Field, role: Field): (d: Doc)
    ensures d.Keys == {"username", "password", "role"}
    ensures d["username"] == Stored(username) && d["password"] == Stored(password)
    ensures Truthy(role) ==> d["role"] == role.value
    ensures !Truthy(role) ==> d["role"] == VStr(DefaultRole)
  {
    map["username" := Stored(username), "password" := Stored(password),
        "role" := if Truthy(role) then role.value else VStr(DefaultRole)]
  }

  /** `POST /users`: 400 and no change when the username is taken; otherwise exactly one record
      is appended under the new id and the reply is 201 with that id; 500 if the insert fails. */
  function CreateUser(body: Doc, users: Collection, newId: ObjectId): (r: Outcome)
    ensures r.reply.Respond? && r.reply.status in {201, 400, 500}
    ensures HasStatus(r.reply, 400) <==> UsernameTakenIn(users, Stored(Get(body, "username")))
    ensures HasStatus(r.reply, 400) ==> r.reply.body == ErrorBody(UsernameTaken)
    ensures HasStatus(r.reply, 201) <==>
      !UsernameTakenIn(users, Stored(Get(body, "username"))) && newId !in Ids(users)
    ensures HasStatus(r.reply, 201) ==>
      && r.reply.body == CreatedBody(UserCreated, newId)
      && r.coll == users + [Entry(newId, NewUser(Get(body, "username"), Get(body, "password"), Get(body, "role")))]
    ensures HasStatus(r.reply, 500) ==> r.reply.body == ErrorBody(ServerError)
    ensures !HasStatus(r.reply, 201) ==> r.coll == users
    ensures UniqueIds(users) ==> UniqueIds(r.coll)
    ensures UniqueUsernames(users) ==> UniqueUsernames(r.coll)
  {
    var username := Get(body, "username");
    var found := FindFirst(users, ByField("username", username));
    assert found.Some? <==> UsernameTakenIn(users, Stored(username)) by {
      assert forall j :: 0 <= j < |users| ==>
        (Matches(users[j], ByField("username", username)) <==> UsernameOf(users[j]) == Stored(username));
    }
    if found.Some? then Outcome(Respond(400, ErrorBody(UsernameTaken)), users)
    else
      var doc := NewUser(username, Get(body, "password"), Get(body, "role"));
      match InsertOne(users, newId, doc)
      case Failure(_) => Outcome(Respond(500, ErrorBody(ServerError)), users)
      case Success(c') =>
        AppendKeepsUsernamesUnique(users, Entry(newId, doc));
        Outcome(Respond(201, CreatedBody(UserCreated, newId)), c')
  }

  lemma AppendKeepsUsernamesUnique(users: Collection, e: Entry)
    requires !UsernameTakenIn(users, UsernameOf(e))
    ensures UniqueUsernames(users) ==> UniqueUsernames(users + [e])
  {
    var c := users + [e];
    assert forall i :: 0 <= i < |users| ==> c[i] == users[i];
    assert forall i :: 0 <= i < |users| ==> UsernameOf(c[i]) != UsernameOf(e);
  }

  /** `users[i]` is the record `findOne({username})` returns for `name`. */
  predicate FirstNamed(users: Collection, i: nat, name: Value) {
    && i < |users|
    && UsernameOf(users[i]) == name
    && forall j :: 0 <= j < i ==> UsernameOf(users[j]) != name
  }

  /** `POST /login`: 404 unless the first user with the submitted username has exactly the
      submitted password (a plain comparison, missing counting as `undefined`); on success 200
      with a token whose claims are that user's id, username and role, issued now and valid for
      seven days, and the full stored record, password included. The store never changes. */
  function Login(body: Doc, users: Collection, env: Env): (r: Reply)
    ensures r.Respond? && (r.status == 200 || r.status == 404)
    ensures r.status == 404 ==> r.body == ErrorBody(BadCredentials)
    ensures r.status == 200 <==>
      exists i: nat :: FirstNamed(users, i, Stored(Get(body, "username")))
                  && Get(users[i].fields, "password") == Get(body, "password")
    ensures r.status == 200 ==>
      && r.body.LoginBody?
      && r.body.message == LoginOk
      && (exists i: nat :: FirstNamed(users, i, Stored(Get(body, "username"))) && r.body.user == users[i])
      && r.body.user in users
      && UsernameOf(r.body.user) == Stored(Get(body, "username"))
      && Get(r.body.user.fields, "password") == Get(body, "password")
      && Decode(r.body.token) == Some(Token(
           Payload(r.body.user.id.hex, Get(r.body.user.fields, "username"), Get(r.body.user.fields, "role"),
                   env.now, env.now + SevenDays),
           env.secret))
  {
    var username := Get(body, "username");
    var password := Get(body, "password");
    var found := FindFirst(users, ByField("username", username));
    assert forall j :: 0 <= j < |users| ==>
      (Matches(users[j], ByField("username", username)) <==> UsernameOf(users[j]) == Stored(username));
    match found
    case None =>
      Respond(404, ErrorBody(BadCredentials))
    case Some(i) =>
      assert forall k :: FirstNamed(users, k, Stored(username)) ==> k == i;
      var user := users[i];
      if Get(user.fields, "password") != password then
        Respond(404, ErrorBody(BadCredentials))
      else
        var token := Sign(user.id.hex, Get(user.fields, "username"), Get(user.fields, "role"), env.secret, env.now);
        Respond(200, LoginBody(LoginOk, token, user))
  }

  /** With unique usernames, login succeeds exactly when some user has both the submitted
      username and the submitted password. */
  lemma LoginWithUniqueUsernames(body: Doc, users: Collection, env: Env)
    requires UniqueUsernames(users)
    ensures HasStatus(Login(body, users, env), 200) <==>
      exists i :: 0 <= i < |users| && UsernameOf(users[i]) == Stored(Get(body, "username"))
                  && Get(users[i].fields, "password") == Get(body, "password")
  {
    var name := Stored(Get(body, "username"));
    forall i | 0 <= i < |users| && UsernameOf(users[i]) == name
      ensures FirstNamed(users, i, name)
    {
      forall j | 0 <= j < i ensures UsernameOf(users[j]) != name {
        assert UsernameOf(users[j]) != UsernameOf(users[i]);
      }
    }
  }

  /** `DELETE /users/:id`: 500 when the id does not parse, 404 and no change when no record has
      it, otherwise 200 and exactly that record is removed. */
  function DeleteUser(idParam: string, users: Collection): (r: Outcome)
    ensures r.reply.Respond? && r.reply.status in {200, 404, 500}
    ensures HasStatus(r.reply, 500) <==> ParseObjectId(idParam).None?
    ensures HasStatus(r.reply, 500) ==> r.reply.body == ErrorBody(ServerError)
    ensures HasStatus(r.reply, 404) <==> ParseObjectId(idParam).Some? && ParseObjectId(idParam).value !in Ids(users)
    ensures HasStatus(r.reply, 404) ==> r.reply.body == ErrorBody(UserNotFound)
    ensures !HasStatus(r.reply, 200) ==> r.coll == users
    ensures HasStatus(r.reply, 200) ==>
      && r.reply.body == MessageBody(UserDeleted)
      && exists i :: 0 <= i < |users| && users[i].id == ParseObjectId(idParam).value
                     && r.coll == users[..i] + users[i + 1..]
    ensures HasStatus(r.reply, 200) && UniqueIds(users) ==>
      UniqueIds(r.coll) && Ids(r.coll) == Ids(users) - {ParseObjectId(idParam).value}
  {
    match ParseObjectId(idParam)
    case None => Outcome(Respond(500, ErrorBody(ServerError)), users)
    case Some(id) =>
      var (c', result) := DeleteOne(users, id);
      if result.deletedCount == 0 then Outcome(Respond(404, ErrorBody(UserNotFound)), users)
      else Outcome(Respond(200, MessageBody(UserDeleted)), c')
  }

  /** `{projection: {password: 0}}`: the record without its password. */
  function WithoutPassword(e: Entry): (r: Entry)
    ensures r.id == e.id
    ensures "password" !in r.fields
    ensures forall k :: k != "password" ==> (k in r.fields <==> k in e.fields)
    ensures forall k :: k != "password" && k in e.fields ==> r.fields[k] == e.fields[k]
  {
    Entry(e.id, e.fields - {"password"})
  }

  /** `GET /profile`: the record whose id is the token's `id` claim, without its password; 404
      when there is none; 500 when the claim is not an identifier (or `req.user` is unset). */
  function Profile(user: Option<Payload>, users: Collection): (r: Reply)
    ensures r.Respond? && r.status in {200, 404, 500}
    ensures HasStatus(r, 500) <==> user.None? || ParseObjectId(user.value.id).None?
    ensures HasStatus(r, 404) <==>
      user.Some? && ParseObjectId(user.value.id).Some? && ParseObjectId(user.value.id).value !in Ids(users)
    ensures HasStatus(r, 404) ==> r.body == ErrorBody(UserNotFound)
    ensures HasStatus(r, 200) ==>
      && r.body.ProfileBody?
      && "password" !in r.body.user.fields
      && r.body.user.id == ParseObjectId(user.value.id).value
      && exists i :: 0 <= i < |users| && users[i].id == r.body.user.id
                     && r.body.user == WithoutPassword(users[i])
  {
    match user
    case None => Respond(500, ErrorBody(ServerError))
    case Some(p) =>
      match ParseObjectId(p.id)
      case None => Respond(500, ErrorBody(ServerError))
      case Some(id) =>
        match FindFirst(users, ById(id))
        case None =>
          assert forall j :: 0 <= j < |users| ==> users[j].id != id by {
            forall j | 0 <= j < |users| ensures users[j].id != id {
              assert !Matches(users[j], ById(id));
            }
          }
          Respond(404, ErrorBody(UserNotFound))
        case Some(i) =>
          assert users[i].id in Ids(users);
          Respond(200, ProfileBody(WithoutPassword(users[i])))
  }

  /** `GET /users`: every record, in store order, passwords included. */
  function ListUsers(users: Collection): (r: Reply)
    ensures HasStatus(r, 200) && r.body.EntriesBody?
    ensures |r.body.entries| == |users|
    ensures forall i :: 0 <= i < |users| ==>
      r.body.entries[i].id == users[i].id && r.body.entries[i].fields == users[i].fields
  {
    Respond(200, EntriesBody(users))
  }

  /** Unlike the profile, the listing applies no projection: every record's password is sent. */
  lemma ListUsersShowsPasswords(users: Collection, i: nat)
    requires i < |users| && "password" in users[i].fields
    ensures var r := ListUsers(users);
      && HasStatus(r, 200)
      && r.body.EntriesBody? && i < |r.body.entries|
      && r.body.entries[i].fields["password"] == users[i].fields["password"]
  {
  }

  /** `GET /users/:id`: the full record, or an empty 200 reply when none has that id. The handler
      has no `try`, so an id that does not parse leaves the request without a reply. */
  function GetUser(idParam: string, users: Collection): (r: Reply)
    ensures r.Rejected? <==> ParseObjectId(idParam).None?
    ensures r.Respond? ==> r.status == 200
    ensures r.Respond? ==>
      (r.body == EmptyBody <==> ParseObjectId(idParam).value !in Ids(users))
    ensures r.Respond? && r.body != EmptyBody ==>
      r.body.EntryBody? && r.body.entry in users && r.body.entry.id == ParseObjectId(idParam).value
  {
    match ParseObjectId(idParam)
    case None => Rejected
    case Some(id) =>
      match FindFirst(users, ById(id))
      case None =>
        assert forall j :: 0 <= j < |users| ==> users[j].id != id by {
          forall j | 0 <= j < |users| ensures users[j].id != id {
            assert !Matches(users[j], ById(id));
          }
        }
        Respond(200, EmptyBody)
      case Some(i) =>
        assert users[i].id in Ids(users);
        Respond(200, EntryBody(users[i]))
  }

  /** `PATCH /users/:id`, `/businesses/:id`, `/regularcontents/:id`: `$set` the body onto the
      document with that id. The driver's result is sent with 200 even when nothing matched;
      500 when the id does not parse or the store refuses the update. Only the submitted
      properties of the matched document change. */
  function PatchDocument(idParam: string, body: Doc, coll: Collection): (r: Outcome)
    ensures r.reply.Respond? && r.reply.status in {200, 500}
    ensures HasStatus(r.reply, 500) <==>
      ParseObjectId(idParam).None? || (ParseObjectId(idParam).value in Ids(coll) && "_id" in body)
    ensures HasStatus(r.reply, 500) ==> r.reply.body == ErrorBody(UpdateFailed) && r.coll == coll
    ensures HasStatus(r.reply, 200) ==>
      && r.reply.body.UpdateBody?
      && r.reply.body.result.matchedCount == (if ParseObjectId(idParam).value in Ids(coll) then 1 else 0)
      && Ids(r.coll) == Ids(coll)
    ensures HasStatus(r.reply, 200) && UniqueIds(coll) ==>
      && |r.coll| == |coll|
      && forall j :: 0 <= j < |coll| ==>
           && r.coll[j].id == coll[j].id
           && r.coll[j].fields == (if coll[j].id == ParseObjectId(idParam).value
                                   then Merge(coll[j].fields, body) else coll[j].fields)
  {
    match ParseObjectId(idParam)
    case None => Outcome(Respond(500, ErrorBody(UpdateFailed)), coll)
    case Some(id) =>
      match UpdateOne(coll, id, body)
      case Failure(_) => Outcome(Respond(500, ErrorBody(UpdateFailed)), coll)
      case Success((c', result)) =>
        UpdateOnePointwise(coll, id, body);
        Outcome(Respond(200, UpdateBody(result)), c')
  }
}
