/** The user route handlers. Read-only handlers are functions of the
    collection; each handler that writes is a function giving its reply and
    the collection afterwards (`...Outcome`) and a method that performs it on
    a `UserStore`. The acting identity is what the `authenticate`
    middleware left in `res.locals.user`; it is a parameter here. */
module UserController {
  import opened Wrappers
  import opened Strings
  import opened ObjectIds
  import opened UserModel
  import opened Crypto
  import opened Http
  import opened UserRepository

  /** The authenticated caller: its public id and its role. */
  datatype Identity = Identity(id: string, role: Role)

  /** `res.locals.user.role.includes('admin')`. */
  predicate IsAdmin(acting: Identity)
    ensures IsAdmin(acting) <==> acting.role == Admin
  {
    AdminCheckIsEquality(acting.role);
    Includes(RoleName(acting.role), "admin")
  }

  /** A reply together with the collection after the handler ran. */
  datatype Outcome = Outcome(reply: Reply, db: Db)

  const SERVER_UP := "Server up"
  const USER_CREATED := "User created"
  const USER_UPDATED := "User updated"
  const USER_DELETED := "User deleted"
  const TOKEN_VALID := "Token valid"

  /** `check`: the liveness answer, which never fails. */
  function Check(): (r: Reply)
    ensures r.Message? && r.message == SERVER_UP
  {
    Message(SERVER_UP)
  }

  function ProjectAll(rs: seq<UserRecord>): (os: seq<OutputUser>)
    ensures |os| == |rs|
    ensures forall i :: 0 <= i < |rs| ==> os[i] == Project(rs[i])
  {
    seq(|rs|, i requires 0 <= i < |rs| => Project(rs[i]))
  }

  /** `userListGet`: every stored user, projected, in natural order. */
  function UserListGet(db: Db): (r: Reply)
    ensures r.Users?
    ensures forall o :: o in r.users ==> exists k :: k in db.users && o == Project(db.users[k])
    ensures forall i :: 0 <= i < |db.order| && db.order[i] in db.users ==> Project(db.users[db.order[i]]) in r.users
    ensures (forall i :: 0 <= i < |db.order| ==> db.order[i] in db.users) ==>
      && |r.users| == |db.order|
      && forall i :: 0 <= i < |db.order| ==> r.users[i] == Project(db.users[db.order[i]])
  {
    var rs := Find(db);
    var os := ProjectAll(rs);
    forall o | o in os
      ensures exists k :: k in db.users && o == Project(db.users[k])
    {
      var i :| 0 <= i < |rs| && o == Project(rs[i]);
      assert rs[i] in rs;
    }
    assert forall i :: 0 <= i < |db.order| && db.order[i] in db.users ==>
      exists j :: 0 <= j < |rs| && rs[j] == db.users[db.order[i]];
    Users(os)
  }

  /** `userGet(id)`: 500 with the cast message for a malformed id, 404 for a
      well-formed id that names no user, otherwise that user projected. */
  function UserGet(db: Db, id: string): (r: Reply)
    ensures r.Failure? && r.error.status == 500 <==> ParseObjectId(id).None?
    ensures r == Failure(USER_NOT_FOUND) <==> ParseObjectId(id).Some? && ParseObjectId(id).value !in db.users
    ensures r.UserDoc? <==> ParseObjectId(id).Some? && ParseObjectId(id).value in db.users
    ensures r.UserDoc? ==> r.user == Project(db.users[ParseObjectId(id).value])
  {
    match FindById(db, id)
    case Failed(e) => Failure(CustomError(ErrorMessage(e), 500))
    case Missing => Failure(USER_NOT_FOUND)
    case Found(rec) => UserDoc(Project(rec))
  }

  /** The body `userPost` hands to `create`: the password replaced by its
      hash and the role defaulted, `user.role || 'user'`. */
  function PrepareNewUser(lib: Primitives, body: NewUser): (doc: NewUser)
    requires body.password.Some?
    ensures doc.password == Some(lib.hash(body.password.value))
    ensures doc.role.Some?
    ensures body.role.None? || body.role == Some("") ==> doc.role == Some("user")
    ensures body.role.Some? && body.role != Some("") ==> doc.role == body.role
    ensures doc.(password := body.password, role := body.role) == body
  {
    var role := if body.role.None? || body.role.value == "" then "user" else body.role.value;
    body.(password := Some(lib.hash(body.password.value)), role := Some(role))
  }

  /** `userPost`: 400 with the joined validation messages, or the user created
      with the generated id `freshId`; every other failure, a missing
      password (bcrypt throws) and a duplicate email among them, is
      "User creation failed" with 500. A failure leaves the collection as it was. */
  function UserPostOutcome(db: Db, lib: Primitives, errors: seq<ValidationError>, body: NewUser, freshId: ObjectId): (o: Outcome)
    ensures errors != [] ==> o == Outcome(Failure(ValidationFailure(errors)), db)
    ensures errors == [] && o.reply.Failure? ==> o.reply.error == CREATION_FAILED
    ensures o.reply.Failure? ==> o.db == db
    ensures o.reply.Failure? || o.reply.UserMessage?
  {
    if errors != [] then Outcome(Failure(ValidationFailure(errors)), db)
    else if body.password.None? then Outcome(Failure(CREATION_FAILED), db)
    else
      var w := Insert(db, PrepareNewUser(lib, body), freshId);
      match w.result
      case Found(rec) => Outcome(UserMessage(USER_CREATED, Project(rec)), w.db)
      case _ => Outcome(Failure(CREATION_FAILED), db)
  }

  /** The id `userPut` updates: the caller's own, unless the caller is an
      admin and the route carries a non-empty id. */
  function TargetId(acting: Identity, routeId: Option<string>): (t: string)
    ensures t == acting.id || (acting.role == Admin && routeId == Some(t) && t != "")
    ensures acting.role == Admin && routeId.Some? && routeId.value != "" ==> t == routeId.value
  {
    if routeId.Some? && routeId.value != "" && IsAdmin(acting) then routeId.value else acting.id
  }

  /** `if (user.password) user.password = hash(user.password)`: a non-empty
      password is re-hashed; an absent or empty one is passed on as it is. */
  function HashIfPresent(lib: Primitives, patch: UserPatch): (p: UserPatch)
    ensures patch.password.Some? && patch.password.value != "" ==> p.password == Some(lib.hash(patch.password.value))
    ensures patch.password.None? || patch.password == Some("") ==> p == patch
    ensures p.(password := patch.password) == patch
  {
    if patch.password.Some? && patch.password.value != "" then patch.(password := Some(lib.hash(patch.password.value)))
    else patch
  }

  /** The reply of both update handlers to what `findByIdAndUpdate` yielded. */
  function UpdateReply(result: Lookup): (r: Reply)
    ensures result.Missing? <==> r == Failure(USER_NOT_FOUND)
    ensures result.Failed? <==> r.Failure? && r.error.status == 500
    ensures result.Found? <==> r.UserMessage?
    ensures result.Found? ==> r == UserMessage(USER_UPDATED, Project(result.record))
  {
    match result
    case Failed(e) => Failure(CustomError(ErrorMessage(e), 500))
    case Missing => Failure(USER_NOT_FOUND)
    case Found(rec) => UserMessage(USER_UPDATED, Project(rec))
  }

  /** The reply of both delete handlers to what `findByIdAndDelete` yielded. */
  function DeleteReply(result: Lookup): (r: Reply)
    ensures result.Missing? <==> r == Failure(USER_NOT_FOUND)
    ensures result.Failed? <==> r.Failure? && r.error.status == 500
    ensures result.Found? <==> r.UserMessage?
    ensures result.Found? ==> r == UserMessage(USER_DELETED, DeletedView(result.record))
  {
    match result
    case Failed(e) => Failure(CustomError(ErrorMessage(e), 500))
    case Missing => Failure(USER_NOT_FOUND)
    case Found(rec) => UserMessage(USER_DELETED, DeletedView(rec))
  }

  /** `userPut` (PUT /users/): update the target the caller may address. */
  function UserPutOutcome(db: Db, lib: Primitives, acting: Identity, routeId: Option<string>, patch: UserPatch): (o: Outcome)
    ensures o.reply.Failure? ==> o.db == db
    ensures o.reply.Failure? || (o.reply.UserMessage? && o.reply.message == USER_UPDATED)
  {
    var w := UpdateById(db, TargetId(acting, routeId), HashIfPresent(lib, patch));
    Outcome(UpdateReply(w.result), w.db)
  }

  /** `userDelete` (DELETE /users/): delete the caller's own record. */
  function UserDeleteOutcome(db: Db, acting: Identity): (o: Outcome)
    ensures o.reply.Failure? ==> o.db == db
    ensures o.reply.Failure? || (o.reply.UserMessage? && o.reply.message == USER_DELETED)
  {
    var w := DeleteById(db, acting.id);
    Outcome(DeleteReply(w.result), w.db)
  }

  /** `userDeleteAsAdmin` (DELETE /users/:id): admins only. */
  function UserDeleteAsAdminOutcome(db: Db, acting: Identity, routeId: string): (o: Outcome)
    ensures !IsAdmin(acting) ==> o == Outcome(Failure(UNAUTHORIZED), db)
    ensures IsAdmin(acting) ==> o == UserDeleteOutcome(db, acting.(id := routeId))
  {
    if !IsAdmin(acting) then Outcome(Failure(UNAUTHORIZED), db)
    else
      var w := DeleteById(db, routeId);
      Outcome(DeleteReply(w.result), w.db)
  }

  /** `userPutAsAdmin` (PUT /users/:id): admins only. */
  function UserPutAsAdminOutcome(db: Db, lib: Primitives, acting: Identity, routeId: string, patch: UserPatch): (o: Outcome)
    ensures !IsAdmin(acting) ==> o == Outcome(Failure(UNAUTHORIZED), db)
  {
    if !IsAdmin(acting) then Outcome(Failure(UNAUTHORIZED), db)
    else
      var w := UpdateById(db, routeId, HashIfPresent(lib, patch));
      Outcome(UpdateReply(w.result), w.db)
  }

  /** What `checkToken` does: a reply and the user it stores in
      `res.locals.user`, or `Unhandled` where the code throws outside any
      try/catch (the token does not verify, or its id fails the cast) and so
      sends no reply at all. */
  datatype TokenCheck = Responded(reply: Reply, locals: Option<OutputUser>) | Unhandled

  /** `checkToken`, given the Authorization header. */
  function CheckToken(db: Db, lib: Primitives, header: Option<string>): (r: TokenCheck)
    ensures header.None? || header == Some("") ==> r == Responded(Failure(UNAUTHORIZED), None)
    ensures r.Responded? && r.reply.Message? ==>
      && r.reply.message == TOKEN_VALID
      && header.Some? && |Split(header.value, ' ')| >= 2
      && (var token := Split(header.value, ' ')[1];
          && lib.verify(token).Some?
          && FindById(db, lib.verify(token).value.id).Found?
          && r.locals == Some(Project(FindById(db, lib.verify(token).value.id).record)))
  {
    if header.None? || header.value == "" then Responded(Failure(UNAUTHORIZED), None)
    else
      var pieces := Split(header.value, ' ');
      if |pieces| < 2 || pieces[1] == "" then Responded(Failure(UNAUTHORIZED), None)
      else
        match lib.verify(pieces[1])
        case None => Unhandled
        case Some(claims) =>
          match FindById(db, claims.id)
          case Failed(_) => Unhandled
          case Missing => Responded(Failure(UNAUTHORIZED), None)
          case Found(rec) => Responded(Message(TOKEN_VALID), Some(Project(rec)))
  }

  /** `userPost` on the store. */
  method UserPost(store: UserStore, lib: Primitives, errors: seq<ValidationError>, body: NewUser, freshId: ObjectId)
    returns (reply: Reply)
    requires store.Valid()
    modifies store
    ensures store.Valid()
    ensures Outcome(reply, store.State()) == UserPostOutcome(old(store.State()), lib, errors, body, freshId)
  {
    if errors != [] {
      return Failure(ValidationFailure(errors));
    }
    var user := body;
    if user.password.None? {
      return Failure(CREATION_FAILED);
    }
    user := user.(password := Some(lib.hash(user.password.value)));
    user := user.(role := Some(if user.role.None? || user.role.value == "" then "user" else user.role.value));
    var newUser := store.Create(user, freshId);
    if newUser.Found? {
      reply := UserMessage(USER_CREATED, Project(newUser.record));
    } else {
      reply := Failure(CREATION_FAILED);
    }
  }

  /** `userPut` on the store. */
  method UserPut(store: UserStore, lib: Primitives, acting: Identity, routeId: Option<string>, patch: UserPatch)
    returns (reply: Reply)
    requires store.Valid()
    modifies store
    ensures store.Valid()
    ensures Outcome(reply, store.State()) == UserPutOutcome(old(store.State()), lib, acting, routeId, patch)
  {
    var userId := acting.id;
    if routeId.Some? && routeId.value != "" && IsAdmin(acting) {
      userId := routeId.value;
    }
    var user := patch;
    if user.password.Some? && user.password.value != "" {
      user := user.(password := Some(lib.hash(user.password.value)));
    }
    var result := store.FindByIdAndUpdate(userId, user);
    reply := UpdateReply(result);
  }

  /** `userDelete` on the store. */
  method UserDelete(store: UserStore, acting: Identity) returns (reply: Reply)
    requires store.Valid()
    modifies store
    ensures store.Valid()
    ensures Outcome(reply, store.State()) == UserDeleteOutcome(old(store.State()), acting)
  {
    var result := store.FindByIdAndDelete(acting.id);
    reply := DeleteReply(result);
  }

  /** `userDeleteAsAdmin` on the store. */
  method UserDeleteAsAdmin(store: UserStore, acting: Identity, routeId: string) returns (reply: Reply)
    requires store.Valid()
    modifies store
    ensures store.Valid()
    ensures Outcome(reply, store.State()) == UserDeleteAsAdminOutcome(old(store.State()), acting, routeId)
  {
    if !IsAdmin(acting) {
      return Failure(UNAUTHORIZED);
    }
    var result := store.FindByIdAndDelete(routeId);
    reply := DeleteReply(result);
  }

  /** `userPutAsAdmin` on the store. */
  method UserPutAsAdmin(store: UserStore, lib: Primitives, acting: Identity, routeId: string, patch: UserPatch)
    returns (reply: Reply)
    requires store.Valid()
    modifies store
    ensures store.Valid()
    ensures Outcome(reply, store.State()) == UserPutAsAdminOutcome(old(store.State()), lib, acting, routeId, patch)
  {
    if !IsAdmin(acting) {
      return Failure(UNAUTHORIZED);
    }
    var user := patch;
    if user.password.Some? && user.password.value != "" {
      user := user.(password := Some(lib.hash(user.password.value)));
    }
    var result := store.FindByIdAndUpdate(routeId, user);
    reply := UpdateReply(result);
  }
}
