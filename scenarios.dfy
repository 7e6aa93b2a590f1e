/** Properties that span several handlers: a user who registers can log in,
    the token a login issues is accepted by the token check, the user it
    resolves to is the one get-by-id returns, and all of these name the same
    id; once the user is deleted, the same token is rejected. */
module Scenarios {
  import opened Wrappers
  import opened ObjectIds
  import opened UserModel
  import opened Crypto
  import opened Http
  import opened UserRepository
  import opened UserController
  import opened UserProperties
  import opened AuthController

  /** After a successful create, logging in with the same email and password
      succeeds, returns the user the create returned, and signs a token over
      the new id and the stored role. */
  lemma CreatedUserCanLogIn(db: Db, lib: Primitives, body: NewUser, freshId: ObjectId)
    requires db.Valid() && Sound(lib)
    requires UserPostOutcome(db, lib, [], body, freshId).reply.UserMessage?
    ensures var o := UserPostOutcome(db, lib, [], body, freshId);
      && freshId in o.db.users
      && LoginPost(o.db, lib, [], body.email.value, body.password) ==
         LoginMessage(LOGIN_SUCCESSFUL, o.reply.user, lib.sign(Claims(ToHexString(freshId), o.db.users[freshId].role)))
  {
    CreateOutcome(db, lib, [], body, freshId);
    var o := UserPostOutcome(db, lib, [], body, freshId);
    FindOneFindsOwner(o.db, freshId);
  }

  /** The token of a successful login is accepted by the token check, which
      resolves it to the user the login returned. */
  lemma LoginTokenIsValid(db: Db, lib: Primitives, email: string, password: string)
    requires db.Valid() && Sound(lib)
    requires LoginPost(db, lib, [], email, Some(password)).LoginMessage?
    ensures var r := LoginPost(db, lib, [], email, Some(password));
      CheckToken(db, lib, Some("Bearer " + r.token)) == Responded(Message(TOKEN_VALID), Some(r.user))
  {
    LoginSucceedsIff(db, lib, [], email, Some(password));
    var k :| k in db.users && db.users[k].email == email && lib.compare(password, db.users[k].password);
    SignedTokenOfStoredUserIsValid(db, lib, k, db.users[k].role);
  }

  /** The user a token check resolves to is what get-by-id of its id returns. */
  lemma ResolvedUserIsGettable(db: Db, lib: Primitives, header: Option<string>)
    requires db.Valid()
    requires CheckToken(db, lib, header).Responded? && CheckToken(db, lib, header).locals.Some?
    ensures var u := CheckToken(db, lib, header).locals.value;
      UserGet(db, u.id) == UserDoc(u)
  {
  }

  /** Create, login, token check and get-by-id all refer to the same user:
      the public form of the id the store assigned. */
  lemma RegistrationRoundTrip(db: Db, lib: Primitives, body: NewUser, freshId: ObjectId)
    requires db.Valid() && Sound(lib)
    requires UserPostOutcome(db, lib, [], body, freshId).reply.UserMessage?
    ensures var o := UserPostOutcome(db, lib, [], body, freshId);
      var login := LoginPost(o.db, lib, [], body.email.value, body.password);
      && o.reply.user.id == ToHexString(freshId)
      && login.LoginMessage? && login.user.id == ToHexString(freshId)
      && CheckToken(o.db, lib, Some("Bearer " + login.token)) == Responded(Message(TOKEN_VALID), Some(o.reply.user))
      && UserGet(o.db, ToHexString(freshId)) == UserDoc(o.reply.user)
  {
    CreateOutcome(db, lib, [], body, freshId);
    CreatedUserCanLogIn(db, lib, body, freshId);
    var o := UserPostOutcome(db, lib, [], body, freshId);
    LoginTokenIsValid(o.db, lib, body.email.value, body.password.value);
    ParseOfHexString(freshId);
  }

  /** A token issued by a login is rejected with 401 once the user who logged
      in has deleted their own record. */
  lemma TokenRejectedAfterSelfDelete(db: Db, lib: Primitives, email: string, password: string, acting: Identity)
    requires db.Valid() && Sound(lib)
    requires LoginPost(db, lib, [], email, Some(password)).LoginMessage?
    requires ParseObjectId(acting.id) == ParseObjectId(LoginPost(db, lib, [], email, Some(password)).user.id)
    requires UserDeleteOutcome(db, acting).reply.UserMessage?
    ensures var token := LoginPost(db, lib, [], email, Some(password)).token;
      CheckToken(UserDeleteOutcome(db, acting).db, lib, Some("Bearer " + token)) == Responded(Failure(UNAUTHORIZED), None)
  {
    LoginSucceedsIff(db, lib, [], email, Some(password));
    var k :| k in db.users && db.users[k].email == email && lib.compare(password, db.users[k].password);
    SelfDeleteRemovesExactlyOwn(db, acting);
    SignedTokenOfRemovedUserIsRejected(UserDeleteOutcome(db, acting).db, lib, k, db.users[k].role);
  }

  /** A token issued by a login is rejected with 401 once an admin has
      deleted that user. */
  lemma TokenRejectedAfterAdminDelete(db: Db, lib: Primitives, email: string, password: string, admin: Identity, routeId: string)
    requires db.Valid() && Sound(lib)
    requires LoginPost(db, lib, [], email, Some(password)).LoginMessage?
    requires ParseObjectId(routeId) == ParseObjectId(LoginPost(db, lib, [], email, Some(password)).user.id)
    requires UserDeleteAsAdminOutcome(db, admin, routeId).reply.UserMessage?
    ensures var token := LoginPost(db, lib, [], email, Some(password)).token;
      CheckToken(UserDeleteAsAdminOutcome(db, admin, routeId).db, lib, Some("Bearer " + token)) == Responded(Failure(UNAUTHORIZED), None)
  {
    LoginSucceedsIff(db, lib, [], email, Some(password));
    var k :| k in db.users && db.users[k].email == email && lib.compare(password, db.users[k].password);
    SignedTokenOfRemovedUserIsRejected(UserDeleteAsAdminOutcome(db, admin, routeId).db, lib, k, db.users[k].role);
  }
}
