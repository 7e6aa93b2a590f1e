/** What the user handlers promise, stated over their outcomes: nothing
    secret in what they return, 404 for a missing id, what a create stores,
    who may update or delete which record, and when a token is accepted. */
module UserProperties {
  import opened Wrappers
  import opened Strings
  import opened ObjectIds
  import opened UserModel
  import opened Crypto
  import opened Http
  import opened UserRepository
  import opened UserController

  function Elements(s: seq<ObjectId>): set<ObjectId>
  {
    set x | x in s
  }

  /** A sequence without repetitions has as many elements as its set. */
  lemma {:induction false} DistinctCardinality(s: seq<ObjectId>)
    requires Distinct(s)
    ensures |Elements(s)| == |s|
  {
    if s != [] {
      DistinctTail(s);
      DistinctCardinality(s[1..]);
      assert Elements(s) == {s[0]} + Elements(s[1..]);
    }
  }

  /** The listing of a valid collection has one entry per stored user and
      contains every stored user's projection. */
  lemma ListingIsComplete(db: Db)
    requires db.Valid()
    ensures |UserListGet(db).users| == |db.users|
    ensures forall k :: k in db.users ==> Project(db.users[k]) in UserListGet(db).users
  {
    DistinctCardinality(db.order);
    assert Elements(db.order) == db.users.Keys;
    forall k | k in db.users
      ensures Project(db.users[k]) in UserListGet(db).users
    {
      var i :| 0 <= i < |db.order| && db.order[i] == k;
    }
  }

  /** Two collections that differ at most in passwords and roles. */
  ghost predicate DifferOnlyInSecrets(db: Db, db2: Db)
  {
    && db.order == db2.order
    && db.users.Keys == db2.users.Keys
    && forall k :: k in db.users ==> SameExceptSecrets(db.users[k], db2.users[k])
  }

  lemma {:induction false} FindPairwiseAgree(db: Db, db2: Db)
    requires DifferOnlyInSecrets(db, db2)
    ensures |Find(db)| == |Find(db2)|
    ensures forall i :: 0 <= i < |Find(db)| ==> SameExceptSecrets(Find(db)[i], Find(db2)[i])
    decreases |db.order|
  {
    if db.order != [] {
      var tail, tail2 := db.(order := db.order[1..]), db2.(order := db2.order[1..]);
      FindPairwiseAgree(tail, tail2);
      var k := db.order[0];
      if k in db.users {
        assert Find(db) == [db.users[k]] + Find(tail);
        assert Find(db2) == [db2.users[k]] + Find(tail2);
      } else {
        assert Find(db) == Find(tail);
        assert Find(db2) == Find(tail2);
      }
    }
  }

  /** The listing does not depend on passwords or roles: it reveals neither. */
  lemma ListingIgnoresSecrets(db: Db, db2: Db)
    requires DifferOnlyInSecrets(db, db2)
    ensures UserListGet(db) == UserListGet(db2)
  {
    FindPairwiseAgree(db, db2);
    var rs, rs2 := Find(db), Find(db2);
    forall i | 0 <= i < |rs|
      ensures Project(rs[i]) == Project(rs2[i])
    {
      ProjectionForgetsExactlySecrets(rs[i], rs2[i]);
    }
    assert ProjectAll(rs) == ProjectAll(rs2);
  }

  /** Getting a user does not depend on passwords or roles: it reveals neither. */
  lemma GetIgnoresSecrets(db: Db, db2: Db, id: string)
    requires DifferOnlyInSecrets(db, db2)
    ensures UserGet(db, id) == UserGet(db2, id)
  {
    var parsed := ParseObjectId(id);
    if parsed.Some? && parsed.value in db.users {
      ProjectionForgetsExactlySecrets(db.users[parsed.value], db2.users[parsed.value]);
    }
  }

  /** A create succeeds exactly when validation passed, a password was sent,
      the schema accepts the prepared document, and neither the new id nor
      the email is taken. It then stores the hash of the password, the
      defaulted role, image and games, and answers "User created" with the
      projection; the collection stays valid. */
  lemma CreateOutcome(db: Db, lib: Primitives, errors: seq<ValidationError>, body: NewUser, freshId: ObjectId)
    requires db.Valid()
    ensures var o := UserPostOutcome(db, lib, errors, body, freshId);
      o.reply.UserMessage? <==>
        && errors == [] && body.password.Some?
        && BuildRecord(freshId, PrepareNewUser(lib, body)).Ok?
        && freshId !in db.users
        && !EmailTaken(db.users, body.email.value, None)
    ensures var o := UserPostOutcome(db, lib, errors, body, freshId);
      o.reply.UserMessage? ==>
        && freshId in o.db.users
        && o.db.Valid()
        && o.db.users == db.users[freshId := o.db.users[freshId]]
        && (var rec := o.db.users[freshId];
            && SchemaValid(rec)
            && o.reply == UserMessage(USER_CREATED, Project(rec))
            && rec.password == lib.hash(body.password.value)
            && Some(rec.userName) == body.userName && Some(rec.email) == body.email
            && (body.role.None? || body.role == Some("") ==> rec.role == User)
            && (body.role.Some? && body.role != Some("") ==> RoleName(rec.role) == body.role.value)
            && (body.profileImage.None? ==> rec.profileImage == DEFAULT_PROFILE_IMAGE)
            && (body.favouriteGames.None? ==> rec.favouriteGames == []))
  {
    if errors == [] && body.password.Some? {
      InsertKeepsValid(db, PrepareNewUser(lib, body), freshId);
    }
  }

  /** A create whose email is already stored fails with 500 and changes nothing. */
  lemma CreateDuplicateEmailFails(db: Db, lib: Primitives, body: NewUser, freshId: ObjectId, k: ObjectId)
    requires k in db.users && body.email == Some(db.users[k].email)
    ensures UserPostOutcome(db, lib, [], body, freshId) == Outcome(Failure(CREATION_FAILED), db)
  {
  }

  /** Only the record `userPut` targets can change: every other record, the
      set of ids and the order are kept. */
  lemma PutChangesOnlyTarget(db: Db, lib: Primitives, acting: Identity, routeId: Option<string>, patch: UserPatch)
    ensures var o := UserPutOutcome(db, lib, acting, routeId, patch);
      && o.db.order == db.order
      && o.db.users.Keys == db.users.Keys
      && forall k :: k in db.users && ParseObjectId(TargetId(acting, routeId)) != Some(k) ==> o.db.users[k] == db.users[k]
  {
  }

  /** A caller who is not an admin can change no record but its own,
      whatever route id and body it sends. */
  lemma NonAdminPutTouchesOnlyOwnRecord(db: Db, lib: Primitives, acting: Identity, routeId: Option<string>, patch: UserPatch)
    requires acting.role != Admin
    ensures var o := UserPutOutcome(db, lib, acting, routeId, patch);
      && o.db.users.Keys == db.users.Keys
      && forall k :: k in db.users && ParseObjectId(acting.id) != Some(k) ==> o.db.users[k] == db.users[k]
  {
    PutChangesOnlyTarget(db, lib, acting, routeId, patch);
  }

  /** A successful update stores the old record with the body applied: a
      non-empty password re-hashed, an empty one stored as it is, every other
      field, the role included, as given; it answers "User updated" with the
      new projection. */
  lemma PutSuccess(db: Db, lib: Primitives, acting: Identity, routeId: Option<string>, patch: UserPatch)
    ensures var o := UserPutOutcome(db, lib, acting, routeId, patch);
      o.reply.UserMessage? ==>
        && ParseObjectId(TargetId(acting, routeId)).Some?
        && (var id := ParseObjectId(TargetId(acting, routeId)).value;
            && id in db.users && id in o.db.users
            && o.db.users[id] == ApplyPatch(db.users[id], HashIfPresent(lib, patch))
            && o.reply == UserMessage(USER_UPDATED, Project(o.db.users[id]))
            && (patch.password.Some? && patch.password.value != "" ==> o.db.users[id].password == lib.hash(patch.password.value))
            && (patch.password.None? ==> o.db.users[id].password == db.users[id].password)
            && (patch.password == Some("") ==> o.db.users[id].password == "")
            && (patch.role.Some? ==> o.db.users[id].role == patch.role.value))
  {
  }

  /** An update of a well-formed id that names no user answers 404 and
      changes nothing. */
  lemma PutMissingTarget(db: Db, lib: Primitives, acting: Identity, routeId: Option<string>, patch: UserPatch)
    ensures var o := UserPutOutcome(db, lib, acting, routeId, patch);
      o.reply == Failure(USER_NOT_FOUND) <==>
        ParseObjectId(TargetId(acting, routeId)).Some? && ParseObjectId(TargetId(acting, routeId)).value !in db.users
    ensures var o := UserPutOutcome(db, lib, acting, routeId, patch);
      o.reply == Failure(USER_NOT_FOUND) ==> o.db == db
  {
  }

  /** Self-delete removes exactly the caller's record and keeps every other
      one; it answers with the name and email, image and games blanked. A
      missing record answers 404 and changes nothing. */
  lemma SelfDeleteRemovesExactlyOwn(db: Db, acting: Identity)
    requires db.Valid()
    ensures var o := UserDeleteOutcome(db, acting);
      o.reply.UserMessage? ==>
        && ParseObjectId(acting.id).Some?
        && (var id := ParseObjectId(acting.id).value;
            && id in db.users
            && o.db.users.Keys == db.users.Keys - {id}
            && (forall k :: k in o.db.users ==> o.db.users[k] == db.users[k])
            && o.reply.message == USER_DELETED
            && o.reply.user.userName == db.users[id].userName
            && o.reply.user.email == db.users[id].email
            && o.reply.user.profileImage == "" && o.reply.user.favouriteGames == []
            && o.db.Valid())
    ensures var o := UserDeleteOutcome(db, acting);
      (o.reply == Failure(USER_NOT_FOUND) <==>
        ParseObjectId(acting.id).Some? && ParseObjectId(acting.id).value !in db.users)
      && (o.reply == Failure(USER_NOT_FOUND) ==> o.db == db)
  {
    DeleteKeepsValid(db, acting.id);
  }

  /** The admin routes answer a caller who is not an admin with 401 before
      anything else: the outcome is the same whatever the id, the body and
      the hash function, and nothing changes. */
  lemma AdminRoutesRejectNonAdmin(
    db: Db, lib: Primitives, lib2: Primitives, acting: Identity, routeId: string, routeId2: string,
    patch: UserPatch, patch2: UserPatch)
    requires acting.role != Admin
    ensures UserPutAsAdminOutcome(db, lib, acting, routeId, patch) == Outcome(Failure(UNAUTHORIZED), db)
    ensures UserPutAsAdminOutcome(db, lib, acting, routeId, patch) == UserPutAsAdminOutcome(db, lib2, acting, routeId2, patch2)
    ensures UserDeleteAsAdminOutcome(db, acting, routeId) == Outcome(Failure(UNAUTHORIZED), db)
  {
  }

  /** For an admin, the admin update of a non-empty route id is the
      self-service update redirected to that id, and the admin delete of an
      id that names no user answers 404 and changes nothing. */
  lemma AdminRoutesForAdmin(db: Db, lib: Primitives, acting: Identity, routeId: string, patch: UserPatch)
    requires acting.role == Admin && routeId != ""
    ensures UserPutAsAdminOutcome(db, lib, acting, routeId, patch) == UserPutOutcome(db, lib, acting, Some(routeId), patch)
    ensures ParseObjectId(routeId).Some? && ParseObjectId(routeId).value !in db.users ==>
      && UserDeleteAsAdminOutcome(db, acting, routeId) == Outcome(Failure(USER_NOT_FOUND), db)
      && UserPutAsAdminOutcome(db, lib, acting, routeId, patch) == Outcome(Failure(USER_NOT_FOUND), db)
  {
  }

  /** An admin's delete of the record a route id names removes exactly that
      record and keeps every other one; it answers with the name and email,
      image and games blanked. An id that names no user answers 404 and
      changes nothing. */
  lemma AdminDeleteRemovesExactlyTarget(db: Db, acting: Identity, routeId: string)
    requires db.Valid() && acting.role == Admin
    ensures var o := UserDeleteAsAdminOutcome(db, acting, routeId);
      o.reply.UserMessage? ==>
        && ParseObjectId(routeId).Some?
        && (var id := ParseObjectId(routeId).value;
            && id in db.users
            && o.db.users.Keys == db.users.Keys - {id}
            && (forall k :: k in o.db.users ==> o.db.users[k] == db.users[k])
            && o.reply.message == USER_DELETED
            && o.reply.user.userName == db.users[id].userName
            && o.reply.user.email == db.users[id].email
            && o.reply.user.profileImage == "" && o.reply.user.favouriteGames == []
            && o.db.Valid())
    ensures var o := UserDeleteAsAdminOutcome(db, acting, routeId);
      (o.reply == Failure(USER_NOT_FOUND) <==>
        ParseObjectId(routeId).Some? && ParseObjectId(routeId).value !in db.users)
      && (o.reply == Failure(USER_NOT_FOUND) ==> o.db == db)
  {
    SelfDeleteRemovesExactlyOwn(db, acting.(id := routeId));
  }

  /** `checkToken` answers 401 exactly in its three explicit cases: no
      header, no second space-separated piece, or a verified id that no
      longer names a stored user. */
  lemma CheckTokenUnauthorizedCases(db: Db, lib: Primitives, header: Option<string>)
    ensures CheckToken(db, lib, header) == Responded(Failure(UNAUTHORIZED), None) <==>
      || header.None? || header == Some("")
      || |Split(header.value, ' ')| < 2 || Split(header.value, ' ')[1] == ""
      || (lib.verify(Split(header.value, ' ')[1]).Some?
          && FindById(db, lib.verify(Split(header.value, ' ')[1]).value.id).Missing?)
  {
  }

  /** `checkToken` answers "Token valid" exactly when the header's second
      space-separated piece is non-empty, verifies, and its claims' id names a
      stored user, whose projection then goes into `res.locals.user`. It sends
      no reply exactly when that piece does not verify or its id fails the
      cast. */
  lemma CheckTokenValidCases(db: Db, lib: Primitives, header: string)
    ensures var r := CheckToken(db, lib, Some(header));
      var pieces := Split(header, ' ');
      (r.Responded? && r.reply == Message(TOKEN_VALID)) <==>
        && header != "" && |pieces| >= 2 && pieces[1] != ""
        && lib.verify(pieces[1]).Some?
        && FindById(db, lib.verify(pieces[1]).value.id).Found?
    ensures var pieces := Split(header, ' ');
      header != "" && |pieces| >= 2 && pieces[1] != ""
      && lib.verify(pieces[1]).Some?
      && FindById(db, lib.verify(pieces[1]).value.id).Found? ==>
        CheckToken(db, lib, Some(header)) ==
          Responded(Message(TOKEN_VALID), Some(Project(FindById(db, lib.verify(pieces[1]).value.id).record)))
    ensures var r := CheckToken(db, lib, Some(header));
      var pieces := Split(header, ' ');
      r.Unhandled? <==>
        && header != "" && |pieces| >= 2 && pieces[1] != ""
        && (lib.verify(pieces[1]).None? || FindById(db, lib.verify(pieces[1]).value.id).Failed?)
  {
  }

  /** The header `Bearer <token>` of a token without spaces yields that token
      as its second piece. */
  lemma BearerHeaderSplits(token: string)
    requires ' ' !in token
    ensures Split("Bearer " + token, ' ') == ["Bearer", token]
  {
    assert "Bearer " + token == "Bearer" + [' '] + token;
    SplitAfterPiece("Bearer", ' ', token);
    SplitWithoutSeparator(token, ' ');
  }

  /** A token the process signed for a stored user is accepted, and the user
      it resolves to is that user's projection. */
  lemma SignedTokenOfStoredUserIsValid(db: Db, lib: Primitives, k: ObjectId, role: Role)
    requires Sound(lib) && k in db.users
    ensures CheckToken(db, lib, Some("Bearer " + lib.sign(Claims(ToHexString(k), role)))) ==
      Responded(Message(TOKEN_VALID), Some(Project(db.users[k])))
  {
    var token := lib.sign(Claims(ToHexString(k), role));
    BearerHeaderSplits(token);
    ParseOfHexString(k);
  }

  /** A token the process signed for a user who is no longer stored is
      rejected with 401. */
  lemma SignedTokenOfRemovedUserIsRejected(db: Db, lib: Primitives, k: ObjectId, role: Role)
    requires Sound(lib) && k !in db.users
    ensures CheckToken(db, lib, Some("Bearer " + lib.sign(Claims(ToHexString(k), role)))) ==
      Responded(Failure(UNAUTHORIZED), None)
  {
    var token := lib.sign(Claims(ToHexString(k), role));
    BearerHeaderSplits(token);
    ParseOfHexString(k);
  }
}
