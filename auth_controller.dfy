/** The login handler: validate, look the user up by email, compare the
    password, sign `{id, role}`, reply with the projected user and the token.
    It only reads the collection. */
module AuthController {
  import opened Wrappers
  import opened ObjectIds
  import opened UserModel
  import opened Crypto
  import opened Http
  import opened UserRepository

  const LOGIN_SUCCESSFUL := "Login successful"

  /** `loginPost` with the validation result and the body's email and
      password. A body without a password reaches `bcrypt.compare(undefined,
      hash)` once the email is found; that call rejects, and the catch answers
      500 "Login failed". */
  function LoginPost(db: Db, lib: Primitives, errors: seq<ValidationError>, email: string, password: Option<string>): (r: Reply)
    ensures errors != [] ==> r == Failure(ValidationFailure(errors))
    ensures errors == [] ==> r == Failure(BAD_CREDENTIALS) || r == Failure(LOGIN_FAILED) || r.LoginMessage?
    ensures errors == [] && FindOne(db, email).None? ==> r == Failure(BAD_CREDENTIALS)
    ensures r == Failure(LOGIN_FAILED) <==> errors == [] && FindOne(db, email).Some? && password.None?
    ensures r.LoginMessage? ==>
      && errors == []
      && FindOne(db, email).Some?
      && password.Some?
      && lib.compare(password.value, FindOne(db, email).value.password)
      && r.message == LOGIN_SUCCESSFUL
      && r.user == Project(FindOne(db, email).value)
      && r.token == lib.sign(Claims(r.user.id, FindOne(db, email).value.role))
  {
    if errors != [] then Failure(ValidationFailure(errors))
    else
      match FindOne(db, email)
      case None => Failure(BAD_CREDENTIALS)
      case Some(user) =>
        if password.None? then Failure(LOGIN_FAILED)
        else if !lib.compare(password.value, user.password) then Failure(BAD_CREDENTIALS)
        else
          var token := lib.sign(Claims(ToHexString(user.id), user.role));
          LoginMessage(LOGIN_SUCCESSFUL, Project(user), token)
  }

  /** Login succeeds exactly when validation passed and some stored user has
      the email and a password hash the given password matches; the reply
      then carries that user's projection and a token signed over that
      user's id and role. */
  lemma LoginSucceedsIff(db: Db, lib: Primitives, errors: seq<ValidationError>, email: string, password: Option<string>)
    requires db.Valid()
    ensures LoginPost(db, lib, errors, email, password).LoginMessage? <==>
      && errors == [] && password.Some?
      && exists k :: k in db.users && db.users[k].email == email && lib.compare(password.value, db.users[k].password)
    ensures forall k :: k in db.users && db.users[k].email == email && LoginPost(db, lib, errors, email, password).LoginMessage? ==>
      && LoginPost(db, lib, errors, email, password).user == Project(db.users[k])
      && LoginPost(db, lib, errors, email, password).token == lib.sign(Claims(ToHexString(k), db.users[k].role))
  {
    var r := LoginPost(db, lib, errors, email, password);
    forall k | k in db.users && db.users[k].email == email
      ensures FindOne(db, email) == Some(db.users[k])
    {
      FindOneFindsOwner(db, k);
    }
    if r.LoginMessage? {
      var u := FindOne(db, email).value;
      var j :| 0 <= j < |db.order| && db.order[j] in db.users && db.users[db.order[j]] == u;
      assert db.users[db.order[j]].email == email;
    }
  }

  /** An unknown email and a wrong password for a known one get the very same
      reply, so the reply does not tell which of the two was wrong. A body
      without a password gets 403 for an unknown email but 500 for a known
      one, so that reply does tell whether the email is registered. */
  lemma CredentialFailuresIndistinguishable(
    db: Db, lib: Primitives, unknownEmail: string, anyPassword: Option<string>, k: ObjectId, wrongPassword: string)
    requires db.Valid()
    requires forall j :: j in db.users ==> db.users[j].email != unknownEmail
    requires k in db.users && !lib.compare(wrongPassword, db.users[k].password)
    ensures LoginPost(db, lib, [], unknownEmail, anyPassword) == Failure(BAD_CREDENTIALS)
    ensures LoginPost(db, lib, [], db.users[k].email, Some(wrongPassword)) == Failure(BAD_CREDENTIALS)
    ensures LoginPost(db, lib, [], db.users[k].email, None) == Failure(LOGIN_FAILED)
  {
    FindOneFindsOwner(db, k);
  }
}
