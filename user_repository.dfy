/** The users collection as the handlers see it through the Mongoose model:
    by-id lookup (with the ObjectId cast), lookup by email, listing, create,
    findByIdAndUpdate and findByIdAndDelete. `Db` is the collection as a
    value and the functions below say what each operation does to it;
    `UserStore` is the mutable collection whose methods perform them. */
module UserRepository {
  import opened Wrappers
  import opened ObjectIds
  import opened UserModel

  /** No id occurs twice. */
  predicate Distinct(s: seq<ObjectId>)
  {
    forall i, j :: 0 <= i < j < |s| ==> s[i] != s[j]
  }

  /** The tail of a sequence without repetitions has none, nor its head. */
  lemma DistinctTail(s: seq<ObjectId>)
    requires s != []
    ensures Distinct(s) ==> Distinct(s[1..]) && s[0] !in s[1..]
  {
    assert forall i :: 0 <= i < |s| - 1 ==> s[1..][i] == s[i + 1];
  }

  /** The ids of a sequence without `x`, in their order. */
  function Remove(s: seq<ObjectId>, x: ObjectId): (r: seq<ObjectId>)
    ensures forall y :: y in r <==> y in s && y != x
    ensures Distinct(s) ==> Distinct(r)
  {
    if s == [] then []
    else
      var rest := Remove(s[1..], x);
      DistinctTail(s);
      if s[0] == x then rest else [s[0]] + rest
  }

  /** The collection: its documents by `_id`, and the natural order in which
      an unsorted query returns them (insertion order). */
  datatype Db = Db(users: map<ObjectId, UserRecord>, order: seq<ObjectId>)
  {
    /** Every document sits under its own `_id`, emails are unique (the
        unique index), and `order` lists every document exactly once. */
    ghost predicate Valid()
    {
      && (forall k :: k in users ==> users[k].id == k)
      && EmailsUnique(users)
      && (forall i :: 0 <= i < |order| ==> order[i] in users)
      && (forall k :: k in users ==> k in order)
      && Distinct(order)
    }
  }

  const EMPTY: Db := Db(map[], [])

  const ID_INDEX := "_id_"
  const EMAIL_INDEX := "email_1"

  /** The errors the driver throws. */
  datatype DbError =
    | CastError(value: string)
    | SchemaViolation(path: string)
    | DuplicateKey(index: string, key: string)

  /** The message text of a driver error, as `(error as Error).message` reads it. */
  function ErrorMessage(e: DbError): string
  {
    match e
    case CastError(v) => "Cast to ObjectId failed for value \"" + v + "\" (type string) at path \"_id\" for model \"User\""
    case SchemaViolation(p) => "User validation failed: " + p + ": Path `" + p + "` is invalid."
    case DuplicateKey(index, key) => "E11000 duplicate key error collection: users index: " + index + " dup key: \"" + key + "\""
  }

  /** What a query yields: the document, `null`, or a thrown driver error. */
  datatype Lookup = Found(record: UserRecord) | Missing | Failed(error: DbError)

  /** What a write yields, with the collection after it. */
  datatype Write = Write(result: Lookup, db: Db)

  /** `findById(idStr)`. */
  function FindById(db: Db, idStr: string): (r: Lookup)
    ensures r.Failed? <==> ParseObjectId(idStr).None?
    ensures r.Failed? ==> r.error == CastError(idStr)
    ensures r.Missing? <==> ParseObjectId(idStr).Some? && ParseObjectId(idStr).value !in db.users
    ensures r.Found? ==> ParseObjectId(idStr).Some? && r.record == db.users[ParseObjectId(idStr).value]
  {
    match ParseObjectId(idStr)
    case None => Failed(CastError(idStr))
    case Some(id) => if id in db.users then Found(db.users[id]) else Missing
  }

  /** The first document in `order` whose email is `email`. */
  function FirstWithEmail(users: map<ObjectId, UserRecord>, order: seq<ObjectId>, email: string): (r: Option<UserRecord>)
    ensures r.Some? ==> r.value.email == email
    ensures r.Some? ==> exists i :: 0 <= i < |order| && order[i] in users && users[order[i]] == r.value
    ensures r.None? ==> forall i :: 0 <= i < |order| && order[i] in users ==> users[order[i]].email != email
  {
    if order == [] then None
    else if order[0] in users && users[order[0]].email == email then Some(users[order[0]])
    else
      var r := FirstWithEmail(users, order[1..], email);
      assert forall i :: 0 <= i < |order| - 1 ==> order[1..][i] == order[i + 1];
      r
  }

  /** `findOne({email: email})`: a stored document with that email, or none
      when (every stored document being in the natural order) none has it. */
  function FindOne(db: Db, email: string): (r: Option<UserRecord>)
    ensures r.Some? ==> r.value.email == email && exists k :: k in db.users && db.users[k] == r.value
    ensures r.None? && (forall k :: k in db.users ==> k in db.order) ==>
      forall k :: k in db.users ==> db.users[k].email != email
  {
    var r := FirstWithEmail(db.users, db.order, email);
    if r.Some? then
      var i :| 0 <= i < |db.order| && db.order[i] in db.users && db.users[db.order[i]] == r.value;
      assert db.order[i] in db.users;
      r
    else r
  }

  /** In a valid collection, looking up a stored user's email finds that user. */
  lemma FindOneFindsOwner(db: Db, k: ObjectId)
    requires db.Valid() && k in db.users
    ensures FindOne(db, db.users[k].email) == Some(db.users[k])
  {
    var email := db.users[k].email;
    var i :| 0 <= i < |db.order| && db.order[i] == k;
    var r := FindOne(db, email);
    assert r.Some?;
    var j :| 0 <= j < |db.order| && db.order[j] in db.users && db.users[db.order[j]] == r.value;
    assert db.users[db.order[j]].email == db.users[k].email;
  }

  /** `find()`: the documents in natural order. */
  function Find(db: Db): (rs: seq<UserRecord>)
    ensures (forall i :: 0 <= i < |db.order| ==> db.order[i] in db.users) ==> |rs| == |db.order|
    ensures forall r :: r in rs ==> exists k :: k in db.users && db.users[k] == r
    ensures forall i :: 0 <= i < |db.order| && db.order[i] in db.users ==> db.users[db.order[i]] in rs
    ensures (forall i :: 0 <= i < |db.order| ==> db.order[i] in db.users) ==>
      forall i :: 0 <= i < |db.order| ==> rs[i] == db.users[db.order[i]]
    decreases |db.order|
  {
    if db.order == [] then []
    else
      var rest := Find(db.(order := db.order[1..]));
      assert forall i :: 1 <= i < |db.order| ==> db.order[i] == db.order[1..][i - 1];
      if db.order[0] in db.users then [db.users[db.order[0]]] + rest else rest
  }

  /** Some stored document other than `except` (if given) has this email. */
  predicate EmailTaken(users: map<ObjectId, UserRecord>, email: string, except: Option<ObjectId>)
  {
    exists k :: k in users && users[k].email == email && except != Some(k)
  }

  /** `create(doc)` with the generated `_id` `id`: the schema fills defaults
      and validates, then the unique indexes on `_id` and `email` are checked. */
  function Insert(db: Db, doc: NewUser, id: ObjectId): (w: Write)
    ensures !w.result.Missing?
    ensures w.result.Found? <==>
      BuildRecord(id, doc).Ok? && id !in db.users && !EmailTaken(db.users, doc.email.value, None)
    ensures w.result.Found? ==>
      && w.result.record == BuildRecord(id, doc).value
      && w.db == Db(db.users[id := w.result.record], db.order + [id])
    ensures !w.result.Found? ==> w.db == db
  {
    match BuildRecord(id, doc)
    case Err(path) => Write(Failed(SchemaViolation(path)), db)
    case Ok(rec) =>
      if id in db.users then Write(Failed(DuplicateKey(ID_INDEX, ToHexString(id))), db)
      else if EmailTaken(db.users, rec.email, None) then Write(Failed(DuplicateKey(EMAIL_INDEX, rec.email)), db)
      else Write(Found(rec), Db(db.users[id := rec], db.order + [id]))
  }

  /** `findByIdAndUpdate(idStr, patch, {new: true})`: the update is applied
      without running the schema validators; only the unique email index
      can reject it. The updated document is returned. */
  function UpdateById(db: Db, idStr: string, patch: UserPatch): (w: Write)
    ensures w.result.Failed? ==> w.db == db
    ensures w.result.Missing? <==> ParseObjectId(idStr).Some? && ParseObjectId(idStr).value !in db.users
    ensures w.result.Missing? ==> w.db == db
    ensures w.result.Found? ==> ParseObjectId(idStr).Some?
    ensures w.result.Found? ==>
      (var id := ParseObjectId(idStr).value;
       && id in db.users
       && w.result.record == ApplyPatch(db.users[id], patch)
       && w.db == db.(users := db.users[id := w.result.record]))
  {
    match ParseObjectId(idStr)
    case None => Write(Failed(CastError(idStr)), db)
    case Some(id) =>
      if id !in db.users then Write(Missing, db)
      else
        var rec := ApplyPatch(db.users[id], patch);
        if EmailTaken(db.users, rec.email, Some(id)) then Write(Failed(DuplicateKey(EMAIL_INDEX, rec.email)), db)
        else Write(Found(rec), db.(users := db.users[id := rec]))
  }

  /** `findByIdAndDelete(idStr)`: removes the document and returns it. */
  function DeleteById(db: Db, idStr: string): (w: Write)
    ensures w.result.Failed? <==> ParseObjectId(idStr).None?
    ensures w.result.Missing? <==> ParseObjectId(idStr).Some? && ParseObjectId(idStr).value !in db.users
    ensures !w.result.Found? ==> w.db == db
    ensures w.result.Found? ==> ParseObjectId(idStr).Some?
    ensures w.result.Found? ==>
      (var id := ParseObjectId(idStr).value;
       && id in db.users
       && w.result.record == db.users[id]
       && w.db == Db(db.users - {id}, Remove(db.order, id)))
  {
    match ParseObjectId(idStr)
    case None => Write(Failed(CastError(idStr)), db)
    case Some(id) =>
      if id !in db.users then Write(Missing, db)
      else Write(Found(db.users[id]), Db(db.users - {id}, Remove(db.order, id)))
  }

  /** A create keeps the collection valid. */
  lemma InsertKeepsValid(db: Db, doc: NewUser, id: ObjectId)
    requires db.Valid()
    ensures Insert(db, doc, id).db.Valid()
  {
    var w := Insert(db, doc, id);
    if w.result.Found? {
      var rec := w.result.record;
      var u := w.db.users;
      assert forall k :: k in db.users ==> db.users[k].email != rec.email;
      forall a, b | a in u && b in u && u[a].email == u[b].email
        ensures a == b
      {
        if a != id && b != id {
          assert db.users[a].email == db.users[b].email;
        }
      }
    }
  }

  /** An update keeps the collection valid. */
  lemma UpdateKeepsValid(db: Db, idStr: string, patch: UserPatch)
    requires db.Valid()
    ensures UpdateById(db, idStr, patch).db.Valid()
  {
    var w := UpdateById(db, idStr, patch);
    if w.result.Found? {
      var id := ParseObjectId(idStr).value;
      var rec := w.result.record;
      var u := w.db.users;
      assert forall k :: k in db.users && k != id ==> db.users[k].email != rec.email;
      forall a, b | a in u && b in u && u[a].email == u[b].email
        ensures a == b
      {
        if a != id && b != id {
          assert db.users[a].email == db.users[b].email;
        }
      }
    }
  }

  /** A delete keeps the collection valid. */
  lemma DeleteKeepsValid(db: Db, idStr: string)
    requires db.Valid()
    ensures DeleteById(db, idStr).db.Valid()
  {
    var w := DeleteById(db, idStr);
    if w.result.Found? {
      var order := w.db.order;
      assert forall i :: 0 <= i < |order| ==> order[i] in order;
    }
  }

  /** The mutable collection behind the `userModel` calls. */
  class UserStore {
    var users: map<ObjectId, UserRecord>
    var order: seq<ObjectId>

    function State(): Db
      reads this
    {
      Db(users, order)
    }

    ghost predicate Valid()
      reads this
    {
      State().Valid()
    }

    /** An empty collection. */
    constructor ()
      ensures Valid() && State() == EMPTY
    {
      users := map[];
      order := [];
    }

    /** `userModel.create(doc)`; `id` is the `_id` the driver generates. */
    method Create(doc: NewUser, id: ObjectId) returns (result: Lookup)
      requires Valid()
      modifies this
      ensures Valid()
      ensures Write(result, State()) == Insert(old(State()), doc, id)
    {
      InsertKeepsValid(State(), doc, id);
      var built := BuildRecord(id, doc);
      if built.Err? {
        return Failed(SchemaViolation(built.error));
      }
      var rec := built.value;
      if id in users {
        return Failed(DuplicateKey(ID_INDEX, ToHexString(id)));
      }
      if EmailTaken(users, rec.email, None) {
        return Failed(DuplicateKey(EMAIL_INDEX, rec.email));
      }
      users := users[id := rec];
      order := order + [id];
      result := Found(rec);
    }

    /** `userModel.findByIdAndUpdate(idStr, patch, {new: true})`. */
    method FindByIdAndUpdate(idStr: string, patch: UserPatch) returns (result: Lookup)
      requires Valid()
      modifies this
      ensures Valid()
      ensures Write(result, State()) == UpdateById(old(State()), idStr, patch)
    {
      UpdateKeepsValid(State(), idStr, patch);
      var parsed := ParseObjectId(idStr);
      if parsed.None? {
        return Failed(CastError(idStr));
      }
      var id := parsed.value;
      if id !in users {
        return Missing;
      }
      var rec := ApplyPatch(users[id], patch);
      if EmailTaken(users, rec.email, Some(id)) {
        return Failed(DuplicateKey(EMAIL_INDEX, rec.email));
      }
      users := users[id := rec];
      result := Found(rec);
    }

    /** `userModel.findByIdAndDelete(idStr)`. */
    method FindByIdAndDelete(idStr: string) returns (result: Lookup)
      requires Valid()
      modifies this
      ensures Valid()
      ensures Write(result, State()) == DeleteById(old(State()), idStr)
    {
      DeleteKeepsValid(State(), idStr);
      var parsed := ParseObjectId(idStr);
      if parsed.None? {
        return Failed(CastError(idStr));
      }
      var id := parsed.value;
      if id !in users {
        return Missing;
      }
      result := Found(users[id]);
      users := users - {id};
      order := Remove(order, id);
    }
  }
}
