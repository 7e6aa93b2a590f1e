/** The user schema: the fields of a stored user, the constraints and defaults
    the schema declares, the body a client sends, and the public projection
    (`OutputUser`) that every handler returns. */
module UserModel {
  import opened Wrappers
  import opened Strings
  import opened ObjectIds

  /** The `role` enum of the schema. */
  datatype Role = User | Admin

  /** The string the enum value is stored as. */
  function RoleName(r: Role): string
  {
    match r
    case User => "user"
    case Admin => "admin"
  }

  /** The enum value a string names, if any. */
  function ParseRole(s: string): (r: Option<Role>)
    ensures forall role :: r == Some(role) <==> RoleName(role) == s
  {
    if s == "user" then Some(User)
    else if s == "admin" then Some(Admin)
    else None
  }

  /** Over the two enum values, the code's containment check
      `role.includes('admin')` is the same as equality with `admin`. */
  lemma AdminCheckIsEquality(r: Role)
    ensures Includes(RoleName(r), "admin") <==> r == Admin
  {
    var admin := "admin";
    assert admin <= "admin";
    if r == User {
      var u := "user";
      assert !(admin <= u) && u[1..] == "ser";
      assert !(admin <= "ser") && "ser"[1..] == "er";
      assert !(admin <= "er") && "er"[1..] == "r";
      assert !(admin <= "r") && "r"[1..] == "";
      assert !Includes("", admin);
    }
  }

  const DEFAULT_ROLE: Role := User

  /** The placeholder image of a user who set none. */
  const DEFAULT_PROFILE_IMAGE: string := "https://i.imgur.com/2WZtVXx.png"

  /** A stored user document. `favouriteGames` holds opaque references to Game
      documents. `password` holds whatever string was stored, which the
      handlers make a hash. */
  datatype UserRecord = UserRecord(
    id: ObjectId,
    userName: string,
    email: string,
    role: Role,
    password: string,
    profileImage: string,
    favouriteGames: seq<ObjectId>)

  /** A path declared `required: true`: present and, for a string, non-empty. */
  predicate Required(v: Option<string>)
  {
    v.Some? && v.value != ""
  }

  /** What the schema demands of a document it creates. */
  predicate SchemaValid(r: UserRecord)
  {
    r.userName != "" && r.email != "" && r.password != ""
  }

  /** No two stored users share an email (the schema's unique index). */
  ghost predicate EmailsUnique(users: map<ObjectId, UserRecord>)
  {
    forall a, b :: a in users && b in users && users[a].email == users[b].email ==> a == b
  }

  /** A request body for creating a user; every field may be missing. */
  datatype NewUser = NewUser(
    userName: Option<string>,
    email: Option<string>,
    password: Option<string>,
    role: Option<string>,
    profileImage: Option<string>,
    favouriteGames: Option<seq<ObjectId>>)

  /** The document the schema builds from a creation body: defaults filled in,
      or the first path (in schema order) that fails validation. */
  function BuildRecord(id: ObjectId, doc: NewUser): (r: Result<UserRecord, string>)
    ensures r.Ok? <==>
      && Required(doc.userName) && Required(doc.email) && Required(doc.password)
      && (doc.role.None? || ParseRole(doc.role.value).Some?)
    ensures r.Ok? ==>
      && SchemaValid(r.value)
      && r.value.id == id
      && Some(r.value.userName) == doc.userName
      && Some(r.value.email) == doc.email
      && Some(r.value.password) == doc.password
      && (doc.role.None? ==> r.value.role == DEFAULT_ROLE)
      && (doc.role.Some? ==> RoleName(r.value.role) == doc.role.value)
      && r.value.profileImage == (if doc.profileImage.Some? then doc.profileImage.value else DEFAULT_PROFILE_IMAGE)
      && r.value.favouriteGames == (if doc.favouriteGames.Some? then doc.favouriteGames.value else [])
  {
    if !Required(doc.userName) then Err("user_name")
    else if !Required(doc.email) then Err("email")
    else if doc.role.Some? && ParseRole(doc.role.value).None? then Err("role")
    else if !Required(doc.password) then Err("password")
    else
      var role := if doc.role.Some? then ParseRole(doc.role.value).value else DEFAULT_ROLE;
      Ok(UserRecord(
        id, doc.userName.value, doc.email.value, role, doc.password.value,
        if doc.profileImage.Some? then doc.profileImage.value else DEFAULT_PROFILE_IMAGE,
        if doc.favouriteGames.Some? then doc.favouriteGames.value else []))
  }

  /** A request body for updating a user: the fields it names are set as given. */
  datatype UserPatch = UserPatch(
    userName: Option<string>,
    email: Option<string>,
    password: Option<string>,
    role: Option<Role>,
    profileImage: Option<string>,
    favouriteGames: Option<seq<ObjectId>>)

  function Pick<T>(v: Option<T>, current: T): T
  {
    if v.Some? then v.value else current
  }

  /** The document after an update with `p`: each field the body names is
      replaced, the others and the id are kept. No validator runs. */
  function ApplyPatch(r: UserRecord, p: UserPatch): (u: UserRecord)
    ensures u.id == r.id
    ensures p.userName.Some? ==> u.userName == p.userName.value
    ensures p.userName.None? ==> u.userName == r.userName
    ensures p.email.Some? ==> u.email == p.email.value
    ensures p.email.None? ==> u.email == r.email
    ensures p.role.Some? ==> u.role == p.role.value
    ensures p.role.None? ==> u.role == r.role
    ensures p.password.Some? ==> u.password == p.password.value
    ensures p.password.None? ==> u.password == r.password
    ensures p.profileImage.Some? ==> u.profileImage == p.profileImage.value
    ensures p.profileImage.None? ==> u.profileImage == r.profileImage
    ensures p.favouriteGames.Some? ==> u.favouriteGames == p.favouriteGames.value
    ensures p.favouriteGames.None? ==> u.favouriteGames == r.favouriteGames
  {
    UserRecord(
      r.id,
      Pick(p.userName, r.userName),
      Pick(p.email, r.email),
      Pick(p.role, r.role),
      Pick(p.password, r.password),
      Pick(p.profileImage, r.profileImage),
      Pick(p.favouriteGames, r.favouriteGames))
  }

  /** Applying the same update twice is the same as applying it once. */
  lemma ApplyPatchIdempotent(r: UserRecord, p: UserPatch)
    ensures ApplyPatch(ApplyPatch(r, p), p) == ApplyPatch(r, p)
  {
  }

  /** `OutputUser`: the public view of a user. It has no password and no role. */
  datatype OutputUser = OutputUser(
    id: string,
    userName: string,
    email: string,
    favouriteGames: seq<ObjectId>,
    profileImage: string)

  /** The projection every handler returns for a found or updated user. */
  function Project(r: UserRecord): (o: OutputUser)
    ensures ParseObjectId(o.id) == Some(r.id)
    ensures o.userName == r.userName && o.email == r.email
  {
    ParseOfHexString(r.id);
    OutputUser(ToHexString(r.id), r.userName, r.email, r.favouriteGames, r.profileImage)
  }

  /** The view the two delete handlers return: image and games blanked. */
  function DeletedView(r: UserRecord): (o: OutputUser)
    ensures ParseObjectId(o.id) == Some(r.id)
    ensures o.profileImage == "" && o.favouriteGames == []
  {
    Project(r).(profileImage := "", favouriteGames := [])
  }

  /** `a` and `b` are equal except, perhaps, in password and role. */
  predicate SameExceptSecrets(a: UserRecord, b: UserRecord)
  {
    a.(password := b.password, role := b.role) == b
  }

  /** The projection forgets exactly the password and the role: two records
      project alike if and only if they differ at most in those two fields. */
  lemma ProjectionForgetsExactlySecrets(a: UserRecord, b: UserRecord)
    ensures Project(a) == Project(b) <==> SameExceptSecrets(a, b)
  {
    if Project(a) == Project(b) {
      HexStringInjective(a.id, b.id);
    }
  }
}
