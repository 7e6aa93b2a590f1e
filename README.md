# User accounts and access control of the IGDB auth server, in Dafny

This project models the account back end of the IGDB auth server: a Mongoose
`User` collection with an email/password login that issues JSON Web Tokens,
and the user route handlers (list, get, create, self-update, self-delete,
admin update, admin delete, token check and the liveness check). The handlers
are short, short-circuiting decisions over the collection. The model states
and proves what they return and what they do to the collection.

Layout, one module per file:

- `wrappers.dfy` (`Wrappers`): `Option` and `Result`.
- `strings.dfy` (`Strings`): the JavaScript `split` (one-character separator),
  `join` and `includes` the handlers use, with both round trips between split
  and join.
- `object_id.dfy` (`ObjectIds`): the twelve-byte `_id`, its public 24-digit hex
  form (the schema's `id` virtual), and the cast Mongoose applies to an id
  string.
- `user_model.dfy` (`UserModel`): the schema (fields, `required`, role enum and
  its default, default image, default games), the create body and the update
  body, and the single `OutputUser` projection that every handler returns.
- `crypto.dfy` (`Crypto`): bcrypt and jsonwebtoken as function values
  (`Primitives`) plus the assumptions made about them (`Sound`).
- `http.dfy` (`Http`): `CustomError`, the validation message and the reply
  shapes.
- `user_repository.dfy` (`UserRepository`): the collection as a value (`Db`:
  documents by `_id` plus natural order), what `findById`, `findOne`, `find`,
  `create`, `findByIdAndUpdate` and `findByIdAndDelete` do to it, and the
  mutable `UserStore` class whose methods perform the writes.
- `user_controller.dfy` (`UserController`): the user handlers. Read-only ones
  are functions. Each writing handler has a function giving its reply and the
  collection afterwards, and a method that runs it on a `UserStore`.
- `auth_controller.dfy` (`AuthController`): `loginPost`, which only reads.
- `user_properties.dfy`, `scenarios.dfy`: lemmas about single handlers and about
  sequences of handlers.

The bcrypt and JWT libraries are assumed, not verified. `Sound(lib)` states
the assumptions:

- a password matches its own hash, and a hash is never empty;
- a token signed by the process verifies to the claims it was signed with;
- a token is non-empty and contains no space.

Only the lemmas that need these assumptions require `Sound`.

Some behaviours of the code may be surprising. The model follows the code in
each case:

- Self-update (`userPut`) passes the body to `findByIdAndUpdate` unfiltered,
  so a caller can set their own `role` (`PutSuccess` states this).
- Create (`userPost`, mounted without authentication) stores a `role` given
  in the body as it is, so anyone can register an admin (`CreateOutcome`
  states this).
- A duplicate email on create is answered with the generic 500 "User creation
  failed", like every other failure of `create`, not with a distinct error.
- Updates run no schema validators (Mongoose's default for
  `findByIdAndUpdate`), so `required` and the role enum are not enforced on
  update. Among the values that the typed update body can carry, only the
  unique email index rejects an update. Values that fail the schema-type
  cast are not represented (see "## Left out").
- An update whose password is the empty string stores that empty string,
  unhashed, because `if (user.password)` treats it as absent.
- A malformed id string fails Mongoose's ObjectId cast. The handlers' catch
  turns this into a 500 carrying the cast error's message.
- In `checkToken`, a token that does not verify, or whose id fails the cast,
  throws outside any try/catch, so the code sends no reply and never answers
  401 for it. The model calls this `Unhandled`; `CheckTokenValidCases` states
  exactly when it happens.
- `userPut` picks the route id over the caller's own when the caller is an
  admin (`TargetId`), but `src/api/routes/userRoute.ts:26-29` mounts `userPut`
  only on `/`, where `req.params.id` is always undefined. Through the app's
  routes, self-update therefore always targets the caller's own record; the
  model keeps the route id as a parameter so that `userPutAsAdmin`, which
  repeats the same update for `/:id`, can be related to it
  (`AdminRoutesForAdmin`).
- `userPost` and `loginPost` check `validationResult(req)`, but no route
  mounts an express-validator chain:
  `.post(userPost)` at `src/api/routes/userRoute.ts:28` and
  `router.post('/login', loginPost)` at `src/api/routes/authRoute.ts:12` are
  mounted bare, and `src/app.ts` adds none. The validation result is therefore
  always empty, and the 400 branches (`userController.ts:78-85`,
  `authController.ts:24-31`) cannot be reached through the app's routes. The
  model keeps the validation result as an input. One consequence is that a
  login body without a password reaches `bcrypt.compare` and gets 500
  (`LoginPost`).

The admin check is modelled as written, `Includes(RoleName(role), "admin")`.
`AdminCheckIsEquality` proves that over the role enum this is the same as
`role == Admin`.

## Model

| member | source | states |
|---|---|---|
| `Strings.Split` | src/api/controllers/userController.ts:287 | `split(' ')` gives one more piece than there are separators, and no piece contains the separator |
| `Strings.Join` | src/api/controllers/userController.ts:79-82 | `join` of no pieces is the empty string, and the first piece is a prefix of the join |
| `Strings.JoinOfSplit` | src/api/controllers/userController.ts:287 | joining the pieces of a split with the separator gives back the header string |
| `Strings.Includes` | src/api/controllers/userController.ts:119 | `s.includes(sub)` holds exactly when `sub` occurs in `s` at some offset |
| `Strings.SplitOfJoin` | src/api/controllers/userController.ts:287 | splitting a join of separator-free pieces gives back the pieces |
| `ObjectIds.ToHex` | src/api/models/userModel.ts:41-43 | writes exactly `width` lower-case hex digits |
| `ObjectIds.ParseHex` | src/api/controllers/userController.ts:51-53 | succeeds exactly on strings that are all hex digits, and the value fits in that many digits |
| `ObjectIds.ToHexString` | src/api/models/userModel.ts:41-43 | the public id is 24 lower-case hex digits |
| `ObjectIds.ParseObjectId` | src/api/controllers/userController.ts:51-53 | the ObjectId cast accepts exactly the 24-hex-digit strings |
| `ObjectIds.ParseHexOfToHex` | src/api/models/userModel.ts:41-43 | reading back the written digits gives the number |
| `ObjectIds.ToHexOfParseHex` | src/api/models/userModel.ts:41-43 | writing out the value of a lower-case hex string gives the string |
| `ObjectIds.ParseOfHexString` | src/api/models/userModel.ts:41-43 | the public id casts back to the record's `_id` |
| `ObjectIds.HexStringInjective` | src/api/models/userModel.ts:41-43 | two records have the same public id exactly when they have the same `_id` |
| `ObjectIds.HexStringCanonical` | src/api/models/userModel.ts:41-43 | a lower-case string casts to an id exactly when it is that id's public form |
| `UserModel.ParseRole` | src/api/models/userModel.ts:17-21 | a string names an enum role exactly when it is `"user"` or `"admin"` |
| `UserModel.AdminCheckIsEquality` | src/api/controllers/userController.ts:198 | `role.includes('admin')` holds exactly when the role is `admin` |
| `UserModel.BuildRecord` | src/api/models/userModel.ts:7-36 | creation succeeds exactly when user_name, email and password are present and non-empty and the role is absent or in the enum; the record then has the given fields, role defaulting to `user`, image to the placeholder, games to `[]`, and is schema-valid |
| `UserModel.ApplyPatch` | src/api/controllers/userController.ts:127-129 | an update keeps the record's id; each field the body names (user name, email, role, password, image, games) takes the body's value, each field it does not name keeps the old one |
| `UserModel.ApplyPatchIdempotent` | src/api/controllers/userController.ts:127-129 | applying the same update twice equals applying it once |
| `UserModel.Project` | src/interfaces/User.ts:44-69 | the projection's id casts back to the record's `_id`; name and email are the record's |
| `UserModel.DeletedView` | src/api/controllers/userController.ts:168-177 | the delete reply names the deleted id, with image `''` and games `[]` |
| `UserModel.ProjectionForgetsExactlySecrets` | src/api/controllers/userController.ts:32 | two records project alike if and only if they differ at most in password and role |
| `Http.FormatValidationErrors` | src/api/controllers/userController.ts:79-83 | the joined message is empty exactly when there are no errors; one error gives its `"msg: param"` entry; more give the first entry, `", "` and the message of the rest, so every entry appears in order |
| `Http.ValidationFailure` | src/api/controllers/userController.ts:83 | a non-empty validation result gives status 400 with a non-empty message |
| `UserRepository.Remove` | src/api/controllers/userController.ts:162 | removing an id from the natural order keeps exactly the other ids and creates no repetition |
| `UserRepository.FindById` | src/api/controllers/userController.ts:51-53 | a malformed id is a cast error; a well-formed id finds its record or `null` exactly as it is stored or not |
| `UserRepository.FirstWithEmail` | src/api/controllers/authController.ts:35 | `findOne` yields a stored record with that email, and yields none only if no stored record has it |
| `UserRepository.FindOne` | src/api/controllers/authController.ts:35 | `findOne({email})` yields a stored record with that email, or yields none only when no stored record has it |
| `UserRepository.FindOneFindsOwner` | src/api/models/userModel.ts:15 | with unique emails, looking up a stored user's email finds that very user |
| `UserRepository.Find` | src/api/controllers/userController.ts:32 | `find()` yields only stored records and every record in the order; when every id in the order is stored, the i-th result is the record of the i-th id |
| `UserRepository.Insert` | src/api/controllers/userController.ts:91 | a create succeeds exactly when the schema accepts the document and neither `_id` nor email is taken; it then adds just that record at the end of the order; a failure changes nothing |
| `UserRepository.UpdateById` | src/api/controllers/userController.ts:127-129 | `findByIdAndUpdate` gives `null` exactly for a well-formed id with no record; on success it replaces only that record with the body applied; a failure changes nothing |
| `UserRepository.DeleteById` | src/api/controllers/userController.ts:162 | `findByIdAndDelete` removes exactly that record and returns it; a cast error or `null` changes nothing |
| `UserRepository.InsertKeepsValid` | src/api/models/userModel.ts:15 | a create keeps every record under its own id, emails unique and the order complete |
| `UserRepository.UpdateKeepsValid` | src/api/models/userModel.ts:15 | an update keeps emails unique and the order complete |
| `UserRepository.DeleteKeepsValid` | src/api/models/userModel.ts:15 | a delete keeps emails unique and the order complete |
| `UserRepository.UserStore.Create` | src/api/controllers/userController.ts:91 | the store's new state is what `Insert` says, and its invariant is kept |
| `UserRepository.UserStore.FindByIdAndUpdate` | src/api/controllers/userController.ts:127-129 | the store's new state is what `UpdateById` says, and its invariant is kept |
| `UserRepository.UserStore.FindByIdAndDelete` | src/api/controllers/userController.ts:162 | the store's new state is what `DeleteById` says, and its invariant is kept |
| `UserController.IsAdmin` | src/api/controllers/userController.ts:119 | the role check holds exactly for admins |
| `UserController.Check` | src/api/controllers/userController.ts:20-22 | the liveness check answers "Server up" and never fails |
| `UserController.ProjectAll` | src/api/controllers/userController.ts:32 | every listed record is projected, in order |
| `UserController.UserListGet` | src/api/controllers/userController.ts:30-37 | the list holds only projections of stored users and every stored user in the order; when every id in the order is stored, it has one entry per id and the i-th entry is the projection of the i-th record |
| `UserController.UserGet` | src/api/controllers/userController.ts:45-62 | 500 exactly for a malformed id; 404 "User not found" exactly for a well-formed id with no user; otherwise that user's projection |
| `UserController.PrepareNewUser` | src/api/controllers/userController.ts:87-89 | the body sent to create has the hashed password, and the role `user` when none or `''` was given; nothing else differs |
| `UserController.UserPostOutcome` | src/api/controllers/userController.ts:70-107 | validation errors give 400 with the joined message; every other failure is "User creation failed" 500; any failure leaves the collection unchanged |
| `UserController.TargetId` | src/api/controllers/userController.ts:117-121 | the updated id is the caller's own, unless the caller is an admin and a non-empty route id was given, in which case it is that id |
| `UserController.HashIfPresent` | src/api/controllers/userController.ts:123-126 | a non-empty password is replaced by its hash; an absent or empty one is left as it is; nothing else changes |
| `UserController.UpdateReply` | src/api/controllers/userController.ts:131-146 | `null` gives 404, a driver error gives 500, a result gives "User updated" with its projection |
| `UserController.DeleteReply` | src/api/controllers/userController.ts:163-179 | `null` gives 404, a driver error gives 500, a result gives "User deleted" with the blanked view |
| `UserController.UserPutOutcome` | src/api/controllers/userController.ts:115-150 | a failed update changes nothing; a success answers "User updated" |
| `UserController.UserDeleteOutcome` | src/api/controllers/userController.ts:158-183 | a failed delete changes nothing; a success answers "User deleted" |
| `UserController.UserDeleteAsAdminOutcome` | src/api/controllers/userController.ts:191-224 | a caller who is not an admin gets 401 "Unauthorized" and nothing changes; for an admin it is the self-delete redirected to the route id |
| `UserController.UserPutAsAdminOutcome` | src/api/controllers/userController.ts:238-242 | a caller who is not an admin gets 401 "Unauthorized" and nothing changes |
| `UserController.CheckToken` | src/api/controllers/userController.ts:280-309 | a missing or empty header gives 401; "Token valid" only when the second header piece verifies to claims whose id names a stored user, and that user's projection goes into `res.locals.user` |
| `UserController.UserPost` | src/api/controllers/userController.ts:70-107 | performs `UserPostOutcome` on the store and keeps its invariant |
| `UserController.UserPut` | src/api/controllers/userController.ts:115-150 | performs `UserPutOutcome` on the store and keeps its invariant |
| `UserController.UserDelete` | src/api/controllers/userController.ts:158-183 | performs `UserDeleteOutcome` on the store and keeps its invariant |
| `UserController.UserDeleteAsAdmin` | src/api/controllers/userController.ts:191-224 | performs `UserDeleteAsAdminOutcome` on the store and keeps its invariant |
| `UserController.UserPutAsAdmin` | src/api/controllers/userController.ts:232-272 | performs `UserPutAsAdminOutcome` on the store and keeps its invariant |
| `UserProperties.ListingIsComplete` | src/api/controllers/userController.ts:32 | in a valid collection the list has one entry per stored user and contains every stored user's projection |
| `UserProperties.ListingIgnoresSecrets` | src/api/controllers/userController.ts:32 | the list is the same for collections that differ only in passwords and roles, so it reveals neither |
| `UserProperties.GetIgnoresSecrets` | src/api/controllers/userController.ts:51-53 | get-by-id is the same for collections that differ only in passwords and roles |
| `UserProperties.CreateOutcome` | src/api/controllers/userController.ts:87-106 | a create succeeds exactly when validation passed, a password was sent, the schema accepts the document and id and email are free; it then stores `Hash(password)`, role `user` by default, the default image and `[]` games, and a non-empty given role as given (so `"admin"` creates an admin), and answers "User created" with the projection |
| `UserProperties.CreateDuplicateEmailFails` | src/api/controllers/userController.ts:104-106 | a create with an email already stored answers "User creation failed" 500 and changes nothing |
| `UserProperties.PutChangesOnlyTarget` | src/api/controllers/userController.ts:117-129 | self-update changes no record but the target, and keeps the set of ids and the order |
| `UserProperties.NonAdminPutTouchesOnlyOwnRecord` | src/api/controllers/userController.ts:117-121 | a caller who is not an admin changes no record but their own, whatever route id and body are sent |
| `UserProperties.PutSuccess` | src/api/controllers/userController.ts:123-146 | a successful update stores the body applied to the old record: a non-empty password re-hashed, no password keeps the old one, an empty one is stored as `''`, the role as given; it answers "User updated" with the new projection |
| `UserProperties.PutMissingTarget` | src/api/controllers/userController.ts:131-134 | 404 exactly when the target id is well-formed and names no user, and then nothing changes |
| `UserProperties.SelfDeleteRemovesExactlyOwn` | src/api/controllers/userController.ts:158-183 | self-delete removes exactly the caller's record and keeps every other entry; it answers with name and email, image `''` and games `[]`; 404 exactly when the caller's record is missing, and then nothing changes |
| `UserProperties.AdminRoutesRejectNonAdmin` | src/api/controllers/userController.ts:238-242 | admin update and admin delete answer a caller who is not an admin with 401 and no change, whatever the id, the body and the hash function |
| `UserProperties.AdminRoutesForAdmin` | src/api/controllers/userController.ts:238-256 | for an admin, admin update is self-update redirected to the route id, and both admin routes answer 404 with no change for a missing id |
| `UserProperties.AdminDeleteRemovesExactlyTarget` | src/api/controllers/userController.ts:197-219 | an admin's delete removes exactly the record the route id names and keeps every other one; it answers "User deleted" with name and email, image `''` and games `[]`; 404 exactly when the id names no user, and then nothing changes |
| `UserProperties.CheckTokenValidCases` | src/api/controllers/userController.ts:281-308 | "Token valid" exactly when the header's second piece is non-empty, verifies, and its id names a stored user, whose projection then goes into `res.locals.user`; no reply exactly when that piece does not verify or its id fails the cast, whatever the header |
| `UserProperties.CheckTokenUnauthorizedCases` | src/api/controllers/userController.ts:281-306 | `checkToken` answers 401 exactly when the header is missing, its second piece is missing, or the verified id names no stored user |
| `UserProperties.BearerHeaderSplits` | src/api/controllers/userController.ts:287 | the header `Bearer <token>` yields the token as its second piece |
| `UserProperties.SignedTokenOfStoredUserIsValid` | src/api/controllers/userController.ts:292-308 | a token signed for a stored user is accepted and resolves to that user's projection |
| `UserProperties.SignedTokenOfRemovedUserIsRejected` | src/api/controllers/userController.ts:300-306 | a token signed for a user who is no longer stored gets 401 |
| `AuthController.LoginPost` | src/api/controllers/authController.ts:16-67 | validation errors give 400; an unknown email gives the 403; a known email with no password gives 500 "Login failed", and only that case does; otherwise the reply is the 403 or a success; a success has "Login successful", the found user's projection and a token signed over that user's id and role |
| `AuthController.LoginSucceedsIff` | src/api/controllers/authController.ts:35-50 | login succeeds exactly when validation passed, a password was sent, and a stored user has the email and a hash that password matches; the reply then carries that user and a token over that user's id and role |
| `AuthController.CredentialFailuresIndistinguishable` | src/api/controllers/authController.ts:37-67 | an unknown email and a wrong password give the identical reply "Incorrect username/password" 403; a missing password gives that 403 for an unknown email but 500 "Login failed" for a known one |
| `Scenarios.CreatedUserCanLogIn` | src/api/controllers/authController.ts:35-64 | after a successful create, login with the same email and password succeeds and returns the created user |
| `Scenarios.LoginTokenIsValid` | src/api/controllers/authController.ts:47-50 | the token of a successful login is accepted by `checkToken` and resolves to the logged-in user |
| `Scenarios.ResolvedUserIsGettable` | src/api/controllers/userController.ts:300-307 | the user a token check resolves to is what get-by-id returns for its id |
| `Scenarios.RegistrationRoundTrip` | src/api/controllers/userController.ts:92-103 | create, login, token check and get-by-id all refer to the public form of the new `_id` |
| `Scenarios.TokenRejectedAfterSelfDelete` | src/api/controllers/userController.ts:158-183 | once the user has deleted their own record, their login token gets 401 |
| `Scenarios.TokenRejectedAfterAdminDelete` | src/api/controllers/userController.ts:191-224 | once an admin has deleted the user, the user's login token gets 401 |

## Left out

- Express routing, app wiring and the morgan, helmet and cors middleware: framework plumbing. Each handler is called directly with its inputs.
- The `authenticate` middleware is not part of this model. The acting identity (`id`, `role`) is a parameter, so the 401 for a request with no Authorization header on a protected route is not modelled.
- express-validator: no route mounts a validator chain, so at run time the validation result is always empty (see the surprising behaviours above). The result, a list of `(msg, param)` pairs, stays an input so that the 400 branches are modelled as written.
- The database connection, startup and environment loading (I/O). The process-wide bcrypt salt and JWT secret live inside the `Primitives` functions.
- How the driver generates `_id` (a clock and randomness): the new id is a parameter of create. A taken `_id` fails like a duplicate key.
- bcrypt and JWT internals (salting, cost factor 12, signatures, the `iat` claim): uninterpreted function values with the `Sound` assumptions. Errors thrown by hashing or signing are not modelled.
- `UserController.CheckToken`: when `jwt.verify` throws, or the cast of the claims' id throws, the code has no try/catch. The model returns `Unhandled` for these cases and does not model what Express then sends. The `!userFromToken` branch cannot be reached, because verification yields either claims or a throw.
- `AuthController.LoginPost`: the 500 "Login failed" reply is modelled for a body without a password whose email is stored, because `bcrypt.compare(undefined, hash)` rejects. The other ways to reach it, a database error or a library error, are not modelled: the in-memory collection never throws, and the libraries are assumed.
- `AuthController.LoginPost`: a body without an `email` is not represented, because the email is a string here. Such a body would query `findOne({email: undefined})`.
- `UserController.UserListGet`: the 500 reply for a driver error is not modelled, for the same reason.
- `ObjectIds.ParseObjectId`: the BSON library also accepts any 12-character string as twelve raw bytes. The model casts only 24-digit hex strings and treats 12-character strings as cast errors.
- `UserModel.UserPatch`: Mongoose runs no validators on `findByIdAndUpdate`, so the code would store an update whose role is a string outside the enum. The update body's role is the enum here, so such values are not represented.
- Fields not in the schema are stripped by Mongoose strict mode. They are not represented in the bodies.
- The `_id` and `__v` fields that Mongoose also serialises in the get and list replies are not modelled. `OutputUser.id` carries the same value as `_id`. `checkToken` selects `-__v` for `res.locals.user` and sends only `{message}`.
- Schema-type casting of body values on create and update: `create` and `findByIdAndUpdate` cast each value to its schema type. A value that does not cast, such as a `favourite_games` entry that is not an ObjectId, throws a CastError, which create answers with "User creation failed" 500 and update with a 500. The bodies here are typed (`favouriteGames: seq<ObjectId>`, strings for the string fields), so that failure cannot be expressed.
- `UserRepository.ErrorMessage`: the 500 message texts follow the shape of the Mongoose and MongoDB error messages but are not their exact text. For example, the database name in a duplicate-key message is not modelled.
- The order of `find()` is modelled as insertion order (the collection's natural order). MongoDB does not guarantee this order.
- `console.log` calls, request concurrency and async scheduling are not modelled.
