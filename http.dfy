/** What a handler sends back: one of the response shapes of the JSON API,
    or a `CustomError` handed to the error middleware. */
module Http {
  import opened Strings
  import opened UserModel

  /** An error with the HTTP status the error middleware answers with. */
  datatype CustomError = CustomError(message: string, status: nat)

  /** One entry of the express-validator result: message and parameter name. */
  datatype ValidationError = ValidationError(msg: string, param: string)

  function Describe(e: ValidationError): string
  {
    e.msg + ": " + e.param
  }

  /** The 400 message: the `"msg: param"` entries joined with `", "`, in order.
      It is empty exactly when there are no entries. */
  function FormatValidationErrors(errors: seq<ValidationError>): (message: string)
    ensures message == "" <==> errors == []
    ensures errors != [] ==> Describe(errors[0]) <= message
    ensures |errors| == 1 ==> message == Describe(errors[0])
    ensures |errors| >= 2 ==> message == Describe(errors[0]) + ", " + FormatValidationErrors(errors[1..])
  {
    var entries := Entries(errors);
    assert |errors| >= 1 ==> entries[1..] == Entries(errors[1..]);
    Join(entries, ", ")
  }

  /** The `"msg: param"` entry of each error, in order. */
  function Entries(errors: seq<ValidationError>): (entries: seq<string>)
    ensures |entries| == |errors|
    ensures forall i :: 0 <= i < |errors| ==> entries[i] == Describe(errors[i])
  {
    if errors == [] then [] else [Describe(errors[0])] + Entries(errors[1..])
  }

  /** A response body, or the error passed to `next`. */
  datatype Reply =
    | Users(users: seq<OutputUser>)
    | UserDoc(user: OutputUser)
    | UserMessage(message: string, user: OutputUser)
    | LoginMessage(message: string, user: OutputUser, token: string)
    | Message(message: string)
    | Failure(error: CustomError)

  const USER_NOT_FOUND := CustomError("User not found", 404)
  const UNAUTHORIZED := CustomError("Unauthorized", 401)
  const CREATION_FAILED := CustomError("User creation failed", 500)
  const BAD_CREDENTIALS := CustomError("Incorrect username/password", 403)
  const LOGIN_FAILED := CustomError("Login failed", 500)

  /** The 400 error for a non-empty validation result. */
  function ValidationFailure(errors: seq<ValidationError>): (e: CustomError)
    requires errors != []
    ensures e.status == 400 && e.message != ""
  {
    CustomError(FormatValidationErrors(errors), 400)
  }
}
