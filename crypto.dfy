/** The two libraries the handlers call and whose internals are not part of
    this model: bcrypt (hash with the process-wide salt, compare) and
    jsonwebtoken (sign with the process-wide secret, verify). They are passed
    to the handlers as function values; `Sound` states what the model
    assumes of them, and only the lemmas that need it require it. */
module Crypto {
  import opened Wrappers
  import opened UserModel

  /** The JWT payload `{id, role}`: the public id and the stored role. */
  datatype Claims = Claims(id: string, role: Role)

  datatype Primitives = Primitives(
    hash: string -> string,
    compare: (string, string) -> bool,
    sign: Claims -> string,
    verify: string -> Option<Claims>)

  /** The library assumptions: a password matches its own hash, and a hash is
      never empty (bcrypt's are 60 characters); a token
      signed by the process verifies to the claims it was signed with; a
      token is a non-empty string without spaces (three base64url parts
      joined by dots). */
  ghost predicate Sound(lib: Primitives)
  {
    && (forall p :: lib.compare(p, lib.hash(p)))
    && (forall p :: lib.hash(p) != "")
    && (forall c :: lib.verify(lib.sign(c)) == Some(c))
    && (forall c :: lib.sign(c) != "" && ' ' !in lib.sign(c))
  }
}
