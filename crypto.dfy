/**
 * The cryptography the service calls into (bcryptjs and jsonwebtoken). Their
 * algorithms are foreign; the model keeps them as uninterpreted functions
 * passed in as values, and states as a predicate the laws the service relies on.
 */
module Crypto {
  import opened JsValues

  /**
   * `hash(password, salt)` is bcrypt's digest of `password`, where `salt`
   * stands for the random salt bcrypt draws for cost 6;
   * `compare(candidate, digest)` is bcrypt's check of a candidate password;
   * `sign(subject)` issues a JSON Web Token with an empty payload whose `sub`
   * claim (section 4.1.2 of RFC 7519) is `subject`, expiring after 24 hours;
   * `verify(token)` is `Some(sub)` when the signature checks against the
   * secret key and the token has not expired, and `None` otherwise; `sub` is
   * `Undefined` when the verified token carries no `sub` claim.
   */
  datatype Primitives = Primitives(
    hash: (string, string) -> string,
    compare: (string, string) -> bool,
    sign: string -> string,
    verify: string -> Option<Value>)

  /**
   * The laws the service depends on: a password matches its own digest, and a
   * token issued by `sign` verifies to its subject (within its 24 hours) and,
   * being three base64url segments, contains no space.
   */
  ghost predicate Sound(c: Primitives)
  {
    && (forall password, salt :: c.compare(password, c.hash(password, salt)))
    && (forall sub :: c.verify(c.sign(sub)) == Some(Str(sub)))
    && (forall sub :: ' ' !in c.sign(sub))
  }
}
