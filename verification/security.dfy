/** Password hashing and token encoding, which the model does not look inside:
    they are supplied as functions. */
module Security {
  import opened Common
  import opened Models

  /** The `sub` claim as `int(sub)` sees it: an int, or text that makes it raise. */
  datatype Sub = IntSub(n: int) | NonIntSub

  /** The claims of a decoded token. */
  datatype Payload = Payload(sub: Option<Sub>, exp: Option<int>)

  /** `hash_pass`, `verify_password`, `create_access_token` (user id and
      expiry time) and `jwt.decode` (`None` when it raises `JWTError`). */
  datatype Crypto = Crypto(
    hash: string -> string,
    verify: (string, string) -> bool,
    encode: (Id, int) -> string,
    decode: string -> Option<Payload>)

  /** A password verifies against its own hash. */
  ghost predicate HashSound(c: Crypto)
  {
    forall p :: c.verify(p, c.hash(p))
  }

  /** A token decodes to the claims it was created with. */
  ghost predicate TokensDecode(c: Crypto)
  {
    forall id: Id, exp: int :: c.decode(c.encode(id, exp)) == Some(Payload(Some(IntSub(id)), Some(exp)))
  }

  /** Access tokens expire this many seconds after they are issued. */
  const AccessTokenLifetime: int := 30 * 60
}
