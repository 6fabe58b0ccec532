/**
 * The session token service of jsonwebtoken as the routes use it:
 * `sign(payload, secret, { expiresIn: "1h" })` and `verify(token, secret)`.
 * The signature (RFC 7515 compact serialization) is foreign: it enters the
 * model as the two functions of a Codec, and Sound states the guarantees of
 * a signature scheme. The checks `verify` makes around it (a token must be
 * given, an `nbf` claim must not lie in the future and an `exp` claim,
 * section 4.1.4 of RFC 7519, must) are written out.
 */
module Jwt {
  import opened Wrappers
  import opened Ledger

  /** `expiresIn: "1h"`, in seconds. */
  const ExpiresInSeconds: nat := 3600

  /**
   * The decoded payload of a session token: `{ id, username, iat, exp }` as
   * login signs it. A payload signed elsewhere with the same secret may lack
   * the registered claims `exp` and `nbf` (sections 4.1.4 and 4.1.5 of
   * RFC 7519).
   */
  datatype Claims = Claims(id: ObjectId, username: string, iat: int, exp: Option<int>, nbf: Option<int>)

  /** jsonwebtoken's clock: `Math.floor(Date.now() / 1000)`. */
  function Seconds(clockMs: nat): nat {
    clockMs / 1000
  }

  /**
   * The payload `sign` builds for `{ id, username }` at time `clockMs`:
   * it adds `iat`, sets `exp` one hour later and sets no `nbf`.
   */
  function Issue(id: ObjectId, username: string, clockMs: nat): Claims
  {
    var iat := Seconds(clockMs);
    Claims(id, username, iat, Some(iat + ExpiresInSeconds), None)
  }

  /**
   * The time checks of `verify` pass: an `nbf` present is not after the
   * current second, and an `exp` present is after it. A missing claim is
   * not checked.
   */
  predicate Active(c: Claims, clockMs: nat) {
    (c.nbf.None? || c.nbf.value <= Seconds(clockMs)) &&
    (c.exp.None? || Seconds(clockMs) < c.exp.value)
  }

  /** The base64url alphabet and the `.` separator of compact serialization. */
  predicate IsCompactChar(ch: char) {
    ('A' <= ch <= 'Z') || ('a' <= ch <= 'z') || ('0' <= ch <= '9') ||
    ch == '-' || ch == '_' || ch == '.'
  }

  /** A non-empty string over the compact-serialization alphabet. */
  predicate IsCompact(t: string) {
    |t| > 0 && forall i :: 0 <= i < |t| ==> IsCompactChar(t[i])
  }

  /** The HMAC algorithms `verify` accepts for a string secret. */
  datatype Algorithm = HS256 | HS384 | HS512

  /**
   * How a payload is turned into a token: the algorithm, and which of the
   * many JSON and header serializations of the same payload is used.
   */
  datatype Form = Form(alg: Algorithm, layout: nat)

  /** What `sign(payload, secret, { expiresIn })` produces: HS256, its own layout. */
  const SignDefault: Form := Form(HS256, 0)

  /**
   * The signature scheme: `sign(claims, secret, form)` gives a token, and
   * `open(token, secret)` checks the signature and decodes the payload.
   */
  datatype Codec = Codec(sign: (Claims, string, Form) -> string, open: (string, string) -> Option<Claims>)

  /** `t` is the payload `c` signed under `key`, in some form. */
  ghost predicate SignedUnder(jwt: Codec, t: string, c: Claims, key: string) {
    exists form :: t == jwt.sign(c, key, form)
  }

  /**
   * What an HMAC signature scheme guarantees, in the symbolic model: tokens
   * are compact, a token signed in any form opens to its payload under the
   * same secret, and the only tokens that open are signatures of their
   * payload under that secret (a token with an altered payload or
   * signature does not open). Several tokens may open to one payload.
   */
  ghost predicate Sound(jwt: Codec) {
    (forall c, key, form :: IsCompact(jwt.sign(c, key, form))) &&
    (forall c, key, form :: jwt.open(jwt.sign(c, key, form), key) == Some(c)) &&
    (forall t, key :: jwt.open(t, key).Some? ==> SignedUnder(jwt, t, jwt.open(t, key).value, key))
  }

  /** The errors `verify` reports; the auth gate does not tell them apart. */
  datatype VerifyError = JwtMustBeProvided | InvalidSignature | NotActive | TokenExpired

  /**
   * `jwt.verify(token, secret)` at time `clockMs`: an empty token is
   * refused first, then the signature, then a payload whose `nbf` lies
   * after the current second, then one whose `exp` is not after it.
   */
  function Verify(jwt: Codec, token: string, key: string, clockMs: nat): (r: Result<Claims, VerifyError>)
    ensures r.Ok? ==> token != [] && jwt.open(token, key) == Some(r.value) && Active(r.value, clockMs)
    ensures token == [] ==> r == Err(JwtMustBeProvided)
  {
    if token == [] then Err(JwtMustBeProvided)
    else
      match jwt.open(token, key)
      case None => Err(InvalidSignature)
      case Some(c) =>
        if c.nbf.Some? && c.nbf.value > Seconds(clockMs) then Err(NotActive)
        else if c.exp.Some? && Seconds(clockMs) >= c.exp.value then Err(TokenExpired)
        else Ok(c)
  }

  /**
   * A token verifies to a payload exactly when it is that payload signed
   * under the same secret, in some form, and its time checks pass.
   */
  lemma VerifyIff(jwt: Codec, token: string, key: string, clockMs: nat, c: Claims)
    requires Sound(jwt)
    ensures Verify(jwt, token, key, clockMs) == Ok(c)
        <==> SignedUnder(jwt, token, c, key) && Active(c, clockMs)
  {
    if SignedUnder(jwt, token, c, key) {
      var form :| token == jwt.sign(c, key, form);
      assert IsCompact(jwt.sign(c, key, form));
    }
  }

  /**
   * A token issued at login for `{ id, username }` verifies to exactly that
   * identity during the hour after issue, and fails as expired afterwards.
   */
  lemma IssuedTokenLifetime(jwt: Codec, key: string, id: ObjectId, username: string, issuedMs: nat, nowMs: nat)
    requires Sound(jwt)
    ensures var c := Issue(id, username, issuedMs);
      Verify(jwt, jwt.sign(c, key, SignDefault), key, nowMs)
        == if Seconds(nowMs) < Seconds(issuedMs) + ExpiresInSeconds then Ok(c) else Err(TokenExpired)
  {
  }

  /**
   * A payload without `exp` or `nbf`, signed under the secret, verifies at
   * every time: nothing ever expires it.
   */
  lemma NoExpiryNeverExpires(jwt: Codec, key: string, c: Claims, form: Form, clockMs: nat)
    requires Sound(jwt)
    requires c.exp.None? && c.nbf.None?
    ensures Verify(jwt, jwt.sign(c, key, form), key, clockMs) == Ok(c)
  {
    VerifyIff(jwt, jwt.sign(c, key, form), key, clockMs, c);
  }

  /** A signed token is space-free, so it survives being put in a header. */
  lemma SignedTokenHasNoSpace(jwt: Codec, c: Claims, key: string, form: Form)
    requires Sound(jwt)
    ensures ' ' !in jwt.sign(c, key, form) && jwt.sign(c, key, form) != []
  {
  }
}
