/**
 * The decision of the `authenticateToken` middleware: answer 401 when no
 * token can be extracted, 403 when the token does not verify, and otherwise
 * pass the decoded identity on to the protected handler.
 */
module AuthGate {
  import opened Wrappers
  import opened AuthHeader
  import opened Jwt

  const Unauthorized: nat := 401
  const Forbidden: nat := 403

  /** Either a terminal status, or the identity the handler runs with. */
  datatype GateOutcome = Reject(status: nat) | Next(user: Claims)

  /** The middleware's decision for a header at time `clockMs`. */
  function Gate(jwt: Codec, key: string, authorization: Option<string>, clockMs: nat): GateOutcome
  {
    match ExtractToken(authorization)
    case None => Reject(Unauthorized)
    case Some(token) =>
      match Verify(jwt, token, key, clockMs)
      case Err(_) => Reject(Forbidden)
      case Ok(user) => Next(user)
  }

  /**
   * 401 exactly when the header is absent, or non-empty without a space; the
   * answer then does not depend on the token service at all, so
   * verification is never reached.
   */
  lemma UnauthorizedIff(jwt: Codec, other: Codec, key: string, authorization: Option<string>, clockMs: nat)
    ensures Gate(jwt, key, authorization, clockMs) == Reject(Unauthorized)
        <==> authorization.None? || (authorization.value != [] && Space !in authorization.value)
    ensures Gate(jwt, key, authorization, clockMs) == Reject(Unauthorized)
        ==> Gate(other, key, authorization, clockMs) == Reject(Unauthorized)
  {
    NoTokenIff(authorization);
  }

  /**
   * With a sound token service, a header `<scheme> <token> ...` is answered
   * 403 exactly when the token is no payload signed under the secret whose
   * time checks pass now: forged, altered, expired or not yet active tokens
   * are all refused alike.
   */
  lemma ForbiddenIff(jwt: Codec, key: string, scheme: string, token: string, rest: string, clockMs: nat)
    requires Jwt.Sound(jwt)
    requires Space !in scheme && Space !in token
    requires rest == [] || rest[0] == Space
    ensures Gate(jwt, key, Some(scheme + [Space] + token + rest), clockMs) == Reject(Forbidden)
        <==> forall c :: !(SignedUnder(jwt, token, c, key) && Active(c, clockMs))
  {
    SchemeTokenRest(scheme, token, rest);
    forall c {
      VerifyIff(jwt, token, key, clockMs, c);
    }
  }

  /**
   * An empty header, or one such as `"Bearer "` whose second piece is empty,
   * reaches verification and is answered 403, never 401, whatever the
   * token service.
   */
  lemma EmptyTokenForbidden(jwt: Codec, key: string, scheme: string, clockMs: nat)
    requires Space !in scheme
    ensures Gate(jwt, key, Some([]), clockMs) == Reject(Forbidden)
    ensures Gate(jwt, key, Some(scheme + [Space]), clockMs) == Reject(Forbidden)
  {
    SchemeTokenRest(scheme, [], []);
    assert scheme + [Space] + [] + [] == scheme + [Space];
  }

  /**
   * With a sound token service, a header `<scheme> <token> ...` passes the
   * gate with an identity exactly when the token is that identity signed
   * under the server's secret, in some form, and its time checks pass.
   */
  lemma PassesIff(jwt: Codec, key: string, scheme: string, token: string, rest: string, clockMs: nat, user: Claims)
    requires Jwt.Sound(jwt)
    requires Space !in scheme && Space !in token
    requires rest == [] || rest[0] == Space
    ensures Gate(jwt, key, Some(scheme + [Space] + token + rest), clockMs) == Next(user)
        <==> SignedUnder(jwt, token, user, key) && Active(user, clockMs)
  {
    SchemeTokenRest(scheme, token, rest);
    VerifyIff(jwt, token, key, clockMs, user);
  }

  /**
   * A token issued at login, presented as `Bearer <token>`, passes the gate
   * with the identity it was issued for during its hour of validity, and is
   * answered 403 afterwards.
   */
  lemma BearerIssuedToken(jwt: Codec, key: string, id: Ledger.ObjectId, username: string, issuedMs: nat, nowMs: nat)
    requires Jwt.Sound(jwt)
    ensures var c := Issue(id, username, issuedMs);
      Gate(jwt, key, Some("Bearer " + jwt.sign(c, key, SignDefault)), nowMs)
        == if Seconds(nowMs) < Seconds(issuedMs) + ExpiresInSeconds then Next(c) else Reject(Forbidden)
  {
    var c := Issue(id, username, issuedMs);
    var token := jwt.sign(c, key, SignDefault);
    SignedTokenHasNoSpace(jwt, c, key, SignDefault);
    SchemeTokenRest("Bearer", token, []);
    assert "Bearer" + [Space] + token + [] == "Bearer " + token;
    IssuedTokenLifetime(jwt, key, id, username, issuedMs, nowMs);
  }
}
