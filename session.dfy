/**
 * The `authenticateToken` middleware: it takes the second space-separated word
 * of the `Authorization` header as the session token, answers 401 when there is
 * none, 403 when `jwt.verify` refuses it, and otherwise hands the token's
 * payload to the route as the caller's identity.
 */
module Session {
  import opened Wrappers
  import opened Text
  import opened Jwt

  datatype AuthOutcome = MissingToken | InvalidSession | Authenticated(user: Claims)

  /** `authHeader && authHeader.split(' ')[1]`, with the empty string (falsy) counted as no token. */
  function BearerToken(header: Option<string>): (t: Option<string>)
    ensures t.Some? ==> t.value != "" && ' ' !in t.value
  {
    match header
    case None => None
    case Some(h) =>
      var words := Split(h, ' ');
      if |words| < 2 || words[1] == "" then None else Some(words[1])
  }

  function Authenticate(header: Option<string>, secret: string, nowMs: nat): (r: AuthOutcome)
    ensures r.MissingToken? <==> BearerToken(header).None?
    ensures r.Authenticated? ==> Verify(BearerToken(header).value, secret, nowMs) == Valid(r.user)
    ensures r.InvalidSession? ==> !Verify(BearerToken(header).value, secret, nowMs).Valid?
  {
    match BearerToken(header)
    case None => MissingToken
    case Some(token) =>
      match Verify(token, secret, nowMs)
      case Valid(c) => Authenticated(c)
      case _ => InvalidSession
  }

  /** Whatever the first word (the scheme is never checked), a space-free token after it is the bearer token. */
  lemma {:induction false} BearerTokenOf(scheme: string, token: string)
    requires ' ' !in scheme && ' ' !in token && token != ""
    ensures BearerToken(Some(scheme + " " + token)) == Some(token)
  {
    assert scheme + " " + token == scheme + [' '] + token;
    SplitCons(scheme, ' ', token);
    SplitNone(token, ' ');
  }

  /** A header without a space, or with nothing after its first space, carries no token, whatever the secret and the clock. */
  lemma {:induction false} NoSecondWord(h: string, secret: string, nowMs: nat)
    requires ' ' !in h
    ensures BearerToken(Some(h)) == None && Authenticate(Some(h), secret, nowMs) == MissingToken
    ensures BearerToken(Some(h + " ")) == None && Authenticate(Some(h + " "), secret, nowMs) == MissingToken
  {
    SplitNone(h, ' ');
    assert h + " " == h + [' '] + "";
    SplitCons(h, ' ', "");
  }

  /**
   * A session token sent as `Bearer <token>` authenticates as exactly its
   * claims while the clock is before its expiry second, and is refused with
   * 403 (never 401) from then on.
   */
  lemma {:induction false} SignedTokenAuthenticates(c: Claims, secret: string, nowMs: nat)
    ensures Authenticate(Some("Bearer " + Sign(c, secret)), secret, nowMs)
      == if nowMs / 1000 < c.exp then Authenticated(c) else InvalidSession
  {
    SignSegments(c, secret);
    assert |Sign(c, secret)| > 0;
    assert "Bearer " + Sign(c, secret) == "Bearer" + " " + Sign(c, secret);
    BearerTokenOf("Bearer", Sign(c, secret));
    VerifySign(c, secret, nowMs);
  }

  /** The session opened at login lasts exactly 24 hours, counted in whole seconds. */
  lemma SessionLifetime(id: nat, email: string, secret: string, loginMs: nat, nowMs: nat)
    ensures Authenticate(Some("Bearer " + Sign(Issue(id, email, loginMs), secret)), secret, nowMs)
      == if nowMs / 1000 < loginMs / 1000 + 86400 then Authenticated(Issue(id, email, loginMs)) else InvalidSession
  {
    SignedTokenAuthenticates(Issue(id, email, loginMs), secret, nowMs);
  }

  /** A token signed under another secret is refused with 403. */
  lemma ForeignTokenRefused(c: Claims, signer: string, secret: string, nowMs: nat)
    requires signer != secret
    ensures Authenticate(Some("Bearer " + Sign(c, signer)), secret, nowMs) == InvalidSession
  {
    SignSegments(c, signer);
    assert |Sign(c, signer)| > 0;
    assert "Bearer " + Sign(c, signer) == "Bearer" + " " + Sign(c, signer);
    BearerTokenOf("Bearer", Sign(c, signer));
    ForeignSecretRejected(c, signer, secret, nowMs);
  }
}
