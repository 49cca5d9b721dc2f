/** `authMiddleware`: the request-level gate in front of every protected
    route. It reads the bearer token from the Authorization header, verifies
    it, and binds the caller's user id, or rejects with 401. */
module Gate {
  import opened Json
  import opened Text
  import opened Crypto

  const BearerPrefix := "Bearer "
  const MissingToken := "Token não fornecido"
  const InvalidToken := "Token inválido"

  /** Result of the gate: a 401 rejection with its message, or the bound id. */
  datatype Gate = Reject(msg: string) | Bound(userId: string)

  /** `req.headers.authorization?.replace('Bearer ', '')`: no header gives
      `undefined`; otherwise the FIRST occurrence of the case-sensitive text
      "Bearer ", wherever it stands, is cut out. */
  function ExtractToken(header: Option<string>): (t: Option<string>)
    ensures header.None? ==> t.None?
    ensures header.Some? ==> t == Some(ReplaceFirst(header.value, BearerPrefix, ""))
  {
    match header
    case None => None
    case Some(h) => Some(ReplaceFirst(h, BearerPrefix, ""))
  }

  /** `if (!token)`: an undefined or empty token is missing. */
  predicate Present(t: Option<string>) {
    t.Some? && t.value != ""
  }

  /** The whole gate, with `verify` standing for `jwt.verify` at the current
      time. The handler only ever runs in the `Bound` case, and the id it gets
      is the `userId` claim of a token that verified. */
  function Authenticate(header: Option<string>, verify: string -> Verdict): (g: Gate)
    ensures g == Reject(MissingToken) <==> !Present(ExtractToken(header))
    ensures g == Reject(InvalidToken) <==>
      Present(ExtractToken(header)) && !verify(ExtractToken(header).value).Valid?
    ensures g.Bound? <==> Present(ExtractToken(header)) && verify(ExtractToken(header).value).Valid?
    ensures g.Bound? ==> g.userId == verify(ExtractToken(header).value).claims.userId
    ensures g.Reject? ==> g.msg in {MissingToken, InvalidToken}
  {
    var token := ExtractToken(header);
    if !Present(token) then Reject(MissingToken)
    else match verify(token.value)
      case Valid(claims) => Bound(claims.userId)
      case _ => Reject(InvalidToken)
  }

  /** The verifier the gate uses at clock reading `now`. */
  function VerifierAt(s: Signer, now: nat): string -> Verdict {
    t => s.verify(t, now)
  }

  /** No header, an empty header, and a header that is exactly "Bearer "
      all give 401 "Token não fornecido", whatever the verifier. */
  lemma MissingHeaderRejected(verify: string -> Verdict)
    ensures Authenticate(None, verify) == Reject(MissingToken)
    ensures Authenticate(Some(""), verify) == Reject(MissingToken)
    ensures Authenticate(Some(BearerPrefix), verify) == Reject(MissingToken)
  {
    ReplaceLeadingOccurrence(BearerPrefix, "");
    assert BearerPrefix + "" == BearerPrefix;
    assert !OccursAt("", BearerPrefix, 0);
  }

  /** A well-formed header "Bearer <t>" hands exactly `t` to the verifier. */
  lemma BearerTokenExtracted(t: string)
    ensures ExtractToken(Some(BearerPrefix + t)) == Some(t)
  {
    ReplaceLeadingOccurrence(BearerPrefix, t);
  }

  /** The scheme name is matched case-sensitively and anywhere: a header
      without the exact text "Bearer " is passed to the verifier whole. */
  lemma HeaderWithoutSchemeVerbatim(h: string)
    requires forall j :: 0 <= j <= |h| ==> !OccursAt(h, BearerPrefix, j)
    ensures ExtractToken(Some(h)) == Some(h)
  {
    ReplaceWithoutOccurrence(h, BearerPrefix, "");
  }

  /** Every way verification fails (malformed, bad signature, expired) gives
      the same rejection: two verifiers that both refuse the token cannot be
      told apart by the response. */
  lemma FailuresCollapse(header: Option<string>, v1: string -> Verdict, v2: string -> Verdict)
    requires Present(ExtractToken(header))
    requires !v1(ExtractToken(header).value).Valid?
    requires !v2(ExtractToken(header).value).Valid?
    ensures Authenticate(header, v1) == Authenticate(header, v2) == Reject(InvalidToken)
  {
  }

  /** A token issued by a sound signer authenticates its user throughout its
      seven-day lifetime, and is rejected as invalid from its expiry on. */
  lemma {:induction false} IssuedTokenAuthenticates(s: Signer, u: string, iat: nat, now: nat)
    requires SignerSound(s)
    ensures now < iat + TokenLifetime ==>
      Authenticate(Some(BearerPrefix + s.sign(u, iat)), VerifierAt(s, now)) == Bound(u)
    ensures now >= iat + TokenLifetime ==>
      Authenticate(Some(BearerPrefix + s.sign(u, iat)), VerifierAt(s, now)) == Reject(InvalidToken)
  {
    var t := s.sign(u, iat);
    BearerTokenExtracted(t);
    assert t != "";
    assert VerifierAt(s, now)(t) == Expiry(u, iat, now);
  }
}
