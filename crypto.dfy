/** The two cryptographic collaborators, bcryptjs and jsonwebtoken, as
    abstract functions with the one law each that the handlers rely on.
    Salting, the bcrypt cost factor, constant-time comparison and the
    signature scheme are inside these functions and are not modelled. */
module Crypto {
  import opened Json

  /** `expiresIn: '7d'`, in seconds of the integer clock. */
  const TokenLifetime: nat := 7 * 24 * 60 * 60

  /** The claim set a verified token yields: the signed `userId`, the issue
      time `iat` and the expiry `exp` (the `exp` claim of section 4.1.4 of
      RFC 7519). */
  datatype Claims = Claims(userId: string, iat: nat, exp: nat)

  /** Outcome of `jwt.verify`: the claims, or one of the ways it throws. */
  datatype Verdict = Valid(claims: Claims) | Malformed | BadSignature | Expired

  /** `bcrypt.hash(p, 12)` and `bcrypt.compare(p, digest)`. */
  datatype Hasher = Hasher(hash: string -> string, compare: (string, string) -> bool)

  /** The law of the hasher: a password matches its own digest. */
  ghost predicate HasherSound(h: Hasher) {
    forall p :: h.compare(p, h.hash(p))
  }

  /** `jwt.sign({ userId }, secret, { expiresIn: '7d' })` at issue time `iat`,
      and `jwt.verify(token, secret)` at clock reading `now`. */
  datatype Signer = Signer(sign: (string, nat) -> string, verify: (string, nat) -> Verdict)

  /** What verifying a token signed for `u` at `iat` yields at `now`:
      jsonwebtoken rejects a token once `now >= exp`. */
  function Expiry(u: string, iat: nat, now: nat): (v: Verdict)
    ensures v.Valid? <==> now < iat + TokenLifetime
    ensures v.Valid? ==> v.claims == Claims(u, iat, iat + TokenLifetime)
    ensures !v.Valid? ==> v == Expired
  {
    if now < iat + TokenLifetime then Valid(Claims(u, iat, iat + TokenLifetime)) else Expired
  }

  /** The law of the signer: tokens are never empty, and a token it signed
      verifies to the signed user until it expires. */
  ghost predicate SignerSound(s: Signer) {
    && (forall u, iat :: s.sign(u, iat) != "")
    && (forall u, iat, now :: s.verify(s.sign(u, iat), now) == Expiry(u, iat, now))
  }

  // ---- The two laws can be met: concrete collaborators that satisfy them.

  /** A digest that is the password itself, compared by equality. */
  lemma HasherLawSatisfiable()
    ensures exists h :: HasherSound(h)
  {
    var h := Hasher(p => p, (p: string, d: string) => p == d);
    assert forall p :: h.compare(p, h.hash(p));
    assert HasherSound(h);
  }

  function Unary(n: nat): (r: string)
    ensures |r| == n
    ensures forall i :: 0 <= i < n ==> r[i] == '1'
  {
    if n == 0 then "" else "1" + Unary(n - 1)
  }

  function LeadingOnes(t: string): (k: nat)
    ensures k <= |t|
  {
    if t != [] && t[0] == '1' then 1 + LeadingOnes(t[1..]) else 0
  }

  lemma {:induction false} LeadingOnesOfUnary(n: nat, rest: string)
    requires rest == [] || rest[0] != '1'
    ensures LeadingOnes(Unary(n) + rest) == n
  {
    if n > 0 {
      assert (Unary(n) + rest)[1..] == Unary(n - 1) + rest;
      LeadingOnesOfUnary(n - 1, rest);
    } else {
      assert Unary(n) + rest == rest;
    }
  }

  /** A token spelling out its claims: `iat` in unary, a dot, then the user. */
  function Encode(u: string, iat: nat): string {
    Unary(iat) + "." + u
  }

  function Decode(t: string): Option<(string, nat)> {
    var k := LeadingOnes(t);
    if k < |t| && t[k] == '.' then Some((t[k + 1..], k)) else None
  }

  lemma DecodeEncode(u: string, iat: nat)
    ensures Decode(Encode(u, iat)) == Some((u, iat))
  {
    LeadingOnesOfUnary(iat, "." + u);
    assert Unary(iat) + "." + u == Unary(iat) + ("." + u);
    assert Encode(u, iat)[iat + 1..] == u;
  }

  function VerifyEncoded(t: string, now: nat): Verdict {
    match Decode(t)
    case None => Malformed
    case Some((u, iat)) => Expiry(u, iat, now)
  }

  lemma SignerLawSatisfiable()
    ensures exists s :: SignerSound(s)
  {
    var s := Signer(Encode, VerifyEncoded);
    forall u, iat, now ensures s.verify(s.sign(u, iat), now) == Expiry(u, iat, now) {
      DecodeEncode(u, iat);
    }
    assert SignerSound(s);
  }
}
