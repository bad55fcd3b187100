/**
 * The token payloads of `src/lib/jwt.ts`. Signing and verification belong to
 * `hono/jwt` and are oracles here; the payloads are built from the clock reading
 * `nowMs` (milliseconds, as `Date.now()`) and, for login, a random `jti`.
 */
module Jwt {
  import opened Wrappers

  /** A JWT payload. A payload returned by verification may lack any member. */
  datatype Claims = Claims(
    sub: Option<string>,
    iss: Option<string>,
    aud: Option<string>,
    iat: Option<int>,
    nbf: Option<int>,
    exp: Option<int>,
    jti: Option<string>)

  const Issuer := "Stage Locker API"
  const Audience := "Stage Locker Client"

  /** Six months of thirty days, in seconds. */
  const LoginLifetime := 60 * 60 * 24 * 30 * 6
  /** Fifteen minutes, in seconds. */
  const VerificationLifetime := 60 * 15

  /** `Math.floor(nowMs / 1000)`: the second `nowMs` falls in. */
  function EpochSeconds(nowMs: int): (s: int)
    ensures s * 1000 <= nowMs < s * 1000 + 1000
  {
    nowMs / 1000
  }

  /** `generateLoginJWT`: issued, valid from and expiring in whole seconds. */
  function LoginClaims(sub: string, nowMs: int, jti: string): (c: Claims)
    ensures c.sub == Some(sub) && c.jti == Some(jti)
    ensures c.iss == Some(Issuer) && c.aud == Some(Audience)
    ensures c.iat.Some? && c.nbf == c.iat && c.exp.Some?
    ensures c.iat.value * 1000 <= nowMs < c.iat.value * 1000 + 1000
    ensures c.exp.value - c.iat.value == 15552000
  {
    var now := EpochSeconds(nowMs);
    Claims(Some(sub), Some(Issuer), Some(Audience), Some(now), Some(now), Some(now + LoginLifetime), Some(jti))
  }

  /** `generateUserVerificationJWT`, used for both verification and reset tokens. */
  function VerificationClaims(sub: string, nowMs: int): (c: Claims)
    ensures c.sub == Some(sub)
    ensures c.iss.None? && c.aud.None? && c.nbf.None? && c.jti.None?
    ensures c.iat.Some? && c.exp.Some?
    ensures c.iat.value * 1000 <= nowMs < c.iat.value * 1000 + 1000
    ensures c.exp.value - c.iat.value == 900
  {
    var now := EpochSeconds(nowMs);
    Claims(Some(sub), None, None, Some(now), None, Some(now + VerificationLifetime), None)
  }

  /** Both kinds expire after they are issued, and a login token outlives a
      verification token issued at the same moment. */
  lemma LifetimesOrdered(sub: string, nowMs: int, jti: string)
    ensures LoginClaims(sub, nowMs, jti).exp.value > LoginClaims(sub, nowMs, jti).iat.value
    ensures VerificationClaims(sub, nowMs).exp.value > VerificationClaims(sub, nowMs).iat.value
    ensures LoginClaims(sub, nowMs, jti).iat == VerificationClaims(sub, nowMs).iat
    ensures LoginClaims(sub, nowMs, jti).exp.value > VerificationClaims(sub, nowMs).exp.value
  {
  }

  /** The errors `hono/jwt`'s `verify` throws. */
  datatype JwtError = Invalid | SignatureMismatched | Expired | NotBefore | IssuedAt

  /** `verify(token, secret)` at the clock reading `nowMs`: the payload, or the error it throws. */
  type Verifier = (string, int) -> Result<Claims, JwtError>

  /** `verifyJWT`: the payload when verification succeeds, `null` for every error. */
  function VerifyJwt(verify: Verifier, token: string, nowMs: int): (r: Option<Claims>)
    ensures r.None? <==> verify(token, nowMs).Failure?
    ensures r.Some? ==> r.value == verify(token, nowMs).value
  {
    match verify(token, nowMs)
    case Success(payload) => Some(payload)
    case Failure(_) => None
  }

  /** `sign(payload, secret)`: the compact token for a payload. */
  type Signer = Claims -> string

  /** A compact JWT embeds its encoded payload, so distinct payloads give distinct tokens. */
  ghost predicate SignerInjective(sign: Signer) {
    forall c, d :: sign(c) == sign(d) ==> c == d
  }
}
