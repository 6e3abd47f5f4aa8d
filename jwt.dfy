/**
 * Session tokens (src/utils/jwt.js). Signing and verification belong to the
 * JWT library and are parameters here: `sign` yields the compact token or
 * nothing when the library throws, `verify` yields the decoded claims or
 * one of the library's failure causes. The model fixes what this module
 * adds around them: the claims it signs, the fixed lifetime, and the one
 * error every failed verification becomes.
 */
module Jwt {
  import opened Base
  import opened Users

  /** A decoded token payload. */
  datatype Claims =
    /** Signed by src/utils/jwt.js. */
    | UserClaims(id: UserId, email: string, username: string, isPro: bool)
    /** Signed by the helper in src/controllers/auth.controller.js. */
    | LegacyClaims(userId: UserId, email: string)

  /** Why the library rejected a token. */
  datatype JwtFailure = Malformed | BadSignature | Expired | NotYetValid

  /**
   * `jwt.sign(payload, secret, { expiresIn })` at an instant: the library
   * stamps `iat`, and `exp` from it, so tokens signed at different instants
   * differ. The secret is fixed at start-up.
   */
  type Signer = (Claims, string, Millis) -> Option<string>

  /** `jwt.verify(token, secret)` at the instant it runs, the secret fixed. */
  type Verifier = (string, Millis) -> Result<Claims, JwtFailure>

  /** The lifetime every session token is signed with. */
  const ExpiresIn: string := "7d"
  /** "7d" in seconds, the unit of the `iat` and `exp` claims. */
  const LifetimeSeconds: int := 604_800
  const InvalidToken: string := "Invalid or expired token"

  /** `isPro` of a decoded payload as JavaScript reads it: absent is false. */
  function IsPro(c: Claims): (b: bool)
    ensures b <==> c.UserClaims? && c.isPro
  {
    match c
    case UserClaims(_, _, _, isPro) => isPro
    case LegacyClaims(_, _) => false
  }

  /** The payload `generateToken` signs for a user. */
  function Payload(u: User): (c: Claims)
    ensures c.UserClaims?
    ensures c.id == u.id && c.email == u.email && c.username == u.username
    ensures IsPro(c) == u.isPro
  {
    UserClaims(u.id, u.email, u.username, u.isPro || false)
  }

  /** `generateToken(user)` at instant `now`: the payload signed with the fixed lifetime. */
  function GenerateToken(sign: Signer, u: User, now: Millis): (t: Option<string>)
    ensures t == sign(Payload(u), "7d", now)
  {
    sign(Payload(u), ExpiresIn, now)
  }

  /**
   * `verifyToken(token)`: the decoded payload, or the single error
   * "Invalid or expired token" whatever the library's cause.
   */
  function VerifyToken(verify: Verifier, token: string, now: Millis): (r: Result<Claims, string>)
    ensures r.Ok? <==> verify(token, now).Ok?
    ensures r.Ok? ==> r.value == verify(token, now).value
    ensures r.Err? ==> r.error == "Invalid or expired token"
  {
    match verify(token, now)
    case Ok(claims) => Ok(claims)
    case Err(_) => Err(InvalidToken)
  }

  /** Every token the library rejects is rejected in the same words. */
  lemma FailuresAreIndistinguishable(verify: Verifier, t1: string, t2: string, now: Millis)
    requires verify(t1, now).Err? && verify(t2, now).Err?
    ensures VerifyToken(verify, t1, now) == VerifyToken(verify, t2, now)
  {
  }

  /**
   * Whether a token signed with "7d" at instant `at` is still live at `v`.
   * The library works in whole seconds: `iat` is the signing instant
   * rounded down to the second, `exp` is `iat` plus seven days, and the
   * token expires once the verifying instant, rounded down to the second,
   * reaches `exp` (section 4.1.4 of RFC 7519). Dafny's `/` by 1000 rounds
   * down, as `Math.floor(t / 1000)` does.
   */
  predicate Live(at: Millis, v: Millis)
  {
    at <= v && v / 1000 < at / 1000 + LifetimeSeconds
  }

  /**
   * A token is live for at least seven days less one second after it is
   * signed, and never from seven days on.
   */
  lemma LiveWindow(at: Millis, v: Millis)
    ensures at <= v < at + 604_799_001 ==> Live(at, v)
    ensures v >= at + 604_800_000 ==> !Live(at, v)
  {
    var q, r := at / 1000, at % 1000;
    assert at == q * 1000 + r && 0 <= r < 1000;
    if at <= v < at + 604_799_001 {
      assert v < (q + LifetimeSeconds) * 1000;
    }
    if v >= at + 604_800_000 {
      assert v >= (q + LifetimeSeconds) * 1000;
    }
  }

  /**
   * The library as a codec within the lifetime: a token signed with "7d" at
   * instant `at` is accepted, with the claims it was given, by a
   * verification at any instant at which it is `Live`. Outside that window
   * the library is free to answer `Expired` (or anything else). The
   * registered `iat` and `exp` claims are not part of `Claims`.
   */
  ghost predicate Sound(sign: Signer, verify: Verifier)
  {
    forall c, at, t, v :: sign(c, ExpiresIn, at) == Some(t) && Live(at, v) ==> verify(t, v) == Ok(c)
  }

  /**
   * Over a sound library, a token generated at `now` and verified at `v`
   * while it is live yields the user's payload.
   */
  lemma GenerateVerifyRoundTrip(sign: Signer, verify: Verifier, u: User, now: Millis, v: Millis)
    requires Sound(sign, verify)
    requires GenerateToken(sign, u, now).Some?
    requires Live(now, v)
    ensures VerifyToken(verify, GenerateToken(sign, u, now).value, v) == Ok(Payload(u))
  {
  }
}
