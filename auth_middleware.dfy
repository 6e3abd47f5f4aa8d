/**
 * The request gates (src/middleware/auth.middleware.js). `authenticate`
 * takes the bearer token from the `Authorization` header, verifies it and
 * attaches the decoded claims to the request; `requirePro` lets a request
 * through only when those claims say `isPro`.
 */
module AuthMiddleware {
  import opened Base
  import opened Http
  import Text
  import Jwt
  import Users

  const BearerPrefix: string := "Bearer "
  const NoToken: string := "No token provided. Please sign in."
  const InvalidSession: string := "Invalid or expired token. Please sign in again."
  const ProRequired: string := "This feature requires a Pro subscription."

  /** A refusal sent by a gate; it never carries data. */
  type Refusal = Reply<()>

  /**
   * The token in an `Authorization` header: the header must be present,
   * non-empty and start with "Bearer "; the token is what follows those
   * seven characters.
   */
  function BearerToken(header: Option<string>): (t: Option<string>)
    ensures t.Some? <==> Truthy(header) && Text.StartsWith(header.value, "Bearer ")
    ensures t.Some? ==> header.value == "Bearer " + t.value
  {
    if Truthy(header) && Text.StartsWith(header.value, BearerPrefix)
    then Some(header.value[|BearerPrefix|..])
    else None
  }

  /** Whatever follows "Bearer " is extracted unchanged. */
  lemma BearerRoundTrip(t: string)
    ensures BearerToken(Some("Bearer " + t)) == Some(t)
  {
    assert ("Bearer " + t)[..7] == "Bearer ";
    assert ("Bearer " + t)[7..] == t;
  }

  /**
   * What `authenticate` decides for a header at instant `now`: the claims
   * to attach to the request, or the 401 to send.
   */
  function AuthenticateDecision(header: Option<string>, verify: Jwt.Verifier, now: Millis): (d: Result<Jwt.Claims, Refusal>)
    ensures d.Err? ==> d.error.Fail? && d.error.status == 401
    ensures BearerToken(header).None? ==> d == Err(Fail(401, "No token provided. Please sign in."))
    ensures BearerToken(header).Some? ==>
      var token := BearerToken(header).value;
      && (d.Ok? <==> verify(token, now).Ok?)
      && (d.Ok? ==> d.value == verify(token, now).value)
      && (d.Err? ==> d.error == Fail(401, "Invalid or expired token. Please sign in again."))
  {
    match BearerToken(header)
    case None => Err(Fail(401, NoToken))
    case Some(token) =>
      match Jwt.VerifyToken(verify, token, now)
      case Ok(claims) => Ok(claims)
      case Err(_) => Err(Fail(401, InvalidSession))
  }

  /** What `requirePro` does with the claims on a request. */
  datatype Verdict =
    /** calls `next()` */
    | Proceed
    /** sends the refusal */
    | Refuse(refusal: Refusal)
    /** `req.user` is absent: reading `isPro` throws a TypeError */
    | Raise

  function ProDecision(user: Option<Jwt.Claims>): (v: Verdict)
    ensures v == Proceed <==> user.Some? && Jwt.IsPro(user.value)
    ensures v == Raise <==> user.None?
    ensures v.Refuse? ==> v.refusal == Fail(403, "This feature requires a Pro subscription.")
  {
    match user
    case None => Raise
    case Some(claims) => if !Jwt.IsPro(claims) then Refuse(Fail(403, ProRequired)) else Proceed
  }

  /**
   * Over a sound JWT library, a session token from src/utils/jwt.js
   * presented while it is live authenticates as the user's
   * payload and passes `requirePro` exactly when the user is Pro.
   */
  lemma SessionTokenPassesGates(sign: Jwt.Signer, verify: Jwt.Verifier, u: Users.User, now: Millis, v: Millis)
    requires Jwt.Sound(sign, verify)
    requires Jwt.GenerateToken(sign, u, now).Some?
    requires Jwt.Live(now, v)
    ensures var header := Some("Bearer " + Jwt.GenerateToken(sign, u, now).value);
      && AuthenticateDecision(header, verify, v) == Ok(Jwt.Payload(u))
      && (ProDecision(Some(Jwt.Payload(u))) == Proceed <==> u.isPro)
  {
    var token := Jwt.GenerateToken(sign, u, now).value;
    BearerRoundTrip(token);
  }

  /**
   * The claims src/controllers/auth.controller.js signs carry no `isPro`,
   * so a session from registration or login never passes `requirePro`.
   */
  lemma ControllerSessionNeverPro(userId: Users.UserId, email: string)
    ensures ProDecision(Some(Jwt.LegacyClaims(userId, email))) == Refuse(Fail(403, ProRequired))
  {
  }

  /** One request as the gates see it: its header, `req.user`, the reply sent and the calls to `next`. */
  class Exchange {
    var authorization: Option<string>
    var user: Option<Jwt.Claims>
    var reply: Option<Refusal>
    var nextCalls: nat

    constructor (authorization: Option<string>)
      ensures this.authorization == authorization
      ensures user.None? && reply.None? && nextCalls == 0
    {
      this.authorization := authorization;
      user := None;
      reply := None;
      nextCalls := 0;
    }

    /**
     * `authenticate`. The call to `next` sits inside the same `try`, so when
     * the downstream handler throws synchronously (`nextThrows`) the catch
     * answers with the invalid-token 401 after `req.user` was set.
     */
    method Authenticate(verify: Jwt.Verifier, now: Millis, nextThrows: bool)
      modifies this
      ensures authorization == old(authorization)
      ensures match AuthenticateDecision(old(authorization), verify, now)
        case Ok(claims) =>
          && user == Some(claims) && nextCalls == old(nextCalls) + 1
          && reply == (if nextThrows then Some(Fail(401, InvalidSession)) else old(reply))
        case Err(refusal) => reply == Some(refusal) && user == old(user) && nextCalls == old(nextCalls)
    {
      var token := BearerToken(authorization);
      if token.None? {
        reply := Some(Fail(401, NoToken));
        return;
      }
      var decoded := Jwt.VerifyToken(verify, token.value, now);
      if decoded.Err? {
        reply := Some(Fail(401, InvalidSession));
        return;
      }
      user := Some(decoded.value);
      nextCalls := nextCalls + 1;
      if nextThrows {
        reply := Some(Fail(401, InvalidSession));
      }
    }

    /** `requirePro`; `raised` reports the TypeError thrown when `req.user` is absent. */
    method RequirePro() returns (raised: bool)
      modifies this
      ensures authorization == old(authorization) && user == old(user)
      ensures raised <==> ProDecision(user) == Raise
      ensures ProDecision(user) == Proceed ==> nextCalls == old(nextCalls) + 1 && reply == old(reply)
      ensures ProDecision(user).Refuse? ==> reply == Some(ProDecision(user).refusal) && nextCalls == old(nextCalls)
      ensures raised ==> nextCalls == old(nextCalls) && reply == old(reply)
    {
      match user
      case None =>
        raised := true;
      case Some(claims) =>
        raised := false;
        if !Jwt.IsPro(claims) {
          reply := Some(Fail(403, ProRequired));
          return;
        }
        nextCalls := nextCalls + 1;
    }
  }
}
