/**
 * The local credential handlers (src/controllers/auth.controller.js), each
 * one atomic read-check-write step against the user table. bcrypt is the
 * relation `matches(plaintext, digest)`; the digest `bcrypt.hash` produced,
 * the bytes `crypto.randomBytes(32)` produced and the clock are inputs.
 * Sending email is fire-and-forget in the source and does nothing here.
 */
module AuthController {
  import opened Base
  import opened Users
  import opened Http
  import Text
  import Tokens
  import Jwt
  import AuthMiddleware

  /** What a successful reply carries besides its message. */
  datatype Data =
    | NoData
    | Session(token: string, user: SanitizedUser)
    | Profile(user: SanitizedUser)

  type Response = Reply<Data>

  /** bcrypt's `compare(plaintext, digest)`. */
  type Hasher = (string, string) -> bool

  const MissingRegisterFields: string := "Email, username, and password are required"
  const EmailTaken: string := "Email already registered"
  const UsernameTakenMessage: string := "Username already taken"
  const Registered: string := "Registration successful! Please check your email to verify your account."
  const RegistrationFailed: string := "Registration failed. Please try again."
  const MissingLoginFields: string := "Email and password are required"
  const BadCredentials: string := "Invalid email or password"
  const LoggedIn: string := "Login successful"
  const LoginFailed: string := "Login failed. Please try again."
  const EmailRequired: string := "Email is required"
  const ResetLinkSent: string := "If an account exists with this email, you will receive a password reset link."
  const MissingResetFields: string := "Token and new password are required"
  const BadResetToken: string := "Invalid or expired reset token"
  const PasswordReset: string := "Password reset successful. You can now sign in with your new password."
  const UserNotFound: string := "User not found"
  const FetchFailed: string := "Failed to fetch user data"

  /** The refusal for an account that has no password, naming its provider. */
  function UseProvider(p: Provider): (m: string)
    ensures Text.StartsWith(m, "This account was created with " + p.Name() + ".")
    ensures m != BadCredentials
  {
    var m := "This account was created with " + p.Name() + ". Please sign in with " + p.Name() + ".";
    assert m[..|"This account was created with " + p.Name() + "."|] == "This account was created with " + p.Name() + ".";
    m
  }

  /** Accounts of different providers are refused in different words. */
  lemma UseProviderTellsProvidersApart(p: Provider, q: Provider)
    requires UseProvider(p) == UseProvider(q)
    ensures p == q
  {
    var n := |"This account was created with "|;
    assert UseProvider(p)[n] == p.Name()[0] && UseProvider(q)[n] == q.Name()[0];
    assert UseProvider(p)[n + 1] == p.Name()[1] && UseProvider(q)[n + 1] == q.Name()[1];
  }

  /**
   * This controller's own `generateToken(userId, email)` at instant `now`:
   * claims without username or isPro.
   */
  function SessionToken(sign: Jwt.Signer, u: User, now: Millis): (t: Option<string>)
    ensures t == sign(Jwt.LegacyClaims(u.id, u.email), "7d", now)
  {
    sign(Jwt.LegacyClaims(u.id, u.email), Jwt.ExpiresIn, now)
  }

  /**
   * The reply of a handler that signs a session for `u` once its checks
   * passed: the token and the sanitized user, or a 500 when signing throws.
   */
  function SessionReply(sign: Jwt.Signer, u: User, now: Millis, status: int, message: string, failure: string): (r: Response)
    ensures r.Success? <==> SessionToken(sign, u, now).Some?
    ensures r.Success? ==>
      && r.status == status && r.notice == Some(message)
      && r.data == Session(SessionToken(sign, u, now).value, Sanitize(u))
    ensures r.Fail? ==> r.status == 500 && r.message == failure
  {
    match SessionToken(sign, u, now)
    case Some(t) => Success(status, Some(message), Session(t, Sanitize(u)))
    case None => Fail(500, failure)
  }

  /**
   * A session this controller issues (register, login) at `now` passes
   * `authenticate` at any instant `v` at which it is live with its own
   * claims, and is always refused by `requirePro`.
   */
  lemma ControllerSessionAtTheGates(sign: Jwt.Signer, verify: Jwt.Verifier, u: User, now: Millis, v: Millis)
    requires Jwt.Sound(sign, verify)
    requires SessionToken(sign, u, now).Some?
    requires Jwt.Live(now, v)
    ensures var header := Some("Bearer " + SessionToken(sign, u, now).value);
      && AuthMiddleware.AuthenticateDecision(header, verify, v) == Ok(Jwt.LegacyClaims(u.id, u.email))
      && AuthMiddleware.ProDecision(Some(Jwt.LegacyClaims(u.id, u.email)))
           == AuthMiddleware.Refuse(Fail(403, AuthMiddleware.ProRequired))
  {
    AuthMiddleware.BearerRoundTrip(SessionToken(sign, u, now).value);
    AuthMiddleware.ControllerSessionNeverPro(u.id, u.email);
  }

  /** `register` */
  method Register(db: UserTable, sign: Jwt.Signer, matches: Hasher,
                  email: Option<string>, username: Option<string>, password: Option<string>,
                  digest: string, random: seq<Tokens.Byte>, now: Millis)
    returns (reply: Response)
    requires db.Valid()
    requires |random| == 32
    requires password.Some? ==> matches(password.value, digest)
    requires digest != ""
    modifies db
    ensures db.Valid()
    ensures !(Truthy(email) && Truthy(username) && Truthy(password)) ==>
      reply == Fail(400, MissingRegisterFields) && unchanged(db)
    ensures Truthy(email) && Truthy(username) && Truthy(password) ==>
      var hit := old(db.Find(ByEmailOrUsername(email.value, username.value)));
      hit.Some? ==>
        && reply == Fail(400, if old(db.rows)[hit.value].email == email.value then EmailTaken else UsernameTakenMessage)
        && unchanged(db)
    ensures Truthy(email) && Truthy(username) && Truthy(password) ==>
      var hit := old(db.Find(ByEmailOrUsername(email.value, username.value)));
      var id := old(db.nextId);
      hit.None? ==>
        && id !in old(db.rows) && id in db.rows
        && db.rows == old(db.rows)[id := db.rows[id]] && db.nextId == id + 1
        && var u := db.rows[id];
        && u.id == id && u.email == email.value && u.username == username.value
        && u.password == Some(digest) && HasPassword(u) && matches(password.value, u.password.value)
        && u.provider == Local && !u.isVerified && !u.isPro
        && u.googleId.None? && u.githubId.None?
        && u.firstName.None? && u.lastName.None? && u.avatar.None?
        && u.verificationToken == Some(Tokens.HexEncode(random))
        && |u.verificationToken.value| == 64
        && u.verificationTokenExpires == Some(now + 86_400_000)
        && u.resetPasswordToken.None? && u.resetPasswordExpires.None?
        && u.createdAt == now
        && reply == SessionReply(sign, u, now, 201, Registered, RegistrationFailed)
  {
    if !(Truthy(email) && Truthy(username) && Truthy(password)) {
      return Fail(400, MissingRegisterFields);
    }
    var existing := db.Find(ByEmailOrUsername(email.value, username.value));
    if existing.Some? {
      var clash := db.rows[existing.value];
      return Fail(400, if clash.email == email.value then EmailTaken else UsernameTakenMessage);
    }
    var verificationToken := Tokens.HexEncode(random);
    var data := User(0, email.value, username.value, Some(digest), Local, None, None, false, false,
                     None, None, None, Some(verificationToken), Some(now + Tokens.DayMs), None, None, now);
    var created := db.Create(data);
    var user := created.value;
    reply := SessionReply(sign, user, now, 201, Registered, RegistrationFailed);
  }

  /** `login`: reads the table and never writes it. */
  method Login(db: UserTable, sign: Jwt.Signer, matches: Hasher,
               email: Option<string>, password: Option<string>, now: Millis)
    returns (reply: Response)
    requires db.Valid()
    ensures !(Truthy(email) && Truthy(password)) ==> reply == Fail(400, MissingLoginFields)
    ensures Truthy(email) && Truthy(password) ==>
      match db.Find(ByEmail(email.value))
      case None => reply == Fail(401, BadCredentials)
      case Some(id) =>
        var u := db.rows[id];
        if !HasPassword(u) then reply == Fail(401, UseProvider(u.provider))
        else if !matches(password.value, u.password.value) then reply == Fail(401, BadCredentials)
        else reply == SessionReply(sign, u, now, 200, LoggedIn, LoginFailed)
    // An unknown email and a wrong password are refused identically.
    ensures reply == Fail(401, BadCredentials) <==>
      Truthy(email) && Truthy(password) &&
      ((forall id | id in db.rows :: db.rows[id].email != email.value) ||
       (exists id | id in db.rows && db.rows[id].email == email.value ::
          HasPassword(db.rows[id]) && !matches(password.value, db.rows[id].password.value)))
  {
    if !(Truthy(email) && Truthy(password)) {
      return Fail(400, MissingLoginFields);
    }
    var found := db.Find(ByEmail(email.value));
    if found.None? {
      return Fail(401, BadCredentials);
    }
    var user := db.rows[found.value];
    KeyLookupFindsTheRow(db.rows, db.nextId, ByEmail(email.value), found.value);
    if !HasPassword(user) {
      return Fail(401, UseProvider(user.provider));
    }
    if !matches(password.value, user.password.value) {
      return Fail(401, BadCredentials);
    }
    reply := SessionReply(sign, user, now, 200, LoggedIn, LoginFailed);
  }

  /** `forgotPassword` */
  method ForgotPassword(db: UserTable, email: Option<string>, random: seq<Tokens.Byte>, now: Millis)
    returns (reply: Response)
    requires db.Valid()
    requires |random| == 32
    modifies db
    ensures db.Valid()
    ensures !Truthy(email) ==> reply == Fail(400, EmailRequired) && unchanged(db)
    ensures Truthy(email) ==>
      match old(db.Find(ByEmail(email.value)))
      case None => reply == Success(200, Some(ResetLinkSent), NoData) && unchanged(db)
      case Some(id) =>
        var u := old(db.rows)[id];
        if !HasPassword(u) then reply == Fail(400, UseProvider(u.provider)) && unchanged(db)
        else
          && reply == Success(200, Some(ResetLinkSent), NoData)
          && db.rows == old(db.rows)[id := u.(resetPasswordToken := Some(Tokens.HexEncode(random)),
                                              resetPasswordExpires := Some(now + 3_600_000))]
          && db.nextId == old(db.nextId)
    // An unknown email and a password account get the same reply.
    ensures reply == Success(200, Some(ResetLinkSent), NoData) <==>
      Truthy(email) &&
      forall id | id in old(db.rows) && old(db.rows)[id].email == email.value :: HasPassword(old(db.rows)[id])
  {
    if !Truthy(email) {
      return Fail(400, EmailRequired);
    }
    var found := db.Find(ByEmail(email.value));
    if found.None? {
      return Success(200, Some(ResetLinkSent), NoData);
    }
    var user := db.rows[found.value];
    KeyLookupFindsTheRow(db.rows, db.nextId, ByEmail(email.value), found.value);
    if !HasPassword(user) {
      return Fail(400, UseProvider(user.provider));
    }
    var resetToken := Tokens.HexEncode(random);
    db.Update(found.value, user.(resetPasswordToken := Some(resetToken),
                                 resetPasswordExpires := Some(now + Tokens.HourMs)));
    reply := Success(200, Some(ResetLinkSent), NoData);
  }

  /** `resetPassword` */
  method ResetPassword(db: UserTable, matches: Hasher, token: Option<string>, password: Option<string>,
                       digest: string, now: Millis)
    returns (reply: Response)
    requires db.Valid()
    requires password.Some? ==> matches(password.value, digest)
    requires digest != ""
    modifies db
    ensures db.Valid()
    ensures !(Truthy(token) && Truthy(password)) ==> reply == Fail(400, MissingResetFields) && unchanged(db)
    ensures Truthy(token) && Truthy(password) ==>
      match old(db.Find(ByLiveResetToken(token.value, now)))
      case None => reply == Fail(400, BadResetToken) && unchanged(db)
      case Some(id) =>
        && reply == Success(200, Some(PasswordReset), NoData)
        && db.rows == old(db.rows)[id := old(db.rows)[id].(password := Some(digest),
                                                           resetPasswordToken := None,
                                                           resetPasswordExpires := None)]
        && db.nextId == old(db.nextId)
        && HasPassword(db.rows[id]) && matches(password.value, db.rows[id].password.value)
    // The token is accepted exactly when some row holds it and it has not expired.
    ensures reply.Success? <==>
      Truthy(token) && Truthy(password) &&
      exists id | id in old(db.rows) ::
        old(db.rows)[id].resetPasswordToken == token && old(db.rows)[id].resetPasswordExpires.Some? &&
        old(db.rows)[id].resetPasswordExpires.value > now
  {
    if !(Truthy(token) && Truthy(password)) {
      return Fail(400, MissingResetFields);
    }
    var found := db.Find(ByLiveResetToken(token.value, now));
    if found.None? {
      return Fail(400, BadResetToken);
    }
    var user := db.rows[found.value];
    db.Update(found.value, user.(password := Some(digest), resetPasswordToken := None, resetPasswordExpires := None));
    reply := Success(200, Some(PasswordReset), NoData);
  }

  /**
   * `getCurrentUser`, given the decoded claims in `req.user`. Only this
   * controller's claims carry `userId`; with the other signer's claims the
   * lookup filter is empty and the table refuses it.
   */
  method GetCurrentUser(db: UserTable, claims: Jwt.Claims) returns (reply: Response)
    requires db.Valid()
    ensures claims.UserClaims? ==> reply == Fail(500, FetchFailed)
    ensures claims.LegacyClaims? && claims.userId !in db.rows ==> reply == Fail(404, UserNotFound)
    ensures claims.LegacyClaims? && claims.userId in db.rows ==>
      reply == Success(200, None, Profile(Sanitize(db.rows[claims.userId])))
    ensures reply.Success? ==> reply.data.Profile? && reply.data.user.id == claims.userId
  {
    match claims
    case UserClaims(_, _, _, _) =>
      reply := Fail(500, FetchFailed);
    case LegacyClaims(userId, _) =>
      if userId !in db.rows {
        return Fail(404, UserNotFound);
      }
      reply := Success(200, None, Profile(Sanitize(db.rows[userId])));
  }

  /**
   * After a successful registration at `now`, signing in at `later` with the
   * same email and password finds the new account: the reply is 200 with a
   * session for the same sanitized user, signed at `later` over the same
   * claims, or the 500 when signing throws at `later`.
   */
  method RegisterThenLogin(db: UserTable, sign: Jwt.Signer, matches: Hasher,
                           email: string, username: string, password: string,
                           digest: string, random: seq<Tokens.Byte>, now: Millis, later: Millis)
    returns (registered: Response, login: Response)
    requires db.Valid()
    requires |random| == 32 && matches(password, digest) && digest != ""
    modifies db
    ensures registered.Success? ==>
      && registered.data.Session?
      && match sign(Jwt.LegacyClaims(registered.data.user.id, email), "7d", later)
         case Some(t) => login == Success(200, Some(LoggedIn), Session(t, registered.data.user))
         case None => login == Fail(500, LoginFailed)
  {
    registered := Register(db, sign, matches, Some(email), Some(username), Some(password), digest, random, now);
    if registered.Success? {
      KeyLookupFindsTheRow(db.rows, db.nextId, ByEmail(email), db.nextId - 1);
    }
    login := Login(db, sign, matches, Some(email), Some(password), later);
  }

  /**
   * A session this controller signed at `now` for a stored account,
   * presented as a bearer header at `v` while it is live, passes
   * `authenticate` and makes `getCurrentUser` answer with that account's
   * sanitized row.
   */
  method SessionThenCurrentUser(db: UserTable, sign: Jwt.Signer, verify: Jwt.Verifier, id: UserId,
                                now: Millis, v: Millis)
    returns (reply: Response)
    requires db.Valid() && id in db.rows
    requires Jwt.Sound(sign, verify)
    requires SessionToken(sign, db.rows[id], now).Some?
    requires Jwt.Live(now, v)
    ensures reply == Success(200, None, Profile(Sanitize(db.rows[id])))
  {
    var token := SessionToken(sign, db.rows[id], now).value;
    ControllerSessionAtTheGates(sign, verify, db.rows[id], now, v);
    var decided := AuthMiddleware.AuthenticateDecision(Some("Bearer " + token), verify, v);
    reply := GetCurrentUser(db, decided.value);
  }

  /**
   * A reset token is single-use: once a reset with it succeeded, a second
   * reset with it fails, provided no other account holds the same token.
   */
  method ResetTokenIsSingleUse(db: UserTable, matches: Hasher, token: string,
                               first: string, firstDigest: string, second: string, secondDigest: string,
                               now: Millis, later: Millis)
    returns (r1: Response, r2: Response)
    requires db.Valid()
    requires matches(first, firstDigest) && matches(second, secondDigest) && second != ""
    requires firstDigest != "" && secondDigest != ""
    requires forall i, j | i in db.rows && j in db.rows ::
      db.rows[i].resetPasswordToken == Some(token) && db.rows[j].resetPasswordToken == Some(token) ==> i == j
    modifies db
    ensures r1.Success? ==> r2 == Fail(400, BadResetToken)
  {
    r1 := ResetPassword(db, matches, Some(token), Some(first), firstDigest, now);
    r2 := ResetPassword(db, matches, Some(token), Some(second), secondDigest, later);
  }

  /**
   * A reset link mailed by `forgotPassword` works until the hour is over and
   * is refused from then on, provided no account held that token before.
   */
  method ForgotThenReset(db: UserTable, matches: Hasher, email: string, random: seq<Tokens.Byte>, now: Millis,
                         password: string, digest: string, later: Millis)
    returns (forgot: Response, reset: Response)
    requires db.Valid()
    requires |random| == 32 && matches(password, digest) && digest != "" && password != "" && email != ""
    requires forall i | i in db.rows :: db.rows[i].resetPasswordToken != Some(Tokens.HexEncode(random))
    modifies db
    ensures old(db.Find(ByEmail(email))).Some? && forgot.Success? ==>
      && (later < now + 3_600_000 ==> reset == Success(200, Some(PasswordReset), NoData))
      && (later >= now + 3_600_000 ==> reset == Fail(400, BadResetToken))
  {
    ghost var hit := db.Find(ByEmail(email));
    forgot := ForgotPassword(db, Some(email), random, now);
    var token := Tokens.HexEncode(random);
    if hit.Some? && forgot.Success? && later < now + Tokens.HourMs {
      assert Selects(ByLiveResetToken(token, later), db.rows[hit.value]);
    }
    reset := ResetPassword(db, matches, Some(token), Some(password), digest, later);
  }
}
