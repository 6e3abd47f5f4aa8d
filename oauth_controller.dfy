/**
 * The OAuth redirect handlers (src/controllers/oauth.controller.js): after a
 * provider callback resolved the user, sign a session for it and redirect
 * to the frontend with the token and a public projection of the user, or
 * with an error marker when anything fails. `FRONTEND_URL` is an input;
 * `encodeURIComponent(JSON.stringify(...))` is the parameter `encode`.
 */
module OAuthController {
  import opened Base
  import opened Users
  import Text
  import Jwt

  const DefaultFrontendUrl: string := "http://localhost:3000"
  const AppPage: string := "/quickquest-enhanced.html"
  const ErrorQuery: string := "?error=oauth_failed"

  /** The rule of `getFrontendUrl`: point at the app page unless the URL already names an .html page. */
  function WithAppPage(url: string): (r: string)
    ensures Text.EndsWith(r, ".html")
    ensures Text.EndsWith(url, ".html") ==> r == url
    ensures !Text.EndsWith(url, ".html") ==> r == url + "/quickquest-enhanced.html"
  {
    if Text.EndsWith(url, ".html") then url
    else
      assert (url + AppPage)[|url + AppPage| - 5..] == ".html";
      url + AppPage
  }

  /** Applying the rule twice is applying it once. */
  lemma WithAppPageIdempotent(url: string)
    ensures WithAppPage(WithAppPage(url)) == WithAppPage(url)
  {
  }

  lemma DefaultIsNotAPage()
    ensures !Text.EndsWith(DefaultFrontendUrl, ".html")
  {
    assert |DefaultFrontendUrl| == 21 && DefaultFrontendUrl[16] == ':';
  }

  /** `getFrontendUrl()` for the value of `FRONTEND_URL`. */
  function FrontendUrl(env: Option<string>): (r: string)
    ensures Text.EndsWith(r, ".html")
    ensures !Truthy(env) ==> r == DefaultFrontendUrl + AppPage
    ensures Truthy(env) && Text.EndsWith(env.value, ".html") ==> r == env.value
    ensures Truthy(env) && !Text.EndsWith(env.value, ".html") ==> r == env.value + "/quickquest-enhanced.html"
  {
    var url := if Truthy(env) then env.value else DefaultFrontendUrl;
    DefaultIsNotAPage();
    WithAppPage(url)
  }

  /** The user fields the redirect exposes. */
  datatype PublicUser = PublicUser(
    id: UserId,
    email: string,
    username: string,
    isPro: bool,
    isVerified: bool,
    avatar: Option<string>,
    firstName: Option<string>,
    lastName: Option<string>)

  /** The object the callbacks serialise into the `user` query parameter. */
  function Project(u: User): (p: PublicUser)
    ensures p.id == u.id && p.email == u.email && p.username == u.username
    ensures p.isPro == u.isPro && p.isVerified == u.isVerified
    ensures p.avatar == u.avatar && p.firstName == u.firstName && p.lastName == u.lastName
  {
    PublicUser(u.id, u.email, u.username, u.isPro, u.isVerified, u.avatar, u.firstName, u.lastName)
  }

  /**
   * The projection exposes nothing `sanitizeUser` hides: records that
   * sanitize alike project alike, whatever their digest and tokens.
   */
  lemma ProjectionHidesSecrets(u: User, v: User)
    requires Sanitize(u) == Sanitize(v)
    ensures Project(u) == Project(v)
  {
  }

  /** `encodeURIComponent(JSON.stringify(projection))` */
  type Encoder = PublicUser -> string

  /**
   * `googleCallback` and `githubCallback`, whose bodies are the same: the
   * redirect for the user the strategy attached (absent when `req.user` is).
   */
  function Callback(env: Option<string>, user: Option<User>, sign: Jwt.Signer, encode: Encoder, now: Millis): (url: string)
    ensures Text.StartsWith(url, FrontendUrl(env))
    ensures user.None? || Jwt.GenerateToken(sign, user.value, now).None? ==>
      url == FrontendUrl(env) + "?error=oauth_failed"
    ensures user.Some? && Jwt.GenerateToken(sign, user.value, now).Some? ==>
      url == FrontendUrl(env) + "?token=" + Jwt.GenerateToken(sign, user.value, now).value
                              + "&user=" + encode(Project(user.value))
  {
    var base := FrontendUrl(env);
    var url :=
      if user.None? then base + ErrorQuery
      else
        match Jwt.GenerateToken(sign, user.value, now)
        case None => base + ErrorQuery
        case Some(token) => base + "?token=" + token + "&user=" + encode(Project(user.value));
    assert url[..|base|] == base;
    url
  }

  /**
   * A failed callback and a successful one never redirect to the same URL:
   * right after the frontend URL one reads "?error=", the other "?token=".
   */
  lemma FailureIsDistinguishable(env: Option<string>, u: User, sign: Jwt.Signer, encode: Encoder, now: Millis)
    requires Jwt.GenerateToken(sign, u, now).Some?
    ensures Callback(env, Some(u), sign, encode, now) != Callback(env, None, sign, encode, now)
  {
    var base := FrontendUrl(env);
    assert Callback(env, Some(u), sign, encode, now)[|base| + 1] == 't';
    assert Callback(env, None, sign, encode, now)[|base| + 1] == 'e';
  }
}
