# QuickQuest account core in Dafny

This project models the account core of the QuickQuest backend. The core is the user table and the rules that change it:

- the local credential handlers: register, login, forgot password, reset password and current user;
- the Google and GitHub sign-in callbacks, which bind, link or create an account;
- the bearer-token and Pro gates;
- token minting and session-claim construction;
- the OAuth redirect.

Every handler is one atomic, sequential step against an in-memory table. Several collaborators are parameters rather than code:

- bcrypt is the relation `matches(plaintext, digest)`, and each handler receives the digest `bcrypt.hash` produced;
- `jsonwebtoken` is a `sign` function of the claims, the lifetime and the signing instant, and a `verify` function of the token and the verification instant;
- the random bytes, the random draws and the clock are arguments.

## Layout

| file | module | models |
|---|---|---|
| base.dfy | `Base` | `Option`, `Result`, JavaScript truthiness of a string, the millisecond clock |
| text.dfy | `Text` | `startsWith`, `endsWith`, ASCII `toLowerCase`, `split`/`join` on one character, decimal rendering |
| tokens.dfy | `Tokens` | src/utils/tokens.js |
| users.dfy | `Users` | the user record, `sanitizeUser`, the lookups, and the table class `UserTable` with `Create`/`Update` under the unique constraints |
| jwt.dfy | `Jwt` | src/utils/jwt.js |
| http.dfy | `Http` | the JSON reply `{ success, message, data }` |
| auth_controller.dfy | `AuthController` | src/controllers/auth.controller.js |
| passport.dfy | `Passport` | src/config/passport.js |
| auth_middleware.dfy | `AuthMiddleware` | src/middleware/auth.middleware.js |
| oauth_controller.dfy | `OAuthController` | src/controllers/oauth.controller.js |

`UserTable.Valid()` is the table invariant. Every row is stored under its own id, and that id is below `nextId`. No two rows share an email, a username, a Google id or a GitHub id. Each state-changing handler requires this invariant and preserves it.

## Where the code differs from what one might expect

The model follows the code as written:

- `register` tests an email or username clash with exact, case-sensitive equality. The OAuth callbacks lower-case the profile email before they look it up.
- `login` does not refuse every failure in the same words. An unknown email and a wrong password both get "Invalid email or password". An account without a password gets a different 401 that names its provider.
- `forgotPassword` answers 400 for an account without a password. Only an unknown email and a password account get the same generic 200.
- An OAuth username gets a random suffix from 0 to 999, and nothing retries when that username is taken. The unique constraint refuses the new row and the callback fails (`Passport.StrategyError.UniqueViolation`).
- The two session signers put different claims in the token. The helper in auth.controller.js signs `{userId, email}`; src/utils/jwt.js signs `{id, email, username, isPro}`. The model proves two consequences:
  - `AuthController.ControllerSessionAtTheGates`: while it is live, a session from register or login passes `authenticate` with `{userId, email}`, and it never passes `requirePro`.
  - `AuthController.GetCurrentUser`: with claims from jwt.js, `getCurrentUser` has no `userId` to look up. It answers 500.
- The handlers mint their reset token inline from 32 random bytes, as 64 hex characters. The six-digit code of `generateResetToken` is modelled but no handler uses it.
- The code has no email-verification or resend-verification handler and no password or username policy, so the model has none either.

## Model

| member | source | states |
|---|---|---|
| `Tokens.HexEncode` | src/utils/tokens.js:9 | hex-encoding n bytes gives 2n characters, each from `[0-9a-f]` |
| `Tokens.HexRoundTrip` | src/utils/tokens.js:9 | decoding the hex string gives back the original bytes |
| `Tokens.HexEncodeInjective` | src/utils/tokens.js:9 | two byte sequences with the same hex encoding are equal |
| `Tokens.GenerateToken` | src/utils/tokens.js:8-10 | `generateToken(n)` is 2n lower-case hex characters and decodes back to the random bytes |
| `Tokens.GenerateVerificationToken` | src/utils/tokens.js:16-25 | the default token is 64 hex characters and expires at now + 24 h (86 400 000 ms) |
| `Tokens.ResetCode` | src/utils/tokens.js:33 | the reset code lies in [100000, 999999] |
| `Tokens.GenerateResetToken` | src/utils/tokens.js:31-36 | the reset token is 6 decimal digits, has no leading zero, denotes the code, and expires at now + 3 600 000 ms |
| `Text.DecimalRoundTrip` | src/utils/tokens.js:33 | reading back the decimal string of n gives n |
| `Text.DecimalLength` | src/utils/tokens.js:33 | a number with k+1 digits renders as k+1 characters |
| `Jwt.IsPro` | src/middleware/auth.middleware.js:41 | `isPro` is truthy exactly for jwt.js claims whose flag is true; claims without the field read as false |
| `Jwt.Payload` | src/utils/jwt.js:12-17 | the payload carries id, email and username copied from the user, and `isPro` is the user's flag, else false |
| `Jwt.GenerateToken` | src/utils/jwt.js:11-22 | every token is signed, at the instant of the call, over that payload with the fixed lifetime "7d" |
| `Jwt.VerifyToken` | src/utils/jwt.js:29-35 | verification at an instant returns the decoded payload exactly when the library accepts the token at that instant; otherwise it returns the single error "Invalid or expired token" |
| `Jwt.FailuresAreIndistinguishable` | src/utils/jwt.js:29-35 | any two rejected tokens give the same error, whatever the cause |
| `Jwt.GenerateVerifyRoundTrip` | src/utils/jwt.js:11-35 | over a sound library, a token generated at `now` and verified at any instant `v` at which it is still live gives back the user's payload; live means `now <= v` and `v` rounded down to the second is before `exp`, which is `now` rounded down to the second plus 604 800 s |
| `Jwt.LiveWindow` | src/utils/jwt.js:4 | a "7d" token is live at every instant from its signing up to seven days less one second later, and never from seven days on |
| `Users.Sanitize` | src/controllers/auth.controller.js:19-22 | the sanitized record keeps every field except password, verificationToken, verificationTokenExpires, resetPasswordToken and resetPasswordExpires |
| `Users.SanitizeForgetsExactlySecrets` | src/controllers/auth.controller.js:19-22 | two records sanitize alike if and only if they differ in nothing but those five fields |
| `Users.FindFirst` | src/controllers/auth.controller.js:38-45 | `findFirst` returns the least id whose row satisfies the filter, and no lower id satisfies it; it returns none only when no row satisfies it |
| `Users.KeyLookupFindsTheRow` | src/controllers/auth.controller.js:114-116 | on a unique column (email, googleId, githubId), the lookup returns the one row that holds the value |
| `Users.UserTable.Find` | src/config/passport.js:34-36 | a lookup hits a row that satisfies the filter, and misses exactly when no row does |
| `Users.UserTable.Create` | src/controllers/auth.controller.js:64-73 | create refuses a row that clashes on a unique column and leaves the table unchanged; otherwise it adds exactly that row under a fresh id and keeps the invariant |
| `Users.UserTable.Update` | src/controllers/auth.controller.js:201-207 | update replaces one row and nothing else, and keeps the invariant |
| `AuthController.UseProvider` | src/controllers/auth.controller.js:126-131 | the refusal for a password-less account begins "This account was created with <provider>." and differs from "Invalid email or password" |
| `AuthController.UseProviderTellsProvidersApart` | src/controllers/auth.controller.js:129 | two providers with the same refusal are the same provider |
| `AuthController.SessionToken` | src/controllers/auth.controller.js:11-17 | this controller signs only `{userId, email}`, with lifetime "7d", at the instant of the call |
| `AuthController.SessionReply` | src/controllers/auth.controller.js:80-90 | the reply succeeds exactly when signing succeeds, with the given status and message, the token and the sanitized user; a signing failure gives 500 with the handler's failure message |
| `AuthController.ControllerSessionAtTheGates` | src/middleware/auth.middleware.js:7-48 | over a sound library, a session this controller signs at `now`, presented while it is live (`Jwt.Live`), authenticates as `{userId, email}` and always gets the 403 from `requirePro` |
| `AuthController.SessionThenCurrentUser` | src/controllers/auth.controller.js:283-299 | a controller session for a stored account, presented while it is live (`Jwt.Live`), passes `authenticate` and makes `getCurrentUser` answer 200 with that account's sanitized row |
| `AuthController.Register` | src/controllers/auth.controller.js:25-98 | a missing field gives 400 and no change. An exact email or username clash gives 400 and no change; the message is "Email already registered" when the first clashing row has the email, else "Username already taken". Otherwise exactly one row is added: a local, unverified account whose digest matches the password, with a 64-hex verification token expiring at now + 24 h. The reply is 201 with the session and the sanitized user, or 500 when signing fails. |
| `AuthController.Login` | src/controllers/auth.controller.js:101-161 | a missing field gives 400. An unknown email and a wrong password get the identical 401 "Invalid email or password", and only those two cases do. A password-less account gets the provider-naming 401. A matching password gets 200 with a session. Login never writes the table. |
| `AuthController.ForgotPassword` | src/controllers/auth.controller.js:164-225 | no email gives 400. An unknown email gives the generic 200 and no change. A password-less account gives 400 and no change. A password account has its reset token overwritten and set to expire at now + 1 h; no other row changes; the reply is the same generic 200. |
| `AuthController.ResetPassword` | src/controllers/auth.controller.js:228-280 | the reset succeeds exactly when some row holds the token and its expiry is strictly after now. That row gets the new digest, so it has a password that matches the new one, and both reset fields are cleared; no other row changes. Otherwise the reply is 400 "Invalid or expired reset token" and the table is unchanged. |
| `AuthController.GetCurrentUser` | src/controllers/auth.controller.js:283-307 | with the controller's claims: the sanitized row with that id, or 404. With jwt.js claims, which have no `userId`: 500. |
| `AuthController.RegisterThenLogin` | src/controllers/auth.controller.js:25-161 | after a successful registration, login with the same email and password, at any later instant, finds the new account: 200 with a session for the same sanitized user, signed at the login instant over the same claims, or 500 when that signing fails |
| `AuthController.ResetTokenIsSingleUse` | src/controllers/auth.controller.js:240-267 | a second reset with a token that was just consumed fails, provided no other account held it |
| `AuthController.ForgotThenReset` | src/controllers/auth.controller.js:196-267 | a reset token from `forgotPassword` works before now + 1 h and is refused from then on |
| `Passport.SerializeUser` | src/config/passport.js:7-9 | the session stores the user's id |
| `Passport.DeserializeUser` | src/config/passport.js:12-19 | deserializing yields the row with that id, or none |
| `Passport.SessionRoundTrip` | src/config/passport.js:7-19 | deserializing a serialized row gives the row back |
| `Passport.FirstPrimary` | src/config/passport.js:108 | `find(e => e.primary)` returns the least index marked primary |
| `Passport.SelectGitHubEmail` | src/config/passport.js:108-112 | the chosen address is the first primary address if that one is non-empty, else the first address if non-empty, else none (which fails the callback); it is never empty |
| `Passport.SuffixLength` | src/config/passport.js:61 | a suffix below 1000 renders as 1 to 3 digits |
| `Passport.LocalPart` | src/config/passport.js:61 | the local part is the prefix of the address before its first '@', or the whole address when it has none |
| `Passport.GoogleUsername` | src/config/passport.js:61 | the Google username is the lower-cased local part followed by the suffix written in decimal: 1 to 3 digits, denoting the suffix, with no leading zero |
| `Passport.GitHubUsername` | src/config/passport.js:132 | the GitHub username is the lower-cased login followed by the suffix written in decimal: 1 to 3 digits, denoting the suffix, with no leading zero |
| `Passport.SplitDisplayName` | src/config/passport.js:139-140 | firstName is the first space-free word; when the name has a space, firstName + " " + lastName is the display name; without a space, lastName is empty |
| `Text.SplitAtFirst` | src/config/passport.js:139-140 | a split's first part is the text before the first separator, and the remaining parts, joined, are the text after it |
| `Text.JoinSplit` | src/config/passport.js:140 | joining the parts of a split gives back the string |
| `Text.StartsWith` | src/middleware/auth.middleware.js:12 | a string that starts with p is p followed by the rest of the string |
| `Text.EndsWith` | src/controllers/oauth.controller.js:7 | a string that ends with p is some text followed by p |
| `Text.Lower` | src/config/passport.js:45 | lower-casing keeps the length, maps each character on its own, and leaves no upper-case ASCII letter |
| `Text.Split` | src/config/passport.js:139 | a split has at least one part, and no part holds the separator |
| `Text.Join` | src/config/passport.js:140 | joining no parts gives ""; otherwise the text starts with the first part and ends with the last |
| `Text.Decimal` | src/config/passport.js:61 | the decimal form of a number is one or more digits with no leading zero |
| `Passport.Avatar` | src/config/passport.js:70 | the avatar is the first photo, or none for an empty list; a profile with no photos list fails |
| `Passport.GoogleNewUser` | src/config/passport.js:61-74 | the new Google row has the lower-cased email, the synthesized username, provider google, the Google id, isVerified set and no password; building it fails only when the profile lacks name or photos |
| `Passport.GitHubNewUser` | src/config/passport.js:132-145 | the new GitHub row has the lower-cased email, the synthesized username, provider github, the GitHub id, isVerified set, no password, and the split display name |
| `Passport.LinkKeepsKeysFree` | src/config/passport.js:50-56 | linking a provider id that no row holds cannot collide with any other row |
| `Passport.NewRowConflictIsUsername` | src/config/passport.js:63-74 | a new row whose email and provider id are unused can clash only on its username |
| `Passport.CreateAccount` | src/config/passport.js:63-74 | the create fails, with no change, exactly when the username is taken; otherwise it adds one row |
| `Passport.GoogleVerify` | src/config/passport.js:31-80 | a row bound to the Google id is returned with no change. Otherwise a profile without emails fails with no change. Otherwise a row with the lower-cased email becomes the only changed row, gaining the Google id and isVerified. Otherwise exactly one verified, password-less row is created, or the callback fails with no change. At most one row is added, and a returned user is stored and carries the Google id. |
| `Passport.GitHubVerify` | src/config/passport.js:95-150 | the same three steps for the GitHub id. With no selectable email the callback fails with `NoGitHubEmail`, the error "No email found in GitHub profile", and does not touch the table. |
| `Passport.GoogleVerifyTwice` | src/config/passport.js:34-41 | a second sign-in with the same profile returns the same account and changes nothing more |
| `AuthMiddleware.BearerToken` | src/middleware/auth.middleware.js:12-20 | a token is extracted exactly when the header is present and starts with "Bearer "; the header is "Bearer " followed by the token |
| `AuthMiddleware.BearerRoundTrip` | src/middleware/auth.middleware.js:20 | "Bearer " + t extracts to t |
| `AuthMiddleware.AuthenticateDecision` | src/middleware/auth.middleware.js:7-35 | a missing, empty or non-bearer header gives 401 "No token provided. Please sign in."; any verification failure gives the one 401 "Invalid or expired token. Please sign in again."; success gives the decoded payload |
| `AuthMiddleware.ProDecision` | src/middleware/auth.middleware.js:40-48 | the request proceeds exactly when `req.user.isPro` is truthy; falsy gives 403; an absent `req.user` throws |
| `AuthMiddleware.SessionTokenPassesGates` | src/middleware/auth.middleware.js:7-48 | over a sound library, a jwt.js session presented while it is live (`Jwt.Live`) authenticates as the user's payload and passes the Pro gate exactly when the user is Pro |
| `AuthMiddleware.ControllerSessionNeverPro` | src/middleware/auth.middleware.js:40-48 | claims signed by auth.controller.js always get the 403 |
| `AuthMiddleware.Exchange.Authenticate` | src/middleware/auth.middleware.js:7-35 | on success, `req.user` is set and `next` runs once, and if `next` throws, the invalid-token 401 is sent; on failure, the 401 is sent and neither `req.user` nor `next` is touched |
| `AuthMiddleware.Exchange.RequirePro` | src/middleware/auth.middleware.js:40-48 | `next` runs once for a Pro user; otherwise the 403 is sent or the error is raised; `req.user` never changes |
| `OAuthController.WithAppPage` | src/controllers/oauth.controller.js:7-10 | a URL ending in ".html" is kept; any other gets "/quickquest-enhanced.html" appended; the result always ends in ".html" |
| `OAuthController.WithAppPageIdempotent` | src/controllers/oauth.controller.js:7-10 | applying the rule twice equals applying it once |
| `OAuthController.FrontendUrl` | src/controllers/oauth.controller.js:4-11 | an unset or empty FRONTEND_URL falls back to http://localhost:3000; the result always ends in ".html" |
| `OAuthController.Project` | src/controllers/oauth.controller.js:27-36 | the redirect's user holds exactly id, email, username, isPro, isVerified, avatar, firstName and lastName |
| `OAuthController.ProjectionHidesSecrets` | src/controllers/oauth.controller.js:27-36 | records that sanitize alike project alike, so the projection never reveals a digest or a token |
| `OAuthController.Callback` | src/controllers/oauth.controller.js:17-73 | both callbacks redirect to the frontend URL with the jwt.js token signed at the instant of the call and the projection; a missing user or a signing failure gives `<frontend>?error=oauth_failed` with no token |
| `OAuthController.FailureIsDistinguishable` | src/controllers/oauth.controller.js:37-41 | the error redirect never equals a success redirect |

## Left out

- Email sending (src/utils/email.js) is fire-and-forget behind `.catch` in the handlers, so it is a no-op here.
- server.js, src/config/database.js, src/routes/auth.routes.js and check-oauth.js are not part of this model. They hold transport, connection lifecycle, routing and diagnostics.
- The routes file imports an `authenticateToken` that the middleware does not export; the route table is not modelled.
- bcrypt hashing and comparison are not modelled. Each handler receives the digest, with `matches(password, digest)` and a non-empty digest as preconditions on the environment.
- `crypto.randomBytes`, `Math.random` and `Date` are inputs. `Tokens.ResetCode` takes the integer part of `Math.random() * 900000`; floating-point rounding is not modelled.
- `Tokens.GenerateVerificationToken` models `setHours(+24)` as exactly 86 400 000 ms, so daylight-saving shifts are not captured.
- `Text.Lower` lower-cases ASCII letters only; JavaScript's Unicode case mapping is not modelled.
- `jwt.sign` and `jwt.verify` are parameters. A signing failure, such as a missing secret, is `None`. `sign` receives the signing instant, so tokens signed at different instants may differ. `verify` receives the verification instant. `Jwt.Sound` is the codec law inside the lifetime: a token signed at `at` is accepted with its claims at every instant at which `Jwt.Live(at, v)` holds. `Live` counts in whole seconds, as the library's `iat` and `exp` claims do: `at <= v`, and `v / 1000` is below `at / 1000 + 604 800`. It says nothing about later instants, so a library that answers `Expired` from `exp` on satisfies it. The library's own handling of clock tolerance and `nbf` is not modelled.
- `Jwt.Claims` leaves out the registered `iat` and `exp` claims that `jwt.sign` adds. `Jwt.VerifyToken`, `AuthMiddleware.AuthenticateDecision` and `req.user` therefore carry only the signed payload, not those two timestamps.
- `Users.FindFirst` fixes one ordering for `findFirst`, the least id. The database's own order is not given by the code.
- The database schema is not part of the sources. The model assumes unique columns email, username, googleId and githubId, and autoincrement ids.
- Columns the handlers never set are given assumed schema defaults on create: `isVerified` false for `register` (the OAuth callbacks set it true), `isPro` false, and `createdAt` the instant of the create. `AuthController.Register`, `Passport.GoogleNewUser` and `Passport.GitHubNewUser` state these defaults.
- Request-body fields are `Option<string>`. A JSON body may hold numbers, objects or arrays that pass the `!email` test; those would reach Prisma or bcrypt and end in a 500. Such bodies cannot be expressed here.
- `Passport.GitHubProfile` has a mandatory `username`, and photos are bare URLs. A profile without `username` would throw a TypeError on `toLowerCase`, and a photo entry without `value` would give an `undefined` avatar; neither case can be expressed here.
- `AuthMiddleware.Exchange.Authenticate` models only a synchronous throw of `next` (the `nextThrows` input). An error raised later by an asynchronous downstream handler does not reach this `catch`, and is not modelled.
- Database and connection failures are not modelled: every handler is one atomic step. The 500 replies that remain come from signing failures and from `getCurrentUser` with jwt.js claims.
- Concurrency is not modelled: there are no racing find-then-create or find-then-update sequences, and no retry after a unique violation.
- `AuthController.ResetTokenIsSingleUse` assumes no other account holds the same reset token. Reset tokens are not a unique column, so a second holder would make the second reset succeed on that row.
- `AuthController.ForgotThenReset` assumes no account held the new token before the call.
- `requirePro` with no `req.user` raises an error. That error goes to the framework's error handler; the model reports it through the `raised` result and does not model the handler.
