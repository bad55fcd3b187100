# Stage Locker auth core in Dafny

A model of the account authentication core of the Stage Locker API, with proofs
about it. The service registers users and verifies their email with a signed
link. It resets passwords through a second signed link and logs users in with a
six-month bearer token. It serves a user's own record to a verified bearer of
that token.

The model follows the program's structure:

- `wrappers.dfy` (`Wrappers`): `Option` and `Result`.
- `text.dfy` (`Text`): the JavaScript string operations the core relies on.
  These are `trim` (with the ECMAScript whitespace set), `toLowerCase` on ASCII
  letters, `startsWith`, `includes`, `split` on one character, and `length`
  counted in UTF-16 code units. It also
  defines the normalised form `trim().toLowerCase()` in which emails are stored.
- `schemas.dfy` (`Schemas`): `passwordSchema` and `tokenSchema` of
  `src/lib/schemas.ts`, as predicates on strings.
- `user_schema.dfy` (`UserSchema`): the `users` table of `src/db/schema/auth.ts`.
  The table is a map from id to row; its type makes every email unique. The
  module also holds the weaker signup password rule, the signup and login input
  shapes, and the sanitised projections.
- `http.dfy` (`Http`, `RequestEmail`): status codes, replies, and the pass-or-reject
  outcome of a middleware. It also has the body-email check that both
  `verifyUserStatus` and `rateLimit` run first.
- `jwt.dfy` (`Jwt`): the payloads of `src/lib/jwt.ts`, and the null-on-failure
  wrapper around verification.
- `authenticate.dfy` (`Authenticate`): the two gates of
  `src/middlewares/authenticate.ts`, as functions of the table. Being functions,
  they cannot change it.
- `rate_limit.dfy` (`RateLimit`): the fixed-window limiter.
  - `Consume` is the rule for one request, and `Replay` applies it to a sequence
    of requests.
  - The class `RateLimiter` holds the module-level store and updates it in place.
- `auth_handlers.dfy` (`AuthHandlers`): the route handlers, as methods of a class
  `UserStore` that holds the table.
  - Its invariant `Valid` says that every stored email is normalised, and that a
    verified row has no pending verification token.
  - It also says that every stored token was signed for a payload whose subject
    is the row's own id.
  - Signing is injective, because a compact JWT embeds its payload. Together with
    the invariant, this makes the holder of any stored token unique. Hence after a
    successful verification or reset, no row holds that token any more.
- `auth_routes.dfy` (`AuthRoutes`): the middleware wiring of
  `src/routes/auth/auth.routes.ts`.
  - The resend route sits behind `rateLimit(3, 300000)`, login behind
    `verifyUserStatus`, and `getUser` behind `authenticate`.
  - The module also states end-to-end properties. After a sign-up, three resend
    requests within five minutes are served through the route, the fourth is
    refused with 429, and one after the window is served again. A sign-up,
    verify, replay and login sequence gives the expected replies.

The handlers are modelled as written, including their quirks:

- `login` looks the email up exactly as given. An email that is not already
  normalised passes `verifyUserStatus`, which normalises it, and is then not found
  (`AuthHandlers.UserStore.Login`, `AuthRoutes.LoginRoute`).
- A failed password-reset send clears `verificationToken`, not
  `passwordResetToken` (`AuthHandlers.UserStore.SendPasswordResetEmail`).
- The resend handler's mail call is commented out. It stores a new token and
  answers 200 without sending anything.
- `resetPassword` never verifies the token's signature or expiry. It only matches
  the stored `passwordResetToken`.

The `users` table declared in `src/db/schema/auth.ts` has no `verified`,
`verificationToken` or `passwordResetToken` columns. The model's row takes them
from the handlers that read and write them
(`src/routes/auth/auth.handlers.ts:91,103,127,193,218`).

Oracles: bcrypt `hash` and `compare`, `hono/jwt` `sign` and `verify`, and zod's
`.email()` are function values of an `Oracles` datatype, fixed when a `UserStore`
is made.

Inputs: the clock reading (`Date.now()`), the bcrypt salt, the new id
(`crypto.randomUUID()`), the login `jti` and whether the mail send succeeded
are method parameters.

## Model

| member | source | states |
|---|---|---|
| Text.TrimStart | src/routes/auth/auth.handlers.ts:20 | The result is a suffix of the input. Every dropped character is JavaScript whitespace, and the result does not start with whitespace. |
| Text.TrimEnd | src/routes/auth/auth.handlers.ts:20 | The result is a prefix of the input. Every dropped character is whitespace, and the result does not end with whitespace. |
| Text.ToLowerChar | src/routes/auth/auth.handlers.ts:20 | Lowering a character never yields an upper-case letter, and it keeps whether the character is whitespace. |
| Text.ToLower | src/routes/auth/auth.handlers.ts:20 | Lowering keeps the length. |
| Text.Utf16Length | src/lib/schemas.ts:7 | JavaScript's `length` lies between the number of characters and twice that. |
| Text.Utf16LengthIsLengthIff | src/lib/schemas.ts:7 | `length` equals the number of characters exactly when every character is in the Basic Multilingual Plane. |
| Text.Utf16LengthAppend | src/lib/schemas.ts:7 | The `length` of a concatenation is the sum of the lengths. |
| Text.ToLowerAt | src/routes/auth/auth.handlers.ts:20 | Lowering works position by position. |
| Text.ToLowerAppend | src/routes/auth/auth.handlers.ts:20 | Lowering a concatenation lowers each part. |
| Text.TrimOfTrimmed | src/routes/auth/auth.handlers.ts:20 | A string with no whitespace at either end trims to itself. |
| Text.NormalizedIff | src/middlewares/authenticate.ts:102 | `trim().toLowerCase()` always yields the normalised shape: no whitespace at either end and no A-Z. It fixes exactly the strings of that shape, so normalising is idempotent. |
| Text.ContainsChar | src/lib/schemas.ts:13 | `includes` of a one-character string holds exactly when that character occurs in the string. |
| Text.NotContainsWithoutFirst | src/lib/schemas.ts:14 | A string that lacks the first character of a word does not include the word. |
| Text.Split | src/middlewares/authenticate.ts:25 | `split` yields at least one piece and at least two when the separator occurs. No piece contains the separator, and joining the pieces with it gives the input back. |
| Text.PieceBefore | src/middlewares/authenticate.ts:25 | The longest prefix without the separator: it is a prefix, and it is followed by the separator or by the end. |
| Text.SplitSecondPiece | src/middlewares/authenticate.ts:25 | For a string starting with a separator-free word and the separator, `split` has at least two pieces. The first is the word, and the second is the text after it up to the next separator. |
| Text.SplitFirstPiece | src/middlewares/authenticate.ts:25 | The first piece of `split` is the text up to the first separator. |
| Schemas.PasswordAcceptedIff | src/lib/schemas.ts:5-14 | A password is accepted exactly when its length in UTF-16 code units is at least 8 and at most 128 and it has an A-Z, an a-z, a digit and one of `@$!%*?&#`. It must also contain no space and not include "password". |
| Schemas.UpperCaseWordChecks | src/lib/schemas.ts:8-14 | "aPASSWORD1!" has every required character class, no space and no lower-case "password". |
| Schemas.LowerCaseWordRejected | src/lib/schemas.ts:14 | "Apassword1!" is rejected. |
| Schemas.PasswordWordCheckIsCaseSensitive | src/lib/schemas.ts:14 | "aPASSWORD1!" is accepted and "Apassword1!" is rejected, so the word check is case-sensitive. |
| Schemas.PasswordLengthCountsCodeUnits | src/lib/schemas.ts:7 | "Ab1!" followed by two U+1F600 has 6 characters but `length` 8, and it is accepted. |
| Schemas.TokenAcceptedIffNonEmpty | src/lib/schemas.ts:16 | A token is accepted exactly when it is non-empty. |
| UserSchema.FindByEmail | src/db/schema/auth.ts:18 | The lookup returns a row whose email is exactly the given string. It returns nothing exactly when no row has that email. |
| UserSchema.InsertKeepsUnique | src/db/schema/auth.ts:18 | Inserting a row under a new id with an untaken email keeps emails unique. |
| UserSchema.UpdateKeepsUnique | src/db/schema/auth.ts:18 | Updating a row without changing its email keeps emails unique. |
| UserSchema.SignupPasswordAcceptedIff | src/db/schema/auth.ts:6-12 | The signup rule accepts exactly passwords of length at least 8 UTF-16 code units with an A-Z, an a-z, a digit and a special character. It has no maximum, space or word check. |
| UserSchema.SignupRuleStrictlyWeaker | src/db/schema/auth.ts:6-12 | Every password the library schema accepts passes the signup rule. "Abcd 123!" passes the signup rule but not the library schema. |
| UserSchema.LoginInputIgnoresPassword | src/db/schema/auth.ts:42-49 | Login input validity depends only on the email format, never on the password. With a well-formed email, login accepts the empty password that the signup shape refuses. |
| UserSchema.SelectUser | src/db/schema/auth.ts:27-30 | The sanitised user is the row's id and email. |
| UserSchema.LoginView | src/db/schema/auth.ts:51-58 | The login response is the sanitised user plus the token. |
| UserSchema.ViewsHideSecrets | src/db/schema/auth.ts:27-30 | Two rows with the same email give the same views whatever their passwords, flags and tokens. |
| RequestEmail.RequiredEmail | src/middlewares/authenticate.ts:69-98 | The body email is accepted exactly when the body parses and the email is present, non-empty and well-formed. The accepted value is the raw email. A `null` body gives 500, because reading its `email` throws; every other refusal is a 400. |
| Jwt.EpochSeconds | src/lib/jwt.ts:17 | `floor(nowMs / 1000)`: the second that contains the clock reading. |
| Jwt.LoginClaims | src/lib/jwt.ts:12-25 | The claims carry the given sub and jti, the fixed issuer and audience, and iat = nbf = floor(now/1000). exp - iat is 15552000. |
| Jwt.VerificationClaims | src/lib/jwt.ts:27-36 | The claims carry the given sub and iat = floor(now/1000), with exp - iat = 900. They have no iss, aud, nbf or jti. |
| Jwt.LifetimesOrdered | src/lib/jwt.ts:17-31 | Both kinds of token expire after they are issued. A login token issued at the same moment as a verification token outlives it. |
| Jwt.VerifyJwt | src/lib/jwt.ts:38-49 | The wrapper gives null exactly when verification fails, and the payload otherwise. |
| Authenticate.BearerToken | src/middlewares/authenticate.ts:25 | `split(" ")[1]` of a "Bearer " header is the text after "Bearer ", up to the next space. |
| Authenticate.Authenticate | src/middlewares/authenticate.ts:11-67 | A missing or non-Bearer header gives 401. The gate passes exactly when the token verifies and names a non-empty subject that is a verified user, and it then publishes that user's row. Every refusal is 401 or 403, and it is 403 exactly when the subject is valid but absent or unverified. |
| Authenticate.VerifyUserStatus | src/middlewares/authenticate.ts:69-121 | A bad body gives the body check's reply. The gate passes exactly when a verified row has the normalised email. It gives 404 exactly when no row has it, and 403 exactly when the row that has it is unverified. Once the body check passes, every refusal is 404 or 403; a refusal by the body check is 400, or 500 for a `null` body. |
| RateLimit.KeyInjective | src/middlewares/rate-limit.ts:40 | Two emails share a bucket key exactly when they are the same string. |
| RateLimit.ConsumeKeepsBounds | src/middlewares/rate-limit.ts:43-62 | With limit at least 1, a bucket's count stays between 1 and the limit. |
| RateLimit.Replay | src/middlewares/rate-limit.ts:43-62 | One verdict per request. |
| RateLimit.ReplayPrefix | src/middlewares/rate-limit.ts:43-62 | The verdicts on a prefix of the request times are the prefix of the verdicts. |
| RateLimit.LiveWindowVerdicts | src/middlewares/rate-limit.ts:46-54 | In a live window that has counted `count` requests, the i-th further request passes exactly when count + i < limit. |
| RateLimit.FreshWindowAdmitsLimit | src/middlewares/rate-limit.ts:43-62 | For a key with no bucket, the first `limit` requests of a window pass (at least the first one) and every later one in it is refused. |
| RateLimit.ExpiredWindowReopens | src/middlewares/rate-limit.ts:56-59 | After the window closes, the next request passes and opens a new window with count 1. |
| RateLimit.RateLimiter.constructor | src/middlewares/rate-limit.ts:6 | The shared store starts empty. |
| RateLimit.RateLimiter.RateLimit | src/middlewares/rate-limit.ts:8-67 | A bad body gives the body check's reply and leaves the store as it was. Otherwise the verdict and the new bucket are those of `Consume` on the raw-email key. No bucket gives a pass and {1, now + window}. A full live window gives 429 and no change. A live window with room adds 1 to count. An expired window gives a pass and {1, now + window}. Every other key is unchanged, and counts stay within 1..limit. |
| AuthHandlers.HolderUnique | src/routes/auth/auth.handlers.ts:89-93 | With an injective signer and the store invariant, at most one row holds a given verification or reset token. |
| AuthHandlers.SetKeepsTableOk | src/routes/auth/auth.handlers.ts:102-104 | Writing a row that keeps the row invariant keeps the table invariant. |
| AuthHandlers.NewUser | src/routes/auth/auth.handlers.ts:40-44 | A new row is unverified and holds no tokens. |
| AuthHandlers.UserStore.constructor | src/db/schema/auth.ts:14-25 | The store starts with an empty table and keeps the invariant. |
| AuthHandlers.UserStore.UpdateRow | src/routes/auth/auth.handlers.ts:102-104 | An update keyed by id replaces exactly that row and keeps the invariant. |
| AuthHandlers.UserStore.InsertRow | src/routes/auth/auth.handlers.ts:40-44 | An insert adds exactly that row and keeps the invariant. |
| AuthHandlers.UserStore.InsertWithToken | src/routes/auth/auth.handlers.ts:40-64 | The insert and the token update of `signup` together add exactly one row: the unverified row given, holding the token given or null. The store invariant holds afterwards. |
| AuthHandlers.UserStore.Signup | src/routes/auth/auth.handlers.ts:16-75 | A taken normalised email gives 400 and no change. Otherwise exactly one row is added, with the normalised email and hash(password). Its verification token is the issued one with 201 {id, email} if the send succeeded, and null with 500 if it failed. An id collision gives 500 and no change. |
| AuthHandlers.UserStore.VerifyEmail | src/routes/auth/auth.handlers.ts:77-107 | A failed verification gives 401 and no change. No holder of the token gives 404 and no change. Otherwise the holder becomes verified with its token cleared, the reply is 204, and afterwards no row holds the token. A 204 turns an unverified row into a verified one, so an account is verified at most once. |
| AuthHandlers.UserStore.SendVerificationEmail | src/routes/auth/auth.handlers.ts:109-166 | An unknown normalised email gives 404 and an already verified account gives 400, both with no change. Otherwise only that row's verification token is replaced by a fresh one, and the reply is 200. |
| AuthHandlers.UserStore.SendPasswordResetEmail | src/routes/auth/auth.handlers.ts:168-211 | An unknown email gives 204 and no change. A successful send stores the reset token and gives 204. A failed send clears the verification token, leaves the reset token, and gives 500. |
| AuthHandlers.UserStore.ResetPassword | src/routes/auth/auth.handlers.ts:213-239 | No holder of the reset token gives 401 and no change. Otherwise the holder's password becomes hash(newPassword), its reset token is cleared, and the reply is 200. Afterwards no row holds that token. |
| AuthHandlers.UserStore.Login | src/routes/auth/auth.handlers.ts:241-278 | The raw email is looked up. The reply is 404 exactly when no row has that email, 401 when the password does not match, and otherwise 200 with {id, email} and a login token for that id. A non-normalised email always gives 404. |
| AuthHandlers.UserStore.GetUser | src/routes/auth/auth.handlers.ts:280-309 | A caller other than the requested id always gets 403. Otherwise an absent record gives 404, and a present one 200 with {id, email}. |
| AuthRoutes.ResendVerificationEmailRoute | src/routes/auth/auth.routes.ts:75 | A bad body gives the body check's reply and changes nothing. Otherwise the raw-email bucket becomes what the fixed-window rule gives for limit 3 and window 300000 ms. The reply is 429 exactly when that rule refuses, and then the users are unchanged. A request that passes gets `sendVerificationEmail`'s outcome: 404 or 400 with no change, or 200 with only that row's token replaced. Bucket counts stay within the limit. |
| AuthRoutes.LoginRoute | src/routes/auth/auth.routes.ts:118 | A gate refusal is the reply. After the gate a normalised email gives 200 or 401, and any other email gives 404. With a normalised email, the reply is 200 exactly when the password matches the stored digest of the row with that email. A 200 is for a verified account with exactly that email and carries its id, its email and the login token signed for that id at `nowMs` with the given `jti`. |
| AuthRoutes.GetUserRoute | src/routes/auth/auth.routes.ts:149 | The reply is 200 exactly when the token's verified subject asks for its own record, and then it is that record's {id, email}. The handler's 404 cannot occur behind the gate. A verified caller who asks for another id gets the handler's 403. |
| AuthRoutes.ResendLimitScenario | src/routes/auth/auth.routes.ts:75 | On the limiter's verdicts alone, requests at 0, 1000, 2000, 3000 and 300000 ms pass, pass, pass, are refused and pass. |
| AuthRoutes.SignupThenResend | src/routes/auth/auth.routes.ts:75 | After a sign-up, a resend through the route at once is served with 200 and opens a bucket {1, 300000}. |
| AuthRoutes.ResendInWindow | src/routes/auth/auth.routes.ts:75 | For the only, unverified account, a resend in a live window with room is served with 200 and counted one more, and the account stays unverified. |
| AuthRoutes.SignupThenThreeResends | src/routes/auth/auth.routes.ts:75 | Two more resends within the window are served with 200, and the bucket is full at {3, 300000}. |
| AuthRoutes.ResendBurstScenario | src/routes/auth/auth.routes.ts:75 | Through the route, resends at 0, 1000 and 2000 ms are served and one at 3000 ms gets 429. One at 300000 ms, when the window has closed, is served again. |
| AuthRoutes.ExampleEmailPieces | src/routes/auth/auth.handlers.ts:20 | Lowering the three pieces of "User@Example.com" gives the pieces of "user@example.com". |
| AuthRoutes.ExampleEmailNormalizes | src/routes/auth/auth.handlers.ts:20 | "User@Example.com" is stored as "user@example.com". |
| AuthRoutes.SignupVerifyReplay | src/routes/auth/auth.handlers.ts:16-107 | On an empty store, signup gives 201 with the normalised email, following the link gives 204, and following it again gives 404. The table is then the one row, verified and holding no tokens. |
| AuthRoutes.SignupVerifyLoginScenario | src/routes/auth/auth.routes.ts:118 | After that sequence, logging in through `verifyUserStatus` with the stored email, when it is non-empty and the email check accepts it, and with the right password gives 200 with a login token for the new id. |

## Left out

- Cryptography: bcrypt hashing and comparison, and JWT signing and verification, are oracle functions in `Oracles`. `verify` receives the clock reading; its algorithm and the secret are not modelled.
- Signer injectivity: assumed (a `Valid` conjunct), because a compact JWT carries its encoded payload. It is what makes a stored token's holder unique.
- Email format: zod's `.email()` is the oracle `isEmail`.
- Mailer: `src/lib/email.ts` is not part of this model. A send is the boolean `sendOk`.
- Clock and randomness: `Date.now()`, `crypto.randomUUID()`, the bcrypt salt and the login `jti` are parameters.
- Jwt.LoginClaims: `src/lib/jwt.ts` reads `Date.now()` three times. The model uses one reading, so iat, nbf and exp always agree.
- Jwt.VerificationClaims: `src/lib/jwt.ts:30-31` reads `Date.now()` twice. When a second boundary falls between the reads, `exp - iat` is 901. The model uses one reading and states exactly 900.
- Concurrency: every request is sequential. The async steps, and interleavings on the shared limiter map and the database, are not modelled.
- Database failures: a failing query or update is not modelled. This covers the resend handler's catch branch at `src/routes/auth/auth.handlers.ts:147-160`, which only a failing update reaches.
- Logging, and the commented-out handlers `listUsers`, `patch` and `remove` (`src/routes/auth/auth.handlers.ts:311-374`).
- Timestamps: `createdAt` and `updatedAt` carry no decision logic.
- AuthHandlers.UserStore.Signup: an id collision answers with the plain 500 "Internal Server Error" phrase. The application's error handler and its exact body are not modelled.
- Text.ToLowerChar: only A-Z are lowered. JavaScript lowers every cased letter (À, Σ, ...). That needs the Unicode case tables, which are not modelled.
- Text.ToLower: it inherits that gap. It also keeps the number of characters, whereas JavaScript's full case mapping can change it (İ lowers to two code points).
- RequestEmail.RequiredEmail: a JSON `email` member that is not a string (a number, say) is not modelled; the body holds a string email or none. For a `null` body the model gives 500 with the plain "Internal Server Error" phrase. The application's error handler, outside this model, sends the thrown error's message instead.
- Authenticate.Authenticate: a `sub` claim that is not a string is treated like a missing one.
- Route request validation: the zod body, query and parameter schemas that `@hono/zod-openapi` runs on each route are not modelled. The handlers receive the fields directly.
- Route registration: `src/routes/auth/auth.index.ts:7-9` mounts only signup, login and getUser. The resend, verify and reset routes are modelled as the handlers and wiring describe them.
