# Account lifecycle of the job portal's user controller

This project models the account handlers of the job portal's backend
(`backend/controllers/user.controller.js`): registration with email
verification, login with its ordered checks, reissue of the verification
token, the forgot/reset-password flow, profile update, logout, and the
controller's session gate `isAuthenticated`. The users collection is a
sequence of user documents in insertion order, held by the class
`UserController.UserStore`; `findOne` is the first document that matches
its filter. The store's invariant `Accounts.Consistent` says that ids were
handed out below `nextId` and that ids and emails are unique.

Every handler is a function in module `Accounts` of the stored users and the request. It
returns the reply (status, message, `success`, optional user view and cookie) and, for the
handlers that write, the users afterwards. The store handlers also exist as methods of
`UserStore`:

- register creates the document field by field. verifyEmail, resendVerificationEmail,
  forgotPassword, resetPassword and updateProfile fetch the document, change it field by
  field and save it back, as the controller does. Each postcondition ties the reply and
  the new collection to the function, and each method keeps `Valid()`.
- login is a method that only reads the store; its reply equals `Accounts.Login`.
- logout and isAuthenticated touch no stored document and are functions only.

Properties that span several requests are lemmas in `AccountProperties`. They cover:

- store consistency;
- single use of verification and reset tokens;
- supersession of a reissued verification token;
- the one-hour reset window;
- the register → verify → login flow;
- the session cookie passing the gate.

The libraries are abstracted in module `Crypto`:

- bcrypt is a digest `Hash` that never equals its input, with
  `Compare(p, h) <==> h == Hash(p)`. The model's digest is injective, which bcrypt is not
  (see `Crypto.CompareIsExact` under "## Left out");
- `jwt.sign` is a `Signer`, a function from claims and a lifetime in seconds to a
  non-empty token, bound to the secret and the request time;
- `jwt.verify` is a `Verifier`, from a token to `Option<Claims>`, where `None` stands for a throw.

The current time (`Date.now()`), the outcome of the media upload
(`Upload`) and whether the mail was sent (`mailSent`) are parameters.

Behaviours of the code that the model keeps as written:

- The "Invalid or expired verification token" and "Invalid or expired reset token"
  replies (user.controller.js:216-219, 377-380) are reached only for tokens that
  jwt.verify accepts. A token it rejects, an expired one included, lands in the catch
  block and gets 500 (212, 230-235 and 369, 393-398). `LateResetRejected`,
  `VerifyEmailReplayRejected` and `ResetPasswordSingleUse` state both outcomes.
- Email lookup is exact and case-sensitive (66, 140, 251, 312).
- A verification mail that fails after the account was created yields status 500 with
  `success: true` (106-111). The record stays.
- In resend and forgot-password, a failed mail yields 500 after the new token was already
  saved (267-268, 321-323).
- Register uploads the photo before the duplicate check (47-72). So a failed upload answers
  500 even for a duplicate email, and `RegisterRejects` states the duplicate case only when
  the upload did not fail.

## Model

| member | source | states |
|---|---|---|
| `EmailFormat.EmailRegexCharacterised` | backend/controllers/user.controller.js:39-45 | the email regex accepts exactly the strings with no whitespace, exactly one '@', a non-empty part before it and, after it, a '.' with text on both sides |
| `EmailFormat.RegexImpliesDescribed` | backend/controllers/user.controller.js:39 | every string the regex accepts has no whitespace, a single '@' with text before it and an inner '.' after it |
| `EmailFormat.DescribedImpliesRegex` | backend/controllers/user.controller.js:39 | every string of that description is accepted by the regex |
| `JsText.SplitComma` | backend/controllers/user.controller.js:431-434 | `skills.split(",")` yields at least one piece and no piece contains a comma |
| `JsText.JoinSplit` | backend/controllers/user.controller.js:433 | joining the split skills with commas gives back the input, so the split loses nothing |
| `JsText.SplitJoin` | backend/controllers/user.controller.js:433 | comma-free pieces survive a join followed by a split |
| `Crypto.Hash` | backend/controllers/user.controller.js:74 | the stored digest is never the plaintext password |
| `Crypto.CompareIsExact` | backend/controllers/user.controller.js:155 | a password matches a stored digest exactly when the digest was made from that password |
| `Records.View` | backend/controllers/user.controller.js:175-182 | the user view sent back copies id, fullname, email, phoneNumber, role and profile; its type has no password field |
| `Accounts.FindFirst` | backend/controllers/user.controller.js:213 | findOne returns the first document matching the filter, and none only when no document matches |
| `Accounts.FindByEmail` | backend/controllers/user.controller.js:66 | lookup by email is exact: the found user's email equals the requested one, and nothing is found only when no user has it |
| `Accounts.FindById` | backend/controllers/user.controller.js:437 | findById finds the user with the request id; an undefined id finds nobody |
| `Accounts.NewUser` | backend/controllers/user.controller.js:74-88 | the created document is unverified, carries the verification token and the digest of the password, never the password |
| `Accounts.Register` | backend/controllers/user.controller.js:25-126 | the store changes only when all checks pass (fields, format, upload, no duplicate), and then by one appended record; `success` exactly then; 201 exactly when the mail was also sent, and a failed mail after creation is 500 with `success` true; a failed upload of a well-formed request is the upload 500 |
| `Accounts.SessionCookie` | backend/controllers/user.controller.js:184-185 | the session cookie is named token, holds the signed session token, lives 86400000 ms, httpOnly and same-site strict |
| `Accounts.Login` | backend/controllers/user.controller.js:128-198 | 200 exactly for present fields, a known verified user, a matching password and the stored role; 403 exactly for a known unverified user; unknown email and wrong password give the same 400 reply; a role mismatch 400; success returns the user's view and a cookie with a token signed for the user's id |
| `Accounts.VerifyEmail` | backend/controllers/user.controller.js:200-237 | 200 exactly when some user's email equals the decoded email and its stored token equals the presented one; that user becomes verified with the token cleared; a missing token is the token-missing 400, a token jwt.verify rejects is 500, and a decodable token that matches nobody is the invalid-token 400; otherwise nothing changes |
| `Accounts.ResendVerification` | backend/controllers/user.controller.js:239-298 | unknown email or an already verified user is 400 with no change; otherwise the stored token is replaced by the newly signed one, even when the mail then fails, which is 500 with `success` false; `success` exactly on 200 |
| `Accounts.ForgotPassword` | backend/controllers/user.controller.js:300-354 | for a known email the reset token signed for the user's id and the expiry now + 3600000 are stored, and a failed mail afterwards is 500 with `success` false; an unknown email is 400 with no change; `success` exactly on 200 |
| `Accounts.ResetPassword` | backend/controllers/user.controller.js:356-400 | 200 exactly when some user matches the decoded id, the stored reset token and an expiry strictly after now; that user gets the new digest with both reset fields cleared; a missing token or password is the fields-required 400, a rejected token is 500, and a decodable token that matches nobody is the invalid-token 400 |
| `Accounts.Logout` | backend/controllers/user.controller.js:402-415 | logout answers 200 and clears the token cookie (empty value, maxAge 0) |
| `Accounts.Overwrite` | backend/controllers/user.controller.js:446-448 | a truthy input replaces the field, a falsy one leaves it |
| `Accounts.ApplyProfileForm` | backend/controllers/user.controller.js:431-454 | only fullname, email, phone number, bio, skills (the comma split) and the resume fields change, each only when its input is truthy or a file was uploaded; id, password, role, verification and reset state stay |
| `Accounts.UpdateProfile` | backend/controllers/user.controller.js:417-479 | a failed upload is 500 and an unknown id 400 "User not found", both with no change; 200 exactly when a user with the request id is found and the rewritten email is not another user's, and then only that user is rewritten with the overwrites and its view returned; an email collision is 500 with no change |
| `Accounts.IsAuthenticated` | backend/controllers/user.controller.js:481-508 | a missing cookie or a token jwt.verify rejects is 401; otherwise the request proceeds with the decoded userId as its id |
| `AccountProperties.FindByEmailIsTheOwner` | backend/controllers/user.controller.js:66 | in a consistent store findOne by email finds the one user holding that email |
| `AccountProperties.FindByIdIsTheOwner` | backend/controllers/user.controller.js:437 | in a consistent store findById finds the one user holding that id |
| `AccountProperties.ReplaceKeepsConsistent` | backend/controllers/user.controller.js:224 | saving a document with its id kept and an email no other user holds keeps ids and emails unique |
| `AccountProperties.RegisterKeepsConsistent` | backend/controllers/user.controller.js:66-88 | register keeps ids and emails unique and uses up one id exactly when it creates a record |
| `AccountProperties.VerifyEmailKeepsConsistent` | backend/controllers/user.controller.js:222-224 | verifyEmail keeps the store consistent |
| `AccountProperties.ResendKeepsConsistent` | backend/controllers/user.controller.js:267-268 | resendVerificationEmail keeps the store consistent |
| `AccountProperties.ForgotKeepsConsistent` | backend/controllers/user.controller.js:321-323 | forgotPassword keeps the store consistent |
| `AccountProperties.ResetKeepsConsistent` | backend/controllers/user.controller.js:384-387 | resetPassword keeps the store consistent |
| `AccountProperties.UpdateProfileKeepsConsistent` | backend/controllers/user.controller.js:446-456 | updateProfile keeps the store consistent |
| `AccountProperties.RegisterRejects` | backend/controllers/user.controller.js:31-45 | an empty field, a bad email format, or (when the upload did not fail) an existing user with that email gives 400 and leaves the store unchanged |
| `AccountProperties.RegisterCreatesOneUnverified` | backend/controllers/user.controller.js:74-118 | a successful register leaves exactly one record with that email, unverified, holding the password's digest and a non-empty token, and keeps all earlier records |
| `AccountProperties.RegisterTwiceRejected` | backend/controllers/user.controller.js:66-72 | registering the same email again is refused with 400 "User already exists with this email" and no change |
| `AccountProperties.VerifyEmailReplayRejected` | backend/controllers/user.controller.js:212-224 | after a token verified an email, presenting the same token again changes nothing: 400 while it still decodes, 500 once jwt.verify rejects it |
| `AccountProperties.ResendSupersedesOldToken` | backend/controllers/user.controller.js:266-268 | after a reissue, any other token for the same email no longer verifies it (400) |
| `AccountProperties.ResetPasswordSingleUse` | backend/controllers/user.controller.js:370-387 | after a successful reset, using the same token again changes nothing: 400 while it still decodes (or the password is missing), 500 once jwt.verify rejects it |
| `AccountProperties.LateResetRejected` | backend/controllers/user.controller.js:320-323 | a reset attempted an hour or more after the request never succeeds: 400 when the token still decodes, 500 when jwt.verify rejects it |
| `AccountProperties.TimelyResetSucceeds` | backend/controllers/user.controller.js:370-387 | within the hour the issued reset token sets the user's digest to the new password's and clears both reset fields |
| `AccountProperties.RegisterVerifyLogin` | backend/controllers/user.controller.js:74-88 | register, verification with the stored token, then login with the same credentials succeeds and returns that user |
| `AccountProperties.LogoutCookieFailsGate` | backend/controllers/user.controller.js:402-415 | the cookie logout leaves behind is refused by the session gate with the not-authenticated 401 |
| `AccountProperties.LoginCookiePassesGate` | backend/controllers/user.controller.js:170-185 | the cookie of a successful login passes the session gate, which attaches the id that finds the same user |
| `UserController.UserStore.Register` | backend/controllers/user.controller.js:25-126 | creates the document with the next id after the checks, keeps the store consistent, and agrees with `Accounts.Register` |
| `UserController.UserStore.Login` | backend/controllers/user.controller.js:128-198 | reads the store only and answers as `Accounts.Login` |
| `UserController.UserStore.VerifyEmail` | backend/controllers/user.controller.js:200-237 | sets isVerified and clears the token on the fetched document, saves it, and agrees with `Accounts.VerifyEmail` |
| `UserController.UserStore.ResendVerificationEmail` | backend/controllers/user.controller.js:239-298 | overwrites the stored token, saves, and agrees with `Accounts.ResendVerification` |
| `UserController.UserStore.ForgotPassword` | backend/controllers/user.controller.js:300-354 | sets the reset token and expiry, saves, and agrees with `Accounts.ForgotPassword` |
| `UserController.UserStore.ResetPassword` | backend/controllers/user.controller.js:356-400 | replaces the digest and clears the reset fields, saves, and agrees with `Accounts.ResetPassword` |
| `UserController.UserStore.ApplyProfileFields` | backend/controllers/user.controller.js:446-454 | the field-by-field overwrites give exactly `Accounts.ApplyProfileForm` |
| `UserController.UserStore.UpdateProfile` | backend/controllers/user.controller.js:417-479 | rewrites the requested user's document and agrees with `Accounts.UpdateProfile` |

## Left out

- Mail: nodemailer and every `sendMail` call are network I/O. The model keeps only whether
  the send succeeded (`mailSent`). The record is saved before the send in every handler.
- Media upload: Cloudinary and `getDataUri` are an external service. The model keeps only
  the outcome (`Upload`: no file, a secure URL with the original name, or a failure).
- Crypto.Hash: bcrypt's random salt and cost factor are not modelled. Hashing the same
  password twice gives the same digest here; bcrypt gives different digests that compare equal.
- Crypto.CompareIsExact: its "only when" direction holds of the model's injective digest,
  not of bcryptjs, which hashes only the first 72 bytes of the UTF-8 password. Two
  passwords that share those 72 bytes compare equal in bcryptjs, so a login with such a
  password gets 200 in the code (155-161) and 400 in the model.
- JSON Web Tokens: signing, the signature check and the token's own expiry are inside
  `Signer` and `Verifier`. The lemmas about a token at a later request require that it
  either fails to decode or decodes to the claims it was signed with (`Crypto.DecodesTo`):
  `LateResetRejected`, `VerifyEmailReplayRejected`, `ResetPasswordSingleUse`.
  `TimelyResetSucceeds`, `RegisterVerifyLogin` and `LoginCookiePassesGate` require the token
  to decode to its claims outright, since they describe a token used before it expires.
- AccountProperties.ResendSupersedesOldToken: it assumes that the new token differs from
  the stale one. jwt.sign gives the same token for the same email within one second, and
  then the old token still verifies.
- isAuthenticated: the `!decode` branch ("Invalid token") is not modelled. jwt.verify
  returns a payload object or throws, so the model has no falsy payload. The route file
  wires a separate middleware, `backend/middlewares/isAuthenticated.js`, which is not part
  of this model; the controller's own `isAuthenticated` is modelled.
- Documents: `backend/models/user.model.js` is not part of this model.
  - The schema file is not available; the model assumes a unique index on email. A save
    that would duplicate an email fails with 500.
  - Schema defaults are not modelled: absent profile fields are `None`, skills start as [].
  - Ids are sequential numbers instead of ObjectIds.
- Database failures other than the unique index are not modelled. Neither are the generic
  500 replies of the catch blocks they would reach.
- Mongoose filters on an undefined value: a verification token whose payload has no email
  (`Accounts.AwaitsVerification`), or a reset token whose payload has no `userId`
  (`Accounts.AwaitsReset`, lines 370-374), matches no user here. Mongoose drops a condition
  on `undefined`, so the source would then match on the stored token (and, for a reset, the
  expiry) alone. Tokens the handlers sign always carry the field, so they never reach this case.
- Request bodies: every field is a string, and a missing field is the empty string. JSON
  values of other types (numbers, objects) are not modelled.
- Concurrency: concurrent duplicate registrations and async scheduling are left out, and so
  is console logging.
- Other files: `backend/utils/seed.js` (demo data), `backend/routes/user.route.js` (route
  wiring), the React components and hooks, and `frontend/vite.config.js` are outside the core.
