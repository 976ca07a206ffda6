/**
 * The account handlers of the user controller as functions of the stored
 * users and the request: each returns the HTTP reply and the users after
 * the handler ran. The store is the sequence of user documents in insertion
 * order, so `findOne` is the first document that matches the filter.
 */
module Accounts {
  import opened Wrappers
  import opened Records
  import opened Crypto
  import opened JsText
  import EmailFormat

  const MsgRegisterFieldsRequired := "All fields (fullname, email, phoneNumber, password, role) are required"
  const MsgInvalidEmail := "Invalid email format"
  const MsgPhotoUploadFailed := "Failed to upload profile photo to Cloudinary"
  const MsgUserExists := "User already exists with this email"
  const MsgAccountCreatedMailFailed := "Failed to send verification email, but account created"
  const MsgAccountCreated := "Account created successfully. Please verify your email."
  const MsgLoginFieldsRequired := "All fields (email, password, role) are required"
  const MsgIncorrectCredentials := "Incorrect email or password"
  const MsgVerifyBeforeLogin := "Please verify your email before logging in"
  const MsgWrongRole := "Account doesn't exist with current role"
  const MsgWelcomeBack := "Welcome back "
  const MsgVerificationTokenMissing := "Verification token is missing"
  const MsgInvalidVerificationToken := "Invalid or expired verification token"
  const MsgEmailVerified := "Email verified successfully"
  const MsgVerifyServerError := "Server error during email verification"
  const MsgEmailRequired := "Email is required"
  const MsgUserNotFound := "User not found"
  const MsgAlreadyVerified := "Email is already verified"
  const MsgVerificationResent := "Verification email resent successfully (email sending disabled)"
  const MsgResendFailed := "Failed to resend verification email"
  const MsgResetLinkSent := "Password reset link sent to your email (email sending disabled)"
  const MsgForgotServerError := "Server error during forgot password"
  const MsgResetFieldsRequired := "Token and new password are required"
  const MsgInvalidResetToken := "Invalid or expired reset token"
  const MsgPasswordReset := "Password reset successfully"
  const MsgResetServerError := "Server error during password reset"
  const MsgLoggedOut := "Logged out successfully"
  const MsgProfileUpdated := "Profile updated successfully"
  const MsgProfileServerError := "Server error during profile update"
  const MsgNotAuthenticated := "User not authenticated"
  const MsgAuthenticationFailed := "Authentication failed"

  /** The name of the session cookie. */
  const SessionCookieName := "token"
  /** maxAge of the session cookie: 1 * 24 * 60 * 60 * 1000 ms. */
  const SessionCookieMaxAgeMs: nat := 1 * 24 * 60 * 60 * 1000
  /** How long a password-reset request stays usable in the store: one hour in ms. */
  const ResetWindowMs: nat := 3600000

  /** The outcome of one handler: its reply and the stored users afterwards. */
  datatype Step = Step(reply: Reply, users: seq<User>)

  /** The result of a file upload to the media host; NoFile when the request had none. */
  datatype Upload = NoFile | Uploaded(secureUrl: string, originalName: string) | UploadFailed

  /**
   * The store's own guarantees: every id was handed out before `nextId`, and
   * ids and emails are unique (the collection has a unique index on email).
   */
  ghost predicate Consistent(users: seq<User>, nextId: Id)
  {
    && (forall i :: 0 <= i < |users| ==> users[i].id < nextId)
    && (forall i, j :: 0 <= i < |users| && 0 <= j < |users| && i != j ==> users[i].id != users[j].id)
    && (forall i, j :: 0 <= i < |users| && 0 <= j < |users| && i != j ==> users[i].email != users[j].email)
  }

  // ---------------------------------------------------------------------
  // Queries

  /** findOne(filter): the position of the first stored user the filter matches. */
  function FindFirst(users: seq<User>, matches: User -> bool): (r: Option<nat>)
    ensures r.Some? ==> r.value < |users| && matches(users[r.value])
    ensures r.Some? ==> forall j :: 0 <= j < r.value ==> !matches(users[j])
    ensures r.None? <==> forall j :: 0 <= j < |users| ==> !matches(users[j])
  {
    if |users| == 0 then None
    else if matches(users[0]) then Some(0)
    else match FindFirst(users[1..], matches)
      case None => None
      case Some(k) =>
        assert forall j :: 1 <= j < k + 1 ==> users[j] == users[1..][j - 1];
        Some(k + 1)
  }

  /** findOne({ email }): an exact, case-sensitive comparison. */
  function FindByEmail(users: seq<User>, email: string): (r: Option<nat>)
    ensures r.Some? ==> r.value < |users| && users[r.value].email == email
    ensures r.None? <==> forall j :: 0 <= j < |users| ==> users[j].email != email
  {
    FindFirst(users, (u: User) => u.email == email)
  }

  /** findById(id); an undefined request id finds nobody. */
  function FindById(users: seq<User>, id: Option<Id>): (r: Option<nat>)
    ensures r.Some? ==> r.value < |users| && Some(users[r.value].id) == id
    ensures r.None? <==> forall j :: 0 <= j < |users| ==> Some(users[j].id) != id
  {
    FindFirst(users, (u: User) => Some(u.id) == id)
  }

  // ---------------------------------------------------------------------
  // register

  datatype RegisterForm = RegisterForm(fullname: string, email: string, phoneNumber: string, password: string, role: string)

  predicate RegisterFieldsPresent(form: RegisterForm)
  {
    Truthy(form.fullname) && Truthy(form.email) && Truthy(form.phoneNumber) && Truthy(form.password) && Truthy(form.role)
  }

  /** Every check of register passes, so a record is created. */
  predicate RegisterAccepted(users: seq<User>, form: RegisterForm, upload: Upload)
  {
    && RegisterFieldsPresent(form)
    && EmailFormat.MatchesEmailRegex(form.email)
    && upload != UploadFailed
    && FindByEmail(users, form.email).None?
  }

  /** The profile photo URL stored on registration: the upload's URL, or ''. */
  function PhotoUrl(upload: Upload): (url: string)
  {
    if upload.Uploaded? then upload.secureUrl else ""
  }

  /** The document User.create stores for a registration. */
  function NewUser(id: Id, form: RegisterForm, photo: string, token: Jws): (u: User)
    ensures u.email == form.email && !u.isVerified && u.verificationToken == Some(token)
    ensures u.password == Hash(form.password) && u.password != form.password
  {
    User(id, form.fullname, form.email, form.phoneNumber, Hash(form.password), form.role,
         Profile(None, [], None, None, photo), false, Some(token), None, None)
  }

  /**
   * register: required fields, email format, photo upload, duplicate check,
   * then create the unverified user and send the verification mail
   * (`mailSent` is whether transporter.sendMail succeeded).
   */
  function Register(users: seq<User>, id: Id, form: RegisterForm, upload: Upload, sign: Signer, mailSent: bool): (s: Step)
    ensures RegisterAccepted(users, form, upload) ==>
      s.users == users + [NewUser(id, form, PhotoUrl(upload), sign(Claims(Some(form.email), None), VerificationTtl))]
    ensures !RegisterAccepted(users, form, upload) ==> s.users == users && !s.reply.success
    ensures s.reply.success <==> RegisterAccepted(users, form, upload)
    ensures s.reply.status == Created201 <==> RegisterAccepted(users, form, upload) && mailSent
    ensures RegisterAccepted(users, form, upload) && !mailSent ==>
      s.reply.status == ServerError500 && s.reply.success
    ensures RegisterFieldsPresent(form) && EmailFormat.MatchesEmailRegex(form.email) && upload == UploadFailed ==>
      s.reply == Fail(ServerError500, MsgPhotoUploadFailed)
  {
    if !RegisterFieldsPresent(form) then Step(Fail(BadRequest400, MsgRegisterFieldsRequired), users)
    else if !EmailFormat.MatchesEmailRegex(form.email) then Step(Fail(BadRequest400, MsgInvalidEmail), users)
    else if upload == UploadFailed then Step(Fail(ServerError500, MsgPhotoUploadFailed), users)
    else if FindByEmail(users, form.email).Some? then Step(Fail(BadRequest400, MsgUserExists), users)
    else
      var token := sign(Claims(Some(form.email), None), VerificationTtl);
      var created := users + [NewUser(id, form, PhotoUrl(upload), token)];
      if !mailSent then Step(Reply(ServerError500, MsgAccountCreatedMailFailed, true, None, None), created)
      else Step(Reply(Created201, MsgAccountCreated, true, None, None), created)
  }

  // ---------------------------------------------------------------------
  // login

  /** The httpOnly, same-site-strict session cookie login sets. */
  function SessionCookie(token: Jws): (c: Cookie)
    ensures c.name == SessionCookieName && c.value == token && c.httpOnly && c.sameSiteStrict
    ensures c.maxAgeMs == 86400000
  {
    Cookie(SessionCookieName, token, SessionCookieMaxAgeMs, true, true)
  }

  predicate LoginFieldsPresent(email: string, password: string, role: string)
  {
    Truthy(email) && Truthy(password) && Truthy(role)
  }

  /**
   * login: the checks run in a fixed order (existence, verified, password,
   * role); an unknown email and a wrong password get the same reply. The
   * store is only read.
   */
  function Login(users: seq<User>, email: string, password: string, role: string, sign: Signer): (r: Reply)
    ensures var found := FindByEmail(users, email);
      && (r.status == Ok200 <==>
            LoginFieldsPresent(email, password, role) && found.Some?
            && users[found.value].isVerified
            && Compare(password, users[found.value].password)
            && role == users[found.value].role)
      && (r.status == Forbidden403 <==>
            LoginFieldsPresent(email, password, role) && found.Some? && !users[found.value].isVerified)
      && (r.status == BadRequest400 && r.message == MsgIncorrectCredentials <==>
            LoginFieldsPresent(email, password, role)
            && (found.None? || (users[found.value].isVerified && !Compare(password, users[found.value].password))))
      && (r.status == BadRequest400 && r.message == MsgIncorrectCredentials ==> r == Fail(BadRequest400, MsgIncorrectCredentials))
      && (r.status == BadRequest400 && r.message == MsgWrongRole <==>
            LoginFieldsPresent(email, password, role) && found.Some?
            && users[found.value].isVerified
            && Compare(password, users[found.value].password)
            && role != users[found.value].role)
      && (r.status == Ok200 ==>
            && r.success
            && r.user == Some(View(users[found.value]))
            && r.cookie == Some(SessionCookie(sign(Claims(None, Some(users[found.value].id)), SessionTtl))))
      && (r.status != Ok200 ==> r.status in {BadRequest400, Forbidden403} && r.user == None && r.cookie == None)
  {
    if !LoginFieldsPresent(email, password, role) then Fail(BadRequest400, MsgLoginFieldsRequired)
    else match FindByEmail(users, email)
      case None => Fail(BadRequest400, MsgIncorrectCredentials)
      case Some(i) =>
        var u := users[i];
        if !u.isVerified then Fail(Forbidden403, MsgVerifyBeforeLogin)
        else if !Compare(password, u.password) then Fail(BadRequest400, MsgIncorrectCredentials)
        else if role != u.role then Fail(BadRequest400, MsgWrongRole)
        else
          var token := sign(Claims(None, Some(u.id)), SessionTtl);
          Reply(Ok200, MsgWelcomeBack + u.fullname, true, Some(View(u)), Some(SessionCookie(token)))
  }

  // ---------------------------------------------------------------------
  // verifyEmail

  /** The filter `{ email: decoded.email, verificationToken: token }`. */
  predicate AwaitsVerification(u: User, claims: Claims, token: string)
  {
    Some(u.email) == claims.email && u.verificationToken == Some(token)
  }

  /**
   * verifyEmail: a missing token is rejected, a token jwt.verify throws on
   * ends in the catch block (500), and otherwise the user whose email and
   * stored token both match is marked verified and the token is cleared.
   */
  function VerifyEmail(users: seq<User>, token: string, verify: Verifier): (s: Step)
    ensures |s.users| == |users|
    ensures s.reply.status == Ok200 <==>
      Truthy(token) && verify(token).Some?
      && exists i :: 0 <= i < |users| && AwaitsVerification(users[i], verify(token).value, token)
    ensures s.reply.status == Ok200 ==>
      exists i :: 0 <= i < |users| && AwaitsVerification(users[i], verify(token).value, token)
        && s.users == users[i := users[i].(isVerified := true, verificationToken := None)]
    ensures s.reply.status != Ok200 ==> s.users == users && !s.reply.success
    ensures !Truthy(token) ==> s.reply == Fail(BadRequest400, MsgVerificationTokenMissing)
    ensures Truthy(token) && verify(token).None? ==> s.reply == Fail(ServerError500, MsgVerifyServerError)
    ensures Truthy(token) && verify(token).Some? && s.reply.status != Ok200 ==>
      s.reply == Fail(BadRequest400, MsgInvalidVerificationToken)
  {
    if !Truthy(token) then Step(Fail(BadRequest400, MsgVerificationTokenMissing), users)
    else match verify(token)
      case None => Step(Fail(ServerError500, MsgVerifyServerError), users)
      case Some(claims) =>
        match FindFirst(users, (u: User) => AwaitsVerification(u, claims, token))
        case None => Step(Fail(BadRequest400, MsgInvalidVerificationToken), users)
        case Some(i) =>
          var u := users[i].(isVerified := true, verificationToken := None);
          Step(Reply(Ok200, MsgEmailVerified, true, None, None), users[i := u])
  }

  // ---------------------------------------------------------------------
  // resendVerificationEmail

  /** The reissue goes ahead: the email is given, known and not yet verified. */
  predicate ResendAccepted(users: seq<User>, email: string)
  {
    Truthy(email) && FindByEmail(users, email).Some? && !users[FindByEmail(users, email).value].isVerified
  }

  /**
   * resendVerificationEmail: overwrite the stored verification token with a
   * new one. The record is saved before the mail is sent, so a failed send
   * (500) still leaves the new token in place.
   */
  function ResendVerification(users: seq<User>, email: string, sign: Signer, mailSent: bool): (s: Step)
    ensures ResendAccepted(users, email) ==>
      var i := FindByEmail(users, email).value;
      s.users == users[i := users[i].(verificationToken := Some(sign(Claims(Some(email), None), VerificationTtl)))]
    ensures !ResendAccepted(users, email) ==> s.users == users && s.reply.status == BadRequest400
    ensures s.reply.status == Ok200 <==> ResendAccepted(users, email) && mailSent
    ensures ResendAccepted(users, email) && !mailSent ==> s.reply == Fail(ServerError500, MsgResendFailed)
    ensures s.reply.success <==> ResendAccepted(users, email) && mailSent
  {
    if !Truthy(email) then Step(Fail(BadRequest400, MsgEmailRequired), users)
    else match FindByEmail(users, email)
      case None => Step(Fail(BadRequest400, MsgUserNotFound), users)
      case Some(i) =>
        if users[i].isVerified then Step(Fail(BadRequest400, MsgAlreadyVerified), users)
        else
          var token := sign(Claims(Some(email), None), VerificationTtl);
          var saved := users[i := users[i].(verificationToken := Some(token))];
          if !mailSent then Step(Fail(ServerError500, MsgResendFailed), saved)
          else Step(Reply(Ok200, MsgVerificationResent, true, None, None), saved)
  }

  // ---------------------------------------------------------------------
  // forgotPassword

  predicate ForgotAccepted(users: seq<User>, email: string)
  {
    Truthy(email) && FindByEmail(users, email).Some?
  }

  /**
   * forgotPassword: store a reset token signed for the user's id and an
   * expiry one hour after `now` (Date.now() in ms); the record is saved
   * before the mail is sent.
   */
  function ForgotPassword(users: seq<User>, email: string, sign: Signer, mailSent: bool, now: int): (s: Step)
    ensures ForgotAccepted(users, email) ==>
      var i := FindByEmail(users, email).value;
      s.users == users[i := users[i].(
        resetPasswordToken := Some(sign(Claims(None, Some(users[i].id)), ResetTtl)),
        resetPasswordExpires := Some(now + 3600000))]
    ensures !ForgotAccepted(users, email) ==> s.users == users && s.reply.status == BadRequest400
    ensures s.reply.status == Ok200 <==> ForgotAccepted(users, email) && mailSent
    ensures ForgotAccepted(users, email) && !mailSent ==> s.reply == Fail(ServerError500, MsgForgotServerError)
    ensures s.reply.success <==> ForgotAccepted(users, email) && mailSent
  {
    if !Truthy(email) then Step(Fail(BadRequest400, MsgEmailRequired), users)
    else match FindByEmail(users, email)
      case None => Step(Fail(BadRequest400, MsgUserNotFound), users)
      case Some(i) =>
        var token := sign(Claims(None, Some(users[i].id)), ResetTtl);
        var saved := users[i := users[i].(resetPasswordToken := Some(token), resetPasswordExpires := Some(now + ResetWindowMs))];
        if !mailSent then Step(Fail(ServerError500, MsgForgotServerError), saved)
        else Step(Reply(Ok200, MsgResetLinkSent, true, None, None), saved)
  }

  // ---------------------------------------------------------------------
  // resetPassword

  /** The filter `{ _id: decoded.userId, resetPasswordToken: token, resetPasswordExpires: { $gt: now } }`. */
  predicate AwaitsReset(u: User, claims: Claims, token: string, now: int)
  {
    && Some(u.id) == claims.userId
    && u.resetPasswordToken == Some(token)
    && u.resetPasswordExpires.Some? && u.resetPasswordExpires.value > now
  }

  /**
   * resetPassword: the user whose id, stored reset token and unexpired
   * expiry all match gets the new digest, and both reset fields are cleared.
   */
  function ResetPassword(users: seq<User>, token: string, password: string, verify: Verifier, now: int): (s: Step)
    ensures |s.users| == |users|
    ensures s.reply.status == Ok200 <==>
      Truthy(token) && Truthy(password) && verify(token).Some?
      && exists i :: 0 <= i < |users| && AwaitsReset(users[i], verify(token).value, token, now)
    ensures s.reply.status == Ok200 ==>
      exists i :: 0 <= i < |users| && AwaitsReset(users[i], verify(token).value, token, now)
        && s.users == users[i := users[i].(password := Hash(password), resetPasswordToken := None, resetPasswordExpires := None)]
    ensures s.reply.status != Ok200 ==> s.users == users && !s.reply.success
    ensures !Truthy(token) || !Truthy(password) ==> s.reply == Fail(BadRequest400, MsgResetFieldsRequired)
    ensures Truthy(token) && Truthy(password) && verify(token).None? ==> s.reply == Fail(ServerError500, MsgResetServerError)
    ensures Truthy(token) && Truthy(password) && verify(token).Some? && s.reply.status != Ok200 ==>
      s.reply == Fail(BadRequest400, MsgInvalidResetToken)
  {
    if !Truthy(token) || !Truthy(password) then Step(Fail(BadRequest400, MsgResetFieldsRequired), users)
    else match verify(token)
      case None => Step(Fail(ServerError500, MsgResetServerError), users)
      case Some(claims) =>
        match FindFirst(users, (u: User) => AwaitsReset(u, claims, token, now))
        case None => Step(Fail(BadRequest400, MsgInvalidResetToken), users)
        case Some(i) =>
          var u := users[i].(password := Hash(password), resetPasswordToken := None, resetPasswordExpires := None);
          Step(Reply(Ok200, MsgPasswordReset, true, None, None), users[i := u])
  }

  // ---------------------------------------------------------------------
  // logout

  /** logout: clear the session cookie; nothing is kept on the server. */
  function Logout(): (r: Reply)
    ensures r.status == Ok200 && r.success
    ensures r.cookie.Some? && r.cookie.value.name == SessionCookieName
    ensures r.cookie.value.value == "" && r.cookie.value.maxAgeMs == 0
  {
    Reply(Ok200, MsgLoggedOut, true, None, Some(Cookie(SessionCookieName, "", 0, false, false)))
  }

  // ---------------------------------------------------------------------
  // updateProfile

  datatype ProfileForm = ProfileForm(fullname: string, email: string, phoneNumber: string, bio: string, skills: string)

  /** `if (input) field = input`: a falsy input leaves the field as it was. */
  function Overwrite(current: string, input: string): (v: string)
    ensures Truthy(input) ==> v == input
    ensures !Truthy(input) ==> v == current
  {
    if Truthy(input) then input else current
  }

  /** The record after the conditional overwrites of updateProfile. */
  function ApplyProfileForm(u: User, form: ProfileForm, upload: Upload): (v: User)
    ensures v.id == u.id && v.password == u.password && v.role == u.role
    ensures v.isVerified == u.isVerified && v.verificationToken == u.verificationToken
    ensures v.resetPasswordToken == u.resetPasswordToken && v.resetPasswordExpires == u.resetPasswordExpires
    ensures v.fullname == Overwrite(u.fullname, form.fullname) && v.email == Overwrite(u.email, form.email)
    ensures v.phoneNumber == Overwrite(u.phoneNumber, form.phoneNumber)
    ensures v.profile.profilePhoto == u.profile.profilePhoto
    ensures Truthy(form.bio) ==> v.profile.bio == Some(form.bio)
    ensures upload.Uploaded? ==> v.profile.resume == Some(upload.secureUrl) && v.profile.resumeOriginalName == Some(upload.originalName)
    ensures !upload.Uploaded? ==> v.profile.resume == u.profile.resume && v.profile.resumeOriginalName == u.profile.resumeOriginalName
    ensures Truthy(form.skills) ==> v.profile.skills == SplitComma(form.skills) && JoinComma(v.profile.skills) == form.skills
    ensures !Truthy(form.skills) ==> v.profile.skills == u.profile.skills
    ensures !Truthy(form.bio) ==> v.profile.bio == u.profile.bio
  {
    var p := u.profile;
    var p := if Truthy(form.bio) then p.(bio := Some(form.bio)) else p;
    var p := if Truthy(form.skills) then p.(skills := SplitComma(form.skills)) else p;
    var p := if upload.Uploaded? then p.(resume := Some(upload.secureUrl), resumeOriginalName := Some(upload.originalName)) else p;
    JoinSplit(form.skills);
    u.(fullname := Overwrite(u.fullname, form.fullname),
       email := Overwrite(u.email, form.email),
       phoneNumber := Overwrite(u.phoneNumber, form.phoneNumber),
       profile := p)
  }

  /** The save would put a second user on an email the unique index already holds. */
  predicate EmailTakenByOther(users: seq<User>, i: nat, email: string)
  {
    exists j :: 0 <= j < |users| && j != i && users[j].email == email
  }

  /**
   * updateProfile, for the user id the session gate attached: a failed
   * upload throws (500) before anything else; an unknown id is 400; a save
   * that collides with another user's email fails (500) and changes nothing.
   */
  function UpdateProfile(users: seq<User>, requestId: Option<Id>, form: ProfileForm, upload: Upload): (s: Step)
    ensures |s.users| == |users|
    ensures upload == UploadFailed ==> s.reply.status == ServerError500 && s.users == users
    ensures upload != UploadFailed && FindById(users, requestId).None? ==>
      s.reply == Fail(BadRequest400, MsgUserNotFound) && s.users == users
    ensures s.reply.status == Ok200 ==>
      var i := FindById(users, requestId).value;
      && s.users == users[i := ApplyProfileForm(users[i], form, upload)]
      && s.reply.user == Some(View(ApplyProfileForm(users[i], form, upload)))
    ensures s.reply.status != Ok200 ==> s.users == users && !s.reply.success
    ensures s.reply.status == Ok200 <==>
      && upload != UploadFailed
      && FindById(users, requestId).Some?
      && var i := FindById(users, requestId).value;
         !EmailTakenByOther(users, i, ApplyProfileForm(users[i], form, upload).email)
    ensures upload != UploadFailed && FindById(users, requestId).Some? ==>
      var i := FindById(users, requestId).value;
      EmailTakenByOther(users, i, ApplyProfileForm(users[i], form, upload).email) ==>
        s.reply == Fail(ServerError500, MsgProfileServerError) && s.users == users
  {
    if upload == UploadFailed then Step(Fail(ServerError500, MsgProfileServerError), users)
    else match FindById(users, requestId)
      case None => Step(Fail(BadRequest400, MsgUserNotFound), users)
      case Some(i) =>
        var v := ApplyProfileForm(users[i], form, upload);
        if EmailTakenByOther(users, i, v.email) then Step(Fail(ServerError500, MsgProfileServerError), users)
        else Step(Reply(Ok200, MsgProfileUpdated, true, Some(View(v)), None), users[i := v])
  }

  // ---------------------------------------------------------------------
  // isAuthenticated

  /** What the session gate does with a request: pass it on with `req.id`, or answer it. */
  datatype Gate = Proceed(requestId: Option<Id>) | Reject(reply: Reply)

  /**
   * isAuthenticated: no cookie is 401; a token jwt.verify throws on is caught
   * and also 401; otherwise the decoded userId becomes `req.id`.
   */
  function IsAuthenticated(cookieToken: string, verify: Verifier): (g: Gate)
    ensures g.Proceed? <==> Truthy(cookieToken) && verify(cookieToken).Some?
    ensures g.Proceed? ==> g.requestId == verify(cookieToken).value.userId
    ensures g.Reject? ==> g.reply.status == Unauthorized401 && !g.reply.success
    ensures !Truthy(cookieToken) ==> g == Reject(Fail(Unauthorized401, MsgNotAuthenticated))
  {
    if !Truthy(cookieToken) then Reject(Fail(Unauthorized401, MsgNotAuthenticated))
    else match verify(cookieToken)
      case None => Reject(Fail(Unauthorized401, MsgAuthenticationFailed))
      case Some(claims) => Proceed(claims.userId)
  }
}
