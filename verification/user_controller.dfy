/**
 * The user controller's handlers over the users collection. register
 * creates a document, login only reads, and the other handlers fetch a
 * document, change it field by field and save it back, as the controller
 * does. Each postcondition pins the reply and the new collection to the
 * corresponding function of the Accounts module, and every handler that
 * writes keeps the collection consistent.
 */
module UserController {
  import opened Wrappers
  import opened Records
  import opened Crypto
  import opened JsText
  import opened Accounts
  import opened AccountProperties
  import EmailFormat

  class UserStore {
    /** The users collection in insertion order. */
    var users: seq<User>
    /** The id the next created document receives. */
    var nextId: Id

    ghost predicate Valid()
      reads this
    {
      Consistent(users, nextId)
    }

    constructor ()
      ensures Valid() && users == [] && nextId == 0
    {
      users := [];
      nextId := 0;
    }

    method Register(form: RegisterForm, upload: Upload, sign: Signer, mailSent: bool) returns (reply: Reply)
      requires Valid()
      modifies this
      ensures Valid()
      ensures Step(reply, users) == Accounts.Register(old(users), old(nextId), form, upload, sign, mailSent)
      ensures nextId == if RegisterAccepted(old(users), form, upload) then old(nextId) + 1 else old(nextId)
    {
      if !RegisterFieldsPresent(form) {
        return Fail(BadRequest400, MsgRegisterFieldsRequired);
      }
      if !EmailFormat.MatchesEmailRegex(form.email) {
        return Fail(BadRequest400, MsgInvalidEmail);
      }
      var profilePhotoUrl := "";
      match upload {
        case UploadFailed =>
          return Fail(ServerError500, MsgPhotoUploadFailed);
        case Uploaded(url, _) =>
          profilePhotoUrl := url;
        case NoFile =>
      }
      var existing := FindByEmail(users, form.email);
      if existing.Some? {
        return Fail(BadRequest400, MsgUserExists);
      }
      var hashedPassword := Hash(form.password);
      var verificationToken := sign(Claims(Some(form.email), None), VerificationTtl);
      var newUser := User(nextId, form.fullname, form.email, form.phoneNumber, hashedPassword, form.role,
                          Profile(None, [], None, None, profilePhotoUrl), false, Some(verificationToken), None, None);
      RegisterKeepsConsistent(users, nextId, form, upload, sign, mailSent);
      users := users + [newUser];
      nextId := nextId + 1;
      if !mailSent {
        return Reply(ServerError500, MsgAccountCreatedMailFailed, true, None, None);
      }
      return Reply(Created201, MsgAccountCreated, true, None, None);
    }

    method Login(email: string, password: string, role: string, sign: Signer) returns (reply: Reply)
      ensures reply == Accounts.Login(users, email, password, role, sign)
    {
      if !LoginFieldsPresent(email, password, role) {
        return Fail(BadRequest400, MsgLoginFieldsRequired);
      }
      var found := FindByEmail(users, email);
      if found.None? {
        return Fail(BadRequest400, MsgIncorrectCredentials);
      }
      var user := users[found.value];
      if !user.isVerified {
        return Fail(Forbidden403, MsgVerifyBeforeLogin);
      }
      var isPasswordMatch := Compare(password, user.password);
      if !isPasswordMatch {
        return Fail(BadRequest400, MsgIncorrectCredentials);
      }
      if role != user.role {
        return Fail(BadRequest400, MsgWrongRole);
      }
      var token := sign(Claims(None, Some(user.id)), SessionTtl);
      var view := View(user);
      return Reply(Ok200, MsgWelcomeBack + view.fullname, true, Some(view), Some(SessionCookie(token)));
    }

    method VerifyEmail(token: string, verify: Verifier) returns (reply: Reply)
      requires Valid()
      modifies this
      ensures Valid() && nextId == old(nextId)
      ensures Step(reply, users) == Accounts.VerifyEmail(old(users), token, verify)
    {
      if !Truthy(token) {
        return Fail(BadRequest400, MsgVerificationTokenMissing);
      }
      var decoded := verify(token);
      if decoded.None? {
        return Fail(ServerError500, MsgVerifyServerError);
      }
      var found := FindFirst(users, (u: User) => AwaitsVerification(u, decoded.value, token));
      if found.None? {
        return Fail(BadRequest400, MsgInvalidVerificationToken);
      }
      VerifyEmailKeepsConsistent(users, nextId, token, verify);
      var user := users[found.value];
      user := user.(isVerified := true);
      user := user.(verificationToken := None);
      users := users[found.value := user];
      return Reply(Ok200, MsgEmailVerified, true, None, None);
    }

    method ResendVerificationEmail(email: string, sign: Signer, mailSent: bool) returns (reply: Reply)
      requires Valid()
      modifies this
      ensures Valid() && nextId == old(nextId)
      ensures Step(reply, users) == Accounts.ResendVerification(old(users), email, sign, mailSent)
    {
      if !Truthy(email) {
        return Fail(BadRequest400, MsgEmailRequired);
      }
      var found := FindByEmail(users, email);
      if found.None? {
        return Fail(BadRequest400, MsgUserNotFound);
      }
      var user := users[found.value];
      if user.isVerified {
        return Fail(BadRequest400, MsgAlreadyVerified);
      }
      ResendKeepsConsistent(users, nextId, email, sign, mailSent);
      var verificationToken := sign(Claims(Some(email), None), VerificationTtl);
      user := user.(verificationToken := Some(verificationToken));
      users := users[found.value := user];
      if !mailSent {
        return Fail(ServerError500, MsgResendFailed);
      }
      return Reply(Ok200, MsgVerificationResent, true, None, None);
    }

    method ForgotPassword(email: string, sign: Signer, mailSent: bool, now: int) returns (reply: Reply)
      requires Valid()
      modifies this
      ensures Valid() && nextId == old(nextId)
      ensures Step(reply, users) == Accounts.ForgotPassword(old(users), email, sign, mailSent, now)
    {
      if !Truthy(email) {
        return Fail(BadRequest400, MsgEmailRequired);
      }
      var found := FindByEmail(users, email);
      if found.None? {
        return Fail(BadRequest400, MsgUserNotFound);
      }
      ForgotKeepsConsistent(users, nextId, email, sign, mailSent, now);
      var user := users[found.value];
      var resetToken := sign(Claims(None, Some(user.id)), ResetTtl);
      user := user.(resetPasswordToken := Some(resetToken));
      user := user.(resetPasswordExpires := Some(now + ResetWindowMs));
      users := users[found.value := user];
      if !mailSent {
        return Fail(ServerError500, MsgForgotServerError);
      }
      return Reply(Ok200, MsgResetLinkSent, true, None, None);
    }

    method ResetPassword(token: string, password: string, verify: Verifier, now: int) returns (reply: Reply)
      requires Valid()
      modifies this
      ensures Valid() && nextId == old(nextId)
      ensures Step(reply, users) == Accounts.ResetPassword(old(users), token, password, verify, now)
    {
      if !Truthy(token) || !Truthy(password) {
        return Fail(BadRequest400, MsgResetFieldsRequired);
      }
      var decoded := verify(token);
      if decoded.None? {
        return Fail(ServerError500, MsgResetServerError);
      }
      var found := FindFirst(users, (u: User) => AwaitsReset(u, decoded.value, token, now));
      if found.None? {
        return Fail(BadRequest400, MsgInvalidResetToken);
      }
      ResetKeepsConsistent(users, nextId, token, password, verify, now);
      var user := users[found.value];
      var hashedPassword := Hash(password);
      user := user.(password := hashedPassword);
      user := user.(resetPasswordToken := None);
      user := user.(resetPasswordExpires := None);
      users := users[found.value := user];
      return Reply(Ok200, MsgPasswordReset, true, None, None);
    }

    /**
     * The conditional overwrites of updateProfile on a fetched document,
     * one field at a time; `skillsArray` is the comma-split skills input.
     */
    static method ApplyProfileFields(fetched: User, form: ProfileForm, skillsArray: seq<string>, upload: Upload) returns (user: User)
      requires Truthy(form.skills) ==> skillsArray == SplitComma(form.skills)
      ensures user == ApplyProfileForm(fetched, form, upload)
    {
      user := fetched;
      if Truthy(form.fullname) { user := user.(fullname := form.fullname); }
      if Truthy(form.email) { user := user.(email := form.email); }
      if Truthy(form.phoneNumber) { user := user.(phoneNumber := form.phoneNumber); }
      assert user == fetched.(fullname := Overwrite(fetched.fullname, form.fullname),
                              email := Overwrite(fetched.email, form.email),
                              phoneNumber := Overwrite(fetched.phoneNumber, form.phoneNumber));
      var profile := user.profile;
      if Truthy(form.bio) { profile := profile.(bio := Some(form.bio)); }
      if Truthy(form.skills) { profile := profile.(skills := skillsArray); }
      if upload.Uploaded? {
        profile := profile.(resume := Some(upload.secureUrl));
        profile := profile.(resumeOriginalName := Some(upload.originalName));
      }
      user := user.(profile := profile);
    }

    /** updateProfile for the request id the session gate attached (`req.id`). */
    method UpdateProfile(requestId: Option<Id>, form: ProfileForm, upload: Upload) returns (reply: Reply)
      requires Valid()
      modifies this
      ensures Valid() && nextId == old(nextId)
      ensures Step(reply, users) == Accounts.UpdateProfile(old(users), requestId, form, upload)
    {
      if upload.UploadFailed? {
        return Fail(ServerError500, MsgProfileServerError);
      }
      var skillsArray: seq<string> := [];
      if Truthy(form.skills) {
        skillsArray := SplitComma(form.skills);
      }
      var found := FindById(users, requestId);
      if found.None? {
        return Fail(BadRequest400, MsgUserNotFound);
      }
      var i := found.value;
      var user := ApplyProfileFields(users[i], form, skillsArray, upload);
      if EmailTakenByOther(users, i, user.email) {
        // the unique index on email rejects the save; the catch block answers
        return Fail(ServerError500, MsgProfileServerError);
      }
      UpdateProfileKeepsConsistent(users, nextId, requestId, form, upload);
      users := users[i := user];
      return Reply(Ok200, MsgProfileUpdated, true, Some(View(user)), None);
    }
  }
}
