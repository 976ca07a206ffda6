/**
 * What the account handlers guarantee across requests: the store stays
 * consistent, tokens are single-use and superseded by reissue, the login
 * gate follows verification, and the end-to-end flows behave as the controller intends.
 */
module AccountProperties {
  import opened Wrappers
  import opened Records
  import opened Crypto
  import opened JsText
  import opened Accounts
  import EmailFormat

  // ---------------------------------------------------------------------
  // Consistency of the store

  /** In a consistent store the user with a given email is the one findOne finds. */
  lemma FindByEmailIsTheOwner(users: seq<User>, n: Id, i: nat)
    requires Consistent(users, n) && i < |users|
    ensures FindByEmail(users, users[i].email) == Some(i)
  {
    var r := FindByEmail(users, users[i].email);
    assert r.Some?;
  }

  /** In a consistent store the user with a given id is the one findById finds. */
  lemma FindByIdIsTheOwner(users: seq<User>, n: Id, i: nat)
    requires Consistent(users, n) && i < |users|
    ensures FindById(users, Some(users[i].id)) == Some(i)
  {
    var r := FindById(users, Some(users[i].id));
    assert r.Some?;
  }

  /** Rewriting one record keeps the store consistent when the id stays and the email is free. */
  lemma ReplaceKeepsConsistent(users: seq<User>, n: Id, i: nat, v: User)
    requires Consistent(users, n) && i < |users|
    requires v.id == users[i].id && !EmailTakenByOther(users, i, v.email)
    ensures Consistent(users[i := v], n)
  {
  }

  lemma RegisterKeepsConsistent(users: seq<User>, n: Id, form: RegisterForm, upload: Upload, sign: Signer, mailSent: bool)
    requires Consistent(users, n)
    ensures var s := Register(users, n, form, upload, sign, mailSent);
      Consistent(s.users, if RegisterAccepted(users, form, upload) then n + 1 else n)
  {
    var s := Register(users, n, form, upload, sign, mailSent);
    if RegisterAccepted(users, form, upload) {
      var u := s.users[|users|];
      assert s.users == users + [u];
      assert forall j :: 0 <= j < |users| ==> s.users[j] == users[j];
      assert u.id == n && u.email == form.email;
    }
  }

  lemma VerifyEmailKeepsConsistent(users: seq<User>, n: Id, token: string, verify: Verifier)
    requires Consistent(users, n)
    ensures Consistent(VerifyEmail(users, token, verify).users, n)
  {
    var s := VerifyEmail(users, token, verify);
    if s.reply.status == Ok200 {
      var i :| 0 <= i < |users| && AwaitsVerification(users[i], verify(token).value, token)
        && s.users == users[i := users[i].(isVerified := true, verificationToken := None)];
      ReplaceKeepsConsistent(users, n, i, users[i].(isVerified := true, verificationToken := None));
    }
  }

  lemma ResendKeepsConsistent(users: seq<User>, n: Id, email: string, sign: Signer, mailSent: bool)
    requires Consistent(users, n)
    ensures Consistent(ResendVerification(users, email, sign, mailSent).users, n)
  {
    if ResendAccepted(users, email) {
      var i := FindByEmail(users, email).value;
      ReplaceKeepsConsistent(users, n, i, users[i].(verificationToken := Some(sign(Claims(Some(email), None), VerificationTtl))));
    }
  }

  lemma ForgotKeepsConsistent(users: seq<User>, n: Id, email: string, sign: Signer, mailSent: bool, now: int)
    requires Consistent(users, n)
    ensures Consistent(ForgotPassword(users, email, sign, mailSent, now).users, n)
  {
    if ForgotAccepted(users, email) {
      var i := FindByEmail(users, email).value;
      ReplaceKeepsConsistent(users, n, i, users[i].(
        resetPasswordToken := Some(sign(Claims(None, Some(users[i].id)), ResetTtl)),
        resetPasswordExpires := Some(now + 3600000)));
    }
  }

  lemma ResetKeepsConsistent(users: seq<User>, n: Id, token: string, password: string, verify: Verifier, now: int)
    requires Consistent(users, n)
    ensures Consistent(ResetPassword(users, token, password, verify, now).users, n)
  {
    var s := ResetPassword(users, token, password, verify, now);
    if s.reply.status == Ok200 {
      var i :| 0 <= i < |users| && AwaitsReset(users[i], verify(token).value, token, now)
        && s.users == users[i := users[i].(password := Hash(password), resetPasswordToken := None, resetPasswordExpires := None)];
      ReplaceKeepsConsistent(users, n, i, users[i].(password := Hash(password), resetPasswordToken := None, resetPasswordExpires := None));
    }
  }

  lemma UpdateProfileKeepsConsistent(users: seq<User>, n: Id, requestId: Option<Id>, form: ProfileForm, upload: Upload)
    requires Consistent(users, n)
    ensures Consistent(UpdateProfile(users, requestId, form, upload).users, n)
  {
    var s := UpdateProfile(users, requestId, form, upload);
    if s.reply.status == Ok200 {
      var i := FindById(users, requestId).value;
      ReplaceKeepsConsistent(users, n, i, ApplyProfileForm(users[i], form, upload));
    }
  }

  // ---------------------------------------------------------------------
  // register

  /** How many stored users carry `email`. */
  function CountWithEmail(users: seq<User>, email: string): (count: nat)
  {
    if |users| == 0 then 0
    else CountWithEmail(users[..|users| - 1], email) + (if users[|users| - 1].email == email then 1 else 0)
  }

  lemma {:induction false} CountWithEmailAbsent(users: seq<User>, email: string)
    requires forall j :: 0 <= j < |users| ==> users[j].email != email
    ensures CountWithEmail(users, email) == 0
  {
    if |users| > 0 {
      CountWithEmailAbsent(users[..|users| - 1], email);
    }
  }

  /**
   * register rejects with 400 and leaves the store as it was when a field is
   * empty, the email fails the format check, or (once the photo upload has
   * not failed) a user with that exact email exists.
   */
  lemma RegisterRejects(users: seq<User>, n: Id, form: RegisterForm, upload: Upload, sign: Signer, mailSent: bool)
    requires || !RegisterFieldsPresent(form)
             || !EmailFormat.MatchesEmailRegex(form.email)
             || (upload != UploadFailed && exists j :: 0 <= j < |users| && users[j].email == form.email)
    ensures var s := Register(users, n, form, upload, sign, mailSent);
      s.reply.status == BadRequest400 && !s.reply.success && s.users == users
  {
  }

  /**
   * A successful register adds exactly one record for the email, unverified,
   * holding the digest of the password and a non-empty verification token,
   * and leaves every earlier record as it was.
   */
  lemma RegisterCreatesOneUnverified(users: seq<User>, n: Id, form: RegisterForm, upload: Upload, sign: Signer, mailSent: bool)
    requires RegisterAccepted(users, form, upload)
    ensures var s := Register(users, n, form, upload, sign, mailSent);
      && |s.users| == |users| + 1
      && s.users[..|users|] == users
      && CountWithEmail(s.users, form.email) == 1
      && var u := s.users[|users|];
         && u.email == form.email && u.id == n
         && !u.isVerified
         && u.password == Hash(form.password) && u.password != form.password
         && u.verificationToken.Some? && Truthy(u.verificationToken.value)
         && s.reply.success
         && (s.reply.status == Created201 <==> mailSent)
  {
    var s := Register(users, n, form, upload, sign, mailSent);
    assert s.users[..|users|] == users;
    CountWithEmailAbsent(users, form.email);
    assert s.users[..|s.users| - 1] == users;
    assert CountWithEmail(s.users, form.email) == CountWithEmail(users, form.email) + 1;
  }

  /** Registering the same email a second time is refused as a duplicate. */
  lemma RegisterTwiceRejected(users: seq<User>, n: Id, form: RegisterForm, upload: Upload, sign: Signer, mailSent: bool,
                              again: RegisterForm, upload2: Upload, sign2: Signer, mailSent2: bool)
    requires RegisterAccepted(users, form, upload)
    requires again.email == form.email && RegisterFieldsPresent(again) && upload2 != UploadFailed
    ensures var first := Register(users, n, form, upload, sign, mailSent);
      Register(first.users, n + 1, again, upload2, sign2, mailSent2) == Step(Fail(BadRequest400, MsgUserExists), first.users)
  {
    var first := Register(users, n, form, upload, sign, mailSent);
    assert first.users[|users|].email == again.email;
  }

  // ---------------------------------------------------------------------
  // verifyEmail and resendVerificationEmail

  /**
   * Once a verification token has been used, presenting it again changes
   * nothing: 400 while the token still decodes, 500 once jwt.verify throws
   * on it (`atReplay` is jwt.verify at the time of the replay).
   */
  lemma VerifyEmailReplayRejected(users: seq<User>, n: Id, token: string, verify: Verifier, atReplay: Verifier)
    requires Consistent(users, n)
    requires VerifyEmail(users, token, verify).reply.status == Ok200
    requires DecodesTo(atReplay, token, verify(token).value)
    ensures var after := VerifyEmail(users, token, verify).users;
      var again := VerifyEmail(after, token, atReplay);
      && again.users == after
      && (atReplay(token).Some? ==> again.reply == Fail(BadRequest400, MsgInvalidVerificationToken))
      && (atReplay(token).None? ==> again.reply == Fail(ServerError500, MsgVerifyServerError))
  {
    var s := VerifyEmail(users, token, verify);
    var claims := verify(token).value;
    var i :| 0 <= i < |users| && AwaitsVerification(users[i], claims, token)
      && s.users == users[i := users[i].(isVerified := true, verificationToken := None)];
    forall j | 0 <= j < |s.users|
      ensures !AwaitsVerification(s.users[j], claims, token)
    {
      if j != i {
        assert users[j].email != users[i].email;
      }
    }
    var r := FindFirst(s.users, (u: User) => AwaitsVerification(u, claims, token));
    assert r.None?;
  }

  /**
   * A reissued verification token supersedes the old one: a different token
   * for the same email no longer verifies it.
   */
  lemma ResendSupersedesOldToken(users: seq<User>, n: Id, email: string, sign: Signer, mailSent: bool,
                                 stale: string, verify: Verifier)
    requires Consistent(users, n)
    requires ResendAccepted(users, email)
    requires Truthy(stale) && stale != sign(Claims(Some(email), None), VerificationTtl)
    requires verify(stale).Some? && verify(stale).value.email == Some(email)
    ensures var after := ResendVerification(users, email, sign, mailSent).users;
      VerifyEmail(after, stale, verify) == Step(Fail(BadRequest400, MsgInvalidVerificationToken), after)
  {
    var after := ResendVerification(users, email, sign, mailSent).users;
    var i := FindByEmail(users, email).value;
    var claims := verify(stale).value;
    forall j | 0 <= j < |after|
      ensures !AwaitsVerification(after[j], claims, stale)
    {
      if j != i {
        assert users[j].email != users[i].email;
      }
    }
    var r := FindFirst(after, (u: User) => AwaitsVerification(u, claims, stale));
    assert r.None?;
  }

  // ---------------------------------------------------------------------
  // forgotPassword and resetPassword

  /**
   * A used reset token cannot be used again: the second attempt changes
   * nothing and is refused with 400, or with 500 once jwt.verify throws on
   * the token (`atReplay` is jwt.verify at the time of the second attempt).
   */
  lemma ResetPasswordSingleUse(users: seq<User>, n: Id, token: string, password: string, verify: Verifier, now: int,
                               password2: string, atReplay: Verifier, later: int)
    requires Consistent(users, n)
    requires ResetPassword(users, token, password, verify, now).reply.status == Ok200
    requires DecodesTo(atReplay, token, verify(token).value)
    ensures var after := ResetPassword(users, token, password, verify, now).users;
      var again := ResetPassword(after, token, password2, atReplay, later);
      && again.users == after
      && (again.reply.status == BadRequest400 <==> !Truthy(password2) || atReplay(token).Some?)
      && (again.reply.status == ServerError500 <==> Truthy(password2) && atReplay(token).None?)
  {
    var s := ResetPassword(users, token, password, verify, now);
    var claims := verify(token).value;
    var i :| 0 <= i < |users| && AwaitsReset(users[i], claims, token, now)
      && s.users == users[i := users[i].(password := Hash(password), resetPasswordToken := None, resetPasswordExpires := None)];
    forall j | 0 <= j < |s.users|
      ensures !AwaitsReset(s.users[j], claims, token, later)
    {
      if j != i {
        assert users[j].id != users[i].id;
      }
    }
    if Truthy(password2) && atReplay(token).Some? {
      var r := FindFirst(s.users, (u: User) => AwaitsReset(u, claims, token, later));
      assert r.None?;
    }
  }

  /**
   * A reset requested at `requested` and attempted when an hour or more has
   * passed never succeeds: 400 when the token still decodes, 500 when
   * jwt.verify throws on it.
   */
  lemma LateResetRejected(users: seq<User>, n: Id, email: string, sign: Signer, mailSent: bool, requested: int,
                          password: string, verify: Verifier, now: int)
    requires Consistent(users, n)
    requires ForgotAccepted(users, email) && Truthy(password)
    requires now >= requested + ResetWindowMs
    requires var uid := users[FindByEmail(users, email).value].id;
      DecodesTo(verify, sign(Claims(None, Some(uid)), ResetTtl), Claims(None, Some(uid)))
    ensures var after := ForgotPassword(users, email, sign, mailSent, requested).users;
      var token := sign(Claims(None, Some(users[FindByEmail(users, email).value].id)), ResetTtl);
      var r := ResetPassword(after, token, password, verify, now);
      && r.users == after
      && (r.reply.status == BadRequest400 <==> verify(token).Some?)
      && (r.reply.status == ServerError500 <==> verify(token).None?)
  {
    var i := FindByEmail(users, email).value;
    var uid := users[i].id;
    var token := sign(Claims(None, Some(uid)), ResetTtl);
    var after := ForgotPassword(users, email, sign, mailSent, requested).users;
    if verify(token).Some? {
      var claims := verify(token).value;
      forall j | 0 <= j < |after|
        ensures !AwaitsReset(after[j], claims, token, now)
      {
        if j != i {
          assert users[j].id != uid;
        }
      }
      var r := FindFirst(after, (u: User) => AwaitsReset(u, claims, token, now));
      assert r.None?;
    }
  }

  /**
   * A reset attempted within the hour with the token forgotPassword issued
   * succeeds: the user's digest becomes that of the new password and both
   * reset fields are cleared.
   */
  lemma TimelyResetSucceeds(users: seq<User>, n: Id, email: string, sign: Signer, mailSent: bool, requested: int,
                            password: string, verify: Verifier, now: int)
    requires Consistent(users, n)
    requires ForgotAccepted(users, email) && Truthy(password)
    requires now < requested + ResetWindowMs
    requires var uid := users[FindByEmail(users, email).value].id;
      verify(sign(Claims(None, Some(uid)), ResetTtl)) == Some(Claims(None, Some(uid)))
    ensures var i := FindByEmail(users, email).value;
      var after := ForgotPassword(users, email, sign, mailSent, requested).users;
      var token := sign(Claims(None, Some(users[i].id)), ResetTtl);
      var r := ResetPassword(after, token, password, verify, now);
      && r.reply.status == Ok200
      && r.users == users[i := users[i].(password := Hash(password), resetPasswordToken := None, resetPasswordExpires := None)]
  {
    var i := FindByEmail(users, email).value;
    var uid := users[i].id;
    var token := sign(Claims(None, Some(uid)), ResetTtl);
    var after := ForgotPassword(users, email, sign, mailSent, requested).users;
    var claims := verify(token).value;
    assert AwaitsReset(after[i], claims, token, now);
    var r := ResetPassword(after, token, password, verify, now);
    var k :| 0 <= k < |after| && AwaitsReset(after[k], claims, token, now)
      && r.users == after[k := after[k].(password := Hash(password), resetPasswordToken := None, resetPasswordExpires := None)];
    if k != i {
      assert users[k].id != uid;
    }
  }

  // ---------------------------------------------------------------------
  // The session

  /**
   * register, then verifyEmail with the token register stored, then login with
   * the same credentials: the login succeeds and returns that user.
   */
  lemma RegisterVerifyLogin(users: seq<User>, n: Id, form: RegisterForm, upload: Upload, sign: Signer, mailSent: bool,
                            verify: Verifier, sign2: Signer)
    requires Consistent(users, n)
    requires RegisterAccepted(users, form, upload)
    requires var token := sign(Claims(Some(form.email), None), VerificationTtl);
      verify(token) == Some(Claims(Some(form.email), None))
    ensures var registered := Register(users, n, form, upload, sign, mailSent).users;
      var token := sign(Claims(Some(form.email), None), VerificationTtl);
      var verified := VerifyEmail(registered, token, verify);
      var r := Login(verified.users, form.email, form.password, form.role, sign2);
      && verified.reply.status == Ok200
      && r.status == Ok200
      && r.user.Some? && r.user.value.email == form.email && r.user.value.id == n
  {
    var registered := Register(users, n, form, upload, sign, mailSent).users;
    var token := sign(Claims(Some(form.email), None), VerificationTtl);
    RegisterKeepsConsistent(users, n, form, upload, sign, mailSent);
    var last := |users|;
    assert AwaitsVerification(registered[last], verify(token).value, token);
    var verified := VerifyEmail(registered, token, verify);
    VerifyEmailKeepsConsistent(registered, n + 1, token, verify);
    var i :| 0 <= i < |registered| && AwaitsVerification(registered[i], verify(token).value, token)
      && verified.users == registered[i := registered[i].(isVerified := true, verificationToken := None)];
    assert i == last;
    FindByEmailIsTheOwner(verified.users, n + 1, last);
    CompareIsExact(form.password, form.password);
  }

  /**
   * The cookie a successful login sets passes the session gate, and the id
   * it attaches to the request finds the same user again.
   */
  lemma LoginCookiePassesGate(users: seq<User>, n: Id, email: string, password: string, role: string, sign: Signer,
                              verify: Verifier)
    requires Consistent(users, n)
    requires Login(users, email, password, role, sign).status == Ok200
    requires var uid := users[FindByEmail(users, email).value].id;
      verify(sign(Claims(None, Some(uid)), SessionTtl)) == Some(Claims(None, Some(uid)))
    ensures var r := Login(users, email, password, role, sign);
      var g := IsAuthenticated(r.cookie.value.value, verify);
      && g == Proceed(Some(r.user.value.id))
      && FindById(users, g.requestId) == FindByEmail(users, email)
  {
    var i := FindByEmail(users, email).value;
    FindByIdIsTheOwner(users, n, i);
  }

  /** After logout the cleared cookie no longer passes the session gate. */
  lemma LogoutCookieFailsGate(verify: Verifier)
    ensures IsAuthenticated(Logout().cookie.value.value, verify) == Reject(Fail(Unauthorized401, MsgNotAuthenticated))
  {
  }
}
