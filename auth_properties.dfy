/** Properties of the credential service that span several requests or
    relate a handler to the store invariant and to the token gate. */
module AuthProperties {

  import opened Wrappers
  import opened Crypto
  import opened Query
  import opened UserModel
  import opened Tokens
  import opened Store
  import opened AuthService

  // ---------------------------------------------------------------- the store invariant

  lemma SignUpKeepsValid(st: Collections, userName: string, email: string, password: string, phone: string,
                         gender: Option<string>, otp: string, passwordSalt: nat, otpSalt: nat, nowMs: nat)
    requires Valid(st)
    ensures Valid(SignUpStep(st, userName, email, password, phone, gender, otp, passwordSalt, otpSalt, nowMs).after)
  {
    var o := SignUpStep(st, userName, email, password, phone, gender, otp, passwordSalt, otpSalt, nowMs);
    if o.reply.Done? {
      var u := CreateUser(FreshUserId(st.users), SignUpDraft(userName, email, password, phone, gender, otp, passwordSalt, otpSalt, nowMs)).value;
      assert o.after.users == st.users + [u];
      AppendKeepsInvariant(st.users, u);
    }
  }

  lemma ConfirmEmailKeepsValid(st: Collections, email: string, otp: string, nowMs: nat)
    requires Valid(st)
    ensures Valid(ConfirmEmailStep(st, email, otp, nowMs).after)
  {
    var o := ConfirmEmailStep(st, email, otp, nowMs);
    if o.reply.Done? {
      var i := PendingIndex(st.users, email).value;
      UpdateKeepsInvariant(st.users, i, Confirmed(st.users[i], nowMs));
    }
  }

  lemma ResendKeepsValid(st: Collections, email: string, otp: string, salt: nat, nowMs: nat)
    requires Valid(st)
    ensures Valid(ResendStep(st, email, otp, salt, nowMs).after)
  {
    var o := ResendStep(st, email, otp, salt, nowMs);
    if email != "" && PendingIndex(st.users, email).Some? && o.after != st {
      var i := PendingIndex(st.users, email).value;
      var u := st.users[i];
      assert WellFormed(u);
      assert o.after.users[i].id == u.id && o.after.users[i].email == u.email;
      assert o.after.users == st.users[i := o.after.users[i]];
      UpdateKeepsInvariant(st.users, i, o.after.users[i]);
    }
  }

  lemma GoogleKeepsValid(st: Collections, p: GooglePayload, jti: string, nowMs: nat)
    requires Valid(st)
    ensures Valid(GoogleStep(st, p, jti, nowMs).after)
  {
    var o := GoogleStep(st, p, jti, nowMs);
    if o.after != st {
      var u := CreateUser(FreshUserId(st.users), GoogleDraft(p, nowMs)).value;
      assert o.after.users == st.users + [u];
      AppendKeepsInvariant(st.users, u);
    }
  }

  lemma RefreshKeepsValid(st: Collections, s: Session, jti: string, nowMs: nat)
    requires Valid(st)
    ensures Valid(RefreshStep(st, s, jti, nowMs).after)
  {
  }

  /** The session's user is the stored one, as the gate hands it over. */
  lemma ChangePasswordKeepsValid(st: Collections, s: Session, oldPassword: string, newPassword: string,
                                 flag: Option<string>, salt: nat, nowMs: nat)
    requires Valid(st) && s.user in st.users
    ensures Valid(ChangePasswordStep(st, s, oldPassword, newPassword, flag, salt, nowMs).after)
  {
    var o := ChangePasswordStep(st, s, oldPassword, newPassword, flag, salt, nowMs);
    if o.reply.Done? {
      var i := ConfirmedIdIndex(st.users, s.user.id).value;
      var k :| 0 <= k < |st.users| && st.users[k] == s.user;
      assert k == i;
      UpdateKeepsInvariant(st.users, i, o.after.users[i]);
    }
  }

  lemma ForgetKeepsValid(st: Collections, email: string, otp: string, salt: nat)
    requires Valid(st)
    ensures Valid(ForgetStep(st, email, otp, salt).after)
  {
    var o := ForgetStep(st, email, otp, salt);
    if o.reply.Done? {
      var i := RecoverableIndex(st.users, email).value;
      UpdateKeepsInvariant(st.users, i, o.after.users[i]);
    }
  }

  lemma ResetKeepsValid(st: Collections, email: string, otp: string, newPassword: string, salt: nat, nowMs: nat)
    requires Valid(st)
    ensures Valid(ResetStep(st, email, otp, newPassword, salt, nowMs).after)
  {
    var o := ResetStep(st, email, otp, newPassword, salt, nowMs);
    if o.reply.Done? {
      var i := ResettableIndex(st.users, email).value;
      UpdateKeepsInvariant(st.users, i, o.after.users[i]);
    }
  }

  lemma LogOutKeepsValid(st: Collections, s: Session, flag: Option<string>, nowMs: nat)
    requires Valid(st)
    ensures Valid(LogOutStep(st, s, flag, nowMs).after)
  {
    var o := LogOutStep(st, s, flag, nowMs);
    if flag == Some(FromAll) && IdIndex(st.users, s.user.id).Some? {
      var i := IdIndex(st.users, s.user.id).value;
      UpdateKeepsInvariant(st.users, i, o.after.users[i]);
    }
  }

  // ---------------------------------------------------------------- the resend throttle

  /** On a valid store a block is only set once five codes were sent, so the
      branch that answers nothing (a block ending exactly now) is never taken. */
  lemma ResendNeverHangs(st: Collections, email: string, otp: string, salt: nat, nowMs: nat)
    requires Valid(st)
    ensures !ResendStep(st, email, otp, salt, nowMs).reply.Hang?
  {
    if email != "" && PendingIndex(st.users, email).Some? {
      assert WellFormed(st.users[PendingIndex(st.users, email).value]);
    }
  }

  /** The same request on a store that breaks the invariant (a block set with
      fewer than five codes sent) gets no response at all. */
  lemma ResendHangsOnBlockEndingNow()
    ensures
      var c := ConfirmOtp(Hash("123456", 0), 0, 1, Some(7));
      var u := User(0, "Ab", "Cd", "a@b.c", Some(Hash("Pass#word1", 0)), [], Some(Encrypt("01012345678")),
                    Male, UserRole, System, None, Some(c), None, None, None, None, None, None);
      ResendStep(Collections([u], map[], []), "a@b.c", "654321", 1, 7).reply.Hang?
  {
    var c := ConfirmOtp(Hash("123456", 0), 0, 1, Some(7));
    var u := User(0, "Ab", "Cd", "a@b.c", Some(Hash("Pass#word1", 0)), [], Some(Encrypt("01012345678")),
                  Male, UserRole, System, None, Some(c), None, None, None, None, None, None);
    FindFirstIs([u], (v: User) => Pending(v, "a@b.c"), 0);
  }

  /** `n` resend requests at the same instant. */
  function ResendTimes(st: Collections, email: string, otp: string, salt: nat, nowMs: nat, n: nat): Collections
    decreases n
  {
    if n == 0 then st else ResendTimes(ResendStep(st, email, otp, salt, nowMs).after, email, otp, salt, nowMs, n - 1)
  }

  /** The pending account of `email` in `st`, its counter and its block. */
  predicate PendingWith(st: Collections, email: string, i: nat, count: int)
  {
    && PendingIndex(st.users, email) == Some(i)
    && st.users[i].confirmOtp.value.count == count
    && st.users[i].confirmOtp.value.block.None?
  }

  /** Without a block, each resend succeeds and raises the counter by one. */
  lemma ResendCountsUp(st: Collections, email: string, otp: string, salt: nat, nowMs: nat, i: nat, count: int)
    requires Valid(st) && email != ""
    requires PendingWith(st, email, i, count) && count < MaxOtpSends
    ensures ResendStep(st, email, otp, salt, nowMs).reply == Done(200, "OTP Sent Succses")
    ensures PendingWith(ResendStep(st, email, otp, salt, nowMs).after, email, i, count + 1)
    ensures Valid(ResendStep(st, email, otp, salt, nowMs).after)
  {
    var after := ResendStep(st, email, otp, salt, nowMs).after;
    ResendKeepsValid(st, email, otp, salt, nowMs);
    assert forall j :: 0 <= j < i ==> after.users[j] == st.users[j];
    FindFirstIs(after.users, (u: User) => Pending(u, email), i);
  }

  /** With five codes sent, the next request sets a five-minute block, sends
      no code, and a request during the block is refused. */
  lemma ResendBlocksAtFive(st: Collections, email: string, otp: string, salt: nat, nowMs: nat, i: nat, laterMs: nat)
    requires Valid(st) && email != ""
    requires PendingWith(st, email, i, MaxOtpSends)
    requires laterMs < nowMs + BlockMs
    ensures var o := ResendStep(st, email, otp, salt, nowMs);
      && o.reply == Fail(409, "Please Wait For 5 Minutes And Try Again")
      && o.mail.None?
      && o.after.users[i].confirmOtp.value.block == Some(nowMs + BlockMs)
      && o.after.users[i].confirmOtp.value.code == st.users[i].confirmOtp.value.code
      && ResendStep(o.after, email, otp, salt, laterMs).reply == Fail(409, "Plase Wait Untell 2 Minutes End")
  {
    var after := ResendStep(st, email, otp, salt, nowMs).after;
    assert forall j :: 0 <= j < i ==> after.users[j] == st.users[j];
    FindFirstIs(after.users, (u: User) => Pending(u, email), i);
  }

  /** Once the block has elapsed, the counter restarts: the request succeeds
      and leaves one code sent. */
  lemma ResendAfterBlockRestarts(st: Collections, email: string, otp: string, salt: nat, nowMs: nat, i: nat)
    requires Valid(st) && email != ""
    requires PendingIndex(st.users, email) == Some(i)
    requires var c := st.users[i].confirmOtp.value; c.block.Some? && c.block.value < nowMs
    ensures ResendStep(st, email, otp, salt, nowMs).reply == Done(200, "OTP Sent Succses")
    ensures PendingWith(ResendStep(st, email, otp, salt, nowMs).after, email, i, 1)
  {
    var after := ResendStep(st, email, otp, salt, nowMs).after;
    assert forall j :: 0 <= j < i ==> after.users[j] == st.users[j];
    FindFirstIs(after.users, (u: User) => Pending(u, email), i);
  }

  /** `n` resends without a block raise the counter by `n`. */
  lemma {:induction false} ResendsAccumulate(st: Collections, email: string, otp: string, salt: nat, nowMs: nat,
                                             i: nat, count: int, n: nat)
    requires Valid(st) && email != ""
    requires PendingWith(st, email, i, count) && count + n <= MaxOtpSends
    ensures Valid(ResendTimes(st, email, otp, salt, nowMs, n))
    ensures PendingWith(ResendTimes(st, email, otp, salt, nowMs, n), email, i, count + n)
    decreases n
  {
    if n > 0 {
      var next := ResendStep(st, email, otp, salt, nowMs).after;
      assert ResendTimes(st, email, otp, salt, nowMs, n) == ResendTimes(next, email, otp, salt, nowMs, n - 1);
      ResendCountsUp(st, email, otp, salt, nowMs, i, count);
      ResendsAccumulate(next, email, otp, salt, nowMs, i, count + 1, n - 1);
    }
  }

  /** In such a run, the request after the `n`-th resend still succeeds as
      long as the counter stays below the limit. */
  lemma ResendsInRunSucceed(st: Collections, email: string, otp: string, salt: nat, nowMs: nat,
                            i: nat, count: int, n: nat)
    requires Valid(st) && email != ""
    requires PendingWith(st, email, i, count) && count + n < MaxOtpSends
    ensures ResendStep(ResendTimes(st, email, otp, salt, nowMs, n), email, otp, salt, nowMs).reply == Done(200, "OTP Sent Succses")
  {
    ResendsAccumulate(st, email, otp, salt, nowMs, i, count, n);
    ResendCountsUp(ResendTimes(st, email, otp, salt, nowMs, n), email, otp, salt, nowMs, i, count + n);
  }

  /** The counter starts at 1 at signup, so four resends succeed and the fifth
      request is blocked. */
  lemma FourResendsThenBlock(st: Collections, userName: string, email: string, password: string, phone: string,
                             gender: Option<string>, otp: string, passwordSalt: nat, otpSalt: nat, nowMs: nat)
    requires Valid(st) && email != ""
    requires SignUpStep(st, userName, email, password, phone, gender, otp, passwordSalt, otpSalt, nowMs).reply.Done?
    ensures
      var signedUp := SignUpStep(st, userName, email, password, phone, gender, otp, passwordSalt, otpSalt, nowMs).after;
      var four := ResendTimes(signedUp, email, otp, otpSalt, nowMs, 4);
      && (forall k :: 0 <= k < 4 ==>
            ResendStep(ResendTimes(signedUp, email, otp, otpSalt, nowMs, k), email, otp, otpSalt, nowMs).reply
              == Done(200, "OTP Sent Succses"))
      && ResendStep(four, email, otp, otpSalt, nowMs).reply == Fail(409, "Please Wait For 5 Minutes And Try Again")
  {
    var signedUp := SignUpStep(st, userName, email, password, phone, gender, otp, passwordSalt, otpSalt, nowMs).after;
    var i := |st.users|;
    SignUpKeepsValid(st, userName, email, password, phone, gender, otp, passwordSalt, otpSalt, nowMs);
    assert forall j :: 0 <= j < i ==> signedUp.users[j] == st.users[j];
    assert forall j :: 0 <= j < i ==> st.users[j].email != email;
    FindFirstIs(signedUp.users, (u: User) => Pending(u, email), i);
    forall k | 0 <= k < 4
      ensures ResendStep(ResendTimes(signedUp, email, otp, otpSalt, nowMs, k), email, otp, otpSalt, nowMs).reply
                == Done(200, "OTP Sent Succses")
    {
      ResendsInRunSucceed(signedUp, email, otp, otpSalt, nowMs, i, 1, k);
    }
    ResendsAccumulate(signedUp, email, otp, otpSalt, nowMs, i, 1, 4);
  }

  // ---------------------------------------------------------------- sign up, confirm, log in

  /** A new account confirmed with its code within two minutes can log in
      with its password, and a second confirmation finds no pending account. */
  lemma SignUpConfirmLogin(st: Collections, userName: string, email: string, password: string, phone: string,
                           gender: Option<string>, otp: string, passwordSalt: nat, otpSalt: nat, nowMs: nat,
                           confirmMs: nat, jti: string, loginMs: nat)
    requires Valid(st) && email != "" && otp != ""
    requires SignUpStep(st, userName, email, password, phone, gender, otp, passwordSalt, otpSalt, nowMs).reply.Done?
    requires confirmMs <= nowMs + OtpTtlMs
    ensures
      var signedUp := SignUpStep(st, userName, email, password, phone, gender, otp, passwordSalt, otpSalt, nowMs).after;
      var confirmed := ConfirmEmailStep(signedUp, email, otp, confirmMs);
      && confirmed.reply.Done?
      && LoginStep(confirmed.after, email, password, jti, loginMs) == Done(200, GenerateLoginCredentials(confirmed.after.users[|st.users|], jti, loginMs))
      && ConfirmEmailStep(confirmed.after, email, otp, confirmMs).reply == Fail(404, "Invalid Account")
  {
    var signedUp := SignUpStep(st, userName, email, password, phone, gender, otp, passwordSalt, otpSalt, nowMs).after;
    var i := |st.users|;
    assert forall j :: 0 <= j < i ==> signedUp.users[j] == st.users[j];
    assert forall j :: 0 <= j < i ==> st.users[j].email != email;
    FindFirstIs(signedUp.users, (u: User) => Pending(u, email), i);
    var confirmed := ConfirmEmailStep(signedUp, email, otp, confirmMs).after;
    assert forall j :: 0 <= j < i ==> confirmed.users[j] == st.users[j];
    FindFirstIs(confirmed.users, (u: User) => u.email == email && u.provider == System, i);
    assert forall j :: 0 <= j < |confirmed.users| ==> !Pending(confirmed.users[j], email);
  }

  // ---------------------------------------------------------------- password history

  /** After a change from `p0` to `p1`, changing back to `p0` is refused: the
      replaced hash is in the history. */
  lemma ChangeBackRefused(st: Collections, s: Session, p0: string, p1: string, flag: Option<string>, salt: nat, nowMs: nat,
                          s2: Session, flag2: Option<string>, salt2: nat, laterMs: nat)
    requires ChangePasswordStep(st, s, p0, p1, flag, salt, nowMs).reply.Done?
    requires s2.user == ChangePasswordStep(st, s, p0, p1, flag, salt, nowMs).after.users[ConfirmedIdIndex(st.users, s.user.id).value]
    ensures ChangePasswordStep(ChangePasswordStep(st, s, p0, p1, flag, salt, nowMs).after, s2, p1, p0, flag2, salt2, laterMs).reply
            == Fail(400, "You Already Used This Password Before")
  {
    var h := s2.user.oldPasswords;
    assert h[|h| - 1] == s.user.password.value;
    assert UsedBefore(h, p0);
  }

  /** A reset does not record the replaced password, so after a reset from
      `p0` to `p1`, changing back to `p0` is accepted (if `p0` was not already
      in the history). */
  lemma ResetForgetsReplacedPassword(st: Collections, email: string, otp: string, p0: string, p1: string, salt: nat, nowMs: nat,
                                     s2: Session, salt2: nat, laterMs: nat)
    requires Valid(st)
    requires ResetStep(st, email, otp, p1, salt, nowMs).reply.Done?
    requires var u := st.users[ResettableIndex(st.users, email).value];
             CompareOpt(p0, u.password) && !UsedBefore(u.oldPasswords, p0)
    requires s2.user == ResetStep(st, email, otp, p1, salt, nowMs).after.users[ResettableIndex(st.users, email).value]
    ensures ChangePasswordStep(ResetStep(st, email, otp, p1, salt, nowMs).after, s2, p1, p0, None, salt2, laterMs).reply.Done?
  {
    var after := ResetStep(st, email, otp, p1, salt, nowMs).after;
    var i := ResettableIndex(st.users, email).value;
    assert after.users[i].id == s2.user.id && after.users[i].confirmEmail.Some?;
    assert ConfirmedIdIndex(after.users, s2.user.id).Some?;
  }

  /** The forgot-password code is not consumed by verification, and it has no
      expiry: after forgetPassword, verify succeeds, and a reset with the same
      code still succeeds afterwards. */
  lemma ForgetThenVerifyThenReset(st: Collections, email: string, otp: string, salt: nat, newPassword: string, salt2: nat, nowMs: nat)
    requires Valid(st)
    requires ForgetStep(st, email, otp, salt).reply.Done?
    ensures VerifyForgetStep(ForgetStep(st, email, otp, salt).after, email, otp) == Done(200, "Verifyed Succses")
    ensures ResetStep(ForgetStep(st, email, otp, salt).after, email, otp, newPassword, salt2, nowMs).reply.Done?
  {
    var after := ForgetStep(st, email, otp, salt).after;
    var i := RecoverableIndex(st.users, email).value;
    assert forall j :: 0 <= j < i ==> after.users[j] == st.users[j] && !Recoverable(st.users[j], email);
    FindFirstIs(after.users, (u: User) => Resettable(u, email), i);
  }

  // ---------------------------------------------------------------- sessions end

  /** After logOut (any flag but `fromAll`) neither token of the session's
      pair passes the gate again. */
  lemma LogOutEndsSession(st: Collections, s: Session, flag: Option<string>, nowMs: nat,
                          u: User, issuedMs: nat, laterMs: nat, kind: TokenType, authorization: string, decode: string -> Option<Jwt>)
    requires flag != Some(FromAll)
    requires LogOutStep(st, s, flag, nowMs).reply.Done?
    requires var c := GenerateLoginCredentials(u, s.decoded.jti, issuedMs);
             decode(TokenPart(authorization)) == Some(c.access) || decode(TokenPart(authorization)) == Some(c.refresh)
    ensures var after := LogOutStep(st, s, flag, nowMs).after;
            !DecodedToken(after.users, after.revoked, authorization, kind, decode, laterMs).Done?
  {
    RevokedPairRejected(st.users, st.revoked, s, RevocationTtl, u, issuedMs, laterMs, kind, authorization, decode);
  }

  /** The record logOut writes expires 365 days after the session's token
      was issued, so the daily sweep a second later removes it, while the
      refresh token of that session still verifies. */
  lemma LogOutRevocationLapsesEarly(st: Collections, s: Session, flag: Option<string>, nowMs: nat, u: User, issuedMs: nat)
    requires flag != Some(FromAll) && LogOutStep(st, s, flag, nowMs).reply.Done?
    requires s.decoded.iat == issuedMs / 1000
    ensures var revoked := LogOutStep(st, s, flag, nowMs).after.revoked;
      var sweepMs := (issuedMs / 1000 + RevocationTtl + 1) * 1000;
      var refresh := GenerateLoginCredentials(u, s.decoded.jti, issuedMs).refresh;
      && s.decoded.jti in revoked
      && s.decoded.jti !in Sweep(revoked, sweepMs)
      && Verify(refresh, refresh.key, sweepMs).Some?
  {
    var sweepMs := (issuedMs / 1000 + RevocationTtl + 1) * 1000;
    assert sweepMs / 1000 == issuedMs / 1000 + RevocationTtl + 1;
  }

  /** refreshToken revokes the pair it was presented with. */
  lemma RefreshEndsPresentedPair(st: Collections, s: Session, jti: string, nowMs: nat,
                                 u: User, issuedMs: nat, laterMs: nat, kind: TokenType, authorization: string, decode: string -> Option<Jwt>)
    requires RefreshStep(st, s, jti, nowMs).reply.Done?
    requires var c := GenerateLoginCredentials(u, s.decoded.jti, issuedMs);
             decode(TokenPart(authorization)) == Some(c.access) || decode(TokenPart(authorization)) == Some(c.refresh)
    ensures var after := RefreshStep(st, s, jti, nowMs).after;
            !DecodedToken(after.users, after.revoked, authorization, kind, decode, laterMs).Done?
  {
    RevokedPairRejected(st.users, st.revoked, s, RevocationTtl, u, issuedMs, laterMs, kind, authorization, decode);
  }

  /** logOut with `fromAll` shuts out every token of the account issued
      before it (by the millisecond clock). */
  lemma LogOutFromAllEndsEarlierTokens(st: Collections, s: Session, nowMs: nat, jti: string, issuedMs: nat, laterMs: nat,
                                       kind: TokenType, authorization: string, decode: string -> Option<Jwt>)
    requires Valid(st) && s.user in st.users
    requires issuedMs < nowMs
    requires var c := GenerateLoginCredentials(s.user, jti, issuedMs);
             decode(TokenPart(authorization)) == Some(if kind == Access then c.access else c.refresh)
    ensures var after := LogOutStep(st, s, Some(FromAll), nowMs).after;
            !DecodedToken(after.users, after.revoked, authorization, kind, decode, laterMs).Done?
  {
    var after := LogOutStep(st, s, Some(FromAll), nowMs).after;
    var k :| 0 <= k < |st.users| && st.users[k] == s.user;
    var i := IdIndex(st.users, s.user.id).value;
    assert i == k;
    assert after.users[i].changeCredentialsTime == Some(nowMs);
    assert UsersInvariant(after.users) by {
      LogOutKeepsValid(st, s, Some(FromAll), nowMs);
    }
    var found := FindUser(after.users, s.user.id);
    if found.Some? {
      assert found.value == after.users[i];
    }
  }
}
