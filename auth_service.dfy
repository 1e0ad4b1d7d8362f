/** The credential service (server/src/modules/auth/auth.service.js). Each
    handler is a transition of the collections: a pure `...Step` function that
    states what one request does, and a method on the shared `Database` that
    performs the same reads and updates in the source's order and is proved
    equal to it. The clock (`nowMs`), the random OTP codes, `jti`s and bcrypt
    salts are parameters. */
module AuthService {

  import opened Wrappers
  import opened Crypto
  import opened Query
  import opened UserModel
  import opened Tokens
  import opened Store

  /** OTP lifetime (`2 * 60 * 1000`), resend block (`5 * 60 * 1000`) and the
      number of confirmation codes sent before the block. */
  const OtpTtlMs: nat := 120000
  const BlockMs: nat := 300000
  const MaxOtpSends: nat := 5

  datatype MailKind = ConfirmEmailMail | ForgotPasswordMail

  /** An email the handler emits: its kind, recipient and the plain code. */
  datatype Mail = Mail(kind: MailKind, to: string, code: string)

  /** A handler's response, the collections afterwards, and the email it sent. */
  datatype Outcome<T> = Outcome(reply: Reply<T>, after: Collections, mail: Option<Mail>)

  // ---------------------------------------------------------------- lookups

  /** `findOne({ email })`. */
  function EmailIndex(users: seq<User>, email: string): Option<nat> {
    FindFirst(users, (u: User) => u.email == email)
  }

  /** An account waiting for email confirmation: the `findOne` filter of
      confirmEmail and reSendConfirmOTP. */
  predicate Pending(u: User, email: string) {
    u.email == email && u.provider == System && u.confirmEmail.None? && u.confirmOtp.Some?
  }

  function PendingIndex(users: seq<User>, email: string): (r: Option<nat>)
    ensures r.Some? ==> r.value < |users| && Pending(users[r.value], email)
    ensures r.None? <==> forall i :: 0 <= i < |users| ==> !Pending(users[i], email)
  {
    FindFirst(users, (u: User) => Pending(u, email))
  }

  /** The filter of forgetPassword: confirmed, not frozen, `system`. */
  predicate Recoverable(u: User, email: string) {
    u.email == email && u.confirmEmail.Some? && u.deletedAt.None? && u.provider == System
  }

  function RecoverableIndex(users: seq<User>, email: string): (r: Option<nat>)
    ensures r.Some? ==> r.value < |users| && Recoverable(users[r.value], email)
    ensures r.None? <==> forall i :: 0 <= i < |users| ==> !Recoverable(users[i], email)
  {
    FindFirst(users, (u: User) => Recoverable(u, email))
  }

  /** The filter of verifyforgetPassword and reSetPassword: recoverable and
      holding a forgot-password code. */
  predicate Resettable(u: User, email: string) {
    Recoverable(u, email) && u.forgotPasswordOTP.Some?
  }

  function ResettableIndex(users: seq<User>, email: string): (r: Option<nat>)
    ensures r.Some? ==> r.value < |users| && Resettable(users[r.value], email)
    ensures r.None? <==> forall i :: 0 <= i < |users| ==> !Resettable(users[i], email)
  {
    FindFirst(users, (u: User) => Resettable(u, email))
  }

  // ---------------------------------------------------------------- signUp

  /** The document signUp asks Mongoose to create. */
  function SignUpDraft(userName: string, email: string, password: string, phone: string, gender: Option<string>,
                       otp: string, passwordSalt: nat, otpSalt: nat, nowMs: nat): Draft {
    Draft(Some(userName), Some(email), Some(Hash(password, passwordSalt)), Some(Encrypt(phone)), gender,
          None, None, Some(ConfirmOtp(Hash(otp, otpSalt), nowMs + OtpTtlMs, 1, None)))
  }

  /** signUp: 409 when the email is taken; otherwise a new unconfirmed
      `system` user holding the hashed OTP, expiring in 2 minutes, with one
      code sent, and the code mailed. A schema failure answers 400. */
  function SignUpStep(st: Collections, userName: string, email: string, password: string, phone: string,
                      gender: Option<string>, otp: string, passwordSalt: nat, otpSalt: nat, nowMs: nat): (o: Outcome<UserId>)
    ensures EmailIndex(st.users, email).Some? <==> o.reply == Fail(409, "User Exsist")
    ensures !o.reply.Done? ==> o.after == st && o.mail.None?
    ensures o.reply.Done? <==>
      EmailIndex(st.users, email).None?
      && CreateUser(FreshUserId(st.users), SignUpDraft(userName, email, password, phone, gender, otp, passwordSalt, otpSalt, nowMs)).Some?
    ensures o.reply.Done? ==>
      && |o.after.users| == |st.users| + 1 && o.after.users[..|st.users|] == st.users
      && o.after.revoked == st.revoked && o.after.messages == st.messages
      && var u := o.after.users[|st.users|];
      && u == CreateUser(FreshUserId(st.users), SignUpDraft(userName, email, password, phone, gender, otp, passwordSalt, otpSalt, nowMs)).value
      && o.reply.value == u.id && o.reply.status == 200
      && u.email == email && u.provider == System && u.role == UserRole && u.confirmEmail.None?
      && CompareOpt(password, u.password)
      && u.confirmOtp == Some(ConfirmOtp(Hash(otp, otpSalt), nowMs + OtpTtlMs, 1, None))
      && o.mail == Some(Mail(ConfirmEmailMail, email, otp))
  {
    if EmailIndex(st.users, email).Some? then Outcome(Fail(409, "User Exsist"), st, None)
    else
      match CreateUser(FreshUserId(st.users), SignUpDraft(userName, email, password, phone, gender, otp, passwordSalt, otpSalt, nowMs))
      case None => Outcome(Fail(400, "User validation failed"), st, None)
      case Some(u) =>
        Outcome(Done(200, u.id), st.(users := st.users + [u]), Some(Mail(ConfirmEmailMail, email, otp)))
  }

  // ---------------------------------------------------------------- confirmEmail

  /** The confirmed account: `confirmEmail` set, the four OTP fields removed. */
  function Confirmed(u: User, nowMs: nat): User {
    u.(confirmEmail := Some(nowMs), confirmOtp := None)
  }

  /** confirmEmail: 404 without an email or code or without a pending
      account; then the expiry (400) before the code (409); success confirms
      that account. */
  function ConfirmEmailStep(st: Collections, email: string, otp: string, nowMs: nat): (o: Outcome<string>)
    ensures o.mail.None? && !o.reply.Hang?
    ensures !o.reply.Done? ==> o.after == st
    ensures email == "" || otp == "" || PendingIndex(st.users, email).None? ==> o.reply.Fail? && o.reply.status == 404
    ensures email != "" && otp != "" && PendingIndex(st.users, email).Some? ==>
      var i := PendingIndex(st.users, email).value;
      var c := st.users[i].confirmOtp.value;
      && (c.expiresAt < nowMs ==> o.reply == Fail(400, "Your OTP Is Expired , Get New OTP"))
      && (c.expiresAt >= nowMs && !Compare(otp, c.code) ==> o.reply == Fail(409, "Invalid OTP Code"))
      && (c.expiresAt >= nowMs && Compare(otp, c.code) ==>
            o.reply.Done? && o.after == st.(users := st.users[i := Confirmed(st.users[i], nowMs)]))
  {
    if email == "" || otp == "" then Outcome(Fail(404, "Email And OTP Are required"), st, None)
    else
      match PendingIndex(st.users, email)
      case None => Outcome(Fail(404, "Invalid Account"), st, None)
      case Some(i) =>
        var c := st.users[i].confirmOtp.value;
        if c.expiresAt < nowMs then Outcome(Fail(400, "Your OTP Is Expired , Get New OTP"), st, None)
        else if !Compare(otp, c.code) then Outcome(Fail(409, "Invalid OTP Code"), st, None)
        else Outcome(Done(200, "Email Confirmed Succses"), st.(users := st.users[i := Confirmed(st.users[i], nowMs)]), None)
  }

  // ---------------------------------------------------------------- reSendConfirmOTP

  /** The counter after an elapsed block was cleared (`:134-150`). */
  function CountAfterBlock(c: ConfirmOtp, nowMs: nat): int {
    if c.block.Some? && c.block.value < nowMs then 0 else c.count
  }

  /** reSendConfirmOTP, in the source's order: a block still running answers
      409; an elapsed block resets the counter to 0; five codes sent sets a
      5-minute block and answers 409; otherwise a new code is hashed, expires
      in 2 minutes, the counter goes up by one and the code is mailed. A block
      ending exactly now with fewer than five codes gets no response. */
  function ResendStep(st: Collections, email: string, otp: string, salt: nat, nowMs: nat): (o: Outcome<string>)
    ensures email == "" || PendingIndex(st.users, email).None? ==> o.reply.Fail? && o.reply.status == 404 && o.after == st
    ensures !o.reply.Done? ==> o.mail.None?
    ensures o.after.revoked == st.revoked && o.after.messages == st.messages
    ensures email != "" && PendingIndex(st.users, email).Some? ==>
      var i := PendingIndex(st.users, email).value;
      var u := st.users[i];
      var c := u.confirmOtp.value;
      && (c.block.Some? && c.block.value > nowMs ==> o == Outcome(Fail(409, "Plase Wait Untell 2 Minutes End"), st, None))
      && (o.reply.Hang? <==> c.block == Some(nowMs) && c.count < MaxOtpSends)
      && (!(c.block.Some? && c.block.value > nowMs) && CountAfterBlock(c, nowMs) >= MaxOtpSends ==>
            o.reply == Fail(409, "Please Wait For 5 Minutes And Try Again")
            && o.after.users == st.users[i := u.(confirmOtp := Some(c.(count := CountAfterBlock(c, nowMs), block := Some(nowMs + BlockMs))))])
      && (o.reply.Done? <==> (c.block.None? || c.block.value < nowMs) && CountAfterBlock(c, nowMs) < MaxOtpSends)
      && (o.reply.Done? ==>
            o.after.users == st.users[i := u.(confirmOtp := Some(ConfirmOtp(Hash(otp, salt), nowMs + OtpTtlMs, CountAfterBlock(c, nowMs) + 1, None)))]
            && o.mail == Some(Mail(ConfirmEmailMail, email, otp)))
  {
    if email == "" then Outcome(Fail(404, "Email Is required"), st, None)
    else
      match PendingIndex(st.users, email)
      case None => Outcome(Fail(404, "Invalid Account"), st, None)
      case Some(i) =>
        var u := st.users[i];
        var c := u.confirmOtp.value;
        if c.block.Some? && c.block.value > nowMs then Outcome(Fail(409, "Plase Wait Untell 2 Minutes End"), st, None)
        else
          var c1 := if c.block.Some? && c.block.value < nowMs then c.(count := 0, block := None) else c;
          var users1 := st.users[i := u.(confirmOtp := Some(c1))];
          if c1.count >= MaxOtpSends then
            var blocked := c1.(block := Some(nowMs + BlockMs));
            Outcome(Fail(409, "Please Wait For 5 Minutes And Try Again"), st.(users := users1[i := u.(confirmOtp := Some(blocked))]), None)
          else if c1.block.None? || c1.block.value < nowMs then
            var renewed := c1.(code := Hash(otp, salt), expiresAt := nowMs + OtpTtlMs, count := c1.count + 1);
            Outcome(Done(200, "OTP Sent Succses"), st.(users := users1[i := u.(confirmOtp := Some(renewed))]),
                    Some(Mail(ConfirmEmailMail, email, otp)))
          else Outcome(Hang, st.(users := users1), None)
  }

  // ---------------------------------------------------------------- signUpWithGmail

  /** The fields of the Google ID token payload the handler reads. */
  datatype GooglePayload = GooglePayload(email: string, emailVerified: bool, name: string)

  function GoogleDraft(p: GooglePayload, nowMs: nat): Draft {
    Draft(Some(p.name), Some(p.email), None, None, None, Some("google"), Some(nowMs), None)
  }

  /** signUpWithGmail after the ID token was verified: 400 for an unverified
      email; an existing `google` account logs in; an existing account of
      another provider is refused with 409; otherwise a confirmed `google`
      account named after the profile is created (201). */
  function GoogleStep(st: Collections, p: GooglePayload, jti: string, nowMs: nat): (o: Outcome<Credentials>)
    ensures o.mail.None? && !o.reply.Hang?
    ensures !p.emailVerified ==> o == Outcome(Fail(400, "Not Verified Account"), st, None)
    ensures !(o.reply.Done? && o.reply.status == 201) ==> o.after == st
    ensures p.emailVerified && EmailIndex(st.users, p.email).Some? ==>
      var u := st.users[EmailIndex(st.users, p.email).value];
      && (u.provider == Google ==> o.reply == Done(200, GenerateLoginCredentials(u, jti, nowMs)))
      && (u.provider != Google ==> o.reply == Fail(409, "Invalid Provider"))
    ensures o.reply.Done? && o.reply.status == 201 ==>
      && p.emailVerified && EmailIndex(st.users, p.email).None?
      && |o.after.users| == |st.users| + 1 && o.after.users[..|st.users|] == st.users
      && o.after.revoked == st.revoked && o.after.messages == st.messages
      && var u := o.after.users[|st.users|];
      && u.email == p.email && u.provider == Google && u.confirmEmail == Some(nowMs) && u.password.None?
      && o.reply.value == GenerateLoginCredentials(u, jti, nowMs)
    ensures p.emailVerified && EmailIndex(st.users, p.email).None? ==>
      && (o.reply.Done? <==> CreateUser(FreshUserId(st.users), GoogleDraft(p, nowMs)).Some?)
      && (o.reply.Done? ==>
            && o.reply.status == 201
            && o.after.users == st.users + [CreateUser(FreshUserId(st.users), GoogleDraft(p, nowMs)).value])
  {
    if !p.emailVerified then Outcome(Fail(400, "Not Verified Account"), st, None)
    else
      match EmailIndex(st.users, p.email)
      case Some(i) =>
        if st.users[i].provider == Google then Outcome(Done(200, GenerateLoginCredentials(st.users[i], jti, nowMs)), st, None)
        else Outcome(Fail(409, "Invalid Provider"), st, None)
      case None =>
        match CreateUser(FreshUserId(st.users), GoogleDraft(p, nowMs))
        case None => Outcome(Fail(400, "User validation failed"), st, None)
        case Some(u) => Outcome(Done(201, GenerateLoginCredentials(u, jti, nowMs)), st.(users := st.users + [u]), None)
  }

  // ---------------------------------------------------------------- login

  function SystemEmailIndex(users: seq<User>, email: string): Option<nat> {
    FindFirst(users, (u: User) => u.email == email && u.provider == System)
  }

  /** login, with its checks in order: no `system` account 404, unconfirmed
      400, frozen 400, wrong password 409; only then a token pair. */
  function LoginStep(st: Collections, email: string, password: string, jti: string, nowMs: nat): (r: Reply<Credentials>)
    ensures !r.Hang?
    ensures SystemEmailIndex(st.users, email).None? ==> r == Fail(404, "Invalid Login Data")
    ensures SystemEmailIndex(st.users, email).Some? ==>
      var u := st.users[SystemEmailIndex(st.users, email).value];
      && (u.confirmEmail.None? ==> r == Fail(400, "Please Confirm Your Email First"))
      && (u.confirmEmail.Some? && u.deletedAt.Some? ==> r == Fail(400, "Your Account Is Freezed"))
      && (u.confirmEmail.Some? && u.deletedAt.None? && !CompareOpt(password, u.password) ==> r == Fail(409, "Invalid email or password"))
      && (r.Done? <==> u.confirmEmail.Some? && u.deletedAt.None? && CompareOpt(password, u.password))
      && (r.Done? ==> r == Done(200, GenerateLoginCredentials(u, jti, nowMs)))
  {
    match SystemEmailIndex(st.users, email)
    case None => Fail(404, "Invalid Login Data")
    case Some(i) =>
      var u := st.users[i];
      if u.confirmEmail.None? then Fail(400, "Please Confirm Your Email First")
      else if u.deletedAt.Some? then Fail(400, "Your Account Is Freezed")
      else if !CompareOpt(password, u.password) then Fail(409, "Invalid email or password")
      else Done(200, GenerateLoginCredentials(u, jti, nowMs))
  }

  // ---------------------------------------------------------------- refreshToken

  /** refreshToken: revoke the presented `jti`, then issue a new pair for the
      same user; a failed insert answers 400 and issues nothing. */
  function RefreshStep(st: Collections, s: Session, jti: string, nowMs: nat): (o: Outcome<Credentials>)
    ensures o.mail.None? && o.after.users == st.users && o.after.messages == st.messages
    ensures o.reply.Done? <==> RevokeInsert(st.revoked, s, RevocationTtl).Some?
    ensures o.reply.Done? ==>
      o.reply == Done(200, GenerateLoginCredentials(s.user, jti, nowMs))
      && o.after.revoked == RevokeInsert(st.revoked, s, RevocationTtl).value
    ensures !o.reply.Done? ==> o.after == st && o.reply == Fail(400, RevokeFailure(s))
  {
    match RevokeInsert(st.revoked, s, RevocationTtl)
    case None => Outcome(Fail(400, RevokeFailure(s)), st, None)
    case Some(revoked) => Outcome(Done(200, GenerateLoginCredentials(s.user, jti, nowMs)), st.(revoked := revoked), None)
  }

  // ---------------------------------------------------------------- changePassword

  /** Does `plain` match one of the stored hashes? */
  predicate UsedBefore(history: seq<Digest>, plain: string) {
    exists k :: 0 <= k < |history| && Compare(plain, history[k])
  }

  /** findOneAndUpdate's filter in changePassword. */
  function ConfirmedIdIndex(users: seq<User>, id: UserId): Option<nat> {
    FindFirst(users, (u: User) => u.id == id && u.confirmEmail.Some?)
  }

  /** The password update: the new hash, the previous hash pushed onto the
      history, and `changeCredentialsTime` for the flag `fromAll`. */
  function WithNewPassword(u: User, previous: Digest, newHash: Digest, changedAt: Option<int>): User {
    u.(password := Some(newHash), oldPasswords := u.oldPasswords + [previous],
       changeCredentialsTime := if changedAt.Some? then changedAt else u.changeCredentialsTime)
  }

  /** changePassword: 400 for a wrong old password, 400 for a new password
      found in the history; the flag `logout` revokes the current `jti`
      before the update (and the revocation stays even if the update finds
      no confirmed account), `fromAll` sets `changeCredentialsTime`. */
  function ChangePasswordStep(st: Collections, s: Session, oldPassword: string, newPassword: string,
                              flag: Option<string>, salt: nat, nowMs: nat): (o: Outcome<string>)
    ensures o.mail.None? && !o.reply.Hang? && o.after.messages == st.messages
    ensures !CompareOpt(oldPassword, s.user.password) ==> o == Outcome(Fail(400, "In-Valid Old Password"), st, None)
    ensures CompareOpt(oldPassword, s.user.password) && UsedBefore(s.user.oldPasswords, newPassword) ==>
      o == Outcome(Fail(400, "You Already Used This Password Before"), st, None)
    ensures o.reply.Done? ==>
      && CompareOpt(oldPassword, s.user.password) && !UsedBefore(s.user.oldPasswords, newPassword)
      && ConfirmedIdIndex(st.users, s.user.id).Some?
      && var i := ConfirmedIdIndex(st.users, s.user.id).value;
      && o.after.users == st.users[i := WithNewPassword(st.users[i], s.user.password.value, Hash(newPassword, salt),
                                                         if flag == Some(FromAll) then Some(nowMs) else None)]
      && (flag == Some(LogoutFlag) ==> RevokeInsert(st.revoked, s, RevocationTtl).Some?)
      && o.after.revoked == (if flag == Some(LogoutFlag) then RevokeInsert(st.revoked, s, RevocationTtl).value else st.revoked)
    ensures o.after.users != st.users ==> o.reply.Done?
    ensures o.after.revoked != st.revoked ==> flag == Some(LogoutFlag)
    ensures CompareOpt(oldPassword, s.user.password) && !UsedBefore(s.user.oldPasswords, newPassword)
            && flag == Some(LogoutFlag) && RevokeInsert(st.revoked, s, RevocationTtl).None? ==>
      o == Outcome(Fail(400, RevokeFailure(s)), st, None)
    ensures CompareOpt(oldPassword, s.user.password) && !UsedBefore(s.user.oldPasswords, newPassword)
            && (flag != Some(LogoutFlag) || RevokeInsert(st.revoked, s, RevocationTtl).Some?) ==>
      && (o.reply.Done? <==> ConfirmedIdIndex(st.users, s.user.id).Some?)
      && (o.reply.Done? ==> o.reply == Done(200, "Password Changed Succses"))
      && (ConfirmedIdIndex(st.users, s.user.id).None? ==>
            && o.reply == Fail(400, "Something Went Worng")
            && o.after.users == st.users
            && o.after.revoked == (if flag == Some(LogoutFlag) then RevokeInsert(st.revoked, s, RevocationTtl).value else st.revoked))
  {
    if !CompareOpt(oldPassword, s.user.password) then Outcome(Fail(400, "In-Valid Old Password"), st, None)
    else if UsedBefore(s.user.oldPasswords, newPassword) then Outcome(Fail(400, "You Already Used This Password Before"), st, None)
    else
      var revoked :=
        if flag == Some(LogoutFlag) then RevokeInsert(st.revoked, s, RevocationTtl) else Some(st.revoked);
      if revoked.None? then Outcome(Fail(400, RevokeFailure(s)), st, None)
      else
        var st1 := st.(revoked := revoked.value);
        match ConfirmedIdIndex(st.users, s.user.id)
        case None => Outcome(Fail(400, "Something Went Worng"), st1, None)
        case Some(i) =>
          var u := WithNewPassword(st.users[i], s.user.password.value, Hash(newPassword, salt),
                                   if flag == Some(FromAll) then Some(nowMs) else None);
          Outcome(Done(200, "Password Changed Succses"), st1.(users := st.users[i := u]), None)
  }

  // ---------------------------------------------------------------- forgot / verify / reset

  /** forgetPassword: a new forgot-password code (no expiry) on a confirmed,
      unfrozen `system` account, mailed to it; otherwise 400. */
  function ForgetStep(st: Collections, email: string, otp: string, salt: nat): (o: Outcome<string>)
    ensures !o.reply.Hang? && o.after.revoked == st.revoked && o.after.messages == st.messages
    ensures RecoverableIndex(st.users, email).None? ==> o == Outcome(Fail(400, "In-Valid Account"), st, None)
    ensures RecoverableIndex(st.users, email).Some? ==>
      var i := RecoverableIndex(st.users, email).value;
      && o.reply.Done?
      && o.after.users == st.users[i := st.users[i].(forgotPasswordOTP := Some(Hash(otp, salt)))]
      && o.mail == Some(Mail(ForgotPasswordMail, email, otp))
  {
    match RecoverableIndex(st.users, email)
    case None => Outcome(Fail(400, "In-Valid Account"), st, None)
    case Some(i) =>
      Outcome(Done(200, "OTP Sent To Your Email"),
              st.(users := st.users[i := st.users[i].(forgotPasswordOTP := Some(Hash(otp, salt)))]),
              Some(Mail(ForgotPasswordMail, email, otp)))
  }

  /** verifyforgetPassword: only a response; the code is not consumed. */
  function VerifyForgetStep(st: Collections, email: string, otp: string): (r: Reply<string>)
    ensures !r.Hang?
    ensures r.Done? <==> ResettableIndex(st.users, email).Some?
                         && CompareOpt(otp, st.users[ResettableIndex(st.users, email).value].forgotPasswordOTP)
  {
    match ResettableIndex(st.users, email)
    case None => Fail(400, "In-Valid Account")
    case Some(i) =>
      if !CompareOpt(otp, st.users[i].forgotPasswordOTP) then Fail(400, "Wrong OTP Number")
      else Done(200, "Verifyed Succses")
  }

  /** The reset account: code removed, credentials changed now, new password;
      the history is left as it was. */
  function AfterReset(u: User, newHash: Digest, nowMs: nat): User {
    u.(forgotPasswordOTP := None, changeCredentialsTime := Some(nowMs), password := Some(newHash))
  }

  /** reSetPassword: the same lookup and code check as verify, then the reset. */
  function ResetStep(st: Collections, email: string, otp: string, newPassword: string, salt: nat, nowMs: nat): (o: Outcome<string>)
    ensures o.mail.None? && !o.reply.Hang? && o.after.revoked == st.revoked && o.after.messages == st.messages
    ensures o.reply.Done? <==> VerifyForgetStep(st, email, otp).Done?
    ensures !o.reply.Done? ==> o.after == st && o.reply == VerifyForgetStep(st, email, otp)
    ensures o.reply.Done? ==>
      var i := ResettableIndex(st.users, email).value;
      && o.after.users == st.users[i := AfterReset(st.users[i], Hash(newPassword, salt), nowMs)]
      && o.after.users[i].oldPasswords == st.users[i].oldPasswords
  {
    match ResettableIndex(st.users, email)
    case None => Outcome(Fail(400, "In-Valid Account"), st, None)
    case Some(i) =>
      if !CompareOpt(otp, st.users[i].forgotPasswordOTP) then Outcome(Fail(400, "Wrong OTP Number"), st, None)
      else Outcome(Done(200, "Password Reset Succses"),
                   st.(users := st.users[i := AfterReset(st.users[i], Hash(newPassword, salt), nowMs)]), None)
  }

  // ---------------------------------------------------------------- logOut

  function IdIndex(users: seq<User>, id: UserId): Option<nat> {
    FindFirst(users, (u: User) => u.id == id)
  }

  /** logOut: the flag `fromAll` sets `changeCredentialsTime` (200); any other
      or missing flag revokes the current `jti` (201). */
  function LogOutStep(st: Collections, s: Session, flag: Option<string>, nowMs: nat): (o: Outcome<string>)
    ensures o.mail.None? && !o.reply.Hang? && o.after.messages == st.messages
    ensures flag == Some(FromAll) ==>
      && o.reply == Done(200, "Logout From All Devices Succses") && o.after.revoked == st.revoked
      && o.after.users == (match IdIndex(st.users, s.user.id)
                           case None => st.users
                           case Some(i) => st.users[i := st.users[i].(changeCredentialsTime := Some(nowMs))])
    ensures flag != Some(FromAll) ==>
      && o.after.users == st.users
      && (o.reply.Done? <==> RevokeInsert(st.revoked, s, RevocationTtl).Some?)
      && (o.reply.Done? ==> o.reply.status == 201 && o.after.revoked == RevokeInsert(st.revoked, s, RevocationTtl).value)
      && (!o.reply.Done? ==> o.after == st && o.reply == Fail(400, RevokeFailure(s)))
  {
    if flag == Some(FromAll) then
      var users := match IdIndex(st.users, s.user.id)
                   case None => st.users
                   case Some(i) => st.users[i := st.users[i].(changeCredentialsTime := Some(nowMs))];
      Outcome(Done(200, "Logout From All Devices Succses"), st.(users := users), None)
    else
      match RevokeInsert(st.revoked, s, RevocationTtl)
      case None => Outcome(Fail(400, RevokeFailure(s)), st, None)
      case Some(revoked) => Outcome(Done(201, "Logout Succses"), st.(revoked := revoked), None)
  }

  // ================================================================ handlers

  /** `createRevokeToken` (server/src/utils/security/token.security.js): insert
      the revocation record of the session's `jti`. */
  method CreateRevokeToken(db: Database, s: Session) returns (ok: bool)
    modifies db
    ensures ok <==> RevokeInsert(old(db.revoked), s, RevocationTtl).Some?
    ensures db.revoked == if ok then RevokeInsert(old(db.revoked), s, RevocationTtl).value else old(db.revoked)
    ensures db.users == old(db.users) && db.messages == old(db.messages)
  {
    var inserted := RevokeInsert(db.revoked, s, RevocationTtl);
    ok := inserted.Some?;
    if ok {
      db.revoked := inserted.value;
    }
  }

  method SignUp(db: Database, userName: string, email: string, password: string, phone: string,
                gender: Option<string>, otp: string, passwordSalt: nat, otpSalt: nat, nowMs: nat)
    returns (reply: Reply<UserId>, mail: Option<Mail>)
    modifies db
    ensures Outcome(reply, db.Contents(), mail)
            == SignUpStep(old(db.Contents()), userName, email, password, phone, gender, otp, passwordSalt, otpSalt, nowMs)
  {
    mail := None;
    if EmailIndex(db.users, email).Some? {
      reply := Fail(409, "User Exsist");
      return;
    }
    var created := CreateUser(FreshUserId(db.users),
                              SignUpDraft(userName, email, password, phone, gender, otp, passwordSalt, otpSalt, nowMs));
    if created.None? {
      reply := Fail(400, "User validation failed");
      return;
    }
    db.users := db.users + [created.value];
    mail := Some(Mail(ConfirmEmailMail, email, otp));
    reply := Done(200, created.value.id);
  }

  method ConfirmEmail(db: Database, email: string, otp: string, nowMs: nat) returns (reply: Reply<string>)
    modifies db
    ensures Outcome(reply, db.Contents(), None) == ConfirmEmailStep(old(db.Contents()), email, otp, nowMs)
  {
    if email == "" || otp == "" {
      return Fail(404, "Email And OTP Are required");
    }
    var found := PendingIndex(db.users, email);
    if found.None? {
      return Fail(404, "Invalid Account");
    }
    var i := found.value;
    var c := db.users[i].confirmOtp.value;
    if c.expiresAt < nowMs {
      return Fail(400, "Your OTP Is Expired , Get New OTP");
    }
    if !Compare(otp, c.code) {
      return Fail(409, "Invalid OTP Code");
    }
    db.users := db.users[i := Confirmed(db.users[i], nowMs)];
    reply := Done(200, "Email Confirmed Succses");
  }

  /** reSendConfirmOTP. As in the source, the loaded record is also updated in
      memory when an elapsed block is cleared, and the later checks read it. */
  method ReSendConfirmOtp(db: Database, email: string, otp: string, salt: nat, nowMs: nat)
    returns (reply: Reply<string>, mail: Option<Mail>)
    modifies db
    ensures Outcome(reply, db.Contents(), mail) == ResendStep(old(db.Contents()), email, otp, salt, nowMs)
  {
    mail := None;
    if email == "" {
      reply := Fail(404, "Email Is required");
      return;
    }
    var found := PendingIndex(db.users, email);
    if found.None? {
      reply := Fail(404, "Invalid Account");
      return;
    }
    var i := found.value;
    var u := db.users[i];
    var c := u.confirmOtp.value;
    if c.block.Some? && c.block.value > nowMs {
      reply := Fail(409, "Plase Wait Untell 2 Minutes End");
      return;
    }
    if c.block.Some? && c.block.value < nowMs {
      c := c.(count := 0, block := None);
      db.users := db.users[i := u.(confirmOtp := Some(c))];
    }
    if c.count >= MaxOtpSends {
      db.users := db.users[i := u.(confirmOtp := Some(c.(block := Some(nowMs + BlockMs))))];
      reply := Fail(409, "Please Wait For 5 Minutes And Try Again");
      return;
    }
    if c.block.None? || c.block.value < nowMs {
      var renewed := c.(code := Hash(otp, salt), expiresAt := nowMs + OtpTtlMs, count := c.count + 1);
      db.users := db.users[i := u.(confirmOtp := Some(renewed))];
      mail := Some(Mail(ConfirmEmailMail, email, otp));
      reply := Done(200, "OTP Sent Succses");
      return;
    }
    reply := Hang;
  }

  method SignUpWithGmail(db: Database, p: GooglePayload, jti: string, nowMs: nat) returns (reply: Reply<Credentials>)
    modifies db
    ensures Outcome(reply, db.Contents(), None) == GoogleStep(old(db.Contents()), p, jti, nowMs)
  {
    if !p.emailVerified {
      return Fail(400, "Not Verified Account");
    }
    var found := EmailIndex(db.users, p.email);
    if found.Some? {
      var u := db.users[found.value];
      if u.provider == Google {
        return Done(200, GenerateLoginCredentials(u, jti, nowMs));
      }
      return Fail(409, "Invalid Provider");
    }
    var created := CreateUser(FreshUserId(db.users), GoogleDraft(p, nowMs));
    if created.None? {
      return Fail(400, "User validation failed");
    }
    db.users := db.users + [created.value];
    reply := Done(201, GenerateLoginCredentials(created.value, jti, nowMs));
  }

  method RefreshToken(db: Database, s: Session, jti: string, nowMs: nat) returns (reply: Reply<Credentials>)
    modifies db
    ensures Outcome(reply, db.Contents(), None) == RefreshStep(old(db.Contents()), s, jti, nowMs)
  {
    var ok := CreateRevokeToken(db, s);
    if !ok {
      return Fail(400, RevokeFailure(s));
    }
    reply := Done(200, GenerateLoginCredentials(s.user, jti, nowMs));
  }

  /** changePassword, with the history check as the source's loop over
      `oldPasswords`. */
  method ChangePassword(db: Database, s: Session, oldPassword: string, newPassword: string,
                        flag: Option<string>, salt: nat, nowMs: nat) returns (reply: Reply<string>)
    modifies db
    ensures Outcome(reply, db.Contents(), None)
            == ChangePasswordStep(old(db.Contents()), s, oldPassword, newPassword, flag, salt, nowMs)
  {
    if !CompareOpt(oldPassword, s.user.password) {
      return Fail(400, "In-Valid Old Password");
    }
    var k := 0;
    while k < |s.user.oldPasswords|
      invariant 0 <= k <= |s.user.oldPasswords|
      invariant forall j :: 0 <= j < k ==> !Compare(newPassword, s.user.oldPasswords[j])
    {
      if Compare(newPassword, s.user.oldPasswords[k]) {
        return Fail(400, "You Already Used This Password Before");
      }
      k := k + 1;
    }
    var changedAt: Option<int> := None;
    if flag == Some(FromAll) {
      changedAt := Some(nowMs);
    } else if flag == Some(LogoutFlag) {
      var ok := CreateRevokeToken(db, s);
      if !ok {
        return Fail(400, RevokeFailure(s));
      }
    }
    var found := ConfirmedIdIndex(db.users, s.user.id);
    if found.None? {
      return Fail(400, "Something Went Worng");
    }
    var i := found.value;
    db.users := db.users[i := WithNewPassword(db.users[i], s.user.password.value, Hash(newPassword, salt), changedAt)];
    reply := Done(200, "Password Changed Succses");
  }

  method ForgetPassword(db: Database, email: string, otp: string, salt: nat)
    returns (reply: Reply<string>, mail: Option<Mail>)
    modifies db
    ensures Outcome(reply, db.Contents(), mail) == ForgetStep(old(db.Contents()), email, otp, salt)
  {
    var found := RecoverableIndex(db.users, email);
    if found.None? {
      return Fail(400, "In-Valid Account"), None;
    }
    var i := found.value;
    db.users := db.users[i := db.users[i].(forgotPasswordOTP := Some(Hash(otp, salt)))];
    reply, mail := Done(200, "OTP Sent To Your Email"), Some(Mail(ForgotPasswordMail, email, otp));
  }

  method ReSetPassword(db: Database, email: string, otp: string, newPassword: string, salt: nat, nowMs: nat)
    returns (reply: Reply<string>)
    modifies db
    ensures Outcome(reply, db.Contents(), None) == ResetStep(old(db.Contents()), email, otp, newPassword, salt, nowMs)
  {
    var found := ResettableIndex(db.users, email);
    if found.None? {
      return Fail(400, "In-Valid Account");
    }
    var i := found.value;
    if !CompareOpt(otp, db.users[i].forgotPasswordOTP) {
      return Fail(400, "Wrong OTP Number");
    }
    db.users := db.users[i := AfterReset(db.users[i], Hash(newPassword, salt), nowMs)];
    reply := Done(200, "Password Reset Succses");
  }

  method LogOut(db: Database, s: Session, flag: Option<string>, nowMs: nat) returns (reply: Reply<string>)
    modifies db
    ensures Outcome(reply, db.Contents(), None) == LogOutStep(old(db.Contents()), s, flag, nowMs)
  {
    if flag == Some(FromAll) {
      var found := IdIndex(db.users, s.user.id);
      if found.Some? {
        var i := found.value;
        db.users := db.users[i := db.users[i].(changeCredentialsTime := Some(nowMs))];
      }
      return Done(200, "Logout From All Devices Succses");
    }
    var ok := CreateRevokeToken(db, s);
    if !ok {
      return Fail(400, RevokeFailure(s));
    }
    reply := Done(201, "Logout Succses");
  }

  /** The daily task: `deleteMany({ expiresIn: { $lt: floor(now / 1000) } })`. */
  method SweepExpiredTokens(db: Database, nowMs: nat)
    modifies db
    ensures db.revoked == Sweep(old(db.revoked), nowMs)
    ensures db.users == old(db.users) && db.messages == old(db.messages)
  {
    db.revoked := Sweep(db.revoked, nowMs);
  }
}
