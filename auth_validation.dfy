/** The request schemas of the authentication routes. Each route validates
    only its body; `signUp`, `verifyForgetPassword`, `reSetPassword` and
    `changePassword` are built by appending keys to another schema. */
module AuthValidation {
  import opened Wrappers
  import opened Schema
  import opened GeneralFields
  import opened Tokens
  import opened Store
  import opened AuthService

  const LoginBody: seq<Field> := [Field("email", EmailRule, true), Field("password", PasswordRule, true)]

  const SignUpBody: seq<Field> := LoginBody + [
    Field("userName", UserNameRule, true),
    Field("phone", PhoneRule, true),
    Field("gender", OneOf(GenderNames), false),
    Field("confirmPassword", SameAs("password"), true)]

  const ConfirmEmailBody: seq<Field> := [Field("email", EmailRule, true), Field("OTP", OtpRule, true)]

  const ForgetPasswordBody: seq<Field> := [Field("email", EmailRule, true)]

  const VerifyForgetPasswordBody: seq<Field> := ForgetPasswordBody + [Field("OTP", OtpRule, true)]

  const ReSetPasswordBody: seq<Field> := VerifyForgetPasswordBody + [Field("newPassword", PasswordRule, true)]

  /** The `logoutEnum` values. */
  const LogoutFlags: seq<string> := [FromAll, LogoutFlag, StayLoggedIn]

  /** The `flag` key; its default `stayLoggedIn` is applied to the validated copy only. */
  const LogOutBody: seq<Field> := [Field("flag", OneOf(LogoutFlags), false)]

  const ChangePasswordBody: seq<Field> := LogOutBody + [
    Field("oldPassword", PasswordRule, true),
    Field("newPassword", PasswordOtherThan("oldPassword"), true),
    Field("confirmNewPassword", SameAs("newPassword"), false)]

  /** A schema that validates a required body. */
  function RequiredBody(fields: seq<Field>): seq<PartSchema> {
    [PartSchema("body", ObjectOf(fields, true))]
  }

  const Login: seq<PartSchema> := RequiredBody(LoginBody)
  const SignUp: seq<PartSchema> := RequiredBody(SignUpBody)
  const ConfirmEmail: seq<PartSchema> := RequiredBody(ConfirmEmailBody)
  const ForgetPassword: seq<PartSchema> := RequiredBody(ForgetPasswordBody)
  const VerifyForgetPassword: seq<PartSchema> := RequiredBody(VerifyForgetPasswordBody)
  const ReSetPassword: seq<PartSchema> := RequiredBody(ReSetPasswordBody)
  /** The `logOut` body is not `.required()`: a request without one passes. */
  const LogOut: seq<PartSchema> := [PartSchema("body", ObjectOf(LogOutBody, false))]
  const ChangePassword: seq<PartSchema> := RequiredBody(ChangePasswordBody)

  /** A required body is accepted exactly when it is an object that conforms. */
  lemma RequiredBodyAccepts(fields: seq<Field>, req: Request)
    ensures Accepts(RequiredBody(fields), req) <==>
      "body" in req && req["body"].Obj? && Conforms(fields, req["body"].fields)
  {
    AcceptsIff(RequiredBody(fields), req);
  }

  /** login: a valid email and a valid password, nothing else. */
  lemma LoginConforms(b: seq<(string, Value)>)
    ensures Conforms(LoginBody, b) <==>
      HasText(b, "email", IsEmail) && HasText(b, "password", IsPassword) && OnlyKeys(b, ["email", "password"])
  {
    assert Names(LoginBody) == ["email", "password"];
    assert FieldOk(LoginBody[0], b) <==> HasText(b, "email", IsEmail);
    assert FieldOk(LoginBody[1], b) <==> HasText(b, "password", IsPassword);
  }

  lemma SignUpTextFieldsOk(b: seq<(string, Value)>)
    ensures FieldOk(SignUpBody[0], b) <==> HasText(b, "email", IsEmail)
    ensures FieldOk(SignUpBody[1], b) <==> HasText(b, "password", IsPassword)
    ensures FieldOk(SignUpBody[2], b) <==> HasText(b, "userName", IsUserName)
    ensures FieldOk(SignUpBody[3], b) <==> HasText(b, "phone", IsPhone)
  {
  }

  lemma SignUpChoiceFieldsOk(b: seq<(string, Value)>)
    ensures FieldOk(SignUpBody[4], b) <==> Get(b, "gender").None? || Get(b, "gender").value in [Str("male"), Str("female")]
    ensures FieldOk(SignUpBody[5], b) <==> Get(b, "confirmPassword").Some? && Get(b, "confirmPassword") == Get(b, "password")
  {
  }

  /** signUp: the login keys, a user name and a phone, an optional gender
      among the enum, and a `confirmPassword` equal to the password. */
  lemma SignUpConforms(b: seq<(string, Value)>)
    ensures Conforms(SignUpBody, b) <==>
      && HasText(b, "email", IsEmail) && HasText(b, "password", IsPassword)
      && HasText(b, "userName", IsUserName) && HasText(b, "phone", IsPhone)
      && (Get(b, "gender").None? || Get(b, "gender").value in [Str("male"), Str("female")])
      && Get(b, "confirmPassword") == Get(b, "password")
      && OnlyKeys(b, ["email", "password", "userName", "phone", "gender", "confirmPassword"])
  {
    SignUpTextFieldsOk(b);
    SignUpChoiceFieldsOk(b);
    SixFieldsOk(SignUpBody, b);
    assert Names(SignUpBody) == ["email", "password", "userName", "phone", "gender", "confirmPassword"];
  }

  /** signUp's body is login's with four keys appended: a body signUp
      accepts, cut down to `email` and `password`, passes login's checks. */
  lemma SignUpExtendsLogin(b: seq<(string, Value)>)
    ensures Conforms(SignUpBody, b) <==>
      && FieldOk(LoginBody[0], b) && FieldOk(LoginBody[1], b)
      && (forall i :: 2 <= i < |SignUpBody| ==> FieldOk(SignUpBody[i], b))
      && OnlyKeys(b, Names(LoginBody) + ["userName", "phone", "gender", "confirmPassword"])
  {
    var more := SignUpBody[2..];
    assert SignUpBody == LoginBody + more;
    AppendConforms(LoginBody, more, b);
    assert Names(more) == ["userName", "phone", "gender", "confirmPassword"];
    assert forall i :: 0 <= i < |more| ==> more[i] == SignUpBody[i + 2];
  }

  /** confirmEmail: a valid email and a six-digit code, nothing else. */
  lemma ConfirmEmailConforms(b: seq<(string, Value)>)
    ensures Conforms(ConfirmEmailBody, b) <==>
      HasText(b, "email", IsEmail) && HasText(b, "OTP", IsOtp) && OnlyKeys(b, ["email", "OTP"])
  {
    assert Names(ConfirmEmailBody) == ["email", "OTP"];
    assert FieldOk(ConfirmEmailBody[0], b) <==> HasText(b, "email", IsEmail);
    assert FieldOk(ConfirmEmailBody[1], b) <==> HasText(b, "OTP", IsOtp);
  }

  lemma ForgetPasswordConforms(b: seq<(string, Value)>)
    ensures (forall i :: 0 <= i < |ForgetPasswordBody| ==> FieldOk(ForgetPasswordBody[i], b)) <==>
      HasText(b, "email", IsEmail)
    ensures Conforms(ForgetPasswordBody, b) <==> HasText(b, "email", IsEmail) && OnlyKeys(b, ["email"])
  {
    assert FieldOk(ForgetPasswordBody[0], b) <==> HasText(b, "email", IsEmail);
    assert Names(ForgetPasswordBody) == ["email"];
  }

  lemma VerifyForgetPasswordConforms(b: seq<(string, Value)>)
    ensures (forall i :: 0 <= i < |VerifyForgetPasswordBody| ==> FieldOk(VerifyForgetPasswordBody[i], b)) <==>
      HasText(b, "email", IsEmail) && HasText(b, "OTP", IsOtp)
    ensures Conforms(VerifyForgetPasswordBody, b) <==>
      HasText(b, "email", IsEmail) && HasText(b, "OTP", IsOtp) && OnlyKeys(b, ["email", "OTP"])
  {
    var otp := Field("OTP", OtpRule, true);
    assert FieldOk(otp, b) <==> HasText(b, "OTP", IsOtp);
    ForgetPasswordConforms(b);
    assert Names(ForgetPasswordBody) == ["email"];
    AppendOneConforms(ForgetPasswordBody, otp, b, HasText(b, "email", IsEmail), HasText(b, "OTP", IsOtp), ["email", "OTP"]);
  }

  lemma ReSetPasswordConforms(b: seq<(string, Value)>)
    ensures Conforms(ReSetPasswordBody, b) <==>
      && HasText(b, "email", IsEmail) && HasText(b, "OTP", IsOtp) && HasText(b, "newPassword", IsPassword)
      && OnlyKeys(b, ["email", "OTP", "newPassword"])
  {
    var newPassword := Field("newPassword", PasswordRule, true);
    assert FieldOk(newPassword, b) <==> HasText(b, "newPassword", IsPassword);
    VerifyForgetPasswordConforms(b);
    assert Names(VerifyForgetPasswordBody) == ["email", "OTP"];
    AppendOneConforms(VerifyForgetPasswordBody, newPassword, b,
                      HasText(b, "email", IsEmail) && HasText(b, "OTP", IsOtp), HasText(b, "newPassword", IsPassword),
                      ["email", "OTP", "newPassword"]);
  }

  /** logOut: no body at all, or an object with at most a known `flag`. */
  lemma LogOutAccepts(req: Request)
    ensures Accepts(LogOut, req) <==>
      || "body" !in req
      || (&& req["body"].Obj?
          && var b := req["body"].fields;
          && (Get(b, "flag").None? || Get(b, "flag").value in [Str(FromAll), Str(LogoutFlag), Str(StayLoggedIn)])
          && OnlyKeys(b, ["flag"]))
  {
    AcceptsIff(LogOut, req);
    if "body" in req && req["body"].Obj? {
      FlagFieldOk(req["body"].fields);
    }
    assert Names(LogOutBody) == ["flag"];
  }

  lemma FlagFieldOk(b: seq<(string, Value)>)
    ensures FieldOk(LogOutBody[0], b) <==>
      Get(b, "flag").None? || Get(b, "flag").value in [Str(FromAll), Str(LogoutFlag), Str(StayLoggedIn)]
  {
  }

  lemma ChangePasswordFieldsOk(b: seq<(string, Value)>)
    ensures FieldOk(ChangePasswordBody[1], b) <==> HasText(b, "oldPassword", IsPassword)
    ensures FieldOk(ChangePasswordBody[2], b) <==>
      HasText(b, "newPassword", IsPassword) && Get(b, "newPassword") != Get(b, "oldPassword")
    ensures FieldOk(ChangePasswordBody[3], b) <==>
      Get(b, "confirmNewPassword").None? || Get(b, "confirmNewPassword") == Get(b, "newPassword")
  {
  }

  /** changePassword: two valid passwords that differ, a confirmation that
      repeats the new one when given, an optional known flag, nothing else. */
  lemma ChangePasswordConforms(b: seq<(string, Value)>)
    ensures Conforms(ChangePasswordBody, b) <==>
      && HasText(b, "oldPassword", IsPassword) && HasText(b, "newPassword", IsPassword)
      && Get(b, "newPassword") != Get(b, "oldPassword")
      && (Get(b, "confirmNewPassword").None? || Get(b, "confirmNewPassword") == Get(b, "newPassword"))
      && (Get(b, "flag").None? || Get(b, "flag").value in [Str(FromAll), Str(LogoutFlag), Str(StayLoggedIn)])
      && OnlyKeys(b, ["flag", "oldPassword", "newPassword", "confirmNewPassword"])
  {
    FlagFieldOk(b);
    ChangePasswordFieldsOk(b);
    FourFieldsOk(ChangePasswordBody, b);
    assert Names(ChangePasswordBody) == ["flag", "oldPassword", "newPassword", "confirmNewPassword"];
  }

  /** The default flag never reaches the handler, which sees no flag at
      all; both handlers treat a missing flag exactly like `stayLoggedIn`. */
  lemma MissingFlagActsAsDefault(st: Collections, s: Session, oldPassword: string, newPassword: string,
                                 salt: nat, nowMs: nat)
    ensures LogOutStep(st, s, None, nowMs) == LogOutStep(st, s, Some(StayLoggedIn), nowMs)
    ensures ChangePasswordStep(st, s, oldPassword, newPassword, None, salt, nowMs)
         == ChangePasswordStep(st, s, oldPassword, newPassword, Some(StayLoggedIn), salt, nowMs)
  {
  }
}
