/** The two-step sign-up form (src/pages/auth/Register.tsx): account details,
    then the e-mail verification code. */
module RegisterPage {
  import opened Base
  import Auth
  import Routes
  import Text

  datatype Step = Details | Verify

  datatype Form = Form(
    step: Step,
    email: string,
    username: string,
    password: string,
    confirmPassword: string,
    verificationCode: string,
    error: string)

  /** The form as first shown. */
  const Blank := Form(Details, "", "", "", "", "", "")

  /** What one submission leaves behind: the form, the authentication state,
      where the page navigated, and which context calls it made. */
  datatype Submitted = Submitted(
    form: Form,
    auth: Auth.AuthState,
    navigate: Option<Routes.Route>,
    calledRegister: bool,
    calledVerify: bool)

  const FillAllFields := "Please fill in all fields"
  const PasswordsDiffer := "Passwords do not match"
  const RegistrationFailed := "Registration failed. Please try again."
  const EnterCode := "Please enter the verification code"
  const VerificationFailed := "Verification failed. Please try again."

  /** The message shown for a rejected `verifyEmail`: the error's own message, or a fixed text. */
  function VerifyErrorText(t: Auth.Thrown): string {
    match t
    case ErrorObject(m) => m
    case OtherValue => VerificationFailed
  }

  /** `handleSubmit`. The error is cleared first. In the details step, an
      empty field or differing passwords stop before `register`; otherwise a
      successful `register` moves to the code step. In the code step an empty
      code stops before `verifyEmail`; otherwise success navigates to the
      profile setup and a failure shows why. */
  function Submit(f: Form, auth: Auth.AuthState): (r: Submitted)
    ensures r.navigate.Some? <==> f.step == Verify && f.verificationCode == Auth.VerificationCode
    ensures r.navigate.Some? ==> r.navigate == Some(Routes.SetupProfile) && r.form.error == "" &&
                                 Auth.IsAuthenticated(r.auth)
    ensures r.calledRegister <==>
              f.step == Details && f.email != "" && f.username != "" && f.password != "" &&
              f.confirmPassword != "" && f.password == f.confirmPassword
    ensures r.calledVerify <==> f.step == Verify && f.verificationCode != ""
    ensures !r.calledRegister && !r.calledVerify ==> r.auth == auth
    ensures r.form.step == Verify <==> f.step == Verify || r.calledRegister
    ensures r.form == f.(step := r.form.step, error := r.form.error)
    ensures f.step == Details && !r.calledRegister ==>
              r.form.error == (if f.email == "" || f.username == "" || f.password == "" || f.confirmPassword == ""
                               then FillAllFields else PasswordsDiffer)
    ensures f.step == Verify && !r.calledVerify ==> r.form.error == EnterCode
    ensures r.calledVerify && r.navigate.None? ==> r.form.error == "Invalid verification code"
  {
    var cleared := f.(error := "");
    match f.step
    case Details =>
      if f.email == "" || f.username == "" || f.password == "" || f.confirmPassword == "" then
        Submitted(cleared.(error := FillAllFields), auth, None, false, false)
      else if f.password != f.confirmPassword then
        Submitted(cleared.(error := PasswordsDiffer), auth, None, false, false)
      else
        var c := Auth.Register(auth, f.email, f.username, f.password);
        if c.thrown.None? then Submitted(cleared.(step := Verify), c.state, None, true, false)
        else Submitted(cleared.(error := RegistrationFailed), c.state, None, true, false)
    case Verify =>
      if f.verificationCode == "" then
        Submitted(cleared.(error := EnterCode), auth, None, false, false)
      else
        var c := Auth.VerifyEmail(auth, f.email, f.verificationCode);
        match c.thrown
        case None => Submitted(cleared, c.state, Some(Routes.SetupProfile), false, true)
        case Some(t) => Submitted(cleared.(error := VerifyErrorText(t)), c.state, None, false, true)
  }

  /** A sign-up that fills every field, repeats the password and then enters
      the fixed code ends signed in as a user named after the e-mail, on the
      profile setup page. */
  lemma {:induction false} HappyPath(auth: Auth.AuthState, email: string, username: string, password: string)
    requires email != "" && username != "" && password != ""
    ensures var first := Submit(Blank.(email := email, username := username, password := password,
                                       confirmPassword := password), auth);
            var second := Submit(first.form.(verificationCode := Auth.VerificationCode), first.auth);
            && first.form.step == Verify && first.form.error == ""
            && second.navigate == Some(Routes.SetupProfile)
            && second.auth.user.Some? && second.auth.user.value.email == email
            && second.auth.user.value.username == Text.BeforeAt(email)
  {
    var first := Submit(Blank.(email := email, username := username, password := password,
                               confirmPassword := password), auth);
    assert first.form.email == email;
  }
}
