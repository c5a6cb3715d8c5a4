/** The sign-in page: login and signup validation, and what each submit
    does with the answer of the authentication service.

    Whether a string is an email address is decided by a validation library
    that is not part of this model; it is the parameter `isEmail`.
 */
module Auth {
  import opened Common
  import opened Text

  const MinPasswordLength: nat := 6

  const EmailMessage: string := "Please enter a valid email address"
  const PasswordMessage: string := "Password must be at least 6 characters"
  const NameMessage: string := "Please enter your name"

  const InvalidCredentials: string := "Invalid login credentials"
  const AlreadyRegistered: string := "already registered"

  datatype Tab = LoginTab | SignupTab

  /** The page's form state. */
  datatype AuthForm = AuthForm(
    tab: Tab,
    loginEmail: string, loginPassword: string,
    signupEmail: string, signupPassword: string, signupName: string)

  /** One message per invalid field; `None` is a field without an error. */
  datatype FieldErrors = FieldErrors(email: Option<string>, password: Option<string>, name: Option<string>)

  predicate NoErrors(e: FieldErrors) {
    e.email.None? && e.password.None? && e.name.None?
  }

  function EmailError(email: string, isEmail: string -> bool): (r: Option<string>)
    ensures r.None? <==> isEmail(email)
    ensures r.Some? ==> r.value == EmailMessage
  {
    if isEmail(email) then None else Some(EmailMessage)
  }

  function PasswordError(password: string): (r: Option<string>)
    ensures r.None? <==> |password| >= MinPasswordLength
    ensures r.Some? ==> r.value == PasswordMessage
  {
    if |password| >= MinPasswordLength then None else Some(PasswordMessage)
  }

  /** `validateLogin`: both fields are checked, and both errors reported. */
  function ValidateLogin(f: AuthForm, isEmail: string -> bool): (e: FieldErrors)
    ensures e.email.Some? <==> !isEmail(f.loginEmail)
    ensures e.password.Some? <==> |f.loginPassword| < MinPasswordLength
    ensures e.name.None?
    ensures NoErrors(e) <==> isEmail(f.loginEmail) && |f.loginPassword| >= MinPasswordLength
  {
    FieldErrors(EmailError(f.loginEmail, isEmail), PasswordError(f.loginPassword), None)
  }

  /** `validateSignup`: the login checks on the signup fields, and a name
      that is not blank after trimming. */
  function ValidateSignup(f: AuthForm, isEmail: string -> bool): (e: FieldErrors)
    ensures e.email.Some? <==> !isEmail(f.signupEmail)
    ensures e.password.Some? <==> |f.signupPassword| < MinPasswordLength
    ensures e.name.Some? <==> AllSpace(f.signupName)
    ensures e.name.Some? ==> e.name.value == NameMessage
    ensures NoErrors(e) <==> isEmail(f.signupEmail) && |f.signupPassword| >= MinPasswordLength && !AllSpace(f.signupName)
  {
    TrimEmptyIffAllSpace(f.signupName);
    FieldErrors(
      EmailError(f.signupEmail, isEmail),
      PasswordError(f.signupPassword),
      if Trim(f.signupName) == "" then Some(NameMessage) else None)
  }

  /** The service's answer: success, or an error with a message. */
  datatype Answer = Accepted | Rejected(message: string)

  /** What the user sees after a submit. */
  datatype Notice =
    | NotSent                                         // validation failed; the service is not called
    | GoToMarket                                      // success
    | ErrorToast(title: string, description: Option<string>)

  datatype Submitted = Submitted(form: AuthForm, errors: FieldErrors, notice: Notice)

  /** `handleLogin`.  `answer` is what signing in would return. */
  function HandleLogin(f: AuthForm, isEmail: string -> bool, answer: Answer): (r: Submitted)
    ensures r.form == f
    ensures r.errors == ValidateLogin(f, isEmail)
    ensures r.notice == NotSent <==> !NoErrors(ValidateLogin(f, isEmail))
    ensures r.notice == GoToMarket <==> NoErrors(ValidateLogin(f, isEmail)) && answer.Accepted?
    ensures NoErrors(ValidateLogin(f, isEmail)) && answer.Rejected? ==>
      if Contains(answer.message, InvalidCredentials)
      then r.notice == ErrorToast("Invalid email or password", None)
      else r.notice == ErrorToast("Login failed", Some(answer.message))
  {
    var errors := ValidateLogin(f, isEmail);
    var notice :=
      if !NoErrors(errors) then NotSent
      else match answer
        case Accepted => GoToMarket
        case Rejected(m) =>
          if Includes(m, InvalidCredentials) then ErrorToast("Invalid email or password", None)
          else ErrorToast("Login failed", Some(m));
    Submitted(f, errors, notice)
  }

  /** `handleSignup`: an "already registered" error moves the user to the
      login tab with the signup email filled in; nothing else changes the
      form. */
  function HandleSignup(f: AuthForm, isEmail: string -> bool, answer: Answer): (r: Submitted)
    ensures r.errors == ValidateSignup(f, isEmail)
    ensures r.notice == NotSent <==> !NoErrors(ValidateSignup(f, isEmail))
    ensures r.notice == GoToMarket <==> NoErrors(ValidateSignup(f, isEmail)) && answer.Accepted?
    ensures r.form != f ==> r.form == f.(tab := LoginTab, loginEmail := f.signupEmail)
    ensures r.form.tab == LoginTab && r.form.loginEmail == f.signupEmail <==>
      (f.tab == LoginTab && f.loginEmail == f.signupEmail) ||
      (NoErrors(ValidateSignup(f, isEmail)) && answer.Rejected? && Contains(answer.message, AlreadyRegistered))
    ensures NoErrors(ValidateSignup(f, isEmail)) && answer.Rejected? && Contains(answer.message, AlreadyRegistered) ==>
      r.notice == ErrorToast("Email already registered", Some("Please login instead or use a different email."))
    ensures NoErrors(ValidateSignup(f, isEmail)) && answer.Rejected? && !Contains(answer.message, AlreadyRegistered) ==>
      r.form == f && r.notice == ErrorToast("Signup failed", Some(answer.message))
  {
    var errors := ValidateSignup(f, isEmail);
    if !NoErrors(errors) then Submitted(f, errors, NotSent)
    else match answer
      case Accepted => Submitted(f, errors, GoToMarket)
      case Rejected(m) =>
        if Includes(m, AlreadyRegistered) then
          Submitted(f.(tab := LoginTab, loginEmail := f.signupEmail), errors,
            ErrorToast("Email already registered", Some("Please login instead or use a different email.")))
        else Submitted(f, errors, ErrorToast("Signup failed", Some(m)))
  }

  /** A whitespace-only name never reaches the service. */
  lemma BlankNameNotSent(f: AuthForm, isEmail: string -> bool, answer: Answer)
    requires AllSpace(f.signupName)
    ensures HandleSignup(f, isEmail, answer).notice == NotSent
    ensures HandleSignup(f, isEmail, answer).form == f
  {
  }
}
