/** The sign-up form of app/auth/signup.tsx: `validateForm` over the four
    fields, and the guard and argument shaping of `handleSignup`. Messages are
    translation keys. */
module Signup {
  import opened Wrappers
  import opened Text
  import opened FormValidation

  datatype NameError = NameRequired
  datatype ConfirmError = ConfirmRequired | PasswordsDiffer

  /** The `newErrors` record: at most one error per field. */
  datatype SignupErrors = SignupErrors(
    name: Option<NameError>,
    email: Option<EmailError>,
    password: Option<PasswordError>,
    confirm: Option<ConfirmError>)

  /** `Object.keys(newErrors).length === 0` */
  predicate NoErrors(e: SignupErrors) {
    e.name.None? && e.email.None? && e.password.None? && e.confirm.None?
  }

  /** `validateForm`: each field's required check comes first; the e-mail,
      length and match checks see the raw text. */
  function ValidateSignup(name: string, email: string, password: string, confirm: string): (e: SignupErrors)
    ensures e.name == Some(NameRequired) <==> Blank(name)
    ensures e.email == Some(EmailRequired) <==> Blank(email)
    ensures e.email == Some(EmailInvalid) <==> !Blank(email) && !HasEmailShape(email)
    ensures e.password == Some(PasswordRequired) <==> Blank(password)
    ensures e.password == Some(PasswordTooShort) <==> !Blank(password) && Utf16Length(password) < 6
    ensures e.confirm == Some(ConfirmRequired) <==> Blank(confirm)
    ensures e.confirm == Some(PasswordsDiffer) <==> !Blank(confirm) && password != confirm
  {
    SignupErrors(
      if Trim(name) == "" then Some(NameRequired) else None,
      CheckEmail(email),
      CheckPassword(password),
      if Trim(confirm) == "" then Some(ConfirmRequired)
      else if password != confirm then Some(PasswordsDiffer)
      else None)
  }

  /** The form is accepted exactly when the name is not blank, the e-mail has
      the shape, the password is not blank and has a `length` of at least six
      UTF-16 code units, and the confirmation repeats it. */
  lemma SignupAcceptance(name: string, email: string, password: string, confirm: string)
    ensures NoErrors(ValidateSignup(name, email, password, confirm)) <==>
      !Blank(name) && HasEmailShape(email) && !Blank(password) && Utf16Length(password) >= 6 && confirm == password
  {
    if HasEmailShape(email) {
      ShapeIsNotBlank(email);
    }
  }

  /** The translation key of each message. */
  function NameMessage(e: NameError): string {
    "validation.name_required"
  }

  function EmailMessage(e: EmailError): string {
    match e
    case EmailRequired => "validation.email_required"
    case EmailInvalid => "validation.email_invalid"
  }

  function PasswordMessage(e: PasswordError): string {
    match e
    case PasswordRequired => "validation.password_required"
    case PasswordTooShort => "validation.password_min_length"
  }

  function ConfirmMessage(e: ConfirmError): string {
    match e
    case ConfirmRequired => "validation.confirm_password_required"
    case PasswordsDiffer => "validation.passwords_not_match"
  }

  /** What `register` receives. */
  datatype Registration = Registration(email: string, password: string, name: string)

  /** `handleSignup`'s guard: `register` is called only for a valid form, with
      the trimmed e-mail and name and the password as typed. */
  function SignupCall(name: string, email: string, password: string, confirm: string): (c: Option<Registration>)
    ensures c.Some? <==> NoErrors(ValidateSignup(name, email, password, confirm))
    ensures c.Some? ==> c.value == Registration(Trim(email), password, Trim(name))
    ensures c.Some? ==> c.value.name != "" && c.value.email != "" && Utf16Length(c.value.password) >= 6
  {
    if NoErrors(ValidateSignup(name, email, password, confirm)) then
      Some(Registration(Trim(email), password, Trim(name)))
    else None
  }

  /** The screen's state around a submission. */
  class SignupScreen {
    var errors: SignupErrors
    var loading: bool

    constructor ()
      ensures errors == SignupErrors(None, None, None, None) && !loading
    {
      errors := SignupErrors(None, None, None, None);
      loading := false;
    }

    /** `handleSignup`: the errors are replaced; an invalid form stops there;
        otherwise `register` runs with `loading` raised and lowered around it. */
    method HandleSignup(name: string, email: string, password: string, confirm: string)
      returns (call: Option<Registration>)
      modifies this
      ensures errors == ValidateSignup(name, email, password, confirm)
      ensures call == SignupCall(name, email, password, confirm)
      ensures call.None? ==> loading == old(loading)
      ensures call.Some? ==> !loading
    {
      errors := ValidateSignup(name, email, password, confirm);
      call := SignupCall(name, email, password, confirm);
      if call.None? {
        return;
      }
      loading := true;
      loading := false;
    }
  }
}
