/** The sign-in form of app/auth/login.tsx: `validateForm` over the two fields,
    and the guard and argument shaping of `handleLogin`. Messages are fixed
    English texts. */
module Login {
  import opened Wrappers
  import opened Text
  import opened FormValidation

  /** The `newErrors` record: at most one message per field. */
  datatype LoginErrors = LoginErrors(email: Option<string>, password: Option<string>)

  predicate NoErrors(e: LoginErrors) {
    e.email.None? && e.password.None?
  }

  function EmailMessage(e: EmailError): string {
    match e
    case EmailRequired => "Email is required"
    case EmailInvalid => "Email is invalid"
  }

  function PasswordMessage(e: PasswordError): string {
    match e
    case PasswordRequired => "Password is required"
    case PasswordTooShort => "Password must be at least 6 characters"
  }

  function MessageOf<E>(e: Option<E>, text: E -> string): Option<string> {
    match e
    case Some(k) => Some(text(k))
    case None => None
  }

  /** `validateForm` */
  function ValidateLogin(email: string, password: string): (e: LoginErrors)
    ensures e.email == Some("Email is required") <==> Blank(email)
    ensures e.email == Some("Email is invalid") <==> !Blank(email) && !HasEmailShape(email)
    ensures e.password == Some("Password is required") <==> Blank(password)
    ensures e.password == Some("Password must be at least 6 characters") <==> !Blank(password) && Utf16Length(password) < 6
  {
    LoginErrors(MessageOf(CheckEmail(email), EmailMessage), MessageOf(CheckPassword(password), PasswordMessage))
  }

  /** The form is accepted exactly when the e-mail has the shape and the
      password is not blank and has a `length` of at least six UTF-16 code units. */
  lemma LoginAcceptance(email: string, password: string)
    ensures NoErrors(ValidateLogin(email, password)) <==> HasEmailShape(email) && !Blank(password) && Utf16Length(password) >= 6
  {
    if HasEmailShape(email) {
      ShapeIsNotBlank(email);
    }
  }

  /** What `login` receives. */
  datatype Credentials = Credentials(email: string, password: string)

  /** `handleLogin`'s guard: `login` is called only for a valid form, with the
      trimmed e-mail and the password as typed. */
  function LoginCall(email: string, password: string): (c: Option<Credentials>)
    ensures c.Some? <==> NoErrors(ValidateLogin(email, password))
    ensures c.Some? ==> c.value == Credentials(Trim(email), password)
    ensures c.Some? ==> c.value.email != "" && Utf16Length(c.value.password) >= 6
  {
    if NoErrors(ValidateLogin(email, password)) then Some(Credentials(Trim(email), password)) else None
  }

  /** The screen's state around a submission. */
  class LoginScreen {
    var errors: LoginErrors
    var loading: bool

    constructor ()
      ensures errors == LoginErrors(None, None) && !loading
    {
      errors := LoginErrors(None, None);
      loading := false;
    }

    /** `handleLogin`: the errors are replaced; an invalid form stops there;
        otherwise `login` runs with `loading` raised and lowered around it. */
    method HandleLogin(email: string, password: string) returns (call: Option<Credentials>)
      modifies this
      ensures errors == ValidateLogin(email, password)
      ensures call == LoginCall(email, password)
      ensures call.None? ==> loading == old(loading)
      ensures call.Some? ==> !loading
    {
      errors := ValidateLogin(email, password);
      call := LoginCall(email, password);
      if call.None? {
        return;
      }
      loading := true;
      loading := false;
    }
  }
}
