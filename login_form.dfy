/** client/src/components/auth/Login.tsx: the two checks before `login`
    and the OAuth buttons, which only report that they are missing. */
module LoginForm {
  import opened Js
  import RegisterForm

  /** The two checks share their messages with the sign-up form. */
  const EmailInvalid := RegisterForm.EmailInvalid
  const PasswordTooShort := RegisterForm.PasswordTooShort
  const LoginFailed := "Credenziali non valide. Riprova."

  /** What a press does: report an error, or call `login(email, password)`. */
  datatype Submit = Refused(error: string) | CallsLogin(email: string, password: string)

  /** `handleSubmit`: the email is checked before the password length. */
  function SubmitLogin(email: string, password: string): (r: Submit)
    ensures r.CallsLogin? <==> RegisterForm.IsEmailValid(email) && |password| >= 6
    ensures r.CallsLogin? ==> r == CallsLogin(email, password)
    ensures !RegisterForm.IsEmailValid(email) ==> r == Refused(EmailInvalid)
    ensures RegisterForm.IsEmailValid(email) && |password| < 6 ==> r == Refused(PasswordTooShort)
  {
    if !RegisterForm.IsEmailValid(email) then Refused(EmailInvalid)
    else if |password| < 6 then Refused(PasswordTooShort)
    else CallsLogin(email, password)
  }

  /** The message shown when `login` rejects. */
  function LoginError(message: Option<string>): (shown: string)
    ensures shown != ""
    ensures message.Some? && message.value != "" ==> shown == message.value
    ensures Blank(message) ==> shown == LoginFailed
  {
    if Blank(message) then LoginFailed else message.value
  }

  /** `handleOAuthLogin(provider)`: an error message, never a login. */
  function HandleOAuthLogin(provider: string): (r: Submit)
    ensures r.Refused? && r.error == "Login con " + provider + " non ancora implementato"
  {
    Refused("Login con " + provider + " non ancora implementato")
  }

  /** Whatever the sign-up form sends to `register` the sign-in form lets
      through to `login`. */
  lemma RegisteredCredentialsPassLogin(name: string, email: string, password: string, passwordConfirm: string)
    requires RegisterForm.SubmitRegister(name, email, password, passwordConfirm).CallsRegister?
    ensures SubmitLogin(email, password) == CallsLogin(email, password)
  {
  }
}
