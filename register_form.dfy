/** client/src/components/auth/Register.tsx: the anchored email pattern
    `^[^\s@]+@[^\s@]+\.[^\s@]+$` and the ordered checks of the sign-up
    form. Login.tsx declares an identical pattern of its own; the sign-in
    model reuses this one. */
module RegisterForm {
  import opened Js

  /** A character `[^\s@]` accepts. */
  predicate Plain(c: char) {
    !IsSpace(c) && c != '@'
  }

  /** `isEmailValid`: the pattern read as positions. The single `@`
      sits at `at`, a `.` at `dot` with at least one character on each
      side of both, and every other character is `[^\s@]` (the `.`
      itself is one). */
  predicate IsEmailValid(email: string) {
    exists at, dot | 0 < at < |email| && at + 1 < dot < |email| - 1 ::
      email[at] == '@' && email[dot] == '.' && forall k | 0 <= k < |email| && k != at :: Plain(email[k])
  }

  /** A `.` in the domain that is neither its first nor its last character. */
  predicate DotInside(domain: string) {
    exists k | 1 <= k < |domain| - 1 :: domain[k] == '.'
  }

  /** No character is white space. */
  predicate NoSpace(s: string) {
    forall k | 0 <= k < |s| :: !IsSpace(s[k])
  }

  /** The pattern in words: no white space, exactly one `@`, something
      before it, and a dot inside the part after it. */
  lemma EmailValidIff(email: string)
    ensures IsEmailValid(email) <==>
      NoSpace(email) && |Split(email, '@')| == 2 && Split(email, '@')[0] != "" && DotInside(Split(email, '@')[1])
  {
    if IsEmailValid(email) {
      ValidEmailShape(email);
    }
    if NoSpace(email) && |Split(email, '@')| == 2 && Split(email, '@')[0] != "" && DotInside(Split(email, '@')[1]) {
      ShapeIsValidEmail(email);
    }
  }

  lemma ValidEmailShape(email: string)
    requires IsEmailValid(email)
    ensures NoSpace(email)
    ensures |Split(email, '@')| == 2 && Split(email, '@')[0] != "" && DotInside(Split(email, '@')[1])
  {
    var at, dot :| 0 < at < |email| && at + 1 < dot < |email| - 1 &&
      email[at] == '@' && email[dot] == '.' && forall k | 0 <= k < |email| && k != at :: Plain(email[k]);
    PlainAroundAt(email, at);
    var local, domain := email[..at], email[at + 1..];
    assert email == local + ['@'] + domain;
    SplitAtSeparator(local, '@', domain);
    SplitNoSeparator(domain, '@');
    assert Split(email, '@') == [local, domain];
    assert domain[dot - at - 1] == '.';
  }

  /** With every character but the one at `at` plain, neither side of `at`
      holds an `@` and nothing is white space. */
  lemma PlainAroundAt(email: string, at: int)
    requires 0 <= at < |email| && email[at] == '@'
    requires forall k | 0 <= k < |email| && k != at :: Plain(email[k])
    ensures '@' !in email[..at] && '@' !in email[at + 1..]
    ensures NoSpace(email)
  {
    var local, domain := email[..at], email[at + 1..];
    forall k | 0 <= k < |local| ensures local[k] != '@' {
      assert Plain(email[k]);
    }
    forall k | 0 <= k < |domain| ensures domain[k] != '@' {
      assert Plain(email[at + 1 + k]);
    }
    forall k | 0 <= k < |email| ensures !IsSpace(email[k]) {
      if k != at {
        assert Plain(email[k]);
      }
    }
  }

  lemma ShapeIsValidEmail(email: string)
    requires NoSpace(email) && |Split(email, '@')| == 2
    requires Split(email, '@')[0] != "" && DotInside(Split(email, '@')[1])
    ensures IsEmailValid(email)
  {
    var parts := Split(email, '@');
    SplitJoin(email, '@');
    assert parts[1..] == [parts[1]];
    assert email == parts[0] + ['@'] + parts[1];
    SplitPiecesHaveNoSeparator(email, '@');
    assert '@' !in parts[0] && '@' !in parts[1];
    var k :| 1 <= k < |parts[1]| - 1 && parts[1][k] == '.';
    var at := |parts[0]|;
    var dot := at + 1 + k;
    assert email[at] == '@' && email[dot] == '.';
    forall j | 0 <= j < |email| && j != at ensures Plain(email[j]) {
      assert !IsSpace(email[j]);
      if j < at {
        assert email[j] == parts[0][j];
      } else {
        assert email[j] == parts[1][j - at - 1];
      }
    }
  }

  /** A simple address the pattern accepts. */
  lemma SimpleAddressIsValid()
    ensures IsEmailValid("a@b.c")
  {
    var e := "a@b.c";
    assert e[1] == '@' && e[3] == '.';
    assert forall k | 0 <= k < |e| && k != 1 :: Plain(e[k]) by {
      assert e[0] == 'a' && e[2] == 'b' && e[3] == '.' && e[4] == 'c';
    }
  }

  /** A second `@` is refused. */
  lemma SecondAtIsRefused()
    ensures !IsEmailValid("a@b@c.d")
  {
    SplitAtSeparator("a", '@', "b@c.d");
    SplitAtSeparator("b", '@', "c.d");
    SplitNoSeparator("c.d", '@');
    assert "a@b@c.d" == "a" + ['@'] + "b@c.d" && "b@c.d" == "b" + ['@'] + "c.d";
    assert |Split("a@b@c.d", '@')| == 3;
    EmailValidIff("a@b@c.d");
  }

  /** A dot right after the `@` is refused. */
  lemma DotAfterAtIsRefused()
    ensures !IsEmailValid("a@.c")
  {
  }

  const NameRequired := "Il nome è obbligatorio"
  const EmailInvalid := "Email non valida"
  const PasswordTooShort := "La password deve contenere almeno 6 caratteri"
  const PasswordsDiffer := "Le password non corrispondono"
  const RegisterFailed := "Errore durante la registrazione. Forse l'email è già in uso?"

  /** What a submit does: report the first failed check, or call
      `register(name, email, password)`. */
  datatype Submit = Refused(error: string) | CallsRegister(name: string, email: string, password: string)

  /** `handleSubmit`: the checks in their fixed order, each returning
      with its own message. */
  function SubmitRegister(name: string, email: string, password: string, passwordConfirm: string): (r: Submit)
    ensures r.CallsRegister? <==>
      name != "" && IsEmailValid(email) && |password| >= 6 && password == passwordConfirm
    ensures r.CallsRegister? ==> r == CallsRegister(name, email, password)
    ensures name == "" ==> r == Refused(NameRequired)
    ensures name != "" && !IsEmailValid(email) ==> r == Refused(EmailInvalid)
    ensures name != "" && IsEmailValid(email) && |password| < 6 ==> r == Refused(PasswordTooShort)
    ensures name != "" && IsEmailValid(email) && |password| >= 6 && password != passwordConfirm ==>
      r == Refused(PasswordsDiffer)
  {
    if name == "" then Refused(NameRequired)
    else if !IsEmailValid(email) then Refused(EmailInvalid)
    else if |password| < 6 then Refused(PasswordTooShort)
    else if password != passwordConfirm then Refused(PasswordsDiffer)
    else CallsRegister(name, email, password)
  }

  /** The message shown when `register` rejects: its own message unless
      that is missing or empty. */
  function RegisterError(message: Option<string>): (shown: string)
    ensures shown != ""
    ensures message.Some? && message.value != "" ==> shown == message.value
    ensures Blank(message) ==> shown == RegisterFailed
  {
    if Blank(message) then RegisterFailed else message.value
  }

  /** The helper text under the email field. */
  function EmailHelper(email: string): string {
    if email != "" && !IsEmailValid(email) then EmailInvalid else ""
  }

  /** The helper text under the password field. */
  function PasswordHelper(password: string): string {
    if password != "" && |password| < 6 then PasswordTooShort else ""
  }

  /** The helper text under the confirmation field. */
  function ConfirmHelper(password: string, passwordConfirm: string): string {
    if passwordConfirm != "" && password != passwordConfirm then PasswordsDiffer else ""
  }

  /** With every field filled, the helpers are silent exactly when a
      submit reaches `register`. */
  lemma HelpersAgreeWithSubmit(name: string, email: string, password: string, passwordConfirm: string)
    requires name != "" && email != "" && password != "" && passwordConfirm != ""
    ensures SubmitRegister(name, email, password, passwordConfirm).CallsRegister? <==>
      EmailHelper(email) == "" && PasswordHelper(password) == "" && ConfirmHelper(password, passwordConfirm) == ""
  {
  }

  /** A helper text shows only for a non-empty field, and then it is the
      message a submit would give for that field. */
  lemma HelperOnlyForFilledField(name: string, email: string, password: string, passwordConfirm: string)
    ensures EmailHelper(email) != "" ==> email != "" && (name != "" ==> SubmitRegister(name, email, password, passwordConfirm) == Refused(EmailHelper(email)))
    ensures PasswordHelper(password) != "" ==> password != ""
    ensures ConfirmHelper(password, passwordConfirm) != "" ==> passwordConfirm != ""
  {
  }
}
