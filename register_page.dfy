/** client/src/pages/Register.tsx: the sign-up page that collects one
    error per failing field, clears a field's error as the user types in
    it, and submits only a clean form. */
module RegisterPage {
  import opened Js
  import RegisterForm

  datatype Field = FirstName | LastName | Email | Password | ConfirmPassword

  datatype FormData = FormData(firstName: string, lastName: string, email: string,
                               password: string, confirmPassword: string)

  const FirstNameRequired := "Il nome è obbligatorio"
  const LastNameRequired := "Il cognome è obbligatorio"
  const EmailRequired := "L'email è obbligatoria"
  const EmailFormat := "Formato email non valido"
  const PasswordRequired := "La password è obbligatoria"
  const PasswordLength := "La password deve contenere almeno 8 caratteri"
  const ConfirmRequired := "La conferma della password è obbligatoria"
  const PasswordsDiffer := "Le password non corrispondono"
  const RegistrationFailed := "Si è verificato un errore durante la registrazione. Riprova più tardi."

  function Value(form: FormData, field: Field): string {
    match field
    case FirstName => form.firstName
    case LastName => form.lastName
    case Email => form.email
    case Password => form.password
    case ConfirmPassword => form.confirmPassword
  }

  /** `{ ...prevData, [name]: value }` */
  function WithValue(form: FormData, field: Field, value: string): (updated: FormData)
    ensures Value(updated, field) == value
    ensures forall other :: other != field ==> Value(updated, other) == Value(form, other)
  {
    match field
    case FirstName => form.(firstName := value)
    case LastName => form.(lastName := value)
    case Email => form.(email := value)
    case Password => form.(password := value)
    case ConfirmPassword => form.(confirmPassword := value)
  }

  /** `/\S+@\S+\.\S+/.test(s)`: the pattern is not anchored, so it is
      enough that somewhere a non-space character precedes an `@`, a run of
      non-space characters follows it up to a `.`, and a non-space
      character follows that `.`. */
  predicate MatchesLoose(s: string) {
    exists at, dot | 0 < at < |s| && at + 1 < dot < |s| - 1 :: LooseMatchAt(s, at, dot)
  }

  /** The pattern matches with its `@` at `at` and its `.` at `dot`. */
  predicate LooseMatchAt(s: string, at: int, dot: int)
    requires 0 < at < |s| && at + 1 < dot < |s| - 1
  {
    s[at] == '@' && s[dot] == '.' && !IsSpace(s[at - 1]) && !IsSpace(s[dot + 1]) &&
    forall k | at < k < dot :: !IsSpace(s[k])
  }

  /** The error one field gets, checked on its own. */
  function FieldError(form: FormData, field: Field): Option<string> {
    match field
    case FirstName => if IsBlankAfterTrim(form.firstName) then Some(FirstNameRequired) else None
    case LastName => if IsBlankAfterTrim(form.lastName) then Some(LastNameRequired) else None
    case Email =>
      if IsBlankAfterTrim(form.email) then Some(EmailRequired)
      else if !MatchesLoose(form.email) then Some(EmailFormat)
      else None
    case Password =>
      if form.password == "" then Some(PasswordRequired)
      else if |form.password| < 8 then Some(PasswordLength)
      else None
    case ConfirmPassword =>
      if form.confirmPassword == "" then Some(ConfirmRequired)
      else if form.password != form.confirmPassword then Some(PasswordsDiffer)
      else None
  }

  /** One check of `validateForm`: a failing field is added with its message. */
  function AddError(errors: map<Field, string>, form: FormData, field: Field): map<Field, string> {
    if FieldError(form, field).Some? then errors[field := FieldError(form, field).value] else errors
  }

  /** The dictionary `validateForm` builds: every failing field with its
      message, the passing ones absent. */
  function FormErrors(form: FormData): map<Field, string> {
    var e1 := AddError(map[], form, FirstName);
    var e2 := AddError(e1, form, LastName);
    var e3 := AddError(e2, form, Email);
    var e4 := AddError(e3, form, Password);
    AddError(e4, form, ConfirmPassword)
  }

  /** The dictionary holds every failing field with its message and no
      passing one, whatever the order of the checks. */
  lemma FormErrorsMeaning(form: FormData)
    ensures forall field :: field in FormErrors(form) <==> FieldError(form, field).Some?
    ensures forall field | field in FormErrors(form) :: FormErrors(form)[field] == FieldError(form, field).value
  {
    forall field
      ensures field in FormErrors(form) <==> FieldError(form, field).Some?
      ensures field in FormErrors(form) ==> FormErrors(form)[field] == FieldError(form, field).value
    {
      match field
      case FirstName =>
      case LastName =>
      case Email =>
      case Password =>
      case ConfirmPassword =>
    }
  }

  /** Each field's rule in words. */
  lemma FieldRules(form: FormData)
    ensures FirstName in FormErrors(form) <==> IsBlankAfterTrim(form.firstName)
    ensures LastName in FormErrors(form) <==> IsBlankAfterTrim(form.lastName)
    ensures Email in FormErrors(form) <==> !MatchesLoose(form.email)
    ensures Password in FormErrors(form) <==> |form.password| < 8
    ensures ConfirmPassword in FormErrors(form) <==> form.confirmPassword == "" || form.confirmPassword != form.password
  {
    FormErrorsMeaning(form);
    LooseIsNotBlank(form.email);
  }

  /** A matching address is never blank. */
  lemma LooseIsNotBlank(s: string)
    ensures MatchesLoose(s) ==> !IsBlankAfterTrim(s)
  {
    if MatchesLoose(s) {
      var at, dot :| 0 < at < |s| && at + 1 < dot < |s| - 1 && LooseMatchAt(s, at, dot);
      assert !IsSpace(s[at]);
    }
  }

  /** The form is valid exactly when every field passes its own check. */
  lemma ValidIffEveryFieldPasses(form: FormData)
    ensures FormErrors(form) == map[] <==>
      !IsBlankAfterTrim(form.firstName) && !IsBlankAfterTrim(form.lastName) && MatchesLoose(form.email) &&
      |form.password| >= 8 && form.confirmPassword == form.password
  {
    FormErrorsMeaning(form);
    var errors := FormErrors(form);
    if errors != map[] {
      var field :| field in errors;
    }
  }

  /** Whatever the anchored pattern of the sign-in form accepts, this one
      accepts too. */
  lemma StrictImpliesLoose(s: string)
    ensures RegisterForm.IsEmailValid(s) ==> MatchesLoose(s)
  {
    if RegisterForm.IsEmailValid(s) {
      var at, dot :| 0 < at < |s| && at + 1 < dot < |s| - 1 &&
        s[at] == '@' && s[dot] == '.' && forall k | 0 <= k < |s| && k != at :: RegisterForm.Plain(s[k]);
      assert RegisterForm.Plain(s[at - 1]) && RegisterForm.Plain(s[dot + 1]);
      assert forall k | at < k < dot :: RegisterForm.Plain(s[k]);
      assert LooseMatchAt(s, at, dot);
    }
  }

  /** Being unanchored, this pattern accepts an address with text around
      it that the anchored one refuses. */
  lemma LooseAcceptsSurroundingText()
    ensures MatchesLoose("x a@b.c y")
    ensures !RegisterForm.IsEmailValid("x a@b.c y")
  {
    var s := "x a@b.c y";
    assert s[3] == '@' && s[5] == '.' && s[2] == 'a' && s[4] == 'b' && s[6] == 'c';
    assert LooseMatchAt(s, 3, 5);
    RegisterForm.EmailValidIff(s);
    assert IsSpace(s[1]);
  }

  datatype RegisterRequest = RegisterRequest(firstName: string, lastName: string, email: string, password: string)

  class Page {
    var form: FormData
    var errors: map<Field, string>
    var apiError: Option<string>

    constructor ()
      ensures form == FormData("", "", "", "", "") && errors == map[] && apiError == None
    {
      form := FormData("", "", "", "", "");
      errors := map[];
      apiError := None;
    }

    /** `validateForm`: fills a fresh dictionary check by check, stores
        it, and answers whether it stayed empty. */
    method ValidateForm() returns (valid: bool)
      modifies this`errors
      ensures errors == FormErrors(form)
      ensures valid <==> errors == map[]
    {
      var f := form;
      var newErrors: map<Field, string> := map[];
      if IsBlankAfterTrim(f.firstName) {
        newErrors := newErrors[FirstName := FirstNameRequired];
      }
      assert newErrors == AddError(map[], f, FirstName);
      ghost var e1 := newErrors;
      if IsBlankAfterTrim(f.lastName) {
        newErrors := newErrors[LastName := LastNameRequired];
      }
      assert newErrors == AddError(e1, f, LastName);
      ghost var e2 := newErrors;
      if IsBlankAfterTrim(f.email) {
        newErrors := newErrors[Email := EmailRequired];
      } else if !MatchesLoose(f.email) {
        newErrors := newErrors[Email := EmailFormat];
      }
      assert newErrors == AddError(e2, f, Email);
      ghost var e3 := newErrors;
      if f.password == "" {
        newErrors := newErrors[Password := PasswordRequired];
      } else if |f.password| < 8 {
        newErrors := newErrors[Password := PasswordLength];
      }
      assert newErrors == AddError(e3, f, Password);
      ghost var e4 := newErrors;
      if f.confirmPassword == "" {
        newErrors := newErrors[ConfirmPassword := ConfirmRequired];
      } else if f.password != f.confirmPassword {
        newErrors := newErrors[ConfirmPassword := PasswordsDiffer];
      }
      assert newErrors == AddError(e4, f, ConfirmPassword);
      errors := newErrors;
      valid := |newErrors| == 0;
    }

    /** `handleChange`: stores the value, blanks that field's error if it
        showed one, and drops a shown API error. */
    method HandleChange(field: Field, value: string)
      modifies this`form, this`errors, this`apiError
      ensures form == WithValue(old(form), field, value)
      ensures errors == if field in old(errors) && old(errors)[field] != "" then old(errors)[field := ""] else old(errors)
      ensures apiError == if Blank(old(apiError)) then old(apiError) else None
    {
      form := WithValue(form, field, value);
      if field in errors && errors[field] != "" {
        errors := errors[field := ""];
      }
      if !Blank(apiError) {
        apiError := None;
      }
    }

    /** `handleSubmit`: an invalid form stops before any request; a valid
        one clears the API error and sends the four fields. */
    method HandleSubmit() returns (request: Option<RegisterRequest>)
      modifies this`errors, this`apiError
      ensures errors == FormErrors(form)
      ensures request.Some? <==> FormErrors(form) == map[]
      ensures request.None? ==> apiError == old(apiError)
      ensures request.Some? ==>
        request.value == RegisterRequest(form.firstName, form.lastName, form.email, form.password) && apiError == None
    {
      var valid := ValidateForm();
      if !valid {
        return None;
      }
      apiError := None;
      request := Some(RegisterRequest(form.firstName, form.lastName, form.email, form.password));
    }

    /** A rejected registration shows the error's message, or the generic
        text when the thrown value is not an `Error`. */
    method RegistrationRejected(errorMessage: Option<string>)
      modifies this`apiError
      ensures apiError == Some(if errorMessage.Some? then errorMessage.value else RegistrationFailed)
    {
      apiError := Some(if errorMessage.Some? then errorMessage.value else RegistrationFailed);
    }
  }

  /** Typing into one field never touches the other fields' errors. */
  lemma ChangeKeepsOtherErrors(errors: map<Field, string>, field: Field, other: Field)
    requires other != field
    ensures var after := if field in errors && errors[field] != "" then errors[field := ""] else errors;
      (other in after <==> other in errors) && (other in errors ==> after[other] == errors[other])
  {
  }
}
