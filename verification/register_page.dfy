/** The sign-up form (`Register.tsx`): the checks on submit, the live field checks and the submit button. */
module RegisterPage {
  import opened Wrappers
  import opened Strings
  import opened EmailFormat
  import opened ServerValidation
  import opened AuthRoutes

  datatype RegisterForm = RegisterForm(name: string, email: string, password: string, confirm: string)

  /** The arguments `register(name, email, password)` is called with. */
  datatype RegisterCall = RegisterCall(name: string, email: string, password: string)

  datatype Submission = Rejected(error: string) | Submitted(call: RegisterCall)

  const NameRequired := "Name is required"
  const EmailRequired := "Email is required"
  const PasswordRequired := "Password is required"
  const ConfirmRequired := "Please confirm your password"
  const PasswordsDiffer := "Passwords do not match"

  /** `handleRegister`: the first failing check is reported and nothing is sent. */
  function HandleRegister(f: RegisterForm): (r: Submission)
    ensures r.Submitted? <==>
      && !IsBlank(f.name) && f.email != "" && f.password != "" && f.confirm != ""
      && MatchesEmailRegex(f.email) && Utf16Length(f.password) >= 6 && f.password == f.confirm
    ensures r.Submitted? ==> r.call == RegisterCall(Trim(f.name), ToLower(f.email), f.password)
    ensures IsBlank(f.name) ==> r == Rejected(NameRequired)
    ensures !IsBlank(f.name) && f.email == "" ==> r == Rejected(EmailRequired)
    ensures !IsBlank(f.name) && f.email != "" && f.password == "" ==> r == Rejected(PasswordRequired)
    ensures (!IsBlank(f.name) && f.email != "" && f.password != "" && f.confirm == "") ==>
      r == Rejected(ConfirmRequired)
    ensures (!IsBlank(f.name) && f.email != "" && f.password != "" && f.confirm != ""
             && !MatchesEmailRegex(f.email)) ==>
      r == Rejected(InputErrorMessage(MalformedEmail))
    ensures (!IsBlank(f.name) && f.email != "" && f.password != "" && f.confirm != ""
             && MatchesEmailRegex(f.email) && Utf16Length(f.password) < 6) ==>
      r == Rejected(InputErrorMessage(ShortPassword))
    ensures (!IsBlank(f.name) && f.email != "" && f.password != "" && f.confirm != ""
             && MatchesEmailRegex(f.email) && Utf16Length(f.password) >= 6 && f.password != f.confirm) ==>
      r == Rejected(PasswordsDiffer)
  {
    if Trim(f.name) == "" then Rejected(NameRequired)
    else if f.email == "" then Rejected(EmailRequired)
    else if f.password == "" then Rejected(PasswordRequired)
    else if f.confirm == "" then Rejected(ConfirmRequired)
    else if !MatchesEmailRegex(f.email) then Rejected(InputErrorMessage(MalformedEmail))
    else if Utf16Length(f.password) < 6 then Rejected(InputErrorMessage(ShortPassword))
    else if f.password != f.confirm then Rejected(PasswordsDiffer)
    else Submitted(RegisterCall(Trim(f.name), ToLower(f.email), f.password))
  }

  /** A well-formed address, lower-cased, and a six-character password pass the server's `validateInput`. */
  lemma NormalisedValuesPassServerChecks(email: string, password: string)
    requires MatchesEmailRegex(email) && Utf16Length(password) >= 6
    ensures ValidateInput(Some(ToLower(email)), Some(password)).None?
  {
    LowerCasePreservesMatch(email);
    EmptyIsNotAnEmail();
  }

  /** A name that is not blank is still given once trimmed. */
  lemma TrimmedNameIsGiven(name: string)
    requires !IsBlank(name)
    ensures NameGiven(Some(Trim(name)))
  {
    TrimIdempotent(name);
  }

  /** Whatever the form sends passes the server's own checks on name, e-mail and password. */
  lemma SubmittedPassesServerChecks(f: RegisterForm)
    requires HandleRegister(f).Submitted?
    ensures var c := HandleRegister(f).call;
      ValidateInput(Some(c.email), Some(c.password)).None? && NameGiven(Some(c.name))
  {
    NormalisedValuesPassServerChecks(f.email, f.password);
    TrimmedNameIsGiven(f.name);
  }

  /** The live e-mail check: false for an empty field, otherwise whether the address is well formed. */
  function EmailLooksValid(email: string): (v: bool)
    ensures v <==> MatchesEmailRegex(email)
  {
    EmptyIsNotAnEmail();
    if email == "" then false else MatchesEmailRegex(email)
  }

  /** The live password check: false for an empty field, otherwise whether it has six characters. */
  function PasswordLooksValid(password: string): (v: bool)
    ensures v <==> Utf16Length(password) >= 6
  {
    if password == "" then false else Utf16Length(password) >= 6
  }

  /** Whether "Create Account" can be pressed. */
  function SubmitEnabled(submitting: bool, f: RegisterForm): (v: bool)
    ensures v <==> !submitting && MatchesEmailRegex(f.email) && Utf16Length(f.password) >= 6
  {
    !(submitting || !EmailLooksValid(f.email) || !PasswordLooksValid(f.password))
  }

  /** A form the submit check lets through also has the button enabled, unless a submission is running. */
  lemma SubmittedFormHasButtonEnabled(f: RegisterForm)
    requires HandleRegister(f).Submitted?
    ensures SubmitEnabled(false, f)
  {
  }

  /** The button alone does not guarantee a submission: the name and the confirmation are checked only on submit. */
  lemma EnabledButtonCanStillBeRejected()
    ensures var f := RegisterForm("  ", "a@b.co", "secret", "secret");
      SubmitEnabled(false, f) && HandleRegister(f) == Rejected(NameRequired)
  {
    var f := RegisterForm("  ", "a@b.co", "secret", "secret");
    var e := f.email;
    assert AllPlain(e[..1]) && AllPlain(e[2..3]) && AllPlain(e[4..]) by {
      assert e[..1] == "a" && e[2..3] == "b" && e[4..] == "co";
      assert Plain('a') && Plain('b') && Plain('c') && Plain('o');
    }
    assert e[1] == '@' && e[3] == '.';
    assert SplitsAt(e, 1, 3);
    assert IsBlank(f.name) by {
      assert f.name[0] == ' ' && f.name[1] == ' ';
    }
  }
}
