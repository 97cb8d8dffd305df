/** The sign-in page (`Login.tsx`): the login form and the forgot-password panel. */
module LoginPage {
  import opened Wrappers
  import opened Strings
  import opened EmailFormat
  import opened ServerStore
  import opened ServerValidation
  import opened AuthRoutes

  const FillAllFields := "Please fill in all fields"
  const EnterEmail := "Please enter your email address"

  datatype LoginStep = LoginRejected(error: string) | LoginCalled(email: string, password: string)

  /** `handleLogin`: both fields must be filled and the address well formed; both are sent as typed. */
  function HandleLogin(email: string, password: string): (r: LoginStep)
    ensures r.LoginCalled? <==> email != "" && password != "" && MatchesEmailRegex(email)
    ensures r.LoginCalled? ==> r == LoginCalled(email, password)
    ensures email == "" || password == "" ==> r == LoginRejected(FillAllFields)
    ensures email != "" && password != "" && !MatchesEmailRegex(email) ==>
      r == LoginRejected(InputErrorMessage(MalformedEmail))
  {
    if email == "" || password == "" then LoginRejected(FillAllFields)
    else if !MatchesEmailRegex(email) then LoginRejected(InputErrorMessage(MalformedEmail))
    else LoginCalled(email, password)
  }

  /**
   * The page does not check the password length, so a short password reaches the server, whose
   * `validateInput` turns it away before any account is looked up.
   */
  lemma ShortPasswordIsRejectedByServer(st: Store, email: string, password: string)
    requires HandleLogin(email, password).LoginCalled? && Utf16Length(password) < 6
    ensures Login(st, LoginBody(Some(email), Some(password))) == Reply(400, InputErrorMessage(ShortPassword), NoPayload)
  {
  }

  /** The forgot-password panel and the page state it shares with the login form. */
  datatype Panel = Panel(shown: bool, resetEmail: string, resetMessage: string, error: string, emailValid: bool)

  /** The live check on the reset address: false when it is empty or the panel is hidden. */
  function ResetEmailLooksValid(resetEmail: string, shown: bool): (v: bool)
    ensures v <==> shown && MatchesEmailRegex(resetEmail)
  {
    EmptyIsNotAnEmail();
    if resetEmail == "" || !shown then false else MatchesEmailRegex(resetEmail)
  }

  /** The validity flag shows what the live check would compute for the current field. */
  predicate InSync(p: Panel) {
    p.emailValid == ResetEmailLooksValid(p.resetEmail, p.shown)
  }

  datatype ForgotStep = ForgotRejected(panel: Panel) | ForgotRequested(panel: Panel, email: string)

  /** `handleForgotPassword` up to the request: messages are cleared, then the address is checked. */
  function HandleForgotPassword(p: Panel): (r: ForgotStep)
    ensures r.panel.resetMessage == "" && r.panel.shown == p.shown && r.panel.resetEmail == p.resetEmail
    ensures r.ForgotRequested? <==> MatchesEmailRegex(p.resetEmail)
    ensures r.ForgotRequested? ==> r.email == p.resetEmail && r.panel.error == ""
    ensures p.resetEmail == "" ==> r == ForgotRejected(p.(resetMessage := "", error := EnterEmail))
    ensures p.resetEmail != "" && !MatchesEmailRegex(p.resetEmail) ==>
      r == ForgotRejected(p.(resetMessage := "", error := InputErrorMessage(MalformedEmail)))
  {
    EmptyIsNotAnEmail();
    var cleared := p.(error := "", resetMessage := "");
    if p.resetEmail == "" then ForgotRejected(cleared.(error := EnterEmail))
    else if !MatchesEmailRegex(p.resetEmail) then ForgotRejected(cleared.(error := InputErrorMessage(MalformedEmail)))
    else ForgotRequested(cleared, p.resetEmail)
  }

  /**
   * The panel once `forgotPassword` settles: on success the server's message is shown and the
   * field and its validity are cleared; on failure the error is shown and the field is kept.
   */
  function ForgotSettled(p: Panel, reply: Result<string, string>): (q: Panel)
    ensures q.shown == p.shown
    ensures reply.Ok? ==> q.resetMessage == reply.value && q.resetEmail == "" && !q.emailValid && InSync(q)
    ensures reply.Err? ==> q == p.(error := reply.error)
  {
    match reply
    case Ok(message) => p.(resetMessage := message, resetEmail := "", emailValid := false)
    case Err(message) => p.(error := message)
  }

  /** A request the panel sends passes the server's address checks: the reply is never a 400. */
  lemma ForgotRequestPassesServerChecks(p: Panel, st: Store, mailer: Mailer, token: string, now: int)
    requires HandleForgotPassword(p).ForgotRequested?
    ensures ForgotPassword(st, Some(HandleForgotPassword(p).email), mailer, token, now).reply.status != 400
  {
    EmptyIsNotAnEmail();
  }

  /** `backToLogin`: hide the panel and clear the error, the message, the field and its validity. */
  function BackToLogin(p: Panel): (q: Panel)
    ensures !q.shown && q.error == "" && q.resetMessage == "" && q.resetEmail == "" && !q.emailValid
    ensures InSync(q)
  {
    Panel(false, "", "", "", false)
  }
}
