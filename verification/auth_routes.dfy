/**
 * The authentication half of `api/server.js`: register, login, the password-reset pair and
 * the `authenticateToken` middleware, each as a function from the store (and the request,
 * the clock and the outcomes of the calls the model does not see) to an `Outcome`.
 */
module AuthRoutes {
  import opened Wrappers
  import opened Strings
  import opened EmailFormat
  import opened ServerStore
  import opened ServerValidation

  datatype RegisterBody = RegisterBody(name: Option<string>, email: Option<string>, password: Option<string>)
  datatype LoginBody = LoginBody(email: Option<string>, password: Option<string>)

  /** `name?.trim()` is truthy. */
  predicate NameGiven(name: Option<string>) {
    name.Some? && !IsBlank(name.value)
  }

  /**
   * The user a successful registration creates: the schema trims the name and lower-cases the
   * e-mail, and the password is stored as its bcrypt digest.
   */
  function NewUser(body: RegisterBody, newId: string): (u: User)
    requires body.name.Some? && body.email.Some? && body.password.Some?
    ensures u.id == newId && u.email == ToLower(body.email.value) && ToLower(u.email) == u.email
    ensures !IsBlank(body.name.value) ==> NameGiven(Some(u.name))
    ensures PasswordMatches(body.password.value, u.password)
    ensures u.resetToken.None? && u.resetExpires.None?
  {
    ToLowerIdempotent(body.email.value);
    TrimIdempotent(body.name.value);
    User(newId, Trim(body.name.value), ToLower(body.email.value), HashPassword(body.password.value), None, None)
  }

  /**
   * `POST /api/auth/register`. `newId` is the `_id` the database assigns; if it is already taken
   * the save fails with a duplicate-key error, which the handler reports like a duplicate e-mail.
   * The schema's `lowercase` option also applies to the query, so the lookup is by the lower-cased e-mail.
   */
  function Register(st: Store, body: RegisterBody, newId: string): (out: Outcome)
    ensures out.reply.status == 201 <==>
      && ValidateInput(body.email, body.password).None?
      && NameGiven(body.name)
      && UserByEmail(st.users, ToLower(body.email.value)).None?
      && UserById(st.users, newId).None?
    ensures out.reply.status == 201 ==>
      && out.store == st.(users := st.users + [NewUser(body, newId)])
      && out.reply.payload == SessionFor(NewUser(body, newId))
    ensures out.reply.status != 201 ==>
      out.store == st && out.reply.status == 400 && out.reply.payload == NoPayload
    ensures (ValidateInput(body.email, body.password).None? && NameGiven(body.name)
             && UserByEmail(st.users, ToLower(body.email.value)).Some?) ==>
      out.reply.message == "User already exists with this email"
  {
    match ValidateInput(body.email, body.password)
    case Some(e) => Outcome(st, Reply(400, InputErrorMessage(e), NoPayload))
    case None =>
      if body.name.None? || Trim(body.name.value) == "" then
        Outcome(st, Reply(400, "Name is required", NoPayload))
      else if UserByEmail(st.users, ToLower(body.email.value)).Some? then
        Outcome(st, Reply(400, "User already exists with this email", NoPayload))
      else if UserById(st.users, newId).Some? then
        Outcome(st, Reply(400, "User already exists with this email", NoPayload))
      else
        var u := NewUser(body, newId);
        Outcome(st.(users := st.users + [u]), Reply(201, "User registered successfully", SessionFor(u)))
  }

  /**
   * `POST /api/auth/login`. An unknown e-mail and a wrong password get the same reply;
   * a session is issued only when both the e-mail and the password match. The e-mail is
   * looked up lower-cased, as the schema's `lowercase` option casts the query.
   */
  function Login(st: Store, body: LoginBody): (r: Reply)
    ensures r.status == 200 <==>
      && ValidateInput(body.email, body.password).None?
      && UserByEmail(st.users, ToLower(body.email.value)).Some?
      && PasswordMatches(body.password.value, st.users[UserByEmail(st.users, ToLower(body.email.value)).value].password)
    ensures r.status == 200 ==>
      r.payload == SessionFor(st.users[UserByEmail(st.users, ToLower(body.email.value)).value])
    ensures ValidateInput(body.email, body.password).None? && r.status != 200 ==>
      r == Reply(400, "Invalid credentials", NoPayload)
  {
    match ValidateInput(body.email, body.password)
    case Some(e) => Reply(400, InputErrorMessage(e), NoPayload)
    case None =>
      match UserByEmail(st.users, ToLower(body.email.value))
      case None => Reply(400, "Invalid credentials", NoPayload)
      case Some(k) =>
        if !PasswordMatches(body.password.value, st.users[k].password) then
          Reply(400, "Invalid credentials", NoPayload)
        else
          Reply(200, "Login successful", SessionFor(st.users[k]))
  }

  /** Whether mail credentials are configured, and whether sending the reset mail succeeds. */
  datatype Mailer = Mailer(configured: bool, delivers: bool)

  function UnknownAccountMessage(email: string): string {
    "If an account with " + email + " exists, password reset instructions have been sent."
  }

  function InstructionsSentMessage(email: string): string {
    "Password reset instructions have been sent to " + email + ". Please check your inbox and spam folder."
  }

  const ResetMailFailedMessage := "Failed to send password reset email. Please try again later."
  const MailNotConfiguredMessage := "Email service not configured. Please contact support."

  /** `u` after the reset fields are set to `token` and `now + 1 hour`. */
  function WithResetToken(u: User, token: string, now: int): (v: User)
    ensures ResetFieldsPaired(v)
  {
    u.(resetToken := Some(token), resetExpires := Some(now + ResetTokenLifetime))
  }

  /** `u` after both reset fields are set to `null`. */
  function WithoutResetToken(u: User): (v: User)
    ensures ResetFieldsPaired(v)
  {
    u.(resetToken := None, resetExpires := None)
  }

  /**
   * `POST /api/auth/forgot-password`. `freshToken` is `crypto.randomBytes(32)` in hex, `now` is
   * `Date.now()`. The token is saved before the mail is sent and both fields are cleared again
   * when sending fails.
   */
  function ForgotPassword(st: Store, email: Option<string>, mailer: Mailer, freshToken: string, now: int): (out: Outcome)
    ensures out.store.records == st.records && |out.store.users| == |st.users|
    ensures out.reply.payload == NoPayload
    ensures !Truthy(email) ==> out == Outcome(st, Reply(400, "Email is required", NoPayload))
    ensures Truthy(email) && !MatchesEmailRegex(email.value) ==>
      out == Outcome(st, Reply(400, InputErrorMessage(MalformedEmail), NoPayload))
    ensures Truthy(email) && MatchesEmailRegex(email.value) && !mailer.configured ==>
      out == Outcome(st, Reply(500, MailNotConfiguredMessage, NoPayload))
    ensures (Truthy(email) && MatchesEmailRegex(email.value) && mailer.configured
             && UserByEmail(st.users, ToLower(email.value)).None?) ==>
      out == Outcome(st, Reply(200, UnknownAccountMessage(email.value), NoPayload))
    ensures (Truthy(email) && MatchesEmailRegex(email.value) && mailer.configured
             && UserByEmail(st.users, ToLower(email.value)).Some?) ==>
      var k := UserByEmail(st.users, ToLower(email.value)).value;
      && (forall j :: 0 <= j < |st.users| && j != k ==> out.store.users[j] == st.users[j])
      && (mailer.delivers ==>
            out.store.users[k] == WithResetToken(st.users[k], freshToken, now)
            && out.reply == Reply(200, InstructionsSentMessage(email.value), NoPayload))
      && (!mailer.delivers ==>
            out.store.users[k] == WithoutResetToken(st.users[k])
            && out.reply == Reply(500, ResetMailFailedMessage, NoPayload))
  {
    if !Truthy(email) then Outcome(st, Reply(400, "Email is required", NoPayload))
    else if !MatchesEmailRegex(email.value) then
      Outcome(st, Reply(400, InputErrorMessage(MalformedEmail), NoPayload))
    else if !mailer.configured then
      Outcome(st, Reply(500, MailNotConfiguredMessage, NoPayload))
    else match UserByEmail(st.users, ToLower(email.value))
      case None => Outcome(st, Reply(200, UnknownAccountMessage(email.value), NoPayload))
      case Some(k) =>
        var issued := st.(users := st.users[k := WithResetToken(st.users[k], freshToken, now)]);
        if mailer.delivers then
          Outcome(issued, Reply(200, InstructionsSentMessage(email.value), NoPayload))
        else
          var cleared := issued.users[k := WithoutResetToken(issued.users[k])];
          assert cleared == st.users[k := WithoutResetToken(st.users[k])];
          Outcome(issued.(users := cleared), Reply(500, ResetMailFailedMessage, NoPayload))
  }

  const WeakPasswordMessage := "Password must be at least 6 characters long"
  const BadResetTokenMessage := "Invalid or expired reset token"

  /**
   * `POST /api/auth/reset-password/:token`. The password is checked first; then the first user
   * holding `token` with an expiry strictly after `now` gets the new password and loses the token.
   */
  function ResetPassword(st: Store, token: string, password: Option<string>, now: int): (out: Outcome)
    ensures out.reply.payload == NoPayload && out.store.records == st.records
    ensures out.reply.status == 200 <==>
      Truthy(password) && Utf16Length(password.value) >= 6 && UserByLiveToken(st.users, token, now).Some?
    ensures out.reply.status == 200 ==>
      var k := UserByLiveToken(st.users, token, now).value;
      out.store.users == st.users[k := WithoutResetToken(st.users[k]).(password := HashPassword(password.value))]
    ensures out.reply.status != 200 ==> out.store == st && out.reply.status == 400
    ensures !Truthy(password) || Utf16Length(password.value) < 6 ==> out.reply.message == WeakPasswordMessage
    ensures Truthy(password) && Utf16Length(password.value) >= 6 && UserByLiveToken(st.users, token, now).None? ==>
      out.reply.message == BadResetTokenMessage
  {
    if !Truthy(password) || Utf16Length(password.value) < 6 then
      Outcome(st, Reply(400, WeakPasswordMessage, NoPayload))
    else match UserByLiveToken(st.users, token, now)
      case None => Outcome(st, Reply(400, BadResetTokenMessage, NoPayload))
      case Some(k) =>
        var u := st.users[k].(password := HashPassword(password.value), resetToken := None, resetExpires := None);
        Outcome(st.(users := st.users[k := u]),
                Reply(200, "Password has been reset successfully. You can now login with your new password.", NoPayload))
  }

  /**
   * `authHeader && authHeader.split(' ')[1]`: the second space-separated piece of the header,
   * when it is there and non-empty. The first piece is not checked to be `Bearer`.
   */
  function BearerToken(header: Option<string>): (r: Option<string>)
    ensures r.Some? <==>
      && header.Some? && ' ' in header.value
      && IndexOf(header.value, ' ') + 1 < |header.value|
      && header.value[IndexOf(header.value, ' ') + 1] != ' '
    ensures r.Some? ==>
      var start := IndexOf(header.value, ' ') + 1;
      var end := start + |r.value|;
      && r.value != [] && ' ' !in r.value
      && end <= |header.value| && r.value == header.value[start..end]
      && (end == |header.value| || header.value[end] == ' ')
  {
    if header.None? || header.value == "" then None
    else
      var h := header.value;
      var parts := Split(h, ' ');
      if |parts| >= 2 && parts[1] != "" then
        SplitHead(h[IndexOf(h, ' ') + 1..], ' ');
        Some(parts[1])
      else
        if ' ' in h then
          SplitHead(h[IndexOf(h, ' ') + 1..], ' ');
          None
        else None
  }

  /** A header made of a space-free scheme word, one space and a token yields that token. */
  lemma BearerTokenOfHeader(scheme: string, token: string)
    requires ' ' !in scheme && token != [] && ' ' !in token
    ensures BearerToken(Some(scheme + " " + token)) == Some(token)
  {
    var h := scheme + " " + token;
    assert h[..|scheme|] == scheme && h[|scheme|] == ' ';
    assert IndexOf(h, ' ') == |scheme|;
    assert h[|scheme| + 1..] == token;
    assert h[|scheme| + 1] == token[0];
    var r := BearerToken(Some(h)).value;
    assert r == h[|scheme| + 1..];
  }

  datatype AuthResult = Denied(status: int, message: string) | Granted(user: User)

  /**
   * `authenticateToken`. `verify` is `jwt.verify` with `JWT_SECRET`: the claims of a genuine,
   * unexpired token, `None` for anything else. `VerifierFor` gives the verifier when that
   * variable is unset.
   */
  function Authenticate(users: seq<User>, header: Option<string>, verify: string -> Option<Claims>): (r: AuthResult)
    ensures BearerToken(header).None? <==> r == Denied(401, "Access token required")
    ensures BearerToken(header).Some? && verify(BearerToken(header).value).None? <==>
      r == Denied(403, "Invalid or expired token")
    ensures r.Granted? <==>
      && BearerToken(header).Some? && verify(BearerToken(header).value).Some?
      && UserById(users, verify(BearerToken(header).value).value.userId).Some?
    ensures r.Granted? ==>
      r.user == users[UserById(users, verify(BearerToken(header).value).value.userId).value]
      && r.user.id == verify(BearerToken(header).value).value.userId
    ensures r.Denied? ==> r.status == 401 || r.status == 403
  {
    match BearerToken(header)
    case None => Denied(401, "Access token required")
    case Some(token) =>
      match verify(token)
      case None => Denied(403, "Invalid or expired token")
      case Some(claims) =>
        match UserById(users, claims.userId)
        case None => Denied(401, "Invalid token")
        case Some(k) => Granted(users[k])
  }

  /**
   * The verifier the middleware ends up with. Tokens are signed with `JWT_SECRET` or, when it is
   * unset, a fixed fallback key, but verified with `JWT_SECRET` alone and no fallback; with the
   * variable unset, `jwt.verify` throws for every token.
   */
  function VerifierFor(secretSet: bool, verify: string -> Option<Claims>): (v: string -> Option<Claims>)
    ensures secretSet ==> v == verify
    ensures !secretSet ==> forall token :: v(token).None?
  {
    if secretSet then verify else (token: string) => None
  }

  /** Without `JWT_SECRET`, no request is let through, and every request that carries a token gets 403. */
  lemma UnsetSecretDeniesEveryToken(users: seq<User>, header: Option<string>, verify: string -> Option<Claims>)
    ensures !Authenticate(users, header, VerifierFor(false, verify)).Granted?
    ensures BearerToken(header).Some? ==>
      Authenticate(users, header, VerifierFor(false, verify)) == Denied(403, "Invalid or expired token")
  {
  }
}
