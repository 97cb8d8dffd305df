/** The page behind the emailed link (`ResetPassword.tsx`): choosing a new password for a reset token. */
module ResetPasswordPage {
  import opened Wrappers
  import opened Strings
  import opened ServerStore
  import opened ServerValidation
  import opened AuthRoutes

  const PasswordsDiffer := "Passwords do not match"
  const ResetFailed := "Password reset failed"
  const ResetRoute := "/api/auth/reset-password/"

  /** What the page shows: an error line and a success line, at most one of them non-empty. */
  datatype Banner = Banner(error: string, success: string)

  datatype ResetStep =
    | ResetRejected(banner: Banner)
    | ResetRequested(path: string, password: string)

  /**
   * `handleResetPassword` up to the request: both lines are cleared, then the length check runs
   * before the confirmation check, and only the password goes into the body.
   */
  function HandleResetPassword(password: string, confirm: string, token: string): (r: ResetStep)
    ensures r.ResetRequested? <==> Utf16Length(password) >= 6 && password == confirm
    ensures r.ResetRequested? ==> r.path == ResetRoute + token && r.password == password
    ensures Utf16Length(password) < 6 ==> r == ResetRejected(Banner(WeakPasswordMessage, ""))
    ensures Utf16Length(password) >= 6 && password != confirm ==> r == ResetRejected(Banner(PasswordsDiffer, ""))
  {
    if password == "" || Utf16Length(password) < 6 then ResetRejected(Banner(WeakPasswordMessage, ""))
    else if password != confirm then ResetRejected(Banner(PasswordsDiffer, ""))
    else ResetRequested(ResetRoute + token, password)
  }

  /** How the request ended: a reply (its `ok` flag and its `message`, `""` when absent) or a failed fetch. */
  datatype ResetResponse = Responded(ok: bool, message: string) | FetchFailed(reason: string)

  /**
   * The banner once the request settles: the server's message on success; on a refused request its
   * message, or a generic one when the reply carries none; the fetch error otherwise.
   */
  function ResetSettled(response: ResetResponse): (b: Banner)
    ensures response.Responded? && response.ok ==> b == Banner("", response.message)
    ensures response.Responded? && !response.ok ==> b.success == "" && b.error != ""
    ensures response.Responded? && !response.ok && response.message != "" ==> b.error == response.message
    ensures response == Responded(false, "") ==> b.error == ResetFailed
    ensures response.FetchFailed? ==> b == Banner(response.reason, "")
  {
    match response
    case Responded(ok, message) =>
      if ok then Banner("", message)
      else Banner(if message != "" then message else ResetFailed, "")
    case FetchFailed(reason) => Banner(reason, "")
  }

  /**
   * A request the page sends is never turned away for its password: the server succeeds exactly
   * when the token is live, and otherwise reports the token as invalid or expired.
   */
  lemma SentPasswordPassesServerCheck(password: string, confirm: string, token: string, st: Store, now: int)
    requires HandleResetPassword(password, confirm, token).ResetRequested?
    ensures var out := ResetPassword(st, token, Some(password), now);
      && (out.reply.status == 200 <==> UserByLiveToken(st.users, token, now).Some?)
      && (out.reply.status != 200 ==> out.reply.message == BadResetTokenMessage)
  {
  }

  /** A stale or unknown token ends with the server's explanation on the page and no success line. */
  lemma StaleTokenShowsServerMessage(password: string, token: string, st: Store, now: int)
    requires HandleResetPassword(password, password, token).ResetRequested?
    requires UserByLiveToken(st.users, token, now).None?
    ensures var out := ResetPassword(st, token, Some(password), now);
      ResetSettled(Responded(out.reply.status == 200, out.reply.message)) == Banner(BadResetTokenMessage, "")
  {
    SentPasswordPassesServerCheck(password, password, token, st, now);
  }
}
