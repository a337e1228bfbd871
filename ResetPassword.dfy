/**
 * The new-password form reached from the one-time-code page: a redirect when the code or the
 * address is missing, three checks run in a fixed order before the reset request, the
 * requirement checklist, and the rule that disables the submit button.
 */
module ResetPassword {
  import opened Wrappers
  import opened Text
  import opened Validation

  /** `validatePassword`: a JavaScript length (UTF-16 code units) of at least six. Six
      characters always pass, three astral characters already do, and for text without astral
      characters the rule counts characters. */
  function ValidatePassword(password: string): (ok: bool)
    ensures ok ==> |password| >= MinPasswordLength / 2
    ensures |password| >= MinPasswordLength ==> ok
    ensures (forall k :: 0 <= k < |password| ==> !IsAstral(password[k])) ==>
              (ok <==> |password| >= MinPasswordLength)
  {
    Utf16LengthCountsCharacters(password);
    Utf16Length(password) >= MinPasswordLength
  }

  /** The first check of `handleSubmit` that fails, in the order required, long enough,
      confirmed; `None` when all three pass. */
  function ResetCheck(newPassword: string, confirmPassword: string): (r: Option<string>)
    ensures newPassword == "" ==> r == Some("New password is required")
    ensures newPassword != "" && !ValidatePassword(newPassword) ==>
              r == Some("Password must be at least 6 characters long")
    ensures ValidatePassword(newPassword) && newPassword != confirmPassword ==>
              r == Some("Passwords do not match")
    ensures r.None? <==> ValidatePassword(newPassword) && newPassword == confirmPassword
  {
    if newPassword == "" then Some("New password is required")
    else if !ValidatePassword(newPassword) then Some("Password must be at least 6 characters long")
    else if newPassword != confirmPassword then Some("Passwords do not match")
    else None
  }

  /** Where the page sends a visitor who arrives without both an address and a code. */
  function Redirect(email: Option<string>, otp: Option<string>): (r: Option<string>)
    ensures r.None? <==> TruthyString(email) && TruthyString(otp)
    ensures r.Some? ==> r.value == "/forgot-password"
  {
    if !TruthyString(email) || !TruthyString(otp) then Some("/forgot-password") else None
  }

  /** The "At least 6 characters" tick: written out separately in the checklist, it tests
      the same length as the submit handler. */
  function LengthTick(newPassword: string): (t: bool)
    ensures t <==> ValidatePassword(newPassword)
  {
    Utf16Length(newPassword) >= 6
  }

  /** The "Passwords match" tick: it shows exactly for equal entries with a non-empty
      password, whatever their length. While it shows, the handler stops neither at the missing
      password nor at the mismatch. */
  function MatchTick(newPassword: string, confirmPassword: string): (t: bool)
    ensures t ==> newPassword == confirmPassword
    ensures newPassword == confirmPassword && newPassword != "" ==> t
    ensures t ==> ResetCheck(newPassword, confirmPassword) != Some("New password is required")
    ensures t ==> ResetCheck(newPassword, confirmPassword) != Some("Passwords do not match")
    ensures ValidatePassword(newPassword) ==>
              (t <==> ResetCheck(newPassword, confirmPassword).None?)
  {
    newPassword == confirmPassword && newPassword != ""
  }

  /** Whether the submit button is disabled (`isLoading || !newPassword || !confirmPassword`).
      It is exactly while a request runs or while either field is empty; an enabled button has a password, so the handler gets
      past its first check; and it never blocks an entry the checks would accept. */
  function SubmitDisabled(isLoading: bool, newPassword: string, confirmPassword: string): (d: bool)
    ensures isLoading || newPassword == "" || confirmPassword == "" ==> d
    ensures !isLoading && newPassword != "" && confirmPassword != "" ==> !d
    ensures !d ==> ResetCheck(newPassword, confirmPassword) != Some("New password is required")
    ensures !isLoading && ResetCheck(newPassword, confirmPassword).None? ==> !d
  {
    isLoading || newPassword == "" || confirmPassword == ""
  }

  /** Both ticks shown is exactly the case in which the checks let the request go. */
  lemma TicksMeanAccepted(newPassword: string, confirmPassword: string)
    ensures LengthTick(newPassword) && MatchTick(newPassword, confirmPassword)
            <==> ResetCheck(newPassword, confirmPassword).None?
  {
  }

  /** An enabled button does not mean an accepted entry: two equal three-character entries
      enable the button, and the handler then rejects them as too short. */
  lemma EnabledButTooShort()
    ensures !SubmitDisabled(false, "abc", "abc")
    ensures ResetCheck("abc", "abc") == Some("Password must be at least 6 characters long")
  {
  }

  /** What the reset request carries: the address and code passed in by the previous page
      (possibly absent) and the new password. */
  datatype ResetRequest = ResetRequest(email: Option<string>, otp: Option<string>, newPassword: string)

  class ResetPasswordPage {
    const email: Option<string>
    const otp: Option<string>
    var newPassword: string
    var confirmPassword: string
    var isLoading: bool
    var error: Option<string>
    var success: bool

    constructor (email: Option<string>, otp: Option<string>)
      ensures this.email == email && this.otp == otp
      ensures newPassword == "" && confirmPassword == ""
      ensures !isLoading && error == None && !success
    {
      this.email, this.otp := email, otp;
      newPassword, confirmPassword := "", "";
      isLoading, error, success := false, None, false;
    }

    /** `handleSubmit`, where `reset` is the outcome of the reset request if it is made. The
        error is cleared first; a failing check sets its message and stops; otherwise the
        request is sent and the page shows either the success view or the request's message. */
    method Submit(reset: ApiResult<bool>) returns (sent: Option<ResetRequest>)
      modifies this`error, this`isLoading, this`success
      ensures sent.None? <==> ResetCheck(newPassword, confirmPassword).Some?
      ensures sent.None? ==>
                error == ResetCheck(newPassword, confirmPassword)
                && isLoading == old(isLoading) && success == old(success)
      ensures sent.Some? ==> sent.value == ResetRequest(email, otp, newPassword) && !isLoading
      ensures sent.Some? && reset.Ok? ==> success && error == None
      ensures sent.Some? && reset.Fail? ==>
                success == old(success) && error == Some(MessageOr(reset.message, "Failed to reset password"))
    {
      error := None;
      var check := ResetCheck(newPassword, confirmPassword);
      if check.Some? {
        error := check;
        return None;
      }
      isLoading := true;
      sent := Some(ResetRequest(email, otp, newPassword));
      match reset {
        case Ok(_) => success := true;
        case Fail(message) => error := Some(MessageOr(message, "Failed to reset password"));
      }
      isLoading := false;
    }
  }
}
