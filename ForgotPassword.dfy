/**
 * The forgot-password form: the e-mail is required, then must match the shared pattern; a
 * valid address is sent a code and the visitor is taken to the code page carrying it.
 */
module ForgotPassword {
  import opened Wrappers
  import opened Validation

  /** The first failing check of `handleSubmit`, or `None`. */
  function ForgotCheck(email: string): (r: Option<string>)
    ensures email == "" ==> r == Some("Email is required")
    ensures email != "" && !EmailPattern(email) ==> r == Some("Please enter a valid email address")
    ensures r.None? <==> EmailPattern(email)
  {
    EmailError(email, "Email is required", "Please enter a valid email address")
  }

  /** An empty address is reported as missing, never as malformed. */
  lemma EmptyIsMissingNotInvalid()
    ensures ForgotCheck("") == Some("Email is required")
    ensures !EmailPattern("")
  {
  }

  /** A navigation to the code page with the address in its state. */
  datatype OtpRoute = OtpRoute(path: string, email: string)

  class ForgotPasswordPage {
    var email: string
    var isLoading: bool
    var error: Option<string>

    constructor ()
      ensures email == "" && !isLoading && error == None
    {
      email, isLoading, error := "", false, None;
    }

    /** `handleSubmit`, where `sendCode` is the outcome of the code request if it is made.
        The error is cleared on every submit; a failing check sets its message and makes no
        request; a valid address is sent and, on success, the page moves to the code page. */
    method Submit(sendCode: ApiResult<bool>) returns (sent: Option<string>, next: Option<OtpRoute>)
      modifies this`error, this`isLoading
      ensures sent.None? <==> !EmailPattern(email)
      ensures sent.None? ==> error == ForgotCheck(email) && isLoading == old(isLoading) && next == None
      ensures sent.Some? ==> sent.value == email && !isLoading
      ensures sent.Some? && sendCode.Ok? ==> next == Some(OtpRoute("/verify-otp", email)) && error == None
      ensures sent.Some? && sendCode.Fail? ==>
                next == None && error == Some(MessageOr(sendCode.message, "Failed to send OTP"))
    {
      error := None;
      var check := ForgotCheck(email);
      if check.Some? {
        error := check;
        return None, None;
      }
      isLoading := true;
      sent := Some(email);
      match sendCode {
        case Ok(_) => next := Some(OtpRoute("/verify-otp", email));
        case Fail(message) =>
          error := Some(MessageOr(message, "Failed to send OTP"));
          next := None;
      }
      isLoading := false;
    }
  }
}
