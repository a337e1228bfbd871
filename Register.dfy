/**
 * The sign-up form: its field-by-field checks, collected into an error record, and the submit
 * handler, which hands the trimmed names and the raw e-mail to the session's register step.
 */
module Register {
  import opened Wrappers
  import opened Text
  import opened Validation

  const MinNameLength: nat := 2

  /** The rule for a name field labelled `field`: blank after trimming is missing, one
      character after trimming is too short. */
  function NameError(name: string, field: string): (r: Option<string>)
    ensures AllSpace(name) ==> r == Some(field + " is required")
    ensures !AllSpace(name) && Utf16Length(Trim(name)) < MinNameLength ==> r == Some(field + " must be at least 2 characters")
    ensures r.None? <==> Utf16Length(Trim(name)) >= MinNameLength
  {
    TrimEmptyIffAllSpace(name);
    if Trim(name) == "" then Some(field + " is required")
    else if Utf16Length(Trim(name)) < 2 then Some(field + " must be at least 2 characters")
    else None
  }

  /** The confirmation rule, checked whatever the password's own rule says. */
  function ConfirmError(password: string, confirmPassword: string): (r: Option<string>)
    ensures r.None? <==> password == confirmPassword
    ensures r.Some? ==> r.value == "Passwords do not match"
  {
    if password != confirmPassword then Some("Passwords do not match") else None
  }

  /** What the page passes to the session's register step. */
  datatype RegisterRequest = RegisterRequest(firstName: string, lastName: string, email: string, password: string)

  /** The error record: one optional message per field (a missing key is `None`). */
  datatype RegisterErrors = RegisterErrors(firstName: Option<string>, lastName: Option<string>,
                                           email: Option<string>, password: Option<string>,
                                           confirmPassword: Option<string>)
  {
    /** `Object.keys(errors).length === 0`. */
    predicate IsEmpty() {
      firstName.None? && lastName.None? && email.None? && password.None? && confirmPassword.None?
    }
  }

  const NoErrors := RegisterErrors(None, None, None, None, None)

  class RegisterForm {
    var firstName: string
    var lastName: string
    var email: string
    var password: string
    var confirmPassword: string
    var errors: RegisterErrors

    constructor ()
      ensures firstName == "" && lastName == "" && email == "" && password == ""
      ensures confirmPassword == "" && errors == NoErrors
    {
      firstName, lastName, email, password, confirmPassword := "", "", "", "", "";
      errors := NoErrors;
    }

    /** Every field reports exactly the message of its own rule. */
    ghost predicate ErrorsMatchRules()
      reads this
    {
      errors.firstName == NameError(firstName, "First name")
      && errors.lastName == NameError(lastName, "Last name")
      && errors.email == EmailError(email, "Email is required", "Please enter a valid email")
      && errors.password == PasswordError(password)
      && errors.confirmPassword == ConfirmError(password, confirmPassword)
    }

    /** `validateForm`: the record is built field by field and stored; the form is valid
        exactly when no field has an error. */
    method ValidateForm() returns (valid: bool)
      modifies this`errors
      ensures ErrorsMatchRules()
      ensures valid <==> errors.IsEmpty()
    {
      var first := NameError(firstName, "First name");
      var last := NameError(lastName, "Last name");
      var mail := EmailError(email, "Email is required", "Please enter a valid email");
      var pass := PasswordError(password);
      var confirm := ConfirmError(password, confirmPassword);
      errors := RegisterErrors(first, last, mail, pass, confirm);
      valid := errors.IsEmpty();
    }

    /** `handleSubmit`, where `registered` is whether the session's register step succeeded
        if it is called. An invalid form stops before it; otherwise the trimmed names, the
        e-mail as typed and the password are sent, and the page either goes home or replaces
        all errors with one message on the e-mail field. */
    method Submit(registered: ApiResult<bool>) returns (sent: Option<RegisterRequest>, navigateTo: Option<string>)
      modifies this`errors
      ensures sent.None? ==> ErrorsMatchRules() && !errors.IsEmpty() && navigateTo == None
      ensures sent.Some? ==> sent.value == RegisterRequest(Trim(firstName), Trim(lastName), email, password)
      ensures sent.Some? ==> Utf16Length(Trim(firstName)) >= MinNameLength && Utf16Length(Trim(lastName)) >= MinNameLength
      ensures sent.Some? ==> EmailPattern(email) && Utf16Length(password) >= MinPasswordLength && password == confirmPassword
      ensures sent.Some? && registered.Ok? ==> navigateTo == Some("/") && errors == NoErrors
      ensures sent.Some? && registered.Fail? ==>
                navigateTo == None && errors == NoErrors.(email := Some("Registration failed. Please try again."))
    {
      var valid := ValidateForm();
      if !valid {
        return None, None;
      }
      sent := Some(RegisterRequest(Trim(firstName), Trim(lastName), email, password));
      ValidFormMeans(firstName, lastName, email, password, confirmPassword);
      label Checked:
      match registered {
        case Ok(_) => navigateTo := Some("/");
        case Fail(_) =>
          errors := NoErrors.(email := Some("Registration failed. Please try again."));
          navigateTo := None;
      }
      assert unchanged@Checked(this`firstName, this`lastName, this`email, this`password, this`confirmPassword);
    }
  }

  /** A form passing every rule: names of two characters or more once trimmed, an e-mail the
      pattern accepts, a password of six or more characters, confirmed. */
  lemma ValidFormMeans(firstName: string, lastName: string, email: string, password: string, confirm: string)
    ensures (NameError(firstName, "First name").None? && NameError(lastName, "Last name").None?
             && EmailError(email, "Email is required", "Please enter a valid email").None?
             && PasswordError(password).None? && ConfirmError(password, confirm).None?)
            <==>
            (Utf16Length(Trim(firstName)) >= 2 && Utf16Length(Trim(lastName)) >= 2 && EmailPattern(email)
             && Utf16Length(password) >= 6 && password == confirm)
  {
  }

  /** A mismatched confirmation is reported even when the password already has an error of
      its own. */
  lemma MismatchReportedIndependently(password: string, confirm: string)
    requires password != confirm && PasswordError(password).Some?
    ensures ConfirmError(password, confirm) == Some("Passwords do not match")
  {
  }
}
