/**
 * The sign-in form: the e-mail and password checks collected into an error record, and the
 * submit handler, which calls the session's login step only for a valid form.
 */
module Login {
  import opened Wrappers
  import opened Text
  import opened Validation

  /** The error record `{ email?: string; password?: string }`. */
  datatype LoginErrors = LoginErrors(email: Option<string>, password: Option<string>)
  {
    predicate IsEmpty() {
      email.None? && password.None?
    }
  }

  /** What the form hands to the session's login step. */
  datatype LoginRequest = LoginRequest(email: string, password: string)

  const NoErrors := LoginErrors(None, None)

  class LoginForm {
    var email: string
    var password: string
    var errors: LoginErrors

    constructor ()
      ensures email == "" && password == "" && errors == NoErrors
    {
      email, password := "", "";
      errors := NoErrors;
    }

    ghost predicate ErrorsMatchRules()
      reads this
    {
      errors.email == EmailError(email, "Email is required", "Email is invalid")
      && errors.password == PasswordError(password)
    }

    /** `validateForm`: the record is built field by field and stored; the form is valid
        exactly when it is empty. */
    method ValidateForm() returns (valid: bool)
      modifies this`errors
      ensures ErrorsMatchRules()
      ensures valid <==> errors.IsEmpty()
      ensures valid <==> EmailPattern(email) && Utf16Length(password) >= MinPasswordLength
    {
      var newErrors := NoErrors;
      newErrors := newErrors.(email := EmailError(email, "Email is required", "Email is invalid"));
      newErrors := newErrors.(password := PasswordError(password));
      errors := newErrors;
      valid := newErrors.IsEmpty();
    }

    /** `handleSubmit`, where `loggedIn` is the outcome of the session's login step if it is
        called: an invalid form calls nothing; a valid one sends the e-mail and password as
        typed; a failed login leaves exactly one error, on the e-mail field; a successful one
        goes home. */
    method Submit(loggedIn: ApiResult<bool>) returns (sent: Option<LoginRequest>, navigateTo: Option<string>)
      modifies this`errors
      ensures sent.Some? <==> EmailPattern(email) && Utf16Length(password) >= MinPasswordLength
      ensures sent.Some? ==> sent.value == LoginRequest(email, password)
      ensures sent.None? ==> ErrorsMatchRules() && !errors.IsEmpty() && navigateTo == None
      ensures sent.Some? && loggedIn.Ok? ==> navigateTo == Some("/") && errors == NoErrors
      ensures sent.Some? && loggedIn.Fail? ==>
                navigateTo == None && errors == LoginErrors(Some("Invalid email or password"), None)
    {
      var valid := ValidateForm();
      if !valid {
        return None, None;
      }
      sent := Some(LoginRequest(email, password));
      match loggedIn {
        case Ok(_) => navigateTo := Some("/");
        case Fail(_) =>
          errors := LoginErrors(Some("Invalid email or password"), None);
          navigateTo := None;
      }
    }
  }
}
