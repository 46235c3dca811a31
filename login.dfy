/** The sign-in form: its two inputs, the loading flag, the three error
    slots (e-mail, password, general), the submit handler with its test
    credentials, and the two change handlers. */
module Login {
  import opened Wrappers
  import opened Text
  import AddEmployee

  const AdminEmail := "admin@test.com"
  const AdminPassword := "password123"

  const EmailRequired := "Email is required"
  const InvalidEmail := "Please enter a valid email"
  const PasswordRequired := "Password is required"
  const InvalidCredentials := "Invalid email or password. " + "Use admin@test.com / password123 for testing."

  datatype LoginErrors = LoginErrors(email: Option<string>, password: Option<string>, general: Option<string>)

  const NoErrors := LoginErrors(None, None, None)

  /** The field checks of `handleSubmit`. The e-mail is tested untrimmed: only
      the empty string is "required", anything else must match the pattern. */
  function FieldErrors(email: string, password: string): (e: LoginErrors)
    ensures e.email == Some(EmailRequired) <==> email == ""
    ensures e.email == Some(InvalidEmail) <==> email != "" && !MatchesEmailPattern(email)
    ensures e.email.None? <==> MatchesEmailPattern(email)
    ensures e.password.Some? <==> password == ""
    ensures e.password.Some? ==> e.password.value == PasswordRequired
    ensures e.general.None?
  {
    assert MatchesEmailPattern(email) ==> email != "" by {
      if MatchesEmailPattern(email) {
        MatchImpliesNotBlank(email);
      }
    }
    LoginErrors(
      if email == "" then Some(EmailRequired)
      else if !MatchesEmailPattern(email) then Some(InvalidEmail)
      else None,
      if password == "" then Some(PasswordRequired) else None,
      None)
  }

  /** The test address satisfies the e-mail pattern ('@' at 5, '.' at 10). */
  lemma AdminEmailMatches()
    ensures MatchesEmailPattern(AdminEmail)
  {
    assert EmailMatchAt(AdminEmail, 5, 10);
  }

  /** The test credentials pass both field checks, so a submission with them
      reaches the credential check. */
  lemma AdminCredentialsPassChecks()
    ensures FieldErrors(AdminEmail, AdminPassword) == NoErrors
  {
    AdminEmailMatches();
  }

  /** A whitespace-only e-mail is "required" on the employee form but
      "invalid" on the sign-in form: only the former trims. */
  lemma BlankEmailMessagesDiffer(email: string, password: string, form: AddEmployee.FormData)
    requires email != "" && IsBlank(email) && form.email == email
    ensures FieldErrors(email, password).email == Some(InvalidEmail)
    ensures AddEmployee.Email in AddEmployee.FormErrors(form)
    ensures AddEmployee.FormErrors(form)[AddEmployee.Email] == AddEmployee.EmailRequired
  {
    assert !MatchesEmailPattern(email) by {
      if MatchesEmailPattern(email) {
        MatchImpliesNotBlank(email);
      }
    }
  }

  class LoginForm {
    var email: string
    var password: string
    var isLoading: bool
    var errors: LoginErrors

    constructor ()
      ensures email == "" && password == "" && !isLoading && errors == NoErrors
    {
      email := "";
      password := "";
      isLoading := false;
      errors := NoErrors;
    }

    /** `handleSubmit`, with the delayed credential check run at once. The
        previous errors are cleared first; with a field error the credentials
        are not checked; otherwise sign-in succeeds exactly on the test
        credentials and fails with only the general error. */
    method HandleSubmit() returns (loggedIn: bool)
      modifies this
      ensures email == old(email) && password == old(password)
      ensures !isLoading
      ensures loggedIn <==> email == AdminEmail && password == AdminPassword
      ensures FieldErrors(email, password) != NoErrors ==> errors == FieldErrors(email, password)
      ensures FieldErrors(email, password) == NoErrors ==>
                errors == if loggedIn then NoErrors else LoginErrors(None, None, Some(InvalidCredentials))
    {
      isLoading := true;
      errors := NoErrors;

      var newErrors := NoErrors;
      if email == "" {
        newErrors := newErrors.(email := Some(EmailRequired));
      } else if !MatchesEmailPattern(email) {
        newErrors := newErrors.(email := Some(InvalidEmail));
      }
      if password == "" {
        newErrors := newErrors.(password := Some(PasswordRequired));
      }

      if newErrors.email.Some? || newErrors.password.Some? || newErrors.general.Some? {
        errors := newErrors;
        isLoading := false;
        assert email != AdminEmail || password != AdminPassword by {
          AdminEmailMatches();
        }
        return false;
      }

      if email == AdminEmail && password == AdminPassword {
        loggedIn := true;
      } else {
        errors := LoginErrors(None, None, Some(InvalidCredentials));
        loggedIn := false;
      }
      isLoading := false;
    }

    /** `handleEmailChange`: stores the input and clears the e-mail and general
        errors; the password error stays. */
    method HandleEmailChange(value: string)
      modifies this
      ensures email == value && password == old(password) && isLoading == old(isLoading)
      ensures errors == LoginErrors(None, old(errors).password, None)
    {
      email := value;
      if errors.email.Some? || errors.general.Some? {
        errors := errors.(email := None, general := None);
      }
    }

    /** `handlePasswordChange`: the same for the password. */
    method HandlePasswordChange(value: string)
      modifies this
      ensures password == value && email == old(email) && isLoading == old(isLoading)
      ensures errors == LoginErrors(old(errors).email, None, None)
    {
      password := value;
      if errors.password.Some? || errors.general.Some? {
        errors := errors.(password := None, general := None);
      }
    }
  }
}
