/** The registration page: the password checks made before the account is
    created, in their fixed order, and the page state around the sign-up call. */
module Registration {
  import opened Common

  const MinPasswordLength: nat := 6
  const PasswordMismatch := "Passwords do not match"
  const PasswordTooShort := "Password must be at least 6 characters"

  /** The checks of `handleRegister`: the mismatch first, then the length. */
  function Validate(password: string, confirmPassword: string): (r: Option<string>)
    ensures r == Some(PasswordMismatch) <==> password != confirmPassword
    ensures r == Some(PasswordTooShort) <==> password == confirmPassword && |password| < MinPasswordLength
    ensures r.None? <==> password == confirmPassword && |password| >= MinPasswordLength
  {
    assert PasswordMismatch[8] != PasswordTooShort[8];
    if password != confirmPassword then Some(PasswordMismatch)
    else if |password| < MinPasswordLength then Some(PasswordTooShort)
    else None
  }

  /** The arguments of one `signUp(email, password, fullName)` call. */
  datatype SignUpCall = SignUpCall(email: string, password: string, fullName: string)

  class RegisterPage {
    var email: string
    var password: string
    var fullName: string
    var confirmPassword: string
    var loading: bool
    var error: string
    var success: bool
    /** Every sign-up request the page has made, oldest first. */
    var signUpCalls: seq<SignUpCall>
    /** The navigation the page has scheduled for later, if any. */
    var pendingNavigation: Option<string>

    constructor ()
      ensures email == "" && password == "" && fullName == "" && confirmPassword == ""
      ensures !loading && error == "" && !success && signUpCalls == [] && pendingNavigation.None?
    {
      email, password, fullName, confirmPassword := "", "", "", "";
      loading, error, success := false, "", false;
      signUpCalls, pendingNavigation := [], None;
    }

    /** Submitting the form. `signUpError` is the error the auth service
        answers with, if any. */
    method HandleRegister(signUpError: Option<string>)
      modifies this
      ensures !loading
      ensures email == old(email) && password == old(password)
      ensures fullName == old(fullName) && confirmPassword == old(confirmPassword)
      ensures Validate(password, confirmPassword).Some? ==>
        && error == Validate(password, confirmPassword).value
        && signUpCalls == old(signUpCalls)
        && success == old(success) && pendingNavigation == old(pendingNavigation)
      ensures Validate(password, confirmPassword).None? ==>
        signUpCalls == old(signUpCalls) + [SignUpCall(email, password, fullName)]
      ensures Validate(password, confirmPassword).None? && signUpError.Some? ==>
        error == signUpError.value && success == old(success) && pendingNavigation == old(pendingNavigation)
      ensures Validate(password, confirmPassword).None? && signUpError.None? ==>
        error == "" && success && pendingNavigation == Some("/login")
    {
      loading := true;
      error := "";

      if password != confirmPassword {
        error := PasswordMismatch;
        loading := false;
        return;
      }

      if |password| < MinPasswordLength {
        error := PasswordTooShort;
        loading := false;
        return;
      }

      signUpCalls := signUpCalls + [SignUpCall(email, password, fullName)];

      if signUpError.Some? {
        error := signUpError.value;
        loading := false;
      } else {
        success := true;
        loading := false;
        pendingNavigation := Some("/login");
      }
    }
  }
}
