/**
 * The `submit` handler of src/view/src/components/LoginCard.tsx: an e-mail check,
 * then a length check on the password, then `onSubmit(email, password)`.
 */
module Login {
  import opened Wrappers
  import opened Validation
  import opened Forms
  import Signup

  /** The two arguments of `onSubmit`. */
  datatype LoginPayload = LoginPayload(email: string, password: string)

  const InvalidEmailMessage := "Enter a valid email."
  const ShortPasswordMessage := "Password must be at least 6 characters."

  function SubmitLogin(email: string, password: string): (r: SubmitResult<LoginPayload>)
    ensures !IsValidEmail(email) ==> r == Error(InvalidEmailMessage)
    ensures IsValidEmail(email) && |password| < 6 ==> r == Error(ShortPasswordMessage)
    ensures r.Submit? <==> IsValidEmail(email) && |password| >= 6
    ensures r.Submit? ==> r.payload == LoginPayload(email, password)
  {
    if !IsValidEmail(email) then Error(InvalidEmailMessage)
    else if |password| < 6 then Error(ShortPasswordMessage)
    else Submit(LoginPayload(email, password))
  }

  /** Credentials the sign-up form submits always get through the login form's checks. */
  lemma SignupCredentialsPassLogin(f: Signup.SignupForm, parsed: Option<CalendarDate>, today: CalendarDate)
    requires Signup.SubmitSignup(f, parsed, today).Submit?
    ensures SubmitLogin(f.email, f.password) == Submit(LoginPayload(f.email, f.password))
  {
  }

  /** Login checks only the length: six letters pass login although sign-up would call them weak. */
  lemma LoginChecksLengthOnly()
    ensures SubmitLogin("a@b.c", "abcdef") == Submit(LoginPayload("a@b.c", "abcdef"))
    ensures !IsStrongPassword("abcdef")
  {
    EmailExamples();
    AlphanumericPasswordNeverStrong("abcdef");
  }

  /** The login card's state: its two fields, the error it shows, and the calls made to `onSubmit`. */
  class LoginCard {
    var email: string
    var password: string
    var error: Option<string>
    var submitted: seq<LoginPayload>

    constructor ()
      ensures email == "" && password == "" && error == None && submitted == []
    {
      email, password := "", "";
      error := None;
      submitted := [];
    }

    /** `submit`: clears the error, then shows the first failure or calls `onSubmit` once. */
    method Submit()
      modifies this`error, this`submitted
      ensures error == ShownError(SubmitLogin(email, password))
      ensures submitted == old(submitted) + Handed(SubmitLogin(email, password))
    {
      error := None;
      var r := SubmitLogin(email, password);
      if r.Error? {
        error := Some(r.message);
      } else {
        submitted := submitted + [r.payload];
      }
    }
  }
}
