/**
 * The `submit` handler of src/view/src/components/SignupCard.tsx: seven checks
 * run in a fixed order, the first one that fails is reported, and only when all
 * pass is `onSubmit` called with the form's fields.
 */
module Signup {
  import opened Wrappers
  import opened JsText
  import opened Validation
  import opened Forms

  datatype SignupForm = SignupForm(name: string, email: string, password: string, confirm: string, birthdate: string)

  /** The argument of `onSubmit`. */
  datatype SignupPayload = SignupPayload(name: string, email: string, password: string, birthdate: string)

  /** The checks of the sign-up form, each named by what it requires. */
  datatype Check = NameGiven | EmailValid | PasswordStrong | PasswordsMatch | BirthdateGiven | BirthdateParses | OldEnough

  const MinimumAge := 18

  /** The order in which `submit` runs the checks. */
  const Checks: seq<Check> := [NameGiven, EmailValid, PasswordStrong, PasswordsMatch, BirthdateGiven, BirthdateParses, OldEnough]

  function Message(c: Check): string {
    match c
    case NameGiven => "Please enter your name."
    case EmailValid => "Enter a valid email."
    case PasswordStrong => "Password must be at least 6 characters and include a number and a special character."
    case PasswordsMatch => "Passwords do not match."
    case BirthdateGiven => "Please enter your birthdate (YYYY-MM-DD)."
    case BirthdateParses => "Please enter a valid birthdate."
    case OldEnough => "You must be at least 18 years old to create an account."
  }

  /** Whether check `c` accepts the form; `parsed` is `new Date(birthdate)` read as a calendar date. */
  predicate Passes(c: Check, f: SignupForm, parsed: Option<CalendarDate>, today: CalendarDate) {
    match c
    case NameGiven => !IsBlank(f.name)
    case EmailValid => IsValidEmail(f.email)
    case PasswordStrong => IsStrongPassword(f.password)
    case PasswordsMatch => f.password == f.confirm
    case BirthdateGiven => f.birthdate != ""
    case BirthdateParses => CalculateAge(parsed, today).Some?
    // `NaN < 18` is false, so an unparseable date passes this one check
    case OldEnough => !(CalculateAge(parsed, today).Some? && CalculateAge(parsed, today).value < MinimumAge)
  }

  /** The first check of `cs` that rejects the form, if any. */
  function FirstFailing(cs: seq<Check>, f: SignupForm, parsed: Option<CalendarDate>, today: CalendarDate): Option<Check> {
    if cs == [] then None
    else if !Passes(cs[0], f, parsed, today) then Some(cs[0])
    else FirstFailing(cs[1..], f, parsed, today)
  }

  /** FirstFailing finds nothing exactly when every check passes, and otherwise finds a
      failing check all of whose predecessors pass. */
  lemma {:induction false} FirstFailingIsFirst(cs: seq<Check>, f: SignupForm, parsed: Option<CalendarDate>, today: CalendarDate)
    ensures var r := FirstFailing(cs, f, parsed, today);
      && (r.None? <==> forall i | 0 <= i < |cs| :: Passes(cs[i], f, parsed, today))
      && (r.Some? ==> exists i | 0 <= i < |cs| ::
            cs[i] == r.value && !Passes(cs[i], f, parsed, today) && forall j | 0 <= j < i :: Passes(cs[j], f, parsed, today))
  {
    if cs != [] && Passes(cs[0], f, parsed, today) {
      FirstFailingIsFirst(cs[1..], f, parsed, today);
      var r := FirstFailing(cs, f, parsed, today);
      if r.Some? {
        var i :| 0 <= i < |cs[1..]| && cs[1..][i] == r.value && !Passes(cs[1..][i], f, parsed, today)
          && forall j | 0 <= j < i :: Passes(cs[1..][j], f, parsed, today);
        assert cs[i + 1] == r.value && !Passes(cs[i + 1], f, parsed, today);
        assert forall j | 0 <= j < i + 1 :: Passes(cs[j], f, parsed, today) by {
          forall j | 0 <= j < i + 1 ensures Passes(cs[j], f, parsed, today) {
            if j > 0 { assert cs[j] == cs[1..][j - 1]; }
          }
        }
      } else {
        forall i | 0 <= i < |cs| ensures Passes(cs[i], f, parsed, today) {
          if i > 0 { assert cs[i] == cs[1..][i - 1]; }
        }
      }
    } else if cs != [] {
      assert !Passes(cs[0], f, parsed, today);
    }
  }

  /** The check chain of `submit`, as written. */
  function SubmitSignup(f: SignupForm, parsed: Option<CalendarDate>, today: CalendarDate): (r: SubmitResult<SignupPayload>)
    ensures r.Submit? ==> r.payload == SignupPayload(f.name, f.email, f.password, f.birthdate)
  {
    if Trim(f.name) == "" then Error("Please enter your name.")
    else if !IsValidEmail(f.email) then Error("Enter a valid email.")
    else if !IsStrongPassword(f.password) then
      Error("Password must be at least 6 characters and include a number and a special character.")
    else if f.password != f.confirm then Error("Passwords do not match.")
    else if f.birthdate == "" then Error("Please enter your birthdate (YYYY-MM-DD).")
    else
      var age := CalculateAge(parsed, today);
      if age.None? then Error("Please enter a valid birthdate.")
      else if age.value < 18 then Error("You must be at least 18 years old to create an account.")
      else Submit(SignupPayload(f.name, f.email, f.password, f.birthdate))
  }

  /** FirstFailing over `Checks`, unrolled. */
  lemma FirstFailingChecks(f: SignupForm, parsed: Option<CalendarDate>, today: CalendarDate)
    ensures FirstFailing(Checks, f, parsed, today) ==
      if !Passes(NameGiven, f, parsed, today) then Some(NameGiven)
      else if !Passes(EmailValid, f, parsed, today) then Some(EmailValid)
      else if !Passes(PasswordStrong, f, parsed, today) then Some(PasswordStrong)
      else if !Passes(PasswordsMatch, f, parsed, today) then Some(PasswordsMatch)
      else if !Passes(BirthdateGiven, f, parsed, today) then Some(BirthdateGiven)
      else if !Passes(BirthdateParses, f, parsed, today) then Some(BirthdateParses)
      else if !Passes(OldEnough, f, parsed, today) then Some(OldEnough)
      else None
  {
    var t0 := Checks;
    var t1 := [EmailValid, PasswordStrong, PasswordsMatch, BirthdateGiven, BirthdateParses, OldEnough];
    var t2 := [PasswordStrong, PasswordsMatch, BirthdateGiven, BirthdateParses, OldEnough];
    var t3 := [PasswordsMatch, BirthdateGiven, BirthdateParses, OldEnough];
    var t4 := [BirthdateGiven, BirthdateParses, OldEnough];
    var t5 := [BirthdateParses, OldEnough];
    var t6 := [OldEnough];
    assert t0[1..] == t1 && t1[1..] == t2 && t2[1..] == t3 && t3[1..] == t4;
    assert t4[1..] == t5 && t5[1..] == t6 && t6[1..] == [];
    assert FirstFailing(t6, f, parsed, today) == if !Passes(OldEnough, f, parsed, today) then Some(OldEnough) else None;
    assert FirstFailing(t5, f, parsed, today) == if !Passes(BirthdateParses, f, parsed, today) then Some(BirthdateParses) else FirstFailing(t6, f, parsed, today);
    assert FirstFailing(t4, f, parsed, today) == if !Passes(BirthdateGiven, f, parsed, today) then Some(BirthdateGiven) else FirstFailing(t5, f, parsed, today);
    assert FirstFailing(t3, f, parsed, today) == if !Passes(PasswordsMatch, f, parsed, today) then Some(PasswordsMatch) else FirstFailing(t4, f, parsed, today);
    assert FirstFailing(t2, f, parsed, today) == if !Passes(PasswordStrong, f, parsed, today) then Some(PasswordStrong) else FirstFailing(t3, f, parsed, today);
    assert FirstFailing(t1, f, parsed, today) == if !Passes(EmailValid, f, parsed, today) then Some(EmailValid) else FirstFailing(t2, f, parsed, today);
  }

  /** `submit` reports the message of the first failing check in `Checks`, and submits the
      unchanged fields (the name is not trimmed) when none fails. */
  lemma SignupReportsFirstFailure(f: SignupForm, parsed: Option<CalendarDate>, today: CalendarDate)
    ensures SubmitSignup(f, parsed, today) ==
      match FirstFailing(Checks, f, parsed, today)
      case None => Submit(SignupPayload(f.name, f.email, f.password, f.birthdate))
      case Some(c) => Error(Message(c))
  {
    TrimEmptyIffBlank(f.name);
    FirstFailingChecks(f, parsed, today);
  }

  /** `onSubmit` is reached exactly when every check passes. */
  lemma SignupSubmitsIffAllPass(f: SignupForm, parsed: Option<CalendarDate>, today: CalendarDate)
    ensures SubmitSignup(f, parsed, today).Submit? <==> forall c: Check :: Passes(c, f, parsed, today)
  {
    SignupReportsFirstFailure(f, parsed, today);
    FirstFailingIsFirst(Checks, f, parsed, today);
    var cs := Checks;
    if forall i | 0 <= i < |cs| :: Passes(cs[i], f, parsed, today) {
      forall c: Check ensures Passes(c, f, parsed, today) {
        match c
        case NameGiven => assert cs[0] == c;
        case EmailValid => assert cs[1] == c;
        case PasswordStrong => assert cs[2] == c;
        case PasswordsMatch => assert cs[3] == c;
        case BirthdateGiven => assert cs[4] == c;
        case BirthdateParses => assert cs[5] == c;
        case OldEnough => assert cs[6] == c;
      }
    }
  }

  /** A blank name is reported before anything else is looked at. */
  lemma BlankNameReportedFirst(f: SignupForm, parsed: Option<CalendarDate>, today: CalendarDate)
    requires IsBlank(f.name)
    ensures SubmitSignup(f, parsed, today) == Error(Message(NameGiven))
  {
    TrimEmptyIffBlank(f.name);
  }

  /** A password that is both weak and different from its confirmation is reported as weak. */
  lemma WeakPasswordBeforeMismatch(f: SignupForm, parsed: Option<CalendarDate>, today: CalendarDate)
    requires !IsBlank(f.name) && IsValidEmail(f.email)
    requires !IsStrongPassword(f.password) && f.password != f.confirm
    ensures SubmitSignup(f, parsed, today) == Error(Message(PasswordStrong))
  {
    TrimEmptyIffBlank(f.name);
  }

  /** Once the other checks pass, the form is submitted exactly when the 18th birthday is on or before today. */
  lemma AdultThreshold(f: SignupForm, birth: CalendarDate, today: CalendarDate)
    requires !IsBlank(f.name) && IsValidEmail(f.email) && IsStrongPassword(f.password)
    requires f.password == f.confirm && f.birthdate != ""
    ensures SubmitSignup(f, Some(birth), today).Submit? <==> OnOrBefore(Anniversary(birth, MinimumAge), today)
    ensures SubmitSignup(f, Some(birth), today).Error? ==> SubmitSignup(f, Some(birth), today).message == Message(OldEnough)
  {
    TrimEmptyIffBlank(f.name);
    AgeAtLeastIff(birth, today, MinimumAge);
  }

  /** The sign-up card's state: its input fields, the error it shows, and the calls made to `onSubmit`. */
  class SignupCard {
    var name: string
    var email: string
    var password: string
    var confirm: string
    var birthdate: string
    var error: Option<string>
    var submitted: seq<SignupPayload>

    function Form(): SignupForm
      reads this
    {
      SignupForm(name, email, password, confirm, birthdate)
    }

    constructor ()
      ensures Form() == SignupForm("", "", "", "", "")
      ensures error == None && submitted == []
    {
      name, email, password, confirm, birthdate := "", "", "", "", "";
      error := None;
      submitted := [];
    }

    /** `submit`: clears the error, then shows the first failure or calls `onSubmit` once. */
    method Submit(parsed: Option<CalendarDate>, today: CalendarDate)
      modifies this`error, this`submitted
      ensures error == ShownError(SubmitSignup(Form(), parsed, today))
      ensures submitted == old(submitted) + Handed(SubmitSignup(Form(), parsed, today))
    {
      var form := Form();
      error := None;
      var r := SubmitSignup(form, parsed, today);
      if r.Error? {
        error := Some(r.message);
      } else {
        submitted := submitted + [r.payload];
      }
      assert Form() == form;
    }
  }
}
