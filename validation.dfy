/**
 * The client-side validators of src/view/src/utils/validation.ts: the e-mail
 * and password regular expressions, read as predicates over the string, and
 * calculateAge, with the parsed birth date and today's date as parameters.
 */
module Validation {
  import opened Wrappers
  import opened JsText

  /** `s[lo..hi]` is a non-empty run matched by `.+`. */
  predicate DotRun(s: string, lo: int, hi: int)
    requires 0 <= lo <= hi <= |s|
  {
    lo < hi && forall k | lo <= k < hi :: MatchesDot(s[k])
  }

  /** The slice `s[i..j]` is matched by `.+@.+\..+` with the `@` at `at` and the literal `.` at `dot`. */
  predicate EmailMatchAt(s: string, i: int, at: int, dot: int, j: int) {
    && 0 <= i < at < dot < j <= |s|
    && DotRun(s, i, at) && s[at] == '@' && DotRun(s, at + 1, dot)
    && s[dot] == '.' && DotRun(s, dot + 1, j)
  }

  /** `/.+@.+\..+/.test(email)`: the pattern is unanchored, so it holds when some slice
      of the string matches it. */
  predicate IsValidEmail(email: string) {
    exists i, at, dot, j | 0 <= i < at < dot < j <= |email| :: EmailMatchAt(email, i, at, dot, j)
  }

  /** One character, `@`, at least one character, `.`, one character, none of them a line
      terminator, with the `@` at `at` and the `.` at `dot`. */
  predicate MinimalRunAt(s: string, at: int, dot: int) {
    && 1 <= at && at + 1 < dot && dot + 1 < |s|
    && MatchesDot(s[at - 1]) && s[at] == '@' && DotRun(s, at + 1, dot)
    && s[dot] == '.' && MatchesDot(s[dot + 1])
  }

  /** The shortest text the e-mail pattern can match occurs somewhere in `s`. */
  predicate HasMinimalEmailRun(s: string) {
    exists at, dot | 1 <= at && at + 1 < dot && dot + 1 < |s| :: MinimalRunAt(s, at, dot)
  }

  /** The e-mail check holds exactly when the string contains the minimal run. */
  lemma EmailIffMinimalRun(s: string)
    ensures IsValidEmail(s) <==> HasMinimalEmailRun(s)
  {
    if IsValidEmail(s) {
      var i, at, dot, j :| EmailMatchAt(s, i, at, dot, j);
    assert EmailMatchAt(s, i, at, dot, j);
      assert MatchesDot(s[at - 1]) && MatchesDot(s[dot + 1]);
      assert MinimalRunAt(s, at, dot);
    }
    if HasMinimalEmailRun(s) {
      var at, dot :| MinimalRunAt(s, at, dot);
    assert MinimalRunAt(s, at, dot);
      assert DotRun(s, at - 1, at) && DotRun(s, dot + 1, dot + 2);
      assert EmailMatchAt(s, at - 1, at, dot, dot + 2);
    }
  }

  /** An accepted address has an `@` and, at least two positions after it, a `.` that is
      not the last character; so a string without `@`, or without such a `.`, is rejected. */
  lemma EmailNeedsAtThenDot(s: string)
    requires IsValidEmail(s)
    ensures exists at, dot | 1 <= at && at + 2 <= dot < |s| - 1 :: s[at] == '@' && s[dot] == '.'
  {
    EmailIffMinimalRun(s);
    var at, dot :| MinimalRunAt(s, at, dot);
    assert MinimalRunAt(s, at, dot);
  }

  /** The pattern has no `^`/`$` anchors: text around a valid address keeps it valid. */
  lemma EmailUnanchored(p: string, s: string, q: string)
    requires IsValidEmail(s)
    ensures IsValidEmail(p + s + q)
  {
    var i, at, dot, j :| EmailMatchAt(s, i, at, dot, j);
    assert EmailMatchAt(s, i, at, dot, j);
    var t := p + s + q;
    var n := |p|;
    forall k | 0 <= k < |s| ensures t[n + k] == s[k] { }
    assert t[n + at] == '@' && t[n + dot] == '.';
    assert DotRun(t, n + i, n + at);
    assert DotRun(t, n + at + 1, n + dot);
    assert DotRun(t, n + dot + 1, n + j);
    assert EmailMatchAt(t, n + i, n + at, n + dot, n + j);
  }

  /** A line break between the `@` and the `.` breaks the match. */
  lemma EmailExamples()
    ensures IsValidEmail("a@b.c")
    ensures IsValidEmail("first.last@example.org")
    ensures !IsValidEmail("a@.c")
    ensures !IsValidEmail("a@b\n.c")
    ensures !IsValidEmail("plainaddress")
  {
    assert EmailMatchAt("a@b.c", 0, 1, 3, 5);
    var e := "first.last@example.org";
    assert e[10] == '@' && e[18] == '.';
    assert EmailMatchAt(e, 0, 10, 18, 22);
    EmailIffMinimalRun("a@.c");
    var x := "a@b\n.c";
    forall at, dot | 1 <= at && at + 1 < dot && dot + 1 < |x| ensures !MinimalRunAt(x, at, dot) {
      if x[at] == '@' && x[dot] == '.' {
        assert at == 1 && dot == 4;
        assert !MatchesDot(x[3]);
      }
    }
    EmailIffMinimalRun(x);
    EmailIffMinimalRun("plainaddress");
  }

  predicate IsAsciiDigit(c: char) {
    '0' <= c <= '9'
  }

  /** The class `[A-Za-z0-9]`. */
  predicate IsAsciiAlphanumeric(c: char) {
    'A' <= c <= 'Z' || 'a' <= c <= 'z' || IsAsciiDigit(c)
  }

  /** The lookahead `(?=.*[0-9])` at the start of the string. */
  predicate DigitAhead(pw: string) {
    exists k | 0 <= k < |pw| :: IsAsciiDigit(pw[k]) && forall m | 0 <= m < k :: MatchesDot(pw[m])
  }

  /** The lookahead `(?=.*[^A-Za-z0-9])` at the start of the string. */
  predicate SpecialAhead(pw: string) {
    exists k | 0 <= k < |pw| :: !IsAsciiAlphanumeric(pw[k]) && forall m | 0 <= m < k :: MatchesDot(pw[m])
  }

  /** `/^(?=.*[0-9])(?=.*[^A-Za-z0-9]).{6,}$/.test(pw)`: both lookaheads succeed at the start
      and `.{6,}$` consumes the whole string. */
  predicate IsStrongPassword(pw: string) {
    DigitAhead(pw) && SpecialAhead(pw) && |pw| >= 6 && forall k | 0 <= k < |pw| :: MatchesDot(pw[k])
  }

  /** Read plainly: at least six characters, no line terminator, a digit somewhere and a
      character that is not an ASCII letter or digit somewhere. */
  lemma StrongPasswordIff(pw: string)
    ensures IsStrongPassword(pw) <==>
      && |pw| >= 6
      && (forall k | 0 <= k < |pw| :: !IsLineTerminator(pw[k]))
      && (exists k | 0 <= k < |pw| :: IsAsciiDigit(pw[k]))
      && (exists k | 0 <= k < |pw| :: !IsAsciiAlphanumeric(pw[k]))
  {
    if && |pw| >= 6
       && (forall k | 0 <= k < |pw| :: !IsLineTerminator(pw[k]))
       && (exists k | 0 <= k < |pw| :: IsAsciiDigit(pw[k]))
       && (exists k | 0 <= k < |pw| :: !IsAsciiAlphanumeric(pw[k]))
    {
      var d :| 0 <= d < |pw| && IsAsciiDigit(pw[d]);
      var x :| 0 <= x < |pw| && !IsAsciiAlphanumeric(pw[x]);
      assert forall m | 0 <= m < d :: MatchesDot(pw[m]);
      assert forall m | 0 <= m < x :: MatchesDot(pw[m]);
    }
  }

  /** Letters and digits alone never make a strong password, however long. */
  lemma AlphanumericPasswordNeverStrong(pw: string)
    requires forall k | 0 <= k < |pw| :: IsAsciiAlphanumeric(pw[k])
    ensures !IsStrongPassword(pw)
  {
  }

  /** A calendar date as `Date` reports it: getFullYear, getMonth, getDate. */
  datatype CalendarDate = CalendarDate(year: int, month: int, day: int)

  /** `a` falls on or before `b`. */
  predicate OnOrBefore(a: CalendarDate, b: CalendarDate) {
    a.year < b.year
    || (a.year == b.year && (a.month < b.month || (a.month == b.month && a.day <= b.day)))
  }

  /** The `n`-th anniversary of `birth`: same month and day, `n` years later. */
  function Anniversary(birth: CalendarDate, n: int): CalendarDate {
    CalendarDate(birth.year + n, birth.month, birth.day)
  }

  /** `calculateAge`: `birth` is `new Date(dateString)`, None when the string does not parse
      (the function then returns NaN, here None); `today` is `new Date()`. */
  function CalculateAge(birth: Option<CalendarDate>, today: CalendarDate): (age: Option<int>)
    ensures age.None? <==> birth.None?
  {
    match birth
    case None => None
    case Some(b) =>
      var years := today.year - b.year;
      var m := today.month - b.month;
      Some(if m < 0 || (m == 0 && today.day < b.day) then years - 1 else years)
  }

  /** The age is the number of completed years: the anniversary of that many years has been
      reached and the next one has not. */
  lemma AgeIsCompletedYears(birth: CalendarDate, today: CalendarDate)
    ensures CalculateAge(Some(birth), today).Some?
    ensures var a := CalculateAge(Some(birth), today).value;
      OnOrBefore(Anniversary(birth, a), today) && !OnOrBefore(Anniversary(birth, a + 1), today)
  {
  }

  /** Someone is at least `n` years old exactly when their `n`-th anniversary is on or before today. */
  lemma AgeAtLeastIff(birth: CalendarDate, today: CalendarDate, n: int)
    ensures CalculateAge(Some(birth), today).Some?
    ensures CalculateAge(Some(birth), today).value >= n <==> OnOrBefore(Anniversary(birth, n), today)
  {
    AgeIsCompletedYears(birth, today);
  }

  /** A birth date on or before today gives a non-negative age. */
  lemma AgeNonNegative(birth: CalendarDate, today: CalendarDate)
    requires OnOrBefore(birth, today)
    ensures CalculateAge(Some(birth), today).Some?
    ensures CalculateAge(Some(birth), today).value >= 0
  {
    AgeAtLeastIff(birth, today, 0);
  }

  /** On the birthday the age is the year difference; on the day before (same month), one less. */
  lemma AgeAroundBirthday(birth: CalendarDate, year: int)
    ensures CalculateAge(Some(birth), CalendarDate(year, birth.month, birth.day)) == Some(year - birth.year)
    ensures CalculateAge(Some(birth), CalendarDate(year, birth.month, birth.day - 1)) == Some(year - birth.year - 1)
  {
  }

  /** Age never decreases as today moves forward. */
  lemma AgeMonotone(birth: CalendarDate, t1: CalendarDate, t2: CalendarDate)
    requires OnOrBefore(t1, t2)
    ensures CalculateAge(Some(birth), t1).Some? && CalculateAge(Some(birth), t2).Some?
    ensures CalculateAge(Some(birth), t1).value <= CalculateAge(Some(birth), t2).value
  {
    var a := CalculateAge(Some(birth), t1).value;
    AgeAtLeastIff(birth, t1, a);
    AgeAtLeastIff(birth, t2, a);
  }
}
