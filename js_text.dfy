/**
 * The few pieces of ECMAScript string semantics the form validators rely on:
 * which characters `.` matches in a regular expression without the `s` flag,
 * and what `String.prototype.trim` removes.
 */
module JsText {

  /** ECMAScript LineTerminator: LF, CR, LINE SEPARATOR, PARAGRAPH SEPARATOR. */
  predicate IsLineTerminator(c: char) {
    c == '\n' || c == '\r' || c == '\U{2028}' || c == '\U{2029}'
  }

  /** The regular-expression atom `.` (no `s` flag) matches every character but a line terminator. */
  predicate MatchesDot(c: char) {
    !IsLineTerminator(c)
  }

  /** ECMAScript WhiteSpace: TAB, VT, FF, ZWNBSP and the Unicode space separators (category Zs). */
  predicate IsWhiteSpace(c: char) {
    c == '\t' || c == '\U{000B}' || c == '\U{000C}' || c == '\U{FEFF}'
    || c == ' ' || c == '\U{00A0}' || c == '\U{1680}'
    || ('\U{2000}' <= c <= '\U{200A}')
    || c == '\U{202F}' || c == '\U{205F}' || c == '\U{3000}'
  }

  /** What `trim` strips from either end of a string. */
  predicate IsTrimmable(c: char) {
    IsWhiteSpace(c) || IsLineTerminator(c)
  }

  /** A string that is empty or made only of white space and line terminators. */
  predicate IsBlank(s: string) {
    forall k | 0 <= k < |s| :: IsTrimmable(s[k])
  }

  /** The index of the first non-trimmable character at or after `i`, or `|s|` when there is none. */
  function LeadingEnd(s: string, i: nat): (j: nat)
    requires i <= |s|
    ensures i <= j <= |s|
    ensures forall k | i <= k < j :: IsTrimmable(s[k])
    ensures j < |s| ==> !IsTrimmable(s[j])
    decreases |s| - i
  {
    if i < |s| && IsTrimmable(s[i]) then LeadingEnd(s, i + 1) else i
  }

  /** The index just past the last non-trimmable character before `j`, or 0 when there is none. */
  function TrailingStart(s: string, j: nat): (i: nat)
    requires j <= |s|
    ensures i <= j
    ensures forall k | i <= k < j :: IsTrimmable(s[k])
    ensures i > 0 ==> !IsTrimmable(s[i - 1])
  {
    if j > 0 && IsTrimmable(s[j - 1]) then TrailingStart(s, j - 1) else j
  }

  /** Drops the leading white space. */
  function TrimStart(s: string): string {
    s[LeadingEnd(s, 0)..]
  }

  /** Drops the trailing white space. */
  function TrimEnd(s: string): string {
    s[..TrailingStart(s, |s|)]
  }

  /** `String.prototype.trim`. */
  function Trim(s: string): string {
    TrimEnd(TrimStart(s))
  }

  /** Trim leaves a contiguous slice of `s` with only trimmable characters cut away on either side,
      and the slice neither starts nor ends with a trimmable character. */
  lemma TrimIsSlice(s: string)
    ensures exists i, j | 0 <= i <= j <= |s| ::
      Trim(s) == s[i..j] && IsBlank(s[..i]) && IsBlank(s[j..])
    ensures Trim(s) != [] ==> !IsTrimmable(Trim(s)[0]) && !IsTrimmable(Trim(s)[|Trim(s)| - 1])
  {
    var i := LeadingEnd(s, 0);
    var t := s[i..];
    var m := TrailingStart(t, |t|);
    var j := i + m;
    assert Trim(s) == s[i..j];
    assert IsBlank(s[..i]);
    forall k | 0 <= k < |s| - j ensures IsTrimmable(s[j..][k]) {
      assert s[j..][k] == t[m + k];
    }
    if m > 0 {
      assert Trim(s)[0] == s[i];
      assert Trim(s)[m - 1] == t[m - 1];
    }
  }

  /** `s.trim()` is falsy (the empty string) exactly when `s` is blank. */
  lemma TrimEmptyIffBlank(s: string)
    ensures Trim(s) == [] <==> IsBlank(s)
  {
    var i := LeadingEnd(s, 0);
    var t := s[i..];
    if i < |s| {
      assert t[0] == s[i];
      assert !IsBlank(s);
    }
  }

  /** Trimming twice is trimming once. */
  lemma TrimIdempotent(s: string)
    ensures Trim(Trim(s)) == Trim(s)
  {
    var r := Trim(s);
    TrimIsSlice(s);
    if r != [] {
      assert LeadingEnd(r, 0) == 0;
      assert TrimStart(r) == r;
      assert TrailingStart(r, |r|) == |r|;
    }
  }
}
