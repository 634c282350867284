/**
 * The e-mail rule shared by the sign-up and log-in forms: the regular
 * expression /^[^\s@]+@[^\s@]+\.[^\s@]+$/ tested against the trimmed input.
 */
module EmailRule {
  import opened Wrappers
  import opened Text

  /** A character the class `[^\s@]` admits. */
  predicate IsAddressChar(c: char) {
    !IsSpace(c) && c != '@'
  }

  /**
   * One way the regular expression can match `s`: the `@` at `at`, the
   * `\.` at `dot`, every one of the three `+` runs non-empty, and every
   * other character admitted by `[^\s@]`.
   */
  ghost predicate EmailSplit(s: string, at: int, dot: int) {
    && 1 <= at && at + 2 <= dot && dot + 2 <= |s|
    && s[at] == '@' && s[dot] == '.'
    && forall i :: 0 <= i < |s| && i != at ==> IsAddressChar(s[i])
  }

  /** What the regular expression accepts. */
  ghost predicate MatchesEmailPattern(s: string) {
    exists at, dot :: EmailSplit(s, at, dot)
  }

  /** The offset of the first `c` in `s`, if any. */
  function IndexOf(s: string, c: char): (r: Option<nat>)
    ensures r.Some? ==> r.value < |s| && s[r.value] == c && forall i :: 0 <= i < r.value ==> s[i] != c
    ensures r.None? ==> forall i :: 0 <= i < |s| ==> s[i] != c
  {
    if s == [] then None
    else if s[0] == c then Some(0)
    else match IndexOf(s[1..], c)
      case None => None
      case Some(k) => Some(k + 1)
  }

  /**
   * The address test, written out: no white space anywhere, exactly one `@`
   * with something before it, and after it a `.` that is neither the first
   * nor the last character of the domain.
   */
  predicate IsEmail(s: string) {
    match IndexOf(s, '@')
    case None => false
    case Some(at) =>
      && 0 < at
      && (forall i :: 0 <= i < |s| ==> !IsSpace(s[i]))
      && (forall i :: at < i < |s| ==> s[i] != '@')
      && (exists dot :: at + 1 < dot < |s| - 1 && s[dot] == '.')
  }

  /** The written-out test accepts exactly what the regular expression accepts. */
  lemma EmailPatternIff(s: string)
    ensures IsEmail(s) <==> MatchesEmailPattern(s)
  {
    if IsEmail(s) {
      var at := IndexOf(s, '@').value;
      var dot :| at + 1 < dot < |s| - 1 && s[dot] == '.';
      assert EmailSplit(s, at, dot);
    }
    if MatchesEmailPattern(s) {
      var at, dot :| EmailSplit(s, at, dot);
      assert IndexOf(s, '@') == Some(at) by {
        assert forall i :: 0 <= i < at ==> s[i] != '@' by {
          forall i | 0 <= i < at ensures s[i] != '@' { assert IsAddressChar(s[i]); }
        }
      }
      forall i | 0 <= i < |s| ensures !IsSpace(s[i]) {
        if i != at { assert IsAddressChar(s[i]); }
      }
      forall i | at < i < |s| ensures s[i] != '@' { assert IsAddressChar(s[i]); }
    }
  }

  /** Why an e-mail field is rejected. */
  datatype EmailProblem = EmailMissing | EmailMalformed

  /** The e-mail branch of both forms' `validateField`: required, then the pattern, both on the trimmed value. */
  function EmailCheck(value: string): Option<EmailProblem> {
    var v := Trim(value);
    if v == [] then Some(EmailMissing)
    else if !IsEmail(v) then Some(EmailMalformed)
    else None
  }

  /**
   * An e-mail field passes exactly when its trimmed value matches the
   * pattern, and it is reported missing exactly when it is blank.
   */
  lemma EmailCheckIff(value: string)
    ensures EmailCheck(value) == None <==> MatchesEmailPattern(Trim(value))
    ensures EmailCheck(value) == Some(EmailMissing) <==> Trim(value) == []
  {
    EmailPatternIff(Trim(value));
  }
}
