/**
 * The sign-up form of signup.js: the rule chain of `validateField` for the
 * four inputs, the password-strength meter, what a field's error display
 * becomes after a check, and `handleFormSubmit`, which checks every field
 * before it sends anything.
 */
module Signup {
  import opened Wrappers
  import opened Text
  import opened EmailRule

  /** The four inputs, in the order `Object.values(inputs)` visits them. */
  datatype FieldId = FullName | Email | PasswordField | ConfirmPassword

  const Fields: seq<FieldId> := [FullName, Email, PasswordField, ConfirmPassword]
  const PasswordIndex := 2

  /** Every message `validateField` can set, one per failing rule. */
  datatype SignupError =
    | NameRequired | NameTooShort | NameInvalid
    | BadEmail(problem: EmailProblem)
    | PasswordRequired | PasswordWeak
    | ConfirmRequired | ConfirmMismatch

  /** The text shown for each error. */
  function Message(e: SignupError): string {
    match e
    case NameRequired => "Full name is required"
    case NameTooShort => "Name must be at least 2 characters"
    case NameInvalid => "Please enter a valid name"
    case BadEmail(EmailMissing) => "Email is required"
    case BadEmail(EmailMalformed) => "Please enter a valid email address"
    case PasswordRequired => "Password is required"
    case PasswordWeak => "Must be 8+ chars with uppercase, lowercase, and a number."
    case ConfirmRequired => "Please confirm your password"
    case ConfirmMismatch => "Passwords do not match"
  }

  // ---------------------------------------------------------------------
  // The rule chains
  // ---------------------------------------------------------------------

  /** `/^[a-zA-Z\s]+$/` on a non-empty string: ASCII letters and white space only. */
  predicate NameChars(s: string) {
    forall i :: 0 <= i < |s| ==> IsLetter(s[i]) || IsSpace(s[i])
  }

  /** The full-name chain, on the trimmed value: required, then two characters, then the letters-only pattern. */
  function NameError(value: string): Option<SignupError> {
    var v := Trim(value);
    if v == [] then Some(NameRequired)
    else if |v| < 2 then Some(NameTooShort)
    else if !NameChars(v) then Some(NameInvalid)
    else None
  }

  predicate HasLower(s: string) { exists i :: 0 <= i < |s| && IsLower(s[i]) }
  predicate HasUpper(s: string) { exists i :: 0 <= i < |s| && IsUpper(s[i]) }
  predicate HasDigit(s: string) { exists i :: 0 <= i < |s| && IsDigit(s[i]) }

  /**
   * `/^(?=.*[a-z])(?=.*[A-Z])(?=.*\d).{8,}$/`: `.` does not match a line
   * terminator and `$` is the end of the input, so the whole password is
   * at least eight characters none of which ends a line, and the three
   * look-aheads each find their class somewhere in it.
   */
  predicate PasswordPattern(s: string) {
    && |s| >= 8
    && (forall i :: 0 <= i < |s| ==> !IsLineTerminator(s[i]))
    && HasLower(s) && HasUpper(s) && HasDigit(s)
  }

  /** The password chain, on the raw value: required, then the pattern. */
  function PasswordError(value: string): Option<SignupError> {
    if value == [] then Some(PasswordRequired)
    else if !PasswordPattern(value) then Some(PasswordWeak)
    else None
  }

  /** The confirmation chain: required, then equal to the raw password. */
  function ConfirmError(value: string, password: string): Option<SignupError> {
    if value == [] then Some(ConfirmRequired)
    else if value != password then Some(ConfirmMismatch)
    else None
  }

  /** The message `validateField` sets for one input, given the current password. */
  function FieldError(id: FieldId, value: string, password: string): Option<SignupError> {
    match id
    case FullName => NameError(value)
    case Email => match EmailCheck(value) { case None => None case Some(p) => Some(BadEmail(p)) }
    case PasswordField => PasswordError(value)
    case ConfirmPassword => ConfirmError(value, password)
  }

  /** The chain for input `k` of `values`, against the password among them. */
  function ErrorOf(values: seq<string>, k: nat): Option<SignupError>
    requires |values| == |Fields| && k < |Fields|
  {
    FieldError(Fields[k], values[k], values[PasswordIndex])
  }

  /** Every input passes its chain. */
  predicate AllValid(values: seq<string>)
    requires |values| == |Fields|
  {
    forall k :: 0 <= k < |Fields| ==> FieldError(Fields[k], values[k], values[PasswordIndex]).None?
  }

  // ---------------------------------------------------------------------
  // The strength meter
  // ---------------------------------------------------------------------

  /** The label `updatePasswordStrength` writes; `NoFeedback` is the empty text. */
  datatype Strength = NoFeedback | Weak | Medium | Strong

  /** The counter: one point each for eight characters, an upper-case letter, a lower-case letter and a digit. */
  function Score(p: string): (n: nat)
    ensures n <= 4
  {
    (if |p| >= 8 then 1 else 0) + (if HasUpper(p) then 1 else 0)
    + (if HasLower(p) then 1 else 0) + (if HasDigit(p) then 1 else 0)
  }

  function StrengthOf(p: string): Strength {
    if |p| == 0 then NoFeedback
    else if Score(p) < 3 then Weak
    else if Score(p) < 4 then Medium
    else Strong
  }

  // ---------------------------------------------------------------------
  // The error display
  // ---------------------------------------------------------------------

  /**
   * The display of one input: its `error` and `success` classes, and the
   * text and `show` class of its error element.
   */
  datatype FieldView = FieldView(error: bool, success: bool, message: string, shown: bool)

  const Pristine := FieldView(false, false, "", false)

  /** An error is shown on blur and on submit, and while typing only in a non-empty input that is not of type password. */
  predicate ShowsError(value: string, masked: bool, forceShow: bool) {
    forceShow || (|value| > 0 && !masked)
  }

  /**
   * The display after `validateField`: a shown error drops `success` and
   * sets the message; an error not shown leaves the display alone; a pass
   * clears the error and marks a non-blank input as a success.
   */
  function Revalidated(v: FieldView, err: Option<SignupError>, value: string, masked: bool, forceShow: bool): FieldView {
    match err
    case Some(e) =>
      if ShowsError(value, masked, forceShow) then FieldView(true, false, Message(e), true) else v
    case None => FieldView(false, v.success || Trim(value) != [], "", false)
  }

  /** The fields `handleFormSubmit` posts: the trimmed name and e-mail, and the password as typed. */
  datatype SignupRequest = SignupRequest(name: string, email: string, password: string)

  // ---------------------------------------------------------------------
  // Properties of the rules
  // ---------------------------------------------------------------------

  /**
   * The name chain reports the first rule that fails: blank, then a single
   * character, then a character other than a letter or white space; a name
   * that passes starts and ends with a letter.
   */
  lemma NameRules(value: string)
    ensures NameError(value) == Some(NameRequired) <==> Trim(value) == []
    ensures NameError(value) == Some(NameTooShort) <==> |Trim(value)| == 1
    ensures NameError(value) == Some(NameInvalid) <==> |Trim(value)| >= 2 && !NameChars(Trim(value))
    ensures NameError(value) == None ==>
      var v := Trim(value); |v| >= 2 && IsLetter(v[0]) && IsLetter(v[|v| - 1])
  {
    TrimSpec(value);
  }

  /** The e-mail input passes exactly when its trimmed value matches the address pattern. */
  lemma EmailFieldRule(value: string)
    ensures FieldError(Email, value, "") == None <==> MatchesEmailPattern(Trim(value))
    ensures FieldError(Email, value, "") == Some(BadEmail(EmailMissing)) <==> Trim(value) == []
  {
    EmailCheckIff(value);
  }

  /** A password passes exactly when it has eight characters, no line break, and a lower-case letter, an upper-case letter and a digit. */
  lemma PasswordRule(value: string)
    ensures PasswordError(value) == None <==>
      && |value| >= 8 && (forall i :: 0 <= i < |value| ==> !IsLineTerminator(value[i]))
      && (exists i :: 0 <= i < |value| && IsLower(value[i]))
      && (exists i :: 0 <= i < |value| && IsUpper(value[i]))
      && (exists i :: 0 <= i < |value| && IsDigit(value[i]))
    ensures PasswordError(value) == Some(PasswordRequired) <==> value == []
  {
  }

  /** The confirmation passes exactly when it is the password, and the password is not empty. */
  lemma ConfirmRule(value: string, password: string)
    ensures ConfirmError(value, password) == None <==> value == password && password != []
  {
  }

  /** Every password the form accepts is rated Strong. */
  lemma ValidPasswordIsStrong(p: string)
    requires PasswordError(p) == None
    ensures StrengthOf(p) == Strong
  {
  }

  /** The converse fails: a password with a line break can be rated Strong and still be refused. */
  lemma StrongPasswordRefused()
    ensures StrengthOf("Abcdefg1\n") == Strong && PasswordError("Abcdefg1\n") == Some(PasswordWeak)
  {
    var p := "Abcdefg1\n";
    assert IsUpper(p[0]) && IsLower(p[1]) && IsDigit(p[7]) && IsLineTerminator(p[8]);
  }

  /** The label counts the criteria met: empty, fewer than three, three, or all four. */
  lemma StrengthLabels(p: string)
    ensures StrengthOf(p) == NoFeedback <==> p == []
    ensures StrengthOf(p) == Weak <==> p != [] && Score(p) <= 2
    ensures StrengthOf(p) == Medium <==> p != [] && Score(p) == 3
    ensures StrengthOf(p) == Strong <==> |p| >= 8 && HasUpper(p) && HasLower(p) && HasDigit(p)
  {
  }

  /**
   * On blur and on submit an invalid input always shows its message; while
   * typing, a password-type input and an empty input keep their display,
   * and a valid input always has its error cleared.
   */
  lemma DisplayRules(v: FieldView, err: Option<SignupError>, value: string, masked: bool)
    ensures err.Some? ==> Revalidated(v, err, value, masked, true) == FieldView(true, false, Message(err.value), true)
    ensures err.Some? && (masked || value == []) ==> Revalidated(v, err, value, masked, false) == v
    ensures forall f :: err.None? ==> var r := Revalidated(v, err, value, masked, f);
      !r.error && !r.shown && r.message == "" && (r.success <==> v.success || Trim(value) != [])
  {
  }

  // ---------------------------------------------------------------------
  // The form
  // ---------------------------------------------------------------------

  class SignupForm {
    /** The inputs' values, in the order of `Fields`. */
    var values: seq<string>
    /** Whether each input has type password; the visibility toggles are not modelled. */
    const masked: seq<bool>
    var views: seq<FieldView>
    var strength: Strength
    /** The submit button shows its loading state. */
    var busy: bool

    ghost predicate Valid()
      reads this
    {
      |values| == |Fields| && |masked| == |Fields| && |views| == |Fields|
    }

    /** The page as loaded: empty inputs, the two password inputs masked, nothing shown. */
    constructor ()
      ensures Valid()
      ensures values == ["", "", "", ""] && masked == [false, false, true, true]
      ensures views == [Pristine, Pristine, Pristine, Pristine]
      ensures strength == NoFeedback && !busy
    {
      values := ["", "", "", ""];
      masked := [false, false, true, true];
      views := [Pristine, Pristine, Pristine, Pristine];
      strength := NoFeedback;
      busy := false;
    }

    /**
     * `validateField(input, forceShow)`: passes exactly when the input's
     * chain sets no message; redraws only that input's display; the
     * password input also updates the strength meter.
     */
    method ValidateField(k: nat, forceShow: bool) returns (valid: bool)
      requires Valid() && k < |Fields|
      modifies this`views, this`strength
      ensures Valid()
      ensures valid <==> ErrorOf(values, k).None?
      ensures views == old(views)[k := Revalidated(old(views)[k], ErrorOf(values, k), values[k], masked[k], forceShow)]
      ensures strength == if k == PasswordIndex then StrengthOf(values[k]) else old(strength)
    {
      if k == PasswordIndex {
        strength := StrengthOf(values[k]);
      }
      var err := ErrorOf(values, k);
      views := views[k := Revalidated(views[k], err, values[k], masked[k], forceShow)];
      valid := err.None?;
    }

    /** The `input` listener: the new value is checked without forcing the error to show. */
    method Input(k: nat, text: string) returns (valid: bool)
      requires Valid() && k < |Fields|
      modifies this`values, this`views, this`strength
      ensures Valid() && values == old(values)[k := text]
      ensures valid <==> ErrorOf(values, k).None?
      ensures views == old(views)[k := Revalidated(old(views)[k], ErrorOf(values, k), text, masked[k], false)]
      ensures strength == if k == PasswordIndex then StrengthOf(text) else old(strength)
    {
      values := values[k := text];
      valid := ValidateField(k, false);
    }

    /**
     * `handleFormSubmit`: every input is checked with its error forced to
     * show, none skipped after a failure; only when all pass does the
     * button enter its loading state and the request go out.
     */
    method Submit() returns (request: Option<SignupRequest>)
      requires Valid()
      modifies this`views, this`strength, this`busy
      ensures Valid()
      ensures request.Some? <==> AllValid(values)
      ensures request.Some? ==> request.value == SignupRequest(Trim(values[0]), Trim(values[1]), values[PasswordIndex])
      ensures forall k :: 0 <= k < |Fields| ==>
        views[k] == Revalidated(old(views)[k], ErrorOf(values, k), values[k], masked[k], true)
      ensures strength == StrengthOf(values[PasswordIndex])
      ensures busy == (request.Some? || old(busy))
    {
      var formValid := true;
      var k := 0;
      while k < |Fields|
        invariant 0 <= k <= |Fields| && Valid()
        invariant formValid <==> forall j :: 0 <= j < k ==> ErrorOf(values, j).None?
        invariant forall j :: 0 <= j < k ==> views[j] == Revalidated(old(views)[j], ErrorOf(values, j), values[j], masked[j], true)
        invariant forall j :: k <= j < |Fields| ==> views[j] == old(views)[j]
        invariant strength == if k > PasswordIndex then StrengthOf(values[PasswordIndex]) else old(strength)
        invariant busy == old(busy)
      {
        var ok := ValidateField(k, true);
        if !ok {
          formValid := false;
        }
        k := k + 1;
      }
      if !formValid {
        return None;
      }
      busy := true;
      request := Some(SignupRequest(Trim(values[0]), Trim(values[1]), values[PasswordIndex]));
    }

    /**
     * The server refused the request: "Email already exists" is shown under
     * the e-mail input, any other refusal only alerts; the button is reset.
     */
    method Refused(detail: Option<string>)
      requires Valid()
      modifies this`views, this`busy
      ensures Valid() && !busy
      ensures views == if detail == Some("Email already exists")
        then old(views)[1 := FieldView(true, false, "An account with this email already exists.", true)]
        else old(views)
    {
      if detail == Some("Email already exists") {
        views := views[1 := FieldView(true, false, "An account with this email already exists.", true)];
      }
      busy := false;
    }

    /** The server could not be reached: an alert, and the button is reset. */
    method Unreachable()
      modifies this`busy
      ensures !busy
    {
      busy := false;
    }
  }
}
