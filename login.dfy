/**
 * The log-in form of login.js: the rule chain of `validateField` on the
 * trimmed value of each input, when an error is shown, and
 * `handleFormSubmit`, which checks both inputs and sends the trimmed
 * e-mail with the password exactly as typed.
 */
module Login {
  import opened Wrappers
  import opened Text
  import opened EmailRule

  datatype FieldId = Email | Password

  /** Every message `validateField` can set. */
  datatype LoginError = BadEmail(problem: EmailProblem) | PasswordRequired | PasswordTooShort

  function Message(e: LoginError): string {
    match e
    case BadEmail(EmailMissing) => "Email is required"
    case BadEmail(EmailMalformed) => "Please enter a valid email address"
    case PasswordRequired => "Password is required"
    case PasswordTooShort => "Password must be at least 6 characters"
  }

  /** The password chain on the trimmed value: required, then six characters. */
  function PasswordError(value: string): Option<LoginError> {
    var v := Trim(value);
    if v == [] then Some(PasswordRequired)
    else if |v| < 6 then Some(PasswordTooShort)
    else None
  }

  /** The message `validateField` sets for one input. */
  function FieldError(id: FieldId, value: string): Option<LoginError> {
    match id
    case Email => match EmailCheck(value) { case None => None case Some(p) => Some(BadEmail(p)) }
    case Password => PasswordError(value)
  }

  /** The text and `show` class of the error element, and the input's `error` class. */
  datatype FieldView = FieldView(error: bool, message: string, shown: bool)

  const Pristine := FieldView(false, "", false)

  /** `showError`. */
  function ShowError(message: string): FieldView {
    FieldView(true, message, true)
  }

  /**
   * The display after `validateField`: an error is shown when forced or
   * when the trimmed value is not blank, and otherwise left as it was; a
   * pass clears the error.
   */
  function Revalidated(v: FieldView, err: Option<LoginError>, value: string, forceShow: bool): FieldView {
    match err
    case Some(e) => if forceShow || Trim(value) != [] then ShowError(Message(e)) else v
    case None => Pristine
  }

  /** The body of the `/login` request. */
  datatype LoginRequest = LoginRequest(email: string, password: string)

  /** The password passes exactly when at least six characters remain after trimming. */
  lemma PasswordRule(value: string)
    ensures PasswordError(value) == None <==> |Trim(value)| >= 6
    ensures PasswordError(value) == Some(PasswordRequired) <==> Trim(value) == []
  {
  }

  /** The e-mail input passes exactly when its trimmed value matches the address pattern. */
  lemma EmailFieldRule(value: string)
    ensures FieldError(Email, value) == None <==> MatchesEmailPattern(Trim(value))
  {
    EmailCheckIff(value);
  }

  /**
   * Blanks around the password count for nothing: "     x" is too short
   * even though it has six characters, yet it is sent with its blanks.
   */
  lemma BlanksDoNotCount()
    ensures PasswordError("     x") == Some(PasswordTooShort)
  {
    TrimSpec("     x");
    assert IsSpace("     x"[0]);
  }

  /**
   * An invalid input shows its message exactly when forced or when it is
   * not blank, and otherwise keeps its display; a valid input is cleared.
   */
  lemma DisplayRules(v: FieldView, err: Option<LoginError>, value: string, forceShow: bool)
    ensures err.Some? && (forceShow || Trim(value) != []) ==> Revalidated(v, err, value, forceShow) == ShowError(Message(err.value))
    ensures err.Some? && !forceShow && Trim(value) == [] ==> Revalidated(v, err, value, forceShow) == v
    ensures err.None? ==> !Revalidated(v, err, value, forceShow).shown && !Revalidated(v, err, value, forceShow).error
  {
  }

  class LoginForm {
    var email: string
    var password: string
    var emailView: FieldView
    var passwordView: FieldView
    /** The submit button shows its loading state. */
    var busy: bool

    constructor ()
      ensures email == [] && password == [] && emailView == Pristine && passwordView == Pristine && !busy
    {
      email, password := [], [];
      emailView, passwordView := Pristine, Pristine;
      busy := false;
    }

    /** `validateField(emailInput, forceShow)`. */
    method ValidateEmail(forceShow: bool) returns (valid: bool)
      modifies this`emailView
      ensures valid <==> FieldError(Email, email).None?
      ensures emailView == Revalidated(old(emailView), FieldError(Email, email), email, forceShow)
    {
      var err := FieldError(Email, email);
      emailView := Revalidated(emailView, err, email, forceShow);
      valid := err.None?;
    }

    /** `validateField(passwordInput, forceShow)`. */
    method ValidatePassword(forceShow: bool) returns (valid: bool)
      modifies this`passwordView
      ensures valid <==> FieldError(Password, password).None?
      ensures passwordView == Revalidated(old(passwordView), FieldError(Password, password), password, forceShow)
    {
      var err := FieldError(Password, password);
      passwordView := Revalidated(passwordView, err, password, forceShow);
      valid := err.None?;
    }

    /** The `input` listener on the e-mail input: the new value is checked without forcing its error to show. */
    method InputEmail(text: string) returns (valid: bool)
      modifies this`email, this`emailView
      ensures email == text
      ensures valid <==> FieldError(Email, text).None?
      ensures emailView == Revalidated(old(emailView), FieldError(Email, text), text, false)
    {
      email := text;
      valid := ValidateEmail(false);
    }

    /** The `input` listener on the password input. */
    method InputPassword(text: string) returns (valid: bool)
      modifies this`password, this`passwordView
      ensures password == text
      ensures valid <==> FieldError(Password, text).None?
      ensures passwordView == Revalidated(old(passwordView), FieldError(Password, text), text, false)
    {
      password := text;
      valid := ValidatePassword(false);
    }

    /**
     * `handleFormSubmit`: both inputs are checked, with their errors forced
     * to show, before either result is used; the request goes out only when
     * both pass, with the e-mail trimmed and the password as typed.
     */
    method Submit() returns (request: Option<LoginRequest>)
      modifies this`emailView, this`passwordView, this`busy
      ensures request.Some? <==> FieldError(Email, email).None? && FieldError(Password, password).None?
      ensures request.Some? ==> request.value == LoginRequest(Trim(email), password)
      ensures emailView == Revalidated(old(emailView), FieldError(Email, email), email, true)
      ensures passwordView == Revalidated(old(passwordView), FieldError(Password, password), password, true)
      ensures busy == (request.Some? || old(busy))
    {
      var isEmailValid := ValidateEmail(true);
      var isPasswordValid := ValidatePassword(true);
      if !isEmailValid || !isPasswordValid {
        return None;
      }
      busy := true;
      request := Some(LoginRequest(Trim(email), password));
    }

    /** The server refused: its `detail`, or the default text, is shown under the e-mail input, and the button is reset. */
    method Refused(detail: string)
      modifies this`emailView, this`busy
      ensures emailView == ShowError(if detail != [] then detail else "Login failed. Please check your credentials.")
      ensures !busy
    {
      emailView := ShowError(if detail != [] then detail else "Login failed. Please check your credentials.");
      busy := false;
    }

    /** The server could not be reached: the apology goes under the e-mail input, and the button is reset. */
    method Unreachable()
      modifies this`emailView, this`busy
      ensures emailView == ShowError("An unexpected error occurred. Please try again.")
      ensures !busy
    {
      emailView := ShowError("An unexpected error occurred. Please try again.");
      busy := false;
    }
  }
}
