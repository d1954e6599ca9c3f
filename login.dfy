/**
 * The log-in screen: the two checks run before the sign-in call, and what the
 * screen shows when the call fails or succeeds.
 */
module Login {
  import opened TextUtil

  const InvalidEmailError := -2
  const InvalidInformationError := -1
  /** The value that animates the loading indicator while the sign-in call runs. */
  const Loading := 1

  /** What `isFormValid` returns, with the value it leaves in `viewError`. */
  datatype Check = Check(valid: bool, viewError: int)

  /**
   * `isFormValid`: an e-mail without '@' gives -2 first; then an empty e-mail or
   * a password under 8 UTF-16 code units gives -1; otherwise the form is valid and the
   * loading indicator is switched on.
   */
  function IsFormValid(email: string, password: string): (r: Check)
    ensures !Contains(email, "@") ==> r == Check(false, InvalidEmailError)
    ensures Contains(email, "@") && Utf16Length(password) < 8 ==> r == Check(false, InvalidInformationError)
    ensures r.valid <==> Contains(email, "@") && Utf16Length(password) >= 8
    ensures r.valid ==> r.viewError == Loading
    ensures !r.valid ==> r.viewError in {InvalidEmailError, InvalidInformationError}
  {
    if !Contains(email, "@") then Check(false, InvalidEmailError)
    else if email == "" || Utf16Length(password) < 8 then Check(false, InvalidInformationError)
    else Check(true, Loading)
  }

  /**
   * The `email === ""` test is never the one that decides: an empty e-mail has
   * no '@' and is caught first, so it always shows -2, and -1 means exactly an
   * e-mail holding '@' with a short password.
   */
  lemma EmptyEmailShadowed(password: string)
    ensures IsFormValid("", password) == Check(false, InvalidEmailError)
  {
    ContainsChar("", '@');
  }

  lemma InvalidInformationMeansShortPassword(email: string, password: string)
    ensures IsFormValid(email, password).viewError == InvalidInformationError <==> '@' in email && Utf16Length(password) < 8
    ensures IsFormValid(email, password).viewError == InvalidEmailError <==> '@' !in email
  {
    ContainsChar(email, '@');
    assert "@" == ['@'];
  }

  /**
   * The length is JavaScript's: four characters beyond U+FFFF (emoji) make
   * 8 code units, and such a password passes.
   */
  lemma FourEmojiPasswordAccepted(email: string)
    requires '@' in email
    ensures IsFormValid(email, "\U{1F511}\U{1F511}\U{1F511}\U{1F511}") == Check(true, Loading)
  {
    Utf16LengthOfAstral("\U{1F511}\U{1F511}\U{1F511}\U{1F511}");
    ContainsChar(email, '@');
    assert "@" == ['@'];
  }

  /** Where a press of the log-in button ends: the value of `viewError` and whether it navigated on. */
  datatype LoginEnd = LoginEnd(viewError: int, navigated: bool)

  /**
   * The log-in button: `handleSignIn` runs only on a valid form; a failed
   * sign-in (whatever the error) shows -1, a successful one navigates on and
   * resets the error to 0.
   */
  function Press(email: string, password: string, signInSucceeds: bool): (r: LoginEnd)
    ensures r.navigated <==> IsFormValid(email, password).valid && signInSucceeds
    ensures !IsFormValid(email, password).valid ==> r == LoginEnd(IsFormValid(email, password).viewError, false)
    ensures IsFormValid(email, password).valid && !signInSucceeds ==> r.viewError == InvalidInformationError
    ensures r.navigated ==> r.viewError == 0
  {
    var check := IsFormValid(email, password);
    if !check.valid then LoginEnd(check.viewError, false)
    else if signInSucceeds then LoginEnd(0, true)
    else LoginEnd(InvalidInformationError, false)
  }

  /** A press never navigates on without an '@' in the e-mail and a password of 8 code units. */
  lemma NavigationNeedsWellFormedInput(email: string, password: string, signInSucceeds: bool)
    ensures Press(email, password, signInSucceeds).navigated ==> '@' in email && Utf16Length(password) >= 8
  {
    ContainsChar(email, '@');
    assert "@" == ['@'];
  }
}
