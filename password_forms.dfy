/**
 * The password forms' submit handlers: change password
 * (`src/pages/user/ChangePasswordPage.jsx`), reset password
 * (`src/pages/ResetPasswordPage.jsx`) and registration
 * (`src/components/auth/RegisterForm.jsx`). Each is a chain of guards that
 * reports only the first failing rule, and otherwise submits a request.
 */
module PasswordForms {
  import opened Wrappers
  import opened Text
  import opened ValidationSchemas

  /** The result of a submit: the one error shown, or the request sent. */
  datatype Outcome<T> = Rejected(error: string) | Submitted(request: T)

  const MSG_UPPER := "Password must contain at least one uppercase letter"
  const MSG_LOWER := "Password must contain at least one lowercase letter"
  const MSG_DIGIT := "Password must contain at least one number"
  const MSG_SPECIAL := "Password must contain at least one special character"
  const MSG_SAME := "New password must be different from current password"
  const MSG_CHANGE_MISMATCH := "New passwords do not match"
  const MSG_MISMATCH := "Passwords do not match"

  function TooShortMessage(minLength: nat): string {
    if minLength == 12 then "Password must be at least 12 characters long"
    else "Password must be at least 8 characters long"
  }

  /** The strength rules shared by the three forms, in their order; `None` when all pass. */
  function StrengthError(password: string, minLength: nat): (r: Option<string>)
    ensures r.None? <==> StrongEnough(password, minLength)
  {
    if |password| < minLength then Some(TooShortMessage(minLength))
    else if !Has(password, UpperLetter) then Some(MSG_UPPER)
    else if !Has(password, LowerLetter) then Some(MSG_LOWER)
    else if !Has(password, Digit) then Some(MSG_DIGIT)
    else if !Has(password, Special) then Some(MSG_SPECIAL)
    else None
  }

  /** The rules as one condition. */
  predicate StrongEnough(password: string, minLength: nat) {
    && |password| >= minLength && Has(password, UpperLetter) && Has(password, LowerLetter)
    && Has(password, Digit) && Has(password, Special)
  }

  /** Only the first failing rule is reported: each message implies the earlier rules passed. */
  lemma StrengthErrorIsFirstFailure(password: string, minLength: nat)
    ensures StrengthError(password, minLength) == Some(MSG_UPPER) <==>
      |password| >= minLength && !Has(password, UpperLetter)
    ensures StrengthError(password, minLength) == Some(MSG_LOWER) <==>
      |password| >= minLength && Has(password, UpperLetter) && !Has(password, LowerLetter)
    ensures StrengthError(password, minLength) == Some(MSG_DIGIT) <==>
      |password| >= minLength && Has(password, UpperLetter) && Has(password, LowerLetter) && !Has(password, Digit)
    ensures StrengthError(password, minLength) == Some(MSG_SPECIAL) <==>
      |password| >= minLength && Has(password, UpperLetter) && Has(password, LowerLetter)
      && Has(password, Digit) && !Has(password, Special)
  {
    assert MSG_UPPER != MSG_LOWER && MSG_UPPER != MSG_DIGIT && MSG_UPPER != MSG_SPECIAL;
    assert MSG_LOWER != MSG_DIGIT && MSG_LOWER != MSG_SPECIAL && MSG_DIGIT != MSG_SPECIAL;
    assert MSG_UPPER[30] != TooShortMessage(minLength)[30];
    assert MSG_LOWER[30] != TooShortMessage(minLength)[30];
    assert MSG_DIGIT[30] != TooShortMessage(minLength)[30];
    assert MSG_SPECIAL[30] != TooShortMessage(minLength)[30];
  }

  // change password -------------------------------------------------------

  datatype ChangePasswordRequest = ChangePasswordRequest(currentPassword: string, newPassword: string)

  function ChangePasswordSubmit(currentPassword: string, newPassword: string, confirmPassword: string): Outcome<ChangePasswordRequest> {
    if newPassword != confirmPassword then Rejected(MSG_CHANGE_MISMATCH)
    else if StrengthError(newPassword, 12).Some? then Rejected(StrengthError(newPassword, 12).value)
    else if newPassword == currentPassword then Rejected(MSG_SAME)
    else Submitted(ChangePasswordRequest(currentPassword, newPassword))
  }

  /**
   * The mutation runs exactly when the confirmation matches, the new
   * password passes every strength rule and differs from the current one;
   * it sends the current and the new password only.
   */
  lemma ChangePasswordSubmitsIff(current: string, newPassword: string, confirm: string)
    ensures ChangePasswordSubmit(current, newPassword, confirm).Submitted? <==>
      newPassword == confirm && StrongEnough(newPassword, 12) && newPassword != current
    ensures ChangePasswordSubmit(current, newPassword, confirm).Submitted? ==>
      ChangePasswordSubmit(current, newPassword, confirm).request == ChangePasswordRequest(current, newPassword)
  {
  }

  /** A mismatch is reported before any strength rule, and reuse of the current password after all of them. */
  lemma ChangePasswordOrder(current: string, newPassword: string, confirm: string)
    ensures newPassword != confirm ==> ChangePasswordSubmit(current, newPassword, confirm) == Rejected(MSG_CHANGE_MISMATCH)
    ensures newPassword == confirm && newPassword == current && StrongEnough(newPassword, 12) ==>
      ChangePasswordSubmit(current, newPassword, confirm) == Rejected(MSG_SAME)
    ensures newPassword == confirm && !StrongEnough(newPassword, 12) ==>
      ChangePasswordSubmit(current, newPassword, confirm) == Rejected(StrengthError(newPassword, 12).value)
  {
  }

  /**
   * The form's rules and the schema's pattern differ on line breaks: the
   * form accepts a strong password containing a line feed, which the
   * change-password schema rejects.
   */
  lemma ChangeFormAcceptsWhatSchemaRejects()
    ensures ChangePasswordSubmit("old", "Abcdefghij1!\n", "Abcdefghij1!\n").Submitted?
    ensures !PasswordPattern("Abcdefghij1!\n")
  {
    var p := "Abcdefghij1!\n";
    assert InClass(UpperLetter, p[0]) && InClass(LowerLetter, p[1]);
    assert InClass(Digit, p[10]) && InClass(Special, p[11]);
    assert InClass(LineTerminator, p[12]);
  }

  // reset password --------------------------------------------------------

  datatype ResetRequest = ResetRequest(token: string, password: string)

  /** Without a truthy `token` query parameter, the invalid-link view replaces the form. */
  datatype ResetView = InvalidLink | ResetForm(token: string)

  function ResetPageView(token: Option<string>): ResetView {
    if Truthy(token) then ResetForm(token.value) else InvalidLink
  }

  /** The reset form's submit; only reachable while the form is shown, so with a token. */
  function ResetSubmit(token: string, password: string, confirmPassword: string): Outcome<ResetRequest> {
    if password != confirmPassword then Rejected(MSG_MISMATCH)
    else if StrengthError(password, 12).Some? then Rejected(StrengthError(password, 12).value)
    else Submitted(ResetRequest(token, password))
  }

  /**
   * The reset is sent exactly when the confirmation matches and the password
   * passes the strength rules, with the link's token; there is no
   * comparison with any previous password.
   */
  lemma ResetSubmitsIff(token: string, password: string, confirm: string)
    ensures ResetSubmit(token, password, confirm).Submitted? <==> password == confirm && StrongEnough(password, 12)
    ensures ResetSubmit(token, password, confirm).Submitted? ==>
      ResetSubmit(token, password, confirm).request == ResetRequest(token, password)
    ensures password != confirm ==> ResetSubmit(token, password, confirm) == Rejected(MSG_MISMATCH)
  {
  }

  /**
   * The form is shown exactly when the link carries a truthy token, and a
   * reset sent from it carries that same, non-empty token.
   */
  lemma ResetSendsLinkToken(query: Option<string>, password: string, confirm: string)
    ensures ResetPageView(query).ResetForm? <==> Truthy(query)
    ensures ResetPageView(query).ResetForm? ==>
      var sent := ResetSubmit(ResetPageView(query).token, password, confirm);
      sent.Submitted? ==> sent.request.token == query.value && sent.request.token != ""
  {
  }

  // registration ------------------------------------------------------------

  /** The registration form data; `captchaToken` starts as the development placeholder. */
  datatype RegisterForm = RegisterForm(
    email: string, password: string, confirmPassword: string, firstName: string, lastName: string, captchaToken: string)

  const DEV_CAPTCHA := "dev_token"

  function InitialRegisterForm(): RegisterForm {
    RegisterForm("", "", "", "", "", DEV_CAPTCHA)
  }

  /** The whole form data, confirmation and CAPTCHA token included, is what gets sent. */
  function RegisterSubmit(f: RegisterForm): Outcome<RegisterForm> {
    if f.password != f.confirmPassword then Rejected(MSG_MISMATCH)
    else if StrengthError(f.password, 8).Some? then Rejected(StrengthError(f.password, 8).value)
    else Submitted(f)
  }

  lemma RegisterSubmitsIff(f: RegisterForm)
    ensures RegisterSubmit(f).Submitted? <==> f.password == f.confirmPassword && StrongEnough(f.password, 8)
    ensures RegisterSubmit(f).Submitted? ==> RegisterSubmit(f).request == f
    ensures f.password != f.confirmPassword ==> RegisterSubmit(f) == Rejected(MSG_MISMATCH)
  {
  }

  /**
   * The untouched form is refused for its empty password, and whatever the
   * user types into the text fields, a registration that is sent carries the
   * development CAPTCHA placeholder.
   */
  lemma RegisterSendsPlaceholderCaptcha(email: string, password: string, confirm: string, firstName: string, lastName: string)
    ensures RegisterSubmit(InitialRegisterForm()) == Rejected(TooShortMessage(8))
    ensures var f := InitialRegisterForm().(email := email, password := password, confirmPassword := confirm,
                                           firstName := firstName, lastName := lastName);
      RegisterSubmit(f).Submitted? ==> RegisterSubmit(f).request.captchaToken == DEV_CAPTCHA
  {
  }

  /**
   * The registration form's minimum is 8 characters, not the schema's 12: an
   * 8-character password passes the form and is rejected by the schema.
   */
  lemma RegisterFormWeakerThanSchema()
    ensures RegisterSubmit(RegisterForm("a@b.c", "Abcdef1!", "Abcdef1!", "A", "B", DEV_CAPTCHA)).Submitted?
    ensures !PasswordPattern("Abcdef1!")
  {
    var p := "Abcdef1!";
    assert InClass(UpperLetter, p[0]) && InClass(LowerLetter, p[1]);
    assert InClass(Digit, p[6]) && InClass(Special, p[7]);
  }

  // the development PIN -----------------------------------------------------

  const PIN_PREFIX := "PIN is "

  /** `/PIN is (\d{6})/` matches at index `i`. */
  predicate PinMatchAt(s: string, i: int) {
    0 <= i && i + 13 <= |s| && s[i..i + 7] == PIN_PREFIX && AllDigits(s[i + 7..i + 13])
  }

  /** The leftmost match at or after `from`, as the capture group. */
  function PinFrom(s: string, from: nat): (pin: Option<string>)
    ensures pin.Some? ==> |pin.value| == 6 && AllDigits(pin.value)
    ensures pin.None? <==> forall i :: from <= i ==> !PinMatchAt(s, i)
    decreases |s| - from
  {
    if from + 13 > |s| then None
    else if PinMatchAt(s, from) then Some(s[from + 7..from + 13])
    else PinFrom(s, from + 1)
  }

  /** `devPin`: the digits of the leftmost match in the response message, or null. */
  function DevPin(message: Option<string>): Option<string> {
    if message.None? then None else PinFrom(message.value, 0)
  }

  /** Index `i` is the leftmost match at or after `from`. */
  predicate LeftmostPinAt(s: string, from: nat, i: int) {
    from <= i && PinMatchAt(s, i) && forall j :: from <= j < i ==> !PinMatchAt(s, j)
  }

  /** The extracted PIN is the capture of the leftmost match: no earlier index matches. */
  lemma {:induction false} DevPinIsLeftmost(s: string, from: nat)
    requires PinFrom(s, from).Some?
    ensures exists i :: LeftmostPinAt(s, from, i) && PinFrom(s, from).value == s[i + 7..i + 13]
    decreases |s| - from
  {
    if PinMatchAt(s, from) {
      assert LeftmostPinAt(s, from, from);
    } else {
      DevPinIsLeftmost(s, from + 1);
      var i :| LeftmostPinAt(s, from + 1, i) && PinFrom(s, from + 1).value == s[i + 7..i + 13];
      forall j | from <= j < i ensures !PinMatchAt(s, j) {
        if j > from {
          assert from + 1 <= j < i;
        }
      }
      assert LeftmostPinAt(s, from, i);
    }
  }
}
