/**
 * The client-side form schemas of `src/utils/validation.schemas.js`: the
 * password regular expression and, for each schema, the issues the schema
 * reports. Every field check runs, so a form collects all of its failing
 * checks; the object-level refinement (matching passwords) runs as well,
 * because failed length or pattern checks do not abort the object.
 */
module ValidationSchemas {
  import opened Wrappers
  import opened Text

  /** The special characters of the password pattern's last look-ahead. */
  const SPECIAL_CHARS := "!@#$%^&*()_+-=[]{};':\"\\|,.<>/?"

  /** The character classes the password rules look for. */
  datatype CharClass = LowerLetter | UpperLetter | Digit | Special | LineTerminator

  predicate InClass(k: CharClass, c: char) {
    match k
    case LowerLetter => IsLower(c)
    case UpperLetter => IsUpper(c)
    case Digit => IsDigit(c)
    case Special => c in SPECIAL_CHARS
    case LineTerminator => c in {'\n', '\r', '\U{2028}', '\U{2029}'}
  }

  /** Some character of `s` is in class `k` (the regex `/[...]/` test). */
  predicate Has(s: string, k: CharClass) { exists i :: 0 <= i < |s| && InClass(k, s[i]) }

  predicate HasSpecial(s: string) { Has(s, Special) }

  /** The characters `.` does not match are the ECMAScript line terminators. */
  predicate HasLineTerminator(s: string) { Has(s, LineTerminator) }

  lemma HasSnoc(s: string, c: char, k: CharClass)
    ensures Has(s + [c], k) <==> Has(s, k) || InClass(k, c)
  {
    var t := s + [c];
    if Has(s, k) {
      var i :| 0 <= i < |s| && InClass(k, s[i]);
      assert t[i] == s[i];
    }
    if InClass(k, c) {
      assert t[|s|] == c;
    }
    if Has(t, k) {
      var i :| 0 <= i < |t| && InClass(k, t[i]);
      if i < |s| { assert t[i] == s[i]; }
    }
  }

  lemma HasMatchesText(s: string)
    ensures Has(s, LowerLetter) == HasLower(s)
    ensures Has(s, UpperLetter) == HasUpper(s)
    ensures Has(s, Digit) == HasDigit(s)
  {
  }

  /**
   * `passwordRegex`, anchored at both ends: at least twelve characters, all
   * matched by `.` (so no line terminator), with a lower-case letter, an
   * upper-case letter, a digit and one of the special characters.
   */
  predicate PasswordPattern(s: string) {
    && |s| >= 12 && !HasLineTerminator(s)
    && HasLower(s) && HasUpper(s) && HasDigit(s) && HasSpecial(s)
  }

  // ---------------------------------------------------------------- a one-pass matcher for the pattern

  /** What a left-to-right scan has seen so far. */
  datatype Seen = Seen(length: nat, lower: bool, upper: bool, digit: bool, special: bool, terminator: bool)

  function See(f: Seen, c: char): Seen {
    Seen(f.length + 1, f.lower || InClass(LowerLetter, c), f.upper || InClass(UpperLetter, c),
         f.digit || InClass(Digit, c), f.special || InClass(Special, c),
         f.terminator || InClass(LineTerminator, c))
  }

  function Scan(s: string): Seen
    decreases |s|
  {
    if s == [] then Seen(0, false, false, false, false, false) else See(Scan(s[..|s| - 1]), s[|s| - 1])
  }

  predicate ScanAccepts(s: string) {
    var f := Scan(s);
    f.length >= 12 && !f.terminator && f.lower && f.upper && f.digit && f.special
  }

  lemma {:induction false} ScanSeesClasses(s: string)
    ensures Scan(s).length == |s|
    ensures Scan(s).lower == Has(s, LowerLetter) && Scan(s).upper == Has(s, UpperLetter)
    ensures Scan(s).digit == Has(s, Digit) && Scan(s).special == Has(s, Special)
    ensures Scan(s).terminator == Has(s, LineTerminator)
    decreases |s|
  {
    if s != [] {
      var init, c := s[..|s| - 1], s[|s| - 1];
      ScanSeesClasses(init);
      assert s == init + [c];
      HasSnoc(init, c, LowerLetter);
      HasSnoc(init, c, UpperLetter);
      HasSnoc(init, c, Digit);
      HasSnoc(init, c, Special);
      HasSnoc(init, c, LineTerminator);
    }
  }

  /** The one-pass matcher accepts exactly the strings the pattern accepts. */
  lemma ScanAcceptsIffPattern(s: string)
    ensures ScanAccepts(s) <==> PasswordPattern(s)
  {
    ScanSeesClasses(s);
    HasMatchesText(s);
  }

  /** A strong password split over two lines is rejected: `.` does not match a line break. */
  lemma PatternRejectsLineBreak(s: string)
    requires exists i :: 0 <= i < |s| && s[i] == '\n'
    ensures !PasswordPattern(s)
  {
    var i :| 0 <= i < |s| && s[i] == '\n';
    assert InClass(LineTerminator, s[i]);
  }

  // ---------------------------------------------------------------- issues

  /** One check of a schema; `message` is the custom message, `None` for zod's default. */
  datatype Check =
    | MinLength(n: nat, message: Option<string>)
    | MaxLength(n: nat, message: Option<string>)
    | Pattern(pattern: PatternName, message: Option<string>)
    | Positive(message: Option<string>)
    | Integer
    | NonNegative(message: Option<string>)
    | MinItems(n: nat, message: Option<string>)
    | MaxItems(n: nat)
    | Refinement(message: Option<string>)

  datatype PatternName = PasswordRegex | PhoneRegex

  /** A reported issue: the field path and the check that failed. */
  datatype Issue = Issue(path: string, check: Check)

  /** `^\+?[\d\s\-()]+$`. */
  predicate IsPhoneChar(c: char) { IsDigit(c) || IsJsWhitespace(c) || c in {'-', '(', ')'} }
  predicate AllPhoneChars(s: string) { forall i :: 0 <= i < |s| ==> IsPhoneChar(s[i]) }

  predicate PhonePattern(s: string) {
    if |s| > 0 && s[0] == '+' then |s| > 1 && AllPhoneChars(s[1..]) else |s| > 0 && AllPhoneChars(s)
  }

  /** The phone pattern: one optional leading '+', then at least one digit, space, hyphen or parenthesis. */
  lemma PhonePatternIff(t: string)
    ensures PhonePattern("+" + t) <==> t != "" && AllPhoneChars(t)
    ensures PhonePattern(t) && t[0] != '+' ==> AllPhoneChars(t)
    ensures PhonePattern("++" + t) == false
  {
    assert ("+" + t)[1..] == t;
    assert ("++" + t)[1..][0] == '+';
  }

  predicate Matches(p: PatternName, s: string) {
    match p
    case PasswordRegex => PasswordPattern(s)
    case PhoneRegex => PhonePattern(s)
  }

  predicate StringPasses(c: Check, s: string) {
    match c
    case MinLength(n, _) => |s| >= n
    case MaxLength(n, _) => |s| <= n
    case Pattern(p, _) => Matches(p, s)
    case _ => true
  }

  /** All checks pass on `s`. */
  predicate AllPass(checks: seq<Check>, s: string)
    decreases |checks|
  {
    checks == [] || (StringPasses(checks[0], s) && AllPass(checks[1..], s))
  }

  /** Every failing check of one string field, in declaration order. */
  function StringIssues(path: string, s: string, checks: seq<Check>): (issues: seq<Issue>)
    ensures forall k :: 0 <= k < |issues| ==> issues[k].path == path
    ensures issues == [] <==> AllPass(checks, s)
    decreases |checks|
  {
    if checks == [] then []
    else (if StringPasses(checks[0], s) then [] else [Issue(path, checks[0])]) + StringIssues(path, s, checks[1..])
  }

  /** A failing check is reported under its field's path. */
  lemma {:induction false} FailingCheckReported(path: string, s: string, checks: seq<Check>, i: nat)
    requires i < |checks| && !StringPasses(checks[i], s)
    ensures Issue(path, checks[i]) in StringIssues(path, s, checks)
    decreases i
  {
    if i > 0 {
      FailingCheckReported(path, s, checks[1..], i - 1);
    }
  }

  /** An issue list whose paths all differ from `path` holds no issue for `path`. */
  lemma NoIssueOnOtherPath(issues: seq<Issue>, path: string, check: Check)
    requires forall k :: 0 <= k < |issues| ==> issues[k].path != path
    ensures Issue(path, check) !in issues
  {
  }

  const PASSWORD_CHECKS := [
    MinLength(12, Some("Password must be at least 12 characters")),
    Pattern(PasswordRegex, Some("Password must contain uppercase, lowercase, number, and special character"))]

  const MISMATCH := Refinement(Some("Passwords don't match"))

  /** The refinement on `confirmPassword`. */
  function MismatchIssues(password: string, confirm: string): seq<Issue> {
    if password == confirm then [] else [Issue("confirmPassword", MISMATCH)]
  }

  // login -----------------------------------------------------------------

  function LoginIssues(password: string, captchaToken: string): seq<Issue> {
    StringIssues("password", password, [MinLength(1, Some("Password is required"))])
    + StringIssues("captchaToken", captchaToken, [MinLength(1, Some("CAPTCHA token is required"))])
  }

  /** Login accepts exactly a non-empty password and CAPTCHA token (the email format aside). */
  lemma LoginIssuesIff(password: string, captchaToken: string)
    ensures LoginIssues(password, captchaToken) == [] <==> password != "" && captchaToken != ""
  {
  }

  // register --------------------------------------------------------------

  datatype RegisterData = RegisterData(
    password: string, confirmPassword: string, firstName: string, lastName: string, captchaToken: string)

  function NameChecks(field: string): seq<Check> {
    [MinLength(1, Some(field + " name is required")), MaxLength(50, Some(field + " name too long"))]
  }

  function RegisterIssues(d: RegisterData): seq<Issue> {
    StringIssues("password", d.password, PASSWORD_CHECKS)
    + StringIssues("firstName", d.firstName, NameChecks("First"))
    + StringIssues("lastName", d.lastName, NameChecks("Last"))
    + StringIssues("captchaToken", d.captchaToken, [MinLength(1, Some("CAPTCHA token is required"))])
    + MismatchIssues(d.password, d.confirmPassword)
  }

  /**
   * Registration data passes exactly when the password matches the pattern
   * (twelve characters or more), both names have 1 to 50 characters, the
   * CAPTCHA token is present and the confirmation equals the password.
   */
  lemma RegisterIssuesIff(d: RegisterData)
    ensures RegisterIssues(d) == [] <==>
      && PasswordPattern(d.password)
      && 1 <= |d.firstName| <= 50 && 1 <= |d.lastName| <= 50
      && d.captchaToken != "" && d.password == d.confirmPassword
  {
  }

  /** A mismatch is reported on `confirmPassword` even when other fields also fail. */
  lemma RegisterMismatchReported(d: RegisterData)
    ensures Issue("confirmPassword", MISMATCH) in RegisterIssues(d) <==> d.password != d.confirmPassword
  {
    var a := StringIssues("password", d.password, PASSWORD_CHECKS);
    var b := StringIssues("firstName", d.firstName, NameChecks("First"));
    var c := StringIssues("lastName", d.lastName, NameChecks("Last"));
    var e := StringIssues("captchaToken", d.captchaToken, [MinLength(1, Some("CAPTCHA token is required"))]);
    NoIssueOnOtherPath(a, "confirmPassword", MISMATCH);
    NoIssueOnOtherPath(b, "confirmPassword", MISMATCH);
    NoIssueOnOtherPath(c, "confirmPassword", MISMATCH);
    NoIssueOnOtherPath(e, "confirmPassword", MISMATCH);
    assert RegisterIssues(d) == a + b + c + e + MismatchIssues(d.password, d.confirmPassword);
  }

  // change password -------------------------------------------------------

  function ChangePasswordIssues(currentPassword: string, newPassword: string, confirmPassword: string): seq<Issue> {
    StringIssues("currentPassword", currentPassword, [MinLength(1, Some("Current password is required"))])
    + StringIssues("newPassword", newPassword, PASSWORD_CHECKS)
    + MismatchIssues(newPassword, confirmPassword)
  }

  /** The change-password schema: a current password, a pattern-conforming new one, and a matching confirmation. */
  lemma ChangePasswordIssuesIff(currentPassword: string, newPassword: string, confirmPassword: string)
    ensures ChangePasswordIssues(currentPassword, newPassword, confirmPassword) == [] <==>
      currentPassword != "" && PasswordPattern(newPassword) && newPassword == confirmPassword
    ensures Issue("confirmPassword", MISMATCH) in ChangePasswordIssues(currentPassword, newPassword, confirmPassword)
      <==> newPassword != confirmPassword
  {
    var a := StringIssues("currentPassword", currentPassword, [MinLength(1, Some("Current password is required"))]);
    var b := StringIssues("newPassword", newPassword, PASSWORD_CHECKS);
    var m := MismatchIssues(newPassword, confirmPassword);
    assert ChangePasswordIssues(currentPassword, newPassword, confirmPassword) == a + b + m;
    assert a == [] <==> currentPassword != "";
    assert b == [] <==> PasswordPattern(newPassword) by {
      assert PASSWORD_CHECKS[1..][1..] == [];
    }
    NoIssueOnOtherPath(a, "confirmPassword", MISMATCH);
    NoIssueOnOtherPath(b, "confirmPassword", MISMATCH);
  }

  // shipping address ------------------------------------------------------

  datatype ShippingAddress = ShippingAddress(
    street: string, city: string, state: string, zipCode: string, country: string, phone: string)

  function ShippingIssues(a: ShippingAddress): seq<Issue> {
    StringIssues("street", a.street, [MinLength(1, Some("Street is required")), MaxLength(200, None)])
    + StringIssues("city", a.city, [MinLength(1, Some("City is required")), MaxLength(100, None)])
    + StringIssues("state", a.state, [MinLength(1, Some("State is required")), MaxLength(100, None)])
    + StringIssues("zipCode", a.zipCode, [MinLength(1, Some("Zip code is required")), MaxLength(20, None)])
    + StringIssues("country", a.country, [MinLength(1, Some("Country is required")), MaxLength(100, None)])
    + StringIssues("phone", a.phone, [Pattern(PhoneRegex, Some("Invalid phone number"))])
  }

  lemma ShippingIssuesIff(a: ShippingAddress)
    ensures ShippingIssues(a) == [] <==>
      && 1 <= |a.street| <= 200 && 1 <= |a.city| <= 100 && 1 <= |a.state| <= 100
      && 1 <= |a.zipCode| <= 20 && 1 <= |a.country| <= 100 && PhonePattern(a.phone)
  {
  }

  // product ---------------------------------------------------------------

  /** The product payload; price and stock are JavaScript numbers. */
  datatype ProductData = ProductData(
    name: string, description: string, price: real, stock: real, category: string, images: seq<string>)

  predicate IsInteger(r: real) { r.Floor as real == r }

  function NumberIssues(path: string, x: real, checks: seq<Check>): (issues: seq<Issue>)
    ensures forall k :: 0 <= k < |issues| ==> issues[k].path == path
    decreases |checks|
  {
    if checks == [] then []
    else
      var fails := match checks[0]
        case Positive(_) => x <= 0.0
        case Integer => !IsInteger(x)
        case NonNegative(_) => x < 0.0
        case _ => false;
      (if fails then [Issue(path, checks[0])] else []) + NumberIssues(path, x, checks[1..])
  }

  function ProductIssues(p: ProductData): seq<Issue> {
    StringIssues("name", p.name, [MinLength(1, Some("Product name is required")), MaxLength(200, None)])
    + StringIssues("description", p.description, [MinLength(1, Some("Description is required")), MaxLength(2000, None)])
    + NumberIssues("price", p.price, [Positive(Some("Price must be positive"))])
    + NumberIssues("stock", p.stock, [Integer, NonNegative(Some("Stock must be non-negative"))])
    + StringIssues("category", p.category, [MinLength(1, Some("Category is required"))])
    + (if |p.images| < 1 then [Issue("images", MinItems(1, Some("At least one image is required")))] else [])
    + (if |p.images| > 10 then [Issue("images", MaxItems(10))] else [])
  }

  /**
   * A product passes exactly with a 1..200-character name, a
   * 1..2000-character description, a positive price, a non-negative integer
   * stock, a category and one to ten images (their URL format aside).
   */
  lemma ProductIssuesIff(p: ProductData)
    ensures ProductIssues(p) == [] <==>
      && 1 <= |p.name| <= 200 && 1 <= |p.description| <= 2000
      && p.price > 0.0 && IsInteger(p.stock) && p.stock >= 0.0
      && p.category != "" && 1 <= |p.images| <= 10
  {
  }
}
