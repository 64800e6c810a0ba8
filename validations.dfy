/**
 * The login and registration schemas (src/features/auth/validations/auth.ts)
 * as acceptance rules: each schema yields the list of issues zod reports,
 * and an input is accepted when that list is empty. zod's e-mail check is a
 * parameter, `isEmail`. Lengths are JavaScript lengths (UTF-16 code units).
 */
module AuthValidation {
  import opened JsStrings

  /** One reported problem: the field it is attached to and its message. */
  datatype Issue = Issue(path: string, message: string)

  const EMAIL_MESSAGE := "Please enter a valid email address"
  const PASSWORD_MESSAGE := "Password must be at least 6 characters"
  const NAME_MESSAGE := "Name must be at least 2 characters"
  const USERNAME_MESSAGE := "Username must be at least 3 characters"
  const PHONE_LENGTH_MESSAGE := "Phone number must be at least 10 digits"
  const PHONE_PATTERN_MESSAGE := "Please enter a valid Indonesian phone number"
  const MISMATCH_MESSAGE := "Passwords don't match"

  const MIN_PASSWORD := 6
  const MIN_NAME := 2
  const MIN_USERNAME := 3
  const MIN_PHONE := 10

  /** One check of a schema: no issue when it holds, one issue when it fails. */
  function Check(path: string, holds: bool, message: string): (r: seq<Issue>)
    ensures r == [] <==> holds
    ensures !holds ==> Issue(path, message) in r
  {
    if holds then [] else [Issue(path, message)]
  }

  /** `.min(n, message)` on a string field. */
  function MinLength(path: string, value: string, n: nat, message: string): seq<Issue> {
    Check(path, JsLength(value) >= n, message)
  }

  // ---------------------------------------------------------------------------
  // The phone pattern /^(08|\+62|62)\d{8,13}/
  // ---------------------------------------------------------------------------

  /** `\d`, which without the `u` flag means the ASCII digits only. */
  predicate IsDigit(c: char) {
    '0' <= c <= '9'
  }

  /** The alternatives of the group, in the order the regular expression tries them. */
  const PHONE_PREFIXES: seq<string> := ["08", "+62", "62"]

  /** `prefix` starts `s` and is followed by at least eight digits. */
  predicate DigitsAfter(s: string, prefix: string) {
    && StartsWith(s, prefix)
    && |prefix| + 8 <= |s|
    && forall i :: |prefix| <= i < |prefix| + 8 ==> IsDigit(s[i])
  }

  /**
   * The phone check as written: one of the prefixes, then eight digits.
   * The pattern has no end anchor, so what follows the eighth digit is not
   * looked at, and the upper bound of 13 digits never rejects anything.
   */
  predicate MatchesPhonePattern(phone: string) {
    DigitsAfter(phone, "08") || DigitsAfter(phone, "+62") || DigitsAfter(phone, "62")
  }

  /** One way the regular expression can match: alternative `k`, then `n` digits. */
  ghost predicate PhoneSplit(s: string, k: int, n: int) {
    && 0 <= k < |PHONE_PREFIXES|
    && 8 <= n <= 13
    && StartsWith(s, PHONE_PREFIXES[k])
    && |PHONE_PREFIXES[k]| + n <= |s|
    && forall i :: |PHONE_PREFIXES[k]| <= i < |PHONE_PREFIXES[k]| + n ==> IsDigit(s[i])
  }

  /** What `RegExp.prototype.test` finds for the pattern, read off its structure. */
  ghost predicate PhoneRegexTest(s: string) {
    exists k, n :: PhoneSplit(s, k, n)
  }

  /** Eight digits suffice: the hand-written check agrees with the pattern and its bounded repetition. */
  lemma PhonePatternIsRegex(s: string)
    ensures MatchesPhonePattern(s) <==> PhoneRegexTest(s)
  {
    if MatchesPhonePattern(s) {
      var k := if DigitsAfter(s, "08") then 0 else if DigitsAfter(s, "+62") then 1 else 2;
      assert PhoneSplit(s, k, 8);
    }
    if PhoneRegexTest(s) {
      var k, n :| PhoneSplit(s, k, n);
      assert DigitsAfter(s, PHONE_PREFIXES[k]);
    }
  }

  /** Any phone number the pattern accepts already satisfies `.min(10)`. */
  lemma PhonePatternImpliesMinLength(phone: string)
    requires MatchesPhonePattern(phone)
    ensures JsLength(phone) >= MIN_PHONE
  {
  }

  /** Nothing after the digits is looked at: extending an accepted number keeps it accepted. */
  lemma PhonePatternIgnoresSuffix(phone: string, tail: string)
    requires MatchesPhonePattern(phone)
    ensures MatchesPhonePattern(phone + tail)
  {
  }

  lemma PhoneExamples()
    ensures MatchesPhonePattern("081234567890")
    ensures MatchesPhonePattern("+6281234567890")
    ensures MatchesPhonePattern("6281234567")
    ensures MatchesPhonePattern("0812345678901234567890")
    ensures MatchesPhonePattern("0812345678 ext. 9")
    ensures !MatchesPhonePattern("0712345678")
    ensures !MatchesPhonePattern("081234567")
  {
    assert DigitsAfter("081234567890", "08");
    assert DigitsAfter("+6281234567890", "+62");
    assert DigitsAfter("6281234567", "62");
    PhonePatternIgnoresSuffix("0812345678", "901234567890");
    assert "0812345678" + "901234567890" == "0812345678901234567890";
    PhonePatternIgnoresSuffix("0812345678", " ext. 9");
    assert "0812345678" + " ext. 9" == "0812345678 ext. 9";
    assert DigitsAfter("0812345678", "08");
    assert "0712345678"[..2] != "08" by { assert "0712345678"[1] != "08"[1]; }
  }

  // ---------------------------------------------------------------------------
  // loginSchema
  // ---------------------------------------------------------------------------

  datatype LoginInput = LoginInput(email: string, password: string)

  /** The issues `loginSchema` reports, field by field in declaration order. */
  function LoginIssues(input: LoginInput, isEmail: string -> bool): seq<Issue> {
    Check("email", isEmail(input.email), EMAIL_MESSAGE)
    + MinLength("password", input.password, MIN_PASSWORD, PASSWORD_MESSAGE)
  }

  predicate LoginAccepted(input: LoginInput, isEmail: string -> bool) {
    LoginIssues(input, isEmail) == []
  }

  /** A login is accepted exactly when the e-mail passes and the password has at least 6 characters. */
  lemma LoginAcceptance(input: LoginInput, isEmail: string -> bool)
    ensures LoginAccepted(input, isEmail) <==> isEmail(input.email) && JsLength(input.password) >= 6
    ensures JsLength(input.password) < 6 ==>
      Issue("password", "Password must be at least 6 characters") in LoginIssues(input, isEmail)
  {
  }

  // ---------------------------------------------------------------------------
  // registerSchema
  // ---------------------------------------------------------------------------

  datatype RegisterInput = RegisterInput(name: string, username: string, email: string, phone: string,
                                         password: string, confirmPassword: string)

  /** The issues of the object schema, field by field, before the refinement. */
  function RegisterFieldIssues(input: RegisterInput, isEmail: string -> bool): seq<Issue> {
    MinLength("name", input.name, MIN_NAME, NAME_MESSAGE)
    + MinLength("username", input.username, MIN_USERNAME, USERNAME_MESSAGE)
    + Check("email", isEmail(input.email), EMAIL_MESSAGE)
    + MinLength("phone", input.phone, MIN_PHONE, PHONE_LENGTH_MESSAGE)
    + Check("phone", MatchesPhonePattern(input.phone), PHONE_PATTERN_MESSAGE)
    + MinLength("password", input.password, MIN_PASSWORD, PASSWORD_MESSAGE)
  }

  /**
   * The issues `registerSchema` reports: the field issues, then the
   * password-match refinement's issue, attached to `confirmPassword`.
   */
  function RegisterIssues(input: RegisterInput, isEmail: string -> bool): seq<Issue> {
    RegisterFieldIssues(input, isEmail)
    + Check("confirmPassword", input.password == input.confirmPassword, MISMATCH_MESSAGE)
  }

  predicate RegisterAccepted(input: RegisterInput, isEmail: string -> bool) {
    RegisterIssues(input, isEmail) == []
  }

  /** The conditions a registration has to meet, all of them. */
  lemma RegisterAcceptance(input: RegisterInput, isEmail: string -> bool)
    ensures RegisterAccepted(input, isEmail) <==>
      && JsLength(input.name) >= 2
      && JsLength(input.username) >= 3
      && isEmail(input.email)
      && MatchesPhonePattern(input.phone)
      && JsLength(input.password) >= 6
      && input.confirmPassword == input.password
  {
  }

  /** Differing passwords are always reported on `confirmPassword`, whatever else is wrong. */
  lemma MismatchReported(input: RegisterInput, isEmail: string -> bool)
    requires input.password != input.confirmPassword
    ensures Issue("confirmPassword", "Passwords don't match") in RegisterIssues(input, isEmail)
    ensures !RegisterAccepted(input, isEmail)
  {
  }

  /** `confirmPassword` has no length rule, yet an accepted one has at least 6 characters. */
  lemma ConfirmPasswordLength(input: RegisterInput, isEmail: string -> bool)
    requires RegisterAccepted(input, isEmail)
    ensures JsLength(input.confirmPassword) >= 6
  {
  }

  /** The `.min(10)` on the phone never reports an issue on its own: the pattern reports one too. */
  lemma PhoneLengthRuleRedundant(input: RegisterInput, isEmail: string -> bool)
    requires Issue("phone", "Phone number must be at least 10 digits") in RegisterIssues(input, isEmail)
    ensures Issue("phone", "Please enter a valid Indonesian phone number") in RegisterIssues(input, isEmail)
  {
  }
}
