/**
 * The account schemas. A schema with an equality refinement reports the fields it
 * rejects as a set of issue paths, so "the error is attached to `confirmPassword`" is
 * stated as membership of that path. `isEmail` stands for zod's email-format check.
 */
module AuthValidation {
  import opened Text

  /** `MIN_PASSWORD_LENGTH` */
  const MinPasswordLength: nat := 8

  /** The prefix of `s` before its first line terminator: what `.*` in a lookahead can cover. */
  function FirstLine(s: string): (r: string)
    ensures |r| <= |s| && r == s[..|r|]
    ensures forall c :: c in r ==> !IsLineTerminator(c)
    ensures |r| == |s| || IsLineTerminator(s[|r|])
  {
    if s == [] || IsLineTerminator(s[0]) then []
    else [s[0]] + FirstLine(s[1..])
  }

  /** `(?=.*[cls])` anchored at the start: a character of the class before any line break. */
  function LookaheadFinds(s: string, cls: char -> bool): (ok: bool)
    ensures ok <==> exists c :: c in FirstLine(s) && cls(c)
  {
    if s == [] || IsLineTerminator(s[0]) then false
    else
      assert FirstLine(s) == [s[0]] + FirstLine(s[1..]);
      cls(s[0]) || LookaheadFinds(s[1..], cls)
  }

  /** The password rule shared by registration, reset and password change. */
  predicate PasswordRules(p: string) {
    && Utf16Len(p) >= MinPasswordLength
    && LookaheadFinds(p, IsAsciiLower)
    && LookaheadFinds(p, IsAsciiUpper)
    && LookaheadFinds(p, IsDigit)
  }

  /** For a single-line password the rule is: long enough and one char of each class. */
  lemma PasswordRulesSingleLine(p: string)
    requires forall c :: c in p ==> !IsLineTerminator(c)
    ensures PasswordRules(p) <==>
      && Utf16Len(p) >= 8
      && (exists c :: c in p && IsAsciiLower(c))
      && (exists c :: c in p && IsAsciiUpper(c))
      && (exists c :: c in p && IsDigit(c))
  {
    var r := FirstLine(p);
    assert r == p;
  }

  /** The first line ends at the first line terminator. */
  lemma {:induction false} FirstLineStopsAt(s: string, i: nat)
    requires i < |s| && IsLineTerminator(s[i])
    requires forall j :: 0 <= j < i ==> !IsLineTerminator(s[j])
    ensures FirstLine(s) == s[..i]
  {
    if i > 0 {
      FirstLineStopsAt(s[1..], i - 1);
      assert s[..i] == [s[0]] + s[1..][..i - 1];
    }
  }

  /**
   * A digit on a second line does not count: the lookahead stops at the line break, so a first
   * line without a digit fails the rule whatever follows it ("Abcdefgh\n1", say).
   */
  lemma DigitAfterLineBreakRejected(first: string, rest: string)
    requires forall c :: c in first ==> !IsLineTerminator(c) && !IsDigit(c)
    ensures !PasswordRules(first + "\n" + rest)
  {
    var p := first + "\n" + rest;
    assert p[|first|] == '\n';
    forall j | 0 <= j < |first| ensures !IsLineTerminator(p[j]) {
      assert p[j] == first[j];
    }
    FirstLineStopsAt(p, |first|);
    assert FirstLine(p) == first;
  }

  /** A well-formed single-line password is accepted. */
  lemma ExamplePassword()
    ensures PasswordRules("Passw0rd")
  {
    var p := "Passw0rd";
    assert p[1] in p && IsAsciiLower(p[1]);
    assert p[0] in p && IsAsciiUpper(p[0]);
    assert p[5] in p && IsDigit(p[5]);
    assert Utf16Len(p) >= 8;
    PasswordRulesSingleLine(p);
  }

  /** Length is counted in UTF-16 code units: three emoji after "Aa1" make nine, enough for the rule. */
  lemma ExampleAstralPassword()
    ensures PasswordRules("Aa1\U{1F600}\U{1F600}\U{1F600}")
  {
    var p := "Aa1\U{1F600}\U{1F600}\U{1F600}";
    assert p[..5][..4][..3] == "Aa1" && Utf16Len("Aa1") == 3;
    assert Utf16Len(p) == 9;
    assert p[1] in p && IsAsciiLower(p[1]);
    assert p[0] in p && IsAsciiUpper(p[0]);
    assert p[2] in p && IsDigit(p[2]);
    PasswordRulesSingleLine(p);
  }

  datatype Field = Name | Email | Password | ConfirmPassword | Token
                 | CurrentPassword | NewPassword | ConfirmNewPassword

  /** `loginSchema` */
  predicate ValidLogin(email: string, password: string, isEmail: string -> bool) {
    ValidEmail(email, isEmail) && |password| >= 1
  }

  /** The name rule shared by registration and profile update. */
  predicate ValidName(name: string) { 2 <= Utf16Len(name) <= 100 }

  predicate ValidEmail(email: string, isEmail: string -> bool) { |email| >= 1 && isEmail(email) }

  /** `updateProfileSchema` */
  predicate ValidProfile(name: string, email: string, isEmail: string -> bool) {
    ValidName(name) && ValidEmail(email, isEmail)
  }

  /** `forgotPasswordSchema` */
  predicate ValidForgotPassword(email: string, isEmail: string -> bool) { ValidEmail(email, isEmail) }

  /** The issue path `f` when its check failed, else none. */
  function IssueIf(failed: bool, f: Field): (r: set<Field>)
    ensures forall g :: g in r <==> failed && g == f
  {
    if failed then {f} else {}
  }

  datatype RegisterBody = RegisterBody(name: string, email: string, password: string, confirmPassword: string)

  /** The issue paths of `registerSchema.safeParse(b)`. */
  function RegisterIssues(b: RegisterBody, isEmail: string -> bool): (r: set<Field>)
    ensures r <= {Name, Email, Password, ConfirmPassword}
    ensures Name in r <==> !ValidName(b.name)
    ensures Email in r <==> !ValidEmail(b.email, isEmail)
    ensures Password in r <==> !PasswordRules(b.password)
    ensures ConfirmPassword in r <==> (b.confirmPassword == [] || b.password != b.confirmPassword)
  {
    var confirmOk := |b.confirmPassword| >= 1 && b.password == b.confirmPassword;
    RegisterIssueSet(!ValidName(b.name), !ValidEmail(b.email, isEmail), !PasswordRules(b.password), !confirmOk)
  }

  /** The issue paths of the four register fields, from which of their checks failed. */
  function RegisterIssueSet(name: bool, email: bool, password: bool, confirm: bool): (r: set<Field>)
    ensures r <= {Name, Email, Password, ConfirmPassword}
    ensures (Name in r <==> name) && (Email in r <==> email) && (Password in r <==> password)
    ensures ConfirmPassword in r <==> confirm
  {
    IssueIf(name, Name) + IssueIf(email, Email) + IssueIf(password, Password) + IssueIf(confirm, ConfirmPassword)
  }

  predicate ValidRegister(b: RegisterBody, isEmail: string -> bool) { RegisterIssues(b, isEmail) == {} }

  /** A mismatching confirmation is rejected, and the issue sits on `confirmPassword`. */
  lemma RegisterMismatch(b: RegisterBody, isEmail: string -> bool)
    requires b.password != b.confirmPassword
    ensures ConfirmPassword in RegisterIssues(b, isEmail)
    ensures !ValidRegister(b, isEmail)
  {
  }

  /** With the confirmation forced to the password, only the format rules remain. */
  lemma RegisterForcedConfirmation(b: RegisterBody, isEmail: string -> bool)
    ensures ValidRegister(b.(confirmPassword := b.password), isEmail) <==>
      ValidName(b.name) && ValidEmail(b.email, isEmail) && PasswordRules(b.password)
  {
    var c := b.(confirmPassword := b.password);
    if PasswordRules(b.password) {
      assert |c.confirmPassword| >= 1;
    }
    if ValidRegister(c, isEmail) {
      assert Email !in RegisterIssues(c, isEmail);
    }
  }

  datatype ResetBody = ResetBody(token: string, password: string, confirmPassword: string)

  /** The issue paths of `resetPasswordSchema.safeParse(b)`. */
  function ResetIssues(b: ResetBody): (r: set<Field>)
    ensures r <= {Token, Password, ConfirmPassword}
    ensures Token in r <==> b.token == []
    ensures Password in r <==> !PasswordRules(b.password)
    ensures ConfirmPassword in r <==> (b.confirmPassword == [] || b.password != b.confirmPassword)
  {
    var tokenOk, passwordOk := |b.token| >= 1, PasswordRules(b.password);
    var confirmOk := |b.confirmPassword| >= 1 && b.password == b.confirmPassword;
    IssueIf(!tokenOk, Token) + IssueIf(!passwordOk, Password) + IssueIf(!confirmOk, ConfirmPassword)
  }

  predicate ValidReset(b: ResetBody) { ResetIssues(b) == {} }

  /** A reset is accepted exactly for a non-empty token and a confirmed, well-formed password. */
  lemma ResetAccepts(b: ResetBody)
    ensures ValidReset(b) <==> |b.token| >= 1 && PasswordRules(b.password) && b.confirmPassword == b.password
  {
    if ValidReset(b) {
      assert Token !in ResetIssues(b) && Password !in ResetIssues(b) && ConfirmPassword !in ResetIssues(b);
    }
  }

  datatype ChangePasswordBody = ChangePasswordBody(currentPassword: string, newPassword: string, confirmNewPassword: string)

  /** The issue paths of `changePasswordSchema.safeParse(b)`. */
  function ChangePasswordIssues(b: ChangePasswordBody): (r: set<Field>)
    ensures r <= {CurrentPassword, NewPassword, ConfirmNewPassword}
    ensures CurrentPassword in r <==> b.currentPassword == []
    ensures NewPassword in r <==> !PasswordRules(b.newPassword)
    ensures ConfirmNewPassword in r <==> (b.confirmNewPassword == [] || b.newPassword != b.confirmNewPassword)
  {
    var currentOk, newOk := |b.currentPassword| >= 1, PasswordRules(b.newPassword);
    var confirmOk := |b.confirmNewPassword| >= 1 && b.newPassword == b.confirmNewPassword;
    IssueIf(!currentOk, CurrentPassword) + IssueIf(!newOk, NewPassword)
    + IssueIf(!confirmOk, ConfirmNewPassword)
  }

  /** The new password is checked, the current one only for presence. */
  lemma ChangePasswordAccepts(b: ChangePasswordBody)
    ensures ChangePasswordIssues(b) == {} <==>
      |b.currentPassword| >= 1 && PasswordRules(b.newPassword) && b.confirmNewPassword == b.newPassword
  {
    if ChangePasswordIssues(b) == {} {
      assert CurrentPassword !in ChangePasswordIssues(b) && NewPassword !in ChangePasswordIssues(b);
      assert ConfirmNewPassword !in ChangePasswordIssues(b);
    }
  }

  /** Login asks only for some password: one the password rule refuses still passes, an empty one does not. */
  lemma LoginSkipsPasswordRules(email: string, isEmail: string -> bool)
    requires ValidEmail(email, isEmail)
    ensures ValidLogin(email, "x", isEmail) && !PasswordRules("x")
    ensures !ValidLogin(email, "", isEmail)
  {
    assert Utf16Len("x") == 1;
  }

  /** The profile schema accepts exactly the name and e-mail that registration reports no issue on. */
  lemma ProfileMatchesRegister(b: RegisterBody, isEmail: string -> bool)
    ensures ValidProfile(b.name, b.email, isEmail) <==>
      Name !in RegisterIssues(b, isEmail) && Email !in RegisterIssues(b, isEmail)
  {
  }

  /** Credentials registration accepts also pass the login, profile and forgot-password schemas. */
  lemma RegisteredCredentialsPass(b: RegisterBody, isEmail: string -> bool)
    requires ValidRegister(b, isEmail)
    ensures ValidLogin(b.email, b.password, isEmail)
    ensures ValidProfile(b.name, b.email, isEmail) && ValidForgotPassword(b.email, isEmail)
  {
    assert Password !in RegisterIssues(b, isEmail) && Email !in RegisterIssues(b, isEmail);
    assert Utf16Len(b.password) >= MinPasswordLength;
  }
}
