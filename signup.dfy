/** The sign-up page's `validateForm`: an early-return chain of checks whose
    first failure is the error shown. */
module Signup {
  import opened Common
  import opened Validation
  import ServerAuth

  datatype SignupForm = SignupForm(username: string, email: string, password: string, confirmPassword: string)

  /** A character of `[a-zA-Z0-9_-]`. */
  predicate UsernameChar(c: char) {
    ('a' <= c <= 'z') || ('A' <= c <= 'Z') || ('0' <= c <= '9') || c == '_' || c == '-'
  }

  /** `/^[a-zA-Z0-9_-]+$/` */
  predicate UsernamePattern(u: string) {
    u != [] && forall i :: 0 <= i < |u| ==> UsernameChar(u[i])
  }

  predicate HasLower(p: string) {
    exists i :: 0 <= i < |p| && 'a' <= p[i] <= 'z'
  }

  predicate HasUpper(p: string) {
    exists i :: 0 <= i < |p| && 'A' <= p[i] <= 'Z'
  }

  /** `\d` without the unicode flag: an ASCII digit. */
  predicate HasDigit(p: string) {
    exists i :: 0 <= i < |p| && '0' <= p[i] <= '9'
  }

  /** The checks in source order. */
  function SignupChecks(f: SignupForm): seq<Check> {
    [Check(|f.username| >= 3, "Username must be at least 3 characters long")] +
    ([Check(|f.username| <= 20, "Username must be less than 20 characters long")] +
    ([Check(UsernamePattern(f.username), "Username can only contain letters, numbers, underscores and hyphens")] +
    ([Check(EmailMatches(f.email), "Please enter a valid email address")] +
    ([Check(|f.password| >= 8, "Password must be at least 8 characters long")] +
    ([Check(HasLower(f.password), "Password must contain at least one lowercase letter")] +
    ([Check(HasUpper(f.password), "Password must contain at least one uppercase letter")] +
    ([Check(HasDigit(f.password), "Password must contain at least one number")] +
    [Check(f.password == f.confirmPassword, "Passwords do not match")])))))))
  }

  /** `validateForm`: `None` when it returns true, otherwise the error it
      sets. */
  function ValidateSignup(f: SignupForm): (error: Option<string>)
    ensures error.None? <==>
              && 3 <= |f.username| <= 20 && UsernamePattern(f.username) && EmailMatches(f.email)
              && |f.password| >= 8 && HasLower(f.password) && HasUpper(f.password) && HasDigit(f.password)
              && f.password == f.confirmPassword
  {
    if |f.username| < 3 then Some("Username must be at least 3 characters long")
    else if |f.username| > 20 then Some("Username must be less than 20 characters long")
    else if !UsernamePattern(f.username) then
      Some("Username can only contain letters, numbers, underscores and hyphens")
    else if !EmailMatches(f.email) then Some("Please enter a valid email address")
    else if |f.password| < 8 then Some("Password must be at least 8 characters long")
    else if !HasLower(f.password) then Some("Password must contain at least one lowercase letter")
    else if !HasUpper(f.password) then Some("Password must contain at least one uppercase letter")
    else if !HasDigit(f.password) then Some("Password must contain at least one number")
    else if f.password != f.confirmPassword then Some("Passwords do not match")
    else None
  }

  /** The early-return chain reports exactly the first failing check. */
  lemma ValidateSignupIsFirstFailure(f: SignupForm)
    ensures ValidateSignup(f) == FirstFailure(SignupChecks(f))
  {
    var checks := SignupChecks(f);
    forall k | 0 <= k < |checks| {
      FirstFailureStep(checks, k);
    }
    assert checks[0..] == checks && checks[9..] == [];
  }

  /** Despite its message, the length check accepts a 20-character username. */
  lemma TwentyCharactersAccepted(f: SignupForm)
    requires |f.username| == 20 && UsernamePattern(f.username)
    ensures ValidateSignup(f) != Some("Username must be less than 20 characters long")
    ensures ValidateSignup(f) != Some("Username must be at least 3 characters long")
  {
  }

  /** The error reported is that of the first failing check. */
  lemma ReportsFirstFailure(f: SignupForm)
    requires ValidateSignup(f).Some?
    ensures exists k :: 0 <= k < |SignupChecks(f)| && !SignupChecks(f)[k].passes
                        && SignupChecks(f)[k].message == ValidateSignup(f).value
                        && forall m :: 0 <= m < k ==> SignupChecks(f)[m].passes
  {
    ValidateSignupIsFirstFailure(f);
    FirstFailureIsFirst(SignupChecks(f));
  }

  /** A form the page accepts also meets the server's register schema, when
      the server's email check accepts what the page's pattern accepts. */
  lemma AcceptedFormRegisters(f: SignupForm, isEmail: string -> bool)
    requires ValidateSignup(f).None?
    requires forall e :: EmailMatches(e) ==> isEmail(e)
    ensures ServerAuth.RegisterIssues(f.username, f.email, f.password, isEmail) == []
  {
  }
}
