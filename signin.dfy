/** The sign-in page's `validateForm`. */
module Signin {
  import opened Common
  import opened Validation
  import JsString
  import ServerAuth

  /** The checks in source order; the email pattern applies only to an
      identifier containing `@`. */
  function SigninChecks(identifier: string, password: string): seq<Check> {
    [Check(JsString.Trim(identifier) != "", "Please enter your username or email")] +
    ([Check('@' !in identifier || EmailMatches(identifier), "Please enter a valid email address")] +
    ([Check(JsString.Trim(password) != "", "Please enter your password")] +
    [Check(|password| >= 8, "Password must be at least 8 characters long")]))
  }

  /** `validateForm`: `None` when it returns true, otherwise the error set. */
  function ValidateSignin(identifier: string, password: string): (error: Option<string>)
    ensures error.None? <==>
              && !JsString.AllWhitespace(identifier)
              && ('@' in identifier ==> EmailMatches(identifier))
              && !JsString.AllWhitespace(password) && |password| >= 8
  {
    if JsString.Trim(identifier) == "" then Some("Please enter your username or email")
    else if '@' in identifier && !EmailMatches(identifier) then Some("Please enter a valid email address")
    else if JsString.Trim(password) == "" then Some("Please enter your password")
    else if |password| < 8 then Some("Password must be at least 8 characters long")
    else None
  }

  /** The early-return chain reports exactly the first failing check. */
  lemma ValidateSigninIsFirstFailure(identifier: string, password: string)
    ensures ValidateSignin(identifier, password) == FirstFailure(SigninChecks(identifier, password))
  {
    var checks := SigninChecks(identifier, password);
    forall k | 0 <= k < |checks| {
      FirstFailureStep(checks, k);
    }
    assert checks[0..] == checks && checks[4..] == [];
  }

  /** A username (no `@`) is never checked against the email pattern. */
  lemma UsernameSkipsEmailCheck(identifier: string, password: string)
    requires '@' !in identifier
    ensures ValidateSignin(identifier, password) != Some("Please enter a valid email address")
  {
  }

  /** A blank password is reported as missing, not as too short, and the
      length check counts the untrimmed characters. */
  lemma BlankPasswordReportedFirst(identifier: string, password: string)
    requires !JsString.AllWhitespace(identifier) && ('@' in identifier ==> EmailMatches(identifier))
    ensures JsString.AllWhitespace(password) ==>
              ValidateSignin(identifier, password) == Some("Please enter your password")
    ensures !JsString.AllWhitespace(password) && |password| >= 8 ==> ValidateSignin(identifier, password).None?
  {
  }

  /** The page lets through a two-letter username that the server's login
      schema refuses. */
  lemma ShortIdentifierPassesPage()
    ensures ValidateSignin("ab", "password") == None
    ensures ServerAuth.LoginIssues("ab", "password") == ["identifier"]
  {
    assert !JsString.IsWhitespace("ab"[0]);
    assert !JsString.IsWhitespace("password"[0]);
  }
}
