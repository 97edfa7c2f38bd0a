/** The account page's form schema, its cross-field rule on the new
    password, and the form reset after a successful update. `isEmail` is the
    schema library's email check. */
module Account {
  import opened Common
  import opened Validation

  datatype AccountForm = AccountForm(
    username: string, email: string, currentPassword: string,
    newPassword: Option<string>, confirmNewPassword: Option<string>)

  /** The `refine` rule: a non-empty new password must equal its
      confirmation (an absent confirmation differs from any password). */
  predicate PasswordsAgree(f: AccountForm) {
    !(f.newPassword.Some? && f.newPassword.value != "" && f.newPassword != f.confirmNewPassword)
  }

  /** The issues of `accountFormSchema`: the field checks in field order,
      then the refinement, which reports on the confirmation field. */
  function AccountIssues(f: AccountForm, isEmail: string -> bool): (issues: seq<Issue>)
    ensures issues == [] <==>
              |f.username| >= 3 && isEmail(f.email) && |f.currentPassword| >= 1 && PasswordsAgree(f)
    ensures forall i :: 0 <= i < |issues| ==> issues[i].path != "newPassword"
  {
    var u := FieldIssue(|f.username| >= 3, Issue("username", "Username must be at least 3 characters"));
    var e := FieldIssue(isEmail(f.email), Issue("email", "Please enter a valid email address"));
    var c := FieldIssue(|f.currentPassword| >= 1, Issue("currentPassword", "Current password is required for changes"));
    var m := FieldIssue(PasswordsAgree(f), Issue("confirmNewPassword", "New passwords don't match"));
    forall i | 0 <= i < |u + (e + (c + m))| ensures (u + (e + (c + m)))[i].path != "newPassword" {
      InFour(u, e, c, m, (u + (e + (c + m)))[i]);
    }
    u + (e + (c + m))
  }

  /** An issue is in the joined list exactly when it is in one of the parts. */
  lemma InFour(u: seq<Issue>, e: seq<Issue>, c: seq<Issue>, m: seq<Issue>, x: Issue)
    ensures x in u + (e + (c + m)) <==> x in u || x in e || x in c || x in m
  {
  }

  /** Each failing check is reported with its message, and only then. */
  lemma AccountIssuesReported(f: AccountForm, isEmail: string -> bool)
    ensures Issue("username", "Username must be at least 3 characters") in AccountIssues(f, isEmail)
            <==> |f.username| < 3
    ensures Issue("email", "Please enter a valid email address") in AccountIssues(f, isEmail)
            <==> !isEmail(f.email)
    ensures Issue("currentPassword", "Current password is required for changes") in AccountIssues(f, isEmail)
            <==> f.currentPassword == ""
    ensures Issue("confirmNewPassword", "New passwords don't match") in AccountIssues(f, isEmail)
            <==> !PasswordsAgree(f)
  {
    var u := FieldIssue(|f.username| >= 3, Issue("username", "Username must be at least 3 characters"));
    var e := FieldIssue(isEmail(f.email), Issue("email", "Please enter a valid email address"));
    var c := FieldIssue(|f.currentPassword| >= 1, Issue("currentPassword", "Current password is required for changes"));
    var m := FieldIssue(PasswordsAgree(f), Issue("confirmNewPassword", "New passwords don't match"));
    assert AccountIssues(f, isEmail) == u + (e + (c + m));
    InFour(u, e, c, m, Issue("username", "Username must be at least 3 characters"));
    InFour(u, e, c, m, Issue("email", "Please enter a valid email address"));
    InFour(u, e, c, m, Issue("currentPassword", "Current password is required for changes"));
    InFour(u, e, c, m, Issue("confirmNewPassword", "New passwords don't match"));
  }

  /** No issue when the test passes, the one issue when it fails. */
  function FieldIssue(passes: bool, issue: Issue): (r: seq<Issue>)
    ensures r == [] <==> passes
    ensures forall x :: x in r <==> !passes && x == issue
  {
    if passes then [] else [issue]
  }

  /** Leaving the new password empty (or out) skips the comparison, whatever
      the confirmation holds. */
  lemma EmptyNewPasswordNeverMismatches(f: AccountForm, isEmail: string -> bool)
    requires f.newPassword.None? || f.newPassword == Some("")
    ensures Issue("confirmNewPassword", "New passwords don't match") !in AccountIssues(f, isEmail)
  {
  }

  /** `form.reset({...data, currentPassword: "", newPassword: "",
      confirmNewPassword: ""})` */
  function ResetPasswords(data: AccountForm): (r: AccountForm)
    ensures r.username == data.username && r.email == data.email
    ensures r.currentPassword == "" && r.newPassword == Some("") && r.confirmNewPassword == Some("")
    ensures PasswordsAgree(r)
  {
    data.(currentPassword := "", newPassword := Some(""), confirmNewPassword := Some(""))
  }

  /** After a successful update the form keeps the accepted details and
      needs only the current password again to be submittable. */
  lemma ResetNeedsOnlyCurrentPassword(data: AccountForm, isEmail: string -> bool)
    requires AccountIssues(data, isEmail) == []
    ensures AccountIssues(ResetPasswords(data), isEmail) ==
              [Issue("currentPassword", "Current password is required for changes")]
    ensures forall p :: p != "" ==> AccountIssues(ResetPasswords(data).(currentPassword := p), isEmail) == []
  {
  }
}
