/** Pieces shared by the client's form validators: the email pattern
    `^[^\s@]+@[^\s@]+\.[^\s@]+$`, the "first failing check" discipline of the
    early-return validators, and schema issues. */
module Validation {
  import opened Common
  import JsString

  /** A schema complaint: the field it is attached to and its message. */
  datatype Issue = Issue(path: string, message: string)

  /** One test of an early-return validator with the message it reports. */
  datatype Check = Check(passes: bool, message: string)

  /** The message of the first check that fails, in order; none when all
      pass. */
  function FirstFailure(checks: seq<Check>): (r: Option<string>)
    ensures r.None? <==> forall k :: 0 <= k < |checks| ==> checks[k].passes
  {
    if checks == [] then None
    else if !checks[0].passes then Some(checks[0].message)
    else FirstFailure(checks[1..])
  }

  /** One step of the scan, from position `k`. */
  lemma FirstFailureStep(checks: seq<Check>, k: int)
    requires 0 <= k < |checks|
    ensures FirstFailure(checks[k..]) ==
              if checks[k].passes then FirstFailure(checks[k + 1..]) else Some(checks[k].message)
  {
    assert checks[k..][1..] == checks[k + 1..];
  }

  /** The reported message is that of a failing check preceded only by
      passing ones. */
  lemma {:induction false} FirstFailureIsFirst(checks: seq<Check>)
    requires FirstFailure(checks).Some?
    ensures exists k :: 0 <= k < |checks| && !checks[k].passes && checks[k].message == FirstFailure(checks).value
                        && forall m :: 0 <= m < k ==> checks[m].passes
  {
    if checks[0].passes {
      FirstFailureIsFirst(checks[1..]);
      var k :| 0 <= k < |checks[1..]| && !checks[1..][k].passes && checks[1..][k].message == FirstFailure(checks).value
               && forall m :: 0 <= m < k ==> checks[1..][m].passes;
      assert !checks[k + 1].passes && checks[k + 1].message == FirstFailure(checks).value;
      forall m | 0 <= m < k + 1 ensures checks[m].passes {
        if m > 0 {
          assert checks[m] == checks[1..][m - 1];
        }
      }
    } else {
      assert !checks[0].passes && checks[0].message == FirstFailure(checks).value;
    }
  }

  /** A character of the class `[^\s@]`. */
  predicate Plain(c: char) {
    !JsString.IsWhitespace(c) && c != '@'
  }

  predicate AllPlain(s: string) {
    forall i :: 0 <= i < |s| ==> Plain(s[i])
  }

  /** The text after the `@`: plain characters with a dot that is neither the
      first nor the last of them. */
  predicate DomainMatches(d: string) {
    AllPlain(d) && exists j :: 1 <= j < |d| - 1 && d[j] == '.'
  }

  /** The email pattern, checked by locating the `@`. */
  predicate EmailMatches(s: string) {
    var at := JsString.IndexOf(s, '@');
    1 <= at && AllPlain(s[..at]) && DomainMatches(s[at + 1..])
  }

  /** What the pattern describes: `local@name.rest` with three non-empty
      plain pieces. */
  ghost predicate EmailShape(s: string) {
    exists local: string, name: string, rest: string ::
      && local != [] && name != [] && rest != []
      && AllPlain(local) && AllPlain(name) && AllPlain(rest)
      && s == local + "@" + name + "." + rest
  }

  /** The check computes the pattern. */
  lemma EmailMatchesShape(s: string)
    ensures EmailMatches(s) <==> EmailShape(s)
  {
    if EmailMatches(s) {
      var at := JsString.IndexOf(s, '@');
      var d := s[at + 1..];
      var j :| 1 <= j < |d| - 1 && d[j] == '.';
      var local, name, rest := s[..at], d[..j], d[j + 1..];
      assert AllPlain(name) && AllPlain(rest);
      assert d == name + "." + rest;
      assert s == local + "@" + name + "." + rest;
    }
    if EmailShape(s) {
      var local: string, name: string, rest: string :|
        && local != [] && name != [] && rest != []
        && AllPlain(local) && AllPlain(name) && AllPlain(rest)
        && s == local + "@" + name + "." + rest;
      ShapeFacts(s, local, name, rest);
    }
  }

  lemma ShapeFacts(s: string, local: string, name: string, rest: string)
    requires local != [] && name != [] && rest != []
    requires AllPlain(local) && AllPlain(name) && AllPlain(rest)
    requires s == local + "@" + name + "." + rest
    ensures EmailMatches(s)
  {
    var at := JsString.IndexOf(s, '@');
    assert s[|local|] == '@';
    assert '@' !in local by {
      forall i | 0 <= i < |local| ensures local[i] != '@' {
        assert Plain(local[i]);
      }
    }
    assert s[..|local|] == local;
    assert at == |local|;
    var d := s[at + 1..];
    assert d == name + "." + rest;
    assert d[|name|] == '.';
    assert AllPlain(d) by {
      forall i | 0 <= i < |d| ensures Plain(d[i]) {
        if i < |name| {
          assert d[i] == name[i];
        } else if i > |name| {
          assert d[i] == rest[i - |name| - 1];
        }
      }
    }
  }
}
