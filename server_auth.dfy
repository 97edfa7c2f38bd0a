/** The server's bearer-token middleware and the request-body bounds of the
    login and register schemas. Token verification (signature and expiry) is
    the parameter `verify`, which answers the payload or fails. */
module ServerAuth {
  import opened Common
  import JsString

  /** What a verified token carries. */
  datatype JwtPayload = JwtPayload(userId: int, username: string)

  /** `authHeader?.split(" ")[1]`: the second space-separated field of the
      header, whatever the first one says. */
  function BearerToken(authorization: Option<string>): (t: Option<string>)
    ensures t.Some? <==> authorization.Some? && ' ' in authorization.value
    ensures t.Some? ==> ' ' !in t.value
  {
    if authorization.None? then None
    else
      var fields := JsString.Split(authorization.value, ' ');
      SplitFields(authorization.value);
      if |fields| < 2 then None else Some(fields[1])
  }

  /** Splitting at a space gives a second field exactly when there is a
      space, and no field holds a space. */
  lemma {:induction false} SplitFields(s: string)
    ensures |JsString.Split(s, ' ')| >= 2 <==> ' ' in s
    ensures forall k :: 0 <= k < |JsString.Split(s, ' ')| ==> ' ' !in JsString.Split(s, ' ')[k]
    decreases |s|
  {
    var i := JsString.IndexOf(s, ' ');
    if i >= 0 {
      SplitFields(s[i + 1..]);
      assert s[i] == ' ';
    }
  }

  /** The first occurrence of a character is just after a prefix free of it. */
  lemma {:induction false} IndexAfterPrefix(x: string, c: char, y: string)
    requires c !in x
    ensures JsString.IndexOf(x + [c] + y, c) == |x|
  {
    if x != [] {
      assert (x + [c] + y)[1..] == x[1..] + [c] + y;
      IndexAfterPrefix(x[1..], c, y);
    }
  }

  /** Splitting at the first separator. */
  lemma SplitAt(x: string, c: char, y: string)
    requires c !in x
    ensures JsString.Split(x + [c] + y, c) == [x] + JsString.Split(y, c)
  {
    var s := x + [c] + y;
    IndexAfterPrefix(x, c, y);
    assert s[..|x|] == x;
    assert s[|x| + 1..] == y;
  }

  /** A string without the separator is one field. */
  lemma SplitNone(x: string, c: char)
    requires c !in x
    ensures JsString.Split(x, c) == [x]
  {
  }

  /** The token of `<scheme> <token>` (optionally followed by more
      space-separated fields) is `<token>`; the scheme word is not checked. */
  lemma TokenOfHeader(scheme: string, token: string, rest: string)
    requires ' ' !in scheme && ' ' !in token
    requires rest == [] || rest[0] == ' '
    ensures BearerToken(Some(scheme + " " + token + rest)) == Some(token)
  {
    var header := scheme + " " + token + rest;
    assert header == scheme + [' '] + (token + rest);
    SplitAt(scheme, ' ', token + rest);
    var tail := JsString.Split(token + rest, ' ');
    assert JsString.Split(header, ' ') == [scheme] + tail;
    if rest == [] {
      assert token + rest == token;
      SplitNone(token, ' ');
    } else {
      assert token + rest == token + [' '] + rest[1..];
      SplitAt(token, ' ', rest[1..]);
    }
    assert tail[0] == token;
    assert JsString.Split(header, ' ')[1] == token;
    assert ' ' in header by { assert header[|scheme|] == ' '; }
  }

  /** How the middleware ends the request's passage. */
  datatype Outcome = Unauthorized | Forbidden | Next(user: JwtPayload)

  /** The decision of `authenticateToken`: no (or an empty) token is 401,
      a token `verify` refuses is 403, otherwise the request goes on with the
      payload. */
  function Authenticate(authorization: Option<string>, verify: string -> Option<JwtPayload>): (o: Outcome)
    ensures o == Unauthorized <==> BearerToken(authorization).None? || BearerToken(authorization).value == ""
    ensures o == Forbidden <==>
              && BearerToken(authorization).Some? && BearerToken(authorization).value != ""
              && verify(BearerToken(authorization).value).None?
    ensures o.Next? <==>
              && BearerToken(authorization).Some? && BearerToken(authorization).value != ""
              && verify(BearerToken(authorization).value).Some?
    ensures o.Next? ==> verify(BearerToken(authorization).value) == Some(o.user)
  {
    var token := BearerToken(authorization);
    if token.None? || token.value == "" then Unauthorized
    else
      match verify(token.value)
      case None => Forbidden
      case Some(user) => Next(user)
  }

  /** Whether the first word is "Bearer", "Basic" or anything else does not
      change the outcome. */
  lemma SchemeIgnored(scheme1: string, scheme2: string, token: string, verify: string -> Option<JwtPayload>)
    requires ' ' !in scheme1 && ' ' !in scheme2 && ' ' !in token
    ensures Authenticate(Some(scheme1 + " " + token), verify) == Authenticate(Some(scheme2 + " " + token), verify)
  {
    TokenOfHeader(scheme1, token, "");
    TokenOfHeader(scheme2, token, "");
    assert scheme1 + " " + token + "" == scheme1 + " " + token;
    assert scheme2 + " " + token + "" == scheme2 + " " + token;
  }

  /** A header that is one word (no space) never reaches `verify`. */
  lemma OneWordHeaderUnauthorized(header: string, verify: string -> Option<JwtPayload>)
    requires ' ' !in header
    ensures Authenticate(Some(header), verify) == Unauthorized
  {
  }

  /** The request and response of one passage through the middleware: the
      user attached to the request, the status and message sent (0 while none
      was sent), and how many times `next` was called. */
  class Exchange {
    var user: Option<JwtPayload>
    var status: int
    var message: string
    var nextCalls: nat

    constructor ()
      ensures user == None && status == 0 && message == "" && nextCalls == 0
    {
      user := None;
      status := 0;
      message := "";
      nextCalls := 0;
    }
  }

  /** `authenticateToken(req, res, next)`: either a response is sent and
      `next` is not called, or the payload is attached and `next` is called
      exactly once. */
  method AuthenticateToken(ex: Exchange, authorization: Option<string>, verify: string -> Option<JwtPayload>)
    modifies ex
    ensures match Authenticate(authorization, verify)
            case Unauthorized =>
              ex.status == 401 && ex.message == "No token provided"
              && ex.user == old(ex.user) && ex.nextCalls == old(ex.nextCalls)
            case Forbidden =>
              ex.status == 403 && ex.message == "Invalid or expired token"
              && ex.user == old(ex.user) && ex.nextCalls == old(ex.nextCalls)
            case Next(payload) =>
              ex.user == Some(payload) && ex.nextCalls == old(ex.nextCalls) + 1
              && ex.status == old(ex.status) && ex.message == old(ex.message)
  {
    var token := BearerToken(authorization);
    if token.None? || token.value == "" {
      ex.status, ex.message := 401, "No token provided";
      return;
    }
    var verified := verify(token.value);
    if verified.None? {
      ex.status, ex.message := 403, "Invalid or expired token";
      return;
    }
    ex.user := verified;
    ex.nextCalls := ex.nextCalls + 1;
  }

  /** The path of each failing field of `loginSchema`, in field order. */
  function LoginIssues(identifier: string, password: string): (paths: seq<string>)
    ensures paths == [] <==> |identifier| >= 3 && |password| >= 6
    ensures "identifier" in paths <==> |identifier| < 3
    ensures "password" in paths <==> |password| < 6
  {
    (if |identifier| < 3 then ["identifier"] else [])
    + (if |password| < 6 then ["password"] else [])
  }

  /** The path of each failing field of `registerSchema`, in field order;
      `isEmail` is the email format check. */
  function RegisterIssues(username: string, email: string, password: string, isEmail: string -> bool)
    : (paths: seq<string>)
    ensures paths == [] <==> |username| >= 3 && isEmail(email) && |password| >= 6
    ensures "username" in paths <==> |username| < 3
    ensures "email" in paths <==> !isEmail(email)
    ensures "password" in paths <==> |password| < 6
  {
    (if |username| < 3 then ["username"] else [])
    + (if !isEmail(email) then ["email"] else [])
    + (if |password| < 6 then ["password"] else [])
  }

  /** Credentials the register schema accepts also pass the login schema,
      with the username as identifier. */
  lemma RegisteredCredentialsLogIn(username: string, email: string, password: string, isEmail: string -> bool)
    requires RegisterIssues(username, email, password, isEmail) == []
    ensures LoginIssues(username, password) == []
  {
  }
}
