/** The bearer-token gate: it reads the Authorization header, takes field 1 of the header
    split on single spaces, and answers 401 (no token), 403 (token rejected by the verifier)
    or attaches the decoded payload to the request and passes it on. */
module AuthGate {
  import opened Common
  import opened Crypto

  /** String.prototype.split with a one-character separator: the pieces between separators,
      empty pieces included, so "a  b" gives ["a", "", "b"] and "" gives [""]. */
  function Split(s: string, sep: char): (fields: seq<string>)
    ensures |fields| >= 1
    ensures forall f :: f in fields ==> sep !in f
    decreases |s|
  {
    if s == [] then [""]
    else
      var rest := Split(s[1..], sep);
      if s[0] == sep then [""] + rest
      else [[s[0]] + rest[0]] + rest[1..]
  }

  /** Array.prototype.join with a one-character separator. */
  function Join(fields: seq<string>, sep: char): string
    requires |fields| >= 1
    decreases |fields|
  {
    if |fields| == 1 then fields[0] else fields[0] + [sep] + Join(fields[1..], sep)
  }

  /** Joining the pieces back with the separator gives the original string. */
  lemma {:induction false} JoinSplit(s: string, sep: char)
    ensures Join(Split(s, sep), sep) == s
    decreases |s|
  {
    if s != [] {
      JoinSplit(s[1..], sep);
      var rest := Split(s[1..], sep);
      if s[0] != sep {
        if |rest| == 1 {
          assert Split(s, sep) == [[s[0]] + rest[0]];
        } else {
          assert Split(s, sep)[1..] == rest[1..];
          assert s == [s[0]] + s[1..];
        }
      }
    }
  }

  /** Splitting a join of separator-free pieces gives those pieces back: with JoinSplit,
      Split is the only way to cut a string into separator-free pieces. */
  lemma {:induction false} SplitJoin(fields: seq<string>, sep: char)
    requires |fields| >= 1
    requires forall f :: f in fields ==> sep !in f
    ensures Split(Join(fields, sep), sep) == fields
    decreases |fields|, |fields[0]|
  {
    if fields[0] == [] {
      if |fields| > 1 {
        assert fields[1..][0] == fields[1];
        SplitJoin(fields[1..], sep);
        assert Join(fields, sep) == [sep] + Join(fields[1..], sep);
      }
    } else {
      var c := fields[0][0];
      var shorter := [fields[0][1..]] + fields[1..];
      assert sep !in fields[0][1..] by {
        assert fields[0] in fields;
        assert forall x :: x in fields[0][1..] ==> x in fields[0];
      }
      assert forall f :: f in shorter ==> f == fields[0][1..] || f in fields;
      SplitJoin(shorter, sep);
      assert shorter[1..] == fields[1..];
      assert Join(fields, sep) == [c] + Join(shorter, sep);
      assert c != sep by { assert fields[0] in fields; }
      assert fields[0] == [c] + fields[0][1..];
    }
  }

  /** `authHeader && authHeader.split(' ')[1]`, read as a truth value: `None` when that
      expression is falsy (no header, an empty header, fewer than two fields, or an empty
      field 1), else field 1. */
  function TokenOf(header: Option<string>): (token: Option<string>)
    ensures token.Some? ==> token.value != "" && ' ' !in token.value
    ensures token.Some? ==> header.Some? && |Split(header.value, ' ')| >= 2 && token.value == Split(header.value, ' ')[1]
  {
    match header
    case None => None
    case Some(h) =>
      var fields := Split(h, ' ');
      if h == "" || |fields| < 2 || fields[1] == "" then None else Some(fields[1])
  }

  /** The header is "<scheme> <token><rest>", with no space in the scheme word and
      <rest> either empty or starting with a space. */
  predicate BearerShape(header: string, scheme: string, token: string, rest: string)
  {
    header == scheme + " " + token + rest && ' ' !in scheme && (rest == "" || rest[0] == ' ')
  }

  /** A header "<scheme> <token><rest>" yields exactly <token>, whatever the scheme word is,
      when neither the scheme nor the token holds a space and <rest> is empty or starts with one. */
  lemma TokenOfShape(h: string, scheme: string, token: string, rest: string)
    requires BearerShape(h, scheme, token, rest) && ' ' !in token && token != ""
    ensures TokenOf(Some(h)) == Some(token)
  {
    var fields: seq<string>;
    if rest == "" {
      fields := [scheme, token];
      assert Join(fields, ' ') == h;
    } else {
      var tail := Split(rest[1..], ' ');
      fields := [scheme, token] + tail;
      JoinSplit(rest[1..], ' ');
      assert fields[1..] == [token] + tail && fields[2..] == tail;
      calc {
        Join(fields, ' ');
        scheme + " " + Join(fields[1..], ' ');
        scheme + " " + (token + " " + Join(tail, ' '));
        { assert rest == " " + rest[1..]; }
        h;
      }
    }
    assert forall f :: f in fields ==> ' ' !in f;
    SplitJoin(fields, ' ');
  }

  /** Conversely, every token the gate extracts sits in its header in that shape. */
  lemma TokenOfCharacterized(h: string, token: string)
    requires TokenOf(Some(h)) == Some(token)
    ensures exists scheme, rest :: BearerShape(h, scheme, token, rest)
  {
    var fields := Split(h, ' ');
    JoinSplit(h, ' ');
    var scheme := fields[0];
    assert scheme in fields;
    var rest := if |fields| == 2 then "" else " " + Join(fields[2..], ' ');
    assert Join(fields, ' ') == scheme + " " + Join(fields[1..], ' ');
    assert fields[1..][0] == token;
    if |fields| > 2 {
      assert fields[1..][1..] == fields[2..];
    }
    assert h == scheme + " " + token + rest;
    assert BearerShape(h, scheme, token, rest);
  }

  /** "Bearer" alone and "Bearer " carry no token, whatever the scheme word. */
  lemma BareSchemeHasNoToken(scheme: string)
    requires ' ' !in scheme
    ensures TokenOf(Some(scheme)) == None
    ensures TokenOf(Some(scheme + " ")) == None
  {
    SplitJoin([scheme], ' ');
    SplitJoin([scheme, ""], ' ');
    assert Join([scheme, ""], ' ') == scheme + " ";
  }

  /** The three ways a request leaves the gate. */
  datatype Outcome =
    | MissingToken                 // 401 { error: "Missing token" }
    | InvalidToken                 // 403 { error: "Invalid token" }
    | Authenticated(user: Claims)  // req.user = payload; next()

  /** The gate's decision for a header, given the token verifier. */
  function Decide(header: Option<string>, verify: string -> Option<Claims>): (o: Outcome)
    ensures o == MissingToken <==> TokenOf(header).None?
    ensures o == InvalidToken <==> TokenOf(header).Some? && verify(TokenOf(header).value).None?
    ensures o.Authenticated? ==> TokenOf(header).Some? && verify(TokenOf(header).value) == Some(o.user)
  {
    match TokenOf(header)
    case None => MissingToken
    case Some(token) =>
      match verify(token)
      case None => InvalidToken
      case Some(user) => Authenticated(user)
  }

  /** A token issued by /register or /login, sent as "Bearer <token>", passes the gate
      with the payload it was issued for. */
  lemma IssuedTokenAuthenticates(j: Jwt, id: Id, email: string)
    requires JwtSound(j)
    ensures Decide(Some("Bearer " + IssueToken(j, id, email)), j.verify) == Authenticated(Claims(id, email))
  {
    var token := IssueToken(j, id, email);
    TokenOfShape("Bearer " + token, "Bearer", token, "");
  }

  /** The part of an Express request the gate reads and writes. */
  class Request {
    const authorization: Option<string>
    var user: Option<Claims>

    constructor (authorization: Option<string>)
      ensures this.authorization == authorization && user == None
    {
      this.authorization := authorization;
      user := None;
    }
  }

  /** The part of an Express response the gate writes: the status and the JSON error. */
  class Response {
    var status: Option<int>
    var error: Option<string>

    constructor ()
      ensures status == None && error == None
    {
      status, error := None, None;
    }
  }

  /** The `next` callback, counting how often it is called. */
  class Next {
    var calls: nat

    constructor ()
      ensures calls == 0
    {
      calls := 0;
    }

    method Call()
      modifies this
      ensures calls == old(calls) + 1
    {
      calls := calls + 1;
    }
  }

  /** authenticateToken(req, res, next). */
  method AuthenticateToken(req: Request, res: Response, next: Next, j: Jwt)
    modifies req, res, next
    ensures Decide(req.authorization, j.verify) == MissingToken ==>
      res.status == Some(401) && res.error == Some("Missing token") &&
      req.user == old(req.user) && next.calls == old(next.calls)
    ensures Decide(req.authorization, j.verify) == InvalidToken ==>
      res.status == Some(403) && res.error == Some("Invalid token") &&
      req.user == old(req.user) && next.calls == old(next.calls)
    ensures Decide(req.authorization, j.verify).Authenticated? ==>
      req.user == Some(Decide(req.authorization, j.verify).user) &&
      next.calls == old(next.calls) + 1 &&
      res.status == old(res.status) && res.error == old(res.error)
  {
    var token := TokenOf(req.authorization);
    if token.None? {
      res.status, res.error := Some(401), Some("Missing token");
      return;
    }
    var decoded := j.verify(token.value);
    if decoded.None? {
      res.status, res.error := Some(403), Some("Invalid token");
      return;
    }
    req.user := decoded;
    next.Call();
  }
}
