/** The incremental HTTP request parser. A character above 127 stands for a byte above 127. */
module RequestParser {
  datatype Header = Header(name: string, value: string)

  datatype Request = Request(
    method_: string, uri: string, major: nat, minor: nat, headers: seq<Header>, isReady: bool, isBad: bool)

  const FRESH := Request("", "", 0, 0, [], false, false)

  datatype State =
    | MethodStart | Method | UriStart | Uri
    | VersionH | VersionT1 | VersionT2 | VersionP | VersionSlash
    | MajorStart | Major | MinorStart | Minor
    | ExpectingNewline1 | HeaderLineStart | HeaderLws | HeaderName | SpaceBeforeValue | HeaderValue
    | ExpectingNewline2 | ExpectingNewline3

  /** The tribool: a complete request, invalid data, or more data needed. */
  datatype Verdict = Good | Bad | Indeterminate

  datatype Parsed = Parsed(state: State, req: Request, verdict: Verdict)

  // ----- Character classes

  predicate IsChar(c: char) { c as int <= 127 }
  predicate IsCtl(c: char) { c as int <= 31 || c as int == 127 }
  predicate IsTspecial(c: char) { c in "()<>@,;:\\\"/[]?={} \t" }
  predicate IsDigit(c: char) { '0' <= c <= '9' }
  predicate IsToken(c: char) { IsChar(c) && !IsCtl(c) && !IsTspecial(c) }

  function Digit(c: char): nat
    requires IsDigit(c)
  {
    c as int - '0' as int
  }

  // ----- One character

  function Fail(st: State, req: Request): Parsed { Parsed(st, req.(isBad := true), Bad) }
  function Go(st: State, req: Request): Parsed { Parsed(st, req, Indeterminate) }

  function Expect(ok: bool, st: State, next: State, req: Request): Parsed {
    if ok then Go(next, req) else Fail(st, req)
  }

  /** Appends to the value, or the name, of the last header; without a header nothing changes. */
  function PushValue(req: Request, c: char): Request {
    if req.headers == [] then req
    else
      var n := |req.headers| - 1;
      req.(headers := req.headers[n := req.headers[n].(value := req.headers[n].value + [c])])
  }

  function PushName(req: Request, c: char): Request {
    if req.headers == [] then req
    else
      var n := |req.headers| - 1;
      req.(headers := req.headers[n := req.headers[n].(name := req.headers[n].name + [c])])
  }

  function Consume(st: State, req: Request, c: char): Parsed {
    match st
    case MethodStart => if IsToken(c) then Go(Method, req.(method_ := req.method_ + [c])) else Fail(st, req)
    case Method =>
      if c == ' ' then Go(Uri, req)
      else if IsToken(c) then Go(Method, req.(method_ := req.method_ + [c]))
      else Fail(st, req)
    case UriStart => if IsCtl(c) then Fail(st, req) else Go(Uri, req.(uri := req.uri + [c]))
    case Uri =>
      if c == ' ' then Go(VersionH, req)
      else if IsCtl(c) then Fail(st, req)
      else Go(Uri, req.(uri := req.uri + [c]))
    case VersionH => Expect(c == 'H', st, VersionT1, req)
    case VersionT1 => Expect(c == 'T', st, VersionT2, req)
    case VersionT2 => Expect(c == 'T', st, VersionP, req)
    case VersionP => Expect(c == 'P', st, VersionSlash, req)
    case VersionSlash => if c == '/' then Go(MajorStart, req.(major := 0, minor := 0)) else Fail(st, req)
    case MajorStart => if IsDigit(c) then Go(Major, req.(major := req.major * 10 + Digit(c))) else Fail(st, req)
    case Major =>
      if c == '.' then Go(MinorStart, req)
      else if IsDigit(c) then Go(Major, req.(major := req.major * 10 + Digit(c)))
      else Fail(st, req)
    case MinorStart => if IsDigit(c) then Go(Minor, req.(minor := req.minor * 10 + Digit(c))) else Fail(st, req)
    case Minor =>
      if c == '\r' then Go(ExpectingNewline1, req)
      else if IsDigit(c) then Go(Minor, req.(minor := req.minor * 10 + Digit(c)))
      else Fail(st, req)
    case ExpectingNewline1 => Expect(c == '\n', st, HeaderLineStart, req)
    case HeaderLineStart =>
      if c == '\r' then Go(ExpectingNewline3, req)
      else if req.headers != [] && (c == ' ' || c == '\t') then Go(HeaderLws, req)
      else if IsToken(c) then Go(HeaderName, req.(headers := req.headers + [Header([c], "")]))
      else Fail(st, req)
    case HeaderLws =>
      if c == '\r' then Go(ExpectingNewline2, req)
      else if c == ' ' || c == '\t' then Go(HeaderLws, req)
      else if IsCtl(c) then Fail(st, req)
      else Go(HeaderValue, PushValue(req, c))
    case HeaderName =>
      if c == ':' then Go(SpaceBeforeValue, req)
      else if IsToken(c) then Go(HeaderName, PushName(req, c))
      else Fail(st, req)
    case SpaceBeforeValue => Expect(c == ' ', st, HeaderValue, req)
    case HeaderValue =>
      if c == '\r' then Go(ExpectingNewline2, req)
      else if IsCtl(c) then Fail(st, req)
      else Go(HeaderValue, PushValue(req, c))
    case ExpectingNewline2 => Expect(c == '\n', st, HeaderLineStart, req)
    case ExpectingNewline3 =>
      if c == '\n' then Parsed(st, req.(isBad := false, isReady := true), Good) else Fail(st, req)
  }

  // ----- A run of characters

  /** Feeds characters while the verdict is open; characters after a verdict are not looked at. */
  function Feed(st: State, req: Request, input: string): Parsed {
    if input == "" then Go(st, req)
    else
      var p := Feed(st, req, input[..|input| - 1]);
      if p.verdict.Indeterminate? then Consume(p.state, p.req, input[|input| - 1]) else p
  }

  lemma {:induction false} FeedConcat(st: State, req: Request, a: string, b: string)
    ensures
      var p := Feed(st, req, a);
      Feed(st, req, a + b) == if p.verdict.Indeterminate? then Feed(p.state, p.req, b) else p
  {
    hide Consume;
    if b == "" {
      assert a + b == a;
    } else {
      FeedConcat(st, req, a, b[..|b| - 1]);
      assert (a + b)[..|a + b| - 1] == a + b[..|b| - 1];
    }
  }

  // ----- Printing and parsing

  function Line(h: Header): string { h.name + ": " + h.value + "\r\n" }

  function Lines(hs: seq<Header>): string {
    if hs == [] then "" else Lines(hs[..|hs| - 1]) + Line(hs[|hs| - 1])
  }

  predicate Token(s: string) { s != "" && forall i :: 0 <= i < |s| ==> IsToken(s[i]) }
  predicate Text(s: string) { forall i :: 0 <= i < |s| ==> !IsCtl(s[i]) }

  lemma {:induction false} FeedMethod(req: Request, s: string)
    requires forall i :: 0 <= i < |s| ==> IsToken(s[i])
    ensures Feed(Method, req, s) == Go(Method, req.(method_ := req.method_ + s))
  {
    if s == "" {
      assert req.method_ + s == req.method_;
    } else {
      var n := |s| - 1;
      FeedMethod(req, s[..n]);
      assert IsToken(s[n]);
      assert req.method_ + s[..n] + [s[n]] == req.method_ + s;
    }
  }

  lemma {:induction false} FeedUri(req: Request, s: string)
    requires Text(s) && ' ' !in s
    ensures Feed(Uri, req, s) == Go(Uri, req.(uri := req.uri + s))
  {
    if s == "" {
      assert req.uri + s == req.uri;
    } else {
      var n := |s| - 1;
      FeedUri(req, s[..n]);
      assert s[n] != ' ' && !IsCtl(s[n]);
      assert req.uri + s[..n] + [s[n]] == req.uri + s;
    }
  }

  /** The request with one more header, whose parts are so far these. */
  function With(req: Request, name: string, value: string): Request {
    req.(headers := req.headers + [Header(name, value)])
  }

  lemma PushOnto(req: Request, name: string, value: string, c: char)
    ensures PushName(With(req, name, value), c) == With(req, name + [c], value)
    ensures PushValue(With(req, name, value), c) == With(req, name, value + [c])
  {
    var r := With(req, name, value);
    assert r.headers[|req.headers| := Header(name + [c], value)] == With(req, name + [c], value).headers;
    assert r.headers[|req.headers| := Header(name, value + [c])] == With(req, name, value + [c]).headers;
  }

  lemma {:induction false} FeedName(req: Request, name: string)
    requires Token(name)
    ensures Feed(HeaderLineStart, req, name) == Go(HeaderName, With(req, name, ""))
  {
    var n := |name| - 1;
    var p := Feed(HeaderLineStart, req, name[..n]);
    assert IsToken(name[n]);
    if n == 0 {
      assert name[..0] == "" && name == [name[0]];
      assert p == Go(HeaderLineStart, req);
    } else {
      FeedName(req, name[..n]);
      PushOnto(req, name[..n], "", name[n]);
      assert name[..n] + [name[n]] == name;
    }
  }

  lemma {:induction false} FeedValue(req: Request, name: string, s: string)
    requires Text(s)
    ensures Feed(HeaderValue, With(req, name, ""), s) == Go(HeaderValue, With(req, name, s))
  {
    if s != "" {
      var n := |s| - 1;
      FeedValue(req, name, s[..n]);
      PushOnto(req, name, s[..n], s[n]);
      assert s[..n] + [s[n]] == s && !IsCtl(s[n]);
    }
  }

  /** Feeds two runs one after the other, the first leaving the verdict open. */
  lemma Then(st: State, req: Request, a: string, mid: Parsed, b: string, end: Parsed)
    requires Feed(st, req, a) == mid && mid.verdict.Indeterminate?
    requires Feed(mid.state, mid.req, b) == end
    ensures Feed(st, req, a + b) == end
  {
    FeedConcat(st, req, a, b);
  }

  lemma FeedOne(st: State, req: Request, s: string)
    requires |s| == 1
    ensures Feed(st, req, s) == Consume(st, req, s[0])
  {
    assert s[..0] == "";
  }

  lemma FeedTwo(st: State, req: Request, s: string)
    requires |s| == 2
    ensures
      var p := Consume(st, req, s[0]);
      Feed(st, req, s) == if p.verdict.Indeterminate? then Consume(p.state, p.req, s[1]) else p
  {
    assert s[..1] == [s[0]] && s[..1][..0] == "";
    FeedOne(st, req, s[..1]);
  }

  /** Two characters, neither of which decides. */
  lemma Pair(st: State, req: Request, s: string, mid: Parsed, end: Parsed)
    requires |s| == 2 && mid.verdict.Indeterminate?
    requires Consume(st, req, s[0]) == mid && Consume(mid.state, mid.req, s[1]) == end
    ensures Feed(st, req, s) == end
  {
    hide Consume;
    FeedTwo(st, req, s);
  }

  lemma FeedLine(req: Request, h: Header)
    requires Token(h.name) && Text(h.value)
    ensures Feed(HeaderLineStart, req, Line(h)) == Go(HeaderLineStart, With(req, h.name, h.value))
  {
    hide IsToken, With, Feed;
    var named, full := With(req, h.name, ""), With(req, h.name, h.value);
    FeedName(req, h.name);
    Pair(HeaderName, named, ": ", Go(SpaceBeforeValue, named), Go(HeaderValue, named));
    Then(HeaderLineStart, req, h.name, Go(HeaderName, named), ": ", Go(HeaderValue, named));
    FeedValue(req, h.name, h.value);
    Then(HeaderLineStart, req, h.name + ": ", Go(HeaderValue, named), h.value, Go(HeaderValue, full));
    Pair(HeaderValue, full, "\r\n", Go(ExpectingNewline2, full), Go(HeaderLineStart, full));
    Then(HeaderLineStart, req, h.name + ": " + h.value, Go(HeaderValue, full), "\r\n", Go(HeaderLineStart, full));
  }

  lemma FeedProtocol(req: Request)
    ensures Feed(VersionH, req, "HTTP") == Go(VersionSlash, req)
  {
    hide Feed;
    Pair(VersionH, req, "HT", Go(VersionT1, req), Go(VersionT2, req));
    Pair(VersionT2, req, "TP", Go(VersionP, req), Go(VersionSlash, req));
    Then(VersionH, req, "HT", Go(VersionT2, req), "TP", Go(VersionSlash, req));
    assert "HT" + "TP" == "HTTP";
  }

  lemma FeedMethodWord(m: string)
    requires Token(m)
    ensures Feed(MethodStart, FRESH, m) == Go(Method, FRESH.(method_ := m))
  {
    assert IsToken(m[0]);
    FeedOne(MethodStart, FRESH, m[..1]);
    FeedMethod(FRESH.(method_ := [m[0]]), m[1..]);
    assert m[..1] + m[1..] == m && [m[0]] + m[1..] == m && "" + [m[0]] == [m[0]];
    Then(MethodStart, FRESH, m[..1], Go(Method, FRESH.(method_ := [m[0]])), m[1..], Go(Method, FRESH.(method_ := m)));
  }

  class Parser {
    var state: State

    constructor ()
      ensures state == MethodStart
    {
      state := MethodStart;
    }

    method Reset()
      modifies this
      ensures state == MethodStart
    {
      state := MethodStart;
    }

    /** The parse loop: stops after the character that decides, or at the end. */
    method Parse(req: Request, input: string, begin: nat) returns (req': Request, verdict: Verdict, next: nat)
      requires begin <= |input|
      modifies this
      ensures begin <= next <= |input| && Parsed(state, req', verdict) == Feed(old(state), req, input[begin..next])
      ensures verdict.Indeterminate? ==> next == |input|
      ensures !verdict.Indeterminate? ==>
        begin < next && Feed(old(state), req, input[begin..next - 1]).verdict.Indeterminate?
      ensures begin < |input| ==> begin < next
    {
      hide Consume;
      req', verdict, next := req, Indeterminate, begin;
      while next != |input|
        invariant begin <= next <= |input| && verdict.Indeterminate?
        invariant Parsed(state, req', verdict) == Feed(old(state), req, input[begin..next])
        decreases |input| - next
      {
        assert input[begin..next + 1][..next - begin] == input[begin..next];
        var p := Consume(state, req', input[next]);
        next := next + 1;
        state, req', verdict := p.state, p.req, p.verdict;
        if !verdict.Indeterminate? {
          return;
        }
      }
    }
  }
}
