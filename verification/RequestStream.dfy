/** What a stream of received bytes asks for, however it was cut into reads. */
module RequestStream {
  import opened RequestParser

  /** The complete requests of a stream, the request after them, and the parser's state within it. */
  datatype Stream = Stream(complete: seq<Request>, current: Request, parser: State)

  const SILENCE := Stream([], FRESH, MethodStart)

  function Settle(complete: seq<Request>, p: Parsed): Stream {
    match p.verdict
    case Good => Stream(complete + [p.req], FRESH, MethodStart)
    case Bad => Stream(complete, p.req, MethodStart)
    case Indeterminate => Stream(complete, p.req, p.state)
  }

  /** Nothing after invalid data is looked at. */
  function Push(s: Stream, c: char): Stream {
    if s.current.isBad then s else Settle(s.complete, Consume(s.parser, s.current, c))
  }

  function Absorb(s: Stream, input: string): Stream {
    if input == "" then s else Push(Absorb(s, input[..|input| - 1]), input[|input| - 1])
  }

  predicate IsComplete(r: Request) { r.isReady && !r.isBad }

  predicate Proper(s: Stream) {
    (forall i :: 0 <= i < |s.complete| ==> IsComplete(s.complete[i])) && !s.current.isReady
  }

  lemma ConsumeFlags(st: State, req: Request, c: char)
    requires !req.isBad && !req.isReady
    ensures
      var p := Consume(st, req, c);
      match p.verdict
      case Good => IsComplete(p.req)
      case Bad => p.req.isBad && !p.req.isReady
      case Indeterminate => !p.req.isBad && !p.req.isReady
  {
  }

  lemma {:induction false} FeedFlags(st: State, req: Request, input: string)
    requires !req.isBad && !req.isReady
    ensures
      var p := Feed(st, req, input);
      match p.verdict
      case Good => IsComplete(p.req)
      case Bad => p.req.isBad && !p.req.isReady
      case Indeterminate => !p.req.isBad && !p.req.isReady
  {
    hide Consume;
    if input != "" {
      var n := |input| - 1;
      FeedFlags(st, req, input[..n]);
      var p := Feed(st, req, input[..n]);
      if p.verdict.Indeterminate? {
        ConsumeFlags(p.state, p.req, input[n]);
      }
    }
  }

  lemma PushKeepsProper(s: Stream, c: char)
    requires Proper(s)
    ensures Proper(Push(s, c))
  {
    hide Consume;
    if !s.current.isBad {
      ConsumeFlags(s.parser, s.current, c);
    }
  }

  lemma {:induction false} AbsorbKeepsProper(s: Stream, input: string)
    requires Proper(s)
    ensures Proper(Absorb(s, input))
  {
    hide Proper, Push;
    if input != "" {
      var n := |input| - 1;
      AbsorbKeepsProper(s, input[..n]);
      PushKeepsProper(Absorb(s, input[..n]), input[n]);
    }
  }

  lemma {:induction false} AbsorbConcat(s: Stream, a: string, b: string)
    ensures Absorb(s, a + b) == Absorb(Absorb(s, a), b)
  {
    if b == "" {
      assert a + b == a;
    } else {
      var n := |b| - 1;
      AbsorbConcat(s, a, b[..n]);
      assert (a + b)[..|a| + n] == a + b[..n];
    }
  }

  /** More bytes only add requests, and change nothing once data was invalid. */
  lemma {:induction false} AbsorbGrows(s: Stream, more: string)
    ensures s.complete <= Absorb(s, more).complete
    ensures s.current.isBad ==> Absorb(s, more) == s
  {
    hide Consume;
    if more != "" {
      AbsorbGrows(s, more[..|more| - 1]);
    }
  }

  /** One call of the parser, up to the character that decides, is that much of the stream. */
  lemma {:induction false} AbsorbIsFeed(s: Stream, input: string)
    requires !s.current.isBad && !s.current.isReady
    requires input == "" || Feed(s.parser, s.current, input[..|input| - 1]).verdict.Indeterminate?
    ensures Absorb(s, input) == Settle(s.complete, Feed(s.parser, s.current, input))
  {
    hide Consume;
    if input != "" {
      var n := |input| - 1;
      if n > 0 {
        assert Feed(s.parser, s.current, input[..n][..n - 1]).verdict.Indeterminate?;
      }
      AbsorbIsFeed(s, input[..n]);
      FeedFlags(s.parser, s.current, input[..n]);
    }
  }

  /** Requests already complete only stand in front of those to come. */
  lemma {:induction false} AbsorbAfter(done: seq<Request>, s: Stream, input: string)
    ensures
      var t := Absorb(s, input);
      Absorb(Stream(done + s.complete, s.current, s.parser), input) == Stream(done + t.complete, t.current, t.parser)
  {
    hide Consume;
    if input != "" {
      var n := |input| - 1;
      AbsorbAfter(done, s, input[..n]);
      var t := Absorb(s, input[..n]);
      var p := Consume(t.parser, t.current, input[n]);
      assert done + (t.complete + [p.req]) == done + t.complete + [p.req];
    }
  }
}
