/**
 * One HTTP connection: a queue of requests filled by the parser, one reply at a time, written whole or in chunks
 * that a token bucket lets through. Completions of asynchronous operations are events.
 */
module Connection {
  import opened Wrappers
  import opened RequestParser
  import opened RequestStream
  import opened HttpReply

  /** An asynchronous operation that was started and has not completed. */
  datatype Op = Reading | Handling | Writing | WritingHeader | WritingChunk(size: nat) | Waiting

  /** A finished request and the reply that went out for it. */
  datatype Answer = Answer(req: Request, reply: Reply)

  /**
   * What happened: bytes received, requests given to the handler, requests answered, bytes written, and how many
   * of those belong to the reply under way. `finished` tells a close after a reply from a close on an error.
   */
  datatype History = History(
    received: string, handed: seq<Request>, answered: seq<Answer>, output: string, partial: nat, finished: bool)

  datatype Conn = Conn(
    parser: State, requests: seq<Request>, inProgress: bool, closeAfter: bool, reply: Reply,
    pending: seq<Op>, closed: bool, log: History)

  // ----- Handlers

  function FirstValue(hs: seq<Header>, name: string): string {
    if hs == [] then "" else if hs[0].name == name then hs[0].value else FirstValue(hs[1..], name)
  }

  predicate Closer(req: Request) { FirstValue(req.headers, "Connection") == "close" }

  /** A request asks for the connection to be closed exactly if the first of its Connection headers says so. */
  lemma CloserIff(req: Request)
    ensures
      Closer(req) <==> exists i :: 0 <= i < |req.headers| && req.headers[i] == Header("Connection", "close")
                                   && forall j :: 0 <= j < i ==> req.headers[j].name != "Connection"
  {
    FirstValueIff(req.headers, "Connection", "close");
  }

  lemma {:induction false} FirstValueIff(hs: seq<Header>, name: string, value: string)
    requires value != ""
    ensures
      FirstValue(hs, name) == value <==> exists i :: 0 <= i < |hs| && hs[i] == Header(name, value)
                                                     && forall j :: 0 <= j < i ==> hs[j].name != name
  {
    if hs != [] {
      FirstValueIff(hs[1..], name, value);
      if hs[0].name != name {
        if i :| 0 <= i < |hs| && hs[i] == Header(name, value) && forall j :: 0 <= j < i ==> hs[j].name != name {
          assert hs[1..][i - 1] == hs[i] && forall j :: 0 <= j < i - 1 ==> hs[1..][j].name != name;
        }
        if i :| 0 <= i < |hs[1..]| && hs[1..][i] == Header(name, value)
                && forall j :: 0 <= j < i ==> hs[1..][j].name != name {
          assert hs[i + 1] == Header(name, value);
          forall j | 0 <= j < i + 1 ensures hs[j].name != name { if j > 0 { assert hs[1..][j - 1] == hs[j]; } }
        }
      }
    }
  }

  const OPENED := Conn(MethodStart, [FRESH], false, false, RESET, [Reading], false, History("", [], [], "", 0, false))

  function Without(ops: seq<Op>, op: Op): seq<Op> {
    if ops == [] then [] else if ops[0] == op then ops[1..] else [ops[0]] + Without(ops[1..], op)
  }

  /** The completion of `op` is being handled. */
  function Done(c: Conn, op: Op): Conn { c.(pending := Without(c.pending, op)) }
  function Begin(c: Conn, op: Op): Conn { c.(pending := c.pending + [op]) }

  function ProcessNext(c: Conn): Conn
    requires c.requests != []
  {
    if c.requests[0].isBad then Begin(c.(inProgress := true, reply := BAD_REQUEST, closeAfter := true), Writing)
    else if c.requests[0].isReady then
      Begin(c.(inProgress := true, reply := RESET, log := c.log.(handed := c.log.handed + [c.requests[0]])), Handling)
    else Begin(c.(inProgress := false), Reading)
  }

  /** Puts the requests of a stream that starts in the last request of the queue at the end of the queue. */
  function Enqueue(c: Conn, input: string): Conn
    requires c.requests != []
  {
    var n := |c.requests| - 1;
    var s := Absorb(Stream([], c.requests[n], c.parser), input);
    c.(parser := s.parser, requests := c.requests[..n] + s.complete + [s.current],
       log := c.log.(received := c.log.received + input))
  }

  /** With nothing to process yet, reading goes on. */
  function Received(c: Conn): Conn
    requires c.requests != []
  {
    if c.requests[0].isReady || c.requests[0].isBad then c else Begin(c, Reading)
  }

  function OnRead(c: Conn, input: string): Conn
    requires c.requests != []
  {
    var d := Received(Enqueue(Done(c, Reading), input));
    if d.requests[0].isReady || d.requests[0].isBad then ProcessNext(d) else d
  }

  /** A reply whose text is out: its request is finished. */
  function Finish(c: Conn): Conn
    requires c.requests != [] && (c.closeAfter || |c.requests| > 1)
  {
    var log := c.log.(answered := c.log.answered + [Answer(c.requests[0], c.reply)], partial := 0);
    if c.closeAfter then c.(requests := c.requests[1..], closed := true, log := log.(finished := true))
    else ProcessNext(c.(requests := c.requests[1..], log := log))
  }

  function Emit(c: Conn, text: string): Conn {
    c.(log := c.log.(output := c.log.output + text, partial := c.log.partial + |text|))
  }

  /** The handler has filled in the reply; `burst` is that of the bucket for the reply's token. */
  function OnReply(c: Conn, status: string, headers: seq<Header>, content: string, burst: Option<nat>): Conn
    requires c.requests != []
  {
    var last := Closer(c.requests[0]) || c.closeAfter;
    var r := c.reply.(status := status, headers := if last then headers + [CLOSE] else headers, content := content);
    var d := Done(c, Handling).(closeAfter := last);
    if burst.Some? then Begin(d.(reply := r.(burst := burst)), WritingHeader) else Begin(d.(reply := r), Writing)
  }

  function OnWritten(c: Conn): Conn
    requires c.requests != [] && (c.closeAfter || |c.requests| > 1)
  {
    Finish(Emit(Done(c, Writing), Whole(c.reply)))
  }

  function Burst(r: Reply): nat { if r.burst.Some? then r.burst.value else 0 }

  function ChunkSize(r: Reply): nat
    requires r.bytesSent <= |r.content|
  {
    if |r.content| - r.bytesSent <= Burst(r) then |r.content| - r.bytesSent else Burst(r)
  }

  /** `granted` says whether the bucket had the tokens for the next chunk. */
  function TrySend(c: Conn, granted: bool): Conn
    requires c.requests != [] && (c.closeAfter || |c.requests| > 1) && c.reply.bytesSent <= |c.reply.content|
  {
    if c.reply.bytesSent == |c.reply.content| then Finish(c)
    else if granted then Begin(c, WritingChunk(ChunkSize(c.reply)))
    else Begin(c, Waiting)
  }

  function OnHeaderWritten(c: Conn, granted: bool): Conn
    requires c.requests != [] && (c.closeAfter || |c.requests| > 1) && c.reply.bytesSent <= |c.reply.content|
  {
    TrySend(Emit(Done(c, WritingHeader), HeaderText(c.reply)), granted)
  }

  function OnTimer(c: Conn, granted: bool): Conn
    requires c.requests != [] && (c.closeAfter || |c.requests| > 1) && c.reply.bytesSent <= |c.reply.content|
  {
    TrySend(Done(c, Waiting), granted)
  }

  /** The connection once `n` characters of the chunk are out. */
  function ChunkOut(c: Conn, size: nat, n: nat): Conn
    requires c.reply.bytesSent + n <= |c.reply.content|
  {
    var k := c.reply.bytesSent;
    var d := Emit(Done(c, WritingChunk(size)), c.reply.content[k..k + n]);
    d.(reply := d.reply.(bytesSent := k + n))
  }

  function OnChunkWritten(c: Conn, size: nat, n: nat, granted: bool): Conn
    requires c.requests != [] && (c.closeAfter || |c.requests| > 1) && c.reply.bytesSent + n <= |c.reply.content|
  {
    TrySend(ChunkOut(c, size, n), granted)
  }

  /** What an operation would write. */
  function Outgoing(c: Conn, op: Op): string {
    match op
    case Writing => Whole(c.reply)
    case WritingHeader => HeaderText(c.reply)
    case WritingChunk(size) =>
      if c.reply.bytesSent + size <= |c.reply.content| then c.reply.content[c.reply.bytesSent..c.reply.bytesSent + size]
      else ""
    case _ => ""
  }

  /** The operation fails with `k` characters out; everything else is cancelled with the socket. */
  function OnError(c: Conn, op: Op, k: nat): Conn
    requires k <= |Outgoing(c, op)|
  {
    Emit(c, Outgoing(c, op)[..k]).(pending := [], closed := true)
  }

  // ----- Runs

  datatype Event =
    | ReadOk(input: string)
    | Replied(status: string, headers: seq<Header>, content: string, bucket: Option<nat>)
    | WriteOk
    | HeaderWriteOk(granted: bool)
    | ChunkWriteOk(size: nat, n: nat, granted: bool)
    | TimerFires(granted: bool)
    | Fails(op: Op, k: nat)

  predicate Enabled(c: Conn, ev: Event) {
    match ev
    case ReadOk(input) => Reading in c.pending && input != ""
    case Replied(_, _, _, _) => Handling in c.pending
    case WriteOk => Writing in c.pending
    case HeaderWriteOk(_) => WritingHeader in c.pending
    case ChunkWriteOk(size, n, _) => WritingChunk(size) in c.pending && n <= size
    case TimerFires(_) => Waiting in c.pending
    case Fails(op, k) => op in c.pending && k <= |Outgoing(c, op)|
  }

  /** The queue the handlers rely on. */
  predicate Ready(c: Conn, ev: Event) {
    match ev
    case ReadOk(_) => c.requests != []
    case Replied(_, _, _, _) => c.requests != []
    case ChunkWriteOk(size, n, _) =>
      c.requests != [] && (c.closeAfter || |c.requests| > 1) && c.reply.bytesSent + n <= |c.reply.content|
    case Fails(_, _) => true
    case WriteOk => c.requests != [] && (c.closeAfter || |c.requests| > 1)
    case _ => c.requests != [] && (c.closeAfter || |c.requests| > 1) && c.reply.bytesSent <= |c.reply.content|
  }

  function Next(c: Conn, ev: Event): Conn
    requires Enabled(c, ev) && Ready(c, ev)
  {
    match ev
    case ReadOk(input) => OnRead(c, input)
    case Replied(status, headers, content, bucket) => OnReply(c, status, headers, content, bucket)
    case WriteOk => OnWritten(c)
    case HeaderWriteOk(granted) => OnHeaderWritten(c, granted)
    case ChunkWriteOk(size, n, granted) => OnChunkWritten(c, size, n, granted)
    case TimerFires(granted) => OnTimer(c, granted)
    case Fails(op, k) => OnError(c, op, k)
  }

  ghost predicate IsRun(cs: seq<Conn>, evs: seq<Event>) {
    && |cs| == |evs| + 1 && cs[0] == OPENED
    && forall i | 0 <= i < |evs| ::
         Enabled(cs[i], evs[i]) && (Ready(cs[i], evs[i]) ==> cs[i + 1] == Next(cs[i], evs[i]))
  }

  // ----- The invariant

  function Requests(answers: seq<Answer>): seq<Request> {
    seq(|answers|, i requires 0 <= i < |answers| => answers[i].req)
  }

  function Text(answers: seq<Answer>): string {
    if answers == [] then "" else Text(answers[..|answers| - 1]) + Whole(answers[|answers| - 1].reply)
  }

  /** A run of complete requests, then one that is unfinished or bad. */
  predicate Queue(rs: seq<Request>) {
    rs != [] && (forall i :: 0 <= i < |rs| - 1 ==> IsComplete(rs[i])) && !rs[|rs| - 1].isReady
  }

  /** The front request is being answered, and this much of its reply is out. */
  predicate Answering(c: Conn, partial: nat)
    requires c.requests != []
  {
    && c.inProgress && IsComplete(c.requests[0])
    && c.log.handed == Requests(c.log.answered) + [c.requests[0]]
    && c.log.partial == partial
  }

  predicate Sending(c: Conn, partial: nat)
    requires c.requests != []
  {
    Answering(c, partial) && c.closeAfter == Closer(c.requests[0])
  }

  /** The state in which exactly this operation is pending. */
  predicate Fits(c: Conn, op: Op)
    requires c.requests != []
  {
    match op
    case Reading =>
      && !c.inProgress && !c.closeAfter && |c.requests| == 1 && !c.requests[0].isBad
      && c.log.handed == Requests(c.log.answered) && c.log.partial == 0
    case Handling => Answering(c, 0) && !c.closeAfter && c.reply == RESET
    case Writing =>
      || (Sending(c, 0) && c.reply.bytesSent == 0)
      || (c.inProgress && c.requests[0].isBad && c.closeAfter && c.log.handed == Requests(c.log.answered)
          && c.log.partial == 0 && c.reply == BAD_REQUEST)
    case WritingHeader => Sending(c, 0) && c.reply.bytesSent == 0 && c.reply.burst.Some?
    case WritingChunk(size) =>
      && Sending(c, |HeaderText(c.reply)| + c.reply.bytesSent)
      && c.reply.bytesSent < |c.reply.content| && size == ChunkSize(c.reply) && c.reply.burst.Some?
    case Waiting =>
      && Sending(c, |HeaderText(c.reply)| + c.reply.bytesSent)
      && c.reply.bytesSent < |c.reply.content| && c.reply.burst.Some?
  }

  /** The answered and the queued requests are those of the received bytes; the parser is where they leave it. */
  predicate Follows(c: Conn) {
    var s := Absorb(SILENCE, c.log.received);
    Requests(c.log.answered) + c.requests == s.complete + [s.current] && c.parser == s.parser
  }

  /** The bytes written are the finished replies in order, then a piece of the one under way. */
  predicate Written(c: Conn) {
    c.log.partial <= |Whole(c.reply)| && c.log.output == Text(c.log.answered) + Whole(c.reply)[..c.log.partial]
  }

  predicate NoCloser(rs: seq<Request>) { forall i :: 0 <= i < |rs| ==> !Closer(rs[i]) }

  /** The handler was given the answered requests, and perhaps the one at the front. */
  predicate HandedInOrder(c: Conn) {
    var answered := Requests(c.log.answered);
    && c.requests != []
    && (c.log.handed == answered || (IsComplete(c.requests[0]) && c.log.handed == answered + [c.requests[0]]))
  }

  /** A connection that closed after a reply did so at the first request that asks for it, or at invalid data. */
  predicate ClosedWell(c: Conn) {
    var n := |c.log.answered| - 1;
    && n >= 0 && NoCloser(Requests(c.log.answered)[..n]) && c.log.partial == 0
    && if c.log.answered[n].req.isBad then c.log.handed == Requests(c.log.answered)[..n] && c.requests == []
       else
         && IsComplete(c.log.answered[n].req) && Closer(c.log.answered[n].req)
         && c.log.handed == Requests(c.log.answered)
  }

  predicate Inv(c: Conn) {
    && Follows(c) && Written(c)
    && (c.closed ==> c.pending == [])
    && (!c.closed ==> Queue(c.requests) && |c.pending| == 1 && Fits(c, c.pending[0]) && !c.log.finished)
    && (!c.log.finished ==> NoCloser(Requests(c.log.answered)) && HandedInOrder(c))
    && (c.log.finished ==> c.closed && ClosedWell(c))
  }

  // ----- Every step keeps it

  lemma RequestsGrow(answers: seq<Answer>, a: Answer)
    ensures Requests(answers + [a]) == Requests(answers) + [a.req]
    ensures Text(answers + [a]) == Text(answers) + Whole(a.reply)
  {
    assert (answers + [a])[..|answers|] == answers;
  }

  /** Between two requests: nothing is pending and no reply is under way. */
  predicate Idle(c: Conn) {
    && Follows(c) && Queue(c.requests) && c.pending == [] && !c.closed && !c.closeAfter && !c.log.finished
    && c.log.partial == 0 && c.log.output == Text(c.log.answered)
    && c.log.handed == Requests(c.log.answered) && NoCloser(Requests(c.log.answered))
  }

  lemma ProcessNextKeepsInv(c: Conn)
    requires Idle(c)
    ensures Inv(ProcessNext(c))
  {
    hide Absorb, Requests, Text, Whole, NoCloser, Closer;
    var d := ProcessNext(c);
    assert d.pending == [d.pending[0]];
    assert Whole(d.reply)[..0] == "";
    if c.requests[0].isBad || !c.requests[0].isReady {
      assert |c.requests| == 1;
    }
    assert Follows(d);
    assert Written(d);
    assert HandedInOrder(d);
  }

  /** The whole reply to the front request is out. */
  predicate Sent(c: Conn) {
    && Follows(c) && Queue(c.requests) && c.pending == [] && !c.closed && !c.log.finished
    && NoCloser(Requests(c.log.answered))
    && c.log.partial == |Whole(c.reply)| && Written(c)
    && if c.requests[0].isBad then c.closeAfter && c.log.handed == Requests(c.log.answered)
       else Sending(c, |Whole(c.reply)|)
  }

  lemma SentLeavesMore(c: Conn)
    requires Sent(c)
    ensures c.closeAfter || |c.requests| > 1
  {
    hide Follows, NoCloser, Written, Requests, Whole, Closer;
  }

  lemma FinishKeepsInv(c: Conn)
    requires Sent(c)
    ensures c.closeAfter || |c.requests| > 1
    ensures Inv(Finish(c))
  {
    hide Absorb, Text, Whole, Closer;
    SentLeavesMore(c);
    var a := Answer(c.requests[0], c.reply);
    if c.closeAfter {
      FinishedWell(c);
    } else {
      SentIsIdle(c);
      ProcessNextKeepsInv(c.(requests := c.requests[1..],
        log := c.log.(answered := c.log.answered + [a], partial := 0)));
    }
  }

  lemma FinishedWell(c: Conn)
    requires Sent(c) && c.closeAfter
    ensures Inv(Finish(c))
  {
    hide Absorb, Text, Whole, Closer;
    var a := Answer(c.requests[0], c.reply);
    var d := Finish(c);
    RequestsGrow(c.log.answered, a);
    assert Requests(c.log.answered) + c.requests == Requests(d.log.answered) + d.requests;
    assert Whole(c.reply)[..|Whole(c.reply)|] == Whole(c.reply) && Whole(c.reply)[..0] == "";
    assert Requests(d.log.answered)[..|c.log.answered|] == Requests(c.log.answered);
    assert d.log.answered[|c.log.answered|] == a;
    assert Written(d);
    assert ClosedWell(d);
  }

  lemma WholeIsHeaderThenContent(r: Reply, k: nat)
    requires k <= |r.content|
    ensures |Whole(r)| == |HeaderText(r)| + |r.content|
    ensures Whole(r)[..|HeaderText(r)| + k] == HeaderText(r) + r.content[..k]
  {
  }

  /** The header of the reply and this much of its content are out, and no operation is pending. */
  predicate PartSent(c: Conn) {
    && Follows(c) && Queue(c.requests) && c.pending == [] && !c.closed && !c.log.finished
    && NoCloser(Requests(c.log.answered)) && Written(c)
    && c.reply.bytesSent <= |c.reply.content| && c.reply.burst.Some?
    && Sending(c, |HeaderText(c.reply)| + c.reply.bytesSent)
  }

  lemma TrySendKeepsInv(c: Conn, granted: bool)
    requires PartSent(c)
    ensures c.closeAfter || |c.requests| > 1
    ensures Inv(TrySend(c, granted))
  {
    hide Absorb, Text, HeaderText, Closer, Requests, NoCloser;
    assert |c.requests| > 1;
    WholeIsHeaderThenContent(c.reply, c.reply.bytesSent);
    if c.reply.bytesSent == |c.reply.content| {
      assert Sent(c);
      FinishKeepsInv(c);
    } else {
      var d := TrySend(c, granted);
      assert d.pending == [d.pending[0]];
      assert HandedInOrder(d);
    }
  }

  lemma LastIsUnfinished(c: Conn)
    requires Follows(c) && Queue(c.requests)
    ensures
      var s, n := Absorb(SILENCE, c.log.received), |c.requests| - 1;
      && s.current == c.requests[n] && Requests(c.log.answered) + c.requests[..n] == s.complete
      && Proper(s)
  {
    hide Absorb, Requests;
    AbsorbKeepsProper(SILENCE, c.log.received);
    var s, n := Absorb(SILENCE, c.log.received), |c.requests| - 1;
    var all := Requests(c.log.answered) + c.requests;
    assert all[|all| - 1] == c.requests[n] && all[..|all| - 1] == Requests(c.log.answered) + c.requests[..n];
    assert (s.complete + [s.current])[..|s.complete|] == s.complete;
  }

  lemma EnqueueFollows(c: Conn, input: string)
    requires Follows(c) && Queue(c.requests)
    ensures Follows(Enqueue(c, input)) && Queue(Enqueue(c, input).requests)
    ensures
      var d := Enqueue(c, input);
      d == c.(parser := d.parser, requests := d.requests, log := c.log.(received := d.log.received))
  {
    hide Absorb, Requests;
    LastIsUnfinished(c);
    var s, n := Absorb(SILENCE, c.log.received), |c.requests| - 1;
    var r := Stream([], c.requests[n], c.parser);
    AbsorbConcat(SILENCE, c.log.received, input);
    AbsorbAfter(s.complete, r, input);
    assert s.complete + [] == s.complete;
    AbsorbKeepsProper(r, input);
    var t := Absorb(r, input);
    assert Requests(c.log.answered) + (c.requests[..n] + t.complete + [t.current])
        == Requests(c.log.answered) + c.requests[..n] + t.complete + [t.current];
    var q := Enqueue(c, input).requests;
    forall i | 0 <= i < |q| - 1
      ensures IsComplete(q[i])
    {
      if i >= n {
        assert q[i] == t.complete[i - n];
      }
    }
  }

  lemma ReadIsIdle(c: Conn, input: string)
    requires Inv(c) && Reading in c.pending
    ensures c.requests != [] && Idle(Enqueue(Done(c, Reading), input))
    ensures OnRead(c, input) == ProcessNext(Enqueue(Done(c, Reading), input))
  {
    hide Absorb, Requests, Text, Closer, NoCloser, Follows, Whole;
    assert c.pending == [Reading];
    var d := Enqueue(Done(c, Reading), input);
    FollowsSame(c, Done(c, Reading));
    EnqueueFollows(Done(c, Reading), input);
    assert Whole(c.reply)[..0] == "";
    assert !d.inProgress;
  }

  lemma ReadKeepsInv(c: Conn, input: string)
    requires Inv(c) && Enabled(c, ReadOk(input))
    ensures c.requests != [] && Inv(OnRead(c, input))
  {
    hide Idle, Inv;
    ReadIsIdle(c, input);
    ProcessNextKeepsInv(Enqueue(Done(c, Reading), input));
  }

  lemma ReplyKeepsInv(c: Conn, status: string, headers: seq<Header>, content: string, burst: Option<nat>)
    requires Inv(c) && Handling in c.pending
    ensures c.requests != [] && Inv(OnReply(c, status, headers, content, burst))
  {
    hide Absorb, Requests, Text, Closer, NoCloser;
    assert c.pending == [Handling];
    var d := OnReply(c, status, headers, content, burst);
    assert d.pending == [d.pending[0]];
    assert Whole(c.reply)[..0] == "" && Whole(d.reply)[..0] == "";
    assert Follows(d) && Written(d) && Queue(d.requests);
  }

  lemma EmitKeepsWritten(c: Conn, text: string)
    requires Written(c) && c.log.partial + |text| <= |Whole(c.reply)|
    requires Whole(c.reply)[c.log.partial..c.log.partial + |text|] == text
    ensures Written(Emit(c, text))
  {
    hide Text, Whole;
    var w := Whole(c.reply);
    assert w[..c.log.partial + |text|] == w[..c.log.partial] + text;
  }

  lemma WriteIsSent(c: Conn)
    requires Inv(c) && Writing in c.pending
    ensures c.requests != [] && Sent(Emit(Done(c, Writing), Whole(c.reply)))
  {
    hide Absorb, Requests, Text, Closer, NoCloser, Whole, Follows;
    assert c.pending == [Writing];
    var d := Done(c, Writing);
    assert Whole(c.reply)[0..|Whole(c.reply)|] == Whole(c.reply);
    EmitKeepsWritten(d, Whole(c.reply));
    FollowsSame(c, Emit(d, Whole(c.reply)));
  }

  lemma WriteKeepsInv(c: Conn)
    requires Inv(c) && Writing in c.pending
    ensures c.requests != [] && (c.closeAfter || |c.requests| > 1)
    ensures Inv(OnWritten(c))
  {
    hide Sent, Inv, Finish;
    WriteIsSent(c);
    FinishKeepsInv(Emit(Done(c, Writing), Whole(c.reply)));
  }

  lemma FollowsSame(c: Conn, d: Conn)
    requires Follows(c) && c.log.received == d.log.received && c.log.answered == d.log.answered
    requires c.requests == d.requests && c.parser == d.parser
    ensures Follows(d)
  {
  }

  lemma HeaderIsPart(c: Conn)
    requires Inv(c) && WritingHeader in c.pending
    ensures c.requests != [] && PartSent(Emit(Done(c, WritingHeader), HeaderText(c.reply)))
  {
    hide Absorb, Requests, Text, Closer, NoCloser, HeaderText, Follows;
    assert c.pending == [WritingHeader];
    var d := Done(c, WritingHeader);
    WholeIsHeaderThenContent(c.reply, 0);
    assert Whole(c.reply)[0..|HeaderText(c.reply)|] == HeaderText(c.reply);
    EmitKeepsWritten(d, HeaderText(c.reply));
    FollowsSame(c, Emit(d, HeaderText(c.reply)));
  }

  lemma HeaderWriteKeepsInv(c: Conn, granted: bool)
    requires Inv(c) && WritingHeader in c.pending
    ensures c.requests != [] && (c.closeAfter || |c.requests| > 1) && c.reply.bytesSent <= |c.reply.content|
    ensures Inv(OnHeaderWritten(c, granted))
  {
    hide Inv, TrySend, Follows, Written, Sending, NoCloser;
    HeaderIsPart(c);
    TrySendKeepsInv(Emit(Done(c, WritingHeader), HeaderText(c.reply)), granted);
  }

  lemma WaitingIsPart(c: Conn)
    requires Inv(c) && Waiting in c.pending
    ensures c.requests != [] && PartSent(Done(c, Waiting))
  {
    hide Absorb, Requests, Text, Closer, NoCloser, HeaderText, Follows;
    assert c.pending == [Waiting];
    FollowsSame(c, Done(c, Waiting));
  }

  lemma TimerKeepsInv(c: Conn, granted: bool)
    requires Inv(c) && Waiting in c.pending
    ensures c.requests != [] && (c.closeAfter || |c.requests| > 1) && c.reply.bytesSent <= |c.reply.content|
    ensures Inv(OnTimer(c, granted))
  {
    hide Inv, TrySend, Follows, Written, Sending, NoCloser;
    WaitingIsPart(c);
    TrySendKeepsInv(Done(c, Waiting), granted);
  }

  lemma ChunkIsNext(r: Reply, n: nat)
    requires r.bytesSent + n <= |r.content|
    ensures
      var k := |HeaderText(r)| + r.bytesSent;
      k + n <= |Whole(r)| && Whole(r)[k..k + n] == r.content[r.bytesSent..r.bytesSent + n]
  {
  }

  lemma ChunkKeepsWritten(c: Conn, size: nat, n: nat)
    requires Written(c) && c.reply.bytesSent + n <= |c.reply.content|
    requires c.log.partial == |HeaderText(c.reply)| + c.reply.bytesSent
    ensures Written(ChunkOut(c, size, n)) && HeaderText(ChunkOut(c, size, n).reply) == HeaderText(c.reply)
  {
    hide Text, Lines;
    var k := c.reply.bytesSent;
    ChunkIsNext(c.reply, n);
    EmitKeepsWritten(Done(c, WritingChunk(size)), c.reply.content[k..k + n]);
    assert Whole(ChunkOut(c, size, n).reply) == Whole(c.reply);
  }

  lemma ChunkIsPart(c: Conn, size: nat, n: nat)
    requires Inv(c) && WritingChunk(size) in c.pending && n <= size
    ensures c.requests != [] && c.reply.bytesSent + n <= |c.reply.content| && PartSent(ChunkOut(c, size, n))
  {
    hide Absorb, Requests, Text, Closer, NoCloser, Follows, Lines;
    assert c.pending == [WritingChunk(size)];
    ChunkKeepsWritten(c, size, n);
    FollowsSame(c, ChunkOut(c, size, n));
    hide Written;
    assert Sending(ChunkOut(c, size, n), |HeaderText(c.reply)| + c.reply.bytesSent + n);
  }

  lemma ChunkWriteKeepsInv(c: Conn, size: nat, n: nat, granted: bool)
    requires Inv(c) && WritingChunk(size) in c.pending && n <= size
    ensures c.requests != [] && (c.closeAfter || |c.requests| > 1) && c.reply.bytesSent + n <= |c.reply.content|
    ensures Inv(OnChunkWritten(c, size, n, granted))
  {
    hide Inv, TrySend, Follows, Written, Sending, NoCloser;
    ChunkIsPart(c, size, n);
    TrySendKeepsInv(ChunkOut(c, size, n), granted);
  }

  lemma OutgoingIsNext(c: Conn, op: Op)
    requires Inv(c) && op in c.pending
    ensures
      var out, w := Outgoing(c, op), Whole(c.reply);
      c.log.partial + |out| <= |w| && w[c.log.partial..c.log.partial + |out|] == out
  {
    hide Absorb, Requests, Text, Closer, NoCloser, Follows, Lines;
    assert c.pending == [op];
    if op.WritingChunk? {
      ChunkIsNext(c.reply, op.size);
    } else if op.Writing? {
      assert Whole(c.reply)[0..|Whole(c.reply)|] == Whole(c.reply);
    }
  }

  lemma ErrorKeepsInv(c: Conn, op: Op, k: nat)
    requires Inv(c) && op in c.pending && k <= |Outgoing(c, op)|
    ensures Inv(OnError(c, op, k))
  {
    hide Absorb, Requests, Text, Closer, NoCloser, Follows, Whole, Outgoing, Fits;
    OutgoingIsNext(c, op);
    var out, w := Outgoing(c, op), Whole(c.reply);
    var p := c.log.partial;
    assert w[p..p + k] == w[p..p + |out|][..k];
    EmitKeepsWritten(c, out[..k]);
    FollowsSame(c, OnError(c, op, k));
  }

  lemma StepKeepsInv(c: Conn, ev: Event)
    requires Inv(c) && Enabled(c, ev)
    ensures Ready(c, ev) && Inv(Next(c, ev))
  {
    hide Inv;
    match ev
    case ReadOk(input) => ReadKeepsInv(c, input);
    case Replied(status, headers, content, bucket) => ReplyKeepsInv(c, status, headers, content, bucket);
    case WriteOk => WriteKeepsInv(c);
    case HeaderWriteOk(granted) => HeaderWriteKeepsInv(c, granted);
    case ChunkWriteOk(size, n, granted) => ChunkWriteKeepsInv(c, size, n, granted);
    case TimerFires(granted) => TimerKeepsInv(c, granted);
    case Fails(op, k) => ErrorKeepsInv(c, op, k);
  }

  // ----- What every run promises

  lemma {:induction false} RunsKeepInv(cs: seq<Conn>, evs: seq<Event>, i: nat)
    requires IsRun(cs, evs) && i < |cs|
    ensures Inv(cs[i])
    ensures i < |evs| ==> Ready(cs[i], evs[i]) && cs[i + 1] == Next(cs[i], evs[i])
  {
    hide Inv, Next, Ready, Enabled;
    if i == 0 {
      OpenedInv();
    } else {
      RunsKeepInv(cs, evs, i - 1);
      StepKeepsInv(cs[i - 1], evs[i - 1]);
    }
    if i < |evs| {
      StepKeepsInv(cs[i], evs[i]);
    }
  }

  lemma OpenedInv()
    ensures Inv(OPENED)
  {
    assert Requests([]) + [FRESH] == [] + [FRESH];
  }

  /** Until it closes: one operation pending, the flag down exactly while that is a read, and a queue to take from. */
  lemma OneOperationPending(cs: seq<Conn>, evs: seq<Event>, i: nat)
    requires IsRun(cs, evs) && i < |cs| && !cs[i].closed
    ensures |cs[i].pending| == 1 && (!cs[i].inProgress <==> cs[i].pending == [Reading]) && Queue(cs[i].requests)
  {
    hide Follows, Written, NoCloser, Requests, HandedInOrder, Closer;
    RunsKeepInv(cs, evs, i);
    var c := cs[i];
    assert c.pending == [c.pending[0]];
  }

  /** The requests up to and including the first that asks to close. */
  function Cut(rs: seq<Request>): seq<Request> {
    if rs == [] then [] else if Closer(rs[0]) then [rs[0]] else [rs[0]] + Cut(rs[1..])
  }

  /** What a connection receiving `w` hands to its handler, and whether it ends with a 400. */
  function Handled(w: string): seq<Request> { Cut(Absorb(SILENCE, w).complete) }
  predicate Rejects(w: string) { NoCloser(Absorb(SILENCE, w).complete) && Absorb(SILENCE, w).current.isBad }

  predicate Rejected(c: Conn) { c.log.answered != [] && c.log.answered[|c.log.answered| - 1].req.isBad }

  lemma {:induction false} CutPast(a: seq<Request>, b: seq<Request>)
    requires NoCloser(a)
    ensures Cut(a + b) == a + Cut(b)
  {
    if a == [] {
      assert a + b == b && a + Cut(b) == Cut(b);
    } else {
      CutPast(a[1..], b);
      assert !Closer(a[0]);
      assert (a + b)[1..] == a[1..] + b;
      assert [a[0]] + (a[1..] + Cut(b)) == a + Cut(b);
    }
  }

  lemma CutAll(a: seq<Request>)
    requires NoCloser(a)
    ensures Cut(a) == a
  {
    CutPast(a, []);
    assert a + [] == a;
  }

  lemma StreamGrows(c: Conn, w: string)
    requires c.log.received <= w
    ensures
      var s, t := Absorb(SILENCE, c.log.received), Absorb(SILENCE, w);
      s.complete <= t.complete && (s.current.isBad ==> t == s)
  {
    var n := |c.log.received|;
    AbsorbConcat(SILENCE, c.log.received, w[n..]);
    assert c.log.received + w[n..] == w;
    AbsorbGrows(Absorb(SILENCE, c.log.received), w[n..]);
  }

  /** Where an open connection's answered requests lie in the stream. */
  lemma AnsweredInStream(c: Conn)
    requires Inv(c) && c.requests != []
    ensures
      var s, a := Absorb(SILENCE, c.log.received), Requests(c.log.answered);
      && a <= s.complete
      && (IsComplete(c.requests[0]) ==> a + [c.requests[0]] <= s.complete)
  {
    hide Absorb, Requests, Written, NoCloser, Fits, HandedInOrder, ClosedWell;
    AbsorbKeepsProper(SILENCE, c.log.received);
    var s, a := Absorb(SILENCE, c.log.received), Requests(c.log.answered);
    var all := s.complete + [s.current];
    assert all[|a|] == c.requests[0] && all[..|a|] == a;
    if IsComplete(c.requests[0]) {
      assert |a| != |s.complete|;
    }
  }

  lemma HandedUnfinished(c: Conn, w: string)
    requires Inv(c) && !c.log.finished && c.log.received <= w
    ensures c.log.handed <= Handled(w)
  {
    hide Absorb, Requests, Written, NoCloser, Fits, ClosedWell, Follows, Closer;
    var s, a := Absorb(SILENCE, w), Requests(c.log.answered);
    AnsweredInStream(c);
    StreamGrows(c, w);
    var rest := s.complete[|a|..];
    CutPast(a, rest);
    assert a + rest == s.complete;
    if c.log.handed != a {
      assert (a + rest)[|a|] == c.requests[0];
      assert Cut(rest)[0] == rest[0];
    }
  }

  /** Waiting for input, a connection has handed over everything it received. */
  lemma HandedWaiting(c: Conn)
    requires Inv(c) && c.pending == [Reading]
    ensures c.log.handed == Handled(c.log.received) && !Rejects(c.log.received) && !Rejected(c)
  {
    hide Absorb, Written, Closer;
    LastIsUnfinished(c);
    var s, a := Absorb(SILENCE, c.log.received), Requests(c.log.answered);
    assert a + c.requests[..0] == a;
    CutAll(a);
    assert a != [] ==> IsComplete(a[|a| - 1]);
  }

  lemma HandedAtBadData(c: Conn, w: string)
    requires Inv(c) && c.log.finished && c.log.received <= w && Rejected(c)
    ensures c.log.handed == Handled(w) && Rejects(w)
  {
    hide Absorb, Written, Closer, Fits, HandedInOrder;
    StreamGrows(c, w);
    var s, a, n := Absorb(SILENCE, c.log.received), Requests(c.log.answered), |c.log.answered| - 1;
    assert a + c.requests == a;
    assert (s.complete + [s.current])[..n] == s.complete;
    assert a[..n] == s.complete && a[n] == s.current;
    CutAll(s.complete);
  }

  lemma HandedAtCloser(c: Conn, w: string)
    requires Inv(c) && c.log.finished && c.log.received <= w && !Rejected(c)
    ensures c.log.handed == Handled(w) && !Rejects(w)
  {
    hide Absorb, Written, Closer, Fits, HandedInOrder;
    StreamGrows(c, w);
    AbsorbKeepsProper(SILENCE, c.log.received);
    var s, t := Absorb(SILENCE, c.log.received), Absorb(SILENCE, w);
    var a, n := Requests(c.log.answered), |c.log.answered| - 1;
    var all := s.complete + [s.current];
    assert all[n] == a[n] && all[..n + 1] == a;
    assert n < |s.complete|;
    var rest := t.complete[n..];
    assert t.complete == a[..n] + rest && rest[0] == a[n];
    CutPast(a[..n], rest);
    assert a[..n] + [a[n]] == a;
    assert Closer(t.complete[n]);
  }

  /** The connection has nothing more to do for these bytes. */
  predicate Settled(c: Conn, w: string) {
    c.log.finished || (c.pending == [Reading] && c.log.received == w)
  }

  /**
   * Whatever bytes `w` a peer sends and however reads cut them: what was handed over is the beginning of what `w`
   * asks for; a connection that has read all of `w` and waits for more, or has closed after a reply, has handed over
   * exactly that, and has answered 400 exactly if `w` says so.
   */
  lemma StreamDecides(c: Conn, w: string)
    requires Inv(c) && c.log.received <= w
    ensures c.log.handed <= Handled(w)
    ensures Settled(c, w) ==> c.log.handed == Handled(w) && (Rejected(c) <==> Rejects(w))
  {
    hide Inv, Handled, Rejects, Rejected;
    if !c.log.finished {
      HandedUnfinished(c, w);
      if c.pending == [Reading] && c.log.received == w {
        HandedWaiting(c);
      }
    } else if Rejected(c) {
      HandedAtBadData(c, w);
    } else {
      HandedAtCloser(c, w);
    }
  }

  /** Two connections that get the same bytes in different pieces do the same. */
  lemma SplitsDoNotMatter(cs: seq<Conn>, evs: seq<Event>, i: nat, cs': seq<Conn>, evs': seq<Event>, j: nat, w: string)
    requires IsRun(cs, evs) && i < |cs| && cs[i].log.received <= w
    requires IsRun(cs', evs') && j < |cs'| && cs'[j].log.received <= w
    ensures cs[i].log.handed <= cs'[j].log.handed || cs'[j].log.handed <= cs[i].log.handed
    ensures Settled(cs[i], w) && Settled(cs'[j], w) ==>
      cs[i].log.handed == cs'[j].log.handed && (Rejected(cs[i]) <==> Rejected(cs'[j]))
  {
    hide Inv, Handled, Rejects, Rejected, Next, Enabled, Ready;
    RunsKeepInv(cs, evs, i);
    RunsKeepInv(cs', evs', j);
    StreamDecides(cs[i], w);
    StreamDecides(cs'[j], w);
  }

  /** Replies go out whole and in request order, with at most a piece of one more behind them. */
  lemma RepliesInOrder(cs: seq<Conn>, evs: seq<Event>, i: nat)
    requires IsRun(cs, evs) && i < |cs|
    ensures
      var c, s := cs[i], Absorb(SILENCE, cs[i].log.received);
      && Requests(c.log.answered) <= s.complete + [s.current]
      && c.log.partial <= |Whole(c.reply)|
      && c.log.output == Text(c.log.answered) + Whole(c.reply)[..c.log.partial]
      && (c.log.finished || c.pending == [Reading] ==> c.log.output == Text(c.log.answered))
  {
    hide Next, Enabled, Ready, Whole, Text, Requests, Absorb, NoCloser, HandedInOrder, Closer;
    RunsKeepInv(cs, evs, i);
    var c := cs[i];
    assert Whole(c.reply)[..0] == "";
    assert c.log.finished ==> c.log.partial == 0;
  }

  /** While chunks go out, the header and the content so far are out and nothing else; no chunk exceeds the burst. */
  lemma ChunksArePrefix(cs: seq<Conn>, evs: seq<Event>, i: nat)
    requires IsRun(cs, evs) && i < |cs| && |cs[i].pending| == 1
    requires cs[i].pending[0].WritingChunk? || cs[i].pending[0].Waiting?
    ensures
      var c := cs[i];
      && c.reply.bytesSent < |c.reply.content|
      && c.log.output == Text(c.log.answered) + HeaderText(c.reply) + c.reply.content[..c.reply.bytesSent]
      && (forall size: nat :: WritingChunk(size) in c.pending ==>
            size <= Burst(c.reply) && c.reply.bytesSent + size <= |c.reply.content|)
  {
    hide Next, Enabled, Ready, Text, Requests, Absorb, NoCloser, HandedInOrder, Closer, Follows, Lines;
    RunsKeepInv(cs, evs, i);
    var c := cs[i];
    assert c.pending == [c.pending[0]];
    WholeIsHeaderThenContent(c.reply, c.reply.bytesSent);
    assert Text(c.log.answered) + (HeaderText(c.reply) + c.reply.content[..c.reply.bytesSent])
        == Text(c.log.answered) + HeaderText(c.reply) + c.reply.content[..c.reply.bytesSent];
  }


  // ----- A throttled reply comes to its end

  /** The chunk being written is as long as the bucket's burst allows and the content lasts, so the bucket can grant it;
      it is not empty exactly if the burst is not. */
  lemma ChunkFitsBucket(cs: seq<Conn>, evs: seq<Event>, i: nat, size: nat)
    requires IsRun(cs, evs) && i < |cs| && WritingChunk(size) in cs[i].pending
    ensures
      var r := cs[i].reply;
      && r.burst.Some? && size <= r.burst.value && r.bytesSent + size <= |r.content|
      && (size > 0 <==> r.burst.value > 0) && (size == r.burst.value || r.bytesSent + size == |r.content|)
  {
    hide Written, NoCloser, Follows, Text;
    RunsKeepInv(cs, evs, i);
    assert cs[i].pending == [WritingChunk(size)];
  }

  /** A chunk that is out either ends the reply or brings the next chunk, or the wait for it, that much nearer. */
  lemma ChunkAdvances(c: Conn, size: nat, granted: bool)
    requires Inv(c) && c.pending == [WritingChunk(size)]
    ensures Ready(c, ChunkWriteOk(size, size, granted)) && Burst(c.reply) >= size
    ensures size > 0 <==> Burst(c.reply) > 0
    ensures
      var c', sent := Next(c, ChunkWriteOk(size, size, granted)), c.reply.bytesSent + size;
      var r' := c.reply.(bytesSent := sent);
      if sent == |c.reply.content| then c'.log.answered == c.log.answered + [Answer(c.requests[0], r')]
      else
        && c'.reply == r' && c'.log.answered == c.log.answered && c'.requests == c.requests
        && c'.pending == [if granted then WritingChunk(ChunkSize(r')) else Waiting]
  {
    hide Written, NoCloser, Follows, Text, HeaderText;
    ChunkWriteKeepsInv(c, size, size, granted);
    assert Without([WritingChunk(size)], WritingChunk(size)) == [];
  }

  lemma WaitAdvances(c: Conn, granted: bool)
    requires Inv(c) && c.pending == [Waiting]
    ensures Ready(c, TimerFires(granted)) && c.reply.bytesSent < |c.reply.content|
    ensures
      Next(c, TimerFires(granted))
        == c.(pending := if granted then [WritingChunk(ChunkSize(c.reply))] else [Waiting])
  {
    hide Written, NoCloser, Follows, Text, HeaderText;
    TimerKeepsInv(c, granted);
    assert Without([Waiting], Waiting) == [];
  }

  /** How many chunks are left. */
  function Chunks(r: Reply): nat
    requires r.bytesSent <= |r.content| && Burst(r) > 0
  {
    (|r.content| - r.bytesSent + Burst(r) - 1) / Burst(r)
  }

  lemma OneChunkLess(r: Reply)
    requires r.bytesSent < |r.content| && Burst(r) > 0
    ensures
      var r' := r.(bytesSent := r.bytesSent + ChunkSize(r));
      Chunks(r') == Chunks(r) - 1 && (Chunks(r') == 0 <==> r'.bytesSent == |r'.content|)
  {
    var left, burst := |r.content| - r.bytesSent, Burst(r);
    if left <= burst {
      Quotient(left + burst - 1, burst, 1);
      Quotient(burst - 1, burst, 0);
    } else {
      var q := (left - burst + burst - 1) / burst;
      Quotient(left + burst - 1, burst, q + 1);
    }
  }

  lemma Quotient(a: nat, b: nat, q: nat)
    requires b > 0 && q * b <= a < (q + 1) * b
    ensures a / b == q
  {
    var d := a / b;
    if d < q { Times(d + 1, q, b); } else if d > q { Times(q + 1, d, b); }
  }

  lemma Times(x: nat, y: nat, b: nat)
    requires x <= y
    ensures x * b <= y * b
  {
  }

  /** The header is out, the content is not, and the bucket lets something through at a time. */
  predicate Throttled(c: Conn) {
    && Inv(c) && Burst(c.reply) > 0 && c.reply.bytesSent < |c.reply.content|
    && (c.pending == [Waiting] || c.pending == [WritingChunk(ChunkSize(c.reply))])
  }

  /** Whole chunks are written and waits end, whether or not the bucket grants the next chunk. */
  predicate Pumps(c: Conn, ev: Event, c': Conn) {
    && Enabled(c, ev) && Ready(c, ev) && c' == Next(c, ev)
    && (ev.TimerFires? || (ev.ChunkWriteOk? && ev.n == ev.size))
  }

  function Writes(evs: seq<Event>): nat {
    if evs == [] then 0 else (if evs[0].ChunkWriteOk? then 1 else 0) + Writes(evs[1..])
  }

  /** One such event: the reply is over with its last chunk, and otherwise goes on with its chunks counted down. */
  lemma PumpCountsDown(c: Conn, ev: Event, c': Conn)
    requires Throttled(c) && Pumps(c, ev, c')
    ensures
      var r := c.reply;
      if ev.ChunkWriteOk? && Chunks(r) == 1
      then c'.log.answered == c.log.answered + [Answer(c.requests[0], r.(bytesSent := |r.content|))]
      else
        && Throttled(c') && c'.log.answered == c.log.answered && c'.requests == c.requests && c.requests != []
        && c'.reply == r.(bytesSent := c'.reply.bytesSent)
        && Chunks(c'.reply) == Chunks(r) - if ev.ChunkWriteOk? then 1 else 0
  {
    hide Inv, Next, Chunks, ChunkSize;
    OneChunkLess(c.reply);
    if ev.TimerFires? {
      WaitAdvances(c, ev.granted);
      TimerKeepsInv(c, ev.granted);
      NextTimer(c, ev.granted);
    } else {
      ChunkAdvances(c, ev.size, ev.granted);
      ChunkWriteKeepsInv(c, ev.size, ev.size, ev.granted);
      NextChunk(c, ev.size, ev.granted);
    }
  }

  lemma NextTimer(c: Conn, granted: bool)
    requires Enabled(c, TimerFires(granted)) && Ready(c, TimerFires(granted))
    ensures Next(c, TimerFires(granted)) == OnTimer(c, granted)
  {
  }

  lemma NextChunk(c: Conn, size: nat, granted: bool)
    requires Enabled(c, ChunkWriteOk(size, size, granted)) && Ready(c, ChunkWriteOk(size, size, granted))
    ensures Next(c, ChunkWriteOk(size, size, granted)) == OnChunkWritten(c, size, size, granted)
  {
  }

  /** Whenever the bucket grants them, as many chunks as the length of the rest calls for finish the reply: with the
      last of them the request is answered, and the reply was sent to its last byte. */
  lemma {:induction false} ThrottledReplyFinishes(cs: seq<Conn>, evs: seq<Event>)
    requires |cs| == |evs| + 1 && Throttled(cs[0]) && forall i | 0 <= i < |evs| :: Pumps(cs[i], evs[i], cs[i + 1])
    requires evs != [] && evs[|evs| - 1].ChunkWriteOk? && Writes(evs) == Chunks(cs[0].reply)
    ensures
      var r := cs[0].reply;
      && cs[0].requests != []
      && cs[|evs|].log.answered == cs[0].log.answered + [Answer(cs[0].requests[0], r.(bytesSent := |r.content|))]
    decreases |evs|
  {
    hide Throttled, Pumps, Chunks;
    ThrottledHasRequest(cs[0]);
    assert Pumps(cs[0], evs[0], cs[1]);
    PumpCountsDown(cs[0], evs[0], cs[1]);
    var rest := evs[1..];
    if evs[0].ChunkWriteOk? && Chunks(cs[0].reply) == 1 {
      if rest != [] {
        LastIsCounted(rest);
      }
    } else if rest != [] {
      forall i | 0 <= i < |rest| ensures Pumps(cs[1..][i], rest[i], cs[1..][i + 1]) {
        assert Pumps(cs[i + 1], evs[i + 1], cs[i + 2]);
      }
      ThrottledReplyFinishes(cs[1..], rest);
    }
  }

  lemma ThrottledHasRequest(c: Conn)
    requires Throttled(c)
    ensures c.requests != [] && c.reply.bytesSent < |c.reply.content| && Burst(c.reply) > 0
  {
  }

  lemma {:induction false} LastIsCounted(evs: seq<Event>)
    requires evs != [] && evs[|evs| - 1].ChunkWriteOk?
    ensures Writes(evs) > 0
  {
    if |evs| > 1 {
      LastIsCounted(evs[1..]);
    }
  }

  // ----- What goes out is what the handler gave

  /** A reply as the handler filled it in. */
  datatype Given = Given(status: string, headers: seq<Header>, content: string)

  function GivenBy(evs: seq<Event>): seq<Given> {
    if evs == [] then []
    else
      var before := GivenBy(evs[..|evs| - 1]);
      match evs[|evs| - 1]
      case Replied(status, headers, content, _) => before + [Given(status, headers, content)]
      case _ => before
  }

  /** The reply is the given one, with a closing header exactly if the request asks for it. */
  predicate Shipped(r: Reply, g: Given, req: Request) {
    r.status == g.status && r.content == g.content && r.headers == g.headers + (if Closer(req) then [CLOSE] else [])
  }

  /** The n-th answer is the n-th reply given, except that invalid data is answered with a 400. */
  predicate AnsweredAs(a: Answer, gs: seq<Given>, n: nat) {
    if a.req.isBad then a.reply == BAD_REQUEST else n < |gs| && Shipped(a.reply, gs[n], a.req)
  }

  predicate Relayed(c: Conn, gs: seq<Given>) {
    var n := |c.log.answered|;
    && (forall k :: 0 <= k < n ==> AnsweredAs(c.log.answered[k], gs, k))
    && (!c.closed && c.requests != [] && |c.pending| == 1 ==>
          if c.pending[0].Reading? || c.pending[0].Handling? then |gs| == n
          else AnsweredAs(Answer(c.requests[0], c.reply), gs, n) && |gs| == if c.requests[0].isBad then n else n + 1)
  }

  lemma ProcessNextRelays(c: Conn, gs: seq<Given>)
    requires Idle(c) && |gs| == |c.log.answered|
    requires forall k :: 0 <= k < |c.log.answered| ==> AnsweredAs(c.log.answered[k], gs, k)
    ensures Relayed(ProcessNext(c), gs)
  {
    hide Follows, Text, NoCloser, AnsweredAs, BAD_REQUEST;
    if c.requests[0].isBad {
      BadIsAnswered(c.requests[0], gs, |gs|);
    }
  }

  lemma BadIsAnswered(req: Request, gs: seq<Given>, n: nat)
    requires req.isBad
    ensures AnsweredAs(Answer(req, BAD_REQUEST), gs, n)
  {
  }

  lemma FinishRelays(c: Conn, gs: seq<Given>)
    requires Sent(c) && AnsweredAs(Answer(c.requests[0], c.reply), gs, |c.log.answered|)
    requires |gs| == |c.log.answered| + if c.requests[0].isBad then 0 else 1
    requires forall k :: 0 <= k < |c.log.answered| ==> AnsweredAs(c.log.answered[k], gs, k)
    ensures c.closeAfter || |c.requests| > 1
    ensures Relayed(Finish(c), gs)
  {
    hide Follows, Text, Whole, AnsweredAs;
    SentLeavesMore(c);
    if !c.closeAfter {
      SentIsIdle(c);
      var d := c.(requests := c.requests[1..],
        log := c.log.(answered := c.log.answered + [Answer(c.requests[0], c.reply)], partial := 0));
      ProcessNextRelays(d, gs);
    }
  }

  /** A connection that goes on after a reply is between two requests. */
  lemma SentIsIdle(c: Conn)
    requires Sent(c) && !c.closeAfter
    ensures
      Idle(c.(requests := c.requests[1..],
        log := c.log.(answered := c.log.answered + [Answer(c.requests[0], c.reply)], partial := 0)))
  {
    hide Absorb, Text, Whole, Closer;
    var a := Answer(c.requests[0], c.reply);
    RequestsGrow(c.log.answered, a);
    var d := c.(requests := c.requests[1..], log := c.log.(answered := c.log.answered + [a], partial := 0));
    assert Requests(c.log.answered) + c.requests == Requests(d.log.answered) + d.requests;
    assert Whole(c.reply)[..|Whole(c.reply)|] == Whole(c.reply);
  }

  lemma TrySendRelays(c: Conn, gs: seq<Given>, granted: bool)
    requires PartSent(c) && AnsweredAs(Answer(c.requests[0], c.reply), gs, |c.log.answered|)
    requires |gs| == |c.log.answered| + 1
    requires forall k :: 0 <= k < |c.log.answered| ==> AnsweredAs(c.log.answered[k], gs, k)
    ensures c.closeAfter || |c.requests| > 1
    ensures Relayed(TrySend(c, granted), gs)
  {
    hide Follows, Text, AnsweredAs, HeaderText, NoCloser, Closer;
    TrySendKeepsInv(c, granted);
    if c.reply.bytesSent == |c.reply.content| {
      WholeIsHeaderThenContent(c.reply, c.reply.bytesSent);
      FinishRelays(c, gs);
    }
  }

  lemma ReadRelays(c: Conn, gs: seq<Given>, input: string)
    requires Inv(c) && Relayed(c, gs) && Reading in c.pending
    ensures c.requests != [] && Relayed(OnRead(c, input), gs)
  {
    hide Absorb, Text, Closer, Follows, Whole, AnsweredAs;
    ReadIsIdle(c, input);
    assert c.pending == [Reading];
    ProcessNextRelays(Enqueue(Done(c, Reading), input), gs);
  }

  lemma ReplyRelays(c: Conn, gs: seq<Given>, status: string, headers: seq<Header>, content: string, burst: Option<nat>)
    requires Inv(c) && Relayed(c, gs) && Handling in c.pending
    ensures c.requests != []
    ensures Relayed(OnReply(c, status, headers, content, burst), gs + [Given(status, headers, content)])
  {
    hide Absorb, Text, Closer, Follows, Whole, NoCloser;
    assert c.pending == [Handling];
    var d, gs' := OnReply(c, status, headers, content, burst), gs + [Given(status, headers, content)];
    forall k | 0 <= k < |c.log.answered|
      ensures AnsweredAs(c.log.answered[k], gs', k)
    {
      assert AnsweredAs(c.log.answered[k], gs, k);
    }
    assert headers + [] == headers;
  }

  lemma StepRelays(c: Conn, gs: seq<Given>, ev: Event)
    requires Inv(c) && Relayed(c, gs) && Enabled(c, ev)
    ensures Ready(c, ev)
    ensures
      Relayed(Next(c, ev), if ev.Replied? then gs + [Given(ev.status, ev.headers, ev.content)] else gs)
  {
    StepKeepsInv(c, ev);
    match ev
    case ReadOk(input) => ReadRelays(c, gs, input);
    case Replied(status, headers, content, bucket) => ReplyRelays(c, gs, status, headers, content, bucket);
    case _ => OthersRelay(c, gs, ev);
  }

  /** The completions that send: all but reads, replies and failures. */
  lemma OthersRelay(c: Conn, gs: seq<Given>, ev: Event)
    requires Inv(c) && Relayed(c, gs) && Enabled(c, ev) && !ev.ReadOk? && !ev.Replied?
    ensures Ready(c, ev) && Relayed(Next(c, ev), gs)
  {
    hide Follows, Text, Closer, AnsweredAs, Finish, TrySend, Lines, Absorb, Written, NoCloser;
    StepKeepsInv(c, ev);
    match ev
    case WriteOk =>
      WriteIsSent(c);
      FinishRelays(Emit(Done(c, Writing), Whole(c.reply)), gs);
    case HeaderWriteOk(granted) =>
      HeaderIsPart(c);
      TrySendRelays(Emit(Done(c, WritingHeader), HeaderText(c.reply)), gs, granted);
    case TimerFires(granted) =>
      WaitingIsPart(c);
      TrySendRelays(Done(c, Waiting), gs, granted);
    case ChunkWriteOk(size, n, granted) =>
      ChunkIsPart(c, size, n);
      ShippedWhatever(c.reply, ChunkOut(c, size, n).reply, c.requests[0], gs, |c.log.answered|);
      TrySendRelays(ChunkOut(c, size, n), gs, granted);
    case Fails(op, k) =>
  }

  /** How much of a reply is out does not matter to what it is. */
  lemma ShippedWhatever(r: Reply, r': Reply, req: Request, gs: seq<Given>, n: nat)
    requires r' == r.(bytesSent := r'.bytesSent) && !req.isBad && AnsweredAs(Answer(req, r), gs, n)
    ensures AnsweredAs(Answer(req, r'), gs, n)
  {
  }

  /** In every run the n-th answer on the wire is the n-th reply the handler gave, to the n-th request. */
  lemma {:induction false} AnswersAreTheHandlers(cs: seq<Conn>, evs: seq<Event>, i: nat)
    requires IsRun(cs, evs) && i < |cs|
    ensures Relayed(cs[i], GivenBy(evs[..i]))
  {
    hide Inv, Next, Ready, Enabled, Relayed;
    if i == 0 {
      NothingRelayed();
    } else {
      AnswersAreTheHandlers(cs, evs, i - 1);
      RunsKeepInv(cs, evs, i - 1);
      StepRelays(cs[i - 1], GivenBy(evs[..i - 1]), evs[i - 1]);
      assert evs[..i][..i - 1] == evs[..i - 1];
    }
  }

  lemma NothingRelayed()
    ensures Relayed(OPENED, [])
  {
  }

  // ----- The connection object

  lemma EnqueueTwice(c: Conn, a: string, b: string)
    requires c.requests != []
    ensures Enqueue(Enqueue(c, a), b) == Enqueue(c, a + b)
  {
    hide Absorb;
    var n := |c.requests| - 1;
    var r := Stream([], c.requests[n], c.parser);
    var s := Absorb(r, a);
    AbsorbConcat(r, a, b);
    AbsorbAfter(s.complete, Stream([], s.current, s.parser), b);
    assert s.complete + [] == s.complete;
    var q := Enqueue(c, a).requests;
    assert q[..|q| - 1] == c.requests[..n] + s.complete;
    var t := Absorb(Stream([], s.current, s.parser), b);
    assert c.requests[..n] + s.complete + t.complete == c.requests[..n] + (s.complete + t.complete);
    assert c.log.received + a + b == c.log.received + (a + b);
  }

  /** The queue after one call of the parser on its last request. */
  function Parsed1(c: Conn, p: Parsed, input: string): Conn
    requires c.requests != []
  {
    var n := |c.requests| - 1;
    c.(parser := if p.verdict.Indeterminate? then p.state else MethodStart,
       requests := c.requests[..n] + (if p.verdict.Good? then [p.req, FRESH] else [p.req]),
       log := c.log.(received := c.log.received + input))
  }

  lemma EnqueueIsParse(c: Conn, input: string)
    requires c.requests != []
    requires var r := c.requests[|c.requests| - 1]; !r.isBad && !r.isReady
    requires input == "" || Feed(c.parser, c.requests[|c.requests| - 1], input[..|input| - 1]).verdict.Indeterminate?
    ensures Enqueue(c, input) == Parsed1(c, Feed(c.parser, c.requests[|c.requests| - 1], input), input)
  {
    hide Absorb, Feed, Consume;
    var n := |c.requests| - 1;
    AbsorbIsFeed(Stream([], c.requests[n], c.parser), input);
    var p := Feed(c.parser, c.requests[n], input);
    if p.verdict.Good? {
      assert c.requests[..n] + ([] + [p.req]) + [FRESH] == c.requests[..n] + [p.req, FRESH];
    } else {
      assert c.requests[..n] + [] + [p.req] == c.requests[..n] + [p.req];
    }
  }

  lemma EnqueuePastBad(c: Conn, a: string, b: string)
    requires c.requests != [] && Enqueue(c, a).requests[|Enqueue(c, a).requests| - 1].isBad
    ensures var d := Enqueue(c, a); Enqueue(c, a + b) == d.(log := d.log.(received := c.log.received + (a + b)))
  {
    hide Absorb;
    EnqueueTwice(c, a, b);
    var d := Enqueue(c, a);
    var n := |d.requests| - 1;
    AbsorbGrows(Stream([], d.requests[n], d.parser), b);
    assert d.requests[..n] + [] + [d.requests[n]] == d.requests;
    assert c.log.received + a + b == c.log.received + (a + b);
  }

  lemma EnqueueNothing(c: Conn)
    requires c.requests != []
    ensures Enqueue(c, "") == c
  {
    var n := |c.requests| - 1;
    assert c.requests[..n] + [] + [c.requests[n]] == c.requests;
    assert c.log.received + "" == c.log.received;
  }

  lemma UndecidedPrefix(st: State, req: Request, input: string)
    requires input != "" && Feed(st, req, input).verdict.Indeterminate?
    ensures Feed(st, req, input[..|input| - 1]).verdict.Indeterminate?
  {
    hide Consume;
  }

  /** What is known of a connection whose read completes. */
  lemma ReadingNow(c: Conn)
    requires Inv(c) && Reading in c.pending
    ensures c.pending == [Reading] && |c.requests| == 1 && !c.requests[0].isBad && !c.requests[0].isReady
  {
    hide Follows, Written, NoCloser, Requests, HandedInOrder;
    assert c.pending == [c.pending[0]];
  }

  class HttpConnection {
    const requestParser: Parser
    var requests: seq<Request>
    var requestInProgress: bool
    var closeAfterResponseWritten: bool
    var reply: Reply
    ghost var pending: seq<Op>
    ghost var closed: bool
    ghost var log: History

    ghost function Abs(): Conn
      reads this, requestParser
    {
      Conn(requestParser.state, requests, requestInProgress, closeAfterResponseWritten, reply, pending, closed, log)
    }

    constructor ()
      ensures Abs() == OPENED && fresh(requestParser)
    {
      requestParser := new Parser();
      requests := [FRESH];
      requestInProgress := false;
      closeAfterResponseWritten := false;
      reply := RESET;
      pending := [Reading];
      closed := false;
      log := History("", [], [], "", 0, false);
    }

    method InitNewRequest()
      modifies this`requests
      ensures requests == old(requests) + [FRESH]
    {
      requests := requests + [FRESH];
    }

    method ProcessNextRequest()
      requires requests != []
      modifies this
      ensures Abs() == ProcessNext(old(Abs()))
    {
      if requests[0].isBad {
        requestInProgress := true;
        reply := BAD_REQUEST;
        closeAfterResponseWritten := true;
        pending := pending + [Writing];
      } else if requests[0].isReady {
        requestInProgress := true;
        reply := RESET;
        log := log.(handed := log.handed + [requests[0]]);
        pending := pending + [Handling];
      } else {
        requestInProgress := false;
        pending := pending + [Reading];
      }
    }

    /** Parses the last request of the queue from `begin` on, and opens a new one after a complete one. */
    method ParseOne(input: string, begin: nat) returns (verdict: Verdict, next: nat)
      requires begin < |input| && requests != []
      requires var r := requests[|requests| - 1]; !r.isBad && !r.isReady
      modifies this`requests, this`log, requestParser
      ensures begin < next <= |input| && (verdict.Indeterminate? ==> next == |input|)
      ensures Abs() == Enqueue(old(Abs()), input[begin..next])
      ensures |requests| == old(|requests|) + (if verdict.Good? then 1 else 0)
      ensures var r := requests[|requests| - 1]; !r.isReady && (r.isBad <==> verdict.Bad?)
      ensures verdict.Good? ==> requests[|requests| - 2].isReady
      ensures forall i :: 0 <= i < old(|requests|) - 1 ==> requests[i] == old(requests[i])
    {
      hide Feed, Absorb;
      var n := |requests| - 1;
      var req;
      ghost var c := Abs();
      req, verdict, next := requestParser.Parse(requests[n], input, begin);
      FeedFlags(c.parser, c.requests[n], input[begin..next]);
      assert input[begin..next][..next - begin - 1] == input[begin..next - 1];
      if verdict.Indeterminate? {
        UndecidedPrefix(c.parser, c.requests[n], input[begin..next]);
      }
      EnqueueIsParse(c, input[begin..next]);
      requests := requests[..n] + [req];
      log := log.(received := log.received + input[begin..next]);
      if verdict.Good? {
        requestParser.Reset();
        InitNewRequest();
        assert requests == c.requests[..n] + [req, FRESH];
      } else if verdict.Bad? {
        requestParser.Reset();
      }
    }

    /** The loop over the parser; a read is begun as soon as the input ends inside the first request. */
    method ParseAll(input: string)
      requires |requests| == 1 && !requests[0].isBad && !requests[0].isReady && input != ""
      modifies this`requests, this`log, this`pending, requestParser
      ensures requests != [] && Abs() == Received(Enqueue(old(Abs()), input))
    {
      hide Enqueue;
      ghost var c := Abs();
      var pos := 0;
      EnqueueNothing(c);
      assert input[..0] == "";
      while pos != |input|
        invariant pos <= |input| && Abs() == Enqueue(c, input[..pos]) && pending == c.pending
        invariant requests != [] && var r := requests[|requests| - 1]; !r.isBad && !r.isReady
        invariant if pos == 0 then |requests| == 1 else requests[0].isReady
        decreases |input| - pos
      {
        var begin := pos;
        var verdict;
        verdict, pos := ParseOne(input, begin);
        EnqueueTwice(c, input[..begin], input[begin..pos]);
        assert input[..begin] + input[begin..pos] == input[..pos];
        if verdict.Bad? {
          EnqueuePastBad(c, input[..pos], input[pos..]);
          assert input[..pos] + input[pos..] == input;
          log := log.(received := c.log.received + input);
          break;
        } else if verdict.Indeterminate? {
          assert input[..pos] == input;
          if !requests[0].isReady {
            pending := pending + [Reading];
            break;
          }
        }
      }
      assert input[..|input|] == input;
    }

    /** connection_manager::stop on an error: what got out of the operation's text is out, the rest is cancelled. */
    method Stop(op: Op, ghost k: nat)
      requires k <= |Outgoing(Abs(), op)|
      modifies this
      ensures Abs() == OnError(old(Abs()), op, k)
    {
      ghost var text := Outgoing(Abs(), op)[..k];
      log := log.(output := log.output + text, partial := log.partial + |text|);
      pending := [];
      closed := true;
    }

    method HandleRead(ok: bool, input: string)
      requires Inv(Abs()) && Reading in pending && (ok ==> input != "")
      modifies this, requestParser
      ensures Abs() == if ok then OnRead(old(Abs()), input) else OnError(old(Abs()), Reading, 0)
    {
      hide Enqueue, Inv, ProcessNext;
      if ok {
        ReadingNow(Abs());
        pending := [];
        assert Abs() == Done(old(Abs()), Reading);
        ParseAll(input);
        if requests[0].isReady || requests[0].isBad {
          ProcessNextRequest();
        }
      } else {
        Stop(Reading, 0);
      }
    }

    /** The first value of a header of the front request, or the empty string. */
    method FrontHeaderValue(name: string) returns (value: string)
      requires requests != []
      ensures value == FirstValue(requests[0].headers, name)
    {
      var hs := requests[0].headers;
      for i := 0 to |hs|
        invariant FirstValue(hs, name) == FirstValue(hs[i..], name)
      {
        if hs[i].name == name {
          return hs[i].value;
        }
        assert hs[i..][1..] == hs[i + 1..];
      }
      return "";
    }

    method ReplyReady(status: string, headers: seq<Header>, content: string, bucket: Option<nat>)
      requires requests != [] && pending == [Handling]
      modifies this
      ensures Abs() == OnReply(old(Abs()), status, headers, content, bucket)
    {
      pending := [];
      reply := reply.(status := status, headers := headers, content := content);
      var connection := FrontHeaderValue("Connection");
      if connection == "close" || closeAfterResponseWritten {
        reply := reply.(headers := reply.headers + [CLOSE]);
        closeAfterResponseWritten := true;
      }
      if bucket.Some? {
        reply := reply.(burst := bucket);
        pending := pending + [WritingHeader];
      } else {
        pending := pending + [Writing];
      }
    }

    /** What handle_write does when there was no error. */
    method FinishRequest()
      requires requests != [] && (closeAfterResponseWritten || |requests| > 1)
      modifies this
      ensures Abs() == Finish(old(Abs()))
    {
      log := log.(answered := log.answered + [Answer(requests[0], reply)], partial := 0);
      requests := requests[1..];
      if closeAfterResponseWritten {
        closed := true;
        log := log.(finished := true);
      } else {
        ProcessNextRequest();
      }
    }

    /** `out` are the buffers that were given to the write, of which an error may leave `k` characters written. */
    method HandleWrite(ok: bool, out: seq<string>, ghost k: nat)
      requires requests != [] && (closeAfterResponseWritten || |requests| > 1)
      requires pending == [Writing] && Flat(out) == Whole(reply) && k <= |Flat(out)|
      modifies this
      ensures Abs() == if ok then OnWritten(old(Abs())) else OnError(old(Abs()), Writing, k)
    {
      hide Whole, Flat;
      if ok {
        pending := [];
        log := log.(output := log.output + Flat(out), partial := log.partial + |Flat(out)|);
        assert Abs() == Emit(Done(old(Abs()), Writing), Whole(reply));
        FinishRequest();
      } else {
        Stop(Writing, k);
      }
    }

    method TrySendNextChunk(granted: bool)
      requires requests != [] && (closeAfterResponseWritten || |requests| > 1)
      requires reply.bytesSent <= |reply.content|
      modifies this
      ensures Abs() == TrySend(old(Abs()), granted)
    {
      if reply.bytesSent == |reply.content| {
        FinishRequest();
      } else {
        var transmissionSize := ChunkSize(reply);
        if granted {
          pending := pending + [WritingChunk(transmissionSize)];
        } else {
          pending := pending + [Waiting];
        }
      }
    }

    method HandleHeaderWrite(ok: bool, out: seq<string>, granted: bool, ghost k: nat)
      requires requests != [] && (closeAfterResponseWritten || |requests| > 1)
      requires reply.bytesSent <= |reply.content| && pending == [WritingHeader]
      requires Flat(out) == HeaderText(reply) && k <= |Flat(out)|
      modifies this
      ensures Abs() == if ok then OnHeaderWritten(old(Abs()), granted) else OnError(old(Abs()), WritingHeader, k)
    {
      hide HeaderText, Flat;
      if ok {
        pending := [];
        log := log.(output := log.output + Flat(out), partial := log.partial + |Flat(out)|);
        assert Abs() == Emit(Done(old(Abs()), WritingHeader), HeaderText(reply));
        TrySendNextChunk(granted);
      } else {
        Stop(WritingHeader, k);
      }
    }

    /** The timer is only cancelled when the connection is stopped. */
    method OnTokenWait(aborted: bool, granted: bool)
      requires requests != [] && (closeAfterResponseWritten || |requests| > 1)
      requires reply.bytesSent <= |reply.content| && pending == [Waiting]
      modifies this
      ensures Abs() == if aborted then OnError(old(Abs()), Waiting, 0) else OnTimer(old(Abs()), granted)
    {
      if aborted {
        Stop(Waiting, 0);
      } else {
        pending := [];
        assert Abs() == Done(old(Abs()), Waiting);
        TrySendNextChunk(granted);
      }
    }

    method HandleChunkWrite(ok: bool, size: nat, bytesTransferred: nat, granted: bool)
      requires requests != [] && (closeAfterResponseWritten || |requests| > 1)
      requires bytesTransferred <= size && reply.bytesSent + size <= |reply.content| && pending == [WritingChunk(size)]
      modifies this
      ensures
        Abs() == if ok then OnChunkWritten(old(Abs()), size, bytesTransferred, granted)
                 else OnError(old(Abs()), WritingChunk(size), bytesTransferred)
    {
      hide TrySend;
      if ok {
        pending := [];
        ghost var chunk := reply.content[reply.bytesSent..reply.bytesSent + bytesTransferred];
        log := log.(output := log.output + chunk, partial := log.partial + |chunk|);
        reply := reply.(bytesSent := reply.bytesSent + bytesTransferred);
        ghost var c := old(Abs());
        assert Without([WritingChunk(size)], WritingChunk(size)) == [];
        assert Abs() == Emit(Done(c, WritingChunk(size)), chunk).(reply := reply);
        TrySendNextChunk(granted);
      } else {
        Stop(WritingChunk(size), bytesTransferred);
      }
    }
  }
}
