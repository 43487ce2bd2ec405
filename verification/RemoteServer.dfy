/** The .NET client: any number of client threads send requests over one connection, and a receive thread
    matches answers to requests by their order. Each lock region is one step, and the steps of all
    threads interleave freely. No connection error occurs. */
module RemoteServer {
  import opened Wrappers
  import opened Sequences

  type Uuid = string
  type WaiterId = nat

  datatype Request = Request(isGet: bool, uuid: Uuid)
  datatype Response = Response(uuid: Uuid, body: seq<bv8>)

  /** How far SendRequest has come: past QueueGetWaiter and about to send, inside lock (_sendSync), past the
      enqueue, or finished. */
  datatype Stage = ToSend | Holding | Enqueued | Waiting

  /** A ResponseWaiter with the request it belongs to. */
  datatype Call = Call(req: Request, stage: Stage, response: Option<Response>)

  /** An answer on the wire, with the call whose request it answers. */
  datatype Answer = Answer(w: WaiterId, msg: Response)

  /** The receive thread: reading, holding a message, holding a message and the dequeued waiter, about to
      call the other waiters, or ended by the exception of a Dequeue on an empty queue. */
  datatype Receiver =
    | Reading
    | Got(w: WaiterId, msg: Response)
    | Popped(w: WaiterId, msg: Response)
    | Notified(w: WaiterId, msg: Response)
    | Crashed

  datatype Client = Client(
    calls: map<WaiterId, Call>,
    sendSync: Option<WaiterId>,                 // the thread inside lock (_sendSync)
    getWaiters: map<Uuid, seq<WaiterId>>,       // _getResponseWaiters
    waiting: seq<WaiterId>,                     // _waitingRequests
    atServer: seq<WaiterId>,                    // requests sent and not answered, oldest first
    inbound: seq<Answer>,                       // answers not yet read, oldest first
    rx: Receiver,
    called: seq<WaiterId>)                      // waiters notified by CallGetWaiters

  const START := Client(map[], None, map[], [], [], [], Reading, [])

  // ----- Steps

  function SetStage(c: Client, w: WaiterId, stage: Stage): Client
    requires w in c.calls
  {
    c.(calls := c.calls[w := c.calls[w].(stage := stage)])
  }

  function AddCall(c: Client, w: WaiterId, req: Request, stage: Stage): Client {
    c.(calls := c.calls[w := Call(req, stage, None)])
  }

  function AddWaiter(c: Client, u: Uuid, w: WaiterId): Client {
    c.(getWaiters := c.getWaiters[u := (if u in c.getWaiters then c.getWaiters[u] else []) + [w]])
  }

  /** SendRequest up to and including QueueGetWaiter: a GET for a UUID that has waiters joins them, any other
      request has to be sent. */
  function Begin(c: Client, w: WaiterId, req: Request): Client {
    var joins := req.isGet && req.uuid in c.getWaiters;
    var c := AddCall(c, w, req, if joins then Waiting else ToSend);
    if req.isGet then AddWaiter(c, req.uuid, w) else c
  }

  function LockSend(c: Client, w: WaiterId): Client
    requires w in c.calls
  {
    SetStage(c, w, Holding).(sendSync := Some(w))
  }

  function Enqueue(c: Client, w: WaiterId): Client
    requires w in c.calls
  {
    SetStage(c, w, Enqueued).(waiting := c.waiting + [w])
  }

  function Send(c: Client, w: WaiterId): Client
    requires w in c.calls
  {
    SetStage(c, w, Waiting).(atServer := c.atServer + [w], sendSync := None)
  }

  /** The server answers the oldest request under the request's UUID. */
  function ServerAnswers(c: Client, body: seq<bv8>): Client
    requires c.atServer != [] && c.atServer[0] in c.calls
  {
    var w := c.atServer[0];
    c.(atServer := c.atServer[1..], inbound := c.inbound + [Answer(w, Response(c.calls[w].req.uuid, body))])
  }

  function Receive(c: Client): Client
    requires c.inbound != []
  {
    c.(inbound := c.inbound[1..], rx := Got(c.inbound[0].w, c.inbound[0].msg))
  }

  function Dequeue(c: Client): Client
    requires c.rx.Got?
  {
    if c.waiting == [] then c.(rx := Crashed)
    else c.(waiting := c.waiting[1..], rx := Popped(c.waiting[0], c.rx.msg))
  }

  function SetResponse(c: Client, w: WaiterId, msg: Response): Client
    requires w in c.calls
  {
    c.(calls := c.calls[w := c.calls[w].(response := Some(msg))])
  }

  function NotifyRoot(c: Client): Client
    requires c.rx.Popped? && c.rx.w in c.calls
  {
    SetResponse(c, c.rx.w, c.rx.msg).(rx := Notified(c.rx.w, c.rx.msg))
  }

  /** The calls after each waiter in the list has been given the message. */
  function Given(calls: map<WaiterId, Call>, ws: seq<WaiterId>, msg: Response): map<WaiterId, Call> {
    map w | w in calls :: if w in ws then calls[w].(response := Some(msg)) else calls[w]
  }

  /** CallGetWaiters */
  function NotifyAll(c: Client, msg: Response): Client
    requires msg.uuid in c.getWaiters
  {
    var ws := c.getWaiters[msg.uuid];
    c.(calls := Given(c.calls, ws, msg), called := c.called + ws, getWaiters := c.getWaiters - {msg.uuid})
  }

  function FinishReceive(c: Client): Client
    requires c.rx.Notified? && c.rx.w in c.calls
  {
    var msg := c.rx.msg;
    var c := if c.calls[c.rx.w].req.isGet && msg.uuid in c.getWaiters then NotifyAll(c, msg) else c;
    c.(rx := Reading)
  }

  // ----- Interleavings

  datatype Event =
    | DoBegin(w: WaiterId, req: Request)
    | DoLock(w: WaiterId)
    | DoEnqueue(w: WaiterId)
    | DoSend(w: WaiterId)
    | DoAnswer(body: seq<bv8>)
    | DoReceive
    | DoDequeue
    | DoNotifyRoot
    | DoFinishReceive

  /** When a step can run: a call is new, locks exclude, and the receive thread follows its code. */
  predicate Enabled(c: Client, ev: Event) {
    match ev
    case DoBegin(w, _) => w !in c.calls
    case DoLock(w) => w in c.calls && c.calls[w].stage.ToSend? && c.sendSync.None?
    case DoEnqueue(w) => w in c.calls && c.calls[w].stage.Holding?
    case DoSend(w) => w in c.calls && c.calls[w].stage.Enqueued?
    case DoAnswer(_) => c.atServer != [] && c.atServer[0] in c.calls
    case DoReceive => c.rx.Reading? && c.inbound != []
    case DoDequeue => c.rx.Got?
    case DoNotifyRoot => c.rx.Popped? && c.rx.w in c.calls
    case DoFinishReceive => c.rx.Notified? && c.rx.w in c.calls
  }

  function Next(c: Client, ev: Event): Client
    requires Enabled(c, ev)
  {
    match ev
    case DoBegin(w, req) => Begin(c, w, req)
    case DoLock(w) => LockSend(c, w)
    case DoEnqueue(w) => Enqueue(c, w)
    case DoSend(w) => Send(c, w)
    case DoAnswer(body) => ServerAnswers(c, body)
    case DoReceive => Receive(c)
    case DoDequeue => Dequeue(c)
    case DoNotifyRoot => NotifyRoot(c)
    case DoFinishReceive => FinishReceive(c)
  }

  ghost predicate IsRun(cs: seq<Client>, evs: seq<Event>) {
    && |cs| == |evs| + 1 && cs[0] == START
    && forall i | 0 <= i < |evs| :: Enabled(cs[i], evs[i]) && cs[i + 1] == Next(cs[i], evs[i])
  }

  // ----- Invariants

  function Tags(answers: seq<Answer>): (ws: seq<WaiterId>)
    ensures |ws| == |answers|
  {
    seq(|answers|, (i: nat) requires i < |answers| => answers[i].w)
  }

  /** The call whose answer has been read but not yet matched. */
  function Unmatched(rx: Receiver): seq<WaiterId> { if rx.Got? then [rx.w] else [] }

  /** The call that has been enqueued but not yet sent. */
  function Unsent(c: Client): seq<WaiterId> {
    if c.sendSync.Some? && c.sendSync.value in c.calls && c.calls[c.sendSync.value].stage.Enqueued?
    then [c.sendSync.value] else []
  }

  /** Requests in wire order: answered and read, answered, sent, and the one about to be sent. */
  function InWireOrder(c: Client): seq<WaiterId> { Unmatched(c.rx) + Tags(c.inbound) + c.atServer + Unsent(c) }

  /** Between queueing and the end of its answer's handling, a sent call is outstanding. */
  predicate Outstanding(c: Client, w: WaiterId)
    requires w in c.calls
  {
    !c.calls[w].stage.Waiting? || w in c.waiting || ((c.rx.Popped? || c.rx.Notified?) && c.rx.w == w)
  }

  ghost predicate Locks(c: Client) {
    && (forall w | w in c.calls :: (c.calls[w].stage.Holding? || c.calls[w].stage.Enqueued?) <==> c.sendSync == Some(w))
    && (c.sendSync.Some? ==> c.sendSync.value in c.calls)
  }

  /** The queue of waiters is the list of unanswered requests in wire order. */
  ghost predicate Queue(c: Client) {
    && c.waiting == InWireOrder(c) && Distinct(c.waiting)
    && (forall w | w in c.waiting :: w in c.calls && (c.calls[w].stage.Waiting? || c.calls[w].stage.Enqueued?))
    && (c.rx.Popped? || c.rx.Notified? ==> c.rx.w in c.calls && c.rx.w !in c.waiting && c.calls[c.rx.w].stage.Waiting?)
  }

  /** Every answer carries the UUID of the request it answers. */
  ghost predicate Labels(c: Client) {
    && (forall a | a in c.inbound :: a.w in c.calls && a.msg.uuid == c.calls[a.w].req.uuid)
    && (!c.rx.Reading? ==> !c.rx.Crashed? && c.rx.w in c.calls && c.rx.msg.uuid == c.calls[c.rx.w].req.uuid)
    && (c.rx.Notified? ==> c.calls[c.rx.w].response == Some(c.rx.msg))
    && (forall w | w in c.calls && c.calls[w].response.Some? :: c.calls[w].response.value.uuid == c.calls[w].req.uuid)
  }

  /** The waiters of a UUID: the first sent the GET, which is outstanding, and the others joined it. */
  ghost predicate WaitersOf(c: Client, u: Uuid)
    requires u in c.getWaiters
  {
    var ws := c.getWaiters[u];
    && ws != [] && Distinct(ws) && (forall w | w in ws :: w in c.calls && c.calls[w].req == Request(true, u))
    && Outstanding(c, ws[0]) && (forall w | w in ws && w != ws[0] :: !Outstanding(c, w))
  }

  ghost predicate IsListed(c: Client, w: WaiterId)
    requires w in c.calls
  {
    c.calls[w].req.isGet && c.calls[w].req.uuid in c.getWaiters && w in c.getWaiters[c.calls[w].req.uuid]
  }

  ghost predicate IsFirst(c: Client, w: WaiterId)
    requires w in c.calls
  {
    IsListed(c, w) && c.getWaiters[c.calls[w].req.uuid][0] == w
  }

  /** A UUID has waiters exactly while one GET for it is outstanding, and that is the first of them. */
  ghost predicate Waiters(c: Client) {
    && (forall u | u in c.getWaiters :: WaitersOf(c, u))
    && (forall w | w in c.calls && c.calls[w].req.isGet && Outstanding(c, w) :: IsFirst(c, w))
  }

  /** A call without an answer is still going to get one; only the call being handled has its answer while
      it is still outstanding or listed; and a GET has been called once it is answered. */
  ghost predicate AnswerState(c: Client, w: WaiterId)
    requires w in c.calls
  {
    var x := c.calls[w];
    if x.response.None? then w !in c.called && (if x.req.isGet then IsListed(c, w) else Outstanding(c, w))
    else if c.rx.Notified? && c.rx.w == w then w !in c.called
    else !Outstanding(c, w) && !IsListed(c, w) && (x.req.isGet ==> w in c.called)
  }

  ghost predicate Answers(c: Client) {
    Distinct(c.called) && (forall w | w in c.called :: w in c.calls) && forall w | w in c.calls :: AnswerState(c, w)
  }

  ghost predicate WireSide(c: Client) { Locks(c) && Queue(c) && Labels(c) }
  ghost predicate GetSide(c: Client) { Waiters(c) && Answers(c) }
  ghost predicate Inv(c: Client) { WireSide(c) && GetSide(c) }

  // ----- Steps that change nothing about who waits for what

  /** The same requests are outstanding, with the same waiters and the same answers. */
  ghost predicate SameWaiters(c: Client, c': Client) {
    && c'.calls.Keys == c.calls.Keys && c'.getWaiters == c.getWaiters && c'.called == c.called
    && (forall w | w in c.calls :: c'.calls[w].req == c.calls[w].req && c'.calls[w].response == c.calls[w].response)
    && (forall w | w in c.calls :: Outstanding(c', w) <==> Outstanding(c, w))
    && (c'.rx == c.rx || (!c.rx.Notified? && !c'.rx.Notified?))
  }

  lemma SameWaitersKeepGetSide(c: Client, c': Client)
    requires GetSide(c) && SameWaiters(c, c')
    ensures GetSide(c')
  {
    hide Outstanding;
    forall u | u in c'.getWaiters ensures WaitersOf(c', u) { assert WaitersOf(c, u); }
    forall w | w in c'.calls ensures AnswerState(c', w) { assert AnswerState(c, w); }
  }

  lemma LockKeepsInv(c: Client, w: WaiterId)
    requires Inv(c) && w in c.calls && c.calls[w].stage.ToSend? && c.sendSync.None?
    ensures Inv(LockSend(c, w))
  {
    hide GetSide;
    var c' := LockSend(c, w);
    assert w !in c.waiting;
    SameWaitersKeepGetSide(c, c');
  }

  lemma EnqueueKeepsInv(c: Client, w: WaiterId)
    requires Inv(c) && w in c.calls && c.calls[w].stage.Holding?
    ensures Inv(Enqueue(c, w))
  {
    hide GetSide;
    var c' := Enqueue(c, w);
    assert Unsent(c') == [w] && Unsent(c) == [];
    SameWaitersKeepGetSide(c, c');
  }

  lemma SendKeepsInv(c: Client, w: WaiterId)
    requires Inv(c) && w in c.calls && c.calls[w].stage.Enqueued?
    ensures Inv(Send(c, w))
  {
    hide GetSide;
    var c' := Send(c, w);
    assert Unsent(c) == [w] && Unsent(c') == [];
    assert w in c.waiting;
    SameWaitersKeepGetSide(c, c');
  }

  lemma AcrossTheWire(a: seq<WaiterId>, b: seq<WaiterId>, d: seq<WaiterId>, e: seq<WaiterId>)
    requires d != []
    ensures a + (b + [d[0]]) + d[1..] + e == a + b + d + e
  {}

  lemma AnswerKeepsInv(c: Client, body: seq<bv8>)
    requires Inv(c) && c.atServer != [] && c.atServer[0] in c.calls
    ensures Inv(ServerAnswers(c, body))
  {
    hide GetSide;
    var c' := ServerAnswers(c, body);
    assert Tags(c'.inbound) == Tags(c.inbound) + [c.atServer[0]];
    AcrossTheWire(Unmatched(c.rx), Tags(c.inbound), c.atServer, Unsent(c));
    assert Queue(c');
    SameWaitersKeepGetSide(c, c');
  }

  lemma ReceiveKeepsOrder(c: Client)
    requires c.rx.Reading? && c.inbound != []
    ensures InWireOrder(Receive(c)) == InWireOrder(c)
  {
    assert Tags(c.inbound) == [c.inbound[0].w] + Tags(Receive(c).inbound);
  }

  lemma ReceiveKeepsWireSide(c: Client)
    requires WireSide(c) && c.rx.Reading? && c.inbound != []
    ensures WireSide(Receive(c))
  {
    ReceiveKeepsOrder(c);
    hide InWireOrder;
    var c' := Receive(c);
    assert c.inbound[0] in c.inbound;
    assert forall a | a in c'.inbound :: a in c.inbound;
  }

  lemma ReceiveKeepsInv(c: Client)
    requires Inv(c) && c.rx.Reading? && c.inbound != []
    ensures Inv(Receive(c))
  {
    ReceiveKeepsWireSide(c);
    ReceiveKeepsOrder(c);
    hide GetSide, WireSide, InWireOrder;
    SameWaitersKeepGetSide(c, Receive(c));
  }

  lemma DequeueMatches(c: Client)
    requires Queue(c) && Locks(c) && c.rx.Got?
    ensures c.waiting != [] && c.waiting[0] == c.rx.w && Queue(Dequeue(c))
  {
    assert InWireOrder(c)[0] == c.rx.w;
    var c' := Dequeue(c);
    assert InWireOrder(c)[1..] == InWireOrder(c');
    assert c.waiting == [c.waiting[0]] + c'.waiting;
  }

  lemma DequeueKeepsInv(c: Client)
    requires Inv(c) && c.rx.Got?
    ensures c.waiting != [] && c.waiting[0] == c.rx.w && Inv(Dequeue(c))
  {
    hide GetSide;
    DequeueMatches(c);
    var c' := Dequeue(c);
    hide InWireOrder;
    assert c.waiting == [c.waiting[0]] + c'.waiting;
    SameWaitersKeepGetSide(c, c');
  }

  // ----- Steps that register and answer waiters

  lemma AddCallKeepsWireSide(c: Client, w: WaiterId, req: Request, stage: Stage)
    requires WireSide(c) && w !in c.calls && (stage.ToSend? || stage.Waiting?)
    ensures WireSide(AddCall(c, w, req, stage))
  {
    var c' := AddCall(c, w, req, stage);
    assert Unsent(c') == Unsent(c);
    assert InWireOrder(c') == InWireOrder(c);
    hide InWireOrder;
    assert Queue(c');
  }

  lemma AddWaiterKeepsWireSide(c: Client, u: Uuid, w: WaiterId)
    requires WireSide(c)
    ensures WireSide(AddWaiter(c, u, w))
  {
    assert Unsent(AddWaiter(c, u, w)) == Unsent(c);
  }

  lemma BeginKeepsWireSide(c: Client, w: WaiterId, req: Request)
    requires WireSide(c) && w !in c.calls
    ensures WireSide(Begin(c, w, req))
  {
    hide WireSide;
    var stage := if req.isGet && req.uuid in c.getWaiters then Waiting else ToSend;
    AddCallKeepsWireSide(c, w, req, stage);
    AddWaiterKeepsWireSide(AddCall(c, w, req, stage), req.uuid, w);
  }

  /** A new call does not disturb the others, and is outstanding exactly if it has to be sent. */
  lemma BeginOutstanding(c: Client, w: WaiterId, req: Request)
    requires WireSide(c) && w !in c.calls
    ensures
      var c' := Begin(c, w, req);
      && (forall v | v in c.calls :: c'.calls[v] == c.calls[v] && (Outstanding(c', v) <==> Outstanding(c, v)))
      && (Outstanding(c', w) <==> !c'.calls[w].stage.Waiting?)
  {
    hide InWireOrder;
  }

  /** A list that stays, or that a call joins which needs no sending, is as good after the step as before. */
  lemma WaitersOfLater(c: Client, c': Client, u: Uuid, joined: seq<WaiterId>)
    requires u in c.getWaiters && WaitersOf(c, u) && u in c'.getWaiters && c'.getWaiters[u] == c.getWaiters[u] + joined
    requires forall v | v in c.calls :: v in c'.calls && c'.calls[v].req == c.calls[v].req
    requires forall v | v in c.calls :: Outstanding(c', v) <==> Outstanding(c, v)
    requires |joined| <= 1
    requires forall v | v in joined ::
      v !in c.calls && v in c'.calls && c'.calls[v].req == Request(true, u) && !Outstanding(c', v)
    ensures WaitersOf(c', u)
  {
    hide Outstanding;
    var ws, ws' := c.getWaiters[u], c'.getWaiters[u];
    assert ws'[0] == ws[0];
    forall i, j | 0 <= i < j < |ws'|
      ensures ws'[i] != ws'[j]
    {
      assert ws'[i] == ws[i] && ws[i] in ws;
      if j >= |ws| {
        assert ws'[j] == joined[j - |ws|] && joined[j - |ws|] in joined;
      }
    }
  }

  lemma BeginKeepsWaitersOf(c: Client, w: WaiterId, req: Request, u: Uuid)
    requires WireSide(c) && Waiters(c) && w !in c.calls && u in Begin(c, w, req).getWaiters
    ensures WaitersOf(Begin(c, w, req), u)
  {
    BeginOutstanding(c, w, req);
    hide WireSide, Outstanding;
    var c' := Begin(c, w, req);
    if u in c.getWaiters {
      assert WaitersOf(c, u);
      hide WaitersOf;
      assert c.getWaiters[u] + [] == c.getWaiters[u];
      WaitersOfLater(c, c', u, if req.isGet && u == req.uuid then [w] else []);
    }
  }

  lemma BeginKeepsListed(c: Client, w: WaiterId, req: Request, v: WaiterId)
    requires WireSide(c) && Waiters(c) && w !in c.calls
    requires var c' := Begin(c, w, req); v in c'.calls && c'.calls[v].req.isGet && Outstanding(c', v)
    ensures IsFirst(Begin(c, w, req), v)
  {
    BeginOutstanding(c, w, req);
    hide WireSide, Outstanding, WaitersOf;
    if v != w {
      assert IsListed(c, v);
    }
  }

  lemma BeginKeepsWaiters(c: Client, w: WaiterId, req: Request)
    requires WireSide(c) && Waiters(c) && w !in c.calls
    ensures Waiters(Begin(c, w, req))
  {
    hide WireSide, Outstanding, Begin, WaitersOf, IsListed;
    var c' := Begin(c, w, req);
    forall u | u in c'.getWaiters ensures WaitersOf(c', u) {
      BeginKeepsWaitersOf(c, w, req, u);
    }
    forall v | v in c'.calls && c'.calls[v].req.isGet && Outstanding(c', v)
      ensures IsFirst(c', v)
    {
      BeginKeepsListed(c, w, req, v);
    }
  }

  lemma BeginKeepsAnswers(c: Client, w: WaiterId, req: Request)
    requires WireSide(c) && Answers(c) && w !in c.calls
    ensures Answers(Begin(c, w, req))
  {
    BeginOutstanding(c, w, req);
    var c' := Begin(c, w, req);
    assert c.rx.Notified? ==> c.rx.w in c.calls;
    hide WireSide, Outstanding;
    forall v | v in c'.calls ensures AnswerState(c', v) {
      if v != w {
        assert AnswerState(c, v);
        assert IsListed(c', v) <==> IsListed(c, v);
      }
    }
  }

  lemma BeginKeepsInv(c: Client, w: WaiterId, req: Request)
    requires Inv(c) && w !in c.calls
    ensures Inv(Begin(c, w, req))
  {
    hide WireSide, Waiters, Answers, Begin;
    BeginKeepsWireSide(c, w, req);
    BeginKeepsWaiters(c, w, req);
    BeginKeepsAnswers(c, w, req);
  }

  lemma NotifyRootKeepsInv(c: Client)
    requires Inv(c) && c.rx.Popped? && c.rx.w in c.calls
    ensures Inv(NotifyRoot(c))
  {
    var c' := NotifyRoot(c);
    assert Unsent(c') == Unsent(c);
    assert forall v | v in c.calls :: Outstanding(c', v) <==> Outstanding(c, v);
    assert AnswerState(c, c.rx.w);
    forall u | u in c'.getWaiters ensures WaitersOf(c', u) { assert WaitersOf(c, u); }
    forall w | w in c'.calls ensures AnswerState(c', w) { assert AnswerState(c, w); }
  }

  /** What the end of the receive thread's round does to one call. */
  lemma FinishEffect(c: Client, w: WaiterId)
    requires Inv(c) && c.rx.Notified? && w in c.calls
    ensures
      var c', x := FinishReceive(c), c.calls[w];
      var told := c.calls[c.rx.w].req.isGet && x.req == c.calls[c.rx.w].req && w in c.getWaiters[x.req.uuid];
      && c'.calls.Keys == c.calls.Keys
      && c'.calls[w] == (if told then x.(response := Some(c.rx.msg)) else x)
      && (Outstanding(c', w) <==> Outstanding(c, w) && w != c.rx.w)
      && (told <==> c.calls[c.rx.w].req.isGet && w in c.getWaiters[c.rx.msg.uuid])
      && (w == c.rx.w && x.req.isGet ==> told && c.getWaiters[x.req.uuid][0] == w)
  {
    hide InWireOrder;
    if c.calls[c.rx.w].req.isGet { assert WaitersOf(c, c.rx.msg.uuid); }
  }

  lemma FinishKeepsWireSide(c: Client)
    requires Inv(c) && c.rx.Notified?
    ensures WireSide(FinishReceive(c))
  {
    var c' := FinishReceive(c);
    assert Unsent(c') == Unsent(c);
    forall w | w in c.calls ensures c'.calls[w] == c.calls[w].(response := c'.calls[w].response)
    {
      FinishEffect(c, w);
    }
    assert c.calls[c.rx.w].req.isGet ==> WaitersOf(c, c.rx.msg.uuid);
  }

  lemma FinishKeepsWaiters(c: Client)
    requires Inv(c) && c.rx.Notified?
    ensures Waiters(FinishReceive(c))
  {
    var c' := FinishReceive(c);
    assert Labels(c);
    FinishEffect(c, c.rx.w);
    forall w | w in c.calls
      ensures c'.calls[w].req == c.calls[w].req && (Outstanding(c', w) <==> Outstanding(c, w) && w != c.rx.w)
    {
      FinishEffect(c, w);
    }
    hide WireSide, Outstanding;
    forall u | u in c'.getWaiters ensures WaitersOf(c', u) { assert WaitersOf(c, u); }
  }

  lemma FinishAnswers(c: Client, w: WaiterId)
    requires Inv(c) && c.rx.Notified? && w in c.calls
    ensures AnswerState(FinishReceive(c), w)
  {
    assert AnswerState(c, w) && AnswerState(c, c.rx.w) && Labels(c);
    FinishEffect(c, w);
    FinishEffect(c, c.rx.w);
    if c.calls[c.rx.w].req.isGet { assert WaitersOf(c, c.rx.msg.uuid); }
    hide WireSide, Outstanding;
  }

  lemma FinishKeepsInv(c: Client)
    requires Inv(c) && c.rx.Notified?
    ensures Inv(FinishReceive(c))
  {
    FinishKeepsWireSide(c);
    FinishKeepsWaiters(c);
    var c' := FinishReceive(c);
    forall w | w in c'.calls ensures AnswerState(c', w) { FinishAnswers(c, w); }
    CalledStaysDistinct(c);
    hide WireSide, Waiters;
  }

  lemma CalledStaysDistinct(c: Client)
    requires Inv(c) && c.rx.Notified?
    ensures Distinct(FinishReceive(c).called) && forall w | w in FinishReceive(c).called :: w in c.calls
  {
    if c.calls[c.rx.w].req.isGet && c.rx.msg.uuid in c.getWaiters {
      assert WaitersOf(c, c.rx.msg.uuid);
      forall w | w in c.getWaiters[c.rx.msg.uuid] ensures w !in c.called { assert AnswerState(c, w); }
      DistinctConcat(c.called, c.getWaiters[c.rx.msg.uuid]);
    }
  }

  lemma DistinctConcat(a: seq<WaiterId>, b: seq<WaiterId>)
    requires Distinct(a) && Distinct(b) && forall w | w in b :: w !in a
    ensures Distinct(a + b)
  {
    forall i, j | 0 <= i < j < |a + b| ensures (a + b)[i] != (a + b)[j] {
      if i < |a| <= j { assert (a + b)[j] in b; }
    }
  }

  // ----- Main results

  lemma StepKeepsInv(c: Client, ev: Event)
    requires Inv(c) && Enabled(c, ev)
    ensures Inv(Next(c, ev))
  {
    hide Inv;
    match ev
    case DoBegin(w, req) => BeginKeepsInv(c, w, req);
    case DoLock(w) => LockKeepsInv(c, w);
    case DoEnqueue(w) => EnqueueKeepsInv(c, w);
    case DoSend(w) => SendKeepsInv(c, w);
    case DoAnswer(body) => AnswerKeepsInv(c, body);
    case DoReceive => ReceiveKeepsInv(c);
    case DoDequeue => DequeueKeepsInv(c);
    case DoNotifyRoot => NotifyRootKeepsInv(c);
    case DoFinishReceive => FinishKeepsInv(c);
  }

  lemma {:induction false} RunsKeepInv(cs: seq<Client>, evs: seq<Event>, i: nat)
    requires IsRun(cs, evs) && i < |cs|
    ensures Inv(cs[i])
  {
    if i > 0 {
      RunsKeepInv(cs, evs, i - 1);
      StepKeepsInv(cs[i - 1], evs[i - 1]);
    }
  }

  /** In every interleaving the queue of waiters is the list of unanswered requests in the order they are on
      the wire, with at most the one request not yet sent at its end, and the message the receive thread
      holds answers the waiter it dequeues, so the queue is never empty when it does. */
  lemma QueueFollowsTheWire(cs: seq<Client>, evs: seq<Event>, i: nat)
    requires IsRun(cs, evs) && i < |cs|
    ensures
      var c := cs[i];
      && c.waiting == Unmatched(c.rx) + Tags(c.inbound) + c.atServer + Unsent(c)
      && !c.rx.Crashed? && (c.rx.Got? ==> c.waiting != [] && c.waiting[0] == c.rx.w)
  {
    RunsKeepInv(cs, evs, i);
    if cs[i].rx.Got? { DequeueMatches(cs[i]); }
  }

  /** At most one GET per UUID is outstanding. */
  lemma OneGetPerUuid(cs: seq<Client>, evs: seq<Event>, i: nat, v: WaiterId, w: WaiterId)
    requires IsRun(cs, evs) && i < |cs| && v in cs[i].calls && w in cs[i].calls
    requires Outstanding(cs[i], v) && Outstanding(cs[i], w)
    requires cs[i].calls[v].req == cs[i].calls[w].req && cs[i].calls[v].req.isGet
    ensures v == w
  {
    RunsKeepInv(cs, evs, i);
    hide WireSide;
    assert IsListed(cs[i], v) && IsListed(cs[i], w);
  }

  // ----- Which answer a call is given

  /** The k-th event is the server's answer to the request of call w, and msg is the whole of it. */
  ghost predicate IsAnswer(cs: seq<Client>, evs: seq<Event>, k: nat, w: WaiterId, msg: Response) {
    && k < |evs| && k < |cs| && evs[k].DoAnswer? && cs[k].atServer != [] && cs[k].atServer[0] == w
    && w in cs[k].calls && msg == Response(cs[k].calls[w].req.uuid, evs[k].body)
  }

  ghost predicate Came(cs: seq<Client>, evs: seq<Event>, i: nat, w: WaiterId, msg: Response) {
    exists k: nat | k < i :: IsAnswer(cs, evs, k, w, msg)
  }

  /** The thread of call w has sent its request. */
  ghost predicate Sent(evs: seq<Event>, i: nat, w: WaiterId)
    requires i <= |evs|
  {
    exists j: nat | j < i :: evs[j] == DoSend(w)
  }

  /** Call w is in the list of its UUID, behind the GET of call root. */
  ghost predicate Behind(c: Client, root: WaiterId, w: WaiterId) {
    && root in c.calls && w in c.calls && c.calls[w].req.isGet && c.calls[root].req == c.calls[w].req
    && c.calls[w].req.uuid in c.getWaiters
    && var ws := c.getWaiters[c.calls[w].req.uuid];
       w in ws && ws[0] == root && root != w
  }

  ghost predicate WasBehind(cs: seq<Client>, i: nat, root: WaiterId, w: WaiterId)
    requires i <= |cs|
  {
    exists j: nat | j < i :: Behind(cs[j], root, w)
  }

  /** The message is the whole answer to the call's own request or, for a call that sent none, to the GET that was
      at the head of its list. */
  ghost predicate AnswerFor(cs: seq<Client>, evs: seq<Event>, i: nat, w: WaiterId, msg: Response)
    requires i <= |cs| && i <= |evs|
  {
    || Came(cs, evs, i, w, msg)
    || (!Sent(evs, i, w) && exists root :: WasBehind(cs, i, root, w) && Came(cs, evs, i, root, msg))
  }

  /** Every message on its way has come from the server for its call. */
  ghost predicate WireTraced(cs: seq<Client>, evs: seq<Event>, i: nat)
    requires i < |cs| && i <= |evs|
  {
    && (forall a | a in cs[i].inbound :: Came(cs, evs, i, a.w, a.msg))
    && (!cs[i].rx.Reading? && !cs[i].rx.Crashed? ==> Came(cs, evs, i, cs[i].rx.w, cs[i].rx.msg))
  }

  /** Only the first waiter of a list can have sent a request. */
  ghost predicate OnlyFirstSent(cs: seq<Client>, evs: seq<Event>, i: nat)
    requires i < |cs| && i <= |evs|
  {
    && (forall w | Sent(evs, i, w) :: w in cs[i].calls)
    && (forall root, w | Behind(cs[i], root, w) :: !Sent(evs, i, w))
  }

  ghost predicate ResponsesTraced(cs: seq<Client>, evs: seq<Event>, i: nat)
    requires i < |cs| && i <= |evs|
  {
    forall w | w in cs[i].calls && cs[i].calls[w].response.Some? ::
      AnswerFor(cs, evs, i, w, cs[i].calls[w].response.value)
  }

  lemma CameLater(cs: seq<Client>, evs: seq<Event>, i: nat, w: WaiterId, msg: Response)
    requires Came(cs, evs, i, w, msg)
    ensures Came(cs, evs, i + 1, w, msg)
  {
    var k: nat :| k < i && IsAnswer(cs, evs, k, w, msg);
    assert k < i + 1 && IsAnswer(cs, evs, k, w, msg);
  }

  lemma StepKeepsWireTraced(cs: seq<Client>, evs: seq<Event>, i: nat)
    requires IsRun(cs, evs) && i < |evs| && WireTraced(cs, evs, i) && Inv(cs[i])
    ensures WireTraced(cs, evs, i + 1)
  {
    var c, ev, c' := cs[i], evs[i], cs[i + 1];
    forall w, msg | Came(cs, evs, i, w, msg) ensures Came(cs, evs, i + 1, w, msg) { CameLater(cs, evs, i, w, msg); }
    hide Came, Inv, IsRun;
    if ev.DoAnswer? {
      var w := c.atServer[0];
      assert Came(cs, evs, i + 1, w, Response(c.calls[w].req.uuid, ev.body)) by { AnswerComes(cs, evs, i); }
    } else if ev.DoDequeue? {
      DequeueKeepsInv(c);
    } else if ev.DoReceive? {
      assert c.inbound[0] in c.inbound;
    }
  }

  lemma AnswerComes(cs: seq<Client>, evs: seq<Event>, i: nat)
    requires i < |evs| && i < |cs| && Enabled(cs[i], evs[i]) && evs[i].DoAnswer?
    ensures
      var w := cs[i].atServer[0];
      Came(cs, evs, i + 1, w, Response(cs[i].calls[w].req.uuid, evs[i].body))
  {
    var w := cs[i].atServer[0];
    assert IsAnswer(cs, evs, i, w, Response(cs[i].calls[w].req.uuid, evs[i].body));
  }

  lemma SentNext(evs: seq<Event>, i: nat, w: WaiterId)
    requires i < |evs|
    ensures Sent(evs, i + 1, w) <==> Sent(evs, i, w) || evs[i] == DoSend(w)
  {
    if Sent(evs, i, w) {
      var j: nat :| j < i && evs[j] == DoSend(w);
      assert j < i + 1;
    }
  }

  /** A step puts a call behind another only by beginning it. */
  lemma BehindBefore(c: Client, ev: Event, root: WaiterId, w: WaiterId)
    requires Inv(c) && Enabled(c, ev) && Behind(Next(c, ev), root, w)
    ensures Behind(c, root, w) || w !in c.calls
    ensures ev != DoSend(w)
  {
    if w in c.calls {
      BehindUnlessBegun(c, ev, root, w);
      assert WaitersOf(c, c.calls[w].req.uuid);
      assert !Outstanding(c, w);
    }
  }

  lemma StepKeepsRequests(c: Client, ev: Event, w: WaiterId)
    requires Inv(c) && Enabled(c, ev) && w in c.calls
    ensures w in Next(c, ev).calls && Next(c, ev).calls[w].req == c.calls[w].req
  {
    if ev.DoFinishReceive? { FinishEffect(c, w); }
  }

  lemma BehindUnlessBegun(c: Client, ev: Event, root: WaiterId, w: WaiterId)
    requires Inv(c) && Enabled(c, ev) && Behind(Next(c, ev), root, w) && w in c.calls
    ensures Behind(c, root, w)
  {
    StepKeepsRequests(c, ev, w);
    var u := c.calls[w].req.uuid;
    hide WireSide, Answers, Outstanding;
    if ev.DoBegin? {
      if u in c.getWaiters { assert WaitersOf(c, u); }
    } else {
      assert u in c.getWaiters && Next(c, ev).getWaiters[u] == c.getWaiters[u];
      assert WaitersOf(c, u);
    }
  }

  lemma StepKeepsOnlyFirstSent(cs: seq<Client>, evs: seq<Event>, i: nat)
    requires IsRun(cs, evs) && i < |evs| && OnlyFirstSent(cs, evs, i) && Inv(cs[i])
    ensures OnlyFirstSent(cs, evs, i + 1)
  {
    var c, ev, c', n := cs[i], evs[i], cs[i + 1], i + 1;
    assert Enabled(c, ev) && c' == Next(c, ev);
    hide Next, Inv, Sent, Behind, IsRun;
    forall w | Sent(evs, n, w) ensures w in c'.calls {
      SentNext(evs, i, w);
      StepKeepsRequests(c, ev, w);
    }
    forall root, w | Behind(c', root, w) ensures !Sent(evs, n, w) {
      SentNext(evs, i, w);
      BehindBefore(c, ev, root, w);
    }
  }

  lemma AnswerForLater(cs: seq<Client>, evs: seq<Event>, i: nat, w: WaiterId, msg: Response)
    requires i < |cs| && i < |evs| && AnswerFor(cs, evs, i, w, msg) && evs[i] != DoSend(w)
    ensures AnswerFor(cs, evs, i + 1, w, msg)
  {
    if Came(cs, evs, i, w, msg) {
      CameLater(cs, evs, i, w, msg);
    } else {
      SentNext(evs, i, w);
      var root :| WasBehind(cs, i, root, w) && Came(cs, evs, i, root, msg);
      CameLater(cs, evs, i, root, msg);
      var j: nat :| j < i && Behind(cs[j], root, w);
      assert j < i + 1 && Behind(cs[j], root, w);
      assert WasBehind(cs, i + 1, root, w);
    }
  }

  /** A response that a step changes is the message being handled, given to its own call or to one behind it. */
  lemma ResponseChanges(c: Client, ev: Event, w: WaiterId)
    requires Inv(c) && Enabled(c, ev) && w in Next(c, ev).calls && Next(c, ev).calls[w].response.Some?
    ensures
      || (w in c.calls && Next(c, ev).calls[w].response == c.calls[w].response && ev != DoSend(w))
      || (!ev.DoSend? && !c.rx.Reading? && !c.rx.Crashed? && Next(c, ev).calls[w].response == Some(c.rx.msg)
          && (w == c.rx.w || Behind(c, c.rx.w, w)))
  {
    if ev.DoFinishReceive? {
      FinishEffect(c, w);
      FinishEffect(c, c.rx.w);
    } else if ev == DoSend(w) {
      assert false;
    }
  }

  lemma StepKeepsResponsesTraced(cs: seq<Client>, evs: seq<Event>, i: nat)
    requires IsRun(cs, evs) && i < |evs| && Inv(cs[i])
    requires WireTraced(cs, evs, i) && OnlyFirstSent(cs, evs, i) && ResponsesTraced(cs, evs, i)
    ensures ResponsesTraced(cs, evs, i + 1)
  {
    var c, ev, c' := cs[i], evs[i], cs[i + 1];
    assert Enabled(c, ev) && c' == Next(c, ev);
    hide Next, Inv, Sent, Behind, IsRun, Came, AnswerFor;
    forall w | w in c'.calls && c'.calls[w].response.Some?
      ensures AnswerFor(cs, evs, i + 1, w, c'.calls[w].response.value)
    {
      ResponseChanges(c, ev, w);
      var msg := c'.calls[w].response.value;
      if w in c.calls && c'.calls[w].response == c.calls[w].response && ev != DoSend(w) {
        AnswerForLater(cs, evs, i, w, msg);
      } else {
        HandledAnswerFor(cs, evs, i, w);
      }
    }
  }

  lemma HandledAnswerFor(cs: seq<Client>, evs: seq<Event>, i: nat, w: WaiterId)
    requires i < |cs| && i < |evs| && OnlyFirstSent(cs, evs, i) && !evs[i].DoSend?
    requires !cs[i].rx.Reading? && !cs[i].rx.Crashed? && Came(cs, evs, i, cs[i].rx.w, cs[i].rx.msg)
    requires w == cs[i].rx.w || Behind(cs[i], cs[i].rx.w, w)
    ensures AnswerFor(cs, evs, i + 1, w, cs[i].rx.msg)
  {
    var root, msg := cs[i].rx.w, cs[i].rx.msg;
    CameLater(cs, evs, i, root, msg);
    if w != root {
      SentNext(evs, i, w);
      assert WasBehind(cs, i + 1, root, w);
    }
  }

  lemma {:induction false} RunsTraced(cs: seq<Client>, evs: seq<Event>, i: nat)
    requires IsRun(cs, evs) && i < |cs|
    ensures WireTraced(cs, evs, i) && OnlyFirstSent(cs, evs, i) && ResponsesTraced(cs, evs, i)
  {
    if i > 0 {
      hide WireTraced, OnlyFirstSent, ResponsesTraced, Inv;
      RunsTraced(cs, evs, i - 1);
      RunsKeepInv(cs, evs, i - 1);
      StepKeepsWireTraced(cs, evs, i - 1);
      StepKeepsOnlyFirstSent(cs, evs, i - 1);
      StepKeepsResponsesTraced(cs, evs, i - 1);
    }
  }

  /** In every interleaving, the response of a call whose thread sent a request is the whole answer of the server to
      that request; the response of a GET that joined others is the whole answer to the GET at the head of its list. */
  lemma ResponseIsTheAnswer(cs: seq<Client>, evs: seq<Event>, i: nat, w: WaiterId)
    requires IsRun(cs, evs) && i < |cs| && w in cs[i].calls && cs[i].calls[w].response.Some?
    ensures
      var msg := cs[i].calls[w].response.value;
      if Sent(evs, i, w) then Came(cs, evs, i, w, msg)
      else exists root :: WasBehind(cs, i, root, w) && Came(cs, evs, i, root, msg)
  {
    RunsTraced(cs, evs, i);
    var msg := cs[i].calls[w].response.value;
    assert AnswerFor(cs, evs, i, w, msg);
    if !Sent(evs, i, w) && Came(cs, evs, i, w, msg) { AnsweredWasSent(cs, evs, i, w, msg); }
  }

  lemma AnsweredWasSent(cs: seq<Client>, evs: seq<Event>, i: nat, w: WaiterId, msg: Response)
    requires IsRun(cs, evs) && i < |cs| && Came(cs, evs, i, w, msg)
    ensures Sent(evs, i, w)
  {
    hide IsRun;
    var k: nat :| k < i && IsAnswer(cs, evs, k, w, msg);
    assert w in cs[k].atServer;
    AtServerWasSent(cs, evs, k, w);
    var j: nat :| j < k && evs[j] == DoSend(w);
    assert j < i;
  }

  lemma {:induction false} AtServerWasSent(cs: seq<Client>, evs: seq<Event>, i: nat, w: WaiterId)
    requires IsRun(cs, evs) && i < |cs| && w in cs[i].atServer
    ensures Sent(evs, i, w)
  {
    SentNext(evs, i - 1, w);
    if evs[i - 1] != DoSend(w) {
      AtServerBefore(cs[i - 1], evs[i - 1], w);
      AtServerWasSent(cs, evs, i - 1, w);
    }
  }

  lemma AtServerBefore(c: Client, ev: Event, w: WaiterId)
    requires Enabled(c, ev) && w in Next(c, ev).atServer && ev != DoSend(w)
    ensures w in c.atServer
  {
  }

  /** Every answer a call has received is for its own UUID and is the whole answer to its own request, or to the GET
      it joined; a GET that has none is still in the list of its UUID behind an outstanding GET; and no waiter is
      called twice. */
  lemma NoWaiterOrphaned(cs: seq<Client>, evs: seq<Event>, i: nat, w: WaiterId)
    requires IsRun(cs, evs) && i < |cs| && w in cs[i].calls
    ensures
      var c, x := cs[i], cs[i].calls[w];
      && (x.response.Some? ==> x.response.value.uuid == x.req.uuid)
      && (x.response.None? && x.req.isGet ==> IsListed(c, w) && c.getWaiters[x.req.uuid][0] in c.calls
                                              && Outstanding(c, c.getWaiters[x.req.uuid][0]))
      && (x.response.None? && !x.req.isGet ==> Outstanding(c, w))
      && Distinct(c.called)
      && (x.response.Some? ==>
            if Sent(evs, i, w) then Came(cs, evs, i, w, x.response.value)
            else exists root :: WasBehind(cs, i, root, w) && Came(cs, evs, i, root, x.response.value))
  {
    if cs[i].calls[w].response.Some? { ResponseIsTheAnswer(cs, evs, i, w); }
    StillWaits(cs, evs, i, w);
  }

  lemma StillWaits(cs: seq<Client>, evs: seq<Event>, i: nat, w: WaiterId)
    requires IsRun(cs, evs) && i < |cs| && w in cs[i].calls
    ensures
      var c, x := cs[i], cs[i].calls[w];
      && (x.response.Some? ==> x.response.value.uuid == x.req.uuid)
      && (x.response.None? && x.req.isGet ==> IsListed(c, w) && c.getWaiters[x.req.uuid][0] in c.calls
                                              && Outstanding(c, c.getWaiters[x.req.uuid][0]))
      && (x.response.None? && !x.req.isGet ==> Outstanding(c, w))
      && Distinct(c.called)
  {
    RunsKeepInv(cs, evs, i);
    var c := cs[i];
    assert AnswerState(c, w);
    if c.calls[w].response.None? && c.calls[w].req.isGet { assert WaitersOf(c, c.calls[w].req.uuid); }
  }

  lemma ListHasOutstandingGet(c: Client, u: Uuid)
    requires Waiters(c) && u in c.getWaiters
    ensures exists w :: w in c.calls && Outstanding(c, w)
  {
    assert WaitersOf(c, u);
  }

  /** When no thread is sending, the server owes nothing and the receive thread reads, every call ever made has
      been answered, every GET was called, and no list of waiters is left. */
  lemma QuietClientHasAnsweredAll(cs: seq<Client>, evs: seq<Event>, i: nat)
    requires IsRun(cs, evs) && i < |cs|
    requires cs[i].atServer == [] && cs[i].inbound == [] && cs[i].rx.Reading?
    requires forall w | w in cs[i].calls :: cs[i].calls[w].stage.Waiting?
    ensures cs[i].getWaiters == map[] && cs[i].waiting == []
    ensures forall w | w in cs[i].calls ::
      cs[i].calls[w].response.Some? && (cs[i].calls[w].req.isGet ==> w in cs[i].called)
  {
    RunsKeepInv(cs, evs, i);
    var c := cs[i];
    assert c.waiting == [];
    assert forall w | w in c.calls :: !Outstanding(c, w);
    if u :| u in c.getWaiters { ListHasOutstandingGet(c, u); }
    forall w | w in c.calls
      ensures c.calls[w].response.Some? && (c.calls[w].req.isGet ==> w in c.called)
    {
      assert AnswerState(c, w);
    }
  }

  // ----- The object

  class RemoteServer {
    var calls: map<WaiterId, Call>
    var sendSync: Option<WaiterId>
    var getResponseWaiters: map<Uuid, seq<WaiterId>>
    var waitingRequests: seq<WaiterId>
    var atServer: seq<WaiterId>
    var inbound: seq<Answer>
    var rx: Receiver
    var called: seq<WaiterId>

    ghost function Abs(): Client
      reads this
    {
      Client(calls, sendSync, getResponseWaiters, waitingRequests, atServer, inbound, rx, called)
    }

    constructor ()
      ensures Abs() == START
    {
      calls, sendSync, getResponseWaiters, waitingRequests := map[], None, map[], [];
      atServer, inbound, rx, called := [], [], Reading, [];
    }

    /** True if a GET for the same UUID is already out, so that no request need be sent. */
    method QueueGetWaiter(req: Request, waiter: WaiterId) returns (requestExisted: bool)
      modifies this`getResponseWaiters
      ensures requestExisted == (req.isGet && req.uuid in old(getResponseWaiters))
      ensures Abs() == if req.isGet then AddWaiter(old(Abs()), req.uuid, waiter) else old(Abs())
    {
      requestExisted := false;
      if req.isGet {
        if req.uuid in getResponseWaiters {
          requestExisted := true;
        } else {
          getResponseWaiters := getResponseWaiters[req.uuid := []];
        }
        getResponseWaiters := getResponseWaiters[req.uuid := getResponseWaiters[req.uuid] + [waiter]];
      }
    }

    method BeginRequest(waiter: WaiterId, req: Request)
      requires waiter !in calls
      modifies this
      ensures Abs() == Begin(old(Abs()), waiter, req)
    {
      var requestExisted := QueueGetWaiter(req, waiter);
      calls := calls[waiter := Call(req, if requestExisted then Waiting else ToSend, None)];
    }

    method EnterSendSync(waiter: WaiterId)
      requires waiter in calls && sendSync.None?
      modifies this
      ensures Abs() == LockSend(old(Abs()), waiter)
    {
      calls := calls[waiter := calls[waiter].(stage := Holding)];
      sendSync := Some(waiter);
    }

    method EnqueueWaiter(waiter: WaiterId)
      requires waiter in calls
      modifies this
      ensures Abs() == Enqueue(old(Abs()), waiter)
    {
      calls := calls[waiter := calls[waiter].(stage := Enqueued)];
      waitingRequests := waitingRequests + [waiter];
    }

    method SendAndLeave(waiter: WaiterId)
      requires waiter in calls
      modifies this
      ensures Abs() == Send(old(Abs()), waiter)
    {
      atServer := atServer + [waiter];
      calls := calls[waiter := calls[waiter].(stage := Waiting)];
      sendSync := None;
    }

    method ReadMessage()
      requires rx.Reading? && inbound != []
      modifies this
      ensures Abs() == Receive(old(Abs()))
      ensures rx == Got(old(inbound)[0].w, old(inbound)[0].msg) && [old(inbound)[0]] + inbound == old(inbound)
    {
      rx := Got(inbound[0].w, inbound[0].msg);
      inbound := inbound[1..];
    }

    method DequeueTopWaiter()
      requires rx.Got?
      modifies this
      ensures Abs() == Dequeue(old(Abs()))
    {
      if waitingRequests == [] {
        rx := Crashed;
      } else {
        rx := Popped(waitingRequests[0], rx.msg);
        waitingRequests := waitingRequests[1..];
      }
    }

    method NotifyTopWaiter()
      requires rx.Popped? && rx.w in calls
      modifies this
      ensures Abs() == NotifyRoot(old(Abs()))
    {
      calls := calls[rx.w := calls[rx.w].(response := Some(rx.msg))];
      rx := Notified(rx.w, rx.msg);
    }

    method CallGetWaiters(msg: Response)
      requires msg.uuid in getResponseWaiters && forall w | w in getResponseWaiters[msg.uuid] :: w in calls
      modifies this
      ensures Abs() == NotifyAll(old(Abs()), msg)
    {
      var getWaitList := getResponseWaiters[msg.uuid];
      for i := 0 to |getWaitList|
        invariant Abs() == old(Abs()).(
          calls := Given(old(calls), getWaitList[..i], msg), called := old(called) + getWaitList[..i])
      {
        var waiter := getWaitList[i];
        calls := calls[waiter := calls[waiter].(response := Some(msg))];
        called := called + [waiter];
        assert getWaitList[..i + 1] == getWaitList[..i] + [waiter];
        assert calls == Given(old(calls), getWaitList[..i + 1], msg);
      }
      assert getWaitList[..|getWaitList|] == getWaitList;
      getResponseWaiters := getResponseWaiters - {msg.uuid};
    }

    method NotifyGetWaiters()
      requires rx.Notified? && rx.w in calls
      requires rx.msg.uuid in getResponseWaiters ==> forall w | w in getResponseWaiters[rx.msg.uuid] :: w in calls
      modifies this
      ensures Abs() == FinishReceive(old(Abs()))
    {
      if calls[rx.w].req.isGet && rx.msg.uuid in getResponseWaiters {
        CallGetWaiters(rx.msg);
      }
      rx := Reading;
    }
  }
}
