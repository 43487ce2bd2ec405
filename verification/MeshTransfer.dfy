/** The asset transfers of one MeshServer: a queue of requests waiting to be written and a queue of
    requests waiting for their answer. */
module MeshTransfer {
  import opened Wrappers

  type Uuid = string

  datatype Asset = Asset(uuid: Uuid, data: seq<bv8>)

  /** One getAsset call; the id stands for the callback it brings. */
  datatype Call = Call(id: nat, uuid: Uuid)

  /** A callback invocation: the call and what it was given, None for a null asset. */
  datatype Firing = Firing(call: Call, asset: Option<Asset>)

  datatype Reading = Idle | Header | AssetData | ErrorData

  /** A response header as onReadResponseHeader sorts it. */
  datatype HeaderResult = ReadFailed | Corrupt | FoundHeader | Refused(uuid: Uuid, dataSize: nat)

  datatype Peer = Peer(
    up: bool,                 // _assetConnectionEstablished
    sendActive: bool,
    writes: nat,              // async_write operations in flight
    reading: Reading,         // the async_read in flight
    sent: seq<Call>,          // _assetCallbackQueue
    queued: seq<Call>,        // _transferRequestQueue
    posted: seq<Call>,        // null callbacks posted to the io_service
    fired: seq<Firing>)       // callbacks run so far, oldest first

  const CONNECTED := Peer(true, false, 0, Header, [], [], [], [])

  // ----- Handlers

  function Nulls(calls: seq<Call>): (f: seq<Firing>)
    ensures |f| == |calls|
  {
    seq(|calls|, (i: nat) requires i < |calls| => Firing(calls[i], None))
  }

  function SendGet(p: Peer, c: Call): Peer {
    p.(sendActive := true, writes := p.writes + 1, sent := p.sent + [c])
  }

  /** getAsset: on a dead connection a null callback is posted, and the request still goes out. */
  function GetAsset(p: Peer, c: Call): Peer {
    var p := if p.up then p else p.(posted := p.posted + [c]);
    if p.sendActive then p.(queued := p.queued + [c]) else SendGet(p, c)
  }

  function Close(p: Peer): Peer {
    p.(up := false, queued := [], sent := [], fired := p.fired + Nulls(p.queued) + Nulls(p.sent))
  }

  function OnWrite(p: Peer, ok: bool): Peer
    requires p.writes > 0
  {
    var p := p.(sendActive := false, writes := p.writes - 1);
    if !ok then Close(p)
    else if p.up && p.queued != [] then SendGet(p, p.queued[0]).(queued := p.queued[1..])
    else p
  }

  /** Answers the oldest unanswered request. */
  function FireFirst(p: Peer, asset: Option<Asset>): Peer
    requires p.sent != []
  {
    p.(sent := p.sent[1..], fired := p.fired + [Firing(p.sent[0], asset)])
  }

  function OnHeader(p: Peer, h: HeaderResult): Peer
    requires h.Refused? ==> p.sent != []
  {
    var p := p.(reading := Idle);
    match h
    case ReadFailed => Close(p)
    case Corrupt => Close(p)
    case FoundHeader => p.(reading := AssetData)
    case Refused(uuid, dataSize) =>
      if p.sent[0].uuid != uuid then Close(p)
      else FireFirst(p, None).(reading := if dataSize > 0 then ErrorData else Header)
  }

  function OnErrorData(p: Peer, ok: bool): Peer {
    if ok then p.(reading := Header) else Close(p.(reading := Idle))
  }

  /** The read of an asset completed, with the asset it carried when it succeeded. */
  function OnAssetData(p: Peer, asset: Option<Asset>): Peer
    requires p.up && asset.Some? ==> p.sent != []
  {
    var p := p.(reading := Idle);
    if asset.Some? && p.up && asset.value.uuid == p.sent[0].uuid then FireFirst(p, asset).(reading := Header)
    else Close(p)
  }

  function RunPosted(p: Peer): Peer
    requires p.posted != []
  {
    p.(posted := p.posted[1..], fired := p.fired + [Firing(p.posted[0], None)])
  }

  // ----- Runs

  datatype Event =
    | CallGetAsset(call: Call)
    | WriteDone(writeOk: bool)
    | HeaderDone(header: HeaderResult)
    | ErrorDataDone(errorOk: bool)
    | AssetDataDone(asset: Option<Asset>)
    | PostedRuns
    | ConnectionClosed

  /** What the environment may do: only operations in flight complete, a peer answers only requests it
      was sent (the handlers assert as much), and a read that completes after a close fails. */
  predicate Enabled(p: Peer, ev: Event) {
    match ev
    case CallGetAsset(_) => true
    case WriteDone(_) => p.writes > 0
    case HeaderDone(h) => p.reading.Header? && (p.up || h.ReadFailed?) && (h.Refused? ==> p.sent != [])
    case ErrorDataDone(ok) => p.reading.ErrorData? && (p.up || !ok)
    case AssetDataDone(asset) => p.reading.AssetData? && (p.up && asset.Some? ==> p.sent != [])
    case PostedRuns => p.posted != []
    case ConnectionClosed => true
  }

  function Next(p: Peer, ev: Event): Peer
    requires Enabled(p, ev)
  {
    match ev
    case CallGetAsset(c) => GetAsset(p, c)
    case WriteDone(ok) => OnWrite(p, ok)
    case HeaderDone(h) => OnHeader(p, h)
    case ErrorDataDone(ok) => OnErrorData(p, ok)
    case AssetDataDone(asset) => OnAssetData(p, asset)
    case PostedRuns => RunPosted(p)
    case ConnectionClosed => Close(p)
  }

  /** The calls made, and those of them made on a dead connection. */
  datatype History = History(calls: seq<Call>, late: multiset<Call>)

  function Record(p: Peer, h: History, ev: Event): History {
    match ev
    case CallGetAsset(c) => History(h.calls + [c], if p.up then h.late else h.late + multiset{c})
    case _ => h
  }

  datatype World = World(peer: Peer, history: History)

  /** Where a sequence of events leads from a fresh connection, if each can happen in its turn. */
  function Execute(evs: seq<Event>): Option<World> {
    if evs == [] then Some(World(CONNECTED, History([], multiset{})))
    else
      var last := evs[|evs| - 1];
      match Execute(evs[..|evs| - 1])
      case None => None
      case Some(w) =>
        if Enabled(w.peer, last) then Some(World(Next(w.peer, last), Record(w.peer, w.history, last))) else None
  }

  // ----- Invariants

  function Calls(fired: seq<Firing>): (c: seq<Call>)
    ensures |c| == |fired|
  {
    seq(|fired|, (i: nat) requires i < |fired| => fired[i].call)
  }

  /** Every callback was given null or an asset of the UUID its call asked for. */
  ghost predicate Matched(fired: seq<Firing>) {
    forall i: nat | i < |fired| :: fired[i].asset.Some? ==> fired[i].asset.value.uuid == fired[i].call.uuid
  }

  /** While the connection is up, callbacks run in call order and the two queues in a row are the calls
      still unanswered. */
  ghost predicate InOrder(p: Peer, h: History) {
    p.up ==>
      && Calls(p.fired) + (p.sent + p.queued) == h.calls
      && p.posted == [] && h.late == multiset{}
      && (!p.sendActive ==> p.queued == [])
  }

  /** How often the callback of a call has run or is still due to run. */
  ghost function Owed(p: Peer, c: Call): nat {
    multiset(Calls(p.fired))[c] + multiset(p.posted)[c] + multiset(p.sent)[c] + multiset(p.queued)[c]
  }

  /** Every call made while the connection is up owes one callback, every later call owes two. */
  ghost predicate Balanced(p: Peer, h: History) {
    forall c: Call :: Owed(p, c) == multiset(h.calls)[c] + h.late[c] && h.late[c] <= multiset(h.calls)[c]
  }

  ghost predicate Inv(p: Peer, h: History) {
    && p.writes == (if p.sendActive then 1 else 0)
    && Matched(p.fired) && InOrder(p, h) && Balanced(p, h)
  }

  lemma CallsOfAppend(fired: seq<Firing>, more: seq<Firing>)
    ensures Calls(fired + more) == Calls(fired) + Calls(more)
  {}

  lemma CallsOfNulls(calls: seq<Call>)
    ensures Calls(Nulls(calls)) == calls
  {}

  lemma HeadMoves<T>(a: seq<T>, b: seq<T>, c: seq<T>)
    requires b != []
    ensures (a + [b[0]]) + (b[1..] + c) == a + (b + c)
    ensures forall x :: multiset(a + [b[0]])[x] + multiset(b[1..])[x] == multiset(a)[x] + multiset(b)[x]
  {
    assert b == [b[0]] + b[1..];
  }

  lemma FireFirstKeepsInv(p: Peer, h: History, asset: Option<Asset>)
    requires Inv(p, h) && p.sent != [] && (asset.Some? ==> asset.value.uuid == p.sent[0].uuid)
    ensures Inv(FireFirst(p, asset), h)
  {
    var f := [Firing(p.sent[0], asset)];
    CallsOfAppend(p.fired, f);
    assert Calls(f) == [p.sent[0]];
    HeadMoves(Calls(p.fired), p.sent, p.queued);
  }

  lemma CloseKeepsInv(p: Peer, h: History)
    requires Inv(p, h)
    ensures Inv(Close(p), h)
  {
    CallsOfAppend(p.fired, Nulls(p.queued));
    CallsOfAppend(p.fired + Nulls(p.queued), Nulls(p.sent));
    CallsOfNulls(p.queued);
    CallsOfNulls(p.sent);
  }

  lemma CountOfAppend<T>(a: seq<T>, x: T, y: T)
    ensures multiset(a + [x])[y] == multiset(a)[y] + (if y == x then 1 else 0)
  {}

  lemma GetAssetBalances(p: Peer, h: History, c: Call)
    requires Balanced(p, h)
    ensures Balanced(GetAsset(p, c), Record(p, h, CallGetAsset(c)))
  {
    var p', h' := GetAsset(p, c), Record(p, h, CallGetAsset(c));
    forall x: Call
      ensures Owed(p', x) == multiset(h'.calls)[x] + h'.late[x] && h'.late[x] <= multiset(h'.calls)[x]
    {
      hide Calls;
      assert Owed(p, x) == multiset(h.calls)[x] + h.late[x];
      CountOfAppend(h.calls, c, x);
      if !p.up { CountOfAppend(p.posted, c, x); }
      if p.sendActive { CountOfAppend(p.queued, c, x); } else { CountOfAppend(p.sent, c, x); }
    }
  }

  lemma GetAssetKeepsInv(p: Peer, h: History, c: Call)
    requires Inv(p, h)
    ensures Inv(GetAsset(p, c), Record(p, h, CallGetAsset(c)))
  {
    hide Balanced, Calls, Matched;
    GetAssetBalances(p, h, c);
    var done := Calls(p.fired);
    if p.sendActive {
      assert done + (p.sent + (p.queued + [c])) == done + (p.sent + p.queued) + [c];
    } else if p.up {
      assert done + ((p.sent + [c]) + []) == done + (p.sent + []) + [c];
    }
  }

  /** The oldest queued request goes out: it moves from the end of one queue to the start of the other. */
  lemma SendNextKeepsInv(p: Peer, h: History)
    requires Inv(p, h) && p.queued != [] && p.sendActive
    ensures Inv(p.(sent := p.sent + [p.queued[0]], queued := p.queued[1..]), h)
  {
    hide Calls, Matched;
    HeadMoves(p.sent, p.queued, []);
    assert (p.sent + [p.queued[0]]) + p.queued[1..] == p.sent + p.queued;
  }

  lemma OnWriteKeepsInv(p: Peer, h: History, ok: bool)
    requires Inv(p, h) && p.writes > 0
    ensures Inv(OnWrite(p, ok), h)
  {
    hide Calls, Matched;
    if !ok {
      CloseKeepsInv(p, h);
    } else if p.up && p.queued != [] {
      SendNextKeepsInv(p, h);
    }
  }

  lemma RunPostedKeepsInv(p: Peer, h: History)
    requires Inv(p, h) && p.posted != []
    ensures Inv(RunPosted(p), h)
  {
    var f := [Firing(p.posted[0], None)];
    CallsOfAppend(p.fired, f);
    assert Calls(f) == [p.posted[0]];
    HeadMoves(Calls(p.fired), p.posted, []);
  }

  lemma ReadingKeepsInv(p: Peer, h: History, r: Reading)
    requires Inv(p, h)
    ensures Inv(p.(reading := r), h)
  {
    assert forall c: Call :: Owed(p.(reading := r), c) == Owed(p, c);
  }

  lemma OnHeaderKeepsInv(p: Peer, h: History, header: HeaderResult)
    requires Inv(p, h) && (header.Refused? ==> p.sent != [])
    ensures Inv(OnHeader(p, header), h)
  {
    hide Inv, Close, FireFirst;
    ReadingKeepsInv(p, h, Idle);
    ReadingKeepsInv(p.(reading := Idle), h, AssetData);
    CloseKeepsInv(p.(reading := Idle), h);
    if header.Refused? && p.sent[0].uuid == header.uuid {
      FireFirstKeepsInv(p.(reading := Idle), h, None);
      ReadingKeepsInv(FireFirst(p.(reading := Idle), None), h, if header.dataSize > 0 then ErrorData else Header);
    }
  }

  lemma OnAssetDataKeepsInv(p: Peer, h: History, asset: Option<Asset>)
    requires Inv(p, h) && (p.up && asset.Some? ==> p.sent != [])
    ensures Inv(OnAssetData(p, asset), h)
  {
    hide Inv, Close, FireFirst;
    ReadingKeepsInv(p, h, Idle);
    CloseKeepsInv(p.(reading := Idle), h);
    if asset.Some? && p.up && asset.value.uuid == p.sent[0].uuid {
      FireFirstKeepsInv(p.(reading := Idle), h, asset);
      ReadingKeepsInv(FireFirst(p.(reading := Idle), asset), h, Header);
    }
  }

  lemma StepKeepsInv(p: Peer, h: History, ev: Event)
    requires Inv(p, h) && Enabled(p, ev)
    ensures Inv(Next(p, ev), Record(p, h, ev))
  {
    hide Inv, Close, OnHeader, OnAssetData, OnWrite, GetAsset, RunPosted;
    match ev
    case CallGetAsset(c) => GetAssetKeepsInv(p, h, c);
    case WriteDone(ok) => OnWriteKeepsInv(p, h, ok);
    case HeaderDone(header) => OnHeaderKeepsInv(p, h, header);
    case ErrorDataDone(ok) =>
      ReadingKeepsInv(p, h, Idle);
      ReadingKeepsInv(p, h, Header);
      CloseKeepsInv(p.(reading := Idle), h);
    case AssetDataDone(asset) => OnAssetDataKeepsInv(p, h, asset);
    case PostedRuns => RunPostedKeepsInv(p, h);
    case ConnectionClosed => CloseKeepsInv(p, h);
  }

  lemma {:induction false} RunsKeepInv(evs: seq<Event>)
    requires Execute(evs).Some?
    ensures Inv(Execute(evs).value.peer, Execute(evs).value.history)
  {
    if evs == [] {
    } else {
      RunsKeepInv(evs[..|evs| - 1]);
      var w := Execute(evs[..|evs| - 1]).value;
      StepKeepsInv(w.peer, w.history, evs[|evs| - 1]);
    }
  }

  // ----- What is being read, and what each event fires

  /** What comes next on the connection, from the reads completed so far: after a header its asset or its error text,
      after either the next header. */
  function Awaited(evs: seq<Event>): Reading {
    if evs == [] then Header
    else
      match evs[|evs| - 1]
      case HeaderDone(FoundHeader) => AssetData
      case HeaderDone(Refused(_, dataSize)) => if dataSize > 0 then ErrorData else Header
      case ErrorDataDone(_) => Header
      case AssetDataDone(_) => Header
      case _ => Awaited(evs[..|evs| - 1])
  }

  /** In every run a live connection is reading, and reading the right thing. */
  lemma {:induction false} LiveConnectionReads(evs: seq<Event>)
    requires Execute(evs).Some? && Execute(evs).value.peer.up
    ensures Execute(evs).value.peer.reading == Awaited(evs) && Awaited(evs) != Idle
  {
    if evs != [] {
      var n := |evs| - 1;
      var p := Execute(evs[..n]).value.peer;
      assert p.up by { NeverReopens(p, evs[n]); }
      LiveConnectionReads(evs[..n]);
    }
  }

  lemma NeverReopens(p: Peer, ev: Event)
    requires Enabled(p, ev) && Next(p, ev).up
    ensures p.up
  {
  }

  /** The event brings the asset of the oldest unanswered request. */
  ghost predicate Brings(p: Peer, ev: Event, call: Call, a: Asset) {
    && ev == AssetDataDone(Some(a)) && p.up && p.sent != [] && p.sent[0] == call
    && a.uuid == call.uuid
  }

  /** An asset that is read, of the UUID asked for, goes to the oldest request sent; a refusal gives it null. */
  lemma AnswerFires(p: Peer, ev: Event)
    requires Enabled(p, ev) && p.up && p.sent != []
    ensures forall a: Asset :: Brings(p, ev, p.sent[0], a) ==>
                                 Next(p, ev).fired == p.fired + [Firing(p.sent[0], Some(a))]
    ensures forall n: nat :: ev == HeaderDone(Refused(p.sent[0].uuid, n)) ==>
                       Next(p, ev).fired == p.fired + [Firing(p.sent[0], None)]
  {
  }

  /** What an event adds to the firings is null, unless it brings an asset. */
  lemma OnlyAssetsFire(p: Peer, ev: Event, i: nat)
    requires Enabled(p, ev) && |p.fired| <= i < |Next(p, ev).fired| && Next(p, ev).fired[i].asset.Some?
    ensures i == |p.fired| && Brings(p, ev, Next(p, ev).fired[i].call, Next(p, ev).fired[i].asset.value)
  {
  }

  lemma FiringsStay(p: Peer, ev: Event)
    requires Enabled(p, ev)
    ensures p.fired <= Next(p, ev).fired
  {
  }

  /** In every run, a callback that was given an asset was given it by the read of that very asset, when its call was
      the oldest unanswered one. */
  lemma {:induction false} AssetFiredWasRead(evs: seq<Event>, i: nat) returns (k: nat)
    requires Execute(evs).Some? && i < |Execute(evs).value.peer.fired|
    requires Execute(evs).value.peer.fired[i].asset.Some?
    ensures k < |evs| && Execute(evs[..k]).Some?
    ensures
      var f := Execute(evs).value.peer.fired[i];
      Brings(Execute(evs[..k]).value.peer, evs[k], f.call, f.asset.value)
  {
    hide Next, Enabled, Brings;
    var n := |evs| - 1;
    var p := Execute(evs[..n]).value.peer;
    FiringsStay(p, evs[n]);
    if i < |p.fired| {
      k := AssetFiredWasRead(evs[..n], i);
      assert evs[..n][..k] == evs[..k];
    } else {
      k := n;
      OnlyAssetsFire(p, evs[n], i);
    }
  }

  /** The transfer protocol over every run: callbacks so far belong to the oldest calls, in call order,
      while the connection is up; the rest wait in the two queues; one write at most is in flight, and one read while
      the connection is up; and no callback was given another call's asset. */
  lemma TransfersInCallOrder(evs: seq<Event>)
    requires Execute(evs).Some?
    ensures
      var World(p, h) := Execute(evs).value;
      && p.writes <= 1 && (p.up ==> p.reading != Idle) && Matched(p.fired)
      && (p.up ==> |p.fired| <= |h.calls| && Calls(p.fired) == h.calls[..|p.fired|]
                   && p.sent + p.queued == h.calls[|p.fired|..])
  {
    hide Execute, Calls, Matched;
    RunsKeepInv(evs);
    var World(p, h) := Execute(evs).value;
    if p.up {
      LiveConnectionReads(evs);
      assert h.calls[..|p.fired|] == Calls(p.fired) && h.calls[|p.fired|..] == p.sent + p.queued;
    }
  }

  /** Once nothing is waiting, a callback has run exactly once if and only if its call was made while
      the connection was up; a call on a dead connection has its callback run twice. */
  lemma CallbackRunsOnceIffUp(evs: seq<Event>, c: Call)
    requires Execute(evs).Some?
    requires
      var World(p, h) := Execute(evs).value;
      p.sent == [] && p.queued == [] && p.posted == [] && multiset(h.calls)[c] == 1
    ensures
      var World(p, h) := Execute(evs).value;
      && (c !in h.late <==> multiset(Calls(p.fired))[c] == 1)
      && (c in h.late <==> multiset(Calls(p.fired))[c] == 2)
  {
    hide Execute, Calls, Matched;
    RunsKeepInv(evs);
    var World(p, h) := Execute(evs).value;
    assert Owed(p, c) == multiset(h.calls)[c] + h.late[c];
  }

  lemma ExecuteNext(evs: seq<Event>, w: World, ev: Event)
    requires Execute(evs) == Some(w) && Enabled(w.peer, ev)
    ensures Execute(evs + [ev]) == Some(World(Next(w.peer, ev), Record(w.peer, w.history, ev)))
  {
    assert (evs + [ev])[..|evs|] == evs;
  }

  /** A call on a closed connection whose write then fails runs its callback twice. */
  lemma DeadCallRunsTwice(c: Call) returns (evs: seq<Event>)
    ensures evs == [ConnectionClosed, CallGetAsset(c), PostedRuns, WriteDone(false)]
    ensures Execute(evs).Some? && Execute(evs).value.history == History([c], multiset{c})
    ensures Execute(evs).value.peer.fired == [Firing(c, None), Firing(c, None)]
  {
    var p1 := CONNECTED.(up := false);
    var p2 := p1.(sendActive := true, writes := 1, sent := [c], posted := [c]);
    var p3 := p2.(posted := [], fired := [Firing(c, None)]);
    var q := p3.(sendActive := false, writes := 0);
    assert Nulls([]) == [] && Nulls([c]) == [Firing(c, None)];
    assert Close(CONNECTED) == p1 && GetAsset(p1, c) == p2 && RunPosted(p2) == p3;
    assert OnWrite(p3, false).fired == [Firing(c, None), Firing(c, None)];
    NothingExecuted();
    var h, h' := History([], multiset{}), History([c], multiset{c});
    assert Record(p1, h, CallGetAsset(c)) == h';
    assert [] + [ConnectionClosed] == [ConnectionClosed];
    assert [ConnectionClosed] + [CallGetAsset(c)] == [ConnectionClosed, CallGetAsset(c)];
    assert [ConnectionClosed, CallGetAsset(c)] + [PostedRuns] == [ConnectionClosed, CallGetAsset(c), PostedRuns];
    hide Execute, Close, GetAsset, OnWrite, RunPosted, Nulls;
    ExecuteNext([], World(CONNECTED, h), ConnectionClosed);
    ExecuteNext([ConnectionClosed], World(p1, h), CallGetAsset(c));
    ExecuteNext([ConnectionClosed, CallGetAsset(c)], World(p2, h'), PostedRuns);
    ExecuteNext([ConnectionClosed, CallGetAsset(c), PostedRuns], World(p3, h'), WriteDone(false));
    evs := [ConnectionClosed, CallGetAsset(c), PostedRuns] + [WriteDone(false)];
  }

  lemma NothingExecuted()
    ensures Execute([]) == Some(World(CONNECTED, History([], multiset{})))
  {
  }

  /** Seen from outside, a live connection is one first-in first-out queue of unanswered calls. */
  lemma QueuesActAsOne(p: Peer, h: History, ev: Event)
    requires InOrder(p, h) && Enabled(p, ev) && p.up && Next(p, ev).up
    ensures
      var before, after := p.sent + p.queued, Next(p, ev).sent + Next(p, ev).queued;
      match ev
      case CallGetAsset(c) => after == before + [c] && Next(p, ev).fired == p.fired
      case _ => (after == before && Next(p, ev).fired == p.fired)
                || (before != [] && after == before[1..] && |Next(p, ev).fired| == |p.fired| + 1
                    && Next(p, ev).fired[|p.fired|].call == before[0])
  {}

  // ----- The object

  class MeshServerTransfers {
    var up: bool
    var sendActive: bool
    var writes: nat
    var reading: Reading
    var assetCallbackQueue: seq<Call>
    var transferRequestQueue: seq<Call>
    var posted: seq<Call>
    var fired: seq<Firing>

    ghost function Abs(): Peer
      reads this
    {
      Peer(up, sendActive, writes, reading, assetCallbackQueue, transferRequestQueue, posted, fired)
    }

    constructor ()
      ensures Abs() == CONNECTED
    {
      up, sendActive, writes, reading := true, false, 0, Header;
      assetCallbackQueue, transferRequestQueue, posted, fired := [], [], [], [];
    }

    method Fire(call: Call, asset: Option<Asset>)
      modifies this`fired
      ensures fired == old(fired) + [Firing(call, asset)]
    {
      fired := fired + [Firing(call, asset)];
    }

    method CloseConnection()
      modifies this
      ensures Abs() == Close(old(Abs()))
    {
      up := false;
      ghost var n := 0;
      while transferRequestQueue != []
        invariant n + |transferRequestQueue| == |old(transferRequestQueue)|
        invariant transferRequestQueue == old(transferRequestQueue)[n..]
        invariant Abs() == old(Abs()).(up := false, queued := transferRequestQueue,
                                       fired := old(fired) + Nulls(old(transferRequestQueue)[..n]))
      {
        Fire(transferRequestQueue[0], None);
        transferRequestQueue := transferRequestQueue[1..];
        assert Nulls(old(transferRequestQueue)[..n + 1])
            == Nulls(old(transferRequestQueue)[..n]) + [Firing(old(transferRequestQueue)[n], None)];
        n := n + 1;
      }
      assert old(transferRequestQueue)[..n] == old(transferRequestQueue);
      ghost var cancelled := fired;
      n := 0;
      while assetCallbackQueue != []
        invariant n + |assetCallbackQueue| == |old(assetCallbackQueue)|
        invariant assetCallbackQueue == old(assetCallbackQueue)[n..]
        invariant Abs() == old(Abs()).(up := false, queued := [], sent := assetCallbackQueue,
                                       fired := cancelled + Nulls(old(assetCallbackQueue)[..n]))
      {
        Fire(assetCallbackQueue[0], None);
        assetCallbackQueue := assetCallbackQueue[1..];
        assert Nulls(old(assetCallbackQueue)[..n + 1])
            == Nulls(old(assetCallbackQueue)[..n]) + [Firing(old(assetCallbackQueue)[n], None)];
        n := n + 1;
      }
      assert old(assetCallbackQueue)[..n] == old(assetCallbackQueue);
    }

    method SendGetRequest(call: Call)
      modifies this
      ensures Abs() == SendGet(old(Abs()), call)
    {
      sendActive := true;
      writes := writes + 1;
      assetCallbackQueue := assetCallbackQueue + [call];
    }

    method CallAsset(call: Call)
      modifies this
      ensures Abs() == GetAsset(old(Abs()), call)
    {
      if !up {
        posted := posted + [call];
      }
      if !sendActive {
        SendGetRequest(call);
      } else {
        transferRequestQueue := transferRequestQueue + [call];
      }
    }

    method OnAfterWriteAssetRequest(ok: bool)
      requires writes > 0
      modifies this
      ensures Abs() == OnWrite(old(Abs()), ok)
    {
      sendActive := false;
      writes := writes - 1;
      if ok {
        if up && transferRequestQueue != [] {
          SendGetRequest(transferRequestQueue[0]);
          transferRequestQueue := transferRequestQueue[1..];
        }
      } else {
        CloseConnection();
      }
    }

    method OnReadResponseHeader(header: HeaderResult)
      requires header.Refused? ==> assetCallbackQueue != []
      modifies this
      ensures Abs() == OnHeader(old(Abs()), header)
    {
      reading := Idle;
      match header
      case ReadFailed => CloseConnection();
      case Corrupt => CloseConnection();
      case FoundHeader => reading := AssetData;
      case Refused(uuid, dataSize) =>
        if assetCallbackQueue[0].uuid != uuid {
          CloseConnection();
          return;
        }
        Fire(assetCallbackQueue[0], None);
        assetCallbackQueue := assetCallbackQueue[1..];
        if dataSize > 0 {
          reading := ErrorData;
        } else {
          reading := Header;
        }
    }

    method OnHandleRequestErrorData(ok: bool)
      modifies this
      ensures Abs() == OnErrorData(old(Abs()), ok)
    {
      reading := Idle;
      if ok {
        reading := Header;
      } else {
        CloseConnection();
      }
    }

    method OnReadResponseData(asset: Option<Asset>)
      requires up && asset.Some? ==> assetCallbackQueue != []
      modifies this
      ensures Abs() == OnAssetData(old(Abs()), asset)
    {
      reading := Idle;
      if asset.Some? && up {
        if asset.value.uuid == assetCallbackQueue[0].uuid {
          Fire(assetCallbackQueue[0], asset);
          assetCallbackQueue := assetCallbackQueue[1..];
          reading := Header;
        } else {
          CloseConnection();
        }
      } else {
        CloseConnection();
      }
    }
  }
}
