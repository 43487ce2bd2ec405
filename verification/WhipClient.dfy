/** The WHIP client of the HTTP front end: requests for an asset that is already on its way join the
    transfer in progress, requests are written one at a time and answers are read one at a time. */
module WhipClient {
  import opened Wrappers
  import opened Sequences

  type Uuid = string
  type AssetData = seq<bv8>

  datatype ConnectionState = Disconnected | Connecting | Connected | Shutdown | ReconnectWait

  /** The async_read in flight. The data reads carry the UUID of the header that announced them. */
  datatype ReadOp = NoRead | HeaderRead | DataRead(uuid: Uuid) | ErrorRead(uuid: Uuid)

  /** A callback, by identity, with the UUID it was registered for. */
  datatype Registration = Registration(id: nat, uuid: Uuid)

  datatype Firing = Firing(callback: nat, uuid: Uuid, asset: Option<AssetData>)

  datatype Client = Client(
    state: ConnectionState,
    pendingSends: seq<Uuid>,
    pendingTransfers: map<Uuid, seq<nat>>,     // callbacks by UUID
    writing: bool,                             // an async_write of a request is in flight
    reading: ReadOp,
    asked: seq<Uuid>,                          // GETs handed to the socket and not answered, oldest first
    fired: seq<Firing>)                        // callbacks called

  const INITIAL := Client(Disconnected, [], map[], false, NoRead, [], [])

  // ----- Handlers

  function FireList(uuid: Uuid, callbacks: seq<nat>, asset: Option<AssetData>): (f: seq<Firing>)
    ensures |f| == |callbacks|
  {
    seq(|callbacks|, (i: nat) requires i < |callbacks| => Firing(callbacks[i], uuid, asset))
  }

  /** processNextSendItem */
  function StartWrite(c: Client): Client
    requires c.pendingSends != []
  {
    c.(writing := true, asked := c.asked + [c.pendingSends[0]])
  }

  function GetAsset(c: Client, u: Uuid, callback: nat): Client {
    if u in c.pendingTransfers then
      c.(pendingTransfers := c.pendingTransfers[u := c.pendingTransfers[u] + [callback]])
    else
      var c1 := c.(pendingSends := c.pendingSends + [u]);
      var c2 := if |c1.pendingSends| == 1 then StartWrite(c1) else c1;
      var c3 := c2.(pendingTransfers := c2.pendingTransfers[u := [callback]]);
      if |c.pendingTransfers| == 0 then c3.(reading := HeaderRead) else c3
  }

  /** Null firings for every callback of the UUIDs in the list. */
  function NullFirings(transfers: map<Uuid, seq<nat>>, order: seq<Uuid>): seq<Firing>
    requires forall u | u in order :: u in transfers
  {
    if order == [] then []
    else
      var u := order[|order| - 1];
      NullFirings(transfers, order[..|order| - 1]) + FireList(u, transfers[u], None)
  }

  /** Whether close() has anything to do. */
  predicate Closable(c: Client) { !c.state.Disconnected? && !c.state.Shutdown? }

  /** close(), with the transfers in the order they are visited. Operations in flight are aborted; their
      completions bring errors. */
  function Close(c: Client, doShutdown: bool, order: seq<Uuid>): Client
    requires forall u | u in order :: u in c.pendingTransfers
  {
    if !Closable(c) then c
    else Client(if doShutdown then Shutdown else ReconnectWait, [], map[], false, NoRead, [],
                c.fired + NullFirings(c.pendingTransfers, order))
  }

  /** A request has been written. The queue is never empty then (see Driven); popping it if it were is taken to
      change nothing. */
  function OnWriteOk(c: Client): Client {
    var c := c.(pendingSends := if c.pendingSends == [] then [] else c.pendingSends[1..], writing := false);
    if c.pendingSends != [] then StartWrite(c) else c
  }

  /** fireAssetRcvdCallbacks */
  function FireFor(c: Client, u: Uuid, asset: Option<AssetData>): Client {
    if u in c.pendingTransfers then
      c.(fired := c.fired + FireList(u, c.pendingTransfers[u], asset), pendingTransfers := c.pendingTransfers - {u},
         asked := if c.asked != [] && c.asked[0] == u then c.asked[1..] else c.asked)
    else c
  }

  /** fireAssetRcvdCallbacks and testContinueRecv */
  function Deliver(c: Client, u: Uuid, asset: Option<AssetData>): Client {
    var c := FireFor(c, u, asset);
    c.(reading := if |c.pendingTransfers| > 0 then HeaderRead else NoRead)
  }

  /** The write of a request completed with an error; the server never got the GET. */
  function OnWriteError(c: Client, order: seq<Uuid>): Client
    requires forall u | u in order :: u in c.pendingTransfers
  {
    Close(c.(writing := false, asked := if c.asked == [] then [] else c.asked[..|c.asked| - 1]), false, order)
  }

  /** A response read completed with an error, or brought an invalid header. */
  function OnReadError(c: Client, order: seq<Uuid>): Client
    requires forall u | u in order :: u in c.pendingTransfers
  {
    Close(c.(reading := NoRead), false, order)
  }

  /** A valid response header: the data of a found asset or of an error message is read next. */
  function OnHeader(c: Client, u: Uuid, found: bool, dataSize: nat): Client {
    if found then c.(reading := DataRead(u))
    else if dataSize > 0 then c.(reading := ErrorRead(u))
    else Deliver(c, u, None)
  }

  // ----- Runs

  datatype Event =
    | Call(uuid: Uuid, callback: nat)
    | Written
    | HeaderArrives(uuid: Uuid, found: bool, dataSize: nat)
    | AssetArrives(asset: AssetData)
    | ErrorTextArrives
    | WriteFails(order: seq<Uuid>)
    | ReadFails(order: seq<Uuid>)            // an error completion or an invalid header
    | OtherFails(order: seq<Uuid>)           // a step of connecting, or an operation that a close aborted
    | ShutDown(order: seq<Uuid>)
    | StateChange(state: ConnectionState)    // steps of connecting and authenticating

  /** Only operations in flight complete; connecting never enters or leaves the closed states. */
  ghost predicate Enabled(c: Client, ev: Event) {
    match ev
    case Call(_, _) => true
    case Written => c.writing
    case HeaderArrives(_, _, _) => c.reading.HeaderRead?
    case AssetArrives(_) => c.reading.DataRead?
    case ErrorTextArrives => c.reading.ErrorRead?
    case WriteFails(order) => c.writing && Enumerates(order, c.pendingTransfers.Keys)
    case ReadFails(order) => !c.reading.NoRead? && Enumerates(order, c.pendingTransfers.Keys)
    case OtherFails(order) => Enumerates(order, c.pendingTransfers.Keys)
    case ShutDown(order) => Enumerates(order, c.pendingTransfers.Keys)
    case StateChange(s) => (s.Connecting? && !c.state.Shutdown?) || (s.Connected? && c.state.Connecting?)
  }

  /** The server answers the requests in order, each under its own UUID, and only requests whose write does not
      fail afterwards. */
  predicate Honest(c: Client, ev: Event) {
    && (ev.HeaderArrives? ==> c.asked != [] && ev.uuid == c.asked[0])
    && (ev.WriteFails? ==> c.asked != [])
    && (ev.WriteFails? && (c.reading.DataRead? || c.reading.ErrorRead?) && c.asked != [] ==>
          c.asked[|c.asked| - 1] != c.reading.uuid)
  }

  ghost function Next(c: Client, ev: Event): Client
    requires Enabled(c, ev)
  {
    match ev
    case Call(u, callback) => GetAsset(c, u, callback)
    case Written => OnWriteOk(c)
    case HeaderArrives(u, found, dataSize) => OnHeader(c, u, found, dataSize)
    case AssetArrives(asset) => Deliver(c, c.reading.uuid, Some(asset))
    case ErrorTextArrives => Deliver(c, c.reading.uuid, None)
    case WriteFails(order) => OnWriteError(c, order)
    case ReadFails(order) => OnReadError(c, order)
    case OtherFails(order) => Close(c, false, order)
    case ShutDown(order) => Close(c, true, order)
    case StateChange(s) => c.(state := s)
  }

  function Record(calls: seq<Registration>, ev: Event): seq<Registration> {
    match ev
    case Call(u, callback) => calls + [Registration(callback, u)]
    case _ => calls
  }

  datatype World = World(client: Client, calls: seq<Registration>)

  ghost predicate IsRun(ws: seq<World>, evs: seq<Event>) {
    && |ws| == |evs| + 1 && ws[0] == World(INITIAL, [])
    && forall i | 0 <= i < |evs| :: Enabled(ws[i].client, evs[i])
         && ws[i + 1] == World(Next(ws[i].client, evs[i]), Record(ws[i].calls, evs[i]))
  }

  // ----- One write and one read

  /** A write is in flight exactly while a request is queued. */
  ghost predicate WriteDriven(c: Client) { c.writing <==> c.pendingSends != [] }

  /** A response read is in flight exactly while a callback waits. */
  ghost predicate ReadDriven(c: Client) { c.reading.NoRead? <==> |c.pendingTransfers| == 0 }

  ghost predicate Driven(c: Client) { WriteDriven(c) && ReadDriven(c) }

  /** The event closes the connection, and the close has something to do. */
  predicate Closes(c: Client, ev: Event) {
    (ev.WriteFails? || ev.ReadFails? || ev.OtherFails? || ev.ShutDown?) && Closable(c)
  }

  lemma StepWriteDriven(c: Client, ev: Event)
    requires Enabled(c, ev) && (WriteDriven(c) || (!c.writing && c.pendingSends != []))
    ensures
      var c' := Next(c, ev);
      if Closes(c, ev) || (!ev.WriteFails? && WriteDriven(c)) then WriteDriven(c')
      else !c'.writing && c'.pendingSends != []
  {
  }

  lemma StepReadDriven(c: Client, ev: Event)
    requires Enabled(c, ev) && (ReadDriven(c) || (c.reading.NoRead? && |c.pendingTransfers| > 0))
    ensures
      var c' := Next(c, ev);
      if Closes(c, ev) || (!ev.ReadFails? && ReadDriven(c)) then ReadDriven(c')
      else c'.reading.NoRead? && |c'.pendingTransfers| > 0
  {
    var c' := Next(c, ev);
    match ev
    case Call(u, callback) => assert u in c'.pendingTransfers;
    case _ =>
  }

  /** Since the last close that did something, an error of a write was handled while close() does nothing. */
  ghost predicate LostWrite(ws: seq<World>, evs: seq<Event>, i: nat)
    requires |ws| == |evs| + 1 && i < |ws|
  {
    i > 0 && !Closes(ws[i - 1].client, evs[i - 1]) && (evs[i - 1].WriteFails? || LostWrite(ws, evs, i - 1))
  }

  ghost predicate LostRead(ws: seq<World>, evs: seq<Event>, i: nat)
    requires |ws| == |evs| + 1 && i < |ws|
  {
    i > 0 && !Closes(ws[i - 1].client, evs[i - 1]) && (evs[i - 1].ReadFails? || LostRead(ws, evs, i - 1))
  }

  /** Since the last close that did something, an asset was asked for while close() does nothing. */
  ghost predicate AskedWhenClosed(ws: seq<World>, evs: seq<Event>, i: nat)
    requires |ws| == |evs| + 1 && i < |ws|
  {
    && i > 0 && !Closes(ws[i - 1].client, evs[i - 1])
    && ((evs[i - 1].Call? && !Closable(ws[i - 1].client)) || AskedWhenClosed(ws, evs, i - 1))
  }

  /** Nothing is queued, waiting or in flight. */
  predicate Empty(c: Client) {
    !c.writing && c.reading.NoRead? && c.pendingSends == [] && |c.pendingTransfers| == 0
  }

  // ----- No callback is lost or called twice

  function Registrations(fired: seq<Firing>): (r: seq<Registration>)
    ensures |r| == |fired|
  {
    seq(|fired|, (i: nat) requires i < |fired| => Registration(fired[i].callback, fired[i].uuid))
  }

  ghost function Called(fired: seq<Firing>, r: Registration): nat { multiset(Registrations(fired))[r] }

  ghost function Waiting(transfers: map<Uuid, seq<nat>>, r: Registration): nat {
    if r.uuid in transfers then multiset(transfers[r.uuid])[r.id] else 0
  }

  /** Every registration has either been called under its own UUID or still waits there. */
  ghost predicate Conserved(w: World) {
    forall r: Registration :: Called(w.client.fired, r) + Waiting(w.client.pendingTransfers, r) == multiset(w.calls)[r]
  }

  lemma CalledOfConcat(a: seq<Firing>, b: seq<Firing>, r: Registration)
    ensures Called(a + b, r) == Called(a, r) + Called(b, r)
  {
    assert Registrations(a + b) == Registrations(a) + Registrations(b);
  }

  lemma {:induction false} CalledOfList(u: Uuid, callbacks: seq<nat>, asset: Option<AssetData>, r: Registration)
    ensures Called(FireList(u, callbacks, asset), r) == if r.uuid == u then multiset(callbacks)[r.id] else 0
  {
    if callbacks != [] {
      var rest, last := callbacks[..|callbacks| - 1], callbacks[|callbacks| - 1];
      CalledOfList(u, rest, asset, r);
      assert callbacks == rest + [last];
      assert FireList(u, callbacks, asset) == FireList(u, rest, asset) + [Firing(last, u, asset)];
      CalledOfConcat(FireList(u, rest, asset), [Firing(last, u, asset)], r);
      assert Registrations([Firing(last, u, asset)]) == [Registration(last, u)];
    }
  }

  lemma {:induction false} CalledOfNulls(transfers: map<Uuid, seq<nat>>, order: seq<Uuid>, r: Registration)
    requires (forall u | u in order :: u in transfers) && forall i, j | 0 <= i < j < |order| :: order[i] != order[j]
    ensures Called(NullFirings(transfers, order), r) == if r.uuid in order then Waiting(transfers, r) else 0
  {
    if order != [] {
      var rest, u := order[..|order| - 1], order[|order| - 1];
      assert order == rest + [u];
      CalledOfNulls(transfers, rest, r);
      CalledOfList(u, transfers[u], None, r);
      CalledOfConcat(NullFirings(transfers, rest), FireList(u, transfers[u], None), r);
    }
  }

  lemma DeliverConserves(w: World, u: Uuid, asset: Option<AssetData>)
    requires Conserved(w)
    ensures Conserved(World(Deliver(w.client, u, asset), w.calls))
  {
    var c, c' := w.client, Deliver(w.client, u, asset);
    if u in c.pendingTransfers {
      forall r: Registration
        ensures
          Called(c'.fired, r) + Waiting(c'.pendingTransfers, r)
            == Called(c.fired, r) + Waiting(c.pendingTransfers, r)
      {
        CalledOfConcat(c.fired, FireList(u, c.pendingTransfers[u], asset), r);
        CalledOfList(u, c.pendingTransfers[u], asset, r);
      }
    }
  }

  lemma CloseConserves(w: World, doShutdown: bool, order: seq<Uuid>)
    requires Conserved(w) && Enumerates(order, w.client.pendingTransfers.Keys)
    ensures Conserved(World(Close(w.client, doShutdown, order), w.calls))
  {
    var c, c' := w.client, Close(w.client, doShutdown, order);
    if Closable(c) {
      forall r: Registration
        ensures
          Called(c'.fired, r) + Waiting(c'.pendingTransfers, r)
            == Called(c.fired, r) + Waiting(c.pendingTransfers, r)
      {
        CalledOfConcat(c.fired, NullFirings(c.pendingTransfers, order), r);
        CalledOfNulls(c.pendingTransfers, order, r);
      }
    }
  }

  lemma CallConserves(w: World, u: Uuid, callback: nat)
    requires Conserved(w)
    ensures Conserved(World(GetAsset(w.client, u, callback), w.calls + [Registration(callback, u)]))
  {
    var c, c', added := w.client, GetAsset(w.client, u, callback), Registration(callback, u);
    assert c'.fired == c.fired;
    forall r: Registration
      ensures Waiting(c'.pendingTransfers, r) == Waiting(c.pendingTransfers, r) + if r == added then 1 else 0
    {
      hide Called;
    }
  }

  lemma StepConserves(w: World, ev: Event)
    requires Conserved(w) && Enabled(w.client, ev)
    ensures Conserved(World(Next(w.client, ev), Record(w.calls, ev)))
  {
    hide Conserved;
    match ev
    case Call(u, callback) => CallConserves(w, u, callback);
    case HeaderArrives(u, found, dataSize) =>
      DeliverConserves(w, u, None);
      QuietStepConserves(w, Next(w.client, HeaderArrives(u, true, 0)));
      QuietStepConserves(w, w.client.(reading := ErrorRead(u)));
    case AssetArrives(asset) => DeliverConserves(w, w.client.reading.uuid, Some(asset));
    case ErrorTextArrives => DeliverConserves(w, w.client.reading.uuid, None);
    case WriteFails(order) =>
      var asked := w.client.asked;
      var c := w.client.(writing := false, asked := if asked == [] then [] else asked[..|asked| - 1]);
      QuietStepConserves(w, c);
      CloseConserves(World(c, w.calls), false, order);
    case ReadFails(order) =>
      QuietStepConserves(w, w.client.(reading := NoRead));
      CloseConserves(World(w.client.(reading := NoRead), w.calls), false, order);
    case OtherFails(order) => CloseConserves(w, false, order);
    case ShutDown(order) => CloseConserves(w, true, order);
    case Written => QuietStepConserves(w, Next(w.client, ev));
    case StateChange(_) => QuietStepConserves(w, Next(w.client, ev));
  }

  lemma QuietStepConserves(w: World, c': Client)
    requires Conserved(w) && c'.fired == w.client.fired && c'.pendingTransfers == w.client.pendingTransfers
    ensures Conserved(World(c', w.calls))
  {}

  // ----- Requests and waiting callbacks match

  /** Requests queued behind the one being written. */
  function Behind(sends: seq<Uuid>): seq<Uuid> { if sends == [] then [] else sends[1..] }

  /** The GETs that are neither answered nor given up, oldest first. */
  function Unanswered(c: Client): seq<Uuid> { c.asked + Behind(c.pendingSends) }

  /** One unanswered GET for each UUID with waiting callbacks, and for no other; the data being read answers
      the oldest. */
  ghost predicate Matched(c: Client) {
    && Distinct(Unanswered(c)) && (forall u :: u in Unanswered(c) <==> u in c.pendingTransfers)
    && (c.reading.DataRead? || c.reading.ErrorRead? ==> c.asked != [] && c.asked[0] == c.reading.uuid)
  }

  lemma CallKeepsMatched(c: Client, u: Uuid, callback: nat)
    requires Matched(c) && WriteDriven(c)
    ensures Matched(GetAsset(c, u, callback))
  {
    var c' := GetAsset(c, u, callback);
    if u !in c.pendingTransfers {
      assert Unanswered(c') == Unanswered(c) + [u];
    }
  }

  lemma WrittenKeepsMatched(c: Client)
    requires Matched(c) && WriteDriven(c) && c.writing
    ensures Matched(OnWriteOk(c))
  {
    assert Unanswered(OnWriteOk(c)) == Unanswered(c);
  }

  lemma HeadLeaves(us: seq<Uuid>)
    requires us != [] && Distinct(us)
    ensures Distinct(us[1..]) && forall u :: u in us[1..] <==> u in us && u != us[0]
  {
    assert us == [us[0]] + us[1..];
  }

  lemma FireForKeepsUnanswered(c: Client, asset: Option<AssetData>)
    requires Distinct(Unanswered(c)) && (forall u :: u in Unanswered(c) <==> u in c.pendingTransfers) && c.asked != []
    ensures
      var c' := FireFor(c, c.asked[0], asset);
      Distinct(Unanswered(c')) && forall u :: u in Unanswered(c') <==> u in c'.pendingTransfers
  {
    var u, all := c.asked[0], Unanswered(c);
    HeadLeaves(all);
    assert all[0] == u && u in all;
    var c' := FireFor(c, u, asset);
    assert Unanswered(c') == all[1..];
  }

  lemma DeliverKeepsMatched(c: Client, asset: Option<AssetData>)
    requires Matched(c) && c.asked != []
    ensures Matched(Deliver(c, c.asked[0], asset))
  {
    FireForKeepsUnanswered(c, asset);
    hide FireFor;
    assert Unanswered(Deliver(c, c.asked[0], asset)) == Unanswered(FireFor(c, c.asked[0], asset));
  }

  lemma StepKeepsMatched(c: Client, ev: Event)
    requires Matched(c) && WriteDriven(c) && Enabled(c, ev) && Honest(c, ev) && (ev.WriteFails? ==> Closable(c))
    ensures Matched(Next(c, ev))
  {
    match ev
    case Call(u, callback) => CallKeepsMatched(c, u, callback);
    case Written => WrittenKeepsMatched(c);
    case HeaderArrives(u, found, dataSize) => DeliverKeepsMatched(c, None);
    case AssetArrives(asset) => DeliverKeepsMatched(c, Some(asset));
    case ErrorTextArrives => DeliverKeepsMatched(c, None);
    case _ => FailureKeepsMatched(c, ev);
  }

  lemma FailureKeepsMatched(c: Client, ev: Event)
    requires Matched(c) && Enabled(c, ev) && (ev.WriteFails? ==> Closable(c))
    requires !ev.Call? && !ev.Written? && !ev.HeaderArrives? && !ev.AssetArrives? && !ev.ErrorTextArrives?
    ensures Matched(Next(c, ev))
  {
    var c' := Next(c, ev);
    if !Closes(c, ev) {
      assert Unanswered(c') == Unanswered(c);
    }
  }

  /** The request at the head of the queue is not being written and was not asked for, but callbacks wait for it. */
  ghost predicate Stranded(c: Client) {
    && !c.writing && c.pendingSends != []
    && c.pendingSends[0] in c.pendingTransfers && c.pendingSends[0] !in Unanswered(c)
    && (c.reading.DataRead? || c.reading.ErrorRead? ==> c.pendingSends[0] != c.reading.uuid)
  }

  lemma DeliverKeepsStranded(c: Client, u: Uuid, asset: Option<AssetData>)
    requires Stranded(c) && u != c.pendingSends[0]
    ensures Stranded(Deliver(c, u, asset))
  {
    hide FireList;
  }

  lemma StepKeepsStranded(c: Client, ev: Event)
    requires Stranded(c) && Enabled(c, ev) && Honest(c, ev) && !Closes(c, ev)
    ensures Stranded(Next(c, ev))
  {
    hide Deliver, NullFirings, Enumerates;
    match ev
    case HeaderArrives(u, found, dataSize) => DeliverKeepsStranded(c, u, None);
    case AssetArrives(asset) => DeliverKeepsStranded(c, c.reading.uuid, Some(asset));
    case ErrorTextArrives => DeliverKeepsStranded(c, c.reading.uuid, None);
    case _ =>
  }

  /** The request being written is the last one asked for, unless it was answered already. */
  ghost predicate LastAsked(c: Client) {
    c.writing && c.pendingSends != [] && c.asked != [] ==> c.asked[|c.asked| - 1] == c.pendingSends[0]
  }

  lemma DeliverKeepsLastAsked(c: Client, u: Uuid, asset: Option<AssetData>)
    requires LastAsked(c)
    ensures LastAsked(Deliver(c, u, asset))
  {
    hide FireList;
  }

  lemma StepKeepsLastAsked(c: Client, ev: Event)
    requires LastAsked(c) && WriteDriven(c) && Enabled(c, ev)
    ensures LastAsked(Next(c, ev))
  {
    hide Deliver, NullFirings, Enumerates;
    match ev
    case HeaderArrives(u, found, dataSize) => DeliverKeepsLastAsked(c, u, None);
    case AssetArrives(asset) => DeliverKeepsLastAsked(c, c.reading.uuid, Some(asset));
    case ErrorTextArrives => DeliverKeepsLastAsked(c, c.reading.uuid, None);
    case _ =>
  }

  /** A write that fails while close() does nothing strands its request. */
  lemma WriteErrorStrands(c: Client, order: seq<Uuid>)
    requires Matched(c) && WriteDriven(c) && LastAsked(c) && !Closable(c)
    requires Enabled(c, WriteFails(order)) && Honest(c, WriteFails(order))
    ensures Stranded(OnWriteError(c, order))
  {
    var c', n := OnWriteError(c, order), |c.asked| - 1;
    assert Unanswered(c)[n] == c.pendingSends[0];
    assert Unanswered(c') == c.asked[..n] + Behind(c.pendingSends);
    forall i | 0 <= i < |Unanswered(c')|
      ensures Unanswered(c')[i] != c.pendingSends[0]
    {
      assert Unanswered(c')[i] == Unanswered(c)[if i < n then i else i + 1];
    }
  }

  // ----- Main results

  /** In every run, whatever the server sends, every callback ever registered has been called once under its own
      UUID or still waits to be. */
  lemma {:induction false} CallbacksConserved(ws: seq<World>, evs: seq<Event>, i: nat)
    requires IsRun(ws, evs) && i < |ws|
    ensures Conserved(ws[i])
  {
    if i > 0 {
      CallbacksConserved(ws, evs, i - 1);
      StepConserves(ws[i - 1], evs[i - 1]);
    }
  }

  /** In every run a write is in flight exactly while a request is queued if and only if no error of a write was
      handled while close() does nothing, and a response read exactly while a callback waits if and only if no
      error of a read was, since the last close that did something. */
  lemma {:induction false} DrivenIff(ws: seq<World>, evs: seq<Event>, i: nat)
    requires IsRun(ws, evs) && i < |ws|
    ensures WriteDriven(ws[i].client) <==> !LostWrite(ws, evs, i)
    ensures ReadDriven(ws[i].client) <==> !LostRead(ws, evs, i)
    ensures LostWrite(ws, evs, i) ==> !ws[i].client.writing && ws[i].client.pendingSends != []
    ensures LostRead(ws, evs, i) ==> ws[i].client.reading.NoRead? && |ws[i].client.pendingTransfers| > 0
  {
    hide Next;
    if i > 0 {
      DrivenIff(ws, evs, i - 1);
      StepWriteDriven(ws[i - 1].client, evs[i - 1]);
      StepReadDriven(ws[i - 1].client, evs[i - 1]);
    }
  }

  lemma StepKeepsEmpty(c: Client, ev: Event)
    requires Enabled(c, ev) && (Closable(c) || (Empty(c) && !ev.Call?))
    ensures Closable(Next(c, ev)) || Empty(Next(c, ev))
  {
  }

  /** Callers that ask only while close() would do something keep the client driven. */
  lemma {:induction false} GuardedCallersStayDriven(ws: seq<World>, evs: seq<Event>, i: nat)
    requires IsRun(ws, evs) && i < |ws| && !AskedWhenClosed(ws, evs, i)
    ensures !LostWrite(ws, evs, i) && !LostRead(ws, evs, i) && Driven(ws[i].client)
    ensures Closable(ws[i].client) || Empty(ws[i].client)
  {
    hide Next;
    if i > 0 {
      if Closes(ws[i - 1].client, evs[i - 1]) {
        StepKeepsEmpty(ws[i - 1].client, evs[i - 1]);
      } else {
        GuardedCallersStayDriven(ws, evs, i - 1);
        StepKeepsEmpty(ws[i - 1].client, evs[i - 1]);
      }
    }
    DrivenIff(ws, evs, i);
  }

  /** For a driven client, the failure of the read that a call may begin is survived if and only if the call is
      made while close() would do something; the client is then empty, and otherwise the callback waits with
      nothing in flight to end its wait. */
  lemma CallSafeIff(c: Client, u: Uuid, callback: nat, order: seq<Uuid>)
    requires Driven(c) && Enumerates(order, GetAsset(c, u, callback).pendingTransfers.Keys)
    ensures Enabled(GetAsset(c, u, callback), ReadFails(order))
    ensures
      var c' := OnReadError(GetAsset(c, u, callback), order);
      && (Closable(c) <==> Driven(c')) && (Closable(c) ==> Empty(c'))
      && (!Closable(c) ==> c'.reading.NoRead? && Waiting(c'.pendingTransfers, Registration(callback, u)) > 0)
  {
    var c1 := GetAsset(c, u, callback);
    assert u in c1.pendingTransfers;
  }

  /** With such a server, the unanswered GETs are exactly the UUIDs with waiting callbacks, each asked for once, if
      and only if no error of a write was handled while close() does nothing since the last close that did
      something. */
  lemma {:induction false} OneGetPerTransferIff(ws: seq<World>, evs: seq<Event>, i: nat)
    requires IsRun(ws, evs) && i < |ws| && forall k | 0 <= k < i :: Honest(ws[k].client, evs[k])
    ensures Matched(ws[i].client) <==> !LostWrite(ws, evs, i)
    ensures LostWrite(ws, evs, i) ==> Stranded(ws[i].client)
    ensures !LostWrite(ws, evs, i) ==> LastAsked(ws[i].client)
  {
    hide Next, Matched, Stranded, LastAsked;
    DrivenIff(ws, evs, i);
    if i == 0 {
      NothingAsked();
    } else {
      OneGetPerTransferIff(ws, evs, i - 1);
      DrivenIff(ws, evs, i - 1);
      var c, ev := ws[i - 1].client, evs[i - 1];
      if Closes(c, ev) {
        ClosedIsMatched(c, ev);
      } else if LostWrite(ws, evs, i - 1) {
        StepKeepsStranded(c, ev);
      } else if ev.WriteFails? {
        StrandedByError(c, ev);
      } else {
        StepKeepsMatched(c, ev);
        StepKeepsLastAsked(c, ev);
      }
    }
    StrandedIsNotMatched(ws[i].client);
  }

  lemma NothingAsked()
    ensures Matched(INITIAL) && LastAsked(INITIAL)
  {
  }

  lemma ClosedIsMatched(c: Client, ev: Event)
    requires Enabled(c, ev) && Closes(c, ev)
    ensures Matched(Next(c, ev)) && LastAsked(Next(c, ev))
  {
  }

  lemma StrandedByError(c: Client, ev: Event)
    requires Matched(c) && WriteDriven(c) && LastAsked(c) && ev.WriteFails? && !Closable(c)
    requires Enabled(c, ev) && Honest(c, ev)
    ensures Stranded(Next(c, ev))
  {
    WriteErrorStrands(c, ev.order);
  }

  lemma StrandedIsNotMatched(c: Client)
    ensures Stranded(c) ==> !Matched(c)
  {
  }

  /** A callback registered once is called at most once, and not before it has left the table. */
  lemma CalledAtMostOnce(ws: seq<World>, evs: seq<Event>, i: nat, r: Registration)
    requires IsRun(ws, evs) && i < |ws| && multiset(ws[i].calls)[r] == 1
    ensures Called(ws[i].client.fired, r) + Waiting(ws[i].client.pendingTransfers, r) == 1
  {
    CallbacksConserved(ws, evs, i);
  }

  /** close() calls every waiting callback with null if and only if the client is neither disconnected nor shut
      down; in those two states it leaves callbacks waiting. */
  lemma CloseEmptiesIffClosable(c: Client, doShutdown: bool, order: seq<Uuid>, r: Registration)
    requires Enumerates(order, c.pendingTransfers.Keys) && Waiting(c.pendingTransfers, r) > 0
    ensures Closable(c) <==> Waiting(Close(c, doShutdown, order).pendingTransfers, r) == 0
    ensures Closable(c) <==> Called(Close(c, doShutdown, order).fired, r) > Called(c.fired, r)
    ensures forall f | f in Close(c, doShutdown, order).fired[|c.fired|..] :: f.asset.None?
  {
    if Closable(c) {
      CalledOfConcat(c.fired, NullFirings(c.pendingTransfers, order), r);
      CalledOfNulls(c.pendingTransfers, order, r);
      NullFiringsAreNull(c.pendingTransfers, order);
      assert Close(c, doShutdown, order).fired[|c.fired|..] == NullFirings(c.pendingTransfers, order);
    }
  }

  // ----- What the callbacks are given

  /** One firing for each callback, in order, each with this UUID and this asset. */
  predicate OneEach(callbacks: seq<nat>, u: Uuid, asset: Option<AssetData>, more: seq<Firing>) {
    |more| == |callbacks| && forall i | 0 <= i < |more| :: more[i] == Firing(callbacks[i], u, asset)
  }

  /** The callbacks that waited for u, and no others, were called with the asset and wait no longer. */
  predicate Answers(c: Client, c': Client, u: Uuid, asset: Option<AssetData>) {
    && c.fired <= c'.fired && c'.pendingTransfers == c.pendingTransfers - {u}
    && OneEach(if u in c.pendingTransfers then c.pendingTransfers[u] else [], u, asset, c'.fired[|c.fired|..])
  }

  lemma DeliverAnswers(c: Client, u: Uuid, asset: Option<AssetData>)
    ensures Answers(c, Deliver(c, u, asset), u, asset)
  {
    var c' := Deliver(c, u, asset);
    if u in c.pendingTransfers {
      assert c'.fired[|c.fired|..] == FireList(u, c.pendingTransfers[u], asset);
    } else {
      assert c.pendingTransfers - {u} == c.pendingTransfers;
      assert c'.fired[|c.fired|..] == [];
    }
  }

  /** An asset goes to every callback that waited for the UUID of its header; an error text, or a refusal without
      one, gives them null. */
  lemma ResponseAnswers(c: Client, ev: Event)
    requires Enabled(c, ev)
    ensures ev.AssetArrives? ==> Answers(c, Next(c, ev), c.reading.uuid, Some(ev.asset))
    ensures ev.ErrorTextArrives? ==> Answers(c, Next(c, ev), c.reading.uuid, None)
    ensures ev.HeaderArrives? && !ev.found && ev.dataSize == 0 ==> Answers(c, Next(c, ev), ev.uuid, None)
  {
    hide Deliver, Answers;
    if ev.AssetArrives? {
      DeliverAnswers(c, c.reading.uuid, Some(ev.asset));
    } else if ev.ErrorTextArrives? {
      DeliverAnswers(c, c.reading.uuid, None);
    } else if ev.HeaderArrives? {
      DeliverAnswers(c, ev.uuid, None);
    }
  }

  /** No other event calls a callback with an asset. */
  lemma OthersFireNull(c: Client, ev: Event)
    requires Enabled(c, ev) && !ev.AssetArrives?
    ensures c.fired <= Next(c, ev).fired && forall f | f in Next(c, ev).fired[|c.fired|..] :: f.asset.None?
  {
    if ev.HeaderArrives? || ev.ErrorTextArrives? {
      ResponseAnswers(c, ev);
    } else {
      hide NullFirings;
      if ev.WriteFails? || ev.ReadFails? || ev.OtherFails? || ev.ShutDown? {
        NullFiringsAreNull(c.pendingTransfers, ev.order);
      }
      assert Next(c, ev).fired == c.fired
          || Next(c, ev).fired[|c.fired|..] == NullFirings(c.pendingTransfers, ev.order);
    }
  }

  /** The event brings the asset that a waiting callback is given. */
  ghost predicate Brings(c: Client, ev: Event, f: Firing) {
    && f.asset.Some? && ev == AssetArrives(f.asset.value) && c.reading == DataRead(f.uuid)
    && f.uuid in c.pendingTransfers && f.callback in c.pendingTransfers[f.uuid]
  }

  lemma StepBrings(c: Client, ev: Event, j: nat)
    requires Enabled(c, ev) && |c.fired| <= j < |Next(c, ev).fired| && Next(c, ev).fired[j].asset.Some?
    ensures Brings(c, ev, Next(c, ev).fired[j])
  {
    hide Next;
    var more := Next(c, ev).fired[|c.fired|..];
    assert more[j - |c.fired|] == Next(c, ev).fired[j];
    if ev.AssetArrives? { ResponseAnswers(c, ev); } else { OthersFireNull(c, ev); }
  }

  lemma FiringsStay(c: Client, ev: Event)
    requires Enabled(c, ev)
    ensures c.fired <= Next(c, ev).fired
  {
    hide Next;
    if ev.AssetArrives? { ResponseAnswers(c, ev); } else { OthersFireNull(c, ev); }
  }

  /** In every run, whatever the server sends, a callback that was given an asset was given it when that very asset
      arrived, under the UUID it waited for. */
  lemma {:induction false} AssetGivenArrived(ws: seq<World>, evs: seq<Event>, i: nat, j: nat) returns (k: nat)
    requires IsRun(ws, evs) && i < |ws| && j < |ws[i].client.fired| && ws[i].client.fired[j].asset.Some?
    ensures k < i && Brings(ws[k].client, evs[k], ws[i].client.fired[j])
  {
    hide Next, Enabled, Brings;
    k := i - 1;
    FiringsStay(ws[k].client, evs[k]);
    if j < |ws[k].client.fired| {
      k := AssetGivenArrived(ws, evs, i - 1, j);
    } else {
      StepBrings(ws[k].client, evs[k], j);
    }
  }

  /** Data being read was announced by a header of the same UUID, and nothing else was read since. */
  lemma {:induction false} DataFollowsHeader(ws: seq<World>, evs: seq<Event>, i: nat) returns (h: nat)
    requires IsRun(ws, evs) && i < |ws| && (ws[i].client.reading.DataRead? || ws[i].client.reading.ErrorRead?)
    ensures h < i && evs[h].HeaderArrives? && evs[h].uuid == ws[i].client.reading.uuid
    ensures evs[h].found <==> ws[i].client.reading.DataRead?
    ensures forall j | h < j <= i :: ws[j].client.reading == ws[i].client.reading
  {
    h := i - 1;
    var c, ev := ws[h].client, evs[h];
    if !(ev.HeaderArrives? && c.reading.HeaderRead?) {
      ReadingStays(c, ev);
      h := DataFollowsHeader(ws, evs, h);
    }
  }

  lemma ReadingStays(c: Client, ev: Event)
    requires Enabled(c, ev) && !ev.HeaderArrives?
    requires Next(c, ev).reading.DataRead? || Next(c, ev).reading.ErrorRead?
    ensures Next(c, ev).reading == c.reading
  {
  }

  // A run that gets stuck: an asset is asked for before connect() is called.

  const ASKED := Client(Disconnected, ["u"], map["u" := [0]], true, HeaderRead, ["u"], [])
  const UNSENT := ASKED.(writing := false, asked := [])
  const UNREAD := UNSENT.(reading := NoRead)
  const STUCK := UNREAD.(
    state := Connected, pendingSends := ["u", "v"], pendingTransfers := map["u" := [0], "v" := [1]])

  lemma FirstStepsToStuck()
    ensures GetAsset(INITIAL, "u", 0) == ASKED
    ensures Enabled(ASKED, WriteFails(["u"])) && Next(ASKED, WriteFails(["u"])) == UNSENT
    ensures Enabled(UNSENT, ReadFails(["u"])) && Next(UNSENT, ReadFails(["u"])) == UNREAD
  {
    assert [] + ["u"] == ["u"] && map[]["u" := [0]] == map["u" := [0]];
    assert ["u"][..0] == [];
  }

  lemma LastStepsToStuck()
    ensures
      var c, d := UNREAD.(state := Connecting), UNREAD.(state := Connected);
      && Enabled(UNREAD, StateChange(Connecting)) && Next(UNREAD, StateChange(Connecting)) == c
      && Enabled(c, StateChange(Connected)) && Next(c, StateChange(Connected)) == d
      && Enabled(d, Call("v", 1)) && Next(d, Call("v", 1)) == STUCK
  {
    assert ["u"] + ["v"] == ["u", "v"] && map["u" := [0]]["v" := [1]] == STUCK.pendingTransfers;
    assert "u" in UNREAD.pendingTransfers;
  }

  lemma StuckIsNotDriven()
    ensures !WriteDriven(STUCK) && !ReadDriven(STUCK)
  {
    assert "u" in STUCK.pendingTransfers;
  }

  lemma StuckIsStranded()
    ensures Stranded(STUCK)
  {
    assert Behind(["u", "v"]) == ["v"] && [] + ["v"] == ["v"];
  }

  lemma AskedWaits()
    ensures !Closable(ASKED) && Waiting(ASKED.pendingTransfers, Registration(0, "u")) == 1
  {
    assert multiset([0])[0] == 1;
  }

  lemma AskedTooEarly() returns (ws: seq<World>, evs: seq<Event>)
    ensures IsRun(ws, evs) && |evs| == 3 && ws[1].client == ASKED && ws[3].client == UNREAD
  {
    FirstStepsToStuck();
    assert Enabled(INITIAL, Call("u", 0)) && Next(INITIAL, Call("u", 0)) == ASKED;
    RunBegins();
    hide IsRun, Next, Enabled, INITIAL, ASKED, UNSENT, UNREAD;
    ws, evs := [World(INITIAL, [])], [];
    ws, evs := Extend(ws, evs, Call("u", 0));
    ws, evs := Extend(ws, evs, WriteFails(["u"]));
    ws, evs := Extend(ws, evs, ReadFails(["u"]));
  }

  lemma RunBegins()
    ensures IsRun([World(INITIAL, [])], [])
  {
  }

  /** Asked before it connects, the client fails to write and to read and stays stuck: once connected, the first
      callback waits with nothing in flight, and a further call for another asset is neither written nor read. */
  lemma AskedTooEarlyGetsStuck() returns (ws: seq<World>, evs: seq<Event>)
    ensures IsRun(ws, evs) && |evs| == 6 && ws[1].client == ASKED && ws[6].client == STUCK
    ensures !Closable(ASKED) && Waiting(ASKED.pendingTransfers, Registration(0, "u")) == 1
    ensures !WriteDriven(STUCK) && !ReadDriven(STUCK) && !Matched(STUCK)
  {
    LastStepsToStuck();
    StuckIsNotDriven();
    StuckIsStranded();
    StrandedIsNotMatched(STUCK);
    AskedWaits();
    hide IsRun, Next, Enabled, ASKED, UNREAD, STUCK, Matched, Stranded, WriteDriven, ReadDriven, Closable, Waiting;
    ws, evs := AskedTooEarly();
    ws, evs := Extend(ws, evs, StateChange(Connecting));
    ws, evs := Extend(ws, evs, StateChange(Connected));
    ws, evs := Extend(ws, evs, Call("v", 1));
  }

  /** A run, one event longer. */
  lemma Extend(ws: seq<World>, evs: seq<Event>, ev: Event) returns (ws': seq<World>, evs': seq<Event>)
    requires IsRun(ws, evs) && Enabled(ws[|evs|].client, ev)
    ensures IsRun(ws', evs') && |ws| == |evs| + 1 == |evs'| && evs' == evs + [ev] && ws < ws' && |ws'| == |ws| + 1
    ensures ws'[|evs'|].client == Next(ws[|evs|].client, ev)
  {
    hide Next, Enabled;
    var last := ws[|evs|];
    ws', evs' := ws + [World(Next(last.client, ev), Record(last.calls, ev))], evs + [ev];
  }

  lemma {:induction false} NullFiringsAreNull(transfers: map<Uuid, seq<nat>>, order: seq<Uuid>)
    requires forall u | u in order :: u in transfers
    ensures forall f | f in NullFirings(transfers, order) :: f.asset.None?
  {
    if order != [] { NullFiringsAreNull(transfers, order[..|order| - 1]); }
  }

  // ----- The object

  datatype HeaderResult = ReadError | Invalid | Valid(uuid: Uuid, found: bool, dataSize: nat)

  class AssetServer {
    var connectionState: ConnectionState
    var pendingSends: seq<Uuid>
    var pendingTransfers: map<Uuid, seq<nat>>
    var writing: bool
    var reading: ReadOp
    var asked: seq<Uuid>
    var fired: seq<Firing>

    ghost function Abs(): Client
      reads this
    {
      Client(connectionState, pendingSends, pendingTransfers, writing, reading, asked, fired)
    }

    constructor ()
      ensures Abs() == INITIAL
    {
      connectionState, pendingSends, pendingTransfers := Disconnected, [], map[];
      writing, reading, asked, fired := false, NoRead, [], [];
    }

    method FireCallbacks(u: Uuid, callbacks: seq<nat>, asset: Option<AssetData>)
      modifies this`fired
      ensures fired == old(fired) + FireList(u, callbacks, asset)
      ensures OneEach(callbacks, u, asset, fired[|old(fired)|..])
    {
      for i := 0 to |callbacks|
        invariant fired == old(fired) + FireList(u, callbacks[..i], asset)
      {
        fired := fired + [Firing(callbacks[i], u, asset)];
        assert FireList(u, callbacks[..i + 1], asset)
            == FireList(u, callbacks[..i], asset) + [Firing(callbacks[i], u, asset)];
      }
      assert callbacks[..|callbacks|] == callbacks;
    }

    method CloseConnection(doShutdown: bool) returns (ghost order: seq<Uuid>)
      modifies this
      ensures Enumerates(order, old(pendingTransfers).Keys)
      ensures Abs() == Close(old(Abs()), doShutdown, order)
    {
      if connectionState != Disconnected && connectionState != Shutdown {
        connectionState := if doShutdown then Shutdown else Disconnected;
        order := CancelTransfers();
        pendingTransfers := map[];
        pendingSends := [];
        writing, reading, asked := false, NoRead, [];
        if connectionState == Disconnected {
          connectionState := ReconnectWait;
        }
      } else {
        order := Listing(pendingTransfers.Keys);
      }
    }

    method CancelTransfers() returns (ghost order: seq<Uuid>)
      modifies this`fired
      ensures Enumerates(order, pendingTransfers.Keys)
      ensures fired == old(fired) + NullFirings(pendingTransfers, order)
    {
      var todo := pendingTransfers.Keys;
      order := [];
      while todo != {}
        invariant todo <= pendingTransfers.Keys && Enumerates(order, pendingTransfers.Keys - todo)
        invariant fired == old(fired) + NullFirings(pendingTransfers, order)
      {
        var u :| u in todo;
        FireCallbacks(u, pendingTransfers[u], None);
        assert (order + [u])[..|order|] == order;
        order := order + [u];
        todo := todo - {u};
      }
    }

    method ProcessNextSendItem()
      requires pendingSends != []
      modifies this
      ensures Abs() == StartWrite(old(Abs()))
    {
      writing := true;
      asked := asked + [pendingSends[0]];
    }

    method RequestAsset(u: Uuid, callback: nat)
      modifies this
      ensures Abs() == GetAsset(old(Abs()), u, callback)
    {
      if u in pendingTransfers {
        pendingTransfers := pendingTransfers[u := pendingTransfers[u] + [callback]];
      } else {
        pendingSends := pendingSends + [u];
        if |pendingSends| == 1 {
          ProcessNextSendItem();
        }
        if |pendingTransfers| == 0 {
          pendingTransfers := pendingTransfers[u := [callback]];
          reading := HeaderRead;
        } else {
          pendingTransfers := pendingTransfers[u := [callback]];
        }
      }
    }

    method OnWriteAssetRequest(ok: bool) returns (ghost order: seq<Uuid>)
      requires ok ==> pendingSends != []
      modifies this
      ensures Enumerates(order, old(pendingTransfers).Keys)
      ensures Abs() == if ok then OnWriteOk(old(Abs())) else OnWriteError(old(Abs()), order)
    {
      writing := false;
      if ok {
        order := Listing(pendingTransfers.Keys);
        pendingSends := pendingSends[1..];
        if |pendingSends| > 0 {
          ProcessNextSendItem();
        }
      } else {
        asked := if asked == [] then [] else asked[..|asked| - 1];
        order := CloseConnection(false);
      }
    }

    method FireAssetRcvdCallbacks(u: Uuid, asset: Option<AssetData>)
      modifies this
      ensures Abs() == Deliver(old(Abs()), u, asset)
      ensures Answers(old(Abs()), Abs(), u, asset)
    {
      DeliverAnswers(Abs(), u, asset);
      if u in pendingTransfers {
        FireCallbacks(u, pendingTransfers[u], asset);
        pendingTransfers := pendingTransfers - {u};
        asked := if asked != [] && asked[0] == u then asked[1..] else asked;
      }
      reading := NoRead;
      if |pendingTransfers| > 0 {
        reading := HeaderRead;
      }
    }

    method OnReadResponseHeader(header: HeaderResult) returns (ghost order: seq<Uuid>)
      modifies this
      ensures Enumerates(order, old(pendingTransfers).Keys)
      ensures Abs() == match header
        case Valid(u, found, dataSize) => OnHeader(old(Abs()), u, found, dataSize)
        case _ => OnReadError(old(Abs()), order)
      ensures header.Valid? && !header.found && header.dataSize == 0 ==> Answers(old(Abs()), Abs(), header.uuid, None)
    {
      if header.Valid? {
        order := Listing(pendingTransfers.Keys);
        if header.found {
          reading := DataRead(header.uuid);
        } else if header.dataSize > 0 {
          reading := ErrorRead(header.uuid);
        } else {
          FireAssetRcvdCallbacks(header.uuid, None);
        }
      } else {
        order := GiveUp();
      }
    }

    /** A failed response read. */
    method GiveUp() returns (ghost order: seq<Uuid>)
      modifies this
      ensures Enumerates(order, old(pendingTransfers).Keys) && Abs() == OnReadError(old(Abs()), order)
    {
      reading := NoRead;
      order := CloseConnection(false);
    }

    method OnReadResponseData(u: Uuid, asset: Option<AssetData>) returns (ghost order: seq<Uuid>)
      modifies this
      ensures Enumerates(order, old(pendingTransfers).Keys)
      ensures Abs() == if asset.Some? then Deliver(old(Abs()), u, asset) else OnReadError(old(Abs()), order)
      ensures asset.Some? ==> Answers(old(Abs()), Abs(), u, asset)
    {
      if asset.Some? {
        order := Listing(pendingTransfers.Keys);
        FireAssetRcvdCallbacks(u, asset);
      } else {
        order := GiveUp();
      }
    }

    method OnHandleRequestErrorData(u: Uuid, ok: bool) returns (ghost order: seq<Uuid>)
      modifies this
      ensures Enumerates(order, old(pendingTransfers).Keys)
      ensures Abs() == if ok then Deliver(old(Abs()), u, None) else OnReadError(old(Abs()), order)
      ensures ok ==> Answers(old(Abs()), Abs(), u, None)
    {
      if ok {
        order := Listing(pendingTransfers.Keys);
        FireAssetRcvdCallbacks(u, None);
      } else {
        order := GiveUp();
      }
    }
  }

  ghost function Listing(all: set<Uuid>): (order: seq<Uuid>)
    ensures Enumerates(order, all)
  {
    if all == {} then []
    else
      var u :| u in all;
      Listing(all - {u}) + [u]
  }
}
