/** Pull replication: the id lists of the master are fetched prefix by prefix, and the assets this node
    lacks are fetched in batches and stored. Requests are answered in order on one connection. */
module PullReplication {
  import opened Wrappers
  import opened Sequences

  type Id = string

  const LAST_PREFIX := 0xfff

  datatype Step = RsNone | RsIdList | RsRetrieve | RsWait

  /** What became of an id that was queued for the current list. */
  datatype Outcome = Stored | Failed | AlreadyHere

  datatype Config = Config(startAt: nat, batchSize: nat)

  datatype Repl = Repl(
    step: Step,
    prefix: nat,                       // _currentAssetPrefix
    pending: seq<Id>,                  // _pendingAssets
    inProgress: set<Id>,               // _inProgressAssets
    asked: seq<nat>,                   // id list requests in flight, by prefix
    gets: multiset<Id>,                // asset requests in flight
    stores: multiset<Id>,              // asset writes in flight
    timer: bool,                       // _replRestartTimer is running
    index: set<Id>,                    // the existence index
    listed: map<nat, seq<Id>>,         // what the master listed in this round
    failed: set<Id>,                   // ids logged as failed in this round
    queued: seq<Id>,                   // the ids queued from the current list
    outcome: map<Id, Outcome>)         // what became of them

  // ----- Splitting the answer of the master

  /** boost::split on commas. */
  function Split(ids: string): (parts: seq<Id>)
    ensures |parts| > 0
  {
    if ids == "" then [""]
    else
      var rest := Split(ids[1..]);
      if ids[0] == ',' then [""] + rest else [[ids[0]] + rest[0]] + rest[1..]
  }

  function Join(parts: seq<Id>): string
    requires |parts| > 0
  {
    if |parts| == 1 then parts[0] else parts[0] + "," + Join(parts[1..])
  }

  lemma {:induction false} SplitKeepsText(ids: string)
    ensures Join(Split(ids)) == ids && forall p | p in Split(ids) :: ',' !in p
  {
    if ids != "" {
      SplitKeepsText(ids[1..]);
      var rest := Split(ids[1..]);
      var parts := Split(ids);
      if ids[0] == ',' {
        assert parts[1..] == rest;
      } else {
        assert parts[1..] == rest[1..];
        assert Join(parts) == [ids[0]] + Join(rest);
      }
    }
  }

  /** The ids of a list that this node lacks, in list order. */
  function Missing(ids: seq<Id>, index: set<Id>): seq<Id> {
    if ids == [] then []
    else
      var rest := Missing(ids[..|ids| - 1], index);
      var id := ids[|ids| - 1];
      if id != "" && id !in index then rest + [id] else rest
  }

  // ----- Steps of the service

  function AskList(r: Repl): Repl { r.(asked := r.asked + [r.prefix]) }

  /** retrieveNextIdList, with the runStep it ends in. */
  function NextIdList(r: Repl): Repl {
    var next := r.(step := RsIdList, prefix := r.prefix + 1);
    if next.prefix <= LAST_PREFIX then AskList(next) else next.(prefix := 0, step := RsWait, timer := true)
  }

  /** Moves ids from the front of the queue into progress until the batch is full, dropping ids that have
      meanwhile arrived. A batch size of zero never fills. */
  function TakeBatch(r: Repl, size: nat, sent: nat): Repl
    decreases |r.pending|
  {
    if r.pending == [] then r
    else if r.pending[0] in r.index then TakeBatch(SkipFirst(r), size, sent)
    else if sent + 1 == size then StartFirst(r)
    else TakeBatch(StartFirst(r), size, sent + 1)
  }

  /** The id at the front has meanwhile arrived. */
  function SkipFirst(r: Repl): Repl
    requires r.pending != []
  {
    r.(pending := r.pending[1..], outcome := r.outcome[r.pending[0] := AlreadyHere])
  }

  /** The id at the front is requested. */
  function StartFirst(r: Repl): Repl
    requires r.pending != []
  {
    var id := r.pending[0];
    r.(pending := r.pending[1..], inProgress := r.inProgress + {id}, gets := r.gets + multiset{id})
  }

  /** retrieveNextMissingAssetBatch */
  function RetrieveBatch(r: Repl, c: Config): Repl {
    var r' := TakeBatch(r, c.batchSize, 0);
    if r'.gets == r.gets then NextIdList(r') else r'
  }

  /** runStep on a live connection to an unchanged master. In RS_WAIT, due says that the next round may
      start. */
  function RunStep(r: Repl, c: Config, due: bool): Repl {
    match r.step
    case RsNone => BeginRound(r, c)
    case RsIdList => AskList(r)
    case RsRetrieve => RetrieveBatch(r, c)
    case RsWait => if due then BeginRound(r.(step := RsNone), c) else r.(timer := true)
  }

  function BeginRound(r: Repl, c: Config): Repl {
    AskList(r.(prefix := c.startAt, listed := map[], failed := {}, queued := [], outcome := map[]))
  }

  /** onGetStoredAssetIds: an answer, or None for an error that is not fatal. */
  function OnIdList(r: Repl, c: Config, ids: Option<string>): Repl
    requires r.asked != []
  {
    var prefix := r.asked[0];
    var r := r.(asked := r.asked[1..]);
    match ids
    case None => RunStep(r, c, false)
    case Some(text) =>
      var list := Split(text);
      var r := r.(listed := r.listed[prefix := list], queued := [], outcome := map[]);
      if text == "" then NextIdList(r)
      else
        var missing := Missing(list, r.index);
        var r := r.(pending := missing, queued := missing);
        if r.pending == [] then NextIdList(r) else RunStep(r.(step := RsRetrieve), c, false)
  }

  /** The id has its outcome. */
  function Resolved(r: Repl, id: Id, o: Outcome): Repl {
    r.(inProgress := r.inProgress - {id}, outcome := r.outcome[id := o],
       failed := if o == Failed then r.failed + {id} else r.failed)
  }

  function Settle(r: Repl, c: Config, id: Id, o: Outcome): Repl {
    var r := Resolved(r, id, o);
    if r.inProgress == {} then RunStep(r, c, false) else r
  }

  /** onAssetRetrieved: an asset goes on to storage, an error that is not fatal ends its id. */
  function OnAsset(r: Repl, c: Config, id: Id, ok: bool): Repl {
    var r := r.(gets := r.gets - multiset{id});
    if ok then r.(stores := r.stores + multiset{id}) else Settle(r, c, id, Failed)
  }

  /** onAfterAssetStored; a successful store has entered the id into the index. */
  function OnStored(r: Repl, c: Config, id: Id, ok: bool): Repl {
    var r := r.(stores := r.stores - multiset{id}, index := if ok then r.index + {id} else r.index);
    Settle(r, c, id, if ok then Stored else Failed)
  }

  // ----- Runs

  datatype Event =
    | ListArrives(answer: Option<string>)
    | AssetArrives(id: Id, ok: bool)
    | StoreDone(id: Id, ok: bool)
    | OthersStore(ids: set<Id>)
    | RestartTimer(due: bool)

  /** Only what was asked for arrives, and a list names no id twice that this node lacks. */
  ghost predicate Enabled(r: Repl, ev: Event) {
    Expected(r, ev) && (ev.ListArrives? && ev.answer.Some? ==> Distinct(Missing(Split(ev.answer.value), r.index)))
  }

  ghost predicate Expected(r: Repl, ev: Event) {
    match ev
    case ListArrives(answer) => r.asked != []
    case AssetArrives(id, _) => id in r.gets
    case StoreDone(id, _) => id in r.stores
    case OthersStore(_) => true
    case RestartTimer(_) => r.timer
  }

  function Next(r: Repl, c: Config, ev: Event): Repl
    requires ev.ListArrives? ==> r.asked != []
  {
    match ev
    case ListArrives(answer) => OnIdList(r, c, answer)
    case AssetArrives(id, ok) => OnAsset(r, c, id, ok)
    case StoreDone(id, ok) => OnStored(r, c, id, ok)
    case OthersStore(ids) => r.(index := r.index + ids)
    case RestartTimer(due) => RunStep(r.(timer := false), c, due)
  }

  /** A service that has just started and connected, with the ids it holds. */
  function Initial(c: Config, index: set<Id>): Repl {
    BeginRound(Repl(RsNone, 0, [], {}, [], multiset{}, multiset{}, false, index, map[], {}, [], map[]), c)
  }

  ghost predicate IsRun(rs: seq<Repl>, evs: seq<Event>, c: Config, index: set<Id>) {
    && |rs| == |evs| + 1 && rs[0] == Initial(c, index)
    && forall i | 0 <= i < |evs| :: Enabled(rs[i], evs[i]) && rs[i + 1] == Next(rs[i], c, evs[i])
  }

  // ----- Invariants

  /** Every queued id is in exactly one place: waiting, in progress, or done with the outcome it had. */
  ghost predicate Partition(r: Repl) {
    && Distinct(r.pending)
    && (forall id | id in r.pending :: id !in r.inProgress && id !in r.outcome)
    && (forall id | id in r.inProgress :: id !in r.outcome)
    && (forall id :: id in r.queued <==> id in r.pending || id in r.inProgress || id in r.outcome)
    && (forall id | id in r.outcome :: if r.outcome[id].Failed? then id in r.failed else id in r.index)
  }

  /** Every id in progress has exactly one operation in flight. */
  ghost predicate InFlight(r: Repl) {
    forall id :: r.gets[id] + r.stores[id] == if id in r.inProgress then 1 else 0
  }

  ghost predicate Accounted(r: Repl, id: Id) {
    id == "" || id in r.index || id in r.failed || id in r.pending || id in r.inProgress
  }

  /** Every list from the first prefix up to but excluding end has arrived and all its ids are accounted for. */
  ghost predicate Covered(r: Repl, c: Config, end: nat) {
    forall p: nat | c.startAt <= p < end :: p in r.listed && forall id | id in r.listed[p] :: Accounted(r, id)
  }

  ghost predicate Consistent(r: Repl, c: Config, end: nat) {
    Partition(r) && InFlight(r) && Covered(r, c, end)
  }

  ghost predicate Idle(r: Repl) { r.pending == [] && r.inProgress == {} }

  ghost predicate InRange(r: Repl, c: Config) {
    c.startAt <= r.prefix && (r.prefix <= LAST_PREFIX || r.prefix == c.startAt)
  }

  /** One id list is in flight and nothing else. */
  ghost predicate Listing(r: Repl, c: Config) {
    && (r.step.RsIdList? || (r.step.RsNone? && r.prefix == c.startAt)) && InRange(r, c)
    && r.asked == [r.prefix] && Idle(r) && !r.timer && Consistent(r, c, r.prefix)
  }

  /** Assets of the current list are in flight. */
  ghost predicate Fetching(r: Repl, c: Config) {
    && r.step.RsRetrieve? && InRange(r, c)
    && r.asked == [] && r.inProgress != {} && !r.timer && Consistent(r, c, r.prefix + 1)
  }

  function RoundEnd(c: Config): nat { if c.startAt <= LAST_PREFIX then LAST_PREFIX + 1 else c.startAt + 1 }

  /** The round is over and the timer for the next one runs. */
  ghost predicate Waiting(r: Repl, c: Config) {
    r.step.RsWait? && r.asked == [] && Idle(r) && r.timer && Consistent(r, c, RoundEnd(c))
  }

  ghost predicate Inv(r: Repl, c: Config) { Listing(r, c) || Fetching(r, c) || Waiting(r, c) }

  // ----- Each step keeps them

  lemma NextIdListKeepsInv(r: Repl, c: Config)
    requires Consistent(r, c, r.prefix + 1) && Idle(r) && r.asked == [] && !r.timer && InRange(r, c)
    ensures Inv(NextIdList(r), c)
  {}

  /** An id that has meanwhile arrived leaves the queue. */
  lemma SkipKeepsConsistent(r: Repl, c: Config, end: nat)
    requires Consistent(r, c, end) && r.pending != [] && r.pending[0] in r.index
    ensures Consistent(SkipFirst(r), c, end)
  {
    var r1 := SkipFirst(r);
    assert r.pending == [r.pending[0]] + r1.pending;
    assert Covered(r1, c, end);
  }

  /** An id leaves the queue and is requested. */
  lemma SendKeepsConsistent(r: Repl, c: Config, end: nat)
    requires Consistent(r, c, end) && r.pending != []
    ensures Consistent(StartFirst(r), c, end)
  {
    var r1 := StartFirst(r);
    assert r.pending == [r.pending[0]] + r1.pending;
    assert Covered(r1, c, end);
  }

  /** What a batch keeps while it is being taken. */
  lemma {:induction false} TakeBatchKeeps(r: Repl, c: Config, end: nat, size: nat, sent: nat)
    requires Consistent(r, c, end)
    ensures
      var r' := TakeBatch(r, size, sent);
      && Consistent(r', c, end)
      && r' == r.(pending := r'.pending, inProgress := r'.inProgress, gets := r'.gets, outcome := r'.outcome)
      && (if r.pending == [] then r'.pending == [] else |r'.pending| < |r.pending|)
      && |r.gets| <= |r'.gets|
      && (r'.gets == r.gets ==> r'.pending == [] && r'.inProgress == r.inProgress)
      && (r'.gets != r.gets ==> r'.inProgress != {})
    decreases |r.pending|
  {
    hide Consistent;
    if r.pending != [] {
      if r.pending[0] in r.index {
        SkipKeepsConsistent(r, c, end);
        TakeBatchKeeps(SkipFirst(r), c, end, size, sent);
      } else {
        SendKeepsConsistent(r, c, end);
        var r1 := StartFirst(r);
        assert |r1.gets| == |r.gets| + 1;
        if sent + 1 != size { TakeBatchKeeps(r1, c, end, size, sent + 1); }
      }
    }
  }

  lemma RetrieveBatchKeepsInv(r: Repl, c: Config)
    requires Consistent(r, c, r.prefix + 1) && r.inProgress == {} && r.asked == [] && !r.timer && InRange(r, c)
    requires r.step.RsRetrieve?
    ensures Inv(RetrieveBatch(r, c), c)
  {
    hide Consistent;
    TakeBatchKeeps(r, c, r.prefix + 1, c.batchSize, 0);
    var r' := TakeBatch(r, c.batchSize, 0);
    if r'.gets == r.gets { NextIdListKeepsInv(r', c); }
  }

  lemma {:induction false} MissingIsExact(ids: seq<Id>, index: set<Id>)
    ensures forall id :: id in Missing(ids, index) <==> id in ids && id != "" && id !in index
  {
    if ids != [] {
      var rest, id := ids[..|ids| - 1], ids[|ids| - 1];
      assert ids == rest + [id];
      MissingIsExact(rest, index);
    }
  }

  lemma OnIdListKeepsInv(r: Repl, c: Config, answer: Option<string>)
    requires Listing(r, c) && (answer.Some? ==> Distinct(Missing(Split(answer.value), r.index)))
    ensures Inv(OnIdList(r, c, answer), c)
  {
    hide TakeBatch, NextIdList, RetrieveBatch, Inv, Missing, Split;
    assert r.asked[1..] == [];
    match answer
    case None =>
      RepeatedListKeepsInv(r, c);
    case Some(text) =>
      var list := Split(text);
      var missing := Missing(list, r.index);
      MissingIsExact(list, r.index);
      EmptyListHasNone(text, r.index);
      var r1 := r.(asked := [], listed := r.listed[r.prefix := list], queued := [], outcome := map[]);
      var r2 := r1.(pending := missing, queued := missing);
      assert Covered(r2, c, r.prefix + 1);
      if text == "" {
        assert Covered(r1, c, r.prefix + 1);
        NextIdListKeepsInv(r1, c);
      } else if missing == [] {
        NextIdListKeepsInv(r2, c);
      } else {
        RetrieveBatchKeepsInv(r2.(step := RsRetrieve), c);
      }
  }

  /** A list that failed is asked for again. */
  lemma RepeatedListKeepsInv(r: Repl, c: Config)
    requires Listing(r, c)
    ensures Inv(RunStep(r.(asked := []), c, false), c)
  {
    if r.step.RsNone? { BeginRoundKeepsInv(r.(asked := []), c); } else { assert [] + [r.prefix] == [r.prefix]; }
  }

  lemma BeginRoundKeepsInv(r: Repl, c: Config)
    requires r.step.RsNone? && Idle(r) && r.asked == [] && !r.timer && InFlight(r)
    ensures Listing(BeginRound(r, c), c)
  {}

  lemma SettleKeepsInv(r: Repl, c: Config, id: Id, o: Outcome)
    requires r.step.RsRetrieve? && InRange(r, c) && r.asked == [] && !r.timer
    requires Partition(r) && Covered(r, c, r.prefix + 1) && id in r.inProgress
    requires forall x :: r.gets[x] + r.stores[x] == if x in r.inProgress && x != id then 1 else 0
    requires !o.Failed? ==> id in r.index
    ensures Inv(Settle(r, c, id, o), c)
  {
    var r1 := Resolved(r, id, o);
    ResolvedKeepsPartition(r, id, o);
    assert Covered(r1, c, r.prefix + 1) && InFlight(r1);
    hide Partition, Covered, InFlight;
    if r1.inProgress == {} { RetrieveBatchKeepsInv(r1, c); }
  }

  lemma ResolvedKeepsPartition(r: Repl, id: Id, o: Outcome)
    requires Partition(r) && id in r.inProgress && (!o.Failed? ==> id in r.index)
    ensures Partition(Resolved(r, id, o))
  {}

  lemma OnAssetKeepsInv(r: Repl, c: Config, id: Id, ok: bool)
    requires Fetching(r, c) && id in r.gets
    ensures Inv(OnAsset(r, c, id, ok), c)
  {
    var r1 := r.(gets := r.gets - multiset{id});
    assert Covered(r1, c, r.prefix + 1) && Partition(r1);
    if ok {
      assert Covered(r1.(stores := r1.stores + multiset{id}), c, r.prefix + 1);
    } else {
      SettleKeepsInv(r1, c, id, Failed);
    }
  }

  lemma OnStoredKeepsInv(r: Repl, c: Config, id: Id, ok: bool)
    requires Fetching(r, c) && id in r.stores
    ensures Inv(OnStored(r, c, id, ok), c)
  {
    var r1 := r.(stores := r.stores - multiset{id}, index := if ok then r.index + {id} else r.index);
    assert Covered(r1, c, r.prefix + 1) && Partition(r1);
    SettleKeepsInv(r1, c, id, if ok then Stored else Failed);
  }

  lemma StepKeepsInv(r: Repl, c: Config, ev: Event)
    requires Inv(r, c) && Enabled(r, ev)
    ensures Inv(Next(r, c, ev), c)
  {
    match ev
    case ListArrives(answer) => OnIdListKeepsInv(r, c, answer);
    case AssetArrives(id, ok) => OnAssetKeepsInv(r, c, id, ok);
    case StoreDone(id, ok) => OnStoredKeepsInv(r, c, id, ok);
    case OthersStore(ids) =>
      assert forall end: nat | Covered(r, c, end) :: Covered(r.(index := r.index + ids), c, end);
    case RestartTimer(due) =>
      assert Covered(r.(timer := true), c, RoundEnd(c));
      if due { BeginRoundKeepsInv(r.(timer := false, step := RsNone), c); }
  }

  lemma {:induction false} RunsKeepInv(rs: seq<Repl>, evs: seq<Event>, c: Config, index: set<Id>, i: nat)
    requires IsRun(rs, evs, c, index) && i < |rs|
    ensures Inv(rs[i], c)
  {
    if i > 0 {
      RunsKeepInv(rs, evs, c, index, i - 1);
      StepKeepsInv(rs[i - 1], c, evs[i - 1]);
    }
  }

  /** Whenever a run waits for the next round, every id that the master listed under every prefix of the
      round is held by this node or was logged as failed. */
  lemma RoundCompletesEveryList(rs: seq<Repl>, evs: seq<Event>, c: Config, index: set<Id>, i: nat)
    requires IsRun(rs, evs, c, index) && i < |rs| && rs[i].step.RsWait?
    ensures forall p: nat | c.startAt <= p <= LAST_PREFIX :: p in rs[i].listed
              && forall id | id in rs[i].listed[p] && id != "" :: id in rs[i].index || id in rs[i].failed
  {
    RunsKeepInv(rs, evs, c, index, i);
    var r := rs[i];
    assert Covered(r, c, RoundEnd(c));
    forall p: nat | c.startAt <= p <= LAST_PREFIX
      ensures p in r.listed && forall id | id in r.listed[p] && id != "" :: id in r.index || id in r.failed
    {
      assert forall id | id in r.listed[p] :: Accounted(r, id);
    }
  }

  /** At every moment each id queued from the current list is in exactly one of the places it can be. */
  lemma QueuedIdsInOnePlace(rs: seq<Repl>, evs: seq<Event>, c: Config, index: set<Id>, i: nat)
    requires IsRun(rs, evs, c, index) && i < |rs|
    ensures Partition(rs[i]) && InFlight(rs[i])
  {
    RunsKeepInv(rs, evs, c, index, i);
  }

  // ----- The size of a batch

  /** Taking a batch adds at most what it may still send, and stops short of that only when the queue is empty. */
  lemma {:induction false} BatchIsBounded(r: Repl, size: nat, sent: nat)
    requires sent < size && Distinct(r.pending) && forall id | id in r.pending :: id !in r.inProgress
    ensures
      var r' := TakeBatch(r, size, sent);
      && |r'.inProgress| <= |r.inProgress| + (size - sent)
      && (r'.pending != [] ==> |r'.inProgress| == |r.inProgress| + (size - sent))
    decreases |r.pending|
  {
    if r.pending != [] {
      assert r.pending == [r.pending[0]] + r.pending[1..];
      if r.pending[0] in r.index {
        BatchIsBounded(SkipFirst(r), size, sent);
      } else if sent + 1 != size {
        BatchIsBounded(StartFirst(r), size, sent + 1);
      }
    }
  }

  ghost predicate BatchFits(r: Repl, c: Config) { c.batchSize > 0 ==> |r.inProgress| <= c.batchSize }

  lemma RetrieveBatchFits(r: Repl, c: Config)
    requires r.inProgress == {} && Distinct(r.pending)
    ensures BatchFits(RetrieveBatch(r, c), c)
  {
    if c.batchSize > 0 { BatchIsBounded(r, c.batchSize, 0); }
  }

  lemma SettleFits(r: Repl, c: Config, id: Id, o: Outcome)
    requires BatchFits(r, c) && Partition(r) && r.step.RsRetrieve?
    ensures BatchFits(Settle(r, c, id, o), c)
  {
    hide RetrieveBatch;
    var r1 := Resolved(r, id, o);
    if r1.inProgress == {} {
      RetrieveBatchFits(r1, c);
    } else {
      FewerFit(r.inProgress, id);
    }
  }

  lemma FewerFit(ids: set<Id>, id: Id)
    ensures |ids - {id}| <= |ids|
  {
    if id !in ids { assert ids - {id} == ids; }
  }

  lemma StepKeepsBatch(r: Repl, c: Config, ev: Event)
    requires Inv(r, c) && Enabled(r, ev) && BatchFits(r, c)
    ensures BatchFits(Next(r, c, ev), c)
  {
    hide RetrieveBatch, Settle, Split, Missing, Covered, InFlight;
    match ev
    case ListArrives(answer) =>
      if answer.Some? {
        var missing := Missing(Split(answer.value), r.index);
        RetrieveBatchFits(
          r.(asked := r.asked[1..], listed := r.listed[r.asked[0] := Split(answer.value)], pending := missing,
             queued := missing, outcome := map[], step := RsRetrieve), c);
      }
    case AssetArrives(id, ok) =>
      NothingInFlightUnlessFetching(r, c, id);
      if !ok { SettleFits(r.(gets := r.gets - multiset{id}), c, id, Failed); }
    case StoreDone(id, ok) =>
      NothingInFlightUnlessFetching(r, c, id);
      var index := if ok then r.index + {id} else r.index;
      SettleFits(r.(stores := r.stores - multiset{id}, index := index), c, id, if ok then Stored else Failed);
    case OthersStore(_) =>
    case RestartTimer(_) =>
  }

  /** In every run at most a batch of assets is in progress at a time; a batch size of zero sets no bound. */
  lemma {:induction false} BatchesBounded(rs: seq<Repl>, evs: seq<Event>, c: Config, index: set<Id>, i: nat)
    requires IsRun(rs, evs, c, index) && i < |rs| && c.batchSize > 0
    ensures |rs[i].inProgress| <= c.batchSize && |rs[i].gets| + |rs[i].stores| <= c.batchSize
  {
    BatchesFit(rs, evs, c, index, i);
    RunsKeepInv(rs, evs, c, index, i);
    OneOperationEach(rs[i]);
  }

  lemma {:induction false} BatchesFit(rs: seq<Repl>, evs: seq<Event>, c: Config, index: set<Id>, i: nat)
    requires IsRun(rs, evs, c, index) && i < |rs|
    ensures BatchFits(rs[i], c)
  {
    if i > 0 {
      hide BatchFits, Next, Inv, Enabled;
      BatchesFit(rs, evs, c, index, i - 1);
      RunsKeepInv(rs, evs, c, index, i - 1);
      StepKeepsBatch(rs[i - 1], c, evs[i - 1]);
    }
  }

  lemma OneOperationEach(r: Repl)
    requires InFlight(r)
    ensures |r.gets| + |r.stores| == |r.inProgress|
  {
    assert r.gets + r.stores == multiset(r.inProgress);
    assert |r.gets + r.stores| == |multiset(r.inProgress)|;
  }

  // ----- The round ends

  /** Id lists still to arrive before the wait. */
  function ListsLeft(r: Repl): nat {
    var after := if r.prefix <= LAST_PREFIX then LAST_PREFIX - r.prefix else 0;
    match r.step
    case RsWait => 0
    case RsRetrieve => after
    case _ => after + 1
  }

  /** Lexicographic order on lists left, queue, ids in progress and asset requests in flight. */
  ghost predicate Nearer(r: Repl, r0: Repl) {
    || ListsLeft(r) < ListsLeft(r0)
    || (ListsLeft(r) == ListsLeft(r0) &&
        (|| |r.pending| < |r0.pending|
         || (|r.pending| == |r0.pending| &&
             (|| |r.inProgress| < |r0.inProgress|
              || (|r.inProgress| == |r0.inProgress| && |r.gets| < |r0.gets|)))))
  }

  lemma RetrieveBatchIsNearer(r: Repl, c: Config)
    requires Consistent(r, c, r.prefix + 1) && r.inProgress == {} && r.step.RsRetrieve?
    ensures
      var r' := RetrieveBatch(r, c);
      ListsLeft(r') <= ListsLeft(r)
      && (if r.pending == [] then r'.pending == [] && r'.inProgress == {} else |r'.pending| < |r.pending|)
  {
    TakeBatchKeeps(r, c, r.prefix + 1, c.batchSize, 0);
  }

  lemma SettleIsNearer(r: Repl, c: Config, id: Id, o: Outcome)
    requires r.step.RsRetrieve? && InRange(r, c) && r.asked == [] && !r.timer
    requires Partition(r) && Covered(r, c, r.prefix + 1) && id in r.inProgress
    requires forall x :: r.gets[x] + r.stores[x] == if x in r.inProgress && x != id then 1 else 0
    requires !o.Failed? ==> id in r.index
    ensures Nearer(Settle(r, c, id, o), r)
  {
    var r1 := Resolved(r, id, o);
    assert |r1.inProgress| == |r.inProgress| - 1;
    if r1.inProgress == {} {
      ResolvedKeepsPartition(r, id, o);
      assert Covered(r1, c, r.prefix + 1) && InFlight(r1);
      RetrieveBatchIsNearer(r1, c);
    }
  }

  lemma AssetIsNearer(r: Repl, c: Config, id: Id, ok: bool)
    requires Fetching(r, c) && id in r.gets
    ensures Nearer(OnAsset(r, c, id, ok), r)
  {
    var r1 := r.(gets := r.gets - multiset{id});
    assert |r1.gets| == |r.gets| - 1;
    if !ok {
      assert Covered(r1, c, r.prefix + 1) && Partition(r1);
      SettleIsNearer(r1, c, id, Failed);
    }
  }

  lemma StoreIsNearer(r: Repl, c: Config, id: Id, ok: bool)
    requires Fetching(r, c) && id in r.stores
    ensures Nearer(OnStored(r, c, id, ok), r)
  {
    var r1 := r.(stores := r.stores - multiset{id}, index := if ok then r.index + {id} else r.index);
    assert Covered(r1, c, r.prefix + 1) && Partition(r1);
    SettleIsNearer(r1, c, id, if ok then Stored else Failed);
  }

  lemma ListIsNearer(r: Repl, c: Config, text: string)
    requires Listing(r, c) && Distinct(Missing(Split(text), r.index))
    ensures ListsLeft(OnIdList(r, c, Some(text))) < ListsLeft(r)
  {
    hide Split, Missing;
    var list := Split(text);
    var missing := Missing(list, r.index);
    MissingIsExact(list, r.index);
    assert r.asked[1..] == [];
    var r1 := r.(asked := [], listed := r.listed[r.prefix := list], queued := missing, outcome := map[],
                 pending := missing, step := RsRetrieve);
    assert ListsLeft(r1) < ListsLeft(r);
    if text != "" && missing != [] {
      assert Covered(r1, c, r.prefix + 1);
      RetrieveBatchIsNearer(r1, c);
      assert OnIdList(r, c, Some(text)) == RetrieveBatch(r1, c);
    }
  }

  /** Until the wait, something is always in flight. */
  lemma SomethingInFlight(r: Repl, c: Config)
    requires Inv(r, c) && !r.step.RsWait?
    ensures r.asked != [] || (exists id :: id in r.gets) || exists id :: id in r.stores
  {
    if Fetching(r, c) {
      var id :| id in r.inProgress;
      assert r.gets[id] + r.stores[id] == 1;
    }
  }

  /** Until the wait, every list, asset or store that arrives brings the round nearer to its end, and a
      list that failed leaves it where it was. */
  lemma RoundEnds(r: Repl, c: Config, ev: Event)
    requires Inv(r, c) && !r.step.RsWait? && Enabled(r, ev) && !ev.OthersStore?
    ensures
      var r' := Next(r, c, ev);
      if ev == ListArrives(None) then ListsLeft(r') == ListsLeft(r) && Idle(r') && Idle(r) else Nearer(r', r)
  {
    hide Consistent, OnAsset, OnStored;
    match ev
    case AssetArrives(id, ok) =>
      NothingInFlightUnlessFetching(r, c, id);
      AssetIsNearer(r, c, id, ok);
    case StoreDone(id, ok) =>
      NothingInFlightUnlessFetching(r, c, id);
      StoreIsNearer(r, c, id, ok);
    case ListArrives(answer) =>
      if answer.Some? { ListIsNearer(r, c, answer.value); }
    case _ =>
  }

  lemma NothingInFlightUnlessFetching(r: Repl, c: Config, id: Id)
    requires Inv(r, c) && (id in r.gets || id in r.stores)
    ensures Fetching(r, c)
  {
    assert r.gets[id] + r.stores[id] == if id in r.inProgress then 1 else 0;
  }

  // ----- Why a list must not repeat an id that is missing

  lemma {:induction false} CountOfDistinct(ids: seq<Id>, id: Id)
    requires Distinct(ids)
    ensures multiset(ids)[id] == if id in ids then 1 else 0
  {
    if ids != [] {
      var n := |ids| - 1;
      CountOfDistinct(ids[..n], id);
      assert ids == ids[..n] + [ids[n]];
    }
  }

  /** A batch of ids that are all missing moves each copy into a request, and marks its id as in progress. */
  lemma {:induction false} BatchCounts(r: Repl, size: nat, sent: nat, id: Id)
    requires forall x | x in r.pending :: x !in r.index
    ensures
      var r' := TakeBatch(r, size, sent);
      && r'.gets[id] + multiset(r'.pending)[id] == r.gets[id] + multiset(r.pending)[id]
      && (r'.gets[id] > r.gets[id] ==> id in r'.inProgress) && r.inProgress <= r'.inProgress
      && r'.stores == r.stores && r.gets <= r'.gets && (r.pending != [] ==> |r'.gets| > |r.gets|)
    decreases |r.pending|
  {
    if r.pending != [] {
      var r1 := StartFirst(r);
      assert r.pending == [r.pending[0]] + r1.pending;
      if sent + 1 != size {
        BatchCounts(r1, size, sent + 1, id);
      }
    }
  }

  lemma RepeatedIdCounts(ids: seq<Id>) returns (id: Id)
    requires !Distinct(ids)
    ensures multiset(ids)[id] >= 2
  {
    var i, j :| 0 <= i < j < |ids| && ids[i] == ids[j];
    id := ids[i];
    assert ids == ids[..j] + ids[j..];
    assert id in ids[..j] && id in ids[j..];
  }

  /** A missing id that is listed twice is at once in two places, or requested twice. */
  lemma RepeatBreaksPartition(r: Repl, c: Config, text: string)
    requires Listing(r, c) && !Distinct(Missing(Split(text), r.index))
    ensures var r' := OnIdList(r, c, Some(text)); !(Partition(r') && InFlight(r'))
  {
    hide Split, Missing, Covered;
    var list := Split(text);
    var missing := Missing(list, r.index);
    MissingIsExact(list, r.index);
    EmptyListHasNone(text, r.index);
    var r1 := r.(asked := r.asked[1..], listed := r.listed[r.prefix := list], queued := missing, outcome := map[],
                 pending := missing, step := RsRetrieve);
    var r' := TakeBatch(r1, c.batchSize, 0);
    var id := RepeatedIdCounts(missing);
    BatchCounts(r1, c.batchSize, 0, id);
    assert r.gets[id] == 0 && OnIdList(r, c, Some(text)) == r';
    if Partition(r') && InFlight(r') {
      CountOfDistinct(r'.pending, id);
    }
  }

  lemma EmptyListHasNone(text: string, index: set<Id>)
    ensures text == "" ==> Missing(Split(text), index) == []
  {
    assert [""][..0] == [];
  }

  /** A list leaves every queued id in exactly one place and requested once if and only if it names no id twice that
      this node lacks. */
  lemma ListHarmlessIff(r: Repl, c: Config, text: string)
    requires Listing(r, c)
    ensures
      var r' := OnIdList(r, c, Some(text));
      && (Partition(r') && InFlight(r') <==> Distinct(Missing(Split(text), r.index)))
      && (Inv(r', c) <==> Distinct(Missing(Split(text), r.index)))
  {
    hide OnIdList, Missing, Split, Covered, Partition, InFlight;
    if Distinct(Missing(Split(text), r.index)) {
      OnIdListKeepsInv(r, c, Some(text));
    } else {
      RepeatBreaksPartition(r, c, text);
    }
  }

  const LATE := Config(0xffd, 2)

  const S0 := Repl(RsNone, 0xffd, [], {}, [0xffd], multiset{}, multiset{}, false, {}, map[], {}, [], map[])
  const S1 := S0.(step := RsRetrieve, asked := [], inProgress := {"a"}, gets := multiset{"a", "a"},
                  listed := map[0xffd := ["a", "a"]], queued := ["a", "a"])
  const S2 := S1.(gets := multiset{"a"}, stores := multiset{"a"})
  const S3 := S2.(step := RsIdList, prefix := 0xffe, asked := [0xffe], inProgress := {}, stores := multiset{},
                  index := {"a"}, outcome := map["a" := Stored])
  const S4 := S3.(asked := [0xffe, 0xffe], gets := multiset{}, failed := {"a"}, outcome := map["a" := Failed])
  const S5 := S4.(prefix := 0xfff, asked := [0xffe, 0xfff], listed := map[0xffd := ["a", "a"], 0xffe := [""]],
                  queued := [], outcome := map[])
  const S6 := S5.(step := RsWait, prefix := 0, asked := [0xfff], timer := true)

  lemma SplitRepeated()
    ensures Split("a,a") == ["a", "a"] && Split("") == [""]
    ensures Missing(["a", "a"], {}) == ["a", "a"]
  {
    assert "a,a"[1..] == ",a" && ",a"[1..] == "a" && "a"[1..] == "";
    assert [""][1..] == [] && ['a'] + "" == "a";
    assert Split("a") == ["a"];
    assert Split(",a") == ["", "a"];
    assert ["a", "a"][..1] == ["a"] && ["a"][..0] == [];
    assert Missing(["a"], {}) == ["a"];
  }

  lemma BothRequested(r: Repl)
    requires r.pending == ["a", "a"] && r.index == {} && r.inProgress == {} && r.gets == multiset{}
    ensures TakeBatch(r, 2, 0) == r.(pending := [], inProgress := {"a"}, gets := multiset{"a", "a"})
  {
    var r' := r.(pending := ["a"], inProgress := {"a"}, gets := multiset{"a"});
    assert TakeBatch(r', 2, 1) == r'.(
      pending := [], inProgress := {"a"} + {"a"}, gets := multiset{"a"} + multiset{"a"});
    assert r.pending[1..] == ["a"];
  }

  lemma FirstListArrives()
    ensures Next(S0, LATE, ListArrives(Some("a,a"))) == S1
  {
    hide Split, Missing;
    SplitRepeated();
    var r := S1.(gets := multiset{}, inProgress := {}, pending := ["a", "a"]);
    BothRequested(r);
    assert S0.asked[1..] == [] && S0.listed[0xffd := ["a", "a"]] == S1.listed;
  }

  lemma FirstAnswerStored()
    ensures Next(S1, LATE, AssetArrives("a", true)) == S2 && Next(S2, LATE, StoreDone("a", true)) == S3
  {
    assert multiset{"a", "a"} - multiset{"a"} == multiset{"a"};
    assert S2.inProgress - {"a"} == {} && S2.stores - multiset{"a"} == multiset{};
  }

  lemma SecondAnswerRunsAStep()
    ensures Next(S3, LATE, AssetArrives("a", false)) == S4
  {
    assert S3.gets - multiset{"a"} == multiset{} && S3.inProgress - {"a"} == {};
    assert S3.outcome["a" := Failed] == S4.outcome;
  }

  lemma PrefixRunsAhead()
    ensures Next(S4, LATE, ListArrives(Some(""))) == S5
  {
    hide Split;
    SplitRepeated();
    assert S4.asked[1..] == [0xffe];
    assert S4.listed[0xffe := [""]] == S5.listed;
  }

  lemma RoundEndsEarly()
    ensures Next(S5, LATE, ListArrives(Some(""))) == S6
  {
    hide Split;
    SplitRepeated();
    assert S5.asked[1..] == [0xfff];
    assert S5.listed[0xffe := [""]] == S5.listed;
  }

  /** With an id listed twice, its second answer finds nothing in progress and runs a step of its own: the
      next list is asked for twice, the prefix runs ahead of the answers, and the round is declared
      finished with the list of the last prefix still to come. */
  lemma RepeatedIdEndsRoundEarly() returns (rs: seq<Repl>, evs: seq<Event>)
    ensures |rs| == 7 && |evs| == 6 && rs[0] == Initial(LATE, {})
    ensures forall i | 0 <= i < 6 :: Expected(rs[i], evs[i]) && rs[i + 1] == Next(rs[i], LATE, evs[i])
    ensures rs[6].step.RsWait? && LAST_PREFIX !in rs[6].listed && rs[6].asked == [LAST_PREFIX]
  {
    hide Next;
    evs := [ListArrives(Some("a,a")), AssetArrives("a", true), StoreDone("a", true), AssetArrives("a", false),
            ListArrives(Some("")), ListArrives(Some(""))];
    rs := [S0, S1, S2, S3, S4, S5, S6];
    FirstListArrives();
    FirstAnswerStored();
    SecondAnswerRunsAStep();
    PrefixRunsAhead();
    RoundEndsEarly();
  }

  // ----- The object

  /** The parts of the state that only record what happened. */
  datatype Log = Log(listed: map<nat, seq<Id>>, failed: set<Id>, queued: seq<Id>, outcome: map<Id, Outcome>)

  class PullReplicationService {
    const config: Config
    var currentStep: Step
    var currentAssetPrefix: nat
    var pendingAssets: seq<Id>
    var inProgressAssets: set<Id>
    var asked: seq<nat>
    var gets: multiset<Id>
    var stores: multiset<Id>
    var timer: bool
    var existenceIndex: set<Id>
    ghost var log: Log

    ghost function Abs(): Repl
      reads this
    {
      Repl(currentStep, currentAssetPrefix, pendingAssets, inProgressAssets, asked, gets, stores, timer, existenceIndex,
           log.listed, log.failed, log.queued, log.outcome)
    }

    constructor (c: Config, index: set<Id>)
      ensures config == c && Abs() == Initial(c, index)
    {
      config := c;
      currentStep, currentAssetPrefix, pendingAssets, inProgressAssets := RsNone, 0, [], {};
      asked, gets, stores, timer, existenceIndex := [], multiset{}, multiset{}, false, index;
      log := Log(map[], {}, [], map[]);
      new;
      ReplicateStep(false);
    }

    method RetrieveIdListForPrefix()
      modifies this`asked
      ensures Abs() == AskList(old(Abs()))
    {
      asked := asked + [currentAssetPrefix];
    }

    method StartRound()
      requires currentStep.RsNone?
      modifies this
      ensures Abs() == BeginRound(old(Abs()), config)
    {
      currentAssetPrefix := config.startAt;
      log := Log(map[], {}, [], map[]);
      RetrieveIdListForPrefix();
    }

    method ReplicateStep(due: bool)
      modifies this
      ensures Abs() == RunStep(old(Abs()), config, due)
    {
      match currentStep
      case RsNone => StartRound();
      case RsIdList => RetrieveIdListForPrefix();
      case RsRetrieve => RetrieveNextMissingAssetBatch();
      case RsWait =>
        if due {
          currentStep := RsNone;
          StartRound();
        } else {
          timer := true;
        }
    }

    method RetrieveNextIdList()
      modifies this`currentStep, this`currentAssetPrefix, this`asked, this`timer
      ensures Abs() == NextIdList(old(Abs()))
    {
      currentStep := RsIdList;
      currentAssetPrefix := currentAssetPrefix + 1;
      if currentAssetPrefix <= LAST_PREFIX {
        RetrieveIdListForPrefix();
      } else {
        currentAssetPrefix := 0;
        currentStep := RsWait;
        timer := true;
      }
    }

    /** The loop that sends requests until the batch is full. */
    method SendBatch() returns (requestsSent: nat)
      modifies this`pendingAssets, this`inProgressAssets, this`gets, this`log
      ensures Abs() == TakeBatch(old(Abs()), config.batchSize, 0)
      ensures requestsSent == 0 <==> gets == old(gets)
    {
      hide SkipFirst, StartFirst;
      requestsSent := 0;
      while pendingAssets != []
        invariant TakeBatch(Abs(), config.batchSize, requestsSent) == TakeBatch(old(Abs()), config.batchSize, 0)
        invariant |gets| == |old(gets)| + requestsSent && (requestsSent == 0 ==> gets == old(gets))
        decreases |pendingAssets|
      {
        if pendingAssets[0] in existenceIndex {
          SkipNext();
        } else {
          StartNext();
          requestsSent := requestsSent + 1;
          if requestsSent == config.batchSize {
            break;
          }
        }
      }
    }

    method SkipNext()
      requires pendingAssets != []
      modifies this`pendingAssets, this`log
      ensures Abs() == SkipFirst(old(Abs())) && |pendingAssets| < |old(pendingAssets)|
    {
      log := log.(outcome := log.outcome[pendingAssets[0] := AlreadyHere]);
      pendingAssets := pendingAssets[1..];
    }

    method StartNext()
      requires pendingAssets != []
      modifies this`pendingAssets, this`inProgressAssets, this`gets
      ensures Abs() == StartFirst(old(Abs())) && |pendingAssets| < |old(pendingAssets)|
      ensures |gets| == |old(gets)| + 1
    {
      var nextAsset := pendingAssets[0];
      inProgressAssets := inProgressAssets + {nextAsset};
      gets := gets + multiset{nextAsset};
      pendingAssets := pendingAssets[1..];
    }

    method RetrieveNextMissingAssetBatch()
      modifies this
      ensures Abs() == RetrieveBatch(old(Abs()), config)
    {
      hide NextIdList, TakeBatch;
      var requestsSent := SendBatch();
      if requestsSent == 0 {
        RetrieveNextIdList();
      }
    }

    method OnGetStoredAssetIds(answer: Option<string>)
      requires asked != []
      modifies this
      ensures Abs() == OnIdList(old(Abs()), config, answer)
    {
      hide RunStep, NextIdList, Split, Missing;
      ghost var prefix := asked[0];
      asked := asked[1..];
      if answer.None? {
        ReplicateStep(false);
        return;
      }
      var idList := Split(answer.value);
      log := log.(listed := log.listed[prefix := idList], queued := [], outcome := map[]);
      if answer.value == "" {
        RetrieveNextIdList();
        return;
      }
      QueueMissing(idList);
      log := log.(queued := pendingAssets);
      if pendingAssets == [] {
        RetrieveNextIdList();
      } else {
        currentStep := RsRetrieve;
        ReplicateStep(false);
      }
    }

    /** The loop that keeps the ids this node lacks. */
    method QueueMissing(idList: seq<Id>)
      modifies this`pendingAssets
      ensures pendingAssets == Missing(idList, existenceIndex)
    {
      pendingAssets := [];
      for i := 0 to |idList|
        invariant pendingAssets == Missing(idList[..i], existenceIndex)
      {
        assert idList[..i + 1][..i] == idList[..i];
        if idList[i] != "" && idList[i] !in existenceIndex {
          pendingAssets := pendingAssets + [idList[i]];
        }
      }
      assert idList[..|idList|] == idList;
    }

    method FinishId(id: Id, ghost o: Outcome)
      modifies this
      ensures Abs() == Settle(old(Abs()), config, id, o)
    {
      hide RunStep;
      log := log.(failed := if o == Failed then log.failed + {id} else log.failed, outcome := log.outcome[id := o]);
      inProgressAssets := inProgressAssets - {id};
      assert Abs() == Resolved(old(Abs()), id, o);
      if inProgressAssets == {} {
        ReplicateStep(false);
      }
    }

    method OnAssetRetrieved(id: Id, ok: bool)
      modifies this
      ensures Abs() == OnAsset(old(Abs()), config, id, ok)
    {
      gets := gets - multiset{id};
      if ok {
        stores := stores + multiset{id};
      } else {
        FinishId(id, Failed);
      }
    }

    /** The storage backend has entered the id into the index when it reports success. */
    method OnAfterAssetStored(id: Id, success: bool)
      modifies this
      ensures Abs() == OnStored(old(Abs()), config, id, success)
    {
      stores := stores - multiset{id};
      if success {
        existenceIndex := existenceIndex + {id};
      }
      FinishId(id, if success then Stored else Failed);
    }
  }
}
