/** Every mesh search is answered exactly once, and the answer says what the servers reported, in every run in which
    no server is closed again while a search it still has registered is being fetched from another. */
module MeshSearchOnce {
  import opened Wrappers
  import opened Sequences
  import opened MeshAnswers
  import opened MeshSearch

  // ----- The three stages of a search

  /** Waiting for servers: the timer runs and every report so far was negative. */
  ghost predicate Searching(x: Search) {
    && !x.wasFound && x.foundServer.None? && x.queried != {} && x.timer && x.answers == []
    && !x.timedOut && x.confirmed == {} && x.queried == x.asked - x.denied
  }

  /** Waiting for the asset from the server that has it. */
  ghost predicate Fetching(x: Search) {
    && x.full && x.wasFound && x.foundServer.Some? && x.queried == {} && !x.timer && x.answers == []
    && !x.timedOut && x.confirmed == {x.foundServer.value}
  }

  /** A positive answer needs a server that confirmed. A negative one means that no server confirmed and
      every server asked denied or the time ran out, or that the confirmed transfer brought nothing. */
  ghost predicate Truthful(x: Search, a: Answer) {
    match a
    case Exists => !x.full && x.confirmed != {}
    case Found(_) => x.full && x.confirmed != {}
    case NotFound => if x.confirmed == {} then x.timedOut || x.asked <= x.denied else x.full && x.wasFound
  }

  ghost predicate Answered(x: Search) {
    x.queried == {} && !x.timer && |x.answers| == 1 && Truthful(x, x.answers[0])
  }

  ghost predicate InStage(m: Mesh, q: SearchId)
    requires q in m.searches
  {
    var x := m.searches[q];
    if q !in m.active then Answered(x) else if x.wasFound then Fetching(x) else Searching(x)
  }

  /** A search waits for a transfer exactly at the server that found its asset. */
  ghost predicate OwedWhereFound(m: Mesh, q: SearchId)
    requires q in m.searches
  {
    var x := m.searches[q];
    && (x.foundServer.Some? ==> x.foundServer.value in m.owed)
    && forall s | s in m.owed :: q in m.owed[s] <==> (q in m.active && x.wasFound && x.foundServer == Some(s))
  }

  /** A connected server has a search registered exactly when the search waits for it; server r has still
      registered the searches it has just told. */
  ghost predicate RegisteredExactly(m: Mesh, q: SearchId, r: ServerId, told: set<SearchId>)
    requires q in m.searches
  {
    var x := m.searches[q];
    && x.queried <= m.up
    && (q in told ==> r !in x.queried)
    && forall s | s in m.up :: (s, q) in m.registered <==> (s in x.queried || (s == r && q in told))
  }

  ghost predicate SettledAt(m: Mesh, q: SearchId, r: ServerId, told: set<SearchId>)
    requires q in m.searches
  {
    InStage(m, q) && OwedWhereFound(m, q) && RegisteredExactly(m, q, r, told)
  }

  ghost predicate OwedOnce(m: Mesh) {
    && (forall s | s in m.owed :: Distinct(m.owed[s]))
    && (forall s | s in m.owed && s !in m.up :: m.owed[s] == [])
  }

  ghost predicate References(m: Mesh) {
    && (forall s, q | s in m.owed && q in m.owed[s] :: q in m.searches)
    && (forall s, q | (s, q) in m.registered :: q in m.searches && s in m.owed)
    && m.posted == [] && m.active <= m.searches.Keys && m.up <= m.owed.Keys
  }

  ghost predicate Settled(m: Mesh, r: ServerId, told: set<SearchId>) {
    References(m) && OwedOnce(m) && forall q | q in m.searches :: SettledAt(m, q, r, told)
  }

  lemma TouchKeepsSettled(m: Mesh, m': Mesh, q: SearchId, r: ServerId, told: set<SearchId>, told': set<SearchId>)
    requires Settled(m, r, told) && Touches(m, m', q) && q in m.searches
    requires (forall p | p != q :: p in told <==> p in told')
    requires SettledAt(m', q, r, told') && OwedOnce(m') && m'.posted == []
    ensures Settled(m', r, told')
  {
    forall p | p in m'.searches ensures SettledAt(m', p, r, told') {
      if p != q {
        assert SettledAt(m, p, r, told);
      }
    }
  }

  lemma SettledForAnyReporter(m: Mesh, r: ServerId, r': ServerId)
    requires Settled(m, r, {})
    ensures Settled(m, r', {})
  {
    forall q | q in m.searches ensures SettledAt(m, q, r', {}) { assert SettledAt(m, q, r, {}); }
  }

  // ----- Reports

  function Members(order: seq<SearchId>): set<SearchId> {
    set q | q in order
  }

  lemma NegativeReportSettlesQ(m: Mesh, s: ServerId, q: SearchId, told: set<SearchId>)
    requires Settled(m, s, told) && s in m.up && q in m.searches && q in m.active && s in m.searches[q].queried
    ensures SettledAt(OnSearchResult(m, s, q, false), q, s, told + {q})
  {
    assert SettledAt(m, q, s, told);
    var m' := OnSearchResult(m, s, q, false);
    assert RegisteredExactly(m', q, s, told + {q});
  }

  lemma PositiveReportSettlesQ(m: Mesh, s: ServerId, q: SearchId, told: set<SearchId>)
    requires Settled(m, s, told) && s in m.up && q in m.searches && q in m.active && s in m.searches[q].queried
    ensures SettledAt(OnSearchResult(m, s, q, true), q, s, told + {q})
    ensures OwedOnce(OnSearchResult(m, s, q, true)) && OnSearchResult(m, s, q, true).posted == []
  {
    assert SettledAt(m, q, s, told);
    var m' := OnSearchResult(m, s, q, true);
    assert RegisteredExactly(m', q, s, told + {q});
  }

  lemma RegisteredIsWaitedFor(m: Mesh, s: ServerId, q: SearchId, told: set<SearchId>)
    requires Settled(m, s, told) && s in m.up && q in m.searches && q !in told && (s, q) in m.registered
    ensures q in m.active && s in m.searches[q].queried
  {
    assert SettledAt(m, q, s, told);
  }

  lemma OnSearchResultKeepsSettled(m: Mesh, s: ServerId, q: SearchId, found: bool, told: set<SearchId>)
    requires Settled(m, s, told) && s in m.up && q in m.searches && q !in told && (s, q) in m.registered
    ensures q in m.active && Settled(OnSearchResult(m, s, q, found), s, told + {q})
    ensures
      var m' := OnSearchResult(m, s, q, found);
      && m'.up == m.up && (!found ==> m'.owed == m.owed)
      && (forall t, p | p != q :: (t, p) in m'.registered <==> (t, p) in m.registered)
  {
    RegisteredIsWaitedFor(m, s, q, told);
    OnSearchResultTouches(m, s, q, found);
    if found { PositiveReportSettlesQ(m, s, q, told); } else { NegativeReportSettlesQ(m, s, q, told); }
    TouchKeepsSettled(m, OnSearchResult(m, s, q, found), q, s, told, told + {q});
  }

  lemma {:induction false} NotifyKeepsSettled(m: Mesh, s: ServerId, order: seq<SearchId>, found: bool)
    requires Settled(m, s, {}) && s in m.up && Distinct(order) && s in m.owed
    requires forall q | q in order :: q in m.searches && (s, q) in m.registered
    ensures
      var m' := Notify(m, s, order, found);
      && Settled(m', s, Members(order)) && m'.up == m.up
      && (forall t, p | p !in order :: (t, p) in m'.registered <==> (t, p) in m.registered)
      && (!found ==> m'.owed == m.owed)
  {
    hide OnSearchResult, Settled;
    if order == [] {
      assert Members(order) == {};
    } else {
      var rest, last := order[..|order| - 1], order[|order| - 1];
      NotifyKeepsSettled(m, s, rest, found);
      var m1 := Notify(m, s, rest, found);
      OnSearchResultKeepsSettled(m1, s, last, found, Members(rest));
      assert order == rest + [last];
      assert Members(order) == Members(rest) + {last};
    }
  }

  lemma PostResponseKeepsSettled(m: Mesh, s: ServerId, u: Uuid, order: seq<SearchId>, found: bool)
    requires Settled(m, s, {}) && s in m.up && s in m.owed && Enumerates(order, Listeners(m, s, u))
    ensures Settled(PostResponse(m, s, order, found), s, {})
  {
    NotifyKeepsSettled(m, s, order, found);
    var told := Members(order);
    var m1, m' := Notify(m, s, order, found), PostResponse(m, s, order, found);
    forall q | q in m'.searches ensures SettledAt(m', q, s, {}) {
      assert SettledAt(m1, q, s, told);
      assert RegisteredExactly(m', q, s, {});
    }
  }

  // ----- Transfers, timeouts, new searches and closed connections

  lemma AnswerTransferKeepsSettled(m: Mesh, s: ServerId, asset: Option<AssetData>, r: ServerId)
    requires Settled(m, r, {}) && s in m.owed && m.owed[s] != []
    ensures Settled(AnswerTransfer(m, s, asset), r, {})
  {
    var q := m.owed[s][0];
    assert SettledAt(m, q, r, {});
    var m' := AnswerTransfer(m, s, asset);
    assert SettledAt(m', q, r, {});
    TouchKeepsSettled(m, m', q, r, {}, {});
  }

  lemma {:induction false} DrainKeepsSettled(m: Mesh, s: ServerId, r: ServerId)
    requires Settled(m, r, {}) && s in m.owed
    ensures Settled(DrainTransfers(m, s), r, {}) && DrainTransfers(m, s).owed[s] == []
    decreases |m.owed[s]|
  {
    if m.owed[s] != [] {
      AnswerTransferKeepsSettled(m, s, None, r);
      DrainKeepsSettled(AnswerTransfer(m, s, None), s, r);
    }
  }

  /** A server that owes nothing and has told every search it has registered goes down. */
  lemma DownKeepsSettled(m: Mesh, s: ServerId, told: set<SearchId>)
    requires Settled(m, s, told) && s in m.up && s in m.owed && m.owed[s] == []
    requires forall q | q in m.searches && (s, q) in m.registered :: q in told
    ensures Settled(m.(up := m.up - {s}), s, {})
  {
    var m' := m.(up := m.up - {s});
    forall q | q in m'.searches ensures SettledAt(m', q, s, {}) {
      assert SettledAt(m, q, s, told);
      assert s !in m.searches[q].queried;
    }
  }

  lemma CloseKeepsSettled(m: Mesh, s: ServerId, order: seq<SearchId>)
    requires Settled(m, s, {}) && s in m.up && s in m.owed && Enumerates(order, AllListeners(m, s))
    ensures Settled(Close(m, s, order), s, {})
  {
    assert forall q | q in m.owed[s] :: q in m.searches;
    hide Settled, Notify, DrainTransfers;
    DrainKeepsSettled(m, s, s);
    var drained := DrainTransfers(m, s);
    NotifyKeepsSettled(drained, s, order, false);
    DownKeepsSettled(Notify(drained, s, order, false), s, Members(order));
  }

  lemma PerformSearchKeepsSettled(m: Mesh, q: SearchId, u: Uuid, full: bool, servers: set<ServerId>, r: ServerId)
    requires Settled(m, r, {}) && q !in m.searches && servers <= m.up
    ensures Settled(PerformSearch(m, q, u, full, servers), r, {})
  {
    var m' := PerformSearch(m, q, u, full, servers);
    forall p | p in m'.searches ensures SettledAt(m', p, r, {}) {
      if p != q { assert SettledAt(m, p, r, {}); }
    }
  }

  lemma OnTimeoutKeepsSettled(m: Mesh, q: SearchId, r: ServerId)
    requires Settled(m, r, {}) && q in m.searches && q in m.active && m.searches[q].timer
    ensures Settled(OnTimeout(m, q), r, {})
  {
    assert SettledAt(m, q, r, {});
    var m' := OnTimeout(m, q);
    assert RegisteredExactly(m', q, r, {});
    TouchKeepsSettled(m, m', q, r, {}, {});
  }

  lemma NothingPosted(m: Mesh, r: ServerId)
    requires Settled(m, r, {})
    ensures m.posted == []
  {}

  lemma ConnectKeepsSettled(m: Mesh, s: ServerId, r: ServerId)
    requires Settled(m, r, {}) && s !in m.owed
    ensures Settled(m.(up := m.up + {s}, owed := m.owed[s := []]), r, {})
  {
    var m' := m.(up := m.up + {s}, owed := m.owed[s := []]);
    forall q | q in m'.searches ensures SettledAt(m', q, r, {}) { assert SettledAt(m, q, r, {}); }
  }

  // ----- A server closed a second time

  /** A late negative report leaves a search that is still waiting for other servers as it was. */
  lemma LateReportIgnored(m: Mesh, s: ServerId, q: SearchId)
    requires Settled(m, s, {}) && s in m.owed && s !in m.up
    requires q in m.searches && q in m.active && !m.searches[q].wasFound
    ensures Settled(OnSearchResult(m, s, q, false), s, {})
    ensures OnSearchResult(m, s, q, false).active == m.active && OnSearchResult(m, s, q, false).up == m.up
    ensures OnSearchResult(m, s, q, false).owed == m.owed
    ensures forall p | p in m.searches :: OnSearchResult(m, s, q, false).searches[p].wasFound == m.searches[p].wasFound
  {
    assert SettledAt(m, q, s, {});
    var m' := OnSearchResult(m, s, q, false);
    assert m'.searches[q].queried == m.searches[q].queried;
    OnSearchResultTouches(m, s, q, false);
    TouchKeepsSettled(m, m', q, s, {}, {});
  }

  lemma {:induction false} LateReportsIgnored(m: Mesh, s: ServerId, order: seq<SearchId>)
    requires Settled(m, s, {}) && s in m.owed && s !in m.up
    requires forall q | q in order :: q in m.searches && (q in m.active ==> !m.searches[q].wasFound)
    ensures
      var m' := Notify(m, s, order, false);
      && Settled(m', s, {}) && m'.active == m.active && m'.up == m.up && m'.owed == m.owed
      && forall p | p in m.searches :: m'.searches[p].wasFound == m.searches[p].wasFound
  {
    hide Settled, OnSearchResult;
    if order != [] {
      var rest, last := order[..|order| - 1], order[|order| - 1];
      LateReportsIgnored(m, s, rest);
      var m1 := Notify(m, s, rest, false);
      if last in m1.active { LateReportIgnored(m1, s, last); }
    }
  }

  /** A late negative report finishes a search that waits for no server. */
  lemma {:induction false} LateReportFinishes(m: Mesh, s: ServerId, order: seq<SearchId>, q: SearchId)
    requires s in m.owed && (forall p | p in order :: p in m.searches)
    requires q in order && m.searches[q].queried == {}
    ensures
      var m' := Notify(m, s, order, false);
      q !in m'.active && m'.owed == m.owed && m'.searches[q].queried == {}
  {
    var rest, last := order[..|order| - 1], order[|order| - 1];
    var m1 := Notify(m, s, rest, false);
    assert order == rest + [last];
    if q in rest {
      LateReportFinishes(m, s, rest, q);
    } else {
      NotifySparesOthers(m, s, rest, q);
    }
    if last in m1.active { OnSearchResultTouches(m1, s, last, false); }
  }

  lemma {:induction false} NotifySparesOthers(m: Mesh, s: ServerId, order: seq<SearchId>, q: SearchId)
    requires s in m.owed && (forall p | p in order :: p in m.searches) && q in m.searches && q !in order
    ensures Notify(m, s, order, false).searches[q] == m.searches[q] && Notify(m, s, order, false).owed == m.owed
  {
    if order != [] {
      var rest, last := order[..|order| - 1], order[|order| - 1];
      assert order == rest + [last];
      NotifySparesOthers(m, s, rest, q);
      var m1 := Notify(m, s, rest, false);
      if last in m1.active { OnSearchResultTouches(m1, s, last, false); }
    }
  }

  /** Closing a closed server again is harmless if and only if none of the searches it still has registered
      is being fetched from another server. */
  lemma SecondCloseHarmlessIff(m: Mesh, s: ServerId, order: seq<SearchId>)
    requires Settled(m, s, {}) && s in m.owed && s !in m.up && Enumerates(order, AllListeners(m, s))
    ensures Settled(Close(m, s, order), s, {}) <==> NoneFetched(m, s)
  {
    assert m.owed[s] == [] && DrainTransfers(m, s) == m;
    assert m.up - {s} == m.up;
    var m1, m' := Notify(m, s, order, false), Close(m, s, order);
    if q :| q in m.searches && (s, q) in m.registered && q in m.active && m.searches[q].wasFound {
      assert SettledAt(m, q, s, {});
      assert q in m.owed[m.searches[q].foundServer.value];
      LateReportFinishes(m, s, order, q);
      assert !OwedWhereFound(m', q);
    } else {
      LateReportsIgnored(m, s, order);
      assert m' == m1;
    }
  }

  // ----- Runs

  lemma StepKeepsSettled(m: Mesh, ev: Event)
    requires Settled(m, 0, {}) && Enabled(m, ev) && Quiet(m, ev)
    ensures Settled(Next(m, ev), 0, {})
  {
    hide Settled;
    match ev
    case Connect(s) => ConnectKeepsSettled(m, s, 0);
    case Start(q, u, full, servers) => PerformSearchKeepsSettled(m, q, u, full, servers, 0);
    case Response(s, u, found, order) =>
      SettledForAnyReporter(m, 0, s);
      PostResponseKeepsSettled(m, s, u, order, found);
      SettledForAnyReporter(Next(m, ev), s, 0);
    case Timeout(q) => OnTimeoutKeepsSettled(m, q, 0);
    case TransferDone(s, asset) => AnswerTransferKeepsSettled(m, s, asset, 0);
    case PostedRuns => NothingPosted(m, 0);
    case Closed(s, order) =>
      SettledForAnyReporter(m, 0, s);
      if s in m.up { CloseKeepsSettled(m, s, order); } else { SecondCloseHarmlessIff(m, s, order); }
      SettledForAnyReporter(Next(m, ev), s, 0);
  }

  // ----- Main results

  lemma {:induction false} QuietRunsStaySettled(ms: seq<Mesh>, evs: seq<Event>, i: nat)
    requires IsRun(ms, evs) && i < |ms| && forall k | 0 <= k < i :: Quiet(ms[k], evs[k])
    ensures Settled(ms[i], 0, {})
  {
    if i > 0 {
      QuietRunsStaySettled(ms, evs, i - 1);
      StepKeepsSettled(ms[i - 1], evs[i - 1]);
    }
  }

  /** The asset that a transfer brings ends the search that has waited longest for one from that server: it is given
      that asset, or null if the transfer brought nothing, and never anything else. */
  lemma AssetGivenForGood(ms: seq<Mesh>, evs: seq<Event>, k: nat, i: nat)
    requires IsRun(ms, evs) && k < i < |ms| && evs[k].TransferDone? && forall j | 0 <= j < i :: Quiet(ms[j], evs[j])
    ensures Enabled(ms[k], evs[k])
    ensures
      var q := ms[k].owed[evs[k].server][0];
      && q in ms[k].active && ms[k].searches[q].full && ms[k].searches[q].foundServer == Some(evs[k].server)
      && q in ms[i].searches && q !in ms[i].active
      && ms[i].searches[q].answers == match evs[k].asset case Some(a) => [Found(a)] case None => [NotFound]
  {
    var m, ev := ms[k], evs[k];
    var q := m.owed[ev.server][0];
    QuietRunsStaySettled(ms, evs, k);
    assert SettledAt(m, q, 0, {});
    StepGives(m, ev, q);
    AssetEnds(m, ev.server, ev.asset);
    FinishedForGood(ms, evs, k + 1, i, q);
    QuietRunsStaySettled(ms, evs, i);
    assert SettledAt(ms[i], q, 0, {});
  }

  lemma AssetEnds(m: Mesh, s: ServerId, asset: Option<AssetData>)
    requires Enabled(m, TransferDone(s, asset))
    ensures m.owed[s][0] !in Next(m, TransferDone(s, asset)).active
  {
  }

  /** An asset that a search was given came in the transfer from the server that found it. */
  lemma FoundCameFromFinder(ms: seq<Mesh>, evs: seq<Event>, i: nat, q: SearchId, a: AssetData)
    requires IsRun(ms, evs) && i < |ms| && forall k | 0 <= k < i :: Quiet(ms[k], evs[k])
    requires q in ms[i].searches && Found(a) in ms[i].searches[q].answers
    ensures ms[i].searches[q].foundServer.Some?
    ensures exists k | 0 <= k < i :: Brings(ms[k], evs[k], ms[i].searches[q].foundServer.value, q, a)
  {
    var k := FoundWasBrought(ms, evs, i, q, a);
    QuietRunsStaySettled(ms, evs, k);
    assert SettledAt(ms[k], q, 0, {});
    AssetEnds(ms[k], evs[k].server, evs[k].asset);
    assert ms[k + 1].searches[q].foundServer == Some(evs[k].server);
    FinishedForGood(ms, evs, k + 1, i, q);
    assert Brings(ms[k], evs[k], ms[i].searches[q].foundServer.value, q, a);
  }

  /** A search is active exactly until its callback has been called, the callback is called once, and what
      it is told is true: an asset it is given is the one brought by the transfer from the server that found it. A
      search that is still active can be answered: its timer runs, or the server that found the asset owes it a
      transfer. */
  lemma AnsweredExactlyOnce(ms: seq<Mesh>, evs: seq<Event>, i: nat, q: SearchId)
    requires IsRun(ms, evs) && i < |ms| && forall k | 0 <= k < i :: Quiet(ms[k], evs[k])
    requires q in ms[i].searches
    ensures
      var m := ms[i];
      var x := m.searches[q];
      && |x.answers| == (if q in m.active then 0 else 1)
      && (forall a | a in x.answers :: Truthful(x, a))
      && (q in m.active ==> Enabled(m, Timeout(q)) || exists s :: s in m.up && s in m.owed && q in m.owed[s])
    ensures
      var x := ms[i].searches[q];
      forall a | Found(a) in x.answers ::
        x.foundServer.Some? && exists k | 0 <= k < i :: Brings(ms[k], evs[k], x.foundServer.value, q, a)
  {
    forall a | Found(a) in ms[i].searches[q].answers
      ensures ms[i].searches[q].foundServer.Some?
      ensures exists k | 0 <= k < i :: Brings(ms[k], evs[k], ms[i].searches[q].foundServer.value, q, a)
    {
      FoundCameFromFinder(ms, evs, i, q, a);
    }
    OneAnswer(ms, evs, i, q);
  }

  lemma OneAnswer(ms: seq<Mesh>, evs: seq<Event>, i: nat, q: SearchId)
    requires IsRun(ms, evs) && i < |ms| && forall k | 0 <= k < i :: Quiet(ms[k], evs[k])
    requires q in ms[i].searches
    ensures
      var m := ms[i];
      var x := m.searches[q];
      && |x.answers| == (if q in m.active then 0 else 1)
      && (forall a | a in x.answers :: Truthful(x, a))
      && (q in m.active ==> Enabled(m, Timeout(q)) || exists s :: s in m.up && s in m.owed && q in m.owed[s])
  {
    QuietRunsStaySettled(ms, evs, i);
    var m := ms[i];
    assert SettledAt(m, q, 0, {});
    if q in m.active && m.searches[q].wasFound {
      var s := m.searches[q].foundServer.value;
      assert q in m.owed[s];
    }
  }

  /** When no timer runs and no transfer is owed, every search ever made has been answered exactly once. */
  lemma NothingPendingNothingUnanswered(ms: seq<Mesh>, evs: seq<Event>, i: nat)
    requires IsRun(ms, evs) && i < |ms| && forall k | 0 <= k < i :: Quiet(ms[k], evs[k])
    requires forall q | q in ms[i].searches :: !ms[i].searches[q].timer
    requires forall s | s in ms[i].owed :: ms[i].owed[s] == []
    ensures ms[i].active == {}
    ensures forall q | q in ms[i].searches :: |ms[i].searches[q].answers| == 1
  {
    var m := ms[i];
    QuietRunsStaySettled(ms, evs, i);
    forall q | q in m.searches ensures q !in m.active && |m.searches[q].answers| == 1 {
      AnsweredExactlyOnce(ms, evs, i, q);
    }
  }

  // ----- What a second close can do

  const AT_START := Search("a", true, {1, 2}, false, None, true, [], {1, 2}, {}, {}, false)
  const FETCHED := AT_START.(
    queried := {}, denied := {2}, confirmed := {1}, timer := false, wasFound := true, foundServer := Some(1))
  const IDLE: map<ServerId, seq<SearchId>> := map[1 := [], 2 := []]

  const ASKED := Mesh({1, 2}, map[0 := AT_START], {0}, {(1, 0), (2, 0)}, IDLE, [])
  const ONE_CLOSED := Mesh({1}, map[0 := AT_START.(queried := {1}, denied := {2})], {0}, {(1, 0), (2, 0)}, IDLE, [])
  const OTHER_FOUND := Mesh({1}, map[0 := FETCHED], {0}, {(2, 0)}, IDLE[1 := [0]], [])
  const CLOSED_AGAIN := Mesh({1}, map[0 := FETCHED.(answers := [NotFound])], {}, {(2, 0)}, IDLE[1 := [0]], [])
  const DELIVERED := Mesh({1}, map[0 := FETCHED.(answers := [NotFound, Found([])])], {}, {(2, 0)}, IDLE, [])

  lemma NotifyOne(m: Mesh, s: ServerId, q: SearchId, found: bool)
    requires s in m.owed && q in m.searches
    ensures Notify(m, s, [q], found) == if q in m.active then OnSearchResult(m, s, q, found) else m
  {
    assert [q][..0] == [];
  }

  lemma FirstClose()
    ensures Enabled(ASKED, Closed(2, [0])) && Next(ASKED, Closed(2, [0])) == ONE_CLOSED
  {
    NotifyOne(ASKED, 2, 0, false);
    assert AT_START.queried - {2} == {1};
    assert OnSearchResult(ASKED, 2, 0, false).searches[0] == ONE_CLOSED.searches[0];
    var m' := Next(ASKED, Closed(2, [0]));
    assert m'.up == ONE_CLOSED.up && m'.searches == ONE_CLOSED.searches;
  }

  lemma OtherServerFinds()
    ensures Enabled(ONE_CLOSED, Response(1, "a", true, [0]))
    ensures Next(ONE_CLOSED, Response(1, "a", true, [0])) == OTHER_FOUND
  {
    NotifyOne(ONE_CLOSED, 1, 0, true);
    var m' := OnSearchResult(ONE_CLOSED, 1, 0, true);
    assert m'.searches[0] == FETCHED;
    assert m'.registered == {(1, 0), (2, 0)};
    assert m'.registered - (set q | q in [0] :: (1, q)) == {(2, 0)};
    assert m'.searches == OTHER_FOUND.searches && m'.owed[1] == [0] && m'.owed == OTHER_FOUND.owed;
  }

  lemma SecondClose()
    ensures Enabled(OTHER_FOUND, Closed(2, [0])) && Next(OTHER_FOUND, Closed(2, [0])) == CLOSED_AGAIN
  {
    NotifyOne(OTHER_FOUND, 2, 0, false);
    assert OnSearchResult(OTHER_FOUND, 2, 0, false).searches[0] == CLOSED_AGAIN.searches[0];
  }

  lemma AssetArrives()
    ensures Enabled(CLOSED_AGAIN, TransferDone(1, Some([])))
    ensures Next(CLOSED_AGAIN, TransferDone(1, Some([]))) == DELIVERED
  {
    assert CLOSED_AGAIN.owed[1][1..] == [] && CLOSED_AGAIN.owed[1 := []] == IDLE;
    var m' := Next(CLOSED_AGAIN, TransferDone(1, Some([])));
    assert m'.searches[0].answers == [NotFound, Found([])] && m'.searches == DELIVERED.searches;
  }

  lemma SearchBegins()
    ensures
      var m1 := Mesh({1}, map[], {}, {}, map[1 := []], []);
      var m2 := Mesh({1, 2}, map[], {}, {}, IDLE, []);
      && Next(EMPTY, Connect(1)) == m1 && Next(m1, Connect(2)) == m2
      && Next(m2, Start(0, "a", true, {1, 2})) == ASKED
  {
    assert Pairs({1, 2}, 0) == {(1, 0), (2, 0)};
  }

  /** close() keeps its registrations, so a second close() of the same server, which the loss of its query
      connection brings about, answers a search whose asset is already being fetched elsewhere; the
      arrival of the asset then answers it again. */
  lemma SecondCloseAnswersTwice() returns (ms: seq<Mesh>, evs: seq<Event>)
    ensures IsRun(ms, evs) && |evs| == 7 && !Quiet(ms[5], evs[5])
    ensures 0 in ms[7].searches && ms[7].searches[0].answers == [NotFound, Found([])]
  {
    hide Next;
    evs := [Connect(1), Connect(2), Start(0, "a", true, {1, 2}), Closed(2, [0]), Response(1, "a", true, [0]),
            Closed(2, [0]), TransferDone(1, Some([]))];
    ms := [EMPTY, Mesh({1}, map[], {}, {}, map[1 := []], []), Mesh({1, 2}, map[], {}, {}, IDLE, []),
           ASKED, ONE_CLOSED, OTHER_FOUND, CLOSED_AGAIN, DELIVERED];
    SearchBegins();
    FirstClose();
    OtherServerFinds();
    SecondClose();
    AssetArrives();
  }
}
