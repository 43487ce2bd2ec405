/** What each event tells each search, and which event every answer of a run came from. */
module MeshAnswers {
  import opened Wrappers
  import opened Sequences
  import opened MeshSearch

  /** What an event adds to the answers of a search. A transfer gives the asset it brought to the search that has
      waited longest at that server; a closed server gives null once for every transfer it owed. */
  ghost function Given(m: Mesh, ev: Event, q: SearchId): seq<Answer>
    requires Enabled(m, ev) && q in m.searches
  {
    var x := m.searches[q];
    match ev
    case Connect(_) => []
    case Start(_, _, _, _) => []
    case Response(s, _, found, order) =>
      if q !in order || q !in m.active then []
      else if found then (if x.full then [] else [Exists])
      else if x.queried <= {s} then [NotFound]
      else []
    case Timeout(p) => if p == q && !x.wasFound then [NotFound] else []
    case TransferDone(s, Some(a)) => if x.full && m.owed[s][0] == q then [Found(a)] else []
    case TransferDone(s, None) => if x.full && m.owed[s][0] == q then [NotFound] else []
    case PostedRuns => if x.full && m.posted[0] == q then [NotFound] else []
    case Closed(s, order) =>
      if q in m.owed[s] then (if x.full then Nulls(multiset(m.owed[s])[q]) else [])
      else if q in order && q in m.active && x.queried <= {s} then [NotFound]
      else []
  }

  function Nulls(n: nat): seq<Answer> { seq(n, _ => NotFound) }

  // ----- Reports

  lemma ReportGives(m: Mesh, s: ServerId, q: SearchId, found: bool)
    requires q in m.searches && s in m.owed
    ensures
      var x, x' := m.searches[q], OnSearchResult(m, s, q, found).searches[q];
      x'.answers == x.answers + (if found then (if x.full then [] else [Exists])
                                 else if x.queried <= {s} then [NotFound] else [])
  {
    assert m.searches[q].queried - {s} == {} <==> m.searches[q].queried <= {s};
  }

  /** A report concerns the searches it is made to, each once, if they are active. */
  lemma {:induction false} NotifyAt(m: Mesh, s: ServerId, order: seq<SearchId>, found: bool, q: SearchId)
    requires s in m.owed && (forall p :: p in order ==> p in m.searches) && Distinct(order) && q in m.searches
    ensures
      var m' := Notify(m, s, order, found);
      && (q !in order ==> m'.searches[q] == m.searches[q] && (q in m'.active <==> q in m.active))
      && (q in order && q !in m.active ==> m'.searches[q] == m.searches[q] && q !in m'.active)
      && (q in order && q in m.active ==> m'.searches[q] == OnSearchResult(m, s, q, found).searches[q])
  {
    if order != [] {
      var rest, last := order[..|order| - 1], order[|order| - 1];
      assert order == rest + [last];
      NotifyAt(m, s, rest, found, q);
      var m1 := Notify(m, s, rest, found);
      if last in m1.active {
        OnSearchResultTouches(m1, s, last, found);
        if last == q { SameSearchSameResult(m, m1, s, q, found); }
      }
    }
  }

  /** What a search makes of a report depends on the search alone. */
  lemma SameSearchSameResult(m: Mesh, m': Mesh, s: ServerId, q: SearchId, found: bool)
    requires q in m.searches && q in m'.searches && s in m.owed && s in m'.owed && m'.searches[q] == m.searches[q]
    ensures OnSearchResult(m', s, q, found).searches[q] == OnSearchResult(m, s, q, found).searches[q]
  {
  }

  // ----- Closed connections

  lemma OneNullMore(answers: seq<Answer>, calls: seq<SearchId>, q: SearchId)
    requires calls != []
    ensures
      var rest := Nulls(multiset(calls[1..])[q]);
      && (calls[0] != q ==> multiset(calls)[q] == multiset(calls[1..])[q])
      && (calls[0] == q ==> answers + Nulls(multiset(calls)[q]) == answers + [NotFound] + rest)
      && (q in calls <==> q == calls[0] || q in calls[1..])
  {
    var n := multiset(calls[1..])[q];
    assert calls == [calls[0]] + calls[1..];
    assert multiset(calls) == multiset{calls[0]} + multiset(calls[1..]);
    assert [NotFound] + Nulls(n) == Nulls(n + 1);
    assert answers + [NotFound] + Nulls(n) == answers + ([NotFound] + Nulls(n));
  }

  lemma {:induction false} DrainAt(m: Mesh, s: ServerId, q: SearchId)
    requires s in m.owed && (forall p :: p in m.owed[s] ==> p in m.searches) && q in m.searches
    ensures
      var m', x := DrainTransfers(m, s), m.searches[q];
      && m'.searches[q] == x.(answers := x.answers + if x.full then Nulls(multiset(m.owed[s])[q]) else [])
      && (q in m'.active <==> q in m.active && q !in m.owed[s])
    decreases |m.owed[s]|
  {
    hide Nulls;
    var calls := m.owed[s];
    if calls == [] {
      assert Nulls(0) == [] by { NoNulls(); }
    } else {
      DrainAt(AnswerTransfer(m, s, None), s, q);
      OneNullMore(m.searches[q].answers, calls, q);
    }
  }

  lemma NoNulls()
    ensures Nulls(0) == []
  {
  }

  lemma CloseGives(m: Mesh, s: ServerId, order: seq<SearchId>, q: SearchId)
    requires Enabled(m, Closed(s, order)) && q in m.searches
    ensures Close(m, s, order).searches[q].answers == m.searches[q].answers + Given(m, Closed(s, order), q)
  {
    hide Notify, DrainTransfers, OnSearchResult;
    var drained := DrainTransfers(m, s);
    DrainAt(m, s, q);
    NotifyAt(drained, s, order, false, q);
    ReportGives(drained, s, q, false);
    if q !in m.owed[s] {
      assert multiset(m.owed[s])[q] == 0;
      assert Nulls(0) == [];
    }
  }

  // ----- Every step

  /** Every event gives every search exactly what Given says. */
  lemma StepGives(m: Mesh, ev: Event, q: SearchId)
    requires Enabled(m, ev) && q in m.searches
    ensures q in Next(m, ev).searches
    ensures Next(m, ev).searches[q].answers == m.searches[q].answers + Given(m, ev, q)
  {
    match ev
    case Connect(_) =>
    case Start(_, _, _, _) =>
    case Response(s, _, found, order) =>
      hide OnSearchResult;
      NotifyAt(m, s, order, found, q);
      ReportGives(m, s, q, found);
    case Timeout(_) =>
    case TransferDone(_, _) =>
    case PostedRuns =>
    case Closed(s, order) => CloseGives(m, s, order, q);
  }

  /** A finished search stays finished; nothing but its answers can change. */
  lemma FinishedStays(m: Mesh, ev: Event, q: SearchId)
    requires Enabled(m, ev) && q in m.searches && q !in m.active
    ensures q in Next(m, ev).searches && q !in Next(m, ev).active
    ensures Next(m, ev).searches[q] == m.searches[q].(answers := Next(m, ev).searches[q].answers)
  {
    match ev
    case Connect(_) =>
    case Start(_, _, _, _) =>
    case Response(s, _, found, order) => NotifyAt(m, s, order, found, q);
    case Timeout(_) =>
    case TransferDone(_, _) =>
    case PostedRuns =>
    case Closed(s, order) =>
      DrainAt(m, s, q);
      NotifyAt(DrainTransfers(m, s), s, order, false, q);
  }

  /** A new search is answered at once if and only if there is no server to ask. */
  lemma StartGives(m: Mesh, q: SearchId, u: Uuid, full: bool, servers: set<ServerId>)
    requires Enabled(m, Start(q, u, full, servers))
    ensures
      var m' := Next(m, Start(q, u, full, servers));
      q in m'.searches && m'.searches[q].answers == if servers == {} then [NotFound] else []
  {
  }

  // ----- Every run

  /** The transfer of this asset from this server, for which the search had waited longest there. */
  ghost predicate Brings(m: Mesh, ev: Event, s: ServerId, q: SearchId, a: AssetData) {
    ev == TransferDone(s, Some(a)) && s in m.owed && m.owed[s] != [] && m.owed[s][0] == q
  }

  lemma GivenFound(m: Mesh, ev: Event, q: SearchId, a: AssetData)
    requires Listened(m) && Enabled(m, ev) && q in m.searches && Found(a) in Given(m, ev, q)
    ensures ev.TransferDone? && Brings(m, ev, ev.server, q, a)
    ensures m.searches[q].full && ev.server in m.searches[q].confirmed
  {
    assert ListenedTo(m, q);
  }

  /** In every run, each answer of a search was given by one of the events, or by its start with no server to ask. */
  lemma {:induction false} AnswerWasGiven(ms: seq<Mesh>, evs: seq<Event>, i: nat, q: SearchId, a: Answer)
    returns (k: nat)
    requires IsRun(ms, evs) && i < |ms| && q in ms[i].searches && a in ms[i].searches[q].answers
    ensures k < i
    ensures
      if q in ms[k].searches then a in Given(ms[k], evs[k], q)
      else a == NotFound && evs[k].Start? && evs[k].search == q && evs[k].servers == {}
  {
    hide Next, Enabled, Given;
    var m, ev := ms[i - 1], evs[i - 1];
    k := i - 1;
    if q !in m.searches {
      OnlyStartAdds(m, ev, q);
    } else {
      StepGives(m, ev, q);
      if a in m.searches[q].answers { k := AnswerWasGiven(ms, evs, i - 1, q, a); }
    }
  }

  /** An asset a search was ever given was brought by a transfer made for it, from a server that had told it that
      the asset was there. */
  lemma FoundWasBrought(ms: seq<Mesh>, evs: seq<Event>, i: nat, q: SearchId, a: AssetData) returns (k: nat)
    requires IsRun(ms, evs) && i < |ms| && q in ms[i].searches && Found(a) in ms[i].searches[q].answers
    ensures k < i && evs[k].TransferDone? && Brings(ms[k], evs[k], evs[k].server, q, a)
    ensures q in ms[k].searches && ms[k].searches[q].full && evs[k].server in ms[k].searches[q].confirmed
  {
    hide Next, Enabled, Given, Brings, Listened;
    k := AnswerWasGiven(ms, evs, i, q, Found(a));
    NoSearchWaitsForgotten(ms, evs, k);
    GivenFound(ms[k], evs[k], q, a);
  }

  lemma OnlyStartAdds(m: Mesh, ev: Event, q: SearchId)
    requires Enabled(m, ev) && q !in m.searches && q in Next(m, ev).searches
    ensures ev.Start? && ev.search == q
    ensures forall a | a in Next(m, ev).searches[q].answers :: a == NotFound && ev.servers == {}
  {
  }

  lemma {:induction false} FinishedForGood(ms: seq<Mesh>, evs: seq<Event>, j: nat, i: nat, q: SearchId)
    requires IsRun(ms, evs) && j <= i < |ms| && q in ms[j].searches && q !in ms[j].active
    ensures q in ms[i].searches && q !in ms[i].active
    ensures ms[i].searches[q] == ms[j].searches[q].(answers := ms[i].searches[q].answers)
    ensures ms[j].searches[q].answers <= ms[i].searches[q].answers
  {
    if i > j {
      hide Next, Enabled, Given;
      FinishedForGood(ms, evs, j, i - 1, q);
      FinishedStays(ms[i - 1], evs[i - 1], q);
      StepGives(ms[i - 1], evs[i - 1], q);
    }
  }
}
