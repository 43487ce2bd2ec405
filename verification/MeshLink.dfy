/**
 * The searches see the transfers of a server as one queue of unanswered calls; the connection keeps two, of requests
 * sent and requests still to be sent. The two views stay linked through every step of the connection.
 */
module MeshLink {
  import opened Wrappers
  import T = MeshTransfer
  import opened MeshSearch

  // ----- The order in which a close answers does not matter

  predicate Known(m: Mesh, order: seq<SearchId>) { forall q | q in order :: q in m.searches }

  /** Null answers to the transfers of these searches, in this order. */
  function AnswerAll(m: Mesh, order: seq<SearchId>): (m': Mesh)
    requires Known(m, order)
    ensures m'.searches.Keys == m.searches.Keys
  {
    if order == [] then m
    else OnFullAssetRcvd(AnswerAll(m, order[..|order| - 1]), order[|order| - 1], None)
  }

  /** The search with this many null answers more. */
  function WithNulls(x: Search, n: nat): Search {
    if x.full then x.(answers := x.answers + seq(n, _ => NotFound)) else x
  }

  lemma NoNull(x: Search)
    ensures WithNulls(x, 0) == x
  {
    assert x.answers + seq(0, _ => NotFound) == x.answers;
  }

  lemma OneMoreNull(x: Search, n: nat)
    ensures
      var y := WithNulls(x, n);
      WithNulls(x, n + 1) == if x.full then y.(answers := y.answers + [NotFound]) else y
  {
    assert seq(n, _ => NotFound) + [NotFound] == seq(n + 1, _ => NotFound);
    assert x.answers + seq(n, _ => NotFound) + [NotFound] == x.answers + seq(n + 1, _ => NotFound);
  }

  lemma {:induction false} AnswerAllAt(m: Mesh, order: seq<SearchId>, q: SearchId)
    requires Known(m, order) && q in m.searches
    ensures
      var m' := AnswerAll(m, order);
      && m'.searches[q] == WithNulls(m.searches[q], multiset(order)[q])
      && (q in m'.active <==> q in m.active && q !in order)
  {
    hide WithNulls;
    if order == [] {
      NoNull(m.searches[q]);
    } else {
      var n := |order| - 1;
      AnswerAllAt(m, order[..n], q);
      assert order == order[..n] + [order[n]];
      OneMoreNull(m.searches[q], multiset(order[..n])[q]);
      FullStays(m.searches[q], multiset(order[..n])[q]);
    }
  }

  lemma FullStays(x: Search, n: nat)
    ensures WithNulls(x, n).full == x.full
  {
  }

  lemma {:induction false} AnswerAllFrame(m: Mesh, order: seq<SearchId>)
    requires Known(m, order)
    ensures
      var m' := AnswerAll(m, order);
      m' == m.(searches := m'.searches, active := m'.active) && m'.active <= m.active
      && forall q | q in m.active && q !in m.searches :: q in m'.active
  {
    if order != [] {
      AnswerAllFrame(m, order[..|order| - 1]);
    }
  }

  /** Any two orders of the same answers leave the same mesh. */
  lemma AnyOrder(m: Mesh, a: seq<SearchId>, b: seq<SearchId>)
    requires multiset(a) == multiset(b) && Known(m, a) && Known(m, b)
    ensures AnswerAll(m, a) == AnswerAll(m, b)
  {
    hide AnswerAll, WithNulls;
    AnswerAllFrame(m, a);
    AnswerAllFrame(m, b);
    var ma, mb := AnswerAll(m, a), AnswerAll(m, b);
    forall q | q in m.searches
      ensures ma.searches[q] == mb.searches[q] && (q in ma.active <==> q in mb.active)
    {
      AnswerAllAt(m, a, q);
      AnswerAllAt(m, b, q);
      assert q in a <==> q in multiset(a);
      assert q in b <==> q in multiset(b);
    }
    assert ma.searches == mb.searches && ma.active == mb.active;
  }

  /** Answering commutes with taking calls off the queues. */
  lemma {:induction false} AnswerAllOwed(m: Mesh, owed: map<ServerId, seq<SearchId>>, order: seq<SearchId>)
    requires Known(m, order)
    ensures AnswerAll(m.(owed := owed), order) == AnswerAll(m, order).(owed := owed)
  {
    if order != [] {
      AnswerAllOwed(m, owed, order[..|order| - 1]);
    }
  }

  lemma {:induction false} AnswerAllConcat(m: Mesh, a: seq<SearchId>, b: seq<SearchId>)
    requires Known(m, a) && Known(m, b)
    ensures AnswerAll(m, a + b) == AnswerAll(AnswerAll(m, a), b)
  {
    hide OnFullAssetRcvd;
    if b == [] {
      assert a + b == a;
    } else {
      var n := |b| - 1;
      assert (a + b)[..|a| + n] == a + b[..n];
      AnswerAllConcat(m, a, b[..n]);
    }
  }

  lemma AnswerOne(m: Mesh, q: SearchId)
    requires q in m.searches
    ensures AnswerAll(m, [q]) == OnFullAssetRcvd(m, q, None)
  {
    assert [q][..0] == [];
  }

  lemma {:induction false} DrainIsAnswerAll(m: Mesh, s: ServerId)
    requires s in m.owed && Known(m, m.owed[s])
    ensures DrainTransfers(m, s) == AnswerAll(m, m.owed[s]).(owed := m.owed[s := []])
    decreases |m.owed[s]|
  {
    hide OnFullAssetRcvd, AnswerAll;
    var order := m.owed[s];
    if order == [] {
      NothingAnswered(m);
      assert m.owed[s := []] == m.owed;
    } else {
      var q, rest, fewer := order[0], order[1..], m.owed[s := order[1..]];
      var m1, m2 := AnswerTransfer(m, s, None), AnswerAll(m, [q]);
      assert order == [q] + rest;
      AnswerOne(m, q);
      AnswerOwed(m, fewer, q);
      AnswerAllConcat(m, [q], rest);
      AnswerAllOwed(m2, fewer, rest);
      DrainIsAnswerAll(m1, s);
      assert fewer[s := []] == m.owed[s := []];
    }
  }

  lemma NothingAnswered(m: Mesh)
    ensures AnswerAll(m, []) == m
  {
  }

  lemma AnswerOwed(m: Mesh, owed: map<ServerId, seq<SearchId>>, q: SearchId)
    requires q in m.searches
    ensures OnFullAssetRcvd(m.(owed := owed), q, None) == OnFullAssetRcvd(m, q, None).(owed := owed)
    ensures OnFullAssetRcvd(m, q, None).owed == m.owed
    ensures OnFullAssetRcvd(m, q, None).searches.Keys == m.searches.Keys
  {
  }

  /** The requests not yet sent answered first, then those sent: the order of the two draining loops. */
  lemma DrainBehindFirst(m: Mesh, s: ServerId, sent: nat)
    requires s in m.owed && Known(m, m.owed[s]) && sent <= |m.owed[s]|
    ensures DrainTransfers(m, s) == AnswerAll(m, m.owed[s][sent..] + m.owed[s][..sent]).(owed := m.owed[s := []])
  {
    hide AnswerAll, DrainTransfers;
    var order := m.owed[s];
    assert order == order[..sent] + order[sent..];
    AnyOrder(m, order, order[sent..] + order[..sent]);
    DrainIsAnswerAll(m, s);
  }

  function Cut(calls: seq<SearchId>, at: nat): seq<SearchId>
    requires at < |calls|
  {
    calls[..at] + calls[at + 1..]
  }

  /** The call at this position of a server's queue is answered null. */
  function AnswerAt(m: Mesh, s: ServerId, at: nat): (m': Mesh)
    requires s in m.owed && at < |m.owed[s]| && Known(m, m.owed[s])
    ensures m'.owed == m.owed[s := Cut(m.owed[s], at)] && m'.searches.Keys == m.searches.Keys
    ensures Known(m', m'.owed[s])
  {
    OnFullAssetRcvd(m.(owed := m.owed[s := Cut(m.owed[s], at)]), m.owed[s][at], None)
  }

  /** One draining loop: the calls from this position on are answered. */
  function DrainBehind(m: Mesh, s: ServerId, from: nat): (m': Mesh)
    requires s in m.owed && Known(m, m.owed[s])
    ensures s in m'.owed && Known(m', m'.owed[s])
    decreases |m.owed[s]|
  {
    if |m.owed[s]| <= from then m else DrainBehind(AnswerAt(m, s, from), s, from)
  }

  lemma {:induction false} DrainBehindIs(m: Mesh, s: ServerId, from: nat)
    requires s in m.owed && Known(m, m.owed[s]) && from <= |m.owed[s]|
    ensures
      DrainBehind(m, s, from) == AnswerAll(m, m.owed[s][from..]).(owed := m.owed[s := m.owed[s][..from]])
    decreases |m.owed[s]|
  {
    hide OnFullAssetRcvd, AnswerAll;
    var calls := m.owed[s];
    if |calls| == from {
      NothingAnswered(m);
      assert calls[from..] == [] && calls[..from] == calls && m.owed[s := calls] == m.owed;
    } else {
      var q, rest, fewer := calls[from], calls[from + 1..], m.owed[s := Cut(calls, from)];
      var m1, m2 := AnswerAt(m, s, from), AnswerAll(m, [q]);
      assert calls[from..] == [q] + rest;
      assert Cut(calls, from)[from..] == rest && Cut(calls, from)[..from] == calls[..from];
      AnswerOne(m, q);
      AnswerOwed(m, fewer, q);
      AnswerAllConcat(m, [q], rest);
      AnswerAllOwed(m2, fewer, rest);
      DrainBehindIs(m1, s, from);
      assert fewer[s := calls[..from]] == m.owed[s := calls[..from]];
    }
  }

  /** The two draining loops in a row leave what answering the calls oldest first leaves. */
  lemma TwoDrains(m: Mesh, s: ServerId, sent: nat)
    requires s in m.owed && Known(m, m.owed[s]) && sent <= |m.owed[s]|
    ensures DrainBehind(DrainBehind(m, s, sent), s, 0) == DrainTransfers(m, s)
  {
    hide DrainBehind, DrainTransfers, AnswerAll;
    var calls, m1 := m.owed[s], DrainBehind(m, s, sent);
    var m2 := AnswerAll(m, calls[sent..]);
    DrainBehindIs(m, s, sent);
    DrainBehindIs(m1, s, 0);
    assert calls[..sent][0..] == calls[..sent] && calls[..sent][..0] == [];
    AnswerAllConcat(m, calls[sent..], calls[..sent]);
    AnswerAllOwed(m2, m1.owed, calls[..sent]);
    DrainBehindFirst(m, s, sent);
    assert m1.owed[s := []] == m.owed[s := []];
  }

  // ----- The two views of a server's transfers

  function Ids(calls: seq<T.Call>): (ids: seq<SearchId>)
    ensures |ids| == |calls|
  {
    seq(|calls|, (i: nat) requires i < |calls| => calls[i].id)
  }

  /** Every call is one of a search of this mesh, for the asset of that search. */
  predicate Named(m: Mesh, calls: seq<T.Call>) {
    forall i :: 0 <= i < |calls| ==> calls[i].id in m.searches && m.searches[calls[i].id].uuid == calls[i].uuid
  }

  /** The calls that server s owes are those sent and then those still to be sent. */
  predicate Linked(p: T.Peer, m: Mesh, s: ServerId) {
    && s in m.owed && (p.up <==> s in m.up)
    && m.owed[s] == Ids(p.sent + p.queued) && Named(m, p.sent + p.queued)
  }

  /** The event closes the connection. */
  predicate Closes(p: T.Peer, ev: T.Event)
    requires T.Enabled(p, ev)
  {
    match ev
    case WriteDone(ok) => !ok
    case HeaderDone(h) => h.ReadFailed? || h.Corrupt? || (h.Refused? && p.sent[0].uuid != h.uuid)
    case ErrorDataDone(ok) => !ok
    case AssetDataDone(asset) => asset.None? || !p.up || asset.value.uuid != p.sent[0].uuid
    case ConnectionClosed => true
    case _ => false
  }

  function Data(asset: Option<T.Asset>): Option<AssetData> { if asset.Some? then Some(asset.value.data) else None }

  /** The same event as the searches see it. */
  function MeshNext(p: T.Peer, m: Mesh, s: ServerId, ev: T.Event): Mesh
    requires Linked(p, m, s) && T.Enabled(p, ev) && p.up
  {
    if ev.CallGetAsset? then GetAsset(m, s, ev.call.id)
    else if Closes(p, ev) then Drained(p, m, s)
    else if ev.HeaderDone? && ev.header.Refused? then Answered(p, m, s, None)
    else if ev.AssetDataDone? then Answered(p, m, s, Data(ev.asset))
    else m
  }

  function Drained(p: T.Peer, m: Mesh, s: ServerId): Mesh
    requires Linked(p, m, s)
  {
    LinkedIsKnown(p, m, s);
    DrainTransfers(m, s).(up := m.up - {s})
  }

  function Answered(p: T.Peer, m: Mesh, s: ServerId, asset: Option<AssetData>): Mesh
    requires Linked(p, m, s) && p.sent != []
  {
    LinkedIsKnown(p, m, s);
    AnswerTransfer(m, s, asset)
  }

  lemma LinkedIsKnown(p: T.Peer, m: Mesh, s: ServerId)
    requires Linked(p, m, s)
    ensures Known(m, m.owed[s])
    ensures p.sent != [] ==> m.owed[s] != [] && m.owed[s][0] == p.sent[0].id
  {
    forall i | 0 <= i < |m.owed[s]|
      ensures m.owed[s][i] in m.searches
    {
      assert m.owed[s][i] == (p.sent + p.queued)[i].id;
    }
  }

  predicate Callers(m: Mesh, fired: seq<T.Firing>) {
    forall i :: 0 <= i < |fired| ==> fired[i].call.id in m.searches
  }

  /** What the firings tell their searches, one after the other. */
  function Told(m: Mesh, fired: seq<T.Firing>): (m': Mesh)
    requires Callers(m, fired)
    ensures m'.searches.Keys == m.searches.Keys
  {
    if fired == [] then m
    else
      var last := fired[|fired| - 1];
      OnFullAssetRcvd(Told(m, fired[..|fired| - 1]), last.call.id, Data(last.asset))
  }

  lemma ToldOne(m: Mesh, f: T.Firing)
    requires f.call.id in m.searches
    ensures Told(m, [f]) == OnFullAssetRcvd(m, f.call.id, Data(f.asset))
  {
    assert [f][..0] == [];
  }

  /** What the firings for one search bring it: the asset of each, or null. */
  function Replies(fired: seq<T.Firing>, q: SearchId): seq<Answer> {
    if fired == [] then []
    else
      var n := |fired| - 1;
      Replies(fired[..n], q)
      + if fired[n].call.id != q then []
        else match fired[n].asset case Some(x) => [Found(x.data)] case None => [NotFound]
  }

  /** From m to m' the search has been given what was fired for it and nothing else, if it is a full one, and it is
      over once something was fired for it. */
  predicate DeliversTo(m: Mesh, fired: seq<T.Firing>, m': Mesh, q: SearchId)
    requires q in m.searches && q in m'.searches
  {
    var x, replies := m.searches[q], Replies(fired, q);
    && m'.searches[q] == x.(answers := x.answers + if x.full then replies else [])
    && (q in m'.active <==> q in m.active && replies == [])
  }

  predicate Delivers(m: Mesh, fired: seq<T.Firing>, m': Mesh) {
    m'.searches.Keys == m.searches.Keys && forall q | q in m.searches :: DeliversTo(m, fired, m', q)
  }

  lemma {:induction false} ToldDeliversTo(m: Mesh, fired: seq<T.Firing>, q: SearchId)
    requires Callers(m, fired) && q in m.searches
    ensures DeliversTo(m, fired, Told(m, fired), q)
  {
    if fired != [] {
      ToldDeliversTo(m, fired[..|fired| - 1], q);
    }
  }

  lemma ToldDelivers(m: Mesh, fired: seq<T.Firing>, m': Mesh)
    requires Callers(m, fired) && SameSearches(Told(m, fired), m')
    ensures Delivers(m, fired, m')
  {
    forall q | q in m.searches
      ensures q in m'.searches && DeliversTo(m, fired, m', q)
    {
      ToldDeliversTo(m, fired, q);
    }
  }

  lemma KnownByName(m: Mesh, calls: seq<T.Call>)
    requires Named(m, calls)
    ensures Known(m, Ids(calls))
    ensures Callers(m, T.Nulls(calls))
  {
  }

  lemma {:induction false} ToldNulls(m: Mesh, calls: seq<T.Call>)
    requires Named(m, calls) && Known(m, Ids(calls))
    requires Callers(m, T.Nulls(calls))
    ensures Told(m, T.Nulls(calls)) == AnswerAll(m, Ids(calls))
  {
    hide OnFullAssetRcvd;
    if calls != [] {
      var n := |calls| - 1;
      KnownByName(m, calls[..n]);
      ToldNulls(m, calls[..n]);
      assert T.Nulls(calls)[..n] == T.Nulls(calls[..n]) && Ids(calls)[..n] == Ids(calls[..n]);
    }
  }

  lemma NamedRotates(p: T.Peer, m: Mesh)
    requires Named(m, p.sent + p.queued)
    ensures Named(m, p.queued + p.sent)
  {
    var n := |p.queued|;
    forall i | 0 <= i < |p.queued + p.sent|
      ensures var c := (p.queued + p.sent)[i]; c.id in m.searches && m.searches[c.id].uuid == c.uuid
    {
      assert (p.queued + p.sent)[i] == (p.sent + p.queued)[if i < n then |p.sent| + i else i - n];
    }
  }

  /** What draining a server's transfers leaves, in terms of the two queues. */
  lemma DrainedIs(p: T.Peer, m: Mesh, s: ServerId)
    requires Linked(p, m, s)
    ensures Named(m, p.queued + p.sent) && Known(m, Ids(p.queued + p.sent))
    ensures
      var a := AnswerAll(m, Ids(p.queued + p.sent));
      Drained(p, m, s) == m.(up := m.up - {s}, owed := m.owed[s := []], searches := a.searches, active := a.active)
  {
    hide DrainTransfers, AnswerAll;
    LinkedIsKnown(p, m, s);
    NamedRotates(p, m);
    KnownByName(m, p.queued + p.sent);
    ToldNulls(m, p.queued + p.sent);
    var n := |p.sent|;
    assert Ids(p.queued + p.sent) == m.owed[s][n..] + m.owed[s][..n];
    DrainBehindFirst(m, s, n);
    AnswerAllFrame(m, Ids(p.queued + p.sent));
  }

  /** The same searches, told the same. */
  predicate SameSearches(m: Mesh, m': Mesh) { m.searches == m'.searches && m.active == m'.active }

  /** What happened on the connection, as the searches see it: what was fired is what they were told. */
  predicate Follows(p: T.Peer, m: Mesh, s: ServerId, p': T.Peer, m': Mesh) {
    && Linked(p', m', s) && p.fired <= p'.fired
    && var more := p'.fired[|p.fired|..];
       Callers(m, more) && SameSearches(Told(m, more), m')
  }

  lemma FollowsDelivers(p: T.Peer, m: Mesh, s: ServerId, p': T.Peer, m': Mesh)
    requires Follows(p, m, s, p', m')
    ensures p.fired <= p'.fired && Delivers(m, p'.fired[|p.fired|..], m')
  {
    hide Told;
    ToldDelivers(m, p'.fired[|p.fired|..], m');
  }

  lemma FollowsByFirings(p: T.Peer, m: Mesh, s: ServerId, p': T.Peer, m': Mesh, more: seq<T.Firing>)
    requires Linked(p', m', s) && p'.fired == p.fired + more
    requires Callers(m, more) && SameSearches(Told(m, more), m')
    ensures Follows(p, m, s, p', m')
  {
    hide Told, Linked, SameSearches;
    assert p'.fired[|p.fired|..] == more;
  }

  lemma CloseFires(p: T.Peer)
    ensures T.Close(p).fired == p.fired + T.Nulls(p.queued + p.sent)
  {
    assert T.Nulls(p.queued + p.sent) == T.Nulls(p.queued) + T.Nulls(p.sent);
  }

  lemma ClosedIsLinked(p: T.Peer, m: Mesh, s: ServerId)
    requires s in m.owed && m.owed[s] == [] && s !in m.up
    ensures Linked(T.Close(p), m, s)
  {
    assert T.Close(p).sent + T.Close(p).queued == [];
  }

  /** A close on one side is a close on the other, and tells the searches what the draining loops tell them. */
  lemma CloseFollows(p: T.Peer, m: Mesh, s: ServerId)
    requires Linked(p, m, s)
    ensures Follows(p, m, s, T.Close(p), Drained(p, m, s))
  {
    DrainedIs(p, m, s);
    hide DrainTransfers, AnswerAll, Told, Drained, Linked, Follows;
    KnownByName(m, p.queued + p.sent);
    ToldNulls(m, p.queued + p.sent);
    CloseFires(p);
    ClosedIsLinked(p, Drained(p, m, s), s);
    FollowsByFirings(p, m, s, T.Close(p), Drained(p, m, s), T.Nulls(p.queued + p.sent));
  }

  /** The oldest request sent is answered. */
  lemma AnswerFollows(p: T.Peer, m: Mesh, s: ServerId, asset: Option<T.Asset>, reading: T.Reading)
    requires Linked(p, m, s) && p.sent != []
    ensures Follows(p, m, s, T.FireFirst(p, asset).(reading := reading), Answered(p, m, s, Data(asset)))
  {
    LinkedIsKnown(p, m, s);
    var p', m' := T.FireFirst(p, asset).(reading := reading), Answered(p, m, s, Data(asset));
    var f := T.Firing(p.sent[0], asset);
    assert p'.fired[|p.fired|..] == [f];
    ToldOne(m, f);
    assert p'.sent + p'.queued == (p.sent + p.queued)[1..];
    assert m'.owed[s] == Ids(p'.sent + p'.queued);
  }

  lemma CallFollows(p: T.Peer, m: Mesh, s: ServerId, c: T.Call)
    requires Linked(p, m, s) && p.up && (!p.sendActive ==> p.queued == []) && Named(m, [c])
    ensures Follows(p, m, s, T.GetAsset(p, c), GetAsset(m, s, c.id))
  {
    var p' := T.GetAsset(p, c);
    assert p'.sent + p'.queued == p.sent + p.queued + [c];
    assert p'.fired[|p.fired|..] == [];
    assert Ids(p.sent + p.queued + [c]) == Ids(p.sent + p.queued) + [c.id];
    assert [c][0] == c;
  }

  lemma StutterFollows(p: T.Peer, m: Mesh, s: ServerId, p': T.Peer)
    requires Linked(p, m, s) && p'.sent + p'.queued == p.sent + p.queued && p'.fired == p.fired && p'.up == p.up
    ensures Follows(p, m, s, p', m)
  {
    assert p'.fired[|p.fired|..] == [];
  }

  /** The connection has the same calls and has fired the same. */
  predicate SameCalls(p: T.Peer, q: T.Peer) {
    p.up == q.up && p.sent == q.sent && p.queued == q.queued && p.fired == q.fired
  }

  lemma FollowsFromSame(p: T.Peer, q: T.Peer, m: Mesh, s: ServerId, p': T.Peer, m': Mesh)
    requires SameCalls(p, q) && Follows(q, m, s, p', m')
    ensures Follows(p, m, s, p', m')
  {
  }

  lemma ClosingFollows(p: T.Peer, m: Mesh, s: ServerId, ev: T.Event)
    requires Linked(p, m, s) && p.up && T.Enabled(p, ev) && Closes(p, ev)
    ensures Follows(p, m, s, T.Next(p, ev), Drained(p, m, s))
  {
    hide DrainTransfers, Told, Follows;
    var q := match ev
      case WriteDone(_) => p.(sendActive := false, writes := p.writes - 1)
      case ConnectionClosed => p
      case _ => p.(reading := T.Idle);
    assert T.Next(p, ev) == T.Close(q);
    CloseFollows(q, m, s);
    FollowsFromSame(p, q, m, s, T.Close(q), Drained(q, m, s));
  }

  lemma WriteFollows(p: T.Peer, m: Mesh, s: ServerId)
    requires Linked(p, m, s) && p.up && p.writes > 0
    ensures Follows(p, m, s, T.OnWrite(p, true), m)
  {
    hide Told, Linked, Follows;
    var p' := T.OnWrite(p, true);
    if p.queued != [] {
      assert p.sent + [p.queued[0]] + p.queued[1..] == p.sent + p.queued;
    }
    StutterFollows(p, m, s, p');
  }

  lemma AnsweringFollows(p: T.Peer, m: Mesh, s: ServerId, asset: Option<T.Asset>, reading: T.Reading)
    requires Linked(p, m, s) && p.sent != []
    ensures
      var p' := T.FireFirst(p.(reading := T.Idle), asset).(reading := reading);
      Follows(p, m, s, p', Answered(p, m, s, Data(asset)))
  {
    hide Told, Follows, AnswerTransfer;
    var q := p.(reading := T.Idle);
    AnswerFollows(q, m, s, asset, reading);
    FollowsFromSame(p, q, m, s, T.FireFirst(q, asset).(reading := reading), Answered(q, m, s, Data(asset)));
  }

  /** Every step of a live connection is the step that the searches see, the close that ends its life included; each
      search is given the asset of what fired for it. */
  lemma StepFollows(p: T.Peer, m: Mesh, s: ServerId, ev: T.Event)
    requires Linked(p, m, s) && p.up && p.posted == [] && (!p.sendActive ==> p.queued == []) && T.Enabled(p, ev)
    requires ev.CallGetAsset? ==> Named(m, [ev.call])
    ensures Follows(p, m, s, T.Next(p, ev), MeshNext(p, m, s, ev))
    ensures p.fired <= T.Next(p, ev).fired
    ensures Delivers(m, T.Next(p, ev).fired[|p.fired|..], MeshNext(p, m, s, ev))
  {
    StepLinked(p, m, s, ev);
    FollowsDelivers(p, m, s, T.Next(p, ev), MeshNext(p, m, s, ev));
  }

  lemma StepLinked(p: T.Peer, m: Mesh, s: ServerId, ev: T.Event)
    requires Linked(p, m, s) && p.up && p.posted == [] && (!p.sendActive ==> p.queued == []) && T.Enabled(p, ev)
    requires ev.CallGetAsset? ==> Named(m, [ev.call])
    ensures Follows(p, m, s, T.Next(p, ev), MeshNext(p, m, s, ev))
  {
    hide Follows, Linked, Drained, Answered, GetAsset;
    if Closes(p, ev) {
      ClosingFollows(p, m, s, ev);
    } else {
      match ev
      case CallGetAsset(c) => CallFollows(p, m, s, c);
      case WriteDone(_) => WriteFollows(p, m, s);
      case HeaderDone(h) =>
        if h.Refused? {
          AnsweringFollows(p, m, s, None, if h.dataSize > 0 then T.ErrorData else T.Header);
        } else {
          StutterFollows(p, m, s, T.Next(p, ev));
        }
      case ErrorDataDone(_) => StutterFollows(p, m, s, T.Next(p, ev));
      case AssetDataDone(asset) => AnsweringFollows(p, m, s, asset, T.Header);
    }
  }

  // ----- Whole runs

  lemma CallersConcat(m: Mesh, a: seq<T.Firing>, b: seq<T.Firing>)
    ensures Callers(m, a + b) <==> Callers(m, a) && Callers(m, b)
  {
    if Callers(m, a + b) {
      assert forall i :: 0 <= i < |a| ==> a[i] == (a + b)[i];
      assert forall i :: 0 <= i < |b| ==> b[i] == (a + b)[|a| + i];
    }
  }

  lemma ToldNext(m: Mesh, fired: seq<T.Firing>, f: T.Firing)
    requires Callers(m, fired) && f.call.id in m.searches && Callers(m, fired + [f])
    ensures Told(m, fired + [f]) == OnFullAssetRcvd(Told(m, fired), f.call.id, Data(f.asset))
  {
    hide OnFullAssetRcvd;
    assert (fired + [f])[..|fired|] == fired;
  }

  lemma {:induction false} ToldConcat(m: Mesh, a: seq<T.Firing>, b: seq<T.Firing>)
    requires Callers(m, a) && Callers(m, b) && Callers(m, a + b) && Callers(Told(m, a), b)
    ensures Told(m, a + b) == Told(Told(m, a), b)
  {
    var m1 := Told(m, a);
    if b == [] {
      assert a + b == a;
    } else {
      var n := |b| - 1;
      var rest, f := b[..n], b[n];
      assert b == rest + [f] && a + b == a + rest + [f];
      assert Callers(m, rest) && Callers(m1, rest) && Callers(m, a + rest);
      hide OnFullAssetRcvd, Told, Callers;
      ToldConcat(m, a, rest);
      ToldNext(m, a + rest, f);
      ToldNext(m1, rest, f);
    }
  }

  /** What searches are told depends on the searches alone. */
  lemma {:induction false} ToldSame(m: Mesh, m': Mesh, fired: seq<T.Firing>)
    requires SameSearches(m, m') && Callers(m, fired)
    ensures SameSearches(Told(m, fired), Told(m', fired))
  {
    if fired != [] {
      ToldSame(m, m', fired[..|fired| - 1]);
    }
  }

  lemma CallersStay(m: Mesh, m': Mesh, fired: seq<T.Firing>)
    requires Callers(m, fired) && m.searches.Keys == m'.searches.Keys
    ensures Callers(m', fired)
  {
  }

  lemma ToldFurther(m0: Mesh, p: T.Peer, m: Mesh, s: ServerId, p': T.Peer, m': Mesh)
    requires Callers(m0, p.fired)
    requires SameSearches(Told(m0, p.fired), m) && Follows(p, m, s, p', m')
    ensures Callers(m0, p'.fired)
    ensures SameSearches(Told(m0, p'.fired), m') && Linked(p', m', s)
  {
    hide Told, Linked, Callers;
    var more := p'.fired[|p.fired|..];
    assert p'.fired == p.fired + more;
    CallersStay(m, Told(m0, p.fired), more);
    CallersStay(Told(m0, p.fired), m0, more);
    CallersConcat(m0, p.fired, more);
    ToldConcat(m0, p.fired, more);
    ToldSame(Told(m0, p.fired), m, more);
  }

  /** The connection after each event, and the mesh after the same events as the searches see them. */
  ghost predicate IsLinkedRun(ps: seq<T.Peer>, ms: seq<Mesh>, evs: seq<T.Event>, s: ServerId) {
    && |ps| == |ms| == |evs| + 1 && ps[0] == T.CONNECTED && s in ms[0].up && s in ms[0].owed && ms[0].owed[s] == []
    && forall i | 0 <= i < |evs| ::
         && ps[i].up && T.Enabled(ps[i], evs[i]) && ps[i + 1] == T.Next(ps[i], evs[i])
         && (evs[i].CallGetAsset? ==> Named(ms[i], [evs[i].call]))
         && (Linked(ps[i], ms[i], s) ==> ms[i + 1] == MeshNext(ps[i], ms[i], s, evs[i]))
  }

  /** What the link rests on while the connection is up. */
  predicate Orderly(p: T.Peer) { p.up ==> p.posted == [] && (!p.sendActive ==> p.queued == []) }

  lemma StepKeepsOrderly(p: T.Peer, ev: T.Event)
    requires Orderly(p) && p.up && T.Enabled(p, ev)
    ensures Orderly(T.Next(p, ev))
  {
  }

  lemma {:induction false} RunsLinked(ps: seq<T.Peer>, ms: seq<Mesh>, evs: seq<T.Event>, s: ServerId, i: nat)
    requires IsLinkedRun(ps, ms, evs, s) && i < |ps|
    ensures Linked(ps[i], ms[i], s) && Orderly(ps[i])
    ensures Callers(ms[0], ps[i].fired)
    ensures SameSearches(Told(ms[0], ps[i].fired), ms[i])
  {
    if i == 0 {
      assert T.CONNECTED.sent + T.CONNECTED.queued == [];
    } else {
      RunsLinked(ps, ms, evs, s, i - 1);
      var p, m, ev, p', m' := ps[i - 1], ms[i - 1], evs[i - 1], ps[i], ms[i];
      StepLinked(p, m, s, ev);
      StepKeepsOrderly(p, ev);
      hide Follows, T.Next, T.Enabled, MeshNext, Linked, Orderly, Told;
      ToldFurther(ms[0], p, m, s, p', m');
    }
  }

  /** In every run of a connection, up to and including its close, the calls a server owes its searches are those sent
      and then those to be sent, and each search has been given exactly the assets that the connection's callbacks
      fired for it, in that order. */
  lemma RunsFollow(ps: seq<T.Peer>, ms: seq<Mesh>, evs: seq<T.Event>, s: ServerId, i: nat)
    requires IsLinkedRun(ps, ms, evs, s) && i < |ps|
    ensures Linked(ps[i], ms[i], s) && Orderly(ps[i])
    ensures Callers(ms[0], ps[i].fired) && SameSearches(Told(ms[0], ps[i].fired), ms[i])
    ensures Delivers(ms[0], ps[i].fired, ms[i])
  {
    hide Told, Delivers;
    RunsLinked(ps, ms, evs, s, i);
    ToldDelivers(ms[0], ps[i].fired, ms[i]);
  }
}
