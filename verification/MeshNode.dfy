/** The mesh objects of one node, with the fields and control flow of AssetSearch, MeshServer and
    MeshStorageBackend. Every handler is proved to take the step that MeshSearch describes. The objects
    live in maps keyed by identity. */
module MeshNode {
  import opened Wrappers
  import opened Sequences
  import opened MeshSearch
  import MeshLink

  type SearchMap = map<Uuid, set<SearchId>>

  predicate Has(current: SearchMap, u: Uuid, q: SearchId) {
    u in current && q in current[u]
  }

  function Insert(current: SearchMap, u: Uuid, q: SearchId): SearchMap {
    current[u := (if u in current then current[u] else {}) + {q}]
  }

  /** cancelSearch: an emptied entry goes away. */
  function Erase(current: SearchMap, u: Uuid, q: SearchId): SearchMap {
    if u !in current then current
    else if current[u] - {q} == {} then current - {u}
    else current[u := current[u] - {q}]
  }

  lemma EraseHas(current: SearchMap, u: Uuid, q: SearchId, v: Uuid, p: SearchId)
    ensures Has(Erase(current, u, q), v, p) <==> Has(current, v, p) && !(v == u && p == q)
  {
    if u in current && current[u] - {q} == {} { assert current[u] <= {q}; }
  }

  /** All registrations, as pairs of server and search. */
  ghost function RegisteredIn(
    cs: map<ServerId, SearchMap>, searches: map<SearchId, Search>): set<(ServerId, SearchId)>
  {
    set s, q | s in cs && q in searches && Has(cs[s], searches[q].uuid, q) :: (s, q)
  }

  /** Each server lists a search under its UUID, and nothing else. */
  ghost predicate Filed(cs: map<ServerId, SearchMap>, searches: map<SearchId, Search>) {
    forall s, u, q | s in cs && Has(cs[s], u, q) :: q in searches && searches[q].uuid == u
  }

  lemma EraseRegistered(cs: map<ServerId, SearchMap>, searches: map<SearchId, Search>, s: ServerId, q: SearchId)
    requires Filed(cs, searches) && s in cs && q in searches
    ensures
      var cs' := cs[s := Erase(cs[s], searches[q].uuid, q)];
      Filed(cs', searches) && RegisteredIn(cs', searches) == RegisteredIn(cs, searches) - {(s, q)}
  {
    hide Erase;
    var cs' := cs[s := Erase(cs[s], searches[q].uuid, q)];
    forall t, u, p | t in cs'
      ensures Has(cs'[t], u, p) <==> Has(cs[t], u, p) && !(t == s && u == searches[q].uuid && p == q)
    {
      if t == s { EraseHas(cs[s], searches[q].uuid, q, u, p); }
    }
  }

  lemma InsertRegistered(cs: map<ServerId, SearchMap>, searches: map<SearchId, Search>, s: ServerId, q: SearchId)
    requires Filed(cs, searches) && s in cs && q in searches
    ensures
      var cs' := cs[s := Insert(cs[s], searches[q].uuid, q)];
      Filed(cs', searches) && RegisteredIn(cs', searches) == RegisteredIn(cs, searches) + {(s, q)}
  {
    var cs' := cs[s := Insert(cs[s], searches[q].uuid, q)];
    forall t, u, p | t in cs'
      ensures Has(cs'[t], u, p) <==> Has(cs[t], u, p) || (t == s && u == searches[q].uuid && p == q)
    {}
  }

  lemma {:induction false} NotifyAppend(m: Mesh, s: ServerId, a: seq<SearchId>, b: seq<SearchId>, found: bool)
    requires s in m.owed && (forall q :: q in a ==> q in m.searches) && (forall q :: q in b ==> q in m.searches)
    ensures Notify(m, s, a + b, found) == Notify(Notify(m, s, a, found), s, b, found)
  {
    hide OnSearchResult;
    if b == [] {
      assert a + b == a;
    } else {
      NotifyAppend(m, s, a, b[..|b| - 1], found);
      assert (a + b)[..|a + b| - 1] == a + b[..|b| - 1];
    }
  }

  lemma NobodyTold(m: Mesh, s: ServerId, found: bool)
    requires s in m.owed
    ensures Notify(m, s, [], found) == m && Distinct<SearchId>([])
  {
  }

  lemma NotifyNext(m: Mesh, s: ServerId, order: seq<SearchId>, q: SearchId, found: bool)
    requires s in m.owed && (forall p :: p in order ==> p in m.searches) && q in m.searches
    ensures
      var m' := Notify(m, s, order, found);
      Notify(m, s, order + [q], found) == if q in m'.active then OnSearchResult(m', s, q, found) else m'
  {
    assert (order + [q])[..|order|] == order;
  }

  lemma FiledUnder(cs: map<ServerId, SearchMap>, searches: map<SearchId, Search>, s: ServerId, u: Uuid)
    requires Filed(cs, searches) && s in cs && u in cs[s]
    ensures forall q | q in cs[s][u] :: q in searches
  {
    assert forall q | q in cs[s][u] :: Has(cs[s], u, q);
  }

  /** Asking one server: it is waited for and has the search registered. */
  function Initiate(m: Mesh, s: ServerId, q: SearchId): Mesh
    requires q in m.searches
  {
    var x := m.searches[q];
    m.(searches := m.searches[q := x.(queried := x.queried + {s}, asked := x.asked + {s})],
       registered := m.registered + {(s, q)})
  }

  function Fit(m: Mesh, visit: seq<ServerId>, readable: set<ServerId>): set<ServerId> {
    set s | s in visit && s in m.up && s in readable
  }

  function Visited(m: Mesh, q: SearchId, visit: seq<ServerId>, readable: set<ServerId>): (m': Mesh)
    requires q in m.searches
    ensures m'.searches.Keys == m.searches.Keys && m'.up == m.up && m'.owed == m.owed
  {
    if visit == [] then m
    else
      var s := visit[|visit| - 1];
      var m' := Visited(m, q, visit[..|visit| - 1], readable);
      if s in m.up && s in readable then Initiate(m', s, q) else m'
  }

  lemma {:induction false} VisitedAsksTheFit(m: Mesh, q: SearchId, visit: seq<ServerId>, readable: set<ServerId>)
    requires q in m.searches && m.searches[q].queried == m.searches[q].asked == {}
    ensures
      var servers := Fit(m, visit, readable);
      Visited(m, q, visit, readable)
        == m.(searches := m.searches[q := m.searches[q].(queried := servers, asked := servers)],
              registered := m.registered + Pairs(servers, q))
  {
    var m' := Visited(m, q, visit, readable);
    if visit == [] {
      assert Fit(m, visit, readable) == {};
      assert m.searches[q := m.searches[q]] == m.searches;
    } else {
      var rest, s := visit[..|visit| - 1], visit[|visit| - 1];
      assert visit == rest + [s];
      VisitedAsksTheFit(m, q, rest, readable);
      var servers := Fit(m, rest, readable);
      if s in m.up && s in readable {
        assert Fit(m, visit, readable) == servers + {s};
        assert Pairs(servers + {s}, q) == Pairs(servers, q) + {(s, q)};
        assert m.registered + Pairs(servers, q) + {(s, q)} == m.registered + Pairs(servers + {s}, q);
      } else {
        assert Fit(m, visit, readable) == servers;
      }
    }
  }

  const UNASKED := Search("", false, {}, false, None, false, [], {}, {}, {}, false)

  /** The steps of performSearch put together. */
  lemma SearchAssembled(m: Mesh, q: SearchId, u: Uuid, full: bool, servers: set<ServerId>)
    ensures
      var x := UNASKED.(uuid := u, full := full);
      var m1 := m.(searches := m.searches[q := x], active := m.active + {q});
      var m2 := m1.(searches := m1.searches[q := x.(queried := servers, asked := servers)],
                    registered := m1.registered + Pairs(servers, q));
      PerformSearch(m, q, u, full, servers)
        == if servers == {} then Finish(m2, q, NotFound)
           else m2.(searches := m2.searches[q := m2.searches[q].(timer := true)])
  {
    var x := UNASKED.(uuid := u, full := full);
    var y := x.(queried := servers, asked := servers);
    var z := if servers == {} then y.(answers := [NotFound]) else y.(timer := true);
    assert m.searches[q := x][q := y][q := z] == m.searches[q := z];
  }

  lemma DropRegistered(
    cs: map<ServerId, SearchMap>, searches: map<SearchId, Search>, s: ServerId, u: Uuid, order: seq<SearchId>)
    requires Filed(cs, searches) && s in cs && forall q :: q in order <==> Has(cs[s], u, q)
    ensures
      var cs' := cs[s := cs[s] - {u}];
      && Filed(cs', searches)
      && RegisteredIn(cs', searches) == RegisteredIn(cs, searches) - set q | q in order :: (s, q)
  {
    var cs' := cs[s := cs[s] - {u}];
    assert forall t, v, q | t in cs' :: Has(cs'[t], v, q) <==> Has(cs[t], v, q) && !(t == s && v == u);
  }

  /** The searches reported to so far: those filed under the UUIDs already done. */
  ghost predicate Covers(order: seq<SearchId>, current: SearchMap, todo: set<Uuid>, searches: map<SearchId, Search>) {
    && Distinct(order)
    && (forall q | q in order :: q in searches && searches[q].uuid !in todo && Has(current, searches[q].uuid, q))
    && (forall u, q | u !in todo && Has(current, u, q) :: q in order)
  }

  lemma CoversNothing(current: SearchMap, searches: map<SearchId, Search>)
    ensures Covers([], current, current.Keys, searches)
  {}

  lemma CoversOneMore(order: seq<SearchId>, part: seq<SearchId>, u: Uuid, current: SearchMap, todo: set<Uuid>,
                      searches: map<SearchId, Search>)
    requires Covers(order, current, todo, searches) && u in todo && u in current && Enumerates(part, current[u])
    requires forall q | q in current[u] :: q in searches && searches[q].uuid == u
    ensures Covers(order + part, current, todo - {u}, searches)
  {
    var both := order + part;
    forall i, j | 0 <= i < j < |both| ensures both[i] != both[j] {
      if i < |order| <= j {
        assert both[i] in order && both[j] in part;
      }
    }
    forall q | q in both ensures q in searches && searches[q].uuid !in todo - {u} && Has(current, searches[q].uuid, q) {
      if q in part { assert q in current[u]; }
    }
    forall v, q | v !in todo - {u} && Has(current, v, q) ensures q in both {
      if v == u { assert q in part; } else { assert q in order; }
    }
  }

  lemma CoversDistinct(order: seq<SearchId>, current: SearchMap, searches: map<SearchId, Search>)
    requires Covers(order, current, {}, searches)
    ensures Distinct(order)
  {}

  lemma CoversAll(order: seq<SearchId>, cs: map<ServerId, SearchMap>, s: ServerId, before: map<SearchId, Search>,
                  searches: map<SearchId, Search>)
    requires s in cs && Filed(cs, before) && Filed(cs, searches) && Covers(order, cs[s], {}, searches)
    ensures forall q :: q in order <==> q in before && (s, q) in RegisteredIn(cs, before)
  {}

  lemma DistinctAppend(order: seq<SearchId>, q: SearchId)
    requires Distinct(order) && q !in order
    ensures Distinct(order + [q])
  {
  }

  class Node {
    var up: set<ServerId>
    var currentSearches: map<ServerId, SearchMap>
    var searches: map<SearchId, Search>
    var activeSearches: set<SearchId>
    var owed: map<ServerId, seq<SearchId>>
    var posted: seq<SearchId>

    ghost predicate Valid()
      reads this
    {
      && currentSearches.Keys == owed.Keys && activeSearches <= searches.Keys && up <= owed.Keys
      && Filed(currentSearches, searches)
      && (forall s, q | s in owed && q in owed[s] :: q in searches)
      && (forall q | q in searches :: searches[q].queried <= owed.Keys)
    }

    ghost function Registered(): set<(ServerId, SearchId)>
      reads this
    {
      RegisteredIn(currentSearches, searches)
    }

    ghost function Abs(): Mesh
      reads this
    {
      Mesh(up, searches, activeSearches, Registered(), owed, posted)
    }

    constructor ()
      ensures Valid() && Abs() == EMPTY
    {
      up, currentSearches, searches, activeSearches, owed, posted := {}, map[], map[], {}, map[], [];
    }

    method MarkSearchComplete(q: SearchId)
      modifies this`activeSearches
      ensures activeSearches == old(activeSearches) - {q}
    {
      activeSearches := activeSearches - {q};
    }

    /** MeshServer::cancelSearch */
    method CancelSearch(s: ServerId, q: SearchId)
      requires Valid() && q in searches && s in currentSearches
      modifies this`currentSearches
      ensures Valid()
      ensures Abs() == old(Abs()).(registered := old(Registered()) - {(s, q)})
      ensures forall t | t in currentSearches && t != s :: currentSearches[t] == old(currentSearches)[t]
    {
      hide Erase;
      EraseRegistered(currentSearches, searches, s, q);
      currentSearches := currentSearches[s := Erase(currentSearches[s], searches[q].uuid, q)];
    }

    method CancelRemaining(q: SearchId)
      requires Valid() && q in searches
      modifies this
      ensures Valid() && Abs() == CancelRemainingServers(old(Abs()), q)
      ensures forall t | t in currentSearches && t !in old(searches)[q].queried ::
        currentSearches[t] == old(currentSearches)[t]
    {
      hide Filed;
      var todo := searches[q].queried;
      ghost var done: set<ServerId> := {};
      while todo != {}
        invariant Valid() && searches == old(searches)
        invariant todo + done == searches[q].queried && todo <= currentSearches.Keys
        invariant Abs() == old(Abs()).(registered := old(Registered()) - Pairs(done, q))
        invariant forall t | t in currentSearches && t !in searches[q].queried ::
          currentSearches[t] == old(currentSearches)[t]
      {
        var s :| s in todo;
        CancelSearch(s, q);
        todo := todo - {s};
        assert Pairs(done + {s}, q) == Pairs(done, q) + {(s, q)};
        done := done + {s};
      }
      assert done == searches[q].queried;
      SetSearch(q, searches[q].(queried := {}));
    }

    /** Assigns fields of a search object. */
    method SetSearch(q: SearchId, x: Search)
      requires Valid() && q in searches && x.uuid == searches[q].uuid && x.queried <= owed.Keys
      modifies this`searches
      ensures Valid() && Abs() == old(Abs()).(searches := old(searches)[q := x])
    {
      searches := searches[q := x];
    }

    /** Calls the callback and reports completion to the backend. */
    method Conclude(q: SearchId, a: Answer)
      requires Valid() && q in searches
      modifies this`searches, this`activeSearches
      ensures Valid() && Abs() == Finish(old(Abs()), q, a)
    {
      SetSearch(q, searches[q].(timer := false, answers := searches[q].answers + [a]));
      MarkSearchComplete(q);
    }

    /** MeshServer::getAsset, seen as a queue of unanswered calls. */
    method CallGetAsset(s: ServerId, q: SearchId)
      requires Valid() && s in owed && q in searches
      modifies this`posted, this`owed
      ensures Valid() && Abs() == GetAsset(old(Abs()), s, q)
    {
      if s !in up {
        posted := posted + [q];
      }
      owed := owed[s := owed[s] + [q]];
    }

    /** AssetSearch::onSearchResult */
    method HandleSearchResult(s: ServerId, q: SearchId, found: bool)
      requires Valid() && q in searches && s in owed
      modifies this
      ensures Valid() && Abs() == OnSearchResult(old(Abs()), s, q, found)
      ensures currentSearches.Keys == old(currentSearches).Keys && currentSearches[s] == old(currentSearches)[s]
    {
      hide Filed, RegisteredIn;
      SetSearch(q, Heard(searches[q], s, found));
      if found {
        CancelRemaining(q);
        if searches[q].full {
          SetSearch(q, searches[q].(timer := false, foundServer := Some(s), wasFound := true));
          CallGetAsset(s, q);
        } else {
          Conclude(q, Exists);
        }
      } else if searches[q].queried == {} {
        Conclude(q, NotFound);
      }
    }

    /** The loop of postResponse and close over the searches filed under one UUID. The handlers leave the
        set it runs over alone. */
    method Report(s: ServerId, u: Uuid, found: bool) returns (ghost order: seq<SearchId>)
      requires Valid() && s in owed && u in currentSearches[s]
      modifies this
      ensures Valid() && (forall q | q in order :: q in old(searches))
      ensures Abs() == Notify(old(Abs()), s, order, found)
      ensures Enumerates(order, old(currentSearches)[s][u])
      ensures currentSearches.Keys == old(currentSearches).Keys && currentSearches[s] == old(currentSearches)[s]
    {
      hide OnSearchResult, RegisteredIn, Filed, Notify, Distinct;
      var todo := currentSearches[s][u];
      order := [];
      NobodyTold(Abs(), s, found);
      FiledUnder(currentSearches, searches, s, u);
      while todo != {}
        invariant Valid() && owed.Keys == old(owed).Keys && searches.Keys == old(searches).Keys
        invariant currentSearches.Keys == old(currentSearches).Keys && currentSearches[s] == old(currentSearches)[s]
        invariant todo <= currentSearches[s][u]
        invariant forall q :: q in order <==> q in currentSearches[s][u] - todo
        invariant Distinct(order) && (forall q | q in order :: q in old(searches))
        invariant Abs() == Notify(old(Abs()), s, order, found)
      {
        var q :| q in todo;
        NotifyNext(old(Abs()), s, order, q, found);
        DistinctAppend(order, q);
        if q in activeSearches {
          HandleSearchResult(s, q, found);
        }
        order := order + [q];
        todo := todo - {q};
      }
    }

    /** MeshServer::postResponse */
    method HandleResponse(s: ServerId, u: Uuid, found: bool) returns (ghost order: seq<SearchId>)
      requires Valid() && s in owed
      modifies this
      ensures Valid() && Enumerates(order, Listeners(old(Abs()), s, u))
      ensures Abs() == PostResponse(old(Abs()), s, order, found)
    {
      order := [];
      assert forall q :: q in Listeners(Abs(), s, u) <==> Has(currentSearches[s], u, q);
      if u in currentSearches[s] {
        order := Report(s, u, found);
        DropUuid(s, u, order);
      } else {
        assert Registered() - (set q | q in order :: (s, q)) == Registered();
      }
    }

    /** _currentSearches.erase(uuid) */
    method DropUuid(s: ServerId, u: Uuid, ghost order: seq<SearchId>)
      requires Valid() && s in owed && forall q :: q in order <==> Has(currentSearches[s], u, q)
      modifies this`currentSearches
      ensures Valid() && Abs() == old(Abs()).(registered := old(Registered()) - set q | q in order :: (s, q))
    {
      DropRegistered(currentSearches, searches, s, u, order);
      currentSearches := currentSearches[s := currentSearches[s] - {u}];
    }

    /** AssetSearch::performSearch, given the servers in the order they are visited and those of them that
        report themselves readable. */
    method BeginSearch(q: SearchId, u: Uuid, full: bool, visit: seq<ServerId>, readable: set<ServerId>)
        returns (ghost servers: set<ServerId>)
      requires Valid() && q !in searches && (forall s | s in visit :: s in owed)
      modifies this
      ensures servers == (set s | s in visit && s in up && s in readable) && servers <= old(up)
      ensures Valid() && Abs() == PerformSearch(old(Abs()), q, u, full, servers)
    {
      hide Filed, RegisteredIn, Visited, PerformSearch, Finish, Pairs;
      servers := Fit(Abs(), visit, readable);
      SearchAssembled(Abs(), q, u, full, servers);
      AddSearch(q, UNASKED.(uuid := u, full := full));
      VisitServers(q, visit, readable);
      if searches[q].queried == {} {
        Conclude(q, NotFound);
      } else {
        SetSearch(q, searches[q].(timer := true));
      }
    }

    /** The loop of forEachServer over initiateSearch. */
    method VisitServers(q: SearchId, visit: seq<ServerId>, readable: set<ServerId>)
      requires Valid() && q in searches && searches[q].queried == {} && searches[q].asked == {}
      requires forall s | s in visit :: s in owed
      modifies this
      ensures Valid()
      ensures
        var servers := Fit(old(Abs()), visit, readable);
        Abs() == old(Abs()).(searches := old(searches)[q := old(searches)[q].(queried := servers, asked := servers)],
                             registered := old(Registered()) + Pairs(servers, q))
    {
      hide Filed, RegisteredIn, Initiate;
      for i := 0 to |visit|
        invariant Valid() && Abs() == Visited(old(Abs()), q, visit[..i], readable) && owed == old(owed)
      {
        assert visit[..i + 1][..i] == visit[..i];
        if visit[i] in up && visit[i] in readable {
          InitiateSearch(visit[i], q);
        }
      }
      assert visit[..|visit|] == visit;
      VisitedAsksTheFit(old(Abs()), q, visit, readable);
    }

    method AddSearch(q: SearchId, x: Search)
      requires Valid() && q !in searches && x.queried == {}
      modifies this
      ensures Valid() && Abs() == old(Abs()).(searches := old(searches)[q := x], active := old(activeSearches) + {q})
    {
      activeSearches := activeSearches + {q};
      searches := searches[q := x];
      assert Registered() == old(Registered());
    }

    /** AssetSearch::initiateSearch on a server fit to be asked, with MeshServer::search. */
    method InitiateSearch(s: ServerId, q: SearchId)
      requires Valid() && s in owed && q in searches
      modifies this
      ensures Valid() && Abs() == Initiate(old(Abs()), s, q)
    {
      hide Insert;
      InsertRegistered(currentSearches, searches, s, q);
      currentSearches := currentSearches[s := Insert(currentSearches[s], searches[q].uuid, q)];
      SetSearch(q, searches[q].(queried := searches[q].queried + {s}, asked := searches[q].asked + {s}));
    }

    /** AssetSearch::onTimeout */
    method HandleTimeout(q: SearchId)
      requires Valid() && q in searches
      modifies this
      ensures Valid() && Abs() == OnTimeout(old(Abs()), q)
    {
      hide Filed, RegisteredIn;
      SetSearch(q, searches[q].(timer := false));
      if !searches[q].wasFound {
        CancelRemaining(q);
        SetSearch(q, searches[q].(timedOut := true));
        Conclude(q, NotFound);
      }
    }

    /** AssetSearch::onFullAssetRcvd */
    method HandleFullAsset(q: SearchId, asset: Option<AssetData>)
      requires Valid() && q in searches
      modifies this`searches, this`activeSearches
      ensures Valid() && Abs() == OnFullAssetRcvd(old(Abs()), q, asset)
      ensures searches.Keys == old(searches).Keys && activeSearches == old(activeSearches) - {q}
      ensures
        searches[q].answers == old(searches)[q].answers
                               + if !searches[q].full then []
                                 else match asset case Some(a) => [Found(a)] case None => [NotFound]
    {
      if searches[q].full {
        var a := if asset.Some? then Found(asset.value) else NotFound;
        SetSearch(q, searches[q].(answers := searches[q].answers + [a]));
      }
      MarkSearchComplete(q);
      assert Abs().searches == OnFullAssetRcvd(old(Abs()), q, asset).searches;
    }

    /** The oldest transfer of a server is answered. */
    method HandleTransfer(s: ServerId, asset: Option<AssetData>)
      requires Valid() && s in owed && owed[s] != []
      modifies this`searches, this`activeSearches, this`owed
      ensures Valid() && Abs() == AnswerTransfer(old(Abs()), s, asset)
      ensures
        var q := old(owed)[s][0];
        && q in old(searches) && q in searches && q !in activeSearches
        && searches[q].answers == old(searches)[q].answers
                                  + if !searches[q].full then []
                                    else match asset case Some(a) => [Found(a)] case None => [NotFound]
      ensures owed == old(owed)[s := old(owed)[s][1..]]
    {
      var q := owed[s][0];
      owed := owed[s := owed[s][1..]];
      HandleFullAsset(q, asset);
    }

    /** The nested loop of close over all registered searches. */
    method ReportAll(s: ServerId) returns (ghost order: seq<SearchId>)
      requires Valid() && s in owed
      modifies this
      ensures Valid() && (forall q | q in order :: q in old(searches))
      ensures Covers(order, old(currentSearches)[s], {}, old(searches))
      ensures Abs() == Notify(old(Abs()), s, order, false)
    {
      hide OnSearchResult, RegisteredIn, Covers;
      var todo := currentSearches[s].Keys;
      order := [];
      CoversNothing(currentSearches[s], searches);
      while todo != {}
        invariant Valid() && owed.Keys == old(owed).Keys && searches.Keys == old(searches).Keys
        invariant currentSearches.Keys == old(currentSearches).Keys && currentSearches[s] == old(currentSearches)[s]
        invariant todo <= currentSearches[s].Keys && (forall q | q in order :: q in old(searches))
        invariant Covers(order, old(currentSearches)[s], todo, old(searches))
        invariant Abs() == Notify(old(Abs()), s, order, false)
      {
        var u :| u in todo;
        assert forall q | q in currentSearches[s][u] :: Has(old(currentSearches)[s], u, q);
        ghost var part := Report(s, u, false);
        NotifyAppend(old(Abs()), s, order, part, false);
        CoversOneMore(order, part, u, old(currentSearches)[s], todo, old(searches));
        order := order + part;
        todo := todo - {u};
      }
      assert todo == {};
    }

    /** The call at position `at` of a server's queue is answered null. */
    method AnswerCall(s: ServerId, at: nat)
      requires Valid() && s in owed && at < |owed[s]|
      modifies this`searches, this`activeSearches, this`owed
      ensures owed == old(owed)[s := MeshLink.Cut(old(owed)[s], at)] && searches.Keys == old(searches).Keys
      ensures Valid() && Abs() == MeshLink.AnswerAt(old(Abs()), s, at)
    {
      hide RegisteredIn, Filed;
      var q := owed[s][at];
      owed := owed[s := owed[s][..at] + owed[s][at + 1..]];
      HandleFullAsset(q, None);
    }

    /** One draining loop of close: the calls of a server from position `from` on are answered null. */
    method DrainFrom(s: ServerId, from: nat)
      requires Valid() && s in owed && from <= |owed[s]|
      modifies this`searches, this`activeSearches, this`owed
      ensures Valid() && owed.Keys == old(owed).Keys && MeshLink.Known(old(Abs()), old(owed)[s])
      ensures Abs() == MeshLink.DrainBehind(old(Abs()), s, from)
    {
      hide RegisteredIn, Filed, MeshLink.AnswerAt;
      while |owed[s]| > from
        invariant Valid() && s in owed && searches.Keys == old(searches).Keys && owed.Keys == old(owed).Keys
        invariant MeshLink.DrainBehind(Abs(), s, from) == MeshLink.DrainBehind(old(Abs()), s, from)
        decreases |owed[s]|
      {
        AnswerCall(s, from);
      }
    }

    /** The two draining loops of close: the requests still to be sent, then those sent, of which there are `sent`. */
    method DrainAll(s: ServerId, sent: nat)
      requires Valid() && s in owed && sent <= |owed[s]|
      modifies this`searches, this`activeSearches, this`owed
      ensures Valid() && Abs() == DrainTransfers(old(Abs()), s)
    {
      hide RegisteredIn, Filed, DrainTransfers, MeshLink.DrainBehind;
      MeshLink.TwoDrains(Abs(), s, sent);
      DrainFrom(s, sent);
      DrainFrom(s, 0);
    }

    /** MeshServer::close, as far as searches and their transfers go. */
    method CloseServer(s: ServerId, sent: nat) returns (ghost order: seq<SearchId>)
      requires Valid() && s in owed && sent <= |owed[s]|
      modifies this
      ensures Valid() && Enumerates(order, AllListeners(old(Abs()), s))
      ensures Abs() == Close(old(Abs()), s, order)
    {
      hide Notify, DrainTransfers, RegisteredIn, Filed, Covers;
      ghost var m, cs := Abs(), currentSearches;
      DrainAll(s, sent);
      ghost var drained := searches;
      order := ReportAll(s);
      CoversAll(order, cs, s, m.searches, drained);
      CoversDistinct(order, cs[s], drained);
      up := up - {s};
    }
  }
}
