/** Asset searches across the mesh: AssetSearch objects, the searches each MeshServer has registered,
    and the set of active searches kept by MeshStorageBackend. Handlers run one at a time on the
    io_service thread; callbacks do not call back into the mesh. The transfers of a connected server
    appear here as one queue of unanswered getAsset calls (MeshLink.RunsFollow). */
module MeshSearch {
  import opened Wrappers
  import opened Sequences

  type ServerId = nat
  type SearchId = nat
  type Uuid = string
  type AssetData = seq<bv8>

  /** What a search tells its caller. A full search reports NotFound by a null asset. */
  datatype Answer = NotFound | Exists | Found(asset: AssetData)

  datatype Search = Search(
    uuid: Uuid,
    full: bool,                        // _fullCallBack set, rather than _testCallBack
    queried: set<ServerId>,            // _queriedServers
    wasFound: bool,
    foundServer: Option<ServerId>,
    timer: bool,                       // _timeoutTimer is running
    answers: seq<Answer>,              // calls of the callback
    asked: set<ServerId>,              // the servers it was sent to
    denied: set<ServerId>,             // servers that reported not found
    confirmed: set<ServerId>,          // servers that reported found
    timedOut: bool)

  datatype Mesh = Mesh(
    up: set<ServerId>,                              // _assetConnectionEstablished
    searches: map<SearchId, Search>,                // every search ever made
    active: set<SearchId>,                          // _activeSearches; a weak pointer locks exactly on these
    registered: set<(ServerId, SearchId)>,          // _currentSearches of every server
    owed: map<ServerId, seq<SearchId>>,             // unanswered getAsset calls of every server
    posted: seq<SearchId>)                          // null callbacks posted to the io_service

  const EMPTY := Mesh({}, map[], {}, {}, map[], [])

  // ----- Handlers

  function Pairs(servers: set<ServerId>, q: SearchId): set<(ServerId, SearchId)> {
    set s | s in servers :: (s, q)
  }

  /** Cancels the timer, calls the callback and leaves the set of active searches. */
  function Finish(m: Mesh, q: SearchId, a: Answer): Mesh
    requires q in m.searches
  {
    var x := m.searches[q];
    m.(searches := m.searches[q := x.(timer := false, answers := x.answers + [a])], active := m.active - {q})
  }

  function CancelRemainingServers(m: Mesh, q: SearchId): Mesh
    requires q in m.searches
  {
    var x := m.searches[q];
    m.(registered := m.registered - Pairs(x.queried, q), searches := m.searches[q := x.(queried := {})])
  }

  function GetAsset(m: Mesh, s: ServerId, q: SearchId): Mesh
    requires s in m.owed
  {
    m.(posted := if s in m.up then m.posted else m.posted + [q], owed := m.owed[s := m.owed[s] + [q]])
  }

  /** The report of server s taken off the list of servers to hear from. */
  function Heard(x: Search, s: ServerId, found: bool): Search {
    x.(queried := x.queried - {s},
       denied := if found then x.denied else x.denied + {s},
       confirmed := if found then x.confirmed + {s} else x.confirmed)
  }

  function OnSearchResult(m: Mesh, s: ServerId, q: SearchId, found: bool): (m': Mesh)
    requires q in m.searches && s in m.owed
    ensures m'.searches.Keys == m.searches.Keys && m'.owed.Keys == m.owed.Keys
  {
    var m := m.(searches := m.searches[q := Heard(m.searches[q], s, found)]);
    if found then
      var m := CancelRemainingServers(m, q);
      var x := m.searches[q].(timer := false);
      if x.full then
        GetAsset(m.(searches := m.searches[q := x.(foundServer := Some(s), wasFound := true)]), s, q)
      else Finish(m, q, Exists)
    else if m.searches[q].queried == {} then Finish(m, q, NotFound)
    else m
  }

  /** Reports to the searches in the list, skipping those that are gone. */
  function Notify(m: Mesh, s: ServerId, order: seq<SearchId>, found: bool): (m': Mesh)
    requires s in m.owed && forall q :: q in order ==> q in m.searches
    ensures m'.searches.Keys == m.searches.Keys && m'.owed.Keys == m.owed.Keys
  {
    if order == [] then m
    else
      var last := order[|order| - 1];
      var m' := Notify(m, s, order[..|order| - 1], found);
      if last in m'.active then OnSearchResult(m', s, last, found) else m'
  }

  /** The searches registered with server s for an asset. */
  function Listeners(m: Mesh, s: ServerId, u: Uuid): set<SearchId> {
    set q | q in m.searches && (s, q) in m.registered && m.searches[q].uuid == u
  }

  function PostResponse(m: Mesh, s: ServerId, order: seq<SearchId>, found: bool): Mesh
    requires s in m.owed && forall q :: q in order ==> q in m.searches
  {
    var m' := Notify(m, s, order, found);
    m'.(registered := m'.registered - set q | q in order :: (s, q))
  }

  function PerformSearch(m: Mesh, q: SearchId, u: Uuid, full: bool, servers: set<ServerId>): Mesh {
    var x := Search(u, full, servers, false, None, servers != {}, [], servers, {}, {}, false);
    var m := m.(
      searches := m.searches[q := x], active := m.active + {q}, registered := m.registered + Pairs(servers, q));
    if servers == {} then Finish(m, q, NotFound) else m
  }

  function OnTimeout(m: Mesh, q: SearchId): Mesh
    requires q in m.searches
  {
    var m := m.(searches := m.searches[q := m.searches[q].(timer := false)]);
    if m.searches[q].wasFound then m
    else
      var m := CancelRemainingServers(m, q);
      Finish(m.(searches := m.searches[q := m.searches[q].(timedOut := true)]), q, NotFound)
  }

  function AnswerOf(asset: Option<AssetData>): Answer {
    if asset.Some? then Found(asset.value) else NotFound
  }

  /** onFullAssetRcvd; the callback is called even if the search is no longer active. */
  function OnFullAssetRcvd(m: Mesh, q: SearchId, asset: Option<AssetData>): Mesh
    requires q in m.searches
  {
    var x := m.searches[q];
    m.(searches := m.searches[q := x.(answers := if x.full then x.answers + [AnswerOf(asset)] else x.answers)],
       active := m.active - {q})
  }

  function AnswerTransfer(m: Mesh, s: ServerId, asset: Option<AssetData>): Mesh
    requires s in m.owed && m.owed[s] != [] && m.owed[s][0] in m.searches
  {
    OnFullAssetRcvd(m.(owed := m.owed[s := m.owed[s][1..]]), m.owed[s][0], asset)
  }

  /** Null answers to every unanswered transfer of server s. */
  function DrainTransfers(m: Mesh, s: ServerId): (m': Mesh)
    requires s in m.owed && forall q :: q in m.owed[s] ==> q in m.searches
    ensures m'.searches.Keys == m.searches.Keys && m'.owed.Keys == m.owed.Keys
    ensures m'.registered == m.registered && m'.up == m.up
    decreases |m.owed[s]|
  {
    if m.owed[s] == [] then m else DrainTransfers(AnswerTransfer(m, s, None), s)
  }

  /** Every search registered with server s. */
  function AllListeners(m: Mesh, s: ServerId): set<SearchId> {
    set q | q in m.searches && (s, q) in m.registered
  }

  /** Cancels the transfers, then reports not found to every registered search. The registrations stay. */
  function Close(m: Mesh, s: ServerId, order: seq<SearchId>): Mesh
    requires s in m.owed && (forall q :: q in m.owed[s] ==> q in m.searches)
    requires forall q :: q in order ==> q in m.searches
  {
    var m' := Notify(DrainTransfers(m, s), s, order, false);
    m'.(up := m'.up - {s})
  }

  // ----- Runs

  datatype Event =
    | Connect(server: ServerId)
    | Start(search: SearchId, uuid: Uuid, full: bool, servers: set<ServerId>)
    | Response(server: ServerId, uuid: Uuid, found: bool, order: seq<SearchId>)
    | Timeout(search: SearchId)
    | TransferDone(server: ServerId, asset: Option<AssetData>)
    | PostedRuns
    | Closed(server: ServerId, order: seq<SearchId>)

  /** What can happen: a search goes only to connected servers (a server that is not connected counts as
      timed out), only a running timer fires, and only a transfer that was asked for is answered. */
  ghost predicate Enabled(m: Mesh, ev: Event) {
    match ev
    case Connect(s) => s !in m.owed
    case Start(q, _, _, servers) => q !in m.searches && servers <= m.up
    case Response(s, u, _, order) => s in m.owed && Enumerates(order, Listeners(m, s, u))
    case Timeout(q) => q in m.active && q in m.searches && m.searches[q].timer
    case TransferDone(s, _) => s in m.owed && m.owed[s] != [] && m.owed[s][0] in m.searches
    case PostedRuns => m.posted != [] && m.posted[0] in m.searches
    case Closed(s, order) => s in m.owed && (forall q :: q in m.owed[s] ==> q in m.searches)
                             && Enumerates(order, AllListeners(m, s))
  }

  ghost function Next(m: Mesh, ev: Event): Mesh
    requires Enabled(m, ev)
  {
    match ev
    case Connect(s) => m.(up := m.up + {s}, owed := m.owed[s := []])
    case Start(q, u, full, servers) => PerformSearch(m, q, u, full, servers)
    case Response(s, _, found, order) => PostResponse(m, s, order, found)
    case Timeout(q) => OnTimeout(m, q)
    case TransferDone(s, asset) => AnswerTransfer(m, s, asset)
    case PostedRuns => OnFullAssetRcvd(m.(posted := m.posted[1..]), m.posted[0], None)
    case Closed(s, order) => Close(m, s, order)
  }

  /** No search that a server has registered is being fetched. */
  ghost predicate NoneFetched(m: Mesh, s: ServerId) {
    forall q | q in m.searches && (s, q) in m.registered && q in m.active :: !m.searches[q].wasFound
  }

  /** A closed connection brings no answers; it may be closed again while none of the searches it still has
      registered is being fetched. */
  ghost predicate Quiet(m: Mesh, ev: Event) {
    match ev
    case Response(s, _, _, _) => s in m.up
    case TransferDone(s, _) => s in m.up
    case Closed(s, _) => s in m.up || NoneFetched(m, s)
    case _ => true
  }

  /** A run: the states it passes through, starting from nothing. */
  ghost predicate IsRun(ms: seq<Mesh>, evs: seq<Event>) {
    && |ms| == |evs| + 1 && ms[0] == EMPTY
    && forall i | 0 <= i < |evs| :: Enabled(ms[i], evs[i]) && ms[i + 1] == Next(ms[i], evs[i])
  }

  // ----- Changes to one search

  /** m' differs from m at most in what concerns search q, and registers nothing new. */
  ghost predicate Touches(m: Mesh, m': Mesh, q: SearchId) {
    && m'.registered <= m.registered
    && m'.searches.Keys == m.searches.Keys && m'.owed.Keys == m.owed.Keys && m'.up == m.up
    && (forall p | p in m.searches && p != q :: m'.searches[p] == m.searches[p])
    && (forall p | p != q :: p in m'.active <==> p in m.active)
    && (forall s, p | p != q :: (s, p) in m'.registered <==> (s, p) in m.registered)
    && (forall s, p | s in m.owed && p != q :: p in m'.owed[s] <==> p in m.owed[s])
    && (forall p | p != q :: p in m'.posted <==> p in m.posted)
  }

  lemma SetTouches(m: Mesh, q: SearchId, x: Search)
    requires q in m.searches
    ensures Touches(m, m.(searches := m.searches[q := x]), q)
  {}

  lemma FinishTouches(m: Mesh, q: SearchId, a: Answer)
    requires q in m.searches
    ensures Touches(m, Finish(m, q, a), q)
  {}

  lemma CancelTouches(m: Mesh, q: SearchId)
    requires q in m.searches
    ensures Touches(m, CancelRemainingServers(m, q), q)
  {}

  lemma GetAssetTouches(m: Mesh, s: ServerId, q: SearchId)
    requires s in m.owed
    ensures Touches(m, GetAsset(m, s, q), q)
  {}

  lemma TouchesTrans(m: Mesh, m': Mesh, m'': Mesh, q: SearchId)
    requires Touches(m, m', q) && Touches(m', m'', q)
    ensures Touches(m, m'', q)
  {}

  lemma OnSearchResultTouches(m: Mesh, s: ServerId, q: SearchId, found: bool)
    requires q in m.searches && s in m.owed
    ensures Touches(m, OnSearchResult(m, s, q, found), q)
  {
    hide Touches;
    var heard := m.(searches := m.searches[q := Heard(m.searches[q], s, found)]);
    SetTouches(m, q, Heard(m.searches[q], s, found));
    var m' := OnSearchResult(m, s, q, found);
    if found {
      var rest := CancelRemainingServers(heard, q);
      CancelTouches(heard, q);
      TouchesTrans(m, heard, rest, q);
      if rest.searches[q].full {
        var x := rest.searches[q].(timer := false, foundServer := Some(s), wasFound := true);
        var fetching := rest.(searches := rest.searches[q := x]);
        SetTouches(rest, q, x);
        GetAssetTouches(fetching, s, q);
        TouchesTrans(m, rest, fetching, q);
        TouchesTrans(m, fetching, m', q);
      } else {
        FinishTouches(rest, q, Exists);
        TouchesTrans(m, rest, m', q);
      }
    } else if heard.searches[q].queried == {} {
      FinishTouches(heard, q, NotFound);
      TouchesTrans(m, heard, m', q);
    }
  }

  // ----- Registration: what holds in every run

  /** What one search can rely on: every server it still waits for has it registered, and once it is
      finished or found it waits for nobody. */
  ghost predicate ListenedTo(m: Mesh, q: SearchId)
    requires q in m.searches
  {
    var x := m.searches[q];
    && (forall s | s in x.queried :: (s, q) in m.registered)
    && (q !in m.active || x.wasFound ==> x.queried == {})
    && (forall s | s in m.owed && q in m.owed[s] :: x.wasFound && s in x.confirmed)
    && (q in m.posted ==> x.wasFound)
  }

  ghost predicate Listened(m: Mesh) {
    && (forall q | q in m.searches :: ListenedTo(m, q))
    && (forall s, q | s in m.owed && q in m.owed[s] :: q in m.searches)
    && (forall q | q in m.posted :: q in m.searches)
    && (forall s, q | (s, q) in m.registered :: q in m.searches)
    && m.active <= m.searches.Keys && m.up <= m.owed.Keys
  }

  lemma TouchKeepsListened(m: Mesh, m': Mesh, q: SearchId)
    requires Listened(m) && Touches(m, m', q) && q in m.searches && ListenedTo(m', q)
    ensures Listened(m')
  {
    forall p | p in m'.searches ensures ListenedTo(m', p) {
      if p != q { assert ListenedTo(m, p); }
    }
  }

  lemma OnSearchResultKeepsListened(m: Mesh, s: ServerId, q: SearchId, found: bool)
    requires Listened(m) && q in m.searches && s in m.owed
    ensures Listened(OnSearchResult(m, s, q, found))
    ensures OnSearchResult(m, s, q, found).searches[q].queried <= m.searches[q].queried - {s}
  {
    var m' := OnSearchResult(m, s, q, found);
    OnSearchResultTouches(m, s, q, found);
    assert ListenedTo(m, q);
    assert ListenedTo(m', q);
    TouchKeepsListened(m, m', q);
  }

  lemma InactiveWaitsForNobody(m: Mesh, q: SearchId)
    requires Listened(m) && q in m.searches && q !in m.active
    ensures m.searches[q].queried == {}
  {
    assert ListenedTo(m, q);
  }

  lemma {:induction false} NotifyKeepsListened(m: Mesh, s: ServerId, order: seq<SearchId>, found: bool)
    requires Listened(m) && s in m.owed && forall q :: q in order ==> q in m.searches
    ensures Listened(Notify(m, s, order, found))
    ensures forall q | q in m.searches ::
              Notify(m, s, order, found).searches[q].queried <= m.searches[q].queried - if q in order then {s} else {}
  {
    hide OnSearchResult, Listened, ListenedTo;
    if order != [] {
      var rest, last := order[..|order| - 1], order[|order| - 1];
      NotifyKeepsListened(m, s, rest, found);
      var m1 := Notify(m, s, rest, found);
      assert order == rest + [last];
      if last in m1.active {
        OnSearchResultKeepsListened(m1, s, last, found);
        OnSearchResultTouches(m1, s, last, found);
      } else {
        InactiveWaitsForNobody(m1, last);
      }
    }
  }

  lemma PostResponseKeepsListened(m: Mesh, s: ServerId, order: seq<SearchId>, found: bool)
    requires Listened(m) && s in m.owed && forall q :: q in order ==> q in m.searches
    ensures Listened(PostResponse(m, s, order, found))
  {
    NotifyKeepsListened(m, s, order, found);
    var m1, m' := Notify(m, s, order, found), PostResponse(m, s, order, found);
    forall q | q in m'.searches ensures ListenedTo(m', q) {
      assert ListenedTo(m1, q);
    }
  }

  lemma OnFullAssetKeepsListened(m: Mesh, q: SearchId, asset: Option<AssetData>)
    requires Listened(m) && q in m.searches && m.searches[q].wasFound
    ensures Listened(OnFullAssetRcvd(m, q, asset))
  {
    assert ListenedTo(m, q);
    TouchKeepsListened(m, OnFullAssetRcvd(m, q, asset), q);
  }

  /** Fewer unanswered transfers, posted callbacks or connected servers break nothing. */
  lemma FewerKeepsListened(m: Mesh, m': Mesh)
    requires Listened(m) && m'.searches == m.searches && m'.active == m.active && m'.registered == m.registered
    requires m'.owed.Keys == m.owed.Keys && m'.up <= m.up
    requires forall s, q | s in m.owed && q in m'.owed[s] :: q in m.owed[s]
    requires forall q | q in m'.posted :: q in m.posted
    ensures Listened(m')
  {
    forall q | q in m'.searches ensures ListenedTo(m', q) { assert ListenedTo(m, q); }
  }

  lemma AnswerTransferKeepsListened(m: Mesh, s: ServerId, asset: Option<AssetData>)
    requires Listened(m) && s in m.owed && m.owed[s] != [] && m.owed[s][0] in m.searches
    ensures Listened(AnswerTransfer(m, s, asset))
  {
    assert ListenedTo(m, m.owed[s][0]);
    FewerKeepsListened(m, m.(owed := m.owed[s := m.owed[s][1..]]));
    OnFullAssetKeepsListened(m.(owed := m.owed[s := m.owed[s][1..]]), m.owed[s][0], asset);
  }

  lemma {:induction false} DrainKeepsListened(m: Mesh, s: ServerId)
    requires Listened(m) && s in m.owed
    ensures Listened(DrainTransfers(m, s))
    decreases |m.owed[s]|
  {
    if m.owed[s] != [] {
      AnswerTransferKeepsListened(m, s, None);
      DrainKeepsListened(AnswerTransfer(m, s, None), s);
    }
  }

  lemma CloseKeepsListened(m: Mesh, s: ServerId, order: seq<SearchId>)
    requires Listened(m) && s in m.owed && forall q :: q in order ==> q in m.searches
    ensures Listened(Close(m, s, order))
  {
    DrainKeepsListened(m, s);
    NotifyKeepsListened(DrainTransfers(m, s), s, order, false);
    var m' := Notify(DrainTransfers(m, s), s, order, false);
    FewerKeepsListened(m', m'.(up := m'.up - {s}));
  }

  lemma PerformSearchKeepsListened(m: Mesh, q: SearchId, u: Uuid, full: bool, servers: set<ServerId>)
    requires Listened(m) && q !in m.searches && servers <= m.up
    ensures Listened(PerformSearch(m, q, u, full, servers))
  {
    var m' := PerformSearch(m, q, u, full, servers);
    forall p | p in m'.searches ensures ListenedTo(m', p) {
      if p != q { assert ListenedTo(m, p); }
    }
  }

  lemma OnTimeoutKeepsListened(m: Mesh, q: SearchId)
    requires Listened(m) && q in m.searches
    ensures Listened(OnTimeout(m, q))
  {
    assert ListenedTo(m, q);
    TouchKeepsListened(m, OnTimeout(m, q), q);
  }

  lemma StepKeepsListened(m: Mesh, ev: Event)
    requires Listened(m) && Enabled(m, ev)
    ensures Listened(Next(m, ev))
  {
    match ev
    case Connect(s) =>
      forall q | q in m.searches ensures ListenedTo(Next(m, ev), q) { assert ListenedTo(m, q); }
    case Start(q, u, full, servers) => PerformSearchKeepsListened(m, q, u, full, servers);
    case Response(s, _, found, order) => PostResponseKeepsListened(m, s, order, found);
    case Timeout(q) => OnTimeoutKeepsListened(m, q);
    case TransferDone(s, asset) => AnswerTransferKeepsListened(m, s, asset);
    case PostedRuns =>
      assert ListenedTo(m, m.posted[0]);
      FewerKeepsListened(m, m.(posted := m.posted[1..]));
      OnFullAssetKeepsListened(m.(posted := m.posted[1..]), m.posted[0], None);
    case Closed(s, order) => CloseKeepsListened(m, s, order);
  }

  /** In every run, closed connections included, no search waits for a server that has forgotten it. */
  lemma {:induction false} NoSearchWaitsForgotten(ms: seq<Mesh>, evs: seq<Event>, i: nat)
    requires IsRun(ms, evs) && i < |ms|
    ensures Listened(ms[i])
  {
    if i > 0 {
      NoSearchWaitsForgotten(ms, evs, i - 1);
      StepKeepsListened(ms[i - 1], evs[i - 1]);
    }
  }
}
