/** The asset cache: a list in order of use, an index into it, and a count of the bytes it holds. */
module LruCache {
  import opened Wrappers

  type Key = string

  /** An asset; only its bytes matter to the cache. */
  datatype Item = Item(content: string)

  datatype Entry = Entry(key: Key, data: Item)

  const WORD := 0x1_0000_0000_0000_0000
  const TOTAL_OVERHEAD := 32 + 8

  // ----- Meaning

  function Charge(e: Entry): nat { |e.data.content| + TOTAL_OVERHEAD }

  function Sum(es: seq<Entry>): nat {
    if es == [] then 0 else Sum(es[..|es| - 1]) + Charge(es[|es| - 1])
  }

  predicate Has(es: seq<Entry>, key: Key) { exists i :: 0 <= i < |es| && es[i].key == key }

  predicate Distinct(es: seq<Entry>) { forall i, j :: 0 <= i < j < |es| ==> es[i].key != es[j].key }

  /** Where a key is, or the length of the list. */
  function Find(es: seq<Entry>, key: Key): (n: nat)
    ensures n <= |es| && (n < |es| ==> es[n].key == key) && forall i :: 0 <= i < n ==> es[i].key != key
  {
    if es == [] then 0
    else
      var n := Find(es[..|es| - 1], key);
      if n < |es| - 1 then n else if es[|es| - 1].key == key then n else |es|
  }

  function Cut(es: seq<Entry>, n: nat): seq<Entry>
    requires n <= |es|
  {
    if n < |es| then es[..n] + es[n + 1..] else es
  }

  function Without(es: seq<Entry>, key: Key): seq<Entry> { Cut(es, Find(es, key)) }

  function Touched(es: seq<Entry>, key: Key): seq<Entry> {
    var n := Find(es, key);
    if n < |es| then [es[n]] + Cut(es, n) else es
  }

  /** The longest beginning of the list whose charges fit. */
  function Fit(es: seq<Entry>, max: nat): seq<Entry> {
    if es == [] || Sum(es) <= max then es else Fit(es[..|es| - 1], max)
  }

  /** What dropping from the end leaves when the total is counted in 64 bits. */
  function Evicted(es: seq<Entry>, max: nat): seq<Entry> {
    if es == [] || Sum(es) % WORD <= max then es else Evicted(es[..|es| - 1], max)
  }

  function Inserted(es: seq<Entry>, key: Key, data: Item, max: nat): seq<Entry> {
    Evicted([Entry(key, data)] + Without(es, key), max)
  }

  function Fetched(es: seq<Entry>, key: Key): Option<Item> {
    var n := Find(es, key);
    if n < |es| then Some(es[n].data) else None
  }

  /** A key is found exactly if the list has it, and with the data that stands there under it. */
  lemma FetchedIffHas(es: seq<Entry>, key: Key)
    ensures Fetched(es, key).Some? <==> Has(es, key)
    ensures Fetched(es, key).Some? ==> Entry(key, Fetched(es, key).value) in es
    ensures Distinct(es) ==> forall e | e in es && e.key == key :: Fetched(es, key) == Some(e.data)
  {
  }

  // ----- Sums

  lemma {:induction false} SumConcat(a: seq<Entry>, b: seq<Entry>)
    ensures Sum(a + b) == Sum(a) + Sum(b)
  {
    if b == [] {
      assert a + b == a;
    } else {
      SumConcat(a, b[..|b| - 1]);
      assert (a + b)[..|a + b| - 1] == a + b[..|b| - 1];
    }
  }

  lemma SumOne(e: Entry)
    ensures Sum([e]) == Charge(e)
  {
    assert [e][..0] == [];
  }

  lemma SumCut(es: seq<Entry>, n: nat)
    requires n < |es|
    ensures Sum(es) == Sum(Cut(es, n)) + Charge(es[n])
  {
    hide Sum;
    assert es == es[..n] + [es[n]] + es[n + 1..];
    SumConcat(es[..n] + [es[n]], es[n + 1..]);
    SumConcat(es[..n], [es[n]]);
    SumConcat(es[..n], es[n + 1..]);
    SumOne(es[n]);
  }

  // ----- Eviction

  /** Fit is a beginning of the list that fits, and every longer one does not. */
  lemma {:induction false} FitIsLongest(es: seq<Entry>, max: nat)
    ensures Fit(es, max) <= es && Sum(Fit(es, max)) <= max
    ensures forall n :: |Fit(es, max)| < n <= |es| ==> Sum(es[..n]) > max
  {
    if es == [] {
    } else if Sum(es) > max {
      var shorter := es[..|es| - 1];
      FitIsLongest(shorter, max);
      forall n | |Fit(es, max)| < n <= |es|
        ensures Sum(es[..n]) > max
      {
        if n < |es| {
          assert es[..n] == shorter[..n];
        } else {
          assert es[..n] == es;
        }
      }
    }
  }

  lemma {:induction false} EvictedIsFit(es: seq<Entry>, max: nat)
    requires Sum(es) < WORD
    ensures Evicted(es, max) == Fit(es, max)
  {
    if es != [] {
      var shorter := es[..|es| - 1];
      EvictedIsFit(shorter, max);
    }
  }

  /** Insertion leaves the longest most recently used beginning that fits if and only if the total fits 64 bits. */
  lemma InsertFitsIff(es: seq<Entry>, key: Key, data: Item, max: nat)
    requires Sum(es) <= max < WORD && Charge(Entry(key, data)) < WORD
    ensures
      var all := [Entry(key, data)] + Without(es, key);
      Inserted(es, key, data, max) == Fit(all, max) <==> Sum(all) < WORD
  {
    var e, rest := Entry(key, data), Without(es, key);
    var all := [e] + rest;
    SumConcat([e], rest);
    SumOne(e);
    WithoutIsLighter(es, key);
    if Sum(all) < WORD {
      EvictedIsFit(all, max);
    } else {
      assert Sum(all) % WORD == Sum(all) - WORD;
      FitIsLongest(all, max);
      assert Evicted(all, max) == all;
    }
  }

  lemma WithoutIsLighter(es: seq<Entry>, key: Key)
    ensures Sum(Without(es, key)) <= Sum(es)
  {
    var n := Find(es, key);
    if n < |es| {
      SumCut(es, n);
    }
  }

  lemma {:induction false} FirstIsCharged(es: seq<Entry>)
    ensures es != [] ==> Sum(es) >= Charge(es[0])
  {
    if |es| > 1 {
      FirstIsCharged(es[..|es| - 1]);
    }
  }

  /** An item that is too big for the cache empties it. */
  lemma TooBigEmpties(es: seq<Entry>, key: Key, data: Item, max: nat)
    requires Sum([Entry(key, data)] + Without(es, key)) < WORD && Charge(Entry(key, data)) > max
    ensures Inserted(es, key, data, max) == []
  {
    var all := [Entry(key, data)] + Without(es, key);
    EvictedIsFit(all, max);
    FitIsLongest(all, max);
    FirstIsCharged(Fit(all, max));
  }

  /** A full cache of the largest size keeps everything when one more byte count wraps around. */
  lemma WrappedCountEvictsNothing()
    returns (es: seq<Entry>)
    ensures Sum(es) <= WORD - 1 && Sum(Inserted(es, "b", Item(""), WORD - 1)) > WORD - 1
    ensures Inserted(es, "b", Item(""), WORD - 1) == [Entry("b", Item(""))] + es
  {
    var first := Entry("a", Item(seq(WORD - 1 - TOTAL_OVERHEAD, _ => 'x')));
    es := [first];
    var e := Entry("b", Item(""));
    SumOne(first);
    SumOne(e);
    SumConcat([e], es);
    assert Find(es, "b") == 1;
    assert Sum([e] + es) % WORD == TOTAL_OVERHEAD - 1;
  }

  // ----- Every sequence of operations

  datatype Op =
    | Insert(key: Key, data: Item)
    | Fetch(key: Key, touch: bool)
    | FetchPtr(key: Key)
    | Touch(key: Key)
    | Remove(key: Key)
    | Clear

  function Apply(es: seq<Entry>, op: Op, max: nat): seq<Entry> {
    match op
    case Insert(key, data) => Inserted(es, key, data, max)
    case Fetch(key, touch) => if touch then Touched(es, key) else es
    case FetchPtr(key) => Touched(es, key)
    case Touch(key) => Touched(es, key)
    case Remove(key) => Without(es, key)
    case Clear => []
  }

  function ApplyAll(ops: seq<Op>, max: nat): seq<Entry> {
    if ops == [] then [] else Apply(ApplyAll(ops[..|ops| - 1], max), ops[|ops| - 1], max)
  }

  predicate Uses(op: Op, key: Key) {
    match op
    case Insert(k, _) => k == key
    case Fetch(k, touch) => touch && k == key
    case FetchPtr(k) => k == key
    case Touch(k) => k == key
    case _ => false
  }

  /** The number of operations up to and including the last that used the key. */
  function LastUse(ops: seq<Op>, key: Key): (n: nat)
    ensures n <= |ops|
  {
    if ops == [] then 0 else if Uses(ops[|ops| - 1], key) then |ops| else LastUse(ops[..|ops| - 1], key)
  }

  /** What was last inserted under the key. */
  function LastData(ops: seq<Op>, key: Key): Option<Item> {
    if ops == [] then None
    else if ops[|ops| - 1].Insert? && ops[|ops| - 1].key == key then Some(ops[|ops| - 1].data)
    else LastData(ops[..|ops| - 1], key)
  }

  /** The list is in order of last use, latest first, and holds what was last inserted under each key. */
  predicate InOrderOfUse(es: seq<Entry>, ops: seq<Op>) {
    && (forall i, j :: 0 <= i < j < |es| ==> LastUse(ops, es[i].key) > LastUse(ops, es[j].key))
    && (forall i :: 0 <= i < |es| ==> LastData(ops, es[i].key) == Some(es[i].data))
  }

  lemma {:induction false} EvictedIsPrefix(es: seq<Entry>, max: nat)
    ensures Evicted(es, max) <= es
  {
    if es != [] {
      EvictedIsPrefix(es[..|es| - 1], max);
    }
  }

  lemma {:induction false} ListInOrderOfUse(ops: seq<Op>, max: nat)
    ensures InOrderOfUse(ApplyAll(ops, max), ops)
  {
    hide InOrderOfUse;
    if ops == [] {
      NothingInOrder();
    } else {
      var n := |ops| - 1;
      ListInOrderOfUse(ops[..n], max);
      StepInOrder(ApplyAll(ops[..n], max), ops, max);
    }
  }

  lemma NothingInOrder()
    ensures InOrderOfUse([], [])
  {
  }

  /** An operation other than an insertion or a use of a present key. */
  lemma OthersInOrder(es: seq<Entry>, ops: seq<Op>, es': seq<Entry>)
    requires ops != [] && InOrderOfUse(es, ops[..|ops| - 1]) && InOrderOfUse(es', ops[..|ops| - 1])
    requires forall i :: 0 <= i < |es'| ==> !Uses(ops[|ops| - 1], es'[i].key)
    ensures InOrderOfUse(es', ops)
  {
    var op, was := ops[|ops| - 1], ops[..|ops| - 1];
    forall i | 0 <= i < |es'|
      ensures LastUse(ops, es'[i].key) == LastUse(was, es'[i].key)
      ensures LastData(ops, es'[i].key) == LastData(was, es'[i].key)
    {
      assert !Uses(op, es'[i].key);
    }
  }

  lemma CutInOrder(es: seq<Entry>, ops: seq<Op>, n: nat)
    requires InOrderOfUse(es, ops) && n <= |es|
    ensures InOrderOfUse(Cut(es, n), ops)
  {
    var c := Cut(es, n);
    if n < |es| {
      forall i, j | 0 <= i < j < |c|
        ensures LastUse(ops, c[i].key) > LastUse(ops, c[j].key)
      {
        var i', j' := if i < n then i else i + 1, if j < n then j else j + 1;
        assert c[i] == es[i'] && c[j] == es[j'];
      }
    }
  }

  /** A used key goes to the front. */
  lemma FrontInOrder(e: Entry, rest: seq<Entry>, ops: seq<Op>)
    requires ops != [] && InOrderOfUse(rest, ops[..|ops| - 1])
    requires Uses(ops[|ops| - 1], e.key) && LastData(ops, e.key) == Some(e.data)
    requires forall i :: 0 <= i < |rest| ==> !Uses(ops[|ops| - 1], rest[i].key)
    ensures InOrderOfUse([e] + rest, ops)
  {
    hide LastUse, LastData, Uses;
    OthersInOrder(rest, ops, rest);
    UsedNow(ops, e.key);
    forall i | 0 <= i < |rest|
      ensures LastUse(ops, e.key) > LastUse(ops, rest[i].key)
    {
      UsedNow(ops, rest[i].key);
    }
    Ahead(e, rest, ops);
  }

  lemma Ahead(e: Entry, rest: seq<Entry>, ops: seq<Op>)
    requires InOrderOfUse(rest, ops) && LastData(ops, e.key) == Some(e.data)
    requires forall i :: 0 <= i < |rest| ==> LastUse(ops, e.key) > LastUse(ops, rest[i].key)
    ensures InOrderOfUse([e] + rest, ops)
  {
    hide LastUse, LastData, Uses;
    var all := [e] + rest;
    forall i | 0 <= i < |all|
      ensures all[i] == if i == 0 then e else rest[i - 1]
    {
    }
  }

  lemma UsedNow(ops: seq<Op>, key: Key)
    requires ops != []
    ensures LastUse(ops, key) == |ops| <==> Uses(ops[|ops| - 1], key)
  {
  }

  lemma CutDropsKey(es: seq<Entry>, ops: seq<Op>, key: Key)
    requires InOrderOfUse(es, ops)
    ensures forall i :: 0 <= i < |Without(es, key)| ==> Without(es, key)[i].key != key
  {
    var n := Find(es, key);
    var c := Without(es, key);
    forall i | 0 <= i < |c|
      ensures c[i].key != key
    {
      if n < |es| && i >= n {
        assert c[i] == es[i + 1];
        assert LastUse(ops, es[n].key) > LastUse(ops, es[i + 1].key);
      }
    }
  }

  lemma PrefixInOrder(es: seq<Entry>, ops: seq<Op>, n: nat)
    requires InOrderOfUse(es, ops) && n <= |es|
    ensures InOrderOfUse(es[..n], ops)
  {
  }

  lemma TouchInOrder(es: seq<Entry>, ops: seq<Op>, key: Key)
    requires ops != [] && InOrderOfUse(es, ops[..|ops| - 1])
    requires Uses(ops[|ops| - 1], key) && !ops[|ops| - 1].Insert?
    ensures InOrderOfUse(Touched(es, key), ops)
  {
    hide InOrderOfUse;
    var was, n := ops[..|ops| - 1], Find(es, key);
    if n < |es| {
      CutInOrder(es, was, n);
      CutDropsKey(es, was, key);
      HoldsLastData(es, was, n);
      assert Without(es, key) == Cut(es, n);
      FrontInOrder(es[n], Cut(es, n), ops);
    } else {
      OthersInOrder(es, ops, es);
    }
  }

  lemma HoldsLastData(es: seq<Entry>, ops: seq<Op>, n: nat)
    requires InOrderOfUse(es, ops) && n < |es|
    ensures LastData(ops, es[n].key) == Some(es[n].data)
  {
  }

  lemma StepInOrder(es: seq<Entry>, ops: seq<Op>, max: nat)
    requires ops != [] && InOrderOfUse(es, ops[..|ops| - 1])
    ensures InOrderOfUse(Apply(es, ops[|ops| - 1], max), ops)
  {
    hide InOrderOfUse, Evicted;
    var was, op := ops[..|ops| - 1], ops[|ops| - 1];
    match op
    case Insert(key, data) =>
      var rest := Without(es, key);
      CutInOrder(es, was, Find(es, key));
      CutDropsKey(es, was, key);
      FrontInOrder(Entry(key, data), rest, ops);
      var all := [Entry(key, data)] + rest;
      EvictedIsPrefix(all, max);
      PrefixInOrder(all, ops, |Evicted(all, max)|);
      assert all[..|Evicted(all, max)|] == Evicted(all, max);
    case Fetch(key, touch) =>
      if touch {
        TouchInOrder(es, ops, key);
      } else {
        OthersInOrder(es, ops, es);
      }
    case FetchPtr(key) => TouchInOrder(es, ops, key);
    case Touch(key) => TouchInOrder(es, ops, key);
    case Remove(key) =>
      CutInOrder(es, was, Find(es, key));
      OthersInOrder(es, ops, Without(es, key));
    case Clear =>
      PrefixInOrder(es, was, 0);
      OthersInOrder(es, ops, []);
  }

  /** After any operations, a key is found exactly if the list has it, and what is found is what was last inserted
      under it. */
  lemma FetchReturnsLastInserted(ops: seq<Op>, max: nat, key: Key)
    ensures
      var es := ApplyAll(ops, max);
      && (Fetched(es, key).Some? <==> Has(es, key))
      && (Has(es, key) ==> Fetched(es, key) == LastData(ops, key))
  {
    hide LastData, LastUse, ApplyAll;
    ListInOrderOfUse(ops, max);
    FetchedIffHas(ApplyAll(ops, max), key);
  }

  /** An item that fits is found right after it was inserted; a removed one is not, nor anything once all is cleared. */
  lemma FoundUntilRemoved(ops: seq<Op>, max: nat, key: Key, data: Item)
    ensures
      var es := ApplyAll(ops, max);
      && (Sum([Entry(key, data)] + Without(es, key)) < WORD && Charge(Entry(key, data)) <= max ==>
            Fetched(Apply(es, Insert(key, data), max), key) == Some(data))
      && Fetched(Apply(es, Remove(key), max), key) == None && Fetched(Apply(es, Clear, max), key) == None
  {
    hide InOrderOfUse, LastData, LastUse, ApplyAll, Evicted;
    var es := ApplyAll(ops, max);
    ListInOrderOfUse(ops, max);
    CutDropsKey(es, ops, key);
    var e := Entry(key, data);
    var all := [e] + Without(es, key);
    if Sum(all) < WORD && Charge(e) <= max {
      EvictedIsFit(all, max);
      FitIsLongest(all, max);
      SumOne(e);
      assert all[..1] == [e];
      assert |Fit(all, max)| >= 1 && Fit(all, max)[0] == e;
    }
  }

  /** Using a key moves its entry to the front and drops nothing. */
  lemma TouchKeepsEntries(es: seq<Entry>, key: Key)
    ensures multiset(Touched(es, key)) == multiset(es)
    ensures Has(es, key) ==> Touched(es, key) != [] && Touched(es, key)[0].key == key
  {
    var n := Find(es, key);
    if n < |es| {
      assert es == es[..n] + [es[n]] + es[n + 1..];
    }
  }

  lemma TouchedSameSum(es: seq<Entry>, key: Key)
    ensures Sum(Touched(es, key)) == Sum(es)
  {
    var n := Find(es, key);
    if n < |es| {
      SumCut(es, n);
      SumConcat([es[n]], Cut(es, n));
      SumOne(es[n]);
    }
  }

  /** Without 64-bit overflow the cache never holds more than its limit. */
  lemma {:induction false} SizeBounded(ops: seq<Op>, max: nat)
    requires forall i :: 0 <= i < |ops| && ops[i].Insert? ==> max + Charge(Entry(ops[i].key, ops[i].data)) < WORD
    ensures Sum(ApplyAll(ops, max)) <= max
  {
    if ops != [] {
      var n := |ops| - 1;
      SizeBounded(ops[..n], max);
      var es := ApplyAll(ops[..n], max);
      match ops[n]
      case Insert(key, data) =>
        var e := Entry(key, data);
        SumConcat([e], Without(es, key));
        SumOne(e);
        WithoutIsLighter(es, key);
        EvictedIsFit([e] + Without(es, key), max);
        FitIsLongest([e] + Without(es, key), max);
      case Fetch(key, _) => TouchedSameSum(es, key);
      case FetchPtr(key) => TouchedSameSum(es, key);
      case Touch(key) => TouchedSameSum(es, key);
      case Remove(key) => WithoutIsLighter(es, key);
      case Clear =>
    }
  }

  // ----- The cache object

  /** A list node; an index entry is an iterator to one. */
  class Node {
    const key: Key
    const data: Item

    constructor (key: Key, data: Item)
      ensures this.key == key && this.data == data
    {
      this.key := key;
      this.data := data;
    }
  }

  function Entries(nodes: seq<Node>): (es: seq<Entry>)
    ensures |es| == |nodes| && forall i :: 0 <= i < |nodes| ==> es[i] == Entry(nodes[i].key, nodes[i].data)
  {
    seq(|nodes|, i requires 0 <= i < |nodes| => Entry(nodes[i].key, nodes[i].data))
  }

  class Calculator {
    var size: nat

    constructor ()
      ensures size == 0
    {
      size := 0;
    }

    method OnAdd(item: Item)
      modifies this
      ensures size == (old(size) + Charge(Entry("", item))) % WORD
    {
      size := (size + |item.content| + TOTAL_OVERHEAD) % WORD;
    }

    /** Unsigned subtraction wraps. */
    method OnRemove(item: Item)
      modifies this
      ensures size == (old(size) - Charge(Entry("", item))) % WORD
    {
      size := (size - (|item.content| + TOTAL_OVERHEAD)) % WORD;
    }

    method OnClear()
      modifies this
      ensures size == 0
    {
      size := 0;
    }
  }

  lemma WrapTakes(a: nat, b: nat)
    requires b <= a
    ensures (a % WORD - b) % WORD == (a - b) % WORD
  {
    var q := a / WORD;
    assert a == q * WORD + a % WORD;
    ModShift(a % WORD - b, q);
    assert a % WORD - b + q * WORD == a - b;
  }

  lemma {:induction false} ModShift(x: int, q: nat)
    ensures (x + q * WORD) % WORD == x % WORD
  {
    if q > 0 {
      ModShift(x, q - 1);
      var y := x + (q - 1) * WORD;
      assert x + q * WORD == y + WORD;
      assert (y + WORD) % WORD == y % WORD;
    }
  }

  lemma WrapAdds(a: nat, b: nat)
    ensures (a % WORD + b) % WORD == (a + b) % WORD
  {
    var q := a / WORD;
    assert a == q * WORD + a % WORD;
    ModShift(a % WORD + b, q);
  }

  // ----- List and index

  /** Index keys and list keys correspond one to one. */
  ghost predicate Indexed(list: seq<Node>, index: map<Key, Node>) {
    && (forall i :: 0 <= i < |list| ==> list[i].key in index && index[list[i].key] == list[i])
    && (forall k :: k in index ==> index[k].key == k && index[k] in list)
    && Distinct(Entries(list))
  }

  /** Where an iterator points. */
  function At(list: seq<Node>, node: Node): (n: nat)
    ensures n <= |list| && (n < |list| ==> list[n] == node) && (node in list ==> n < |list|)
  {
    if list == [] then 0 else if list[0] == node then 0 else 1 + At(list[1..], node)
  }

  function Erased(list: seq<Node>, node: Node): seq<Node> {
    var n := At(list, node);
    if n < |list| then list[..n] + list[n + 1..] else list
  }

  lemma IndexIsExact(list: seq<Node>, index: map<Key, Node>, key: Key)
    requires Indexed(list, index)
    ensures key in index <==> Has(Entries(list), key)
    ensures key in index <==> Find(Entries(list), key) < |list|
  {
    var es := Entries(list);
    if key in index {
      var i :| 0 <= i < |list| && list[i] == index[key];
      assert es[i].key == key;
    }
    var n := Find(es, key);
    if n < |list| {
      assert es[n].key == list[n].key;
    }
    if Has(es, key) {
      var i :| 0 <= i < |es| && es[i].key == key;
      assert es[i].key == list[i].key;
    }
  }

  lemma NodeIsFound(list: seq<Node>, node: Node)
    requires node in list && Distinct(Entries(list))
    ensures At(list, node) == Find(Entries(list), node.key) < |list|
  {
    var es, n := Entries(list), At(list, node);
    var m := Find(es, node.key);
    assert es[n].key == node.key;
    assert m == n;
  }

  lemma ErasedEntries(list: seq<Node>, node: Node)
    requires node in list && Distinct(Entries(list))
    ensures Entries(Erased(list, node)) == Without(Entries(list), node.key)
  {
    NodeIsFound(list, node);
  }

  /** What the index says of a key. */
  lemma NodeOf(list: seq<Node>, index: map<Key, Node>, key: Key)
    requires Indexed(list, index) && key in index
    ensures index[key] in list && index[key].key == key && Distinct(Entries(list))
    ensures At(list, index[key]) == Find(Entries(list), key) < |list|
    ensures Entries(Erased(list, index[key])) == Without(Entries(list), key)
  {
    NodeIsFound(list, index[key]);
    ErasedEntries(list, index[key]);
  }

  lemma ErasedKeysDiffer(list: seq<Node>, node: Node, i: nat)
    requires Distinct(Entries(list)) && node in list && i < |Erased(list, node)|
    ensures Erased(list, node)[i] in list && Erased(list, node)[i].key != node.key
  {
    hide At;
    var n, es := At(list, node), Entries(list);
    var j := if i < n then i else i + 1;
    assert Erased(list, node)[i] == list[j];
    assert es[j].key == list[j].key && es[n].key == node.key;
  }

  lemma ErasedKeepsOthers(list: seq<Node>, node: Node, other: Node)
    requires other in list && other != node
    ensures other in Erased(list, node)
  {
    hide At;
    var n := At(list, node);
    var j :| 0 <= j < |list| && list[j] == other;
    if n < |list| {
      if j < n {
        assert list[..n][j] == other;
      } else {
        assert list[n + 1..][j - n - 1] == other;
      }
    }
  }

  lemma EraseKeepsIndex(list: seq<Node>, index: map<Key, Node>, node: Node)
    requires Indexed(list, index) && node in list
    ensures Indexed(Erased(list, node), index - {node.key})
  {
    hide Erased, Distinct;
    var after, fewer := Erased(list, node), index - {node.key};
    forall i | 0 <= i < |after|
      ensures after[i].key in fewer && fewer[after[i].key] == after[i]
    {
      ErasedKeysDiffer(list, node, i);
    }
    forall k | k in fewer
      ensures fewer[k].key == k && fewer[k] in after
    {
      ErasedKeepsOthers(list, node, index[k]);
    }
    ErasedDistinct(list, node);
  }

  lemma ErasedDistinct(list: seq<Node>, node: Node)
    requires Distinct(Entries(list))
    ensures Distinct(Entries(Erased(list, node)))
  {
    var n, after, es := At(list, node), Erased(list, node), Entries(list);
    var es' := Entries(after);
    forall i, j | 0 <= i < j < |es'|
      ensures es'[i].key != es'[j].key
    {
      if n < |list| {
        var i', j' := if i < n then i else i + 1, if j < n then j else j + 1;
        assert es'[i] == es[i'] && es'[j] == es[j'];
      } else {
        assert es' == es;
      }
    }
  }

  lemma PushedDistinct(list: seq<Node>, node: Node)
    requires Distinct(Entries(list)) && forall i :: 0 <= i < |list| ==> list[i].key != node.key
    ensures Distinct(Entries([node] + list))
  {
    var es, es' := Entries(list), Entries([node] + list);
    assert es' == [Entry(node.key, node.data)] + es;
    forall i, j | 0 <= i < j < |es'|
      ensures es'[i].key != es'[j].key
    {
      assert es'[j] == es[j - 1] && es[j - 1].key == list[j - 1].key;
    }
  }

  lemma PushKeepsIndex(list: seq<Node>, index: map<Key, Node>, node: Node)
    requires Indexed(list, index) && node.key !in index
    ensures Indexed([node] + list, index[node.key := node])
  {
    hide Distinct;
    var after := [node] + list;
    assert forall m :: m in list ==> m in after;
    PushedDistinct(list, node);
  }

  lemma SpliceKeepsIndex(list: seq<Node>, index: map<Key, Node>, node: Node)
    requires Indexed(list, index) && node in list
    ensures Indexed([node] + Erased(list, node), index)
  {
    hide Erased, Distinct;
    EraseKeepsIndex(list, index, node);
    assert node.key in index && index[node.key] == node;
    PushKeepsIndex(Erased(list, node), index - {node.key}, node);
    assert (index - {node.key})[node.key := node] == index;
  }

  lemma TouchedThenWithout(es: seq<Entry>, key: Key)
    ensures Without(Touched(es, key), key) == Without(es, key)
  {
    var n := Find(es, key);
    if n < |es| {
      var t := Touched(es, key);
      assert t[0].key == key;
      assert Find(t, key) == 0;
      assert t[1..] == Cut(es, n);
    }
  }

  lemma AbsentIsUntouched(es: seq<Entry>, key: Key)
    ensures Find(es, key) == |es| ==> Touched(es, key) == es && Without(es, key) == es
  {
  }

  lemma ChargeIgnoresKey(key: Key, data: Item)
    ensures Charge(Entry(key, data)) == Charge(Entry("", data))
  {
  }

  lemma EmptyWeighsNothing(es: seq<Entry>)
    ensures Sum(es) % WORD > 0 ==> es != []
  {
  }

  lemma LastIsFound(es: seq<Entry>)
    requires es != [] && Distinct(es)
    ensures Without(es, es[|es| - 1].key) == es[..|es| - 1]
  {
    var n := Find(es, es[|es| - 1].key);
    assert n == |es| - 1;
  }

  class Cache {
    const maxSize: nat
    const calculator: Calculator
    var list: seq<Node>
    var index: map<Key, Node>

    ghost function Contents(): seq<Entry>
      reads this
    {
      Entries(list)
    }

    /** Index keys and list keys correspond one to one, and the calculator holds the sum of the charges. */
    ghost predicate Valid()
      reads this, calculator
    {
      && Indexed(list, index)
      && calculator.size == Sum(Contents()) % WORD
    }

    constructor (size: nat)
      ensures Valid() && fresh(calculator) && maxSize == size && Contents() == []
    {
      maxSize := size;
      calculator := new Calculator();
      list := [];
      index := map[];
    }

    method ClearAll()
      requires Valid()
      modifies this, calculator
      ensures Valid() && Contents() == []
    {
      list := [];
      index := map[];
      calculator.OnClear();
    }

    method Exists(key: Key) returns (found: bool)
      requires Valid()
      ensures found == Has(Contents(), key)
    {
      IndexIsExact(list, index, key);
      return key in index;
    }

    /** Moves the node of a key to the front. */
    method TouchKey(key: Key) returns (found: bool)
      requires Valid()
      modifies this`list
      ensures Valid() && Contents() == Touched(old(Contents()), key) && found == (key in index)
      ensures found ==> list != [] && list[0] == index[key]
    {
      hide Indexed, Sum, Find, Erased, At;
      IndexIsExact(list, index, key);
      if key !in index {
        return false;
      }
      var node := index[key];
      NodeOf(list, index, key);
      TouchedSameSum(Contents(), key);
      SpliceKeepsIndex(list, index, node);
      list := [node] + Erased(list, node);
      assert Contents() == Touched(old(Contents()), key);
      return true;
    }

    /** Drops the entry that an index iterator points to. */
    method RemoveAt(key: Key)
      requires Valid() && key in index
      modifies this, calculator
      ensures Valid() && Contents() == Without(old(Contents()), key) && key !in index
    {
      hide Indexed, Sum, Find, Erased, At;
      var node := index[key];
      NodeOf(list, index, key);
      EraseKeepsIndex(list, index, node);
      SumCut(Contents(), Find(Contents(), key));
      WrapTakes(Sum(Contents()), Charge(Entry(key, node.data)));
      calculator.OnRemove(node.data);
      list := Erased(list, node);
      index := index - {key};
    }

    method RemoveKey(key: Key)
      requires Valid()
      modifies this, calculator
      ensures Valid() && Contents() == Without(old(Contents()), key)
    {
      IndexIsExact(list, index, key);
      if key !in index {
        return;
      }
      RemoveAt(key);
    }

    /** The entry is touched whatever the caller asked. */
    method FetchNode(key: Key, touch: bool) returns (node: Node?)
      requires Valid()
      modifies this`list
      ensures Valid() && Contents() == Touched(old(Contents()), key)
      ensures
        if node == null then Fetched(old(Contents()), key) == None
        else node in list && node.key == key && Fetched(old(Contents()), key) == Some(node.data)
    {
      IndexIsExact(list, index, key);
      if key !in index {
        return null;
      }
      NodeOf(list, index, key);
      node := index[key];
      var _ := TouchKey(key);
    }

    method FetchCopy(key: Key, touchData: bool) returns (data: Option<Item>)
      requires Valid()
      modifies this`list
      ensures Valid() && data == Fetched(old(Contents()), key)
      ensures Contents() == if touchData then Touched(old(Contents()), key) else old(Contents())
    {
      IndexIsExact(list, index, key);
      if key !in index {
        return None;
      }
      NodeOf(list, index, key);
      data := Some(index[key].data);
      if touchData {
        var _ := TouchKey(key);
      }
    }

    /** The eviction loop; the list is never empty when its last element is taken. */
    method Evict()
      requires Valid()
      modifies this, calculator
      ensures Valid() && Contents() == Evicted(old(Contents()), maxSize)
    {
      hide Distinct, Sum;
      while calculator.size > maxSize
        invariant Valid() && Evicted(Contents(), maxSize) == Evicted(old(Contents()), maxSize)
        decreases |list|
      {
        ghost var es := Contents();
        EmptyWeighsNothing(es);
        var last := list[|list| - 1];
        LastIsFound(es);
        RemoveAt(last.key);
        assert Contents() == es[..|es| - 1];
      }
    }

    /** Puts a new entry at the head, and into the index and the count. */
    method PushFront(key: Key, data: Item)
      requires Valid() && key !in index
      modifies this, calculator
      ensures Valid() && Contents() == [Entry(key, data)] + old(Contents())
    {
      hide Indexed, Sum, Charge;
      ghost var rest := Contents();
      var node := new Node(key, data);
      PushKeepsIndex(list, index, node);
      SumConcat([Entry(key, data)], rest);
      SumOne(Entry(key, data));
      WrapAdds(Sum(rest), Charge(Entry(key, data)));
      ChargeIgnoresKey(key, data);
      list := [node] + list;
      index := index[key := node];
      calculator.OnAdd(data);
      assert Contents() == [Entry(key, data)] + rest;
    }

    method InsertItem(key: Key, data: Item)
      requires Valid()
      modifies this, calculator
      ensures Valid() && Contents() == Inserted(old(Contents()), key, data, maxSize)
    {
      hide Find, Without, Touched, Evicted, Has;
      hide Valid;
      KeyIsExact(key);
      var found := TouchKey(key);
      if found {
        RemoveAt(key);
      }
      TouchedThenWithout(old(Contents()), key);
      AbsentIsUntouched(old(Contents()), key);
      PushFront(key, data);
      Evict();
    }

    lemma KeyIsExact(key: Key)
      requires Valid()
      ensures key in index <==> Find(Contents(), key) < |Contents()|
    {
      IndexIsExact(list, index, key);
    }

    method GetAllKeys() returns (keys: seq<Key>)
      ensures |keys| == |Contents()| && forall i :: 0 <= i < |keys| ==> keys[i] == Contents()[i].key
    {
      keys := [];
      for i := 0 to |list|
        invariant |keys| == i && forall k :: 0 <= k < i ==> keys[k] == list[k].key
      {
        keys := keys + [list[i].key];
      }
    }
  }
}
