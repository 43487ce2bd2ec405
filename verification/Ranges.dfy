/** Ranged replies: the range a request names, the slice an asset gives out for it, and the headers that describe it. */
module Ranges {
  import opened Wrappers
  import opened RequestParser
  import ByteOrder
  import AssetWire

  type Byte = ByteOrder.Byte

  const UNSIGNED_MAX := 0xFFFF_FFFF

  // ----- Numbers as text

  function Dec(n: nat): (s: string)
    ensures s != ""
  {
    if n < 10 then [DigitChar(n)] else Dec(n / 10) + [DigitChar(n % 10)]
  }

  function DigitChar(d: nat): char
    requires d < 10
  {
    '0' + d as char
  }

  /** The value of a run of digits, most significant first. */
  function Natural(s: string): Option<nat> {
    if s == "" then None
    else
      var n := |s| - 1;
      if !IsDigit(s[n]) then None
      else if n == 0 then Some(Digit(s[0]))
      else
        var high := Natural(s[..n]);
        if high.None? then None else Some(high.value * 10 + Digit(s[n]))
  }

  /** A cast of text to a 32-bit unsigned number; a plus sign may stand in front. */
  function Cast(s: string): Option<nat> {
    var v := Natural(if s != "" && s[0] == '+' then s[1..] else s);
    if v.Some? && v.value <= UNSIGNED_MAX then v else None
  }

  lemma {:induction false} DecDigits(n: nat)
    ensures forall i :: 0 <= i < |Dec(n)| ==> IsDigit(Dec(n)[i])
  {
    if n >= 10 {
      DecDigits(n / 10);
    }
  }

  lemma {:induction false} NaturalDec(n: nat)
    ensures Natural(Dec(n)) == Some(n)
  {
    if n >= 10 {
      NaturalDec(n / 10);
      assert Dec(n)[..|Dec(n)| - 1] == Dec(n / 10);
    }
  }

  lemma CastDec(n: nat)
    ensures Cast(Dec(n)) == if n <= UNSIGNED_MAX then Some(n) else None
  {
    DecDigits(n);
    assert IsDigit(Dec(n)[0]);
    NaturalDec(n);
  }

  // ----- The Range header

  /** The exceptions, and a read past the end of an asset, of which the language promises nothing. */
  datatype Error = RangeError | BadCast | RuntimeError | PastEnd

  datatype Parsed = Range(begin: nat, end: nat) | Unreadable(error: Error)

  function Dashes(s: string): nat { if s == "" then 0 else (if s[0] == '-' then 1 else 0) + Dashes(s[1..]) }

  function FirstDash(s: string): (n: nat)
    ensures n <= |s|
  {
    if s == "" || s[0] == '-' then 0 else 1 + FirstDash(s[1..])
  }

  function Pair(a: Option<nat>, b: Option<nat>): Parsed {
    if a.Some? && b.Some? then Range(a.value, b.value) else Unreadable(BadCast)
  }

  function ParseRange(s: string): Parsed {
    if |s| < 6 || s[..6] != "bytes=" then Unreadable(RangeError)
    else
      var spec := s[6..];
      var i := FirstDash(spec);
      if Dashes(spec) != 1 || i == |spec| then Unreadable(RangeError)
      else
        var first, second := spec[..i], spec[i + 1..];
        if first == "" && second != "" then Pair(Some(0), Cast(second))
        else if first != "" && second == "" then Pair(Cast(first), Some(UNSIGNED_MAX))
        else if first != "" && second != "" then Pair(Cast(first), Cast(second))
        else Unreadable(RangeError)
  }

  lemma {:induction false} DashBetween(a: string, b: string)
    requires '-' !in a && '-' !in b
    ensures Dashes(a + "-" + b) == 1 && FirstDash(a + "-" + b) == |a|
  {
    var s := a + "-" + b;
    if a == "" {
      assert s[0] == '-' && s[1..] == b;
      NoDashes(b);
    } else {
      DashBetween(a[1..], b);
      assert s[0] == a[0] && s[1..] == a[1..] + "-" + b;
    }
  }

  lemma {:induction false} NoDashes(s: string)
    requires '-' !in s
    ensures Dashes(s) == 0
  {
    if s != "" {
      NoDashes(s[1..]);
    }
  }

  lemma DecHasNoDash(n: nat)
    ensures '-' !in Dec(n)
  {
    DecDigits(n);
  }

  lemma SpecParses(a: string, b: string)
    requires '-' !in a && '-' !in b
    ensures
      var s := "bytes=" + a + "-" + b;
      s[..6] == "bytes=" && s[6..] == a + "-" + b && Dashes(s[6..]) == 1
      && FirstDash(s[6..]) == |a| && s[6..][..|a|] == a && s[6..][|a| + 1..] == b
  {
    DashBetween(a, b);
    var s := "bytes=" + a + "-" + b;
    assert s[6..] == a + "-" + b;
    assert s[..6] == "bytes=";
  }

  /** Ranges written out are read back; a number of more than 32 bits is refused. */
  lemma RangesReadBack(b: nat, e: nat)
    ensures
      ParseRange("bytes=" + Dec(b) + "-" + Dec(e))
        == if b <= UNSIGNED_MAX && e <= UNSIGNED_MAX then Range(b, e) else Unreadable(BadCast)
    ensures
      ParseRange("bytes=" + Dec(b) + "-" + "")
        == if b <= UNSIGNED_MAX then Range(b, UNSIGNED_MAX) else Unreadable(BadCast)
    ensures
      ParseRange("bytes=" + "" + "-" + Dec(e)) == if e <= UNSIGNED_MAX then Range(0, e) else Unreadable(BadCast)
  {
    hide Dec, Cast, Dashes, FirstDash;
    DecHasNoDash(b);
    DecHasNoDash(e);
    CastDec(b);
    CastDec(e);
    SpecParses(Dec(b), Dec(e));
    SpecParses(Dec(b), "");
    SpecParses("", Dec(e));
  }

  /** The shape of a Range header: two texts without a dash around one dash, not both empty. */
  ghost predicate Shaped(s: string, a: string, b: string) {
    s == "bytes=" + a + "-" + b && '-' !in a && '-' !in b && (a != "" || b != "")
  }

  lemma {:induction false} OneDashSplits(s: string)
    requires Dashes(s) == 1
    ensures FirstDash(s) < |s| && s[FirstDash(s)] == '-'
    ensures '-' !in s[..FirstDash(s)] && '-' !in s[FirstDash(s) + 1..]
  {
    if s[0] == '-' {
      DashFree(s[1..]);
    } else {
      OneDashSplits(s[1..]);
      var n := FirstDash(s);
      assert s[..n] == [s[0]] + s[1..][..n - 1] && s[n + 1..] == s[1..][n..];
    }
  }

  lemma {:induction false} DashFree(s: string)
    requires Dashes(s) == 0
    ensures '-' !in s
  {
    if s != "" {
      DashFree(s[1..]);
      assert s == [s[0]] + s[1..];
    }
  }

  /** Exactly the headers of that shape name a range; a missing start is 0 and a missing end is the largest number,
      and a number that is written but cannot be cast is refused. */
  lemma ShapedIsRead(s: string, a: string, b: string)
    requires Shaped(s, a, b)
    ensures
      ParseRange(s) == Pair(if a == "" then Some(0) else Cast(a), if b == "" then Some(UNSIGNED_MAX) else Cast(b))
  {
    hide Cast, Dashes, FirstDash;
    SpecParses(a, b);
  }

  lemma UnshapedIsRefused(s: string)
    ensures ParseRange(s) != Unreadable(RangeError) <==> exists a, b :: Shaped(s, a, b)
  {
    hide Cast, Dashes, FirstDash;
    if a, b :| Shaped(s, a, b) {
      ShapedIsRead(s, a, b);
    }
    if ParseRange(s) != Unreadable(RangeError) {
      var spec := s[6..];
      var i := FirstDash(spec);
      OneDashSplits(spec);
      assert s == "bytes=" + spec[..i] + "-" + spec[i + 1..];
      assert Shaped(s, spec[..i], spec[i + 1..]);
    }
  }

  // ----- Slices

  /** The bytes asked for that exist, or the whole object where there are none. */
  function Slice(data: seq<Byte>, begin: nat, end: nat): seq<Byte> {
    if begin < |data| && begin <= end then data[begin..Last(data, end) + 1] else data
  }

  function Last(data: seq<Byte>, end: nat): nat
    requires data != []
  {
    if end < |data| then end else |data| - 1
  }

  /** A slice is not empty unless the object is, and holds exactly the bytes of the range if it is a proper part. */
  lemma SliceIsTheRange(data: seq<Byte>, begin: nat, end: nat)
    ensures data != [] ==> Slice(data, begin, end) != []
    ensures |Slice(data, begin, end)| <= |data|
    ensures Slice(data, begin, end) != data ==>
      && |Slice(data, begin, end)| < |data|
      && begin <= Last(data, end) < |data|
      && forall i :: 0 <= i < |Slice(data, begin, end)| ==> Slice(data, begin, end)[i] == data[begin + i]
    ensures Slice(data, begin, end) != data ==> |Slice(data, begin, end)| == Last(data, end) - begin + 1
  {
    assert data[0..|data|] == data;
  }

  datatype Copied = Copied(storage: seq<Byte>, size: nat) | Failed(error: Error)

  /** The payload of a mesh asset lies inside it. */
  predicate WellFormed(bytes: seq<Byte>) {
    AssetWire.FindData(bytes).Some?
    && AssetWire.FindData(bytes).value.0 + AssetWire.FindData(bytes).value.1 <= |bytes|
  }

  function Payload(bytes: seq<Byte>): seq<Byte>
    requires WellFormed(bytes)
  {
    var (loc, size) := AssetWire.FindData(bytes).value;
    bytes[loc..loc + size]
  }

  /** The first and the last byte that a range of an object of this size amounts to. */
  function First(size: nat, begin: nat, end: nat): nat { if begin < size && begin <= end then begin else 0 }

  function Final(size: nat, begin: nat, end: nat): nat
    requires size > 0
  {
    if begin < size && begin <= end && end < size then end else size - 1
  }

  lemma SliceByBounds(data: seq<Byte>, begin: nat, end: nat)
    requires data != []
    ensures First(|data|, begin, end) <= Final(|data|, begin, end) < |data|
    ensures Slice(data, begin, end) == data[First(|data|, begin, end)..Final(|data|, begin, end) + 1]
  {
    assert data[0..|data|] == data;
  }

  /** The adjustments both kinds of asset make to a range of a non-empty object. */
  method Adjust(dataSz: nat, rngStart: nat, rngEnd: nat) returns (start: nat, end: nat)
    requires dataSz > 0
    ensures start <= end < dataSz && start == First(dataSz, rngStart, rngEnd) && end == Final(dataSz, rngStart, rngEnd)
    ensures forall data: seq<Byte> :: |data| == dataSz ==> data[start..end + 1] == Slice(data, rngStart, rngEnd)
  {
    start, end := rngStart, rngEnd;
    if end > dataSz - 1 {
      end := dataSz - 1;
    }
    if start > dataSz - 1 {
      start, end := 0, dataSz - 1;
    }
    if end < start {
      start, end := 0, dataSz - 1;
    }
    forall data: seq<Byte> | |data| == dataSz
      ensures data[start..end + 1] == Slice(data, rngStart, rngEnd)
    {
      SliceByBounds(data, rngStart, rngEnd);
    }
  }

  lemma SliceInside(bytes: seq<Byte>, loc: nat, size: nat, start: nat, end: nat)
    requires loc + size <= |bytes| && start <= end < size
    ensures bytes[loc..loc + size][start..end + 1] == bytes[loc + start..loc + end + 1]
  {
    var inner := bytes[loc..loc + size];
    var a, b := inner[start..end + 1], bytes[loc + start..loc + end + 1];
    assert |a| == |b|;
    forall i | 0 <= i < |a|
      ensures a[i] == b[i]
    {
      assert inner[start + i] == bytes[loc + start + i];
    }
  }

  /** What a mesh asset of any bytes gives out for a range. */
  function MeshRange(bytes: seq<Byte>, begin: nat, end: nat): Copied {
    if AssetWire.FindData(bytes).None? then Failed(PastEnd)
    else
      var (loc, size) := AssetWire.FindData(bytes).value;
      if size == 0 then Copied([], 0)
      else if |bytes| <= loc + Final(size, begin, end) then Failed(RangeError)
      else Copied(bytes[loc + First(size, begin, end)..loc + Final(size, begin, end) + 1], size)
  }

  /** What it gives out as a whole; the end of the payload is computed in 32 bits. */
  function MeshWhole(bytes: seq<Byte>): Copied {
    if AssetWire.FindData(bytes).None? then Failed(PastEnd)
    else
      var (loc, size) := AssetWire.FindData(bytes).value;
      if (loc + size) % 0x1_0000_0000 > |bytes| then Failed(RuntimeError)
      else if loc + size > |bytes| then Failed(PastEnd)
      else Copied(bytes[loc..loc + size], size)
  }

  /** Both copies of a well-formed asset are the slice and the payload, and only they can be had as a whole. */
  lemma WellFormedCopies(bytes: seq<Byte>, begin: nat, end: nat)
    ensures WellFormed(bytes) ==>
      MeshRange(bytes, begin, end) == Copied(Slice(Payload(bytes), begin, end), |Payload(bytes)|)
    ensures MeshWhole(bytes).Copied? <==> WellFormed(bytes)
    ensures WellFormed(bytes) ==> MeshWhole(bytes) == Copied(Payload(bytes), |Payload(bytes)|)
  {
    hide AssetWire.FindData;
    if WellFormed(bytes) {
      var (loc, size) := AssetWire.FindData(bytes).value;
      if size > 0 {
        SliceByBounds(Payload(bytes), begin, end);
        SliceInside(bytes, loc, size, First(size, begin, end), Final(size, begin, end));
      }
    }
  }

  function Behind(storage: seq<Byte>, r: Copied): Copied {
    if r.Copied? then Copied(storage + r.storage, r.size) else r
  }

  method CopyMesh(bytes: seq<Byte>, storage: seq<Byte>, rngStart: nat, rngEnd: nat) returns (r: Copied)
    ensures r == Behind(storage, MeshRange(bytes, rngStart, rngEnd))
    ensures WellFormed(bytes) ==> r == Copied(storage + Slice(Payload(bytes), rngStart, rngEnd), |Payload(bytes)|)
  {
    hide AssetWire.FindData;
    hide Slice;
    WellFormedCopies(bytes, rngStart, rngEnd);
    if AssetWire.FindData(bytes).None? {
      return Failed(PastEnd);
    }
    var (dataLoc, dataSz) := AssetWire.FindData(bytes).value;
    if dataSz == 0 {
      assert storage + [] == storage;
      return Copied(storage, 0);
    }
    var start, end := Adjust(dataSz, rngStart, rngEnd);
    if dataLoc + end >= |bytes| {
      return Failed(RangeError);
    }
    return Copied(storage + bytes[dataLoc + start..dataLoc + end + 1], dataSz);
  }

  method CopyCloud(data: seq<Byte>, storage: seq<Byte>, rngStart: nat, rngEnd: nat) returns (r: Copied)
    ensures r == Copied(storage + Slice(data, rngStart, rngEnd), |data|)
  {
    if |data| == 0 {
      return Copied(storage, 0);
    }
    var start, end := Adjust(|data|, rngStart, rngEnd);
    return Copied(storage + data[start..end + 1], |data|);
  }

  method CopyWholeMesh(bytes: seq<Byte>, storage: seq<Byte>) returns (r: Copied)
    ensures r == Behind(storage, MeshWhole(bytes)) && (r.Copied? <==> WellFormed(bytes))
    ensures WellFormed(bytes) ==> r == Copied(storage + Payload(bytes), |Payload(bytes)|)
  {
    hide AssetWire.FindData;
    WellFormedCopies(bytes, 0, 0);
    if AssetWire.FindData(bytes).None? {
      return Failed(PastEnd);
    }
    var (dataLoc, dataSz) := AssetWire.FindData(bytes).value;
    if (dataLoc + dataSz) % 0x1_0000_0000 > |bytes| {
      return Failed(RuntimeError);
    }
    if dataLoc + dataSz > |bytes| {
      return Failed(PastEnd);
    }
    return Copied(storage + bytes[dataLoc..dataLoc + dataSz], dataSz);
  }

  // ----- Replies

  datatype Asset = Mesh(bytes: seq<Byte>) | Cloud(data: seq<Byte>)

  predicate Usable(asset: Asset) { asset.Mesh? ==> WellFormed(asset.bytes) }

  function Object(asset: Asset): seq<Byte>
    requires Usable(asset)
  {
    match asset
    case Mesh(bytes) => Payload(bytes)
    case Cloud(data) => data
  }

  /** What the .NET client built and serialised is what the front end serves. */
  lemma BuiltIsServed(a: AssetWire.Asset)
    requires AssetWire.Serialisable(a) && |AssetWire.FixUuid(a.uuid)| == AssetWire.UUID_LEN
    ensures Usable(Mesh(AssetWire.Layout(a))) && Object(Mesh(AssetWire.Layout(a))) == a.data
  {
    hide AssetWire.FindData;
    AssetWire.LayoutLength(a);
    AssetWire.PayloadFound(a);
  }

  datatype Response = Response(status: nat, headers: seq<Header>, content: seq<Byte>) | Thrown(error: Error)

  /** What the Range headers of a request amount to: none, the last one, or the first that cannot be read. */
  function Requested(hs: seq<Header>): Option<Parsed> {
    if hs == [] then None
    else
      var n := |hs| - 1;
      var before := Requested(hs[..n]);
      if before.Some? && before.value.Unreadable? then before
      else if hs[n].name == "Range" then Some(ParseRange(hs[n].value))
      else before
  }

  function ContentRange(begin: nat, end: nat, full: nat): Header {
    Header("Content-Range", "bytes " + Dec(begin) + "-" + Dec(end) + "/" + Dec(full))
  }

  function BasicHeaders(content: seq<Byte>, contentType: string): seq<Header> {
    [Header("Content-Length", Dec(|content|)), Header("Content-Type", contentType)]
  }

  function Index(s: string, c: char): (n: nat)
    ensures n <= |s|
  {
    if s == "" || s[0] == c then 0 else 1 + Index(s[1..], c)
  }

  /** The three numbers of a Content-Range header: the first and the last byte sent and the size of the object. */
  function ReadContentRange(s: string): Option<(nat, nat, nat)> {
    if |s| < 6 || s[..6] != "bytes " then None
    else
      var spec := s[6..];
      var dash, slash := Index(spec, '-'), Index(spec, '/');
      if !(dash < slash < |spec|) then None
      else
        var first, last, full := Natural(spec[..dash]), Natural(spec[dash + 1..slash]), Natural(spec[slash + 1..]);
        if first.None? || last.None? || full.None? then None else Some((first.value, last.value, full.value))
  }

  lemma {:induction false} IndexBetween(a: string, c: char, b: string)
    requires c !in a
    ensures Index(a + [c] + b, c) == |a|
  {
    var s := a + [c] + b;
    if a != "" {
      IndexBetween(a[1..], c, b);
      assert s[0] == a[0] && s[1..] == a[1..] + [c] + b;
    }
  }

  lemma PiecesFound(a: string, b: string, d: string)
    requires '-' !in a && '/' !in a && '/' !in b
    ensures
      var spec := a + "-" + b + "/" + d;
      && Index(spec, '-') == |a| && Index(spec, '/') == |a| + 1 + |b|
      && spec[..|a|] == a && spec[|a| + 1..|a| + 1 + |b|] == b && spec[|a| + 1 + |b| + 1..] == d
  {
    hide Index;
    var spec := a + "-" + b + "/" + d;
    assert spec == a + ['-'] + (b + "/" + d) && spec == (a + "-" + b) + ['/'] + d;
    IndexBetween(a, '-', b + "/" + d);
    IndexBetween(a + "-" + b, '/', d);
  }

  /** The numbers that a Content-Range header is written from are those read from it. */
  lemma ContentRangeReadsBack(begin: nat, end: nat, full: nat)
    ensures ReadContentRange(ContentRange(begin, end, full).value) == Some((begin, end, full))
    ensures ContentRange(begin, end, full).name == "Content-Range"
  {
    hide Dec, Natural, Index;
    var a, b, d := Dec(begin), Dec(end), Dec(full);
    DecDigits(begin);
    DecDigits(end);
    PiecesFound(a, b, d);
    NaturalDec(begin);
    NaturalDec(end);
    NaturalDec(full);
    var s := ContentRange(begin, end, full).value;
    assert s[..6] == "bytes " && s[6..] == a + "-" + b + "/" + d;
  }

  /** The first two headers give the length and the type of what is sent. */
  predicate Labelled(r: Response, contentType: string) {
    && r.Response? && |r.headers| >= 2
    && r.headers[0].name == "Content-Length" && Natural(r.headers[0].value) == Some(|r.content|)
    && r.headers[1] == Header("Content-Type", contentType)
  }

  /** The whole object. */
  predicate Whole(r: Response, data: seq<Byte>, contentType: string) {
    Labelled(r, contentType) && r.status == 200 && |r.headers| == 2 && r.content == data
  }

  /** Exactly the bytes of the object that the Content-Range header names, from begin on. */
  predicate Partial(r: Response, data: seq<Byte>, begin: nat, end: nat, contentType: string) {
    && Labelled(r, contentType) && r.status == 206 && |r.headers| == 3 && r.headers[2].name == "Content-Range"
    && match ReadContentRange(r.headers[2].value)
       case None => false
       case Some((first, last, full)) =>
         && full == |data| && first == begin && last == (if end < |data| then end else |data| - 1)
         && first <= last < full && r.content == data[first..last + 1]
  }

  /**
   * The reply that the Range headers call for: an error, the whole object, or exactly the bytes its Content-Range
   * header names, which are a non-empty proper part of the object.
   */
  predicate Fits(r: Response, data: seq<Byte>, range: Option<Parsed>, contentType: string) {
    match range
    case None => Whole(r, data, contentType)
    case Some(Unreadable(error)) => r == Thrown(error)
    case Some(Range(begin, end)) =>
      if begin < |data| && begin <= end && (begin > 0 || end < |data| - 1)
      then Partial(r, data, begin, end, contentType)
      else Whole(r, data, contentType)
  }

  /** What an asset of either kind gives out. */
  function RangeOf(asset: Asset, begin: nat, end: nat): Copied {
    match asset
    case Mesh(bytes) => MeshRange(bytes, begin, end)
    case Cloud(data) => Copied(Slice(data, begin, end), |data|)
  }

  function WholeOf(asset: Asset): Copied {
    match asset
    case Mesh(bytes) => MeshWhole(bytes)
    case Cloud(data) => Copied(data, |data|)
  }

  function CopyFor(asset: Asset, range: Option<Parsed>): Copied
    requires range.Some? ==> range.value.Range?
  {
    if range.Some? then RangeOf(asset, range.value.begin, range.value.end) else WholeOf(asset)
  }

  method Copy(asset: Asset, range: Option<Parsed>) returns (r: Copied)
    requires range.Some? ==> range.value.Range?
    ensures r == CopyFor(asset, range)
  {
    hide MeshRange, MeshWhole, Slice, WellFormed;
    match asset {
      case Mesh(bytes) =>
        if range.Some? {
          r := CopyMesh(bytes, [], range.value.begin, range.value.end);
        } else {
          r := CopyWholeMesh(bytes, []);
        }
      case Cloud(data) =>
        if range.Some? {
          r := CopyCloud(data, [], range.value.begin, range.value.end);
        } else {
          r := Copied(data, |data|);
        }
    }
    NothingBefore(CopyFor(asset, range));
  }

  lemma NothingBefore(r: Copied)
    ensures Behind([], r) == r && (r.Copied? ==> [] + r.storage == r.storage)
  {
  }

  lemma UsableCopies(asset: Asset, range: Option<Parsed>)
    requires Usable(asset) && (range.Some? ==> range.value.Range?)
    ensures
      CopyFor(asset, range) == Copied(
        if range.Some? then Slice(Object(asset), range.value.begin, range.value.end) else Object(asset),
        |Object(asset)|)
  {
    hide MeshRange, MeshWhole, Slice;
    if asset.Mesh? {
      if range.Some? {
        WellFormedCopies(asset.bytes, range.value.begin, range.value.end);
      } else {
        WellFormedCopies(asset.bytes, 0, 0);
      }
    }
  }

  /** The loop over the request's headers: the last Range header counts, one that cannot be read throws. */
  method FindRange(headers: seq<Header>) returns (range: Option<Parsed>)
    ensures range == Requested(headers)
  {
    range := None;
    for i := 0 to |headers|
      invariant range == Requested(headers[..i]) && (range.Some? ==> range.value.Range?)
    {
      assert headers[..i + 1][..i] == headers[..i];
      if headers[i].name == "Range" {
        range := Some(ParseRange(headers[i].value));
        if range.value.Unreadable? {
          StaysThrown(headers, i + 1);
          return;
        }
      }
    }
    assert headers[..|headers|] == headers;
  }

  lemma {:induction false} StaysThrown(headers: seq<Header>, i: nat)
    requires i <= |headers| && Requested(headers[..i]).Some? && Requested(headers[..i]).value.Unreadable?
    ensures Requested(headers) == Requested(headers[..i])
    decreases |headers|
  {
    if i == |headers| {
      assert headers[..i] == headers;
    } else {
      var n := |headers| - 1;
      assert headers[..n][..i] == headers[..i];
      StaysThrown(headers[..n], i);
    }
  }

  /** The reply for what was copied out of an object of this size: partial exactly if it is shorter. */
  function Reply(content: seq<Byte>, size: nat, range: Option<Parsed>, contentType: string): Response
    requires range.Some? ==> range.value.Range?
  {
    var headers := BasicHeaders(content, contentType);
    if range.Some? && size != |content| then
      var end := if size > 0 && range.value.end > size - 1 then size - 1 else range.value.end;
      Response(206, headers + [ContentRange(range.value.begin, end, size)], content)
    else Response(200, headers, content)
  }

  lemma ReplyLabelled(content: seq<Byte>, size: nat, range: Option<Parsed>, contentType: string)
    requires range.Some? ==> range.value.Range?
    ensures Labelled(Reply(content, size, range, contentType), contentType)
  {
    hide Dec, Natural;
    NaturalDec(|content|);
  }

  /** A 206 reply names the bytes sent and the size of the object. */
  lemma ReplyNamesRange(content: seq<Byte>, size: nat, range: Parsed, contentType: string)
    requires range.Range? && size != |content|
    ensures
      var r := Reply(content, size, Some(range), contentType);
      && r.status == 206 && |r.headers| == 3 && r.content == content && r.headers[2].name == "Content-Range"
      && var last := if size > 0 && range.end > size - 1 then size - 1 else range.end;
         ReadContentRange(r.headers[2].value) == Some((range.begin, last, size))
  {
    hide Dec, ReadContentRange, ContentRange;
    var last := if size > 0 && range.end > size - 1 then size - 1 else range.end;
    ContentRangeReadsBack(range.begin, last, size);
  }

  /** The reply to what a usable object gives out is the one its range calls for. */
  lemma ReplyFits(data: seq<Byte>, range: Option<Parsed>, contentType: string)
    requires range.Some? ==> range.value.Range?
    ensures
      var content := if range.Some? then Slice(data, range.value.begin, range.value.end) else data;
      Fits(Reply(content, |data|, range, contentType), data, range, contentType)
  {
    hide Dec, ContentRange, ReadContentRange, Labelled;
    if range.Some? {
      var content := Slice(data, range.value.begin, range.value.end);
      SliceLength(data, range.value.begin, range.value.end);
      ReplyLabelled(content, |data|, range, contentType);
      if |content| != |data| { ReplyNamesRange(content, |data|, range.value, contentType); }
    } else {
      ReplyLabelled(data, |data|, range, contentType);
    }
  }

  method Describe(content: seq<Byte>, fullSz: nat, range: Option<Parsed>, contentType: string) returns (r: Response)
    requires range.Some? ==> range.value.Range?
    ensures r == Reply(content, fullSz, range, contentType)
    ensures Labelled(r, contentType) && r.content == content
    ensures r.status == (if range.Some? && fullSz != |content| then 206 else 200)
    ensures r.status == 206 ==>
      && |r.headers| == 3 && r.headers[2].name == "Content-Range"
      && var last := if fullSz > 0 && range.value.end > fullSz - 1 then fullSz - 1 else range.value.end;
         ReadContentRange(r.headers[2].value) == Some((range.value.begin, last, fullSz))
  {
    hide Dec, BasicHeaders, ContentRange, ReadContentRange, Labelled;
    ReplyLabelled(content, fullSz, range, contentType);
    if range.Some? && fullSz != |content| { ReplyNamesRange(content, fullSz, range.value, contentType); }
    var rngBegin, rngEnd := 0, 0;
    if range.Some? {
      rngBegin, rngEnd := range.value.begin, range.value.end;
    }
    // Unsigned: the size less one of an empty object is no bound.
    if fullSz > 0 && rngEnd > fullSz - 1 {
      rngEnd := fullSz - 1;
    }
    var headers := BasicHeaders(content, contentType);
    if range.Some? && fullSz != |content| {
      return Response(206, headers + [ContentRange(rngBegin, rngEnd, fullSz)], content);
    } else {
      return Response(200, headers, content);
    }
  }

  /** For any asset, usable or not: an unreadable range or a failed copy is thrown, and what was copied is described. */
  method SendResponse(request: Request, asset: Asset, contentType: string) returns (r: Response)
    ensures
      var range := Requested(request.headers);
      if range.Some? && range.value.Unreadable? then r == Thrown(range.value.error)
      else
        match CopyFor(asset, range)
        case Failed(error) => r == Thrown(error)
        case Copied(content, size) => r == Reply(content, size, range, contentType)
    ensures Usable(asset) ==> Fits(r, Object(asset), Requested(request.headers), contentType)
  {
    hide Requested, Object, Usable, CopyFor, Reply, Fits;
    var range := FindRange(request.headers);
    if range.Some? && range.value.Unreadable? {
      r := Thrown(range.value.error);
      UnreadableFits(range.value.error, contentType);
      return;
    }
    if Usable(asset) {
      UsableCopies(asset, range);
      ReplyFits(Object(asset), range, contentType);
    }
    var copied := Copy(asset, range);
    if copied.Failed? {
      return Thrown(copied.error);
    }
    r := Describe(copied.storage, copied.size, range, contentType);
  }

  lemma UnreadableFits(error: Error, contentType: string)
    ensures forall data :: Fits(Thrown(error), data, Some(Unreadable(error)), contentType)
  {
  }

  /** A slice is shorter than the object exactly if the range is a proper part of it. */
  lemma SliceLength(data: seq<Byte>, begin: nat, end: nat)
    ensures |Slice(data, begin, end)| != |data| <==> begin < |data| && begin <= end && (begin > 0 || end < |data| - 1)
    ensures |Slice(data, begin, end)| == |data| ==> Slice(data, begin, end) == data
  {
  }
}
