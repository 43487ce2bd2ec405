/** The asset wire format: written and read by the .NET client, read again by the HTTP front end. */
module AssetWire {
  import opened Wrappers
  import opened ByteOrder
  import opened Utf

  const HEADER_SIZE := 39
  const UUID_LEN := 32
  const TYPE_TAG_LOC := 32
  const LOCAL_TAG_LOC := 33
  const TEMPORARY_TAG_LOC := 34
  const CREATE_TIME_TAG_LOC := 35
  const NAME_SIZE_TAG_LOC := 39

  /** Lengths and 32-bit times of the .NET client. */
  const INT_LIMIT := 0x8000_0000
  type Int32 = x: int | -0x8000_0000 <= x < 0x8000_0000

  /** The length of an array is an int. */
  type Payload = b: seq<Byte> | |b| < INT_LIMIT

  datatype Asset = Asset(
    uuid: seq<Unit>, type_: Byte, local: bool, temporary: bool, createTime: Int32,
    name: seq<Unit>, description: seq<Unit>, data: Payload)

  // ----- Identifiers

  const DASH: Unit := 0x2D

  function FixUuid(s: seq<Unit>): seq<Unit> {
    if s == [] then [] else if s[0] == DASH then FixUuid(s[1..]) else [s[0]] + FixUuid(s[1..])
  }

  lemma {:induction false} FixedHasNoDash(s: seq<Unit>)
    ensures DASH !in FixUuid(s)
  {
    if s != [] {
      FixedHasNoDash(s[1..]);
    }
  }

  lemma {:induction false} NoDashIsFixed(s: seq<Unit>)
    requires DASH !in s
    ensures FixUuid(s) == s
  {
    if s != [] {
      NoDashIsFixed(s[1..]);
      assert [s[0]] + s[1..] == s;
    }
  }

  /** Where the units of an id that are not dashes stand, in order. */
  function Kept(s: seq<Unit>): seq<nat> {
    if s == [] then []
    else
      var n := |s| - 1;
      Kept(s[..n]) + if s[n] == DASH then [] else [n]
  }

  /** The places kept are in order, and they are all the places without a dash. */
  lemma {:induction false} KeptInOrder(s: seq<Unit>)
    ensures forall i, j :: 0 <= i < j < |Kept(s)| ==> Kept(s)[i] < Kept(s)[j]
    ensures forall k: nat :: k in Kept(s) <==> k < |s| && s[k] != DASH
  {
    if s != [] {
      var n := |s| - 1;
      KeptInOrder(s[..n]);
      assert forall i :: 0 <= i < |Kept(s[..n])| ==> Kept(s[..n])[i] in Kept(s[..n]);
    }
  }

  lemma {:induction false} FixUuidAppend(a: seq<Unit>, c: Unit)
    ensures FixUuid(a + [c]) == FixUuid(a) + if c == DASH then [] else [c]
  {
    if a == [] {
      assert [] + [c] == [c] && [c][1..] == [];
    } else {
      FixUuidAppend(a[1..], c);
      assert (a + [c])[1..] == a[1..] + [c];
    }
  }

  /** Fixing an id drops its dashes and nothing else: every other unit stays, in its order. */
  lemma {:induction false} FixUuidKeepsRest(s: seq<Unit>)
    ensures |FixUuid(s)| == |Kept(s)|
    ensures forall i :: 0 <= i < |Kept(s)| ==> Kept(s)[i] < |s| && FixUuid(s)[i] == s[Kept(s)[i]]
  {
    if s != [] {
      var n := |s| - 1;
      FixUuidKeepsRest(s[..n]);
      FixUuidAppend(s[..n], s[n]);
      assert s == s[..n] + [s[n]];
    }
  }

  predicate IsAscii(s: seq<Unit>) { forall i :: 0 <= i < |s| ==> s[i] < 0x80 }

  /** The encoding replaces every unit that is not ASCII by a question mark. */
  function ToAscii(s: seq<Unit>): seq<Byte> {
    seq(|s|, i requires 0 <= i < |s| => if s[i] < 0x80 then s[i] else 0x3F)
  }

  /** Bytes that are not ASCII read as question marks. */
  function FromAscii(b: seq<Byte>): seq<Unit> {
    seq(|b|, i requires 0 <= i < |b| => if b[i] < 0x80 then b[i] else 0x3F)
  }

  /** An id survives its encoding if and only if it is ASCII. */
  lemma AsciiSurvivesIff(s: seq<Unit>)
    ensures FromAscii(ToAscii(s)) == s <==> IsAscii(s)
  {
    var t := FromAscii(ToAscii(s));
    if !IsAscii(s) {
      var i :| 0 <= i < |s| && s[i] >= 0x80;
      assert t[i] != s[i];
    }
  }

  // ----- 32-bit numbers

  function Unsigned(n: Int32): Word { if n >= 0 then n else n + 0x1_0000_0000 }
  function Signed(w: Word): Int32 { if w < 0x8000_0000 then w else w - 0x1_0000_0000 }

  /** BitConverter works on the host's order, which is little-endian. */
  function Htonl(n: Int32): seq<Byte> { Le(Swap(Unsigned(n))) }

  function Ntohl(b: seq<Byte>): Int32
    requires |b| == 4
  {
    Signed(Swap(FromLe(b)))
  }

  lemma NumbersRoundTrip(n: Int32)
    ensures |Htonl(n)| == 4 && Htonl(n) == Be(Unsigned(n)) && Ntohl(Htonl(n)) == n
  {
    SwapIsNetworkOrder(Unsigned(n));
    SwapReadsNetworkOrder(Htonl(n));
    BeRoundTrip(Unsigned(n));
  }

  lemma SizeRoundTrip(n: nat)
    requires n < INT_LIMIT
    ensures Ntohl(Be(n)) == n
  {
    NumbersRoundTrip(n);
  }

  // ----- Layout

  function Flag(b: bool): Byte { if b then 1 else 0 }

  /** The bytes of an asset's id on the wire. */
  function IdBytes(a: Asset): seq<Byte> { ToAscii(FixUuid(a.uuid)) }

  function Head(a: Asset): seq<Byte> {
    IdBytes(a) + [a.type_, Flag(a.local), Flag(a.temporary)] + Be(Unsigned(a.createTime))
  }

  function Sized(text: seq<Byte>): seq<Byte>
    requires |text| < 256
  {
    [|text|] + text
  }

  predicate Serialisable(a: Asset) { |Utf8(a.name)| < 256 && |Utf8(a.description)| < 256 }

  function Layout(a: Asset): seq<Byte>
    requires Serialisable(a)
  {
    Head(a) + Sized(Utf8(a.name)) + Sized(Utf8(a.description)) + Be(|a.data|) + a.data
  }

  function TotalSize(a: Asset): nat { HEADER_SIZE + 1 + |Utf8(a.name)| + 1 + |Utf8(a.description)| + 4 + |a.data| }

  lemma LayoutLength(a: Asset)
    requires Serialisable(a)
    ensures |Layout(a)| == TotalSize(a) - UUID_LEN + |FixUuid(a.uuid)|
  {
    hide Utf8;
  }

  // ----- Reading

  datatype Fields = Fields(
    uuid: seq<Unit>, type_: Byte, local: bool, temporary: bool, createTime: Int32,
    name: seq<Byte>, description: seq<Byte>, data: seq<Byte>)

  /** The text after a size byte, if it is all there. */
  function TextAt(b: seq<Byte>, loc: nat): Option<seq<Byte>> {
    if loc < |b| && loc + 1 + b[loc] <= |b| then Some(b[loc + 1..loc + 1 + b[loc]]) else None
  }

  function DataAt(b: seq<Byte>, loc: nat): Option<seq<Byte>> {
    if |b| < loc + 4 then None
    else
      var size := Ntohl(b[loc..loc + 4]);
      if size <= 0 then Some([])
      else if |b| < loc + 4 + size then None
      else Some(b[loc + 4..loc + 4 + size])
  }

  /** The deserialising constructor; an access past the end of the array throws. */
  function Deserialize(b: seq<Byte>): Option<Fields> {
    if |b| <= NAME_SIZE_TAG_LOC then None
    else
      var name := TextAt(b, NAME_SIZE_TAG_LOC);
      if name.None? then None
      else
        var descLoc := NAME_SIZE_TAG_LOC + 1 + |name.value|;
        var desc := TextAt(b, descLoc);
        if desc.None? then None
        else
          var data := DataAt(b, descLoc + 1 + |desc.value|);
          if data.None? then None
          else Some(Fields(FromAscii(b[..UUID_LEN]), b[TYPE_TAG_LOC], b[LOCAL_TAG_LOC] == 1, b[TEMPORARY_TAG_LOC] == 1,
            Ntohl(b[CREATE_TIME_TAG_LOC..CREATE_TIME_TAG_LOC + 4]), name.value, desc.value, data.value))
  }

  /** What reading an asset back should give: the same fields, the id as ASCII, the texts as their encodings. */
  function AsFields(a: Asset): Fields {
    Fields(FromAscii(IdBytes(a)), a.type_, a.local, a.temporary, a.createTime,
      Utf8(a.name), Utf8(a.description), a.data)
  }

  lemma TextReads(front: seq<Byte>, text: seq<Byte>, rest: seq<Byte>)
    requires |text| < 256
    ensures TextAt(front + Sized(text) + rest, |front|) == Some(text)
  {
    var b := front + Sized(text) + rest;
    assert b[|front|] == |text|;
    assert b[|front| + 1..|front| + 1 + |text|] == text;
  }

  lemma DataReads(front: seq<Byte>, data: seq<Byte>)
    requires |data| < INT_LIMIT
    ensures DataAt(front + Be(|data|) + data, |front|) == Some(data)
  {
    hide Be, Ntohl;
    var b, p := front + Be(|data|) + data, |front|;
    SizeRoundTrip(|data|);
    assert b[p..p + 4] == Be(|data|);
    assert b[p + 4..p + 4 + |data|] == data;
  }

  lemma HeadReads(a: Asset, rest: seq<Byte>)
    requires |FixUuid(a.uuid)| == UUID_LEN
    ensures
      var b := Head(a) + rest;
      && |Head(a)| == HEADER_SIZE
      && FromAscii(b[..UUID_LEN]) == FromAscii(IdBytes(a))
      && b[TYPE_TAG_LOC] == a.type_ && (b[LOCAL_TAG_LOC] == 1) == a.local && (b[TEMPORARY_TAG_LOC] == 1) == a.temporary
      && Ntohl(b[CREATE_TIME_TAG_LOC..CREATE_TIME_TAG_LOC + 4]) == a.createTime
  {
    hide Be, Ntohl, Htonl, Unsigned;
    var b := Head(a) + rest;
    assert b[..UUID_LEN] == IdBytes(a);
    NumbersRoundTrip(a.createTime);
    assert b[CREATE_TIME_TAG_LOC..CREATE_TIME_TAG_LOC + 4] == Be(Unsigned(a.createTime));
  }

  /** Reading what was laid out gives back the same fields. */
  lemma LayoutReadsBack(a: Asset)
    requires Serialisable(a) && |FixUuid(a.uuid)| == UUID_LEN
    ensures Deserialize(Layout(a)) == Some(AsFields(a))
  {
    hide Utf8, Head, TextAt, DataAt, Be, Ntohl, FromAscii;
    var head, name, desc := Head(a), Utf8(a.name), Utf8(a.description);
    var b := Layout(a);
    var tail := Be(|a.data|) + a.data;
    assert b == head + (Sized(name) + Sized(desc) + tail);
    HeadReads(a, Sized(name) + Sized(desc) + tail);
    assert b == head + Sized(name) + (Sized(desc) + tail);
    TextReads(head, name, Sized(desc) + tail);
    assert b == head + Sized(name) + Sized(desc) + tail;
    TextReads(head + Sized(name), desc, tail);
    DataReads(head + Sized(name) + Sized(desc), a.data);
  }

  // ----- The C++ reader

  /** Where the front end finds the payload and its size; None where it would read past the end of the asset. */
  function FindData(b: seq<Byte>): Option<(nat, Word)> {
    if |b| <= NAME_SIZE_TAG_LOC then None
    else
      var descLoc := NAME_SIZE_TAG_LOC + b[NAME_SIZE_TAG_LOC] + 1;
      if |b| <= descLoc then None
      else
        var sizeLoc := descLoc + b[descLoc] + 1;
        if |b| < sizeLoc + 4 then None
        else Some((sizeLoc + 4, Swap(FromLe(b[sizeLoc..sizeLoc + 4]))))
  }

  /** Wherever the .NET reader succeeds, the C++ reader finds the same payload, if the size has no sign bit. */
  lemma ReadersAgree(b: seq<Byte>)
    requires Deserialize(b).Some?
    ensures
      && FindData(b).Some?
      && var (loc, size) := FindData(b).value;
         && (size < INT_LIMIT ==> loc + size <= |b| && b[loc..loc + size] == Deserialize(b).value.data)
         && (size >= INT_LIMIT ==> Deserialize(b).value.data == [])
  {
    hide Swap, FromLe, FromAscii;
  }

  /** The C++ reader finds exactly the payload in what the .NET writer lays out. */
  lemma PayloadFound(a: Asset)
    requires Serialisable(a) && |FixUuid(a.uuid)| == UUID_LEN
    ensures
      var b := Layout(a);
      && FindData(b).Some?
      && var (loc, size) := FindData(b).value;
         size == |a.data| && loc + size == |b| && b[loc..] == a.data
  {
    hide Utf8, Be, Swap, FromLe;
    LayoutLength(a);
    var b, name, desc := Layout(a), Utf8(a.name), Utf8(a.description);
    var head := Head(a);
    assert b[NAME_SIZE_TAG_LOC] == |name|;
    var descLoc := NAME_SIZE_TAG_LOC + |name| + 1;
    assert b[descLoc] == |desc|;
    var sizeLoc := descLoc + |desc| + 1;
    assert b[sizeLoc..sizeLoc + 4] == Be(|a.data|);
    SwapReadsNetworkOrder(Be(|a.data|));
    BeRoundTrip(|a.data|);
    assert b[sizeLoc + 4..] == a.data;
  }

  // ----- Building and serialising

  /** The public constructor. */
  function Built(
    uuid: seq<Unit>, type_: Byte, local: bool, temporary: bool, createTime: Int32,
    name: seq<Unit>, description: seq<Unit>, data: Payload): Asset
  {
    Asset(FixUuid(uuid), type_, local, temporary, createTime, Limited(name, 255), Limited(description, 255), data)
  }

  /**
   * Every built asset with an id of 32 characters comes back from the wire, its id if and only if it is ASCII, its
   * texts up to lone surrogates; and the C++ reader finds its payload.
   */
  lemma BuiltRoundTrip(
    uuid: seq<Unit>, type_: Byte, local: bool, temporary: bool, createTime: Int32,
    name: seq<Unit>, description: seq<Unit>, data: Payload)
    requires |FixUuid(uuid)| == UUID_LEN
    ensures
      var a := Built(uuid, type_, local, temporary, createTime, name, description, data);
      && Serialisable(a) && FixUuid(a.uuid) == a.uuid && |Layout(a)| == TotalSize(a)
      && Deserialize(Layout(a)) == Some(AsFields(a))
      && (AsFields(a).uuid == a.uuid <==> IsAscii(a.uuid))
      && Decode(AsFields(a).name) == Some(Repaired(Limited(name, 255)))
      && Decode(AsFields(a).description) == Some(Repaired(Limited(description, 255)))
      && FindData(Layout(a)) == Some((TotalSize(a) - |data|, |data|))
      && Layout(a)[TotalSize(a) - |data|..] == data
  {
    hide Utf8, Deserialize, FindData, Decode, Layout;
    var a := Built(uuid, type_, local, temporary, createTime, name, description, data);
    BuiltIsSerialisable(uuid, type_, local, temporary, createTime, name, description, data);
    LayoutLength(a);
    LayoutReadsBack(a);
    AsciiSurvivesIff(a.uuid);
    PayloadFound(a);
    var found := FindData(Layout(a)).value;
    assert found == (found.0, found.1);
    DecodeUtf8(a.name);
    DecodeUtf8(a.description);
  }

  lemma BuiltIsSerialisable(
    uuid: seq<Unit>, type_: Byte, local: bool, temporary: bool, createTime: Int32,
    name: seq<Unit>, description: seq<Unit>, data: Payload)
    ensures
      var a := Built(uuid, type_, local, temporary, createTime, name, description, data);
      Serialisable(a) && FixUuid(a.uuid) == a.uuid
  {
    hide Utf8;
    LimitFromIsLongest(name, |name|, 255);
    LimitFromIsLongest(description, |description|, 255);
    FixedHasNoDash(uuid);
    NoDashIsFixed(FixUuid(uuid));
  }

  /** A fixed-size array filled from the front. */
  class AppendableByteArray {
    const data: array<Byte>
    var insertPos: nat

    ghost predicate Valid()
      reads this
    {
      insertPos <= data.Length
    }

    ghost function Written(): seq<Byte>
      reads this, data
      requires Valid()
    {
      data[..insertPos]
    }

    constructor (size: nat)
      ensures Valid() && fresh(data) && data.Length == size && Written() == []
    {
      data := new Byte[size](_ => 0);
      insertPos := 0;
    }

    /** Writing past the end throws, with the position already advanced. */
    method AppendByte(b: Byte) returns (ok: bool)
      requires Valid()
      modifies this, data
      ensures ok == (old(insertPos) < data.Length) && insertPos == old(insertPos) + 1
      ensures ok ==> Valid() && Written() == old(Written()) + [b]
      ensures !ok ==> data[..] == old(data[..])
    {
      var at := insertPos;
      insertPos := insertPos + 1;
      if at >= data.Length {
        return false;
      }
      data[at] := b;
      return true;
    }

    /** A copy that does not fit throws and changes nothing. */
    method Append(more: seq<Byte>) returns (ok: bool)
      requires Valid()
      modifies this, data
      ensures Valid() && ok == (old(insertPos) + |more| <= data.Length)
      ensures Written() == if ok then old(Written()) + more else old(Written())
    {
      if |more| > 0 {
        if insertPos + |more| > data.Length {
          return false;
        }
        forall i | 0 <= i < |more| {
          data[insertPos + i] := more[i];
        }
        insertPos := insertPos + |more|;
      }
      return true;
    }

    method GetSubarray(srcIndex: nat, length: nat) returns (r: Option<seq<Byte>>)
      ensures r == if srcIndex + length <= data.Length then Some(data[srcIndex..srcIndex + length]) else None
    {
      if srcIndex + length > data.Length {
        return None;
      }
      return Some(data[srcIndex..srcIndex + length]);
    }
  }

  lemma HeadInPieces(a: Asset)
    ensures Head(a) == IdBytes(a) + [a.type_, Flag(a.local), Flag(a.temporary)] + Htonl(a.createTime)
  {
    NumbersRoundTrip(a.createTime);
  }

  /** The fixed part: id, type, flags and time. */
  method AppendHead(out: AppendableByteArray, a: Asset) returns (ok: bool)
    requires out.Valid()
    modifies out, out.data
    ensures ok == (old(out.insertPos) + |Head(a)| <= out.data.Length)
    ensures ok ==> out.Valid() && out.Written() == old(out.Written()) + Head(a)
  {
    hide Head, Htonl, FixUuid, ToAscii, Flag;
    HeadInPieces(a);
    ok := out.Append(ToAscii(FixUuid(a.uuid)));
    if ok {
      ok := AppendTags(out, a.type_, Flag(a.local), Flag(a.temporary));
    }
    if ok {
      ok := out.Append(Htonl(a.createTime));
    }
    assert |Head(a)| == |IdBytes(a)| + 7 by { NumbersRoundTrip(a.createTime); }
  }

  method AppendTags(out: AppendableByteArray, type_: Byte, local: Byte, temporary: Byte) returns (ok: bool)
    requires out.Valid()
    modifies out, out.data
    ensures ok == (old(out.insertPos) + 3 <= out.data.Length)
    ensures ok ==> out.Valid() && out.Written() == old(out.Written()) + [type_, local, temporary]
  {
    ok := out.AppendByte(type_);
    if ok {
      ok := out.AppendByte(local);
    }
    if ok {
      ok := out.AppendByte(temporary);
    }
  }

  method AppendSized(out: AppendableByteArray, text: seq<Byte>) returns (ok: bool)
    requires out.Valid() && |text| < 256
    modifies out, out.data
    ensures ok == (old(out.insertPos) + |Sized(text)| <= out.data.Length)
    ensures ok ==> out.Valid() && out.Written() == old(out.Written()) + Sized(text)
  {
    ok := out.AppendByte(|text|);
    if ok {
      ok := out.Append(text);
    }
  }

  method AppendTexts(out: AppendableByteArray, name: seq<Byte>, description: seq<Byte>) returns (ok: bool)
    requires out.Valid() && |name| < 256 && |description| < 256
    modifies out, out.data
    ensures ok == (old(out.insertPos) + |Sized(name) + Sized(description)| <= out.data.Length)
    ensures ok ==> out.Valid() && out.Written() == old(out.Written()) + (Sized(name) + Sized(description))
  {
    hide Sized;
    ok := AppendSized(out, name);
    if ok {
      ok := AppendSized(out, description);
    }
  }

  method AppendData(out: AppendableByteArray, data: Payload) returns (ok: bool)
    requires out.Valid()
    modifies out, out.data
    ensures ok == (old(out.insertPos) + |Be(|data|) + data| <= out.data.Length)
    ensures ok ==> out.Valid() && out.Written() == old(out.Written()) + (Be(|data|) + data)
  {
    hide Be, Htonl;
    NumbersRoundTrip(|data|);
    ok := out.Append(Htonl(|data|));
    if ok {
      ok := out.Append(data);
    }
  }

  method Fill(out: AppendableByteArray, a: Asset) returns (ok: bool)
    requires out.Valid() && out.Written() == [] && Serialisable(a)
    modifies out, out.data
    ensures ok == (|Layout(a)| <= out.data.Length)
    ensures ok ==> out.Valid() && out.Written() == Layout(a)
  {
    hide Utf8, Be, Head, Sized;
    ghost var texts, tail := Sized(Utf8(a.name)) + Sized(Utf8(a.description)), Be(|a.data|) + a.data;
    assert Layout(a) == Head(a) + texts + tail;
    ok := AppendHead(out, a);
    if ok {
      ok := AppendTexts(out, Utf8(a.name), Utf8(a.description));
    }
    if ok {
      ok := AppendData(out, a.data);
    }
  }

  /**
   * Serialises unless a text is too long, the id is longer than 32 characters or the size does not fit an int; the
   * buffer is filled exactly if and only if the id has 32 characters.
   */
  method Serialize(a: Asset) returns (out: AppendableByteArray?)
    ensures out != null <==> Serialisable(a) && |FixUuid(a.uuid)| <= UUID_LEN && TotalSize(a) < INT_LIMIT
    ensures out != null ==> fresh(out) && fresh(out.data) && out.Valid() && out.data.Length == TotalSize(a)
    ensures out != null ==> Serialisable(a) && out.Written() == Layout(a)
    ensures out != null ==> (out.Written() == out.data[..] <==> |FixUuid(a.uuid)| == UUID_LEN)
  {
    hide Utf8, Be, FixUuid;
    var nameBytes, descBytes := Utf8(a.name), Utf8(a.description);
    if |nameBytes| > 255 || |descBytes| > 255 {
      return null;
    }
    var size := HEADER_SIZE + 1 + |nameBytes| + 1 + |descBytes| + 4 + |a.data|;
    if size >= INT_LIMIT {
      return null;
    }
    var buffer := new AppendableByteArray(size);
    LayoutLength(a);
    var ok := Fill(buffer, a);
    if !ok {
      return null;
    }
    assert |buffer.Written()| == buffer.insertPos;
    return buffer;
  }

  /** The public constructor, whose texts are cut by a loop each. */
  method Build(
    uuid: seq<Unit>, type_: Byte, local: bool, temporary: bool, createTime: Int32,
    name: seq<Unit>, description: seq<Unit>, data: Payload) returns (a: Asset)
    ensures a == Built(uuid, type_, local, temporary, createTime, name, description, data)
  {
    var shortName := LimitByteLength(name, 255);
    var shortDescription := LimitByteLength(description, 255);
    a := Asset(FixUuid(uuid), type_, local, temporary, createTime, shortName, shortDescription, data);
  }

  /** Building, serialising and deserialising: every field comes back if the id has 32 ASCII characters. */
  method Transmit(
    uuid: seq<Unit>, type_: Byte, local: bool, temporary: bool, createTime: Int32,
    name: seq<Unit>, description: seq<Unit>, data: Payload) returns (sent: Asset, received: Option<Fields>)
    ensures sent == Built(uuid, type_, local, temporary, createTime, name, description, data)
    ensures |FixUuid(uuid)| == UUID_LEN && TotalSize(sent) < INT_LIMIT ==> received == Some(AsFields(sent))
    ensures |FixUuid(uuid)| == UUID_LEN && TotalSize(sent) < INT_LIMIT && IsAscii(FixUuid(uuid)) ==>
      received == Some(Fields(FixUuid(uuid), type_, local, temporary, createTime,
        Utf8(Limited(name, 255)), Utf8(Limited(description, 255)), data))
    ensures |FixUuid(uuid)| > UUID_LEN || TotalSize(sent) >= INT_LIMIT ==> received == None
  {
    hide Utf8, Deserialize, Layout, FixUuid, Limited;
    sent := Build(uuid, type_, local, temporary, createTime, name, description, data);
    BuiltIsSerialisable(uuid, type_, local, temporary, createTime, name, description, data);
    var out := Serialize(sent);
    if out == null {
      return sent, None;
    }
    received := Deserialize(out.data[..]);
    if |FixUuid(uuid)| == UUID_LEN {
      LayoutReadsBack(sent);
      AsciiSurvivesIff(sent.uuid);
    }
  }

  /** An id of one character leaves the last 31 bytes of the buffer unwritten. */
  method ShortIdDoesNotFill() returns (out: AppendableByteArray)
    ensures out.Valid() && |out.Written()| == out.data.Length - 31
  {
    var a := Asset([0x61], 0, false, false, 0, [], [], []);
    assert FixUuid([0x61]) == [0x61] by { NoDashIsFixed([0x61]); }
    LayoutLength(a);
    var buffer := Serialize(a);
    return buffer;
  }
}
