/** The append-only data file: a magic word, then records of a four-byte size in network order and an asset. */
module DataFile {
  import opened Wrappers
  import opened Sequences
  import opened ByteOrder

  /** A file that does not exist, or its bytes. */
  type File = Option<seq<Byte>>

  /** IWZDDB01. */
  const MAGIC: seq<Byte> := [0x49, 0x57, 0x5a, 0x44, 0x44, 0x42, 0x30, 0x31]
  const INVALID_POSITION := 0
  const LIMIT := 0x1_0000_0000

  function Bytes(file: File): seq<Byte> { if file.Some? then file.value else [] }

  function Record(data: seq<Byte>): seq<Byte>
    requires |data| < LIMIT
  {
    Be(|data|) + data
  }

  /** What a write of an asset puts behind the bytes already there; a size that needs more than 32 bits throws. */
  function Outgoing(file: File, data: seq<Byte>): seq<Byte> {
    (if file.None? then MAGIC else []) + (if |data| < LIMIT then Record(data) else [])
  }

  /** The file after a write of which the disk took no more than `room` bytes. */
  function After(file: File, data: seq<Byte>, room: nat): File {
    var out := Outgoing(file, data);
    Some(Bytes(file) + out[..Min(room, |out|)])
  }

  /** The position given to the caller, unless the write failed. */
  function Returned(file: File, data: seq<Byte>, room: nat): Option<nat> {
    if |data| < LIMIT && room >= |Outgoing(file, data)| then Some(if file.None? then 8 else |file.value|) else None
  }

  /** The asset at a position; a short read throws. */
  function ReadAt(file: File, position: nat): Option<seq<Byte>> {
    if file.None? || |file.value| < position + 4 then None
    else
      var size := FromBe(file.value[position..position + 4]);
      if |file.value| < position + 4 + size then None
      else Some(file.value[position + 4..position + 4 + size])
  }

  // ----- Runs

  /** One attempt to append an asset. */
  datatype Attempt = Attempt(data: seq<Byte>, room: nat)

  /** A position handed out, and what for. */
  datatype Stored = Stored(position: nat, data: seq<Byte>)

  datatype World = World(file: File, stored: seq<Stored>)

  function Next(w: World, a: Attempt): World {
    var pos := Returned(w.file, a.data, a.room);
    World(After(w.file, a.data, a.room), if pos.Some? then w.stored + [Stored(pos.value, a.data)] else w.stored)
  }

  function Run(w: World, attempts: seq<Attempt>): World {
    if attempts == [] then w else Next(Run(w, attempts[..|attempts| - 1]), attempts[|attempts| - 1])
  }

  function End(s: Stored): nat { s.position + 4 + |s.data| }

  predicate Readable(file: File, s: Stored) { |s.data| < LIMIT && ReadAt(file, s.position) == Some(s.data) }

  /** Every position reads back its asset; records follow one another and lie inside the file. */
  predicate Inv(w: World) {
    && (forall i :: 0 <= i < |w.stored| ==> Readable(w.file, w.stored[i]) && End(w.stored[i]) <= |Bytes(w.file)|)
    && (forall i, j :: 0 <= i < j < |w.stored| ==> End(w.stored[i]) <= w.stored[j].position)
  }

  lemma AppendKeepsReadable(file: File, more: seq<Byte>, s: Stored)
    requires Readable(file, s)
    ensures Readable(Some(Bytes(file) + more), s)
  {
    var b, p := Bytes(file), s.position;
    var b' := b + more;
    assert b'[p..p + 4] == b[p..p + 4];
    var size := FromBe(b[p..p + 4]);
    assert b'[p + 4..p + 4 + size] == b[p + 4..p + 4 + size];
  }

  lemma RecordReads(front: seq<Byte>, data: seq<Byte>)
    requires |data| < LIMIT
    ensures ReadAt(Some(front + Record(data)), |front|) == Some(data)
  {
    hide Be, FromBe;
    var b, p := front + Record(data), |front|;
    assert b[p..p + 4] == Be(|data|);
    BeRoundTrip(|data|);
    assert b[p + 4..p + 4 + |data|] == data;
  }

  /** A finished write can be read at the position it returned, which is where the file ended. */
  lemma WriteThenRead(file: File, data: seq<Byte>, room: nat)
    requires Returned(file, data, room).Some?
    ensures
      var p := Returned(file, data, room).value;
      && ReadAt(After(file, data, room), p) == Some(data)
      && |Bytes(file)| <= p && p + 4 + |data| == |Bytes(After(file, data, room))|
  {
    hide ReadAt, Be;
    var front := if file.None? then MAGIC else file.value;
    var out := Outgoing(file, data);
    assert out[..Min(room, |out|)] == out;
    assert Bytes(file) + out == front + Record(data);
    RecordReads(front, data);
  }

  lemma StepKeepsInv(w: World, a: Attempt)
    requires Inv(w)
    ensures Inv(Next(w, a))
  {
    hide Returned, ReadAt, Outgoing;
    var w' := Next(w, a);
    var out := Outgoing(w.file, a.data);
    forall i | 0 <= i < |w.stored|
      ensures Readable(w'.file, w.stored[i]) && End(w.stored[i]) <= |Bytes(w'.file)|
    {
      AppendKeepsReadable(w.file, out[..Min(a.room, |out|)], w.stored[i]);
    }
    if Returned(w.file, a.data, a.room).Some? {
      WriteThenRead(w.file, a.data, a.room);
      SmallEnough(w.file, a.data, a.room);
    }
  }

  lemma SmallEnough(file: File, data: seq<Byte>, room: nat)
    requires Returned(file, data, room).Some?
    ensures |data| < LIMIT
  {
  }

  /** After any attempts, torn at any byte, all positions handed out read back their assets and records are disjoint. */
  lemma {:induction false} PositionsReadBack(w: World, attempts: seq<Attempt>)
    requires Inv(w)
    ensures Inv(Run(w, attempts)) && w.stored <= Run(w, attempts).stored
  {
    if attempts != [] {
      var n := |attempts| - 1;
      PositionsReadBack(w, attempts[..n]);
      StepKeepsInv(Run(w, attempts[..n]), attempts[n]);
    }
  }

  // ----- Positions the index could mistake for no position

  /** A write returns the invalid position exactly when the file existed and was empty. */
  lemma InvalidIff(file: File, data: seq<Byte>, room: nat)
    requires Returned(file, data, room).Some?
    ensures Returned(file, data, room) == Some(INVALID_POSITION) <==> file == Some([])
  {
  }

  /** The file is created without a byte of its magic word. */
  predicate LeavesEmpty(file: File, a: Attempt) { Bytes(file) == [] && a.room == 0 }

  /** Starting without a file, no position is invalid as long as no attempt leaves the file empty. */
  lemma {:induction false} PositionsValid(attempts: seq<Attempt>)
    requires forall i :: 0 <= i < |attempts| ==>
      !LeavesEmpty(Run(World(None, []), attempts[..i]).file, attempts[i])
    ensures
      var w := Run(World(None, []), attempts);
      && (w.file == None <==> attempts == []) && w.file != Some([])
      && forall i :: 0 <= i < |w.stored| ==> w.stored[i].position != INVALID_POSITION
  {
    if attempts != [] {
      var n := |attempts| - 1;
      var was, a := attempts[..n], attempts[n];
      forall i | 0 <= i < |was|
        ensures !LeavesEmpty(Run(World(None, []), was[..i]).file, was[i])
      {
        assert was[..i] == attempts[..i];
      }
      PositionsValid(was);
      var w := Run(World(None, []), was);
      assert !LeavesEmpty(w.file, a);
      NeverEmptied(w.file, a.data, a.room);
      if Returned(w.file, a.data, a.room).Some? {
        InvalidIff(w.file, a.data, a.room);
      }
    }
  }

  lemma NeverEmptied(file: File, data: seq<Byte>, room: nat)
    requires file != Some([]) && !(Bytes(file) == [] && room == 0)
    ensures After(file, data, room).Some? && After(file, data, room) != Some([])
  {
    var out := Outgoing(file, data);
    if file.None? {
      assert |out| >= 8;
    }
  }

  /** Once the magic word is whole, every position is past it. */
  lemma {:induction false} PositionsPastMagic(attempts: seq<Attempt>)
    requires attempts != [] ==> attempts[0].room >= 8
    ensures
      var w := Run(World(None, []), attempts);
      && (w.file.Some? <==> attempts != []) && (w.file.Some? ==> MAGIC <= w.file.value)
      && forall i :: 0 <= i < |w.stored| ==> w.stored[i].position >= 8
  {
    if attempts != [] {
      var n := |attempts| - 1;
      PositionsPastMagic(attempts[..n]);
      var w := Run(World(None, []), attempts[..n]);
      if n == 0 {
        var out := Outgoing(None, attempts[0].data);
        assert MAGIC <= out[..Min(attempts[0].room, |out|)];
      }
    }
  }

  /** An attempt that dies before the first byte makes the next one return the invalid position. */
  lemma TornMagicInvalid(data: seq<Byte>)
    requires |data| < LIMIT
    ensures
      Run(World(None, []), [Attempt(data, 0), Attempt(data, |data| + 4)]).stored == [Stored(INVALID_POSITION, data)]
  {
    var a, b := Attempt(data, 0), Attempt(data, |data| + 4);
    var w := World(None, []);
    assert [a, b][..1] == [a] && [a][..0] == [];
    assert Bytes(None) + Outgoing(None, data)[..0] == [];
    assert Run(w, [a]) == Next(w, a) == World(Some([]), []);
    assert |Outgoing(Some([]), data)| == |data| + 4;
  }

  // ----- The file object

  /** Two writes, the second only if the first was whole, are one write of both. */
  lemma TwoWrites(was: seq<Byte>, a: seq<Byte>, b: seq<Byte>, room: nat)
    ensures room < |a| ==> was + (a + b)[..Min(room, |a + b|)] == was + a[..Min(room, |a|)]
    ensures
      room >= |a| ==>
        was + (a + b)[..Min(room, |a + b|)] == was + a[..Min(room, |a|)] + b[..Min(room - |a|, |b|)]
  {
    if room >= |a| {
      assert a[..Min(room, |a|)] == a;
      assert (a + b)[..Min(room, |a + b|)] == a + b[..Min(room - |a|, |b|)];
    }
  }

  lemma RecordLength(data: seq<Byte>)
    ensures |data| < LIMIT ==> |Record(data)| == 4 + |data|
  {
  }

  /** The file and the write position of its open handle; `room` is what the disk still takes. */
  class Store {
    var file: File
    var at: nat
    var room: nat

    constructor ()
      ensures file == None
    {
      file := None;
    }

    /** Writes as much as there is room for; a short write throws. */
    method Write(bytes: seq<Byte>) returns (ok: bool)
      requires file.Some? && at == |file.value|
      modifies this
      ensures file == Some(old(file.value) + bytes[..Min(old(room), |bytes|)])
      ensures ok == (old(room) >= |bytes|)
      ensures ok ==> at == |file.value| && room == old(room) - |bytes|
    {
      var n := Min(room, |bytes|);
      file := Some(file.value + bytes[..n]);
      at := at + n;
      room := room - n;
      return n == |bytes|;
    }

    /** Writes the size in network order, then the contents. */
    method WriteRecord(data: seq<Byte>) returns (ok: bool)
      requires |data| < LIMIT && file.Some? && at == |file.value|
      modifies this
      ensures file == Some(old(file.value) + Record(data)[..Min(old(room), 4 + |data|)])
      ensures ok == (old(room) >= 4 + |data|)
    {
      hide Be, Le, Swap;
      ghost var was, space := file.value, room;
      var assetSize := Swap(|data|);
      SwapIsNetworkOrder(|data|);
      ok := Write(Le(assetSize));
      TwoWrites(was, Be(|data|), data, space);
      if ok {
        ok := Write(data);
      }
    }

    method WriteNewAsset(data: seq<Byte>) returns (pos: Option<nat>)
      modifies this
      ensures file == After(old(file), data, old(room)) && pos == Returned(old(file), data, old(room))
    {
      hide Record;
      ghost var record := if |data| < LIMIT then Record(data) else [];
      TwoWrites([], MAGIC, record, room);
      RecordLength(data);
      var ok, p;
      if file.None? {
        file, at := Some([]), 0;
        ok := Write(MAGIC);
        if !ok {
          return None;
        }
        p := 8;
      } else {
        p := |file.value|;
        at := p;
        assert [] + record == record;
      }
      if |data| >= LIMIT {
        assert file.value + record[..0] == file.value;
        return None;
      }
      ok := WriteRecord(data);
      if !ok {
        return None;
      }
      return Some(p);
    }

    method GetAssetAtPosition(position: nat) returns (asset: Option<seq<Byte>>)
      ensures asset == ReadAt(file, position)
    {
      hide FromLe, FromBe, Swap;
      if file.None? {
        return None;
      }
      var bytes := file.value;
      if |bytes| < position + 4 {
        return None;
      }
      var word := FromLe(bytes[position..position + 4]);
      SwapReadsNetworkOrder(bytes[position..position + 4]);
      var assetSize := Swap(word);
      if |bytes| < position + 4 + assetSize {
        return None;
      }
      return Some(bytes[position + 4..position + 4 + assetSize]);
    }
  }
}
