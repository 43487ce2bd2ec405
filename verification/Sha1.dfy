/** The streaming SHA-1 of CSHA1: a 64-byte carry buffer, a two-word bit counter, a sixteen-word
    schedule rewritten in place and registers that change roles instead of values. */
module Sha1Stream {
  import opened Fips180

  const WORD_RANGE := 0x1_0000_0000

  /** An unsigned 32-bit counter word; arithmetic on it is written out modulo 2^32. */
  type UInt32 = x: int | 0 <= x < 0x1_0000_0000

  function Add32(x: UInt32, y: UInt32): UInt32 { (x + y) % WORD_RANGE }

  function Rol24(x: Word): Word { (x << 24) | (x >> 8) }
  function Rol8(x: Word): Word { (x << 8) | (x >> 24) }

  /** What memcpy of four bytes into a word means on a little-endian host. */
  function LittleEndianWord(b0: Byte, b1: Byte, b2: Byte, b3: Byte): Word {
    ((b3 as Word) << 24) | ((b2 as Word) << 16) | ((b1 as Word) << 8) | (b0 as Word)
  }

  function SwapBytes(x: Word): Word { (Rol24(x) & 0xFF00FF00) | (Rol8(x) & 0x00FF00FF) }

  lemma SwapBytesReadsBigEndian(b0: Byte, b1: Byte, b2: Byte, b3: Byte)
    ensures SwapBytes(LittleEndianWord(b0, b1, b2, b3)) == BigEndianWord(b0, b1, b2, b3)
  {}

  function ChMacro(w: Word, x: Word, y: Word): Word { (w & (x ^ y)) ^ y }
  function MajMacro(w: Word, x: Word, y: Word): Word { ((w | x) & y) | (w & x) }

  lemma ChBits(w: Word, x: Word, y: Word)
    ensures (w & (x ^ y)) ^ y == (w & x) ^ (!w & y)
  {}

  lemma MajBits(w: Word, x: Word, y: Word)
    ensures ((w | x) & y) | (w & x) == (w & x) ^ (w & y) ^ (x & y)
  {}

  lemma ChMacroIsCh(w: Word, x: Word, y: Word)
    ensures ChMacro(w, x, y) == Ch(w, x, y)
  {
    ChBits(w, x, y);
  }

  lemma MajMacroIsMaj(w: Word, x: Word, y: Word)
    ensures MajMacro(w, x, y) == Maj(w, x, y)
  {
    MajBits(w, x, y);
  }

  /** The round function as the four macro families write it. */
  function MacroF(t: nat, w: Word, x: Word, y: Word): Word {
    if t < 20 then ChMacro(w, x, y) else if t < 40 then Parity(w, x, y)
    else if t < 60 then MajMacro(w, x, y) else Parity(w, x, y)
  }

  lemma MacroFIsF(t: nat, w: Word, x: Word, y: Word)
    ensures MacroF(t, w, x, y) == F(t, w, x, y)
  {
    hide ChMacro, MajMacro, Ch, Maj, Parity;
    ChMacroIsCh(w, x, y);
    MajMacroIsMaj(w, x, y);
  }

  /** z += f + w + k + ROL32(v, 5) */
  function MacroSum(z: Word, f: Word, w: Word, k: Word, r: Word): Word { z + (f + w + k + r) }

  lemma MacroSumIsSum(z: Word, f: Word, w: Word, k: Word, r: Word)
    ensures MacroSum(z, f, w, k, r) == Sum(r, f, z, k, w)
  {}

  function ChainOf(s: seq<Word>): Chain
    requires |s| == 5
  {
    Chain(s[0], s[1], s[2], s[3], s[4])
  }

  /** The register that plays role k when register v plays role 0. */
  function Role(v: nat, k: nat): (r: nat)
    requires v < 5 && k < 5
    ensures r < 5
  {
    if v + k < 5 then v + k else v + k - 5
  }

  /** The working variables as the standard names them, read through the current roles. */
  function Roles(reg: seq<Word>, v: nat): Chain
    requires |reg| == 5 && v < 5
  {
    Chain(reg[v], reg[Role(v, 1)], reg[Role(v, 2)], reg[Role(v, 3)], reg[Role(v, 4)])
  }

  /** The registers after one macro step: z += sum and w = ROL32(w, 30). */
  function Step(reg: seq<Word>, v: nat, sum: Word): (turned: seq<Word>)
    requires |reg| == 5 && v < 5
    ensures |turned| == 5
  {
    reg[Role(v, 4) := sum][Role(v, 1) := Rotl30(reg[Role(v, 1)])]
  }

  /** One macro step leaves the registers one role further round, holding one standard round. */
  lemma MacroRound(reg: seq<Word>, v: nat, f: Word, k: Word, w: Word)
    requires |reg| == 5 && v < 5
    ensures Roles(Step(reg, v, MacroSum(reg[Role(v, 4)], f, w, k, Rotl5(reg[v]))), Role(v, 4))
         == Round(Roles(reg, v), f, k, w)
  {
    hide Rotl5, Rotl30, Sum, MacroSum;
    MacroSumIsSum(reg[Role(v, 4)], f, w, k, Rotl5(reg[v]));
  }

  /** The schedule buffer after i rounds: the last sixteen schedule words, each at its index modulo
      sixteen, and before round sixteen the raw message words not yet swapped. */
  ghost predicate ScheduleBuffer(l: seq<Word>, block: seq<Byte>, i: nat)
    requires |block| == 64
  {
    && |l| == 16
    && (forall t: nat {:trigger Schedule(block, t)} :: i - 16 <= t < i ==> l[t % 16] == Schedule(block, t))
    && (forall t: nat {:trigger l[t]} :: i <= t < 16 ==>
          l[t] == LittleEndianWord(block[4 * t], block[4 * t + 1], block[4 * t + 2], block[4 * t + 3]))
  }

  /** The word stored in round i, and the word the round adds. */
  function NextWord(l: seq<Word>, i: nat): Word
    requires |l| == 16
  {
    if i < 16 then SwapBytes(l[i])
    else Rotl1(l[(i + 13) % 16] ^ l[(i + 8) % 16] ^ l[(i + 2) % 16] ^ l[i % 16])
  }

  lemma NextWordIsScheduled(l: seq<Word>, block: seq<Byte>, i: nat)
    requires |block| == 64 && ScheduleBuffer(l, block, i)
    ensures NextWord(l, i) == Schedule(block, i)
  {
    hide Rotl1, BigEndianWord, LittleEndianWord, SwapBytes;
    if i < 16 {
      SwapBytesReadsBigEndian(block[4 * i], block[4 * i + 1], block[4 * i + 2], block[4 * i + 3]);
    } else {
      assert l[(i - 3) % 16] == Schedule(block, i - 3) && (i + 13) % 16 == (i - 3) % 16;
      assert l[(i - 8) % 16] == Schedule(block, i - 8) && (i + 8) % 16 == (i - 8) % 16;
      assert l[(i - 14) % 16] == Schedule(block, i - 14) && (i + 2) % 16 == (i - 14) % 16;
      assert l[(i - 16) % 16] == Schedule(block, i - 16) && i % 16 == (i - 16) % 16;
    }
  }

  lemma StoreKeepsSchedule(l: seq<Word>, block: seq<Byte>, i: nat, w: Word)
    requires |block| == 64 && ScheduleBuffer(l, block, i) && w == Schedule(block, i)
    ensures ScheduleBuffer(l[i % 16 := w], block, i + 1)
  {
    hide Schedule, LittleEndianWord;
    forall t: nat | i + 1 - 16 <= t < i + 1
      ensures l[i % 16 := w][t % 16] == Schedule(block, t)
    {
      if t != i { assert t % 16 != i % 16; }
    }
  }

  // ----- The two-word bit counter

  /** The counter words that stand for n bytes: the low and the high word of 8n modulo 2^64. */
  function LowCount(n: nat): UInt32 { n * 8 % WORD_RANGE }
  function HighCount(n: nat): UInt32 { n * 8 / WORD_RANGE % WORD_RANGE }

  /** Bytes waiting in the carry buffer, as (count >> 3) & 0x3F reads them off the low word. */
  lemma BufferedFromCount(n: nat)
    ensures LowCount(n) / 8 % 64 == n % 64
  {
    var q := n * 8 / WORD_RANGE;
    assert LowCount(n) == 8 * (n - q * 0x2000_0000);
    assert (n - q * 0x2000_0000) % 64 == n % 64 by {
      assert n - q * 0x2000_0000 == n - 64 * (q * 0x80_0000);
    }
  }

  /** The counter update: add the low 32 bits of 8 * len, carry on wrap-around, add the high bits. */
  function CountLow(low: UInt32, len: UInt32): UInt32 { Add32(low, len * 8 % WORD_RANGE) }
  function CountHigh(low: UInt32, high: UInt32, len: UInt32): UInt32 {
    var carried := if CountLow(low, len) < len * 8 % WORD_RANGE then Add32(high, 1) else high;
    Add32(carried, len / 0x2000_0000)
  }

  lemma SplitWord(x: nat, q: nat, r: nat)
    requires x == q * WORD_RANGE + r && r < WORD_RANGE
    ensures x / WORD_RANGE == q && x % WORD_RANGE == r
  {}

  lemma WrapOnce(x: nat, y: nat)
    ensures (x % WORD_RANGE + y) % WORD_RANGE == (x + y) % WORD_RANGE
  {
    var q, q' := x / WORD_RANGE, (x % WORD_RANGE + y) / WORD_RANGE;
    SplitWord(x + y, q + q', (x % WORD_RANGE + y) % WORD_RANGE);
  }

  lemma CountTracksLength(n: nat, len: UInt32)
    ensures CountLow(LowCount(n), len) == LowCount(n + len)
    ensures CountHigh(LowCount(n), HighCount(n), len) == HighCount(n + len)
  {
    var q, r := n * 8 / WORD_RANGE, LowCount(n);
    var q', r' := len / 0x2000_0000, len * 8 % WORD_RANGE;
    assert r' == len * 8 - q' * WORD_RANGE;
    var carry := if r + r' < WORD_RANGE then 0 else 1;
    SplitWord((n + len) * 8, q + q' + carry, r + r' - carry * WORD_RANGE);
    SplitWord(r + r', carry, r + r' - carry * WORD_RANGE);
    WrapOnce(q, carry);
    WrapOnce(q + carry, q');
  }

  /** A counter word shifted right by 24, 16, 8 or 0 bits and cut to its low byte. */
  function CountByte(w: UInt32, k: nat): Byte
    requires k < 4
  {
    (w / (if k == 0 then 0x100_0000 else if k == 1 then 0x1_0000 else if k == 2 then 0x100 else 1) % 256) as Byte
  }

  lemma CountedBytes(b: seq<Byte>, high: UInt32, low: UInt32)
    requires |b| == 8
    requires forall t :: 0 <= t < 8 ==> b[t] == CountByte(if t >= 4 then low else high, t % 4)
    ensures b == WordBytes(high) + WordBytes(low)
  {
    FourCountBytes(high);
    FourCountBytes(low);
    hide CountByte, WordBytes;
    var both := WordBytes(high) + WordBytes(low);
    assert b[0] == both[0] && b[1] == both[1] && b[2] == both[2] && b[3] == both[3];
    assert b[4] == both[4] && b[5] == both[5] && b[6] == both[6] && b[7] == both[7];
  }

  lemma FourCountBytes(w: UInt32)
    ensures WordBytes(w) == [CountByte(w, 0), CountByte(w, 1), CountByte(w, 2), CountByte(w, 3)]
  {
  }

  /** The length field, written from the counter words. */
  lemma CountIsLengthField(n: nat)
    ensures WordBytes(HighCount(n)) + WordBytes(LowCount(n)) == LengthField(n)
  {
    hide WordBytes;
    var bits := n * 8 % 0x1_0000_0000_0000_0000;
    var q := n * 8 / 0x1_0000_0000_0000_0000;
    SplitWord(n * 8, q * WORD_RANGE + bits / WORD_RANGE, bits % WORD_RANGE);
    SplitWord(q * WORD_RANGE + bits / WORD_RANGE, q, bits / WORD_RANGE);
  }

  lemma HashOneMoreBlock(m: seq<Byte>, k: nat)
    requires k % 64 == 0 && k + 64 <= |m|
    ensures HashBlocks(m[..k + 64]) == Compress(HashBlocks(m[..k]), m[k..k + 64])
  {
    var longer := m[..k + 64];
    assert longer[..|longer| - 64] == m[..k];
    assert longer[|longer| - 64..] == m[k..k + 64];
  }

  /** The state and buffer that stand for message m when its first k bytes are hashed: whole blocks
      are in the state and the bytes past the last whole block are in the buffer. */
  ghost predicate Carries(h: Chain, buffer: seq<Byte>, m: seq<Byte>, k: nat) {
    && k <= |m| < k + 64 && k % 64 == 0 && |buffer| == 64
    && h == HashBlocks(m[..k])
    && buffer[..|m| - k] == m[k..]
  }

  /** The length of the whole blocks of a message of n bytes. */
  function WholeLength(n: nat): (k: nat)
    ensures k <= n < k + 64 && k % 64 == 0
    ensures n - k == n % 64
  {
    n - n % 64
  }

  lemma WholeLengthUnique(n: nat, k: nat)
    requires k <= n < k + 64 && k % 64 == 0
    ensures k == WholeLength(n)
  {}

  class CSHA1 {
    const m_state: array<Word>
    const m_count: array<UInt32>
    const m_buffer: array<Byte>
    const m_block: array<Word>
    const m_digest: array<Byte>

    /** Every byte hashed since the last Reset. */
    ghost var message: seq<Byte>

    ghost predicate Shape() {
      && m_state.Length == 5 && m_count.Length == 2 && m_buffer.Length == 64
      && m_block.Length == 16 && m_digest.Length == 20
      && m_state != m_block && m_buffer != m_digest
    }

    ghost predicate Valid()
      reads this, m_state, m_count, m_buffer
    {
      && Shape()
      && Carries(ChainOf(m_state[..]), m_buffer[..], message, WholeLength(|message|))
      && m_count[0] == LowCount(|message|) && m_count[1] == HighCount(|message|)
    }

    constructor ()
      ensures Valid() && message == []
      ensures fresh(m_state) && fresh(m_count) && fresh(m_buffer) && fresh(m_block) && fresh(m_digest)
    {
      m_state := new Word[5];
      m_count := new UInt32[2];
      m_buffer := new Byte[64];
      m_block := new Word[16];
      m_digest := new Byte[20];
      new;
      Reset();
    }

    method Reset()
      requires Shape()
      modifies this, m_state, m_count
      ensures Valid() && message == []
    {
      m_state[0], m_state[1], m_state[2] := 0x67452301, 0xEFCDAB89, 0x98BADCFE;
      m_state[3], m_state[4] := 0x10325476, 0xC3D2E1F0;
      m_count[0], m_count[1] := 0, 0;
      message := [];
    }

    method Transform(pState: array<Word>, pBuffer: seq<Byte>)
      requires pState.Length == 5 && m_block.Length == 16 && pState != m_block && |pBuffer| == 64
      modifies pState, m_block
      ensures ChainOf(pState[..]) == Compress(old(ChainOf(pState[..])), pBuffer)
    {
      hide Round, F, K, Schedule, ScheduleBuffer, Plus;
      ghost var h := ChainOf(pState[..]);
      var reg := new Word[5];
      forall k | 0 <= k < 5 { reg[k] := pState[k]; }
      LoadBlock(pBuffer);
      var v := 0;
      for i := 0 to 80
        invariant v < 5 && (v + i) % 5 == 0
        invariant ScheduleBuffer(m_block[..], pBuffer, i)
        invariant Roles(reg[..], v) == Rounds(h, pBuffer, i)
        invariant pState[..] == old(pState[..])
      {
        RunRound(reg, v, i, pBuffer);
        v := Role(v, 4);
      }
      AddBack(pState, reg);
    }

    /** memcpy(m_block, pBuffer, 64) on a little-endian host. */
    method LoadBlock(pBuffer: seq<Byte>)
      requires m_block.Length == 16 && |pBuffer| == 64
      modifies m_block
      ensures ScheduleBuffer(m_block[..], pBuffer, 0)
    {
      hide LittleEndianWord;
      forall t | 0 <= t < 16 {
        m_block[t] := LittleEndianWord(pBuffer[4 * t], pBuffer[4 * t + 1], pBuffer[4 * t + 2], pBuffer[4 * t + 3]);
      }
    }

    /** One of the macros _R0 to _R4, with register v in the first place. */
    method RunRound(reg: array<Word>, v: nat, i: nat, ghost block: seq<Byte>)
      requires reg.Length == 5 && v < 5 && m_block.Length == 16 && reg != m_block && |block| == 64
      requires ScheduleBuffer(m_block[..], block, i)
      modifies reg, m_block
      ensures ScheduleBuffer(m_block[..], block, i + 1)
      ensures
        var s := Roles(old(reg[..]), v);
        Roles(reg[..], Role(v, 4)) == Round(s, F(i, s.b, s.c, s.d), K(i), Schedule(block, i))
    {
      hide MacroF, F, K, Rotl5, Rotl30, MacroSum, NextWord, Schedule;
      ghost var reg0, l0 := reg[..], m_block[..];
      var word := NextWord(m_block[..], i);
      NextWordIsScheduled(l0, block, i);
      StoreKeepsSchedule(l0, block, i, word);
      m_block[i % 16] := word;
      var f := MacroF(i, reg[Role(v, 1)], reg[Role(v, 2)], reg[Role(v, 3)]);
      MacroFIsF(i, reg[Role(v, 1)], reg[Role(v, 2)], reg[Role(v, 3)]);
      MacroRound(reg0, v, f, K(i), word);
      reg[Role(v, 4)] := MacroSum(reg[Role(v, 4)], f, word, K(i), Rotl5(reg[v]));
      reg[Role(v, 1)] := Rotl30(reg[Role(v, 1)]);
      assert reg[..] == Step(reg0, v, MacroSum(reg0[Role(v, 4)], f, word, K(i), Rotl5(reg0[v])));
    }

    method AddBack(pState: array<Word>, reg: array<Word>)
      requires pState.Length == 5 && reg.Length == 5 && pState != reg
      modifies pState
      ensures ChainOf(pState[..]) == Plus(old(ChainOf(pState[..])), ChainOf(reg[..]))
    {
      var h := Plus(ChainOf(pState[..]), ChainOf(reg[..]));
      pState[0], pState[1], pState[2], pState[3], pState[4] := h.a, h.b, h.c, h.d, h.e;
    }

    /** memcpy(&m_buffer[at], data, |data|) */
    method CopyToBuffer(at: nat, data: seq<Byte>)
      requires at + |data| <= m_buffer.Length
      modifies m_buffer
      ensures m_buffer[..at + |data|] == old(m_buffer[..at]) + data
      ensures forall k :: at + |data| <= k < m_buffer.Length ==> m_buffer[k] == old(m_buffer[k])
    {
      forall k | 0 <= k < |data| { m_buffer[at + k] := data[k]; }
    }

    /** The counter part of Update. */
    method AddToCount(uLen: UInt32)
      requires m_count.Length == 2 && m_count[0] == LowCount(|message|) && m_count[1] == HighCount(|message|)
      modifies m_count
      ensures m_count[0] == LowCount(|message| + uLen) && m_count[1] == HighCount(|message| + uLen)
    {
      hide LowCount, HighCount;
      CountTracksLength(|message|, uLen);
      var shifted := uLen * 8 % WORD_RANGE;
      m_count[0] := Add32(m_count[0], shifted);
      if m_count[0] < shifted {
        m_count[1] := Add32(m_count[1], 1);
      }
      m_count[1] := Add32(m_count[1], uLen / 0x2000_0000);
    }

    /** Hashes in more data. The test on j + uLen is made in 32 bits, so the caller must keep that sum
        from wrapping round. */
    method Update(pbData: seq<Byte>)
      requires Valid() && |message| % 64 + |pbData| < WORD_RANGE
      modifies this, m_state, m_count, m_buffer, m_block
      ensures Valid() && message == old(message) + pbData
    {
      hide Carries, LowCount, HighCount, WholeLength;
      BufferedFromCount(|message|);
      var j := m_count[0] / 8 % 64;
      AddToCount(|pbData|);
      ghost var k := Absorb(j, pbData, message);
      message := message + pbData;
      assert k == WholeLength(|message|) by { WholeLengthUnique(|message|, k); }
    }

    /** The part of Update that moves bytes, with j bytes of m waiting in the buffer. */
    method Absorb(j: nat, pbData: seq<Byte>, ghost m: seq<Byte>) returns (ghost k: nat)
      requires Shape() && j + |pbData| < WORD_RANGE && j <= |m|
      requires Carries(ChainOf(m_state[..]), m_buffer[..], m, |m| - j)
      modifies m_state, m_buffer, m_block
      ensures k <= |m| + |pbData| < k + 64 && k % 64 == 0
      ensures Carries(ChainOf(m_state[..]), m_buffer[..], m + pbData, k)
    {
      hide HashBlocks, Compress;
      assert Add32(j, |pbData|) == j + |pbData|;
      ghost var total, base := m + pbData, |m|;
      assert total[..base - j] == m[..base - j];
      k := base - j;
      var i, at := 0, j;
      if Add32(j, |pbData|) > 63 {
        i := CompleteBlock(pbData, j, total, base);
        i := HashWholeBlocks(pbData, i, total, base);
        at := 0;
        k := base + i;
      }
      assert total[base..][i..] == total[k + at..];
      KeepRest(at, pbData[i..], total, k);
    }

    /** The end of Update: the bytes after the last whole block wait in the buffer. */
    method KeepRest(at: nat, rest: seq<Byte>, ghost total: seq<Byte>, ghost k: nat)
      requires Shape() && at + |rest| < 64 && k + at + |rest| == |total| && k % 64 == 0
      requires ChainOf(m_state[..]) == HashBlocks(total[..k])
      requires m_buffer[..at] == total[k..k + at] && total[k + at..] == rest
      modifies m_buffer
      ensures Carries(ChainOf(m_state[..]), m_buffer[..], total, k)
    {
      hide HashBlocks;
      if |rest| != 0 {
        CopyToBuffer(at, rest);
      }
      assert total[k..] == total[k..k + at] + total[k + at..];
    }

    /** The first block of Update: the carried bytes and as many new ones as fill it. */
    method CompleteBlock(pbData: seq<Byte>, j: nat, ghost total: seq<Byte>, ghost base: nat) returns (i: nat)
      requires Shape() && j < 64 <= j + |pbData| && j <= base && (base - j) % 64 == 0
      requires base <= |total| && total[base..] == pbData && m_buffer[..j] == total[base - j..base]
      requires ChainOf(m_state[..]) == HashBlocks(total[..base - j])
      modifies m_state, m_buffer, m_block
      ensures i == 64 - j
      ensures ChainOf(m_state[..]) == HashBlocks(total[..base + i])
    {
      hide HashBlocks, Compress;
      i := 64 - j;
      CopyToBuffer(j, pbData[..i]);
      assert pbData[..i] == total[base..base + i];
      assert total[base - j..base - j + 64] == total[base - j..base] + total[base..base + i];
      assert m_buffer[..] == m_buffer[..j + i];
      assert m_buffer[..] == total[base - j..base - j + 64];
      HashOneMoreBlock(total, base - j);
      Transform(m_state, m_buffer[..]);
    }

    /** The block loop of Update. */
    method HashWholeBlocks(pbData: seq<Byte>, from: nat, ghost total: seq<Byte>, ghost base: nat) returns (i: nat)
      requires Shape() && from <= |pbData| < WORD_RANGE && (base + from) % 64 == 0
      requires base <= |total| && total[base..] == pbData
      requires ChainOf(m_state[..]) == HashBlocks(total[..base + from])
      modifies m_state, m_block
      ensures from <= i <= |pbData| && (base + i) % 64 == 0 && |pbData| - i < 64
      ensures ChainOf(m_state[..]) == HashBlocks(total[..base + i])
    {
      hide HashBlocks, Compress;
      i := from;
      while i + 63 < |pbData|
        invariant from <= i <= |pbData| && (base + i) % 64 == 0
        invariant ChainOf(m_state[..]) == HashBlocks(total[..base + i])
      {
        HashOneMoreBlock(total, base + i);
        assert total[base..][i..i + 64] == total[base + i..base + i + 64];
        Transform(m_state, pbData[i..i + 64]);
        i := i + 64;
      }
    }

    /** Pads, appends the length and leaves the digest of everything hashed since the last Reset; the
        working fields are wiped afterwards. */
    method Final()
      requires Valid()
      modifies this, m_state, m_count, m_buffer, m_block, m_digest
      ensures Shape() && m_digest[..] == Sha1(old(message))
      ensures forall i :: 0 <= i < 5 ==> DigestWord(m_digest[..], i) == WordAt(HashBlocks(Pad(old(message))), i)
      ensures m_count[..] == [0, 0] && m_buffer[..] == Zeros(64)
    {
      hide Carries, LowCount, HighCount, WholeLength, Sha1, Pad, LengthField, DigestWord, WordAt, HashBlocks;
      ghost var m := message;
      var finalcount := CountBytes();
      Update([0x80]);
      PadWithZeros(m);
      ghost var padded := message;
      Update(finalcount);
      assert message == Pad(m) by { PaddedInPieces(m, padded, finalcount, message); }
      StoreDigest(m);
      Wipe();
    }

    /** finalcount, read off the counter most significant byte first: in network order it is the bit
        length of the message. */
    method CountBytes() returns (finalcount: seq<Byte>)
      requires Valid()
      ensures finalcount == LengthField(|message|)
      ensures Number(finalcount) == |message| * 8 % 0x1_0000_0000_0000_0000
    {
      hide LengthField, Carries, Number, CountByte, WordBytes, LowCount, HighCount;
      finalcount := [];
      for i := 0 to 8
        invariant |finalcount| == i
        invariant forall t :: 0 <= t < i ==> finalcount[t] == CountByte(m_count[if t >= 4 then 0 else 1], t % 4)
      {
        finalcount := finalcount + [CountByte(m_count[if i >= 4 then 0 else 1], i % 4)];
      }
      CountedBytes(finalcount, m_count[1], m_count[0]);
      CountIsLengthField(|message|);
      LengthFieldReads(|message|);
    }

    /** The padding loop: (m_count[0] & 504) != 448 reads bits 3 to 8 of the low word. */
    method PadWithZeros(ghost m: seq<Byte>)
      requires Valid() && message == m + [0x80]
      modifies this, m_state, m_count, m_buffer, m_block
      ensures Valid() && message == m + [0x80] + Zeros(ZeroCount(|m|))
    {
      hide Carries, LowCount, HighCount, WholeLength;
      ghost var k := 0;
      BufferedFromCount(|message|);
      while m_count[0] / 8 % 64 * 8 != 448
        invariant Valid() && k <= ZeroCount(|m|) && message == m + [0x80] + Zeros(k)
        invariant m_count[0] / 8 % 64 == |message| % 64
        decreases ZeroCount(|m|) - k
      {
        Update([0]);
        assert Zeros(k) + [0] == Zeros(k + 1);
        k := k + 1;
        BufferedFromCount(|message|);
      }
      ZeroCountIsLeast(|m|, k);
    }

    /** The state words, most significant byte first: read in network order they are the state again. */
    method StoreDigest(ghost m: seq<Byte>)
      requires Valid() && message == Pad(m)
      modifies m_digest
      ensures m_digest[..] == Sha1(m)
      ensures forall i :: 0 <= i < 5 ==> DigestWord(m_digest[..], i) == m_state[i]
    {
      hide HashBlocks, Digest, DigestWord, LowCount, HighCount;
      assert ChainOf(m_state[..]) == HashBlocks(Pad(m)) by { assert message[..|message|] == message; }
      WriteDigest();
    }

    method WriteDigest()
      requires Shape()
      modifies m_digest
      ensures m_digest[..] == Digest(ChainOf(m_state[..]))
      ensures forall i :: 0 <= i < 5 ==> DigestWord(m_digest[..], i) == m_state[i]
    {
      hide ByteAt, DigestWord;
      for i := 0 to 20
        invariant forall t: nat :: t < i ==> m_digest[t] == ByteAt(m_state[t / 4], t % 4)
      {
        m_digest[i] := ByteAt(m_state[i / 4], i % 4);
      }
      DigestReads(ChainOf(m_state[..]));
    }

    method Wipe()
      requires Shape()
      modifies m_state, m_count, m_buffer, m_block
      ensures m_count[..] == [0, 0] && m_buffer[..] == Zeros(64)
    {
      forall k | 0 <= k < 64 { m_buffer[k] := 0; }
      forall k | 0 <= k < 5 { m_state[k] := 0; }
      m_count[0], m_count[1] := 0, 0;
      Transform(m_state, m_buffer[..]);
    }
  }

  lemma PaddedInPieces(m: seq<Byte>, zeroed: seq<Byte>, field: seq<Byte>, whole: seq<Byte>)
    requires zeroed == m + [0x80] + Zeros(ZeroCount(|m|)) && field == LengthField(|m|) && whole == zeroed + field
    ensures whole == Pad(m)
  {
    hide LengthField, ZeroCount;
  }

  function Concat(chunks: seq<seq<Byte>>): seq<Byte> {
    if chunks == [] then [] else Concat(chunks[..|chunks| - 1]) + chunks[|chunks| - 1]
  }

  /** However a message is cut into Update calls, the digest is the standard's digest of the whole. */
  method DigestOfChunks(chunks: seq<seq<Byte>>) returns (digest: seq<Byte>)
    requires forall c :: c in chunks ==> |c| <= WORD_RANGE - 64
    ensures digest == Sha1(Concat(chunks))
    ensures |digest| == 20
    ensures forall i :: 0 <= i < 5 ==> DigestWord(digest, i) == WordAt(HashBlocks(Pad(Concat(chunks))), i)
  {
    hide Sha1, DigestWord, WordAt, HashBlocks, Pad;
    var sha := new CSHA1();
    for i := 0 to |chunks|
      invariant sha.Valid() && sha.message == Concat(chunks[..i])
      invariant fresh(sha) && fresh(sha.m_state) && fresh(sha.m_count) && fresh(sha.m_buffer) && fresh(sha.m_block)
      invariant fresh(sha.m_digest)
    {
      assert chunks[..i + 1][..i] == chunks[..i];
      sha.Update(chunks[i]);
    }
    assert chunks[..|chunks|] == chunks;
    sha.Final();
    digest := sha.m_digest[..];
  }
}
