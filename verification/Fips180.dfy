/** SHA-1 as FIPS 180-4 defines it: sections 4.1.1 (functions), 4.2.1 (constants), 5.1.1 (padding),
    5.3.1 (initial value) and 6.1.2 (computation with an eighty-word schedule). */
module Fips180 {
  type Byte = bv8
  type Word = bv32

  /** The five working variables, or the five words of a hash value. */
  datatype Chain = Chain(a: Word, b: Word, c: Word, d: Word, e: Word)

  const INITIAL := Chain(0x67452301, 0xEFCDAB89, 0x98BADCFE, 0x10325476, 0xC3D2E1F0)

  /** In memory order on a little-endian host the initial words count up and down in hexadecimal digits. */
  lemma InitialCounts()
    ensures INITIAL.a == BigEndianWord(0x67, 0x45, 0x23, 0x01) && INITIAL.b == BigEndianWord(0xEF, 0xCD, 0xAB, 0x89)
    ensures INITIAL.c == BigEndianWord(0x98, 0xBA, 0xDC, 0xFE) && INITIAL.d == BigEndianWord(0x10, 0x32, 0x54, 0x76)
    ensures INITIAL.e == BigEndianWord(0xC3, 0xD2, 0xE1, 0xF0)
  {
  }

  function Rotl1(x: Word): Word { (x << 1) | (x >> 31) }
  function Rotl5(x: Word): Word { (x << 5) | (x >> 27) }
  function Rotl30(x: Word): Word { (x << 30) | (x >> 2) }

  /** A rotation to the right by one undoes one to the left. */
  lemma RotateOne(x: Word)
    ensures (Rotl1(x) >> 1) | (Rotl1(x) << 31) == x
  {
  }

  /** The other rotations are so many of that one. */
  lemma RotationsAreRepeated(x: Word)
    ensures Rotl5(x) == Rotl1(Rotl1(Rotl1(Rotl1(Rotl1(x))))) && Rotl1(Rotl1(Rotl30(x))) == x
  {
  }

  function Ch(x: Word, y: Word, z: Word): Word { (x & y) ^ (!x & z) }
  function Parity(x: Word, y: Word, z: Word): Word { x ^ y ^ z }
  function Maj(x: Word, y: Word, z: Word): Word { (x & y) ^ (x & z) ^ (y & z) }

  function F(t: nat, x: Word, y: Word, z: Word): Word {
    if t < 20 then Ch(x, y, z) else if t < 40 then Parity(x, y, z)
    else if t < 60 then Maj(x, y, z) else Parity(x, y, z)
  }

  function K(t: nat): Word {
    if t < 20 then 0x5A827999 else if t < 40 then 0x6ED9EBA1
    else if t < 60 then 0x8F1BBCDC else 0xCA62C1D6
  }

  /** The number under the root in the t-th constant. */
  function Radicand(t: nat): nat { if t < 20 then 2 else if t < 40 then 3 else if t < 60 then 5 else 10 }

  /** Each constant is the integer part of 2^30 times the square root of 2, 3, 5 or 10. */
  lemma KIsRoot(t: nat)
    ensures
      var k, square := K(t) as nat, Radicand(t) * 0x1000_0000_0000_0000;
      k * k <= square < (k + 1) * (k + 1)
  {
  }

  function BigEndianWord(b0: Byte, b1: Byte, b2: Byte, b3: Byte): Word {
    ((b0 as Word) << 24) | ((b1 as Word) << 16) | ((b2 as Word) << 8) | (b3 as Word)
  }

  /** The eighty-word message schedule W of section 6.1.2, step 1. */
  function Schedule(block: seq<Byte>, t: nat): Word
    requires |block| == 64
  {
    if t < 16 then BigEndianWord(block[4 * t], block[4 * t + 1], block[4 * t + 2], block[4 * t + 3])
    else Rotl1(Schedule(block, t - 3) ^ Schedule(block, t - 8) ^ Schedule(block, t - 14) ^ Schedule(block, t - 16))
  }

  /** One pass of section 6.1.2, step 3. */
  function Round(s: Chain, f: Word, k: Word, w: Word): Chain {
    Chain(Sum(Rotl5(s.a), f, s.e, k, w), s.a, Rotl30(s.b), s.c, s.d)
  }

  function Sum(a: Word, f: Word, e: Word, k: Word, w: Word): Word { a + f + e + k + w }

  /** The working variables after the first t passes. */
  function Rounds(h: Chain, block: seq<Byte>, t: nat): Chain
    requires |block| == 64
  {
    if t == 0 then h
    else
      var s := Rounds(h, block, t - 1);
      Round(s, F(t - 1, s.b, s.c, s.d), K(t - 1), Schedule(block, t - 1))
  }

  function Compress(h: Chain, block: seq<Byte>): Chain
    requires |block| == 64
  {
    Plus(h, Rounds(h, block, 80))
  }

  function Plus(h: Chain, s: Chain): Chain {
    Chain(h.a + s.a, h.b + s.b, h.c + s.c, h.d + s.d, h.e + s.e)
  }

  function HashBlocks(m: seq<Byte>): Chain
    requires |m| % 64 == 0
  {
    if m == [] then INITIAL
    else Compress(HashBlocks(m[..|m| - 64]), m[|m| - 64..])
  }

  /** The number of zero bytes between the 0x80 byte and the length field. */
  function ZeroCount(n: nat): (k: nat)
    ensures k < 64 && (n + 1 + k) % 64 == 56
  {
    (119 - n % 64) % 64
  }

  /** ZeroCount is the least count that section 5.1.1 allows. */
  lemma ZeroCountIsLeast(n: nat, j: nat)
    requires (n + 1 + j) % 64 == 56
    ensures ZeroCount(n) <= j
  {
    if j < ZeroCount(n) {
      assert false;
    }
  }

  function Zeros(k: nat): seq<Byte> { seq(k, _ => 0) }

  /** The bit length as eight bytes, most significant first. The standard defines it for lengths
      below 2^64 bits; beyond that the field holds the length modulo 2^64. */
  function LengthField(n: nat): (f: seq<Byte>)
    ensures |f| == 8
  {
    var bits := n * 8 % 0x1_0000_0000_0000_0000;
    WordBytes(bits / 0x1_0000_0000) + WordBytes(bits % 0x1_0000_0000)
  }

  /** The four bytes of a 32-bit number, most significant first. */
  function WordBytes(w: nat): (f: seq<Byte>)
    requires w < 0x1_0000_0000
    ensures |f| == 4
  {
    [(w / 0x100_0000 % 256) as Byte, (w / 0x1_0000 % 256) as Byte, (w / 0x100 % 256) as Byte, (w % 256) as Byte]
  }

  /** The number that bytes stand for, most significant first. */
  function Number(bytes: seq<Byte>): nat {
    if bytes == [] then 0 else Number(bytes[..|bytes| - 1]) * 256 + bytes[|bytes| - 1] as nat
  }

  lemma NumberAppend(a: seq<Byte>, b: Byte)
    ensures Number(a + [b]) == Number(a) * 256 + b as nat
  {
    assert (a + [b])[..|a|] == a;
  }

  lemma NumberOfFour(a: seq<Byte>, b: seq<Byte>)
    requires |b| == 4
    ensures Number(a + b) == (((Number(a) * 256 + b[0] as nat) * 256 + b[1] as nat) * 256 + b[2] as nat) * 256
                             + b[3] as nat
  {
    hide Number;
    NumberAppend(a, b[0]);
    NumberAppend(a + [b[0]], b[1]);
    NumberAppend(a + [b[0]] + [b[1]], b[2]);
    NumberAppend(a + [b[0]] + [b[1]] + [b[2]], b[3]);
    assert a + b == a + [b[0]] + [b[1]] + [b[2]] + [b[3]];
  }

  /** Split by magnitude, so that each case fixes the leading bits. */
  lemma ByteNumber(n: nat)
    requires n < 256
    ensures n as Byte as nat == n
  {
    if n < 16 {
    } else if n < 32 {
    } else if n < 64 {
    } else if n < 96 {
    } else if n < 128 {
    } else if n < 160 {
    } else if n < 192 {
    } else if n < 224 {
    } else {
    }
  }

  lemma WordDigits(w: nat)
    requires w < 0x1_0000_0000
    ensures w == ((w / 0x100_0000 % 256 * 256 + w / 0x1_0000 % 256) * 256 + w / 0x100 % 256) * 256 + w % 256
  {
    assert w / 0x100_0000 == w / 0x1_0000 / 256 && w / 0x1_0000 == w / 0x100 / 256;
  }

  lemma WordBytesAt(w: nat)
    requires w < 0x1_0000_0000
    ensures
      var b := WordBytes(w);
      && b[0] as nat == w / 0x100_0000 % 256 && b[1] as nat == w / 0x1_0000 % 256
      && b[2] as nat == w / 0x100 % 256 && b[3] as nat == w % 256
  {
    ByteNumber(w / 0x100_0000 % 256);
    ByteNumber(w / 0x1_0000 % 256);
    ByteNumber(w / 0x100 % 256);
    ByteNumber(w % 256);
  }

  lemma WordBytesAppended(a: seq<Byte>, w: nat)
    requires w < 0x1_0000_0000
    ensures Number(a + WordBytes(w)) == Number(a) * 0x1_0000_0000 + w
  {
    hide Number, WordBytes;
    NumberOfFour(a, WordBytes(w));
    WordBytesAt(w);
    WordDigits(w);
  }

  /** The length field is the bit length in network order. */
  lemma LengthFieldReads(n: nat)
    ensures Number(LengthField(n)) == n * 8 % 0x1_0000_0000_0000_0000
  {
    hide WordBytes;
    var bits := n * 8 % 0x1_0000_0000_0000_0000;
    WordBytesAppended([], bits / 0x1_0000_0000);
    WordBytesAppended(WordBytes(bits / 0x1_0000_0000), bits % 0x1_0000_0000);
    assert [] + WordBytes(bits / 0x1_0000_0000) == WordBytes(bits / 0x1_0000_0000);
  }

  function Pad(m: seq<Byte>): (p: seq<Byte>)
    ensures |p| % 64 == 0
  {
    TailFillsBlocks(|m|);
    m + Tail(|m|)
  }

  /** What padding appends to a message of n bytes. */
  function Tail(n: nat): (p: seq<Byte>)
    ensures |p| == 1 + ZeroCount(n) + 8
  {
    [0x80] + Zeros(ZeroCount(n)) + LengthField(n)
  }

  lemma TailFillsBlocks(n: nat)
    ensures (n + |Tail(n)|) % 64 == 0
  {
    hide Tail, ZeroCount;
    var x := n + 1 + ZeroCount(n);
    assert x + 8 == (x / 64 + 1) * 64;
  }

  /** The k-th byte of a word, most significant first. */
  function ByteAt(w: Word, k: nat): Byte {
    if k == 0 then ((w >> 24) & 0xFF) as Byte else if k == 1 then ((w >> 16) & 0xFF) as Byte
    else if k == 2 then ((w >> 8) & 0xFF) as Byte else (w & 0xFF) as Byte
  }

  /** The four bytes of a word, read in network order, are the word. */
  lemma BytesOfWord(w: Word)
    ensures BigEndianWord(ByteAt(w, 0), ByteAt(w, 1), ByteAt(w, 2), ByteAt(w, 3)) == w
  {
  }

  function WordAt(h: Chain, i: nat): Word {
    if i == 0 then h.a else if i == 1 then h.b else if i == 2 then h.c else if i == 3 then h.d else h.e
  }

  lemma DigestReads(h: Chain)
    ensures forall i :: 0 <= i < 5 ==> DigestWord(Digest(h), i) == WordAt(h, i)
  {
    hide Digest, DigestWord, WordAt;
    forall i | 0 <= i < 5
      ensures DigestWord(Digest(h), i) == WordAt(h, i)
    {
      DigestReadsAt(h, i);
    }
  }

  lemma DigestReadsAt(h: Chain, i: nat)
    requires i < 5
    ensures DigestWord(Digest(h), i) == WordAt(h, i)
  {
    hide ByteAt, BigEndianWord, WordAt;
    BytesOfWord(WordAt(h, i));
    assert (4 * i) / 4 == i && (4 * i + 1) / 4 == i && (4 * i + 2) / 4 == i && (4 * i + 3) / 4 == i;
    assert (4 * i) % 4 == 0 && (4 * i + 1) % 4 == 1 && (4 * i + 2) % 4 == 2 && (4 * i + 3) % 4 == 3;
  }

  /** The 160-bit digest of a message; its five words in network order are those of the chain. */
  function Sha1(m: seq<Byte>): (digest: seq<Byte>)
    ensures |digest| == 20 && forall i :: 0 <= i < 5 ==> DigestWord(digest, i) == WordAt(HashBlocks(Pad(m)), i)
  {
    DigestReads(HashBlocks(Pad(m)));
    Digest(HashBlocks(Pad(m)))
  }

  /** The i-th word of a digest, in network order. */
  function DigestWord(digest: seq<Byte>, i: nat): Word
    requires |digest| == 20 && i < 5
  {
    BigEndianWord(digest[4 * i], digest[4 * i + 1], digest[4 * i + 2], digest[4 * i + 3])
  }

  function Digest(h: Chain): (digest: seq<Byte>)
    ensures |digest| == 20
  {
    seq(20, (i: nat) => ByteAt(WordAt(h, i / 4), i % 4))
  }
}
