/** 32-bit values as four bytes, as a little-endian host stores them and as the network orders them. */
module ByteOrder {
  type Byte = x: int | 0 <= x < 256
  type Word = x: int | 0 <= x < 0x1_0000_0000

  /** The four bytes of a value, least significant first. */
  function Digit(n: Word, i: nat): Byte
    requires i < 4
  {
    match i
    case 0 => n % 256
    case 1 => n / 256 % 256
    case 2 => n / 256 / 256 % 256
    case 3 => n / 256 / 256 / 256
  }

  function Value(a: Byte, b: Byte, c: Byte, d: Byte): Word {
    var high: int := c + 256 * (d as int);
    var middle: int := b + 256 * high;
    a + 256 * middle
  }

  function Le(n: Word): (bytes: seq<Byte>)
    ensures |bytes| == 4
  {
    [Digit(n, 0), Digit(n, 1), Digit(n, 2), Digit(n, 3)]
  }

  function FromLe(b: seq<Byte>): Word
    requires |b| == 4
  {
    Value(b[0], b[1], b[2], b[3])
  }

  function Be(n: Word): (bytes: seq<Byte>)
    ensures |bytes| == 4
  {
    [Digit(n, 3), Digit(n, 2), Digit(n, 1), Digit(n, 0)]
  }

  function FromBe(b: seq<Byte>): Word
    requires |b| == 4
  {
    Value(b[3], b[2], b[1], b[0])
  }

  /** htonl and ntohl on a little-endian host. */
  function Swap(n: Word): Word { Value(Digit(n, 3), Digit(n, 2), Digit(n, 1), Digit(n, 0)) }

  lemma ValueOfDigits(n: Word)
    ensures Value(Digit(n, 0), Digit(n, 1), Digit(n, 2), Digit(n, 3)) == n
  {
    var high := n / 256 / 256;
    assert high == high % 256 + 256 * (high / 256);
    assert n / 256 == n / 256 % 256 + 256 * high;
  }

  lemma Unstack(a: Byte, rest: nat)
    ensures (a + 256 * rest) % 256 == a && (a + 256 * rest) / 256 == rest
  {
  }

  lemma DigitsOfValue(a: Byte, b: Byte, c: Byte, d: Byte)
    ensures
      var n := Value(a, b, c, d);
      Digit(n, 0) == a && Digit(n, 1) == b && Digit(n, 2) == c && Digit(n, 3) == d
  {
    var high: int := c + 256 * (d as int);
    var middle: int := b + 256 * high;
    Unstack(a, middle);
    Unstack(b, high);
    Unstack(c, d);
  }

  lemma BeRoundTrip(n: Word)
    ensures FromBe(Be(n)) == n
  {
    ValueOfDigits(n);
  }

  /** The bytes of a swapped value are the value in network order. */
  lemma SwapIsNetworkOrder(n: Word)
    ensures Le(Swap(n)) == Be(n)
  {
    DigitsOfValue(Digit(n, 3), Digit(n, 2), Digit(n, 1), Digit(n, 0));
  }

  /** Swapping what a little-endian host read gives the value in network order. */
  lemma SwapReadsNetworkOrder(b: seq<Byte>)
    requires |b| == 4
    ensures Swap(FromLe(b)) == FromBe(b)
  {
    DigitsOfValue(b[0], b[1], b[2], b[3]);
  }
}
