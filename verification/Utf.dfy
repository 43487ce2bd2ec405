/** UTF-16 strings and their UTF-8 encoding; a surrogate without its partner is encoded as U+FFFD. */
module Utf {
  import opened ByteOrder
  import opened Wrappers

  type Unit = x: int | 0 <= x < 0x1_0000

  predicate High(u: Unit) { 0xD800 <= u < 0xDC00 }
  predicate Low(u: Unit) { 0xDC00 <= u < 0xE000 }

  /** The bytes of one code point; surrogates are not code points. */
  function Encode(c: int): (bytes: seq<Byte>)
    requires 0 <= c < 0x11_0000
    ensures 1 <= |bytes| <= 4
  {
    if c < 0x80 then [c]
    else if c < 0x800 then [0xC0 + c / 64, 0x80 + c % 64]
    else if c < 0x1_0000 then [0xE0 + c / 64 / 64, 0x80 + c / 64 % 64, 0x80 + c % 64]
    else [0xF0 + c / 64 / 64 / 64, 0x80 + c / 64 / 64 % 64, 0x80 + c / 64 % 64, 0x80 + c % 64]
  }

  function Pair(high: Unit, low: Unit): int
    requires High(high) && Low(low)
  {
    0x1_0000 + (high - 0xD800) * 0x400 + (low - 0xDC00)
  }

  function Utf8(s: seq<Unit>): seq<Byte> {
    if s == [] then []
    else if High(s[0]) && |s| > 1 && Low(s[1]) then Encode(Pair(s[0], s[1])) + Utf8(s[2..])
    else Encode(if High(s[0]) || Low(s[0]) then 0xFFFD else s[0]) + Utf8(s[1..])
  }

  // ----- Decoding

  datatype Decoded = Invalid | Decoded(code: int, rest: seq<Byte>)

  predicate Tail(b: Byte) { 0x80 <= b < 0xC0 }

  function More(high: int, b: int): int { high * 64 + (b - 0x80) }

  /** The first code point of a well-formed encoding; anything else is invalid here. */
  function DecodeOne(b: seq<Byte>): (d: Decoded)
    requires b != []
    ensures d.Decoded? ==> 0 <= d.code < 0x20_0000 && |d.rest| < |b|
  {
    if b[0] < 0x80 then Decoded(b[0], b[1..])
    else if 0xC0 <= b[0] < 0xE0 && |b| >= 2 && Tail(b[1]) then
      Decoded(More(b[0] - 0xC0, b[1]), b[2..])
    else if 0xE0 <= b[0] < 0xF0 && |b| >= 3 && Tail(b[1]) && Tail(b[2]) then
      Decoded(More(More(b[0] - 0xE0, b[1]), b[2]), b[3..])
    else if 0xF0 <= b[0] < 0xF8 && |b| >= 4 && Tail(b[1]) && Tail(b[2]) && Tail(b[3]) then
      Decoded(More(More(More(b[0] - 0xF0, b[1]), b[2]), b[3]), b[4..])
    else Invalid
  }

  function Units(c: int): seq<Unit>
    requires 0 <= c < 0x11_0000
  {
    if c < 0x1_0000 then [c] else [0xD800 + (c - 0x1_0000) / 0x400, 0xDC00 + (c - 0x1_0000) % 0x400]
  }

  function Decode(b: seq<Byte>): Option<seq<Unit>> {
    if b == [] then Some([])
    else
      var d := DecodeOne(b);
      if d.Invalid? || d.code >= 0x11_0000 then None
      else
        var rest := Decode(d.rest);
        if rest.None? then None else Some(Units(d.code) + rest.value)
  }

  /** The string with U+FFFD for every surrogate that has no partner. */
  function Repaired(s: seq<Unit>): seq<Unit> {
    if s == [] then []
    else if High(s[0]) && |s| > 1 && Low(s[1]) then [s[0], s[1]] + Repaired(s[2..])
    else [if High(s[0]) || Low(s[0]) then 0xFFFD else s[0]] + Repaired(s[1..])
  }

  lemma SplitDigits(c: nat)
    ensures c == c / 64 * 64 + c % 64
  {
  }

  lemma DecodeEncode(c: int, rest: seq<Byte>)
    requires 0 <= c < 0x11_0000
    ensures DecodeOne(Encode(c) + rest) == Decoded(c, rest)
  {
    SplitDigits(c);
    SplitDigits(c / 64);
    SplitDigits(c / 64 / 64);
    var b := Encode(c) + rest;
    assert b[|Encode(c)|..] == rest;
  }

  lemma PairUnits(high: Unit, low: Unit)
    requires High(high) && Low(low)
    ensures 0x1_0000 <= Pair(high, low) < 0x11_0000 && Units(Pair(high, low)) == [high, low]
  {
  }

  lemma DecodeStep(c: int, rest: seq<Byte>, s: seq<Unit>)
    requires 0 <= c < 0x11_0000 && Decode(rest) == Some(s)
    ensures Decode(Encode(c) + rest) == Some(Units(c) + s)
  {
    hide DecodeOne, Encode, Units;
    DecodeEncode(c, rest);
  }

  /** Decoding an encoded string gives the string back, its lone surrogates replaced. */
  lemma {:induction false} DecodeUtf8(s: seq<Unit>)
    ensures Decode(Utf8(s)) == Some(Repaired(s))
  {
    hide Decode, Encode;
    if s == [] {
      DecodeNothing();
    } else if High(s[0]) && |s| > 1 && Low(s[1]) {
      DecodeUtf8(s[2..]);
      PairUnits(s[0], s[1]);
      DecodeStep(Pair(s[0], s[1]), Utf8(s[2..]), Repaired(s[2..]));
    } else {
      DecodeUtf8(s[1..]);
      var c := if High(s[0]) || Low(s[0]) then 0xFFFD else s[0];
      DecodeStep(c, Utf8(s[1..]), Repaired(s[1..]));
    }
  }

  lemma DecodeNothing()
    ensures Decode([]) == Some([])
  {
  }

  /** Unit i is a surrogate without its partner. */
  predicate Lone(s: seq<Unit>, i: nat)
    requires i < |s|
  {
    || (High(s[i]) && (i + 1 == |s| || !Low(s[i + 1])))
    || (Low(s[i]) && (i == 0 || !High(s[i - 1])))
  }

  /** A string survives encoding and decoding if and only if all its surrogates are paired. */
  lemma {:induction false} SurvivesIff(s: seq<Unit>)
    ensures Repaired(s) == s <==> forall i :: 0 <= i < |s| ==> !Lone(s, i)
  {
    if s == [] {
    } else if High(s[0]) && |s| > 1 && Low(s[1]) {
      SurvivesIff(s[2..]);
      assert s == [s[0], s[1]] + s[2..];
      forall i | 2 <= i < |s|
        ensures Lone(s, i) == Lone(s[2..], i - 2)
      {
        assert s[2..][i - 2] == s[i];
      }
      assert !Lone(s, 0) && !Lone(s, 1);
      assert forall i :: 0 <= i < |s[2..]| ==> Lone(s[2..], i) == Lone(s, i + 2);
    } else if High(s[0]) || Low(s[0]) {
      assert Lone(s, 0);
      assert Repaired(s)[0] == 0xFFFD;
    } else {
      SurvivesIff(s[1..]);
      assert s == [s[0]] + s[1..];
      forall i | 1 <= i < |s|
        ensures Lone(s, i) == Lone(s[1..], i - 1)
      {
        assert s[1..][i - 1] == s[i];
      }
      assert !Lone(s, 0);
      assert forall i :: 0 <= i < |s[1..]| ==> Lone(s[1..], i) == Lone(s, i + 1);
    }
  }

  /** A high surrogate alone comes back as U+FFFD. */
  lemma LoneSurrogateLost()
    ensures Lone([0xD800], 0) && Decode(Utf8([0xD800])) == Some([0xFFFD])
  {
    DecodeUtf8([0xD800]);
    assert [0xFFFD] + Repaired([]) == [0xFFFD];
    assert [0xD800][1..] == [];
  }

  // ----- Limiting

  /** The longest beginning whose encoding fits, counted in code units. */
  function Limited(s: seq<Unit>, max: nat): seq<Unit> { s[..LimitFrom(s, |s|, max)] }

  function LimitFrom(s: seq<Unit>, n: nat, max: nat): (k: nat)
    requires n <= |s|
    ensures k <= n
  {
    if n == 0 || |Utf8(s[..n])| <= max then n else LimitFrom(s, n - 1, max)
  }

  lemma NothingEncoded(s: seq<Unit>)
    ensures Utf8(s[..0]) == []
  {
  }

  lemma {:induction false} LimitFromIsLongest(s: seq<Unit>, n: nat, max: nat)
    requires n <= |s|
    ensures |Utf8(s[..LimitFrom(s, n, max)])| <= max
    ensures forall m :: LimitFrom(s, n, max) < m <= n ==> |Utf8(s[..m])| > max
  {
    hide Utf8;
    if n == 0 {
      NothingEncoded(s);
    } else if |Utf8(s[..n])| > max {
      LimitFromIsLongest(s, n - 1, max);
    }
  }

  /** LimitByteLength2: the loop runs down from the whole string. */
  method LimitByteLength(input: seq<Unit>, maxLength: nat) returns (r: seq<Unit>)
    ensures r <= input && |Utf8(r)| <= maxLength
    ensures forall n :: |r| < n <= |input| ==> |Utf8(input[..n])| > maxLength
    ensures r == Limited(input, maxLength)
  {
    hide Utf8;
    LimitFromIsLongest(input, |input|, maxLength);
    var i := |input| - 1;
    while i >= 0
      invariant -1 <= i < |input|
      invariant LimitFrom(input, i + 1, maxLength) == LimitFrom(input, |input|, maxLength)
    {
      if |Utf8(input[..i + 1])| <= maxLength {
        return input[..i + 1];
      }
      i := i - 1;
    }
    return [];
  }
}
