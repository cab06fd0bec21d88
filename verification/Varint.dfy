// Base 128 varints: the encoder, the decoders with their accumulated
// correction terms, and the size formula.
module Varint {
  import opened Arithmetic
  import opened Bits
  import opened Wrappers

  type byte = b: int | 0 <= b < 256

  const TWO_32: int := 0x1_0000_0000
  const TWO_64: int := 0x1_0000_0000_0000_0000

  // The largest length a length prefix may announce: INT_MAX less the slop
  // of the input stream.
  const MAX_SIZE: int := 0x7fff_ffff - 16

  function Encode(v: nat): (r: seq<byte>)
    ensures |r| >= 1
  {
    if v < 128 then [v] else [v % 128 + 128] + Encode(v / 128)
  }

  // The value of the first varint of b and its length, when it ends within
  // `most` bytes.
  function Decode(b: seq<byte>, most: nat): (r: Option<(nat, nat)>)
    ensures r.Some? ==> 1 <= r.value.1 <= |b| && r.value.1 <= most
    decreases most
  {
    if |b| == 0 || most == 0 then None
    else if b[0] < 128 then Some((b[0], 1))
    else
      var t := Decode(b[1..], most - 1);
      if t.None? then None else Some((b[0] - 128 + 128 * t.value.0, t.value.1 + 1))
  }

  // The three readers of the parser: value and remaining bytes.
  function ReadVarint64(b: seq<byte>): (r: Option<(nat, seq<byte>)>)
    ensures r.Some? ==> r.value.0 < TWO_64 && |r.value.1| < |b|
  {
    var d := Decode(b, 10);
    if d.None? then None else Some((d.value.0 % TWO_64, b[d.value.1..]))
  }

  function ReadTag(b: seq<byte>): (r: Option<(nat, seq<byte>)>)
    ensures r.Some? ==> r.value.0 < TWO_32 && |r.value.1| < |b|
  {
    var d := Decode(b, 5);
    if d.None? then None else Some((d.value.0 % TWO_32, b[d.value.1..]))
  }

  function ReadSize(b: seq<byte>): (r: Option<(nat, seq<byte>)>)
    ensures r.Some? ==> r.value.0 <= MAX_SIZE && |r.value.1| < |b|
  {
    var d := Decode(b, 5);
    if d.None? || d.value.0 > MAX_SIZE then None else Some((d.value.0, b[d.value.1..]))
  }

  function Pow128(n: nat): (r: nat)
    ensures r > 0
  {
    if n == 0 then 1 else 128 * Pow128(n - 1)
  }

  lemma {:induction false} EncodedLength(v: nat, n: nat)
    requires n > 0 && v < Pow128(n)
    ensures |Encode(v)| <= n
    decreases n
  {
    if v >= 128 {
      assert n > 1 && v / 128 < Pow128(n - 1);
      EncodedLength(v / 128, n - 1);
    }
  }

  lemma {:induction false} EncodedLengthAbove(v: nat, n: nat)
    requires v >= Pow128(n)
    ensures |Encode(v)| > n
    decreases n
  {
    if n > 0 {
      EncodedLengthAbove(v / 128, n - 1);
    }
  }

  lemma Lengths(v: nat)
    ensures v < TWO_32 ==> |Encode(v)| <= 5
    ensures v < TWO_64 ==> |Encode(v)| <= 10
  {
    assert Pow128(5) == 0x8_0000_0000 by { assert Pow128(3) == 0x20_0000; }
    assert Pow128(10) == 0x40_0000_0000_0000_0000 by {
      assert Pow128(7) == 0x2_0000_0000_0000;
      assert Pow128(9) == 128 * 128 * Pow128(7);
    }
    if v < TWO_32 {
      EncodedLength(v, 5);
    }
    if v < TWO_64 {
      EncodedLength(v, 10);
    }
  }

  // Seven bits a byte, the low ones first, and a continuation bit on every
  // byte but the last, which is not zero if there are others.
  lemma {:induction false} EncodedDigits(v: nat, i: nat)
    requires i < |Encode(v)|
    ensures Encode(v)[i] == v / Pow128(i) % 128 + if i < |Encode(v)| - 1 then 128 else 0
    ensures i > 0 && i == |Encode(v)| - 1 ==> Encode(v)[i] > 0
    ensures i == |Encode(v)| - 1 ==> v / Pow128(i) < 128
    decreases v
  {
    if v >= 128 {
      if i > 0 {
        EncodedDigits(v / 128, i - 1);
        DivideTwice(v, Pow128(i - 1));
      }
    }
  }

  lemma DivideTwice(v: nat, m: nat)
    requires m > 0
    ensures v / 128 / m == v / (128 * m)
  {
    var q, r := v / 128 / m, v / 128 % m;
    assert v / 128 == q * m + r;
    assert v == q * (128 * m) + (128 * r + v % 128);
    QuotientUnique(v, 128 * m, q, 128 * r + v % 128);
  }

  lemma QuotientUnique(x: int, m: int, q: int, r: int)
    requires m > 0 && x == q * m + r && 0 <= r < m
    ensures x / m == q
  {
    var q', r' := x / m, x % m;
    assert x == q' * m + r';
    assert (q - q') * m == r' - r;
    SmallMultiple(q - q', m);
  }

  // 300 is 1010 1100 0000 0010.
  lemma EncodedExample()
    ensures Encode(300) == [172, 2] && Encode(1) == [1] && Encode(127) == [127] && Encode(128) == [128, 1]
  {
    assert Encode(2) == [2];
  }

  // Continuation bytes without end: five make no tag or size, ten no varint,
  // whatever follows; one fewer is enough for either.
  lemma TooManyBytes(rest: seq<byte>)
    ensures var five := [128, 128, 128, 128, 128];
            && ReadTag(five + rest).None? && ReadSize(five + rest).None?
            && ReadTag(five[..4] + [0] + rest) == Some((0, rest)) && ReadSize(five[..4] + [0] + rest) == Some((0, rest))
            && ReadVarint64(five + five + rest).None?
            && ReadVarint64(five + five[..4] + [0] + rest) == Some((0, rest))
  {
    hide Decode;
    var five: seq<byte> := [128, 128, 128, 128, 128];
    Continued(five, [], rest, 5);
    Continued(five[..4], [0], rest, 5);
    Continued(five + five, [], rest, 10);
    Continued(five + five[..4], [0], rest, 10);
    assert five + five + [] == five + five && five + [] == five;
  }

  // Bytes 128, and perhaps a 0 behind them.
  lemma {:induction false} Continued(more: seq<byte>, last: seq<byte>, rest: seq<byte>, most: nat)
    requires forall i :: 0 <= i < |more| ==> more[i] == 128
    requires (last == [] && |more| == most) || (last == [0] && |more| < most)
    ensures last == [] ==> Decode(more + last + rest, most).None?
    ensures last == [0] ==> Decode(more + last + rest, most) == Some((0, |more| + 1))
    ensures (more + last + rest)[|more| + |last|..] == rest
  {
    var b := more + last + rest;
    if |more| == 0 {
      assert b == last + rest;
    } else {
      assert b[1..] == more[1..] + last + rest;
      Continued(more[1..], last, rest, most - 1);
    }
  }

  // The greatest size a prefix may announce, and the next one.
  lemma SizeLimit(rest: seq<byte>)
    ensures ReadSize([239, 255, 255, 255, 7] + rest) == Some((0x7fff_ffef, rest))
    ensures ReadSize([240, 255, 255, 255, 7] + rest) == None
  {
    hide ReadSize;
    FiveDigits(239, 7);
    FiveDigits(240, 7);
    ReadEncoded(0x7fff_ffef, rest);
    OverlongSize(0x7fff_fff0, rest);
  }

  lemma FiveDigits(low: nat, high: nat)
    requires 128 <= low < 256 && 0 < high < 128
    ensures Encode(low - 128 + 128 * (127 + 128 * (127 + 128 * (127 + 128 * high)))) == [low, 255, 255, 255, high]
  {
    var v4 := high;
    var v3 := 127 + 128 * v4;
    var v2 := 127 + 128 * v3;
    var v1 := 127 + 128 * v2;
    assert Encode(v4) == [high];
    OneMoreDigit(127, v4);
    OneMoreDigit(127, v3);
    OneMoreDigit(127, v2);
    OneMoreDigit(low - 128, v1);
  }

  lemma OneMoreDigit(digit: nat, v: nat)
    requires digit < 128 && v > 0
    ensures Encode(digit + 128 * v) == [digit + 128] + Encode(v)
  {
  }

  // Decoding undoes encoding, whatever follows.
  lemma {:induction false} DecodeEncode(v: nat, rest: seq<byte>, most: nat)
    requires |Encode(v)| <= most
    ensures Decode(Encode(v) + rest, most) == Some((v, |Encode(v)|))
    decreases v
  {
    if v >= 128 {
      DecodeEncode(v / 128, rest, most - 1);
      assert (Encode(v) + rest)[1..] == Encode(v / 128) + rest;
    }
  }

  lemma ReadEncoded(v: nat, rest: seq<byte>)
    ensures v < TWO_64 ==> ReadVarint64(Encode(v) + rest) == Some((v, rest))
    ensures v < TWO_32 ==> ReadTag(Encode(v) + rest) == Some((v, rest))
    ensures v <= MAX_SIZE ==> ReadSize(Encode(v) + rest) == Some((v, rest))
  {
    hide Decode, Encode;
    Lengths(v);
    var b := Encode(v) + rest;
    assert b[|Encode(v)|..] == rest;
    if v < TWO_64 {
      DecodeEncode(v, rest, 10);
      assert v % TWO_64 == v;
    }
    if v < TWO_32 {
      DecodeEncode(v, rest, 5);
      assert v % TWO_32 == v;
    }
  }

  lemma {:induction false} DecodeTooLong(v: nat, rest: seq<byte>, most: nat)
    requires |Encode(v)| > most
    ensures Decode(Encode(v) + rest, most).None?
    decreases v
  {
    if v >= 128 && most > 0 {
      DecodeTooLong(v / 128, rest, most - 1);
      assert (Encode(v) + rest)[1..] == Encode(v / 128) + rest;
    }
  }

  // A length beyond the limit is refused however it is written.
  lemma OverlongSize(v: nat, rest: seq<byte>)
    requires v > MAX_SIZE
    ensures ReadSize(Encode(v) + rest).None?
  {
    hide Decode, Encode;
    if |Encode(v)| <= 5 {
      DecodeEncode(v, rest, 5);
    } else {
      DecodeTooLong(v, rest, 5);
    }
  }

  // A varint is read from its own bytes only.
  lemma {:induction false} DecodeLocal(b: seq<byte>, y: seq<byte>, most: nat)
    requires Decode(b, most).Some?
    ensures Decode(b + y, most) == Decode(b, most)
    decreases most
  {
    assert (b + y)[0] == b[0];
    if b[0] >= 128 {
      assert (b + y)[1..] == b[1..] + y;
      DecodeLocal(b[1..], y, most - 1);
    }
  }

  lemma ReadersLocal(b: seq<byte>, y: seq<byte>)
    ensures ReadVarint64(b).Some? ==> ReadVarint64(b + y) == Some((ReadVarint64(b).value.0, ReadVarint64(b).value.1 + y))
    ensures ReadTag(b).Some? ==> ReadTag(b + y) == Some((ReadTag(b).value.0, ReadTag(b).value.1 + y))
    ensures ReadSize(b).Some? ==> ReadSize(b + y) == Some((ReadSize(b).value.0, ReadSize(b).value.1 + y))
  {
    if Decode(b, 10).Some? {
      DecodeLocal(b, y, 10);
      assert (b + y)[Decode(b, 10).value.1..] == b[Decode(b, 10).value.1..] + y;
    }
    if Decode(b, 5).Some? {
      DecodeLocal(b, y, 5);
      assert (b + y)[Decode(b, 5).value.1..] == b[Decode(b, 5).value.1..] + y;
    }
  }

  // ---------- sizes ----------

  // VarintSize32 and VarintSize64: value | 1 is the value made odd, and the
  // division by 7 is done by a multiplication and a shift.
  function VarintSize(value: nat): nat {
    (Log2Floor(if value % 2 == 0 then value + 1 else value) * 9 + 73) / 64
  }

  lemma LogOfSevenHalves(v: nat)
    requires v >= 128
    ensures Log2Floor(v) == Log2Floor(v / 128) + 7
  {
    assert Log2Floor(v) == 1 + Log2Floor(v / 2);
    assert v / 2 / 2 == v / 4 && Log2Floor(v / 2) == 1 + Log2Floor(v / 4);
    assert v / 4 / 2 == v / 8 && Log2Floor(v / 4) == 1 + Log2Floor(v / 8);
    assert v / 8 / 2 == v / 16 && Log2Floor(v / 8) == 1 + Log2Floor(v / 16);
    assert v / 16 / 2 == v / 32 && Log2Floor(v / 16) == 1 + Log2Floor(v / 32);
    assert v / 32 / 2 == v / 64 && Log2Floor(v / 32) == 1 + Log2Floor(v / 64);
    assert v / 64 / 2 == v / 128 && Log2Floor(v / 64) == 1 + Log2Floor(v / 128);
  }

  lemma {:induction false} LogBySevens(v: nat)
    requires v > 0
    ensures |Encode(v)| == Log2Floor(v) / 7 + 1
    decreases v
  {
    if v < 128 {
      assert Pow2(7) == 128 by { assert Pow2(4) == 16; }
      SmallLog(v, 7);
    } else {
      LogOfSevenHalves(v);
      LogBySevens(v / 128);
    }
  }

  lemma LogOfOdd(v: nat)
    requires v > 0 && v % 2 == 0
    ensures Log2Floor(v + 1) == Log2Floor(v)
  {
    assert (v + 1) / 2 == v / 2;
  }

  // The size formula gives exactly the encoded length of every 64-bit value.
  lemma VarintSizeIsExact(v: nat)
    requires v < TWO_64
    ensures VarintSize(v) == |Encode(v)|
  {
    Lengths(v);
    if v > 0 {
      if v % 2 == 0 {
        LogOfOdd(v);
      }
      LogBySevens(v);
      MultiplyAndShift(Log2Floor(v));
    }
  }

  lemma MultiplyAndShift(l: nat)
    requires l < 70
    ensures (l * 9 + 73) / 64 == l / 7 + 1
  {
  }
}
