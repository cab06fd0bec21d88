// The varint reading and writing loops as they run, each against its
// specification in module Varint.
module VarintLoops {
  import opened Arithmetic
  import opened Wrappers
  import opened Varint

  // x shifted left by i groups of seven bits.
  function Shifted(x: int, i: nat): (r: int)
    ensures x >= 0 ==> r >= 0
  {
    Pow128(i) * x
  }

  // groups is the value of the first i bytes of b, all of which announce a
  // further byte; the rest of b completes it.
  ghost predicate Accumulated(b: seq<byte>, most: nat, i: nat, groups: nat) {
    && i <= |b| && i <= most
    && var d := Decode(b[i..], most - i);
       Decode(b, most) == if d.None? then None else Some((groups + Shifted(d.value.0, i), d.value.1 + i))
  }

  // Unsigned arithmetic over m values.
  function Wrap(x: int, m: int): (r: nat)
    requires m > 0
    ensures r < m
  {
    x % m
  }

  lemma WrapAbsorbs(x: int, y: int, m: int)
    requires m > 0
    ensures Wrap(Wrap(x, m) + y, m) == Wrap(x + y, m)
    ensures 0 <= x < m ==> Wrap(x, m) == x
  {
    var z := x % m + y;
    assert x == (x / m) * m + x % m;
    assert z == (z / m) * m + z % m;
    assert x + y == (x / m + z / m) * m + z % m;
    ModUnique(x + y, m, x / m + z / m, z % m);
    if 0 <= x < m {
      ModUnique(x, m, 0, x);
    }
  }

  lemma ShiftedSums(x: int, i: nat, v: int)
    ensures Shifted(1, i) + Shifted(x - 1, i) == Shifted(x, i)
    ensures Shifted(x - 128, i) + Shifted(1, i + 1) == Shifted(x, i)
    ensures Shifted(x - 128 + 128 * v, i) == Shifted(x - 128, i) + Shifted(v, i + 1)
  {
    var p := Pow128(i);
    assert Pow128(i + 1) == 128 * p;
    assert p * (x - 1) == p * x - p;
    assert p * (x - 128) == p * x - 128 * p;
    assert p * (x - 128 + 128 * v) == p * (x - 128) + (128 * p) * v;
  }

  // One more byte: it either completes the value or joins the groups. The
  // running sum carries the continuation bit of the last byte, which the next
  // step's "- 1" removes.
  lemma AccumulateStep(b: seq<byte>, most: nat, i: nat, groups: nat)
    requires Accumulated(b, most, i, groups) && i < |b| && i < most
    ensures b[i] < 128 ==> Decode(b, most) == Some((groups + Shifted(b[i], i), i + 1))
    ensures b[i] >= 128 ==>
              && Accumulated(b, most, i + 1, groups + Shifted(b[i] as int - 128, i))
              && groups + Shifted(b[i] as int - 128, i) + Shifted(1, i + 1) == groups + Shifted(b[i], i)
    ensures groups + Shifted(1, i) + Shifted(b[i] as int - 1, i) == groups + Shifted(b[i], i)
  {
    hide Shifted, Decode;
    DecodeFrom(b, most - i, i);
    ShiftedSums(b[i], i, 0);
    if b[i] >= 128 {
      AccumulateMore(b, most, i, groups);
    }
  }

  lemma AccumulateMore(b: seq<byte>, most: nat, i: nat, groups: nat)
    requires Accumulated(b, most, i, groups) && i < |b| && i < most && b[i] >= 128
    ensures Accumulated(b, most, i + 1, groups + Shifted(b[i] as int - 128, i))
  {
    hide Shifted, Decode;
    DecodeFrom(b, most - i, i);
    var t := Decode(b[i + 1..], most - i - 1);
    if t.Some? {
      ShiftedSums(b[i], i, t.value.0);
    }
  }

  lemma DecodeFrom(b: seq<byte>, most: nat, i: nat)
    requires i < |b| && most > 0
    ensures b[i] < 128 ==> Decode(b[i..], most) == Some((b[i], 1))
    ensures b[i] >= 128 ==>
              var t := Decode(b[i + 1..], most - 1);
              Decode(b[i..], most) == if t.None? then None else Some((b[i] as int - 128 + 128 * t.value.0, t.value.1 + 1))
  {
    assert b[i..][0] == b[i] && b[i..][1..] == b[i + 1..];
  }

  lemma AccumulateEnd(b: seq<byte>, most: nat, i: nat, groups: nat)
    requires Accumulated(b, most, i, groups) && (i == |b| || i == most)
    ensures Decode(b, most).None?
  {
  }

  // The common loop of VarintParseSlow64, ReadTagFallback and ReadSizeFallback
  // from the second byte on, over m-bit arithmetic.
  method ParseSlow(b: seq<byte>, most: nat, m: nat, first: byte) returns (r: Option<(nat, nat)>)
    requires |b| > 0 && b[0] == first && first >= 128
    requires 1 <= most && m > 256
    ensures r == if Decode(b, most).None? then None
                 else Some((Wrap(Decode(b, most).value.0, m), Decode(b, most).value.1))
  {
    hide Decode, Pow128, Shifted, Accumulated, Wrap;
    WrapAbsorbs(first, 0, m);
    var res: nat := first;
    var i := 1;
    ghost var groups: nat := first - 128;
    AccumulateStart(b, most);
    while i < most
      invariant 1 <= i <= most && i <= |b|
      invariant Accumulated(b, most, i, groups)
      invariant res == Wrap(groups + Shifted(1, i), m)
    {
      if i == |b| {
        AccumulateEnd(b, most, i, groups);
        return None;
      }
      AccumulateStep(b, most, i, groups);
      WrapAbsorbs(groups + Shifted(1, i), Shifted(b[i] as int - 1, i), m);
      res := Wrap(res + Shifted(b[i] as int - 1, i), m);
      if b[i] < 128 {
        return Some((res, i + 1));
      }
      groups := groups + Shifted(b[i] as int - 128, i);
      i := i + 1;
    }
    AccumulateEnd(b, most, i, groups);
    return None;
  }

  lemma AccumulateStart(b: seq<byte>, most: nat)
    requires |b| > 0 && b[0] >= 128 && most > 0
    ensures Accumulated(b, most, 1, b[0] - 128)
    ensures b[0] - 128 + Shifted(1, 1) == b[0]
  {
    assert Pow128(1) == 128;
  }

  lemma FirstByte(b: seq<byte>)
    ensures |b| == 0 ==> Decode(b, 5).None? && Decode(b, 10).None?
    ensures |b| > 0 && b[0] < 128 ==> Decode(b, 5) == Some((b[0], 1)) && Decode(b, 10) == Some((b[0], 1))
  {
  }

  // VarintParse: at most ten bytes, reduced to 64 bits.
  method VarintParse(b: seq<byte>, p: nat) returns (r: Option<(nat, nat)>)
    requires p <= |b|
    ensures r.None? <==> ReadVarint64(b[p..]).None?
    ensures r.Some? ==> p < r.value.1 <= |b| && ReadVarint64(b[p..]) == Some((r.value.0, b[r.value.1..]))
  {
    hide Decode;
    FirstByte(b[p..]);
    if p == |b| {
      return None;
    }
    if b[p] < 128 {
      assert b[p..][1..] == b[p + 1..];
      return Some((b[p], p + 1));
    }
    var t := ParseSlow(b[p..], 10, TWO_64, b[p]);
    if t.None? {
      return None;
    }
    assert b[p..][t.value.1..] == b[p + t.value.1..];
    return Some((t.value.0, p + t.value.1));
  }

  // ReadTag: at most five bytes, reduced to 32 bits.
  method TagParse(b: seq<byte>, p: nat) returns (r: Option<(nat, nat)>)
    requires p <= |b|
    ensures r.None? <==> ReadTag(b[p..]).None?
    ensures r.Some? ==> p < r.value.1 <= |b| && ReadTag(b[p..]) == Some((r.value.0, b[r.value.1..]))
  {
    hide Decode;
    FirstByte(b[p..]);
    if p == |b| {
      return None;
    }
    if b[p] < 128 {
      assert b[p..][1..] == b[p + 1..];
      return Some((b[p], p + 1));
    }
    var t := ParseSlow(b[p..], 5, TWO_32, b[p]);
    if t.None? {
      return None;
    }
    assert b[p..][t.value.1..] == b[p + t.value.1..];
    return Some((t.value.0, p + t.value.1));
  }

  // ReadSizeFallback: up to four bytes as they are; a fifth byte must be below
  // 8 and the value must stay clear of INT_MAX.
  method SizeFallback(c: seq<byte>) returns (r: Option<(nat, nat)>)
    requires |c| > 0 && c[0] >= 128
    ensures r == if Decode(c, 5).None? || Decode(c, 5).value.0 > MAX_SIZE then None else Decode(c, 5)
  {
    hide Decode, Accumulated, Pow128;
    SmallPowers();
    var res: nat := c[0];
    var i := 1;
    ghost var groups: nat := c[0] - 128;
    AccumulateStart(c, 5);
    while i < 4
      invariant 1 <= i <= 4 && i <= |c|
      invariant Accumulated(c, 5, i, groups)
      invariant res == groups + Shifted(1, i)
      invariant groups < Pow128(i)
    {
      if i == |c| {
        AccumulateEnd(c, 5, i, groups);
        return None;
      }
      AccumulateStep(c, 5, i, groups);
      res := res + Shifted(c[i] as int - 1, i);
      if c[i] < 128 {
        SmallSize(groups, i, c[i]);
        return Some((res, i + 1));
      }
      GroupsStaySmall(groups, i, c[i]);
      groups := groups + Shifted(c[i] as int - 128, i);
      i := i + 1;
    }
    if 4 == |c| {
      AccumulateEnd(c, 5, 4, groups);
      return None;
    }
    AccumulateStep(c, 5, 4, groups);
    if c[4] >= 8 {
      if c[4] >= 128 {
        AccumulateEnd(c, 5, 5, groups + Shifted(c[4] as int - 128, 4));
      }
      return None;
    }
    res := res + Shifted(c[4] as int - 1, 4);
    if res > MAX_SIZE {
      return None;
    }
    return Some((res, 5));
  }

  lemma SmallPowers()
    ensures Pow128(1) == 128 && Pow128(2) == 0x4000 && Pow128(3) == 0x20_0000 && Pow128(4) == 0x1000_0000
  {
    assert Pow128(2) == 128 * Pow128(1);
    assert Pow128(3) == 128 * Pow128(2);
    assert Pow128(4) == 128 * Pow128(3);
  }

  method SizeParse(b: seq<byte>, p: nat) returns (r: Option<(nat, nat)>)
    requires p <= |b|
    ensures r.None? <==> ReadSize(b[p..]).None?
    ensures r.Some? ==> p < r.value.1 <= |b| && ReadSize(b[p..]) == Some((r.value.0, b[r.value.1..]))
  {
    hide Decode;
    FirstByte(b[p..]);
    if p == |b| {
      return None;
    }
    if b[p] < 128 {
      assert b[p..][1..] == b[p + 1..];
      return Some((b[p], p + 1));
    }
    var t := SizeFallback(b[p..]);
    if t.None? {
      return None;
    }
    assert b[p..][t.value.1..] == b[p + t.value.1..];
    return Some((t.value.0, p + t.value.1));
  }

  lemma SmallSize(groups: nat, i: nat, byte: nat)
    requires 1 <= i <= 3 && groups < Pow128(i) && byte < 128
    ensures groups + Shifted(byte, i) < 0x1000_0000
  {
    assert Pow128(1) == 128 && Pow128(2) == 0x4000 && Pow128(3) == 0x20_0000;
  }

  lemma GroupsStaySmall(groups: nat, i: nat, byte: nat)
    requires groups < Pow128(i) && 128 <= byte < 256
    ensures groups + Shifted(byte - 128, i) < Pow128(i + 1)
  {
    assert Pow128(i) * (byte - 128) <= Pow128(i) * 127;
  }

  function LowByte(v: nat): byte {
    v % 256
  }

  function WithTopBit(b: byte): byte {
    if b < 128 then b + 128 else b
  }

  function Head(v: nat): byte {
    v % 128 + 128
  }

  lemma EncodeHead(v: nat)
    ensures v < 128 ==> Encode(v) == [LowByte(v)]
    ensures v >= 128 ==> Encode(v) == [Head(v)] + Encode(v / 128) && WithTopBit(LowByte(v)) == Head(v)
  {
  }

  // t with the bytes s written over it from position ptr on.
  function Splice(t: seq<byte>, ptr: nat, s: seq<byte>): (r: seq<byte>)
    requires ptr + |s| <= |t|
    ensures |r| == |t|
  {
    t[..ptr] + s + t[ptr + |s|..]
  }

  lemma SpliceTwice(t: seq<byte>, ptr: nat, a: seq<byte>, b: seq<byte>)
    requires ptr + |a + b| <= |t|
    ensures Splice(Splice(t, ptr, a), ptr + |a|, b) == Splice(t, ptr, a + b)
  {
  }

  lemma SpliceNothing(t: seq<byte>, ptr: nat)
    requires ptr <= |t|
    ensures Splice(t, ptr, []) == t
  {
  }

  lemma SpliceMiddle(t: seq<byte>, ptr: nat, s: seq<byte>)
    requires ptr + |s| <= |t|
    ensures Splice(t, ptr, s)[ptr..ptr + |s|] == s
  {
  }

  lemma SpliceFromParts(t: seq<byte>, r: seq<byte>, ptr: nat, end: nat, s: seq<byte>)
    requires ptr <= end <= |t| == |r|
    requires r[..ptr] == t[..ptr] && r[ptr..end] == s && r[end..] == t[end..]
    ensures end == ptr + |s| && r == Splice(t, ptr, s)
  {
    assert r == r[..ptr] + r[ptr..end] + r[end..];
  }

  // Copy bytes into the output array.
  method WriteRaw(s: seq<byte>, target: array<byte>, ptr: nat) returns (end: nat)
    requires ptr + |s| <= target.Length
    modifies target
    ensures end == ptr + |s| && target[..] == Splice(old(target[..]), ptr, s)
  {
    var i := 0;
    while i < |s|
      invariant i <= |s|
      invariant forall k :: 0 <= k < i ==> target[ptr + k] == s[k]
      invariant forall k :: 0 <= k < target.Length && !(ptr <= k < ptr + i) ==> target[k] == old(target[k])
    {
      target[ptr + i] := s[i];
      i := i + 1;
    }
    end := ptr + |s|;
    SpliceFromParts(old(target[..]), target[..], ptr, end, s);
  }

  // UnsafeVarint: each byte is written before it is known whether another one
  // follows; if so its top bit is set afterwards.
  method UnsafeVarint(value: nat, target: array<byte>, ptr: nat) returns (end: nat)
    requires ptr + |Encode(value)| <= target.Length
    modifies target
    ensures end == ptr + |Encode(value)|
    ensures target[..] == Splice(old(target[..]), ptr, Encode(value))
  {
    hide Encode, LowByte, WithTopBit, Head, Splice;
    var v := value;
    end := ptr;
    target[end] := LowByte(v);
    while v >= 128
      invariant ptr <= end && end + |Encode(v)| == ptr + |Encode(value)|
      invariant Encode(value) == target[ptr..end] + Encode(v)
      invariant target[end] == LowByte(v)
      invariant target[..ptr] == old(target[..ptr])
      invariant target[end + 1..] == old(target[end + 1..])
      decreases v
    {
      EncodeHead(v);
      target[end] := WithTopBit(target[end]);
      assert target[ptr..end] + Encode(v) == target[ptr..end + 1] + Encode(v / 128);
      v := v / 128;
      end := end + 1;
      target[end] := LowByte(v);
    }
    EncodeHead(v);
    end := end + 1;
    SpliceFromParts(old(target[..]), target[..], ptr, end, Encode(value));
  }
}
