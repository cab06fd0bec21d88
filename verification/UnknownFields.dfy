// Fields a message does not know: kept as read, in order, and written back.
module UnknownFields {
  import opened Wrappers
  import opened Varint

  // A fixed-width value is held as its bytes.
  datatype UnknownField =
    | VarintField(number: nat, value: nat)
    | Fixed64Field(number: nat, bytes8: seq<byte>)
    | LengthDelimited(number: nat, data: seq<byte>)
    | Group(number: nat, fields: seq<UnknownField>)
    | Fixed32Field(number: nat, bytes4: seq<byte>)

  function WireType(f: UnknownField): nat {
    match f
    case VarintField(_, _) => 0
    case Fixed64Field(_, _) => 1
    case LengthDelimited(_, _) => 2
    case Group(_, _) => 3
    case Fixed32Field(_, _) => 5
  }

  function MakeTag(number: nat, wireType: nat): nat {
    number * 8 + wireType
  }

  function TagOf(f: UnknownField): nat {
    MakeTag(f.number, WireType(f))
  }

  // A length prefix and that many bytes.
  function ReadBytes(b: seq<byte>): (r: Option<(seq<byte>, seq<byte>)>)
    ensures r.Some? ==> |r.value.1| < |b|
  {
    var s := ReadSize(b);
    if s.None? || s.value.0 > |s.value.1| then None
    else Some((s.value.1[..s.value.0], s.value.1[s.value.0..]))
  }

  // The field that follows a tag, and what remains after it. End-group tags
  // are the caller's.
  function ParseField(tag: nat, b: seq<byte>): (r: Option<(UnknownField, seq<byte>)>)
    ensures r.Some? ==> |r.value.1| <= |b|
    decreases |b|, 1
  {
    var number := tag / 8;
    if number == 0 then None
    else match tag % 8
      case 0 =>
        var v := ReadVarint64(b);
        if v.None? then None else Some((VarintField(number, v.value.0), v.value.1))
      case 1 => if |b| < 8 then None else Some((Fixed64Field(number, b[..8]), b[8..]))
      case 2 =>
        var s := ReadBytes(b);
        if s.None? then None else Some((LengthDelimited(number, s.value.0), s.value.1))
      case 3 =>
        var g := ParseGroup(number, b);
        if g.None? then None else Some((Group(number, g.value.0), g.value.1))
      case 5 => if |b| < 4 then None else Some((Fixed32Field(number, b[..4]), b[4..]))
      case _ => None
  }

  // Fields up to the end-group tag of the given number. Any other ending, a
  // zero tag, a foreign end-group tag or the end of the input, is a failure.
  function ParseGroup(number: nat, b: seq<byte>): (r: Option<(seq<UnknownField>, seq<byte>)>)
    ensures r.Some? ==> |r.value.1| <= |b|
    decreases |b|, 0
  {
    var t := ReadTag(b);
    if t.None? then None
    else if t.value.0 == 0 || t.value.0 % 8 == 4 then
      if t.value.0 == MakeTag(number, 4) then Some(([], t.value.1)) else None
    else
      var f := ParseField(t.value.0, t.value.1);
      if f.None? then None
      else
        var g := ParseGroup(number, f.value.1);
        if g.None? then None else Some(([f.value.0] + g.value.0, g.value.1))
  }

  function Payload(f: UnknownField): seq<byte>
    decreases f, 1
  {
    match f
    case VarintField(_, v) => Encode(v)
    case Fixed64Field(_, s) => s
    case LengthDelimited(_, s) => Encode(|s|) + s
    case Group(n, fs) => SerializeAll(fs) + Encode(MakeTag(n, 4))
    case Fixed32Field(_, s) => s
  }

  function SerializeAll(fs: seq<UnknownField>): seq<byte>
    decreases fs, 0
  {
    if |fs| == 0 then [] else Encode(TagOf(fs[0])) + Payload(fs[0]) + SerializeAll(fs[1..])
  }

  // What the parser can produce and the wire can carry.
  predicate Storable(f: UnknownField)
    decreases f, 1
  {
    && 0 < f.number < 0x2000_0000
    && match f
       case VarintField(_, v) => v < TWO_64
       case Fixed64Field(_, s) => |s| == 8
       case LengthDelimited(_, s) => |s| <= MAX_SIZE
       case Group(_, fs) => AllStorable(fs)
       case Fixed32Field(_, s) => |s| == 4
  }

  predicate AllStorable(fs: seq<UnknownField>)
    decreases fs, 0
  {
    |fs| > 0 ==> Storable(fs[0]) && AllStorable(fs[1..])
  }

  lemma ReadBytesBack(s: seq<byte>, rest: seq<byte>)
    requires |s| <= MAX_SIZE
    ensures ReadBytes(Encode(|s|) + s + rest) == Some((s, rest))
  {
    hide Encode, ReadSize;
    ReadEncoded(|s|, s + rest);
    assert Encode(|s|) + s + rest == Encode(|s|) + (s + rest);
    assert (s + rest)[..|s|] == s && (s + rest)[|s|..] == rest;
  }

  // Parsing undoes writing for every storable field, groups within groups
  // included.
  lemma {:induction false} FieldRoundTrip(f: UnknownField, rest: seq<byte>)
    requires Storable(f)
    ensures ParseField(TagOf(f), Payload(f) + rest) == Some((f, rest))
    decreases f, 1
  {
    assert TagOf(f) / 8 == f.number && TagOf(f) % 8 == WireType(f);
    match f {
      case VarintField(_, v) => ReadEncoded(v, rest);
      case Fixed64Field(_, s) => assert (s + rest)[..8] == s && (s + rest)[8..] == rest;
      case LengthDelimited(_, s) => ReadBytesBack(s, rest);
      case Group(n, fs) =>
        GroupRoundTrip(n, fs, rest);
      case Fixed32Field(_, s) => assert (s + rest)[..4] == s && (s + rest)[4..] == rest;
    }
  }

  lemma TagRange(f: UnknownField)
    requires Storable(f)
    ensures 0 < TagOf(f) < TWO_32 && TagOf(f) % 8 == WireType(f)
  {
  }

  lemma Regroup(e: seq<byte>, p: seq<byte>, s: seq<byte>, c: seq<byte>, rest: seq<byte>)
    ensures e + p + s + c + rest == e + (p + (s + c + rest))
  {
  }

  lemma EndTagRange(n: nat)
    requires 0 < n < 0x2000_0000
    ensures MakeTag(n, 4) < TWO_32 && MakeTag(n, 4) % 8 == 4
  {
  }

  lemma GroupEnd(n: nat, rest: seq<byte>)
    requires 0 < n < 0x2000_0000
    ensures ParseGroup(n, Encode(MakeTag(n, 4)) + rest) == Some(([], rest))
  {
    EndTagRange(n);
    hide Encode, ReadTag, ParseField, MakeTag;
    ReadEncoded(MakeTag(n, 4), rest);
    assert ReadTag(Encode(MakeTag(n, 4)) + rest) == Some((MakeTag(n, 4), rest));
  }

  lemma {:induction false} GroupNext(n: nat, f: UnknownField, tail: seq<byte>)
    requires Storable(f)
    ensures ParseGroup(n, Encode(TagOf(f)) + (Payload(f) + tail))
         == if ParseGroup(n, tail).None? then None
            else Some(([f] + ParseGroup(n, tail).value.0, ParseGroup(n, tail).value.1))
    decreases f, 2
  {
    hide Encode, ReadTag, Payload, ParseField, Storable;
    assert 0 < TagOf(f) < TWO_32 && TagOf(f) % 8 != 4 by { TagRange(f); }
    ReadEncoded(TagOf(f), Payload(f) + tail);
    FieldRoundTrip(f, tail);
  }

  lemma {:induction false} GroupRoundTrip(n: nat, fs: seq<UnknownField>, rest: seq<byte>)
    requires 0 < n < 0x2000_0000 && AllStorable(fs)
    ensures ParseGroup(n, SerializeAll(fs) + Encode(MakeTag(n, 4)) + rest) == Some((fs, rest))
    decreases fs, 3
  {
    hide Encode, Payload, ParseGroup;
    if |fs| == 0 {
      GroupEnd(n, rest);
      assert SerializeAll(fs) + Encode(MakeTag(n, 4)) == Encode(MakeTag(n, 4));
    } else {
      var e, p, s, c := Encode(TagOf(fs[0])), Payload(fs[0]), SerializeAll(fs[1..]), Encode(MakeTag(n, 4));
      Regroup(e, p, s, c, rest);
      GroupNext(n, fs[0], s + c + rest);
      GroupRoundTrip(n, fs[1..], rest);
      assert [fs[0]] + fs[1..] == fs;
    }
  }

  // ---------- reading looks only at its own bytes ----------

  lemma ReadBytesLocal(b: seq<byte>, y: seq<byte>)
    requires ReadBytes(b).Some?
    ensures ReadBytes(b + y) == Some((ReadBytes(b).value.0, ReadBytes(b).value.1 + y))
  {
    ReadersLocal(b, y);
    hide ReadSize;
    var s := ReadSize(b).value;
    assert (s.1 + y)[..s.0] == s.1[..s.0] && (s.1 + y)[s.0..] == s.1[s.0..] + y;
  }

  lemma {:induction false} ParseFieldLocal(tag: nat, b: seq<byte>, y: seq<byte>)
    requires ParseField(tag, b).Some?
    ensures ParseField(tag, b + y) == Some((ParseField(tag, b).value.0, ParseField(tag, b).value.1 + y))
    decreases |b|, 1
  {
    match tag % 8 {
      case 0 => ReadersLocal(b, y);
      case 1 => assert (b + y)[..8] == b[..8] && (b + y)[8..] == b[8..] + y;
      case 2 => ReadBytesLocal(b, y);
      case 3 => ParseGroupLocal(tag / 8, b, y);
      case 5 => assert (b + y)[..4] == b[..4] && (b + y)[4..] == b[4..] + y;
      case _ =>
    }
  }

  lemma {:induction false} ParseGroupLocal(number: nat, b: seq<byte>, y: seq<byte>)
    requires ParseGroup(number, b).Some?
    ensures ParseGroup(number, b + y) == Some((ParseGroup(number, b).value.0, ParseGroup(number, b).value.1 + y))
    decreases |b|, 0
  {
    ReadersLocal(b, y);
    var t := ReadTag(b).value;
    if t.0 != 0 && t.0 % 8 != 4 {
      ParseFieldLocal(t.0, t.1, y);
      ParseGroupLocal(number, ParseField(t.0, t.1).value.1, y);
    }
  }

  // ---------- what is read is storable ----------

  lemma {:induction false} ParsedIsStorable(tag: nat, b: seq<byte>)
    requires tag < TWO_32 && ParseField(tag, b).Some?
    ensures Storable(ParseField(tag, b).value.0)
    ensures TagOf(ParseField(tag, b).value.0) == tag
    decreases |b|, 1
  {
    if tag % 8 == 3 {
      ParsedGroupIsStorable(tag / 8, b);
    }
  }

  lemma {:induction false} ParsedGroupIsStorable(number: nat, b: seq<byte>)
    requires ParseGroup(number, b).Some?
    ensures AllStorable(ParseGroup(number, b).value.0)
    decreases |b|, 0
  {
    var t := ReadTag(b).value;
    if t.0 != 0 && t.0 % 8 != 4 {
      ParsedIsStorable(t.0, t.1);
      var f := ParseField(t.0, t.1).value;
      ParsedGroupIsStorable(number, f.1);
      var fs := ParseGroup(number, b).value.0;
      assert fs[0] == f.0 && fs[1..] == ParseGroup(number, f.1).value.0;
    }
  }

  lemma {:induction false} StorableConcat(a: seq<UnknownField>, b: seq<UnknownField>)
    ensures AllStorable(a + b) <==> AllStorable(a) && AllStorable(b)
    decreases |a|
  {
    if |a| == 0 {
      assert a + b == b;
    } else {
      assert (a + b)[0] == a[0] && (a + b)[1..] == a[1..] + b;
      StorableConcat(a[1..], b);
    }
  }

  lemma {:induction false} SerializeConcat(a: seq<UnknownField>, b: seq<UnknownField>)
    ensures SerializeAll(a + b) == SerializeAll(a) + SerializeAll(b)
    decreases |a|
  {
    hide Payload, Encode, TagOf;
    if |a| == 0 {
      assert a + b == b;
    } else {
      assert (a + b)[0] == a[0] && (a + b)[1..] == a[1..] + b;
      SerializeConcat(a[1..], b);
    }
  }

  lemma SerializeOne(f: UnknownField)
    ensures SerializeAll([f]) == Encode(TagOf(f)) + Payload(f)
  {
    assert SerializeAll([f][1..]) == [];
  }

  lemma NoFields()
    ensures SerializeAll([]) == [] && AllStorable([])
  {
  }

  lemma AllOfOne(f: UnknownField)
    ensures AllStorable([f]) <==> Storable(f)
  {
    assert AllStorable([f][1..]);
  }

  // Field numbers go up from field to field.
  predicate Increasing(fs: seq<UnknownField>) {
    forall i, j :: 0 <= i < j < |fs| ==> fs[i].number < fs[j].number
  }

  // A group does not end with another one's end tag, nor with a zero tag or
  // the end of the input.
  lemma ForeignEnd(number: nat, k: nat, rest: seq<byte>)
    requires k < 0x2000_0000 && k != number
    ensures ParseGroup(number, Encode(MakeTag(k, 4)) + rest).None?
    ensures ParseGroup(number, Encode(0) + rest).None?
    ensures ParseGroup(number, []).None?
  {
    hide Encode, ParseGroup, ReadTag;
    ReadEncoded(MakeTag(k, 4), rest);
    ReadEncoded(0, rest);
    EndTag(k);
    OtherEnd(number, MakeTag(k, 4), Encode(MakeTag(k, 4)) + rest, rest);
    OtherEnd(number, 0, Encode(0) + rest, rest);
    NoEnd(number);
  }

  lemma EndTag(k: nat)
    ensures MakeTag(k, 4) % 8 == 4
    ensures k < 0x2000_0000 ==> MakeTag(k, 4) < TWO_32
  {
  }

  lemma OtherEnd(number: nat, tag: nat, b: seq<byte>, rest: seq<byte>)
    requires ReadTag(b) == Some((tag, rest)) && (tag == 0 || tag % 8 == 4) && tag != MakeTag(number, 4)
    ensures ParseGroup(number, b).None?
  {
    hide ReadTag, ParseField;
  }

  lemma NoEnd(number: nat)
    ensures ParseGroup(number, []).None?
  {
  }

  // One field of each kind, byte by byte: the tag is the field's number times
  // eight plus 0, 1, 2, 3 or 5, and a group ends with its number and 4.
  lemma BytesOfEachKind(eight: seq<byte>, four: seq<byte>)
    requires |eight| == 8 && |four| == 4
    ensures SerializeAll([VarintField(1, 5)]) == [8, 5]
    ensures SerializeAll([Fixed64Field(2, eight)]) == [17] + eight
    ensures SerializeAll([LengthDelimited(3, [7, 9])]) == [26, 2, 7, 9]
    ensures SerializeAll([Group(4, [VarintField(1, 5)])]) == [35, 8, 5, 36]
    ensures SerializeAll([Fixed32Field(5, four)]) == [45] + four
  {
    hide SerializeAll;
    SerializeOne(VarintField(1, 5));
    SerializeOne(Fixed64Field(2, eight));
    SerializeOne(LengthDelimited(3, [7, 9]));
    SerializeOne(Group(4, [VarintField(1, 5)]));
    SerializeOne(Fixed32Field(5, four));
  }

  // ---------- sizes ----------

  function FieldSize(f: UnknownField): nat
    decreases f, 1
  {
    match f
    case VarintField(n, v) => VarintSize(MakeTag(n, 0)) + VarintSize(v)
    case Fixed64Field(n, _) => VarintSize(MakeTag(n, 1)) + 8
    case LengthDelimited(n, s) => VarintSize(MakeTag(n, 2)) + VarintSize(|s|) + |s|
    case Group(n, fs) => VarintSize(MakeTag(n, 3)) + FieldsSize(fs) + VarintSize(MakeTag(n, 4))
    case Fixed32Field(n, _) => VarintSize(MakeTag(n, 5)) + 4
  }

  function FieldsSize(fs: seq<UnknownField>): nat
    decreases fs, 0
  {
    if |fs| == 0 then 0 else FieldSize(fs[0]) + FieldsSize(fs[1..])
  }

  lemma {:induction false} FieldSizeIsExact(f: UnknownField)
    requires Storable(f)
    ensures FieldSize(f) == |Encode(TagOf(f))| + |Payload(f)|
    decreases f, 1
  {
    VarintSizeIsExact(TagOf(f));
    match f {
      case VarintField(_, v) => VarintSizeIsExact(v);
      case LengthDelimited(_, s) => VarintSizeIsExact(|s|);
      case Group(n, fs) =>
        VarintSizeIsExact(MakeTag(n, 4));
        FieldsSizeIsExact(fs);
      case _ =>
    }
  }

  lemma {:induction false} FieldsSizeIsExact(fs: seq<UnknownField>)
    requires AllStorable(fs)
    ensures FieldsSize(fs) == |SerializeAll(fs)|
    decreases fs, 0
  {
    if |fs| > 0 {
      FieldSizeIsExact(fs[0]);
      FieldsSizeIsExact(fs[1..]);
    }
  }

  // ---------- what remains is a suffix of the input ----------

  ghost predicate IsSuffix(rest: seq<byte>, b: seq<byte>) {
    |rest| <= |b| && rest == b[|b| - |rest|..]
  }

  lemma SuffixTransitive(c: seq<byte>, b: seq<byte>, a: seq<byte>)
    requires IsSuffix(c, b) && IsSuffix(b, a)
    ensures IsSuffix(c, a)
  {
  }

  lemma BytesSuffix(b: seq<byte>)
    requires ReadBytes(b).Some?
    ensures IsSuffix(ReadBytes(b).value.1, b)
  {
  }

  lemma {:induction false} FieldSuffix(tag: nat, b: seq<byte>)
    requires ParseField(tag, b).Some?
    ensures IsSuffix(ParseField(tag, b).value.1, b)
    decreases |b|, 1
  {
    match tag % 8 {
      case 2 => BytesSuffix(b);
      case 3 => GroupSuffix(tag / 8, b);
      case _ =>
    }
  }

  lemma {:induction false} GroupSuffix(number: nat, b: seq<byte>)
    requires ParseGroup(number, b).Some?
    ensures IsSuffix(ParseGroup(number, b).value.1, b)
    decreases |b|, 0
  {
    var t := ReadTag(b).value;
    assert IsSuffix(t.1, b);
    if t.0 != 0 && t.0 % 8 != 4 {
      FieldSuffix(t.0, t.1);
      var f := ParseField(t.0, t.1).value;
      GroupSuffix(number, f.1);
      SuffixTransitive(f.1, t.1, b);
      SuffixTransitive(ParseGroup(number, f.1).value.1, f.1, b);
    }
  }
}
