// Protocol.Player: its wire form, parser, size and merge.
module PlayerMessage {
  import opened Wrappers
  import opened Varint
  import opened VarintLoops
  import opened UnknownFields
  import opened MessageLoop

  // The enum is held as a 32-bit signed integer.
  type int32 = x: int | -0x8000_0000 <= x < 0x8000_0000

  datatype Player = Player(id: nat, name: seq<byte>, playerType: int32, unknown: seq<UnknownField>)

  const EMPTY: Player := Player(0, [], 0, [])

  const ID_TAG: nat := 8
  const NAME_TAG: nat := 18
  const TYPE_TAG: nat := 24

  // static_cast of a 64-bit value to the enum keeps the low 32 bits.
  function ToInt32(v: nat): int32 {
    var low := v % TWO_32;
    if low < 0x8000_0000 then low else low - TWO_32
  }

  // An enum is written as its sign-extended 64-bit value.
  function SignExtended(x: int32): nat {
    if x >= 0 then x else x + TWO_64
  }

  lemma EnumRoundTrip(x: int32)
    ensures ToInt32(SignExtended(x)) == x && SignExtended(x) < TWO_64
  {
  }

  predicate KnownTag(tag: nat) {
    tag == ID_TAG || tag == NAME_TAG || tag == TYPE_TAG
  }

  // One round of the parse loop.
  function StepWith(utf8: Utf8Check, m: Player, tag: nat, b: seq<byte>): Option<(Player, seq<byte>)> {
    if tag == ID_TAG then
      var v := ReadVarint64(b);
      if v.None? then None else Some((m.(id := v.value.0), v.value.1))
    else if tag == NAME_TAG then
      var s := ReadBytes(b);
      if s.None? || !utf8(s.value.0) then None else Some((m.(name := s.value.0), s.value.1))
    else if tag == TYPE_TAG then
      var v := ReadVarint64(b);
      if v.None? then None else Some((m.(playerType := ToInt32(v.value.0)), v.value.1))
    else
      var f := Unusual(tag, b);
      if f.None? then None else Some((m.(unknown := m.unknown + [f.value.0]), f.value.1))
  }

  function Stepper(utf8: Utf8Check): Step<Player> {
    (m: Player, tag: nat, b: seq<byte>) => StepWith(utf8, m, tag, b)
  }

  function ParseInto(utf8: Utf8Check, m: Player, b: seq<byte>): Option<Player> {
    Run(Stepper(utf8), m, b)
  }

  function Parse(utf8: Utf8Check, b: seq<byte>): Option<Player> {
    ParseInto(utf8, EMPTY, b)
  }

  // Default values are not written.
  function IdPart(m: Player): seq<byte> {
    if m.id == 0 then [] else Encode(ID_TAG) + Encode(m.id)
  }

  function NamePart(m: Player): seq<byte> {
    if m.name == [] then [] else Encode(NAME_TAG) + (Encode(|m.name|) + m.name)
  }

  function TypePart(m: Player): seq<byte> {
    if m.playerType == 0 then [] else Encode(TYPE_TAG) + Encode(SignExtended(m.playerType))
  }

  function Serialize(m: Player): seq<byte> {
    IdPart(m) + NamePart(m) + TypePart(m) + SerializeAll(m.unknown)
  }

  function ByteSize(m: Player): nat {
    (if m.name == [] then 0 else 1 + VarintSize(|m.name|) + |m.name|)
    + (if m.id == 0 then 0 else VarintSize(m.id) + 1)
    + (if m.playerType == 0 then 0 else 1 + VarintSize(SignExtended(m.playerType)))
    + FieldsSize(m.unknown)
  }

  // Set fields of `from` win, unknown fields are appended.
  function Merge(to: Player, from: Player): Player {
    Player(
      if from.id != 0 then from.id else to.id,
      if from.name != [] then from.name else to.name,
      if from.playerType != 0 then from.playerType else to.playerType,
      to.unknown + from.unknown)
  }

  // A message in memory: field ranges, and unknown fields that are storable
  // and not fields the message knows.
  ghost predicate Proper(m: Player) {
    && m.id < TWO_64
    && |m.name| <= MAX_SIZE
    && ProperUnknown(KnownTag, m.unknown)
  }

  // Every non-empty string is UTF-8.
  ghost predicate TextOk(utf8: Utf8Check, m: Player) {
    m.name == [] || utf8(m.name)
  }

  lemma StepperIsSteady(utf8: Utf8Check)
    ensures Steady(Stepper(utf8))
  {
    forall m, t, r, y ensures SteadyAt(Stepper(utf8), m, t, r, y) {
      StepperIsSteadyAt(utf8, m, t, r, y);
    }
  }

  lemma StepperIsSteadyAt(utf8: Utf8Check, m: Player, t: nat, r: seq<byte>, y: seq<byte>)
    ensures SteadyAt(Stepper(utf8), m, t, r, y)
  {
    if StepWith(utf8, m, t, r).Some? {
      if t == NAME_TAG {
        ReadBytesLocal(r, y);
      } else if KnownTag(t) {
        ReadersLocal(r, y);
      } else {
        UnusualLocal(t, r, y);
      }
    }
  }

  function Kept(m: Player, fs: seq<UnknownField>): Player {
    m.(unknown := m.unknown + fs)
  }

  lemma StepperKeepsUnknown(utf8: Utf8Check)
    ensures Keeps(Stepper(utf8), KnownTag, Kept)
  {
    forall m ensures Kept(m, []) == m {
      assert m.unknown + [] == m.unknown;
    }
    forall m, x, y ensures Kept(Kept(m, x), y) == Kept(m, x + y) {
      assert m.unknown + x + y == m.unknown + (x + y);
    }
    forall m, t, b ensures KeepsAt(Stepper(utf8), KnownTag, Kept, m, t, b) {
    }
  }

  lemma UnknownFieldsMerge(utf8: Utf8Check, m: Player, fs: seq<UnknownField>, rest: seq<byte>)
    requires ProperUnknown(KnownTag, fs)
    ensures ParseInto(utf8, m, SerializeAll(fs) + rest) == ParseInto(utf8, m.(unknown := m.unknown + fs), rest)
  {
    hide Run, SerializeAll, Keeps;
    StepperKeepsUnknown(utf8);
    UnknownPartMerges(Stepper(utf8), KnownTag, Kept, m, fs, rest);
  }

  lemma IdPartMerges(utf8: Utf8Check, m: Player, b: Player, rest: seq<byte>)
    requires b.id < TWO_64
    ensures ParseInto(utf8, m, IdPart(b) + rest) == ParseInto(utf8, if b.id != 0 then m.(id := b.id) else m, rest)
  {
    if b.id != 0 {
      assert IdPart(b) + rest == Encode(ID_TAG) + (Encode(b.id) + rest);
      ReadEncoded(b.id, rest);
      RunOne(Stepper(utf8), m, ID_TAG, Encode(b.id) + rest);
    } else {
      assert IdPart(b) + rest == rest;
    }
  }

  lemma NamePartMerges(utf8: Utf8Check, m: Player, b: Player, rest: seq<byte>)
    requires |b.name| <= MAX_SIZE
    ensures ParseInto(utf8, m, NamePart(b) + rest)
         == if b.name == [] then ParseInto(utf8, m, rest)
            else if utf8(b.name) then ParseInto(utf8, m.(name := b.name), rest)
            else None
  {
    if b.name != [] {
      var behind := Encode(|b.name|) + b.name + rest;
      assert NamePart(b) + rest == Encode(NAME_TAG) + behind;
      ReadBytesBack(b.name, rest);
      if utf8(b.name) {
        RunOne(Stepper(utf8), m, NAME_TAG, behind);
      } else {
        ReadEncoded(NAME_TAG, behind);
      }
    } else {
      assert NamePart(b) + rest == rest;
    }
  }

  lemma TypePartMerges(utf8: Utf8Check, m: Player, b: Player, rest: seq<byte>)
    ensures ParseInto(utf8, m, TypePart(b) + rest)
         == ParseInto(utf8, if b.playerType != 0 then m.(playerType := b.playerType) else m, rest)
  {
    if b.playerType != 0 {
      EnumRoundTrip(b.playerType);
      var behind := Encode(SignExtended(b.playerType)) + rest;
      assert TypePart(b) + rest == Encode(TYPE_TAG) + behind;
      ReadEncoded(SignExtended(b.playerType), rest);
      RunOne(Stepper(utf8), m, TYPE_TAG, behind);
    } else {
      assert TypePart(b) + rest == rest;
    }
  }

  // Parsing an encoding on top of any message is merging, whatever follows.
  lemma EncodingMerges(utf8: Utf8Check, m: Player, b: Player, rest: seq<byte>)
    requires Proper(b)
    ensures ParseInto(utf8, m, Serialize(b) + rest)
         == if TextOk(utf8, b) then ParseInto(utf8, Merge(m, b), rest) else None
  {
    hide ParseInto, IdPart, NamePart, TypePart, SerializeAll;
    var r3 := SerializeAll(b.unknown) + rest;
    var r2 := TypePart(b) + r3;
    var r1 := NamePart(b) + r2;
    assert Serialize(b) + rest == IdPart(b) + r1;
    var m1 := if b.id != 0 then m.(id := b.id) else m;
    IdPartMerges(utf8, m, b, r1);
    NamePartMerges(utf8, m1, b, r2);
    var m2 := if b.name != [] then m1.(name := b.name) else m1;
    TypePartMerges(utf8, m2, b, r3);
    var m3 := if b.playerType != 0 then m2.(playerType := b.playerType) else m2;
    UnknownFieldsMerge(utf8, m3, b.unknown, rest);
  }

  // Parse undoes Serialize exactly for the messages whose strings are UTF-8.
  lemma RoundTrip(utf8: Utf8Check, m: Player)
    requires Proper(m)
    ensures Parse(utf8, Serialize(m)) == if TextOk(utf8, m) then Some(m) else None
  {
    hide Run, Serialize, Proper, TextOk;
    EncodingMerges(utf8, EMPTY, m, []);
    RunEmpty(Stepper(utf8), Merge(EMPTY, m));
    assert Serialize(m) + [] == Serialize(m);
    assert [] + m.unknown == m.unknown;
  }

  // "Last One Wins": for any first part that parses, appending an encoding
  // and parsing is merging the two messages.
  lemma ConcatenationMerges(utf8: Utf8Check, x: seq<byte>, b: Player)
    requires Proper(b) && TextOk(utf8, b) && Parse(utf8, x).Some?
    ensures Parse(utf8, x + Serialize(b)) == Some(Merge(Parse(utf8, x).value, b))
  {
    hide Run, Serialize, Proper, TextOk;
    StepperIsSteady(utf8);
    RunAppend(Stepper(utf8), EMPTY, x, Serialize(b));
    EncodingMerges(utf8, Parse(utf8, x).value, b, []);
    RunEmpty(Stepper(utf8), Merge(Parse(utf8, x).value, b));
    assert Serialize(b) + [] == Serialize(b);
  }

  // The second part has to be an encoding: a default value spelled out on the
  // wire resets the field, while merging leaves it alone.
  lemma SpelledOutDefaultDiffers(utf8: Utf8Check)
    ensures var x, y := Serialize(EMPTY.(id := 5)), [8, 0];
            && Parse(utf8, y) == Some(EMPTY)
            && Parse(utf8, x + y) == Some(EMPTY)
            && Merge(EMPTY.(id := 5), EMPTY).id == 5
  {
    var m := EMPTY.(id := 5);
    assert Encode(ID_TAG) == [8] && Encode(0) == [0];
    IdPartMerges(utf8, EMPTY, m, [8, 0]);
    assert Serialize(m) == IdPart(m);
    ReadEncoded(0, []);
    assert Encode(0) + [] == [0];
    RunOne(Stepper(utf8), m, ID_TAG, [0]);
    RunOne(Stepper(utf8), EMPTY, ID_TAG, [0]);
    assert Encode(ID_TAG) + [0] == [8, 0];
  }

  // What the parser produces is proper.
  lemma {:induction false} ParsedIsProper(utf8: Utf8Check, m: Player, b: seq<byte>)
    requires Proper(m) && TextOk(utf8, m) && ParseInto(utf8, m, b).Some?
    ensures Proper(ParseInto(utf8, m, b).value) && TextOk(utf8, ParseInto(utf8, m, b).value)
    decreases |b|
  {
    if |b| > 0 {
      var t := ReadTag(b).value;
      var s := StepWith(utf8, m, t.0, t.1).value;
      if !KnownTag(t.0) {
        var f := Unusual(t.0, t.1).value.0;
        ParsedIsStorable(t.0, t.1);
        StorableConcat(m.unknown, [f]);
      }
      ParsedIsProper(utf8, s.0, s.1);
    }
  }

  // Re-encoding a parsed message and parsing again loses nothing, unknown
  // fields included.
  lemma ParseSerializeParse(utf8: Utf8Check, b: seq<byte>)
    requires Parse(utf8, b).Some?
    ensures Parse(utf8, Serialize(Parse(utf8, b).value)) == Parse(utf8, b)
  {
    ParsedIsProper(utf8, EMPTY, b);
    RoundTrip(utf8, Parse(utf8, b).value);
  }

  // ---------- on the wire ----------

  // The fields that are set, in the order of their numbers.
  function KnownFields(m: Player): seq<UnknownField> {
    (if m.id == 0 then [] else [VarintField(1, m.id)])
    + (if m.name == [] then [] else [LengthDelimited(2, m.name)])
    + (if m.playerType == 0 then [] else [VarintField(3, SignExtended(m.playerType))])
  }

  // Read without knowledge of its fields, what is written are the fields that
  // are set, each once and by increasing number, and then the unknown ones.
  lemma WireForm(m: Player)
    requires Proper(m)
    ensures ReadFields(Serialize(m)) == Some(KnownFields(m) + m.unknown)
    ensures Increasing(KnownFields(m))
  {
    hide Encode, SerializeAll, Run, AllStorable, ProperUnknown;
    KnownPart(m);
    KnownAreStorable(m);
    SerializeConcat(KnownFields(m), m.unknown);
    StorableConcat(KnownFields(m), m.unknown);
    UnknownAreStorable(m.unknown);
    FieldsAreRead(KnownFields(m) + m.unknown);
  }

  lemma UnknownAreStorable(fs: seq<UnknownField>)
    requires ProperUnknown(KnownTag, fs)
    ensures AllStorable(fs)
  {
  }

  lemma KnownPart(m: Player)
    ensures SerializeAll(KnownFields(m)) == IdPart(m) + NamePart(m) + TypePart(m)
  {
    hide Encode, SerializeAll, SignExtended;
    var id: seq<UnknownField> := if m.id == 0 then [] else [VarintField(1, m.id)];
    var name: seq<UnknownField> := if m.name == [] then [] else [LengthDelimited(2, m.name)];
    var type': seq<UnknownField> := if m.playerType == 0 then [] else [VarintField(3, SignExtended(m.playerType))];
    SerializeOne(VarintField(1, m.id));
    SerializeOne(LengthDelimited(2, m.name));
    SerializeOne(VarintField(3, SignExtended(m.playerType)));
    NoFields();
    SerializeConcat(id, name);
    SerializeConcat(id + name, type');
  }

  lemma KnownAreStorable(m: Player)
    requires Proper(m)
    ensures AllStorable(KnownFields(m))
  {
    hide AllStorable, ProperUnknown;
    EnumRoundTrip(m.playerType);
    var id: seq<UnknownField> := if m.id == 0 then [] else [VarintField(1, m.id)];
    var name: seq<UnknownField> := if m.name == [] then [] else [LengthDelimited(2, m.name)];
    var type': seq<UnknownField> := if m.playerType == 0 then [] else [VarintField(3, SignExtended(m.playerType))];
    AllOfOne(VarintField(1, m.id));
    AllOfOne(LengthDelimited(2, m.name));
    AllOfOne(VarintField(3, SignExtended(m.playerType)));
    NoFields();
    StorableConcat(id, name);
    StorableConcat(id + name, type');
  }

  // Player 1, "ab", of type 2.
  lemma PlayerBytes()
    ensures Serialize(Player(1, [97, 98], 2, [])) == [8, 1, 18, 2, 97, 98, 24, 2]
  {
    hide Serialize;
    assert Encode(8) == [8] && Encode(1) == [1] && Encode(18) == [18] && Encode(2) == [2] && Encode(24) == [24];
    PlayerParts(Player(1, [97, 98], 2, []));
  }

  lemma PlayerParts(m: Player)
    ensures Serialize(m) == IdPart(m) + NamePart(m) + TypePart(m) + SerializeAll(m.unknown)
  {
  }

  lemma ByteSizeIsExact(m: Player)
    requires Proper(m)
    ensures ByteSize(m) == |Serialize(m)|
  {
    VarintSizeIsExact(m.id);
    VarintSizeIsExact(|m.name|);
    VarintSizeIsExact(SignExtended(m.playerType));
    FieldsSizeIsExact(m.unknown);
  }

  // A negative enum value takes ten bytes.
  lemma NegativeEnumSize(x: int32)
    requires x < 0
    ensures |Encode(SignExtended(x))| == 10
  {
    var v := SignExtended(x);
    Lengths(v);
    assert Pow128(9) == 0x8000_0000_0000_0000 by { assert Pow128(6) == 0x400_0000_0000; }
    EncodedLengthAbove(v, 9);
  }
}
