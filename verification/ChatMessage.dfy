// Protocol.S_CHAT: a player id and a text.
module ChatMessage {
  import opened Wrappers
  import opened Varint
  import opened UnknownFields
  import opened MessageLoop

  datatype Chat = Chat(playerId: nat, msg: seq<byte>, unknown: seq<UnknownField>)

  const EMPTY: Chat := Chat(0, [], [])

  const ID_TAG: nat := 8
  const MSG_TAG: nat := 18

  predicate KnownTag(tag: nat) {
    tag == ID_TAG || tag == MSG_TAG
  }

  function StepWith(utf8: Utf8Check, m: Chat, tag: nat, b: seq<byte>): Option<(Chat, seq<byte>)> {
    if tag == ID_TAG then
      var v := ReadVarint64(b);
      if v.None? then None else Some((m.(playerId := v.value.0), v.value.1))
    else if tag == MSG_TAG then
      var s := ReadBytes(b);
      if s.None? || !utf8(s.value.0) then None else Some((m.(msg := s.value.0), s.value.1))
    else
      var f := Unusual(tag, b);
      if f.None? then None else Some((m.(unknown := m.unknown + [f.value.0]), f.value.1))
  }

  function Stepper(utf8: Utf8Check): Step<Chat> {
    (m: Chat, tag: nat, b: seq<byte>) => StepWith(utf8, m, tag, b)
  }

  function ParseInto(utf8: Utf8Check, m: Chat, b: seq<byte>): Option<Chat> {
    Run(Stepper(utf8), m, b)
  }

  function Parse(utf8: Utf8Check, b: seq<byte>): Option<Chat> {
    ParseInto(utf8, EMPTY, b)
  }

  function IdPart(m: Chat): seq<byte> {
    if m.playerId == 0 then [] else Encode(ID_TAG) + Encode(m.playerId)
  }

  function MsgPart(m: Chat): seq<byte> {
    if m.msg == [] then [] else Encode(MSG_TAG) + (Encode(|m.msg|) + m.msg)
  }

  function Serialize(m: Chat): seq<byte> {
    IdPart(m) + MsgPart(m) + SerializeAll(m.unknown)
  }

  function ByteSize(m: Chat): nat {
    (if m.msg == [] then 0 else 1 + VarintSize(|m.msg|) + |m.msg|)
    + (if m.playerId == 0 then 0 else VarintSize(m.playerId) + 1)
    + FieldsSize(m.unknown)
  }

  function Merge(to: Chat, from: Chat): Chat {
    Chat(
      if from.playerId != 0 then from.playerId else to.playerId,
      if from.msg != [] then from.msg else to.msg,
      to.unknown + from.unknown)
  }

  ghost predicate Proper(m: Chat) {
    m.playerId < TWO_64 && |m.msg| <= MAX_SIZE && ProperUnknown(KnownTag, m.unknown)
  }

  ghost predicate TextOk(utf8: Utf8Check, m: Chat) {
    m.msg == [] || utf8(m.msg)
  }

  lemma StepperIsSteady(utf8: Utf8Check)
    ensures Steady(Stepper(utf8))
  {
    forall m, t, r, y ensures SteadyAt(Stepper(utf8), m, t, r, y) {
      StepperIsSteadyAt(utf8, m, t, r, y);
    }
  }

  lemma StepperIsSteadyAt(utf8: Utf8Check, m: Chat, t: nat, r: seq<byte>, y: seq<byte>)
    ensures SteadyAt(Stepper(utf8), m, t, r, y)
  {
    if StepWith(utf8, m, t, r).Some? {
      if t == MSG_TAG {
        ReadBytesLocal(r, y);
      } else if t == ID_TAG {
        ReadersLocal(r, y);
      } else {
        UnusualLocal(t, r, y);
      }
    }
  }

  function Kept(m: Chat, fs: seq<UnknownField>): Chat {
    m.(unknown := m.unknown + fs)
  }

  lemma StepperKeepsUnknown(utf8: Utf8Check)
    ensures Keeps(Stepper(utf8), KnownTag, Kept)
  {
    forall m ensures Kept(m, []) == m {
      assert m.unknown + [] == m.unknown;
    }
    forall m, x, y ensures Kept(Kept(m, x), y) == Kept(m, x + y) {
      assert m.unknown + x + y == m.unknown + (x + y);
    }
    forall m, t, b ensures KeepsAt(Stepper(utf8), KnownTag, Kept, m, t, b) {
    }
  }

  lemma UnknownFieldsMerge(utf8: Utf8Check, m: Chat, fs: seq<UnknownField>, rest: seq<byte>)
    requires ProperUnknown(KnownTag, fs)
    ensures ParseInto(utf8, m, SerializeAll(fs) + rest) == ParseInto(utf8, m.(unknown := m.unknown + fs), rest)
  {
    hide Run, SerializeAll, Keeps;
    StepperKeepsUnknown(utf8);
    UnknownPartMerges(Stepper(utf8), KnownTag, Kept, m, fs, rest);
  }

  lemma IdPartMerges(utf8: Utf8Check, m: Chat, b: Chat, rest: seq<byte>)
    requires b.playerId < TWO_64
    ensures ParseInto(utf8, m, IdPart(b) + rest)
         == ParseInto(utf8, if b.playerId != 0 then m.(playerId := b.playerId) else m, rest)
  {
    if b.playerId != 0 {
      assert IdPart(b) + rest == Encode(ID_TAG) + (Encode(b.playerId) + rest);
      ReadEncoded(b.playerId, rest);
      RunOne(Stepper(utf8), m, ID_TAG, Encode(b.playerId) + rest);
    } else {
      assert IdPart(b) + rest == rest;
    }
  }

  lemma MsgPartMerges(utf8: Utf8Check, m: Chat, b: Chat, rest: seq<byte>)
    requires |b.msg| <= MAX_SIZE
    ensures ParseInto(utf8, m, MsgPart(b) + rest)
         == if b.msg == [] then ParseInto(utf8, m, rest)
            else if utf8(b.msg) then ParseInto(utf8, m.(msg := b.msg), rest)
            else None
  {
    if b.msg != [] {
      var behind := Encode(|b.msg|) + b.msg + rest;
      assert MsgPart(b) + rest == Encode(MSG_TAG) + behind;
      ReadBytesBack(b.msg, rest);
      if utf8(b.msg) {
        RunOne(Stepper(utf8), m, MSG_TAG, behind);
      } else {
        ReadEncoded(MSG_TAG, behind);
      }
    } else {
      assert MsgPart(b) + rest == rest;
    }
  }

  lemma EncodingMerges(utf8: Utf8Check, m: Chat, b: Chat, rest: seq<byte>)
    requires Proper(b)
    ensures ParseInto(utf8, m, Serialize(b) + rest)
         == if TextOk(utf8, b) then ParseInto(utf8, Merge(m, b), rest) else None
  {
    hide ParseInto, IdPart, MsgPart, SerializeAll;
    var r2 := SerializeAll(b.unknown) + rest;
    var r1 := MsgPart(b) + r2;
    assert Serialize(b) + rest == IdPart(b) + r1;
    var m1 := if b.playerId != 0 then m.(playerId := b.playerId) else m;
    IdPartMerges(utf8, m, b, r1);
    MsgPartMerges(utf8, m1, b, r2);
    UnknownFieldsMerge(utf8, if b.msg != [] then m1.(msg := b.msg) else m1, b.unknown, rest);
  }

  lemma RoundTrip(utf8: Utf8Check, m: Chat)
    requires Proper(m)
    ensures Parse(utf8, Serialize(m)) == if TextOk(utf8, m) then Some(m) else None
  {
    hide Run, Serialize, Proper, TextOk;
    EncodingMerges(utf8, EMPTY, m, []);
    RunEmpty(Stepper(utf8), Merge(EMPTY, m));
    assert Serialize(m) + [] == Serialize(m);
    assert [] + m.unknown == m.unknown;
  }

  lemma ConcatenationMerges(utf8: Utf8Check, x: seq<byte>, b: Chat)
    requires Proper(b) && TextOk(utf8, b) && Parse(utf8, x).Some?
    ensures Parse(utf8, x + Serialize(b)) == Some(Merge(Parse(utf8, x).value, b))
  {
    hide Run, Serialize, Proper, TextOk;
    StepperIsSteady(utf8);
    RunAppend(Stepper(utf8), EMPTY, x, Serialize(b));
    EncodingMerges(utf8, Parse(utf8, x).value, b, []);
    RunEmpty(Stepper(utf8), Merge(Parse(utf8, x).value, b));
    assert Serialize(b) + [] == Serialize(b);
  }

  lemma {:induction false} ParsedIsProper(utf8: Utf8Check, m: Chat, b: seq<byte>)
    requires Proper(m) && TextOk(utf8, m) && ParseInto(utf8, m, b).Some?
    ensures Proper(ParseInto(utf8, m, b).value) && TextOk(utf8, ParseInto(utf8, m, b).value)
    decreases |b|
  {
    if |b| > 0 {
      var t := ReadTag(b).value;
      var s := StepWith(utf8, m, t.0, t.1).value;
      if !KnownTag(t.0) {
        ParsedIsStorable(t.0, t.1);
        StorableConcat(m.unknown, [Unusual(t.0, t.1).value.0]);
      }
      ParsedIsProper(utf8, s.0, s.1);
    }
  }

  lemma ParseSerializeParse(utf8: Utf8Check, b: seq<byte>)
    requires Parse(utf8, b).Some?
    ensures Parse(utf8, Serialize(Parse(utf8, b).value)) == Parse(utf8, b)
  {
    ParsedIsProper(utf8, EMPTY, b);
    RoundTrip(utf8, Parse(utf8, b).value);
  }

  // ---------- on the wire ----------

  // The fields that are set, in the order of their numbers.
  function KnownFields(m: Chat): seq<UnknownField> {
    (if m.playerId == 0 then [] else [VarintField(1, m.playerId)])
    + (if m.msg == [] then [] else [LengthDelimited(2, m.msg)])
  }

  // Read without knowledge of its fields, what is written are the fields that
  // are set, each once and by increasing number, and then the unknown ones.
  lemma WireForm(m: Chat)
    requires Proper(m)
    ensures ReadFields(Serialize(m)) == Some(KnownFields(m) + m.unknown)
    ensures Increasing(KnownFields(m))
  {
    hide Encode, SerializeAll, Run, AllStorable;
    var id: seq<UnknownField> := if m.playerId == 0 then [] else [VarintField(1, m.playerId)];
    var msg: seq<UnknownField> := if m.msg == [] then [] else [LengthDelimited(2, m.msg)];
    SerializeOne(VarintField(1, m.playerId));
    SerializeOne(LengthDelimited(2, m.msg));
    NoFields();
    assert SerializeAll(id) == IdPart(m) && SerializeAll(msg) == MsgPart(m);
    SerializeConcat(id, msg);
    SerializeConcat(id + msg, m.unknown);
    AllOfOne(VarintField(1, m.playerId));
    AllOfOne(LengthDelimited(2, m.msg));
    StorableConcat(id, msg);
    StorableConcat(id + msg, m.unknown);
    FieldsAreRead(id + msg + m.unknown);
  }

  // Player 5 says "a".
  lemma ChatBytes()
    ensures Serialize(Chat(5, [97], [])) == [8, 5, 18, 1, 97]
  {
  }

  lemma ByteSizeIsExact(m: Chat)
    requires Proper(m)
    ensures ByteSize(m) == |Serialize(m)|
  {
    VarintSizeIsExact(m.playerId);
    VarintSizeIsExact(|m.msg|);
    FieldsSizeIsExact(m.unknown);
  }
}
