// Protocol.S_LOGIN: a flag and a repeated nested message.
module LoginMessage {
  import opened Wrappers
  import opened Varint
  import opened UnknownFields
  import opened MessageLoop
  import P = PlayerMessage

  datatype Login = Login(success: bool, players: seq<P.Player>, unknown: seq<UnknownField>)

  const EMPTY: Login := Login(false, [], [])

  const SUCCESS_TAG: nat := 8
  const PLAYERS_TAG: nat := 18

  predicate KnownTag(tag: nat) {
    tag == SUCCESS_TAG || tag == PLAYERS_TAG
  }

  // One round of the parse loop, with one player per round.
  function StepWith(utf8: Utf8Check, m: Login, tag: nat, b: seq<byte>): Option<(Login, seq<byte>)> {
    if tag == SUCCESS_TAG then
      var v := ReadVarint64(b);
      if v.None? then None else Some((m.(success := v.value.0 != 0), v.value.1))
    else if tag == PLAYERS_TAG then
      var s := ReadBytes(b);
      if s.None? then None
      else
        var p := P.Parse(utf8, s.value.0);
        if p.None? then None else Some((m.(players := m.players + [p.value]), s.value.1))
    else
      var f := Unusual(tag, b);
      if f.None? then None else Some((m.(unknown := m.unknown + [f.value.0]), f.value.1))
  }

  function Stepper(utf8: Utf8Check): Step<Login> {
    (m: Login, tag: nat, b: seq<byte>) => StepWith(utf8, m, tag, b)
  }

  function ParseInto(utf8: Utf8Check, m: Login, b: seq<byte>): Option<Login> {
    Run(Stepper(utf8), m, b)
  }

  function Parse(utf8: Utf8Check, b: seq<byte>): Option<Login> {
    ParseInto(utf8, EMPTY, b)
  }

  function SuccessPart(m: Login): seq<byte> {
    if m.success then Encode(SUCCESS_TAG) + Encode(1) else []
  }

  function PlayerField(p: P.Player): seq<byte> {
    Encode(PLAYERS_TAG) + (Encode(|P.Serialize(p)|) + P.Serialize(p))
  }

  function PlayersPart(ps: seq<P.Player>): seq<byte> {
    if |ps| == 0 then [] else PlayerField(ps[0]) + PlayersPart(ps[1..])
  }

  function Serialize(m: Login): seq<byte> {
    SuccessPart(m) + PlayersPart(m.players) + SerializeAll(m.unknown)
  }

  function PlayersSize(ps: seq<P.Player>): nat {
    if |ps| == 0 then 0
    else VarintSize(P.ByteSize(ps[0])) + P.ByteSize(ps[0]) + PlayersSize(ps[1..])
  }

  function ByteSize(m: Login): nat {
    |m.players| + PlayersSize(m.players) + (if m.success then 1 + 1 else 0) + FieldsSize(m.unknown)
  }

  function Merge(to: Login, from: Login): Login {
    Login(
      if from.success then from.success else to.success,
      to.players + from.players,
      to.unknown + from.unknown)
  }

  // Each player is proper and its encoding can be announced by a length prefix.
  ghost predicate ProperPlayer(p: P.Player) {
    P.Proper(p) && |P.Serialize(p)| <= MAX_SIZE
  }

  ghost predicate Proper(m: Login) {
    && (forall i | 0 <= i < |m.players| :: ProperPlayer(m.players[i]))
    && ProperUnknown(KnownTag, m.unknown)
  }

  ghost predicate PlayersTextOk(utf8: Utf8Check, ps: seq<P.Player>) {
    forall i | 0 <= i < |ps| :: P.TextOk(utf8, ps[i])
  }

  ghost predicate TextOk(utf8: Utf8Check, m: Login) {
    PlayersTextOk(utf8, m.players)
  }

  lemma StepperIsSteady(utf8: Utf8Check)
    ensures Steady(Stepper(utf8))
  {
    forall m, t, r, y ensures SteadyAt(Stepper(utf8), m, t, r, y) {
      StepperIsSteadyAt(utf8, m, t, r, y);
    }
  }

  lemma StepperIsSteadyAt(utf8: Utf8Check, m: Login, t: nat, r: seq<byte>, y: seq<byte>)
    ensures SteadyAt(Stepper(utf8), m, t, r, y)
  {
    hide P.Parse;
    if StepWith(utf8, m, t, r).Some? {
      if t == PLAYERS_TAG {
        ReadBytesLocal(r, y);
      } else if t == SUCCESS_TAG {
        ReadersLocal(r, y);
      } else {
        UnusualLocal(t, r, y);
      }
    }
  }

  function Kept(m: Login, fs: seq<UnknownField>): Login {
    m.(unknown := m.unknown + fs)
  }

  lemma StepperKeepsUnknown(utf8: Utf8Check)
    ensures Keeps(Stepper(utf8), KnownTag, Kept)
  {
    forall m ensures Kept(m, []) == m {
      assert m.unknown + [] == m.unknown;
    }
    forall m, x, y ensures Kept(Kept(m, x), y) == Kept(m, x + y) {
      assert m.unknown + x + y == m.unknown + (x + y);
    }
    forall m, t, b ensures KeepsAt(Stepper(utf8), KnownTag, Kept, m, t, b) {
    }
  }

  lemma UnknownFieldsMerge(utf8: Utf8Check, m: Login, fs: seq<UnknownField>, rest: seq<byte>)
    requires ProperUnknown(KnownTag, fs)
    ensures ParseInto(utf8, m, SerializeAll(fs) + rest) == ParseInto(utf8, m.(unknown := m.unknown + fs), rest)
  {
    hide Run, SerializeAll, Keeps;
    StepperKeepsUnknown(utf8);
    UnknownPartMerges(Stepper(utf8), KnownTag, Kept, m, fs, rest);
  }

  lemma SuccessPartMerges(utf8: Utf8Check, m: Login, b: Login, rest: seq<byte>)
    ensures ParseInto(utf8, m, SuccessPart(b) + rest) == ParseInto(utf8, if b.success then m.(success := true) else m, rest)
  {
    if b.success {
      assert SuccessPart(b) + rest == Encode(SUCCESS_TAG) + (Encode(1) + rest);
      ReadEncoded(1, rest);
      RunOne(Stepper(utf8), m, SUCCESS_TAG, Encode(1) + rest);
    } else {
      assert SuccessPart(b) + rest == rest;
    }
  }

  lemma PlayerFieldMerges(utf8: Utf8Check, m: Login, p: P.Player, rest: seq<byte>)
    requires ProperPlayer(p)
    ensures ParseInto(utf8, m, PlayerField(p) + rest)
         == if P.TextOk(utf8, p) then ParseInto(utf8, m.(players := m.players + [p]), rest) else None
  {
    P.RoundTrip(utf8, p);
    hide P.Parse, P.Serialize, Encode, P.Proper, P.TextOk;
    var s := P.Serialize(p);
    var behind := Encode(|s|) + s + rest;
    assert PlayerField(p) + rest == Encode(PLAYERS_TAG) + behind;
    ReadBytesBack(s, rest);
    PlayerStep(utf8, m, behind);
    hide ReadBytes, StepWith;
    if P.TextOk(utf8, p) {
      RunOne(Stepper(utf8), m, PLAYERS_TAG, behind);
    } else {
      RunNone(Stepper(utf8), m, PLAYERS_TAG, behind);
    }
  }

  // What the players field does with a nested message.
  lemma PlayerStep(utf8: Utf8Check, m: Login, b: seq<byte>)
    ensures var s := ReadBytes(b);
            StepWith(utf8, m, PLAYERS_TAG, b) ==
              if s.None? then None
              else
                var p := P.Parse(utf8, s.value.0);
                if p.None? then None else Some((m.(players := m.players + [p.value]), s.value.1))
  {
    hide ReadBytes, P.Parse, Unusual;
  }

  lemma {:induction false} PlayersPartMerges(utf8: Utf8Check, m: Login, ps: seq<P.Player>, rest: seq<byte>)
    requires forall i | 0 <= i < |ps| :: ProperPlayer(ps[i])
    ensures ParseInto(utf8, m, PlayersPart(ps) + rest)
         == if PlayersTextOk(utf8, ps) then ParseInto(utf8, m.(players := m.players + ps), rest) else None
    decreases |ps|
  {
    hide ParseInto, PlayerField, ProperPlayer, P.TextOk;
    if |ps| == 0 {
      assert PlayersPart(ps) + rest == rest && m.players + ps == m.players;
    } else {
      var tail := PlayersPart(ps[1..]) + rest;
      assert PlayersPart(ps) + rest == PlayerField(ps[0]) + tail;
      PlayerFieldMerges(utf8, m, ps[0], tail);
      PlayersPartMerges(utf8, m.(players := m.players + [ps[0]]), ps[1..], rest);
      assert m.players + [ps[0]] + ps[1..] == m.players + ps;
      assert PlayersTextOk(utf8, ps) <==> P.TextOk(utf8, ps[0]) && PlayersTextOk(utf8, ps[1..]);
    }
  }

  // Parsing an encoding on top of any message is merging, whatever follows.
  lemma EncodingMerges(utf8: Utf8Check, m: Login, b: Login, rest: seq<byte>)
    requires Proper(b)
    ensures ParseInto(utf8, m, Serialize(b) + rest)
         == if TextOk(utf8, b) then ParseInto(utf8, Merge(m, b), rest) else None
  {
    hide ParseInto, SuccessPart, PlayersPart, SerializeAll;
    var r2 := SerializeAll(b.unknown) + rest;
    var r1 := PlayersPart(b.players) + r2;
    assert Serialize(b) + rest == SuccessPart(b) + r1;
    SuccessPartMerges(utf8, m, b, r1);
    var m1 := if b.success then m.(success := true) else m;
    PlayersPartMerges(utf8, m1, b.players, r2);
    UnknownFieldsMerge(utf8, m1.(players := m1.players + b.players), b.unknown, rest);
  }

  // Parse undoes Serialize, for any number of players, exactly when every
  // player's name is UTF-8.
  lemma RoundTrip(utf8: Utf8Check, m: Login)
    requires Proper(m)
    ensures Parse(utf8, Serialize(m)) == if TextOk(utf8, m) then Some(m) else None
  {
    hide Run, Serialize, Proper, TextOk;
    EncodingMerges(utf8, EMPTY, m, []);
    RunEmpty(Stepper(utf8), Merge(EMPTY, m));
    assert Serialize(m) + [] == Serialize(m);
    assert [] + m.unknown == m.unknown && [] + m.players == m.players;
  }

  lemma ConcatenationMerges(utf8: Utf8Check, x: seq<byte>, b: Login)
    requires Proper(b) && TextOk(utf8, b) && Parse(utf8, x).Some?
    ensures Parse(utf8, x + Serialize(b)) == Some(Merge(Parse(utf8, x).value, b))
  {
    hide Run, Serialize, Proper, TextOk;
    StepperIsSteady(utf8);
    RunAppend(Stepper(utf8), EMPTY, x, Serialize(b));
    EncodingMerges(utf8, Parse(utf8, x).value, b, []);
    RunEmpty(Stepper(utf8), Merge(Parse(utf8, x).value, b));
    assert Serialize(b) + [] == Serialize(b);
  }

  // What the parser produces has proper players and proper unknown fields.
  ghost predicate Parsed(utf8: Utf8Check, m: Login) {
    && ProperUnknown(KnownTag, m.unknown)
    && forall i | 0 <= i < |m.players| :: P.Proper(m.players[i]) && P.TextOk(utf8, m.players[i])
  }

  lemma {:induction false} ParsedIsProper(utf8: Utf8Check, m: Login, b: seq<byte>)
    requires Parsed(utf8, m) && ParseInto(utf8, m, b).Some?
    ensures Parsed(utf8, ParseInto(utf8, m, b).value)
    decreases |b|
  {
    if |b| > 0 {
      var t := ReadTag(b).value;
      var s := StepWith(utf8, m, t.0, t.1).value;
      StepKeepsParsed(utf8, m, t.0, t.1);
      ParsedIsProper(utf8, s.0, s.1);
    }
  }

  lemma StepKeepsParsed(utf8: Utf8Check, m: Login, tag: nat, b: seq<byte>)
    requires Parsed(utf8, m) && tag < TWO_32 && StepWith(utf8, m, tag, b).Some?
    ensures Parsed(utf8, StepWith(utf8, m, tag, b).value.0)
  {
    if tag == PLAYERS_TAG {
      P.ParsedIsProper(utf8, P.EMPTY, ReadBytes(b).value.0);
    } else if tag != SUCCESS_TAG {
      var f := Unusual(tag, b).value.0;
      ParsedIsStorable(tag, b);
      StorableConcat(m.unknown, [f]);
    }
  }

  ghost predicate Announceable(ps: seq<P.Player>) {
    forall i :: 0 <= i < |ps| ==> |P.Serialize(ps[i])| <= MAX_SIZE
  }

  ghost predicate ParsedPlayers(utf8: Utf8Check, ps: seq<P.Player>) {
    forall i :: 0 <= i < |ps| ==> P.Proper(ps[i]) && P.TextOk(utf8, ps[i])
  }

  lemma LongPlayerFails(utf8: Utf8Check, m: Login, p: P.Player, rest: seq<byte>)
    requires |P.Serialize(p)| > MAX_SIZE
    ensures ParseInto(utf8, m, PlayerField(p) + rest).None?
  {
    hide Run, P.Serialize, P.Parse, Encode, ReadSize;
    var s := P.Serialize(p);
    var behind := Encode(|s|) + (s + rest);
    assert PlayerField(p) + rest == Encode(PLAYERS_TAG) + behind;
    OverlongSize(|s|, s + rest);
    RunNone(Stepper(utf8), m, PLAYERS_TAG, behind);
  }

  lemma {:induction false} LongPlayersFail(utf8: Utf8Check, m: Login, ps: seq<P.Player>, rest: seq<byte>)
    requires ParsedPlayers(utf8, ps) && !Announceable(ps)
    ensures ParseInto(utf8, m, PlayersPart(ps) + rest).None?
    decreases |ps|
  {
    hide ParseInto, PlayerField, P.Proper, P.TextOk, P.Serialize;
    var tail := PlayersPart(ps[1..]) + rest;
    assert PlayersPart(ps) + rest == PlayerField(ps[0]) + tail;
    if |P.Serialize(ps[0])| > MAX_SIZE {
      LongPlayerFails(utf8, m, ps[0], tail);
    } else {
      PlayerFieldMerges(utf8, m, ps[0], tail);
      LongPlayersFail(utf8, m.(players := m.players + [ps[0]]), ps[1..], rest);
    }
  }

  lemma LongLoginFails(utf8: Utf8Check, m: Login)
    requires ParsedPlayers(utf8, m.players) && !Announceable(m.players)
    ensures Parse(utf8, Serialize(m)).None?
  {
    hide ParseInto, SuccessPart, PlayersPart, SerializeAll, ParsedPlayers, Announceable;
    var rest := PlayersPart(m.players) + SerializeAll(m.unknown);
    assert Serialize(m) == SuccessPart(m) + rest;
    SuccessPartMerges(utf8, EMPTY, m, rest);
    LongPlayersFail(utf8, if m.success then EMPTY.(success := true) else EMPTY, m.players, SerializeAll(m.unknown));
  }

  // Re-encoding and parsing again loses nothing exactly when every re-encoded
  // player can still be announced by a length prefix.
  lemma ParseSerializeParse(utf8: Utf8Check, b: seq<byte>)
    requires Parse(utf8, b).Some?
    ensures Parse(utf8, Serialize(Parse(utf8, b).value)) == Parse(utf8, b) <==> Announceable(Parse(utf8, b).value.players)
  {
    hide ParseInto, Serialize, P.Serialize, P.Proper, P.TextOk;
    var m := Parse(utf8, b).value;
    ParsedParts(utf8, b);
    if Announceable(m.players) {
      RoundTrip(utf8, m);
    } else {
      LongLoginFails(utf8, m);
    }
  }

  lemma ParsedParts(utf8: Utf8Check, b: seq<byte>)
    requires Parse(utf8, b).Some?
    ensures var m := Parse(utf8, b).value;
            ParsedPlayers(utf8, m.players) && ProperUnknown(KnownTag, m.unknown)
  {
    hide Run;
    ParsedIsProper(utf8, EMPTY, b);
  }

  // A re-encoded player can be longer than the one that was parsed, because
  // an enum read from five bytes may take ten to write.
  lemma ReencodingCanGrow(utf8: Utf8Check)
    ensures var b := [24, 255, 255, 255, 255, 15];
            P.Parse(utf8, b) == Some(P.EMPTY.(playerType := -1)) && |P.Serialize(P.EMPTY.(playerType := -1))| == 11 > |b|
  {
    hide Encode, P.Serialize, Run;
    P.NegativeEnumSize(-1);
    FiveByteType();
    OnlyType();
    OneByte(P.TYPE_TAG);
    ReadType(utf8, []);
    assert Encode(P.TYPE_TAG) + Encode(0xffff_ffff) + [] == Encode(P.TYPE_TAG) + Encode(0xffff_ffff);
    RunEmpty(P.Stepper(utf8), P.EMPTY.(playerType := -1));
  }

  lemma OnlyType()
    ensures P.Serialize(P.EMPTY.(playerType := -1)) == Encode(P.TYPE_TAG) + Encode(P.SignExtended(-1))
  {
    hide Encode;
    var p := P.EMPTY.(playerType := -1);
    assert P.Serialize(p) == [] + [] + P.TypePart(p) + [];
  }

  lemma FiveByteType()
    ensures Encode(P.TYPE_TAG) + Encode(0xffff_ffff) == [24, 255, 255, 255, 255, 15]
  {
    FiveByteEncoding();
    assert Encode(P.TYPE_TAG) == [24];
  }

  // The enum's five bytes are read as -1.
  lemma ReadType(utf8: Utf8Check, rest: seq<byte>)
    ensures P.ParseInto(utf8, P.EMPTY, Encode(P.TYPE_TAG) + Encode(0xffff_ffff) + rest)
         == P.ParseInto(utf8, P.EMPTY.(playerType := -1), rest)
  {
    hide Encode, Run;
    var b := Encode(0xffff_ffff) + rest;
    assert Encode(P.TYPE_TAG) + Encode(0xffff_ffff) + rest == Encode(P.TYPE_TAG) + b;
    ReadEncoded(0xffff_ffff, rest);
    TypeIsMinusOne(utf8, b, rest);
    RunOne(P.Stepper(utf8), P.EMPTY, P.TYPE_TAG, b);
  }

  // A player of the largest size that can be announced, with a five-byte
  // negative enum and a name.
  function LongPlayer(name: seq<byte>): seq<byte> {
    Encode(P.TYPE_TAG) + Encode(0xffff_ffff) + P.NamePart(P.EMPTY.(name := name))
  }

  // A login with that player parses, but what it is written as does not.
  lemma RereadingCanFail(utf8: Utf8Check, name: seq<byte>)
    requires |name| == MAX_SIZE - 12 && utf8(name)
    ensures var p, b := LongPlayer(name), Encode(PLAYERS_TAG) + (Encode(|LongPlayer(name)|) + LongPlayer(name));
            && |p| == MAX_SIZE
            && Parse(utf8, b) == Some(EMPTY.(players := [P.EMPTY.(name := name, playerType := -1)]))
            && Parse(utf8, Serialize(Parse(utf8, b).value)).None?
  {
    hide Encode, Run, P.Serialize, LongPlayer, Serialize, PlayerField;
    var p, player := LongPlayer(name), P.EMPTY.(name := name, playerType := -1);
    LongPlayerParses(utf8, name);
    LongPlayerGrows(name);
    LoginOfOne(utf8, p, player);
    OneLongPlayer(utf8, player);
    LongLoginFails(utf8, EMPTY.(players := [player]));
  }

  lemma OneLongPlayer(utf8: Utf8Check, p: P.Player)
    requires P.Proper(p) && P.TextOk(utf8, p) && |P.Serialize(p)| > MAX_SIZE
    ensures ParsedPlayers(utf8, [p]) && !Announceable([p])
  {
    hide P.Serialize, P.Proper, P.TextOk;
    assert [p][0] == p;
  }

  lemma LongPlayerParses(utf8: Utf8Check, name: seq<byte>)
    requires |name| == MAX_SIZE - 12 && utf8(name)
    ensures P.Parse(utf8, LongPlayer(name)) == Some(P.EMPTY.(name := name, playerType := -1))
  {
    hide Encode, Run, P.NamePart;
    var part := P.NamePart(P.EMPTY.(name := name));
    ReadType(utf8, part);
    P.NamePartMerges(utf8, P.EMPTY.(playerType := -1), P.EMPTY.(name := name), []);
    assert part + [] == part;
    RunEmpty(P.Stepper(utf8), P.EMPTY.(name := name, playerType := -1));
  }

  lemma LongPlayerGrows(name: seq<byte>)
    requires |name| == MAX_SIZE - 12
    ensures |LongPlayer(name)| == MAX_SIZE
    ensures |P.Serialize(P.EMPTY.(name := name, playerType := -1))| > MAX_SIZE
  {
    hide Encode;
    FiveByteType();
    OneByte(P.TYPE_TAG);
    OneByte(P.NAME_TAG);
    assert |Encode(|name|)| == 5 by {
      Lengths(|name|);
      assert Pow128(4) == 0x1000_0000;
      EncodedLengthAbove(|name|, 4);
    }
    P.NegativeEnumSize(-1);
  }

  lemma OneByte(v: nat)
    requires v < 128
    ensures |Encode(v)| == 1
  {
  }

  lemma LoginOfOne(utf8: Utf8Check, s: seq<byte>, p: P.Player)
    requires |s| <= MAX_SIZE && P.Parse(utf8, s) == Some(p)
    ensures Parse(utf8, Encode(PLAYERS_TAG) + (Encode(|s|) + s)) == Some(EMPTY.(players := [p]))
  {
    hide Encode, P.Parse, ReadBytes;
    ReadBytesBack(s, []);
    assert Encode(|s|) + s + [] == Encode(|s|) + s;
    PlayerStep(utf8, EMPTY, Encode(|s|) + s);
    hide StepWith;
    RunOne(Stepper(utf8), EMPTY, PLAYERS_TAG, Encode(|s|) + s);
    assert [] + [p] == [p];
  }

  lemma TypeIsMinusOne(utf8: Utf8Check, b: seq<byte>, rest: seq<byte>)
    requires ReadVarint64(b) == Some((0xffff_ffff, rest))
    ensures P.StepWith(utf8, P.EMPTY, P.TYPE_TAG, b) == Some((P.EMPTY.(playerType := -1), rest))
  {
    hide ReadVarint64;
  }

  lemma FiveByteEncoding()
    ensures Encode(0xffff_ffff) == [255, 255, 255, 255, 15]
  {
    assert Encode(0x7ff) == [255, 15];
    assert Encode(0x3_ffff) == [255] + Encode(0x7ff);
    assert Encode(0x1ff_ffff) == [255] + Encode(0x3_ffff);
  }

  // ---------- on the wire ----------

  function PlayerFields(ps: seq<P.Player>): seq<UnknownField> {
    if |ps| == 0 then [] else [LengthDelimited(2, P.Serialize(ps[0]))] + PlayerFields(ps[1..])
  }

  // The flag if it is set, and each player as field 2.
  function KnownFields(m: Login): seq<UnknownField> {
    (if m.success then [VarintField(1, 1)] else []) + PlayerFields(m.players)
  }

  lemma {:induction false} PlayerFieldAt(ps: seq<P.Player>, i: nat)
    requires i < |ps|
    ensures |PlayerFields(ps)| == |ps| && PlayerFields(ps)[i] == LengthDelimited(2, P.Serialize(ps[i]))
  {
    hide P.Serialize;
    if i > 0 {
      PlayerFieldAt(ps[1..], i - 1);
    } else if |ps| > 1 {
      PlayerFieldAt(ps[1..], 0);
    }
  }

  // Read without knowledge of its fields, what is written is the flag, if it
  // is set, under number 1, then the players in their order under number 2,
  // and then the unknown fields.
  lemma WireForm(m: Login)
    requires Proper(m)
    ensures ReadFields(Serialize(m)) == Some(KnownFields(m) + m.unknown)
    ensures var n := if m.success then 1 else 0;
            && |KnownFields(m)| == n + |m.players|
            && (m.success ==> KnownFields(m)[0] == VarintField(1, 1))
            && forall i :: 0 <= i < |m.players| ==> KnownFields(m)[n + i] == LengthDelimited(2, P.Serialize(m.players[i]))
  {
    hide Encode, SerializeAll, Run, AllStorable, P.Serialize, ProperUnknown, PlayersPart;
    var flag: seq<UnknownField> := if m.success then [VarintField(1, 1)] else [];
    SerializeOne(VarintField(1, 1));
    AllOfOne(VarintField(1, 1));
    NoFields();
    PlayerFieldsAre(m.players);
    SerializeConcat(flag, PlayerFields(m.players));
    SerializeConcat(KnownFields(m), m.unknown);
    StorableConcat(flag, PlayerFields(m.players));
    StorableConcat(KnownFields(m), m.unknown);
    UnknownAreStorable(m.unknown);
    FieldsAreRead(KnownFields(m) + m.unknown);
    forall i | 0 <= i < |m.players| ensures |PlayerFields(m.players)| == |m.players|
      ensures PlayerFields(m.players)[i] == LengthDelimited(2, P.Serialize(m.players[i]))
    {
      PlayerFieldAt(m.players, i);
    }
    assert |m.players| == 0 ==> PlayerFields(m.players) == [];
  }

  lemma UnknownAreStorable(fs: seq<UnknownField>)
    requires ProperUnknown(KnownTag, fs)
    ensures AllStorable(fs)
  {
  }

  lemma {:induction false} PlayerFieldsAre(ps: seq<P.Player>)
    ensures SerializeAll(PlayerFields(ps)) == PlayersPart(ps)
    ensures (forall i | 0 <= i < |ps| :: ProperPlayer(ps[i])) ==> AllStorable(PlayerFields(ps))
  {
    hide Encode, SerializeAll, AllStorable, P.Serialize, P.Proper;
    NoFields();
    if |ps| > 0 {
      PlayerFieldsAre(ps[1..]);
      var f := LengthDelimited(2, P.Serialize(ps[0]));
      SerializeOne(f);
      SerializeConcat([f], PlayerFields(ps[1..]));
      AllOfOne(f);
      StorableConcat([f], PlayerFields(ps[1..]));
      assert Encode(PLAYERS_TAG) + (Encode(|P.Serialize(ps[0])|) + P.Serialize(ps[0])) == PlayerField(ps[0]);
    }
  }

  // The flag is set by any number but zero.
  lemma AnyNumberSetsFlag(utf8: Utf8Check, v: nat)
    requires v < TWO_64
    ensures Parse(utf8, [8] + Encode(v)) == Some(Login(v != 0, [], []))
  {
    hide Encode, Run;
    ReadEncoded(v, []);
    SmallEncodings();
    assert Encode(v) + [] == Encode(v);
    RunOne(Stepper(utf8), EMPTY, SUCCESS_TAG, Encode(v));
    RunEmpty(Stepper(utf8), Login(v != 0, [], []));
  }

  // A successful login with one player.
  lemma LoginBytes()
    ensures Serialize(Login(true, [P.Player(1, [97, 98], 2, [])], [])) == [8, 1, 18, 8, 8, 1, 18, 2, 97, 98, 24, 2]
  {
    hide P.Serialize, Encode;
    var p := P.Player(1, [97, 98], 2, []);
    P.PlayerBytes();
    SmallEncodings();
    OnePlayer(p);
    NoFields();
  }

  lemma SmallEncodings()
    ensures Encode(8) == [8] && Encode(1) == [1] && Encode(18) == [18]
  {
  }

  lemma OnePlayer(p: P.Player)
    ensures PlayersPart([p]) == PlayerField(p)
  {
    hide PlayerField;
    assert PlayersPart([p][1..]) == [];
  }

  lemma {:induction false} PlayersSizeIsExact(ps: seq<P.Player>)
    requires forall i | 0 <= i < |ps| :: ProperPlayer(ps[i])
    ensures |ps| + PlayersSize(ps) == |PlayersPart(ps)|
    decreases |ps|
  {
    if |ps| > 0 {
      P.ByteSizeIsExact(ps[0]);
      VarintSizeIsExact(|P.Serialize(ps[0])|);
      PlayersSizeIsExact(ps[1..]);
    }
  }

  // Nested length prefixes included.
  lemma ByteSizeIsExact(m: Login)
    requires Proper(m)
    ensures ByteSize(m) == |Serialize(m)|
  {
    PlayersSizeIsExact(m.players);
    FieldsSizeIsExact(m.unknown);
  }
}
