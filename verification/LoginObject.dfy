// The S_LOGIN message object. Its parser reads consecutive players in an inner
// loop, without going back to the tag switch.
module LoginObject {
  import opened Wrappers
  import opened Varint
  import opened VarintLoops
  import opened UnknownFields
  import opened MessageLoop
  import opened LoginMessage
  import P = PlayerMessage
  import PO = PlayerObject

  lemma TagCases(tag: nat)
    ensures tag / 8 == 1 && tag % 256 == 8 <==> tag == SUCCESS_TAG
    ensures tag / 8 == 2 && tag % 256 == 18 <==> tag == PLAYERS_TAG
  {
  }

  // The tag of the players field is the single byte 18, so testing that byte
  // is reading the tag.
  lemma ExpectedTag(b: seq<byte>, ptr: nat)
    requires ptr < |b| && b[ptr] == 18
    ensures ReadTag(b[ptr..]) == Some((PLAYERS_TAG, b[ptr + 1..]))
  {
    assert b[ptr..][0] == 18 && b[ptr..][1..] == b[ptr + 1..];
  }

  // What follows a length-delimited field is the end of the input.
  lemma BytesEnd(b: seq<byte>, ptr: nat)
    requires ptr <= |b| && ReadBytes(b[ptr..]).Some?
    ensures var rest := ReadBytes(b[ptr..]).value.1;
            |rest| < |b| - ptr && b[|b| - |rest|..] == rest
  {
    hide ReadBytes;
    BytesSuffix(b[ptr..]);
    SuffixTransitive(ReadBytes(b[ptr..]).value.1, b[ptr..], b);
  }

  // One round of the outer switch on a further player.
  lemma PlayerRound(utf8: Utf8Check, m: Login, b: seq<byte>, ptr: nat)
    requires ptr < |b| && b[ptr] == 18
    ensures var s := StepWith(utf8, m, PLAYERS_TAG, b[ptr + 1..]);
            Run(Stepper(utf8), m, b[ptr..]) ==
              if s.None? then None else Run(Stepper(utf8), s.value.0, s.value.1)
  {
    hide StepWith, ReadTag;
    ExpectedTag(b, ptr);
    PlayerStepShrinks(utf8, m, b[ptr + 1..]);
    assert |b[ptr..]| > 0;
  }

  class LoginMsg {
    var success: bool
    var players: seq<P.Player>
    var unknown: seq<UnknownField>

    function Value(): Login
      reads this
    {
      Login(success, players, unknown)
    }

    constructor ()
      ensures Value() == EMPTY
    {
      success, players, unknown := false, [], [];
    }

    // One nested message, parsed into a player of its own and then added.
    method ParsePlayer(utf8: Utf8Check, b: seq<byte>, ptr: nat) returns (next: Option<nat>)
      requires ptr <= |b|
      modifies this`players
      ensures next.None? <==> StepWith(utf8, old(Value()), PLAYERS_TAG, b[ptr..]).None?
      ensures next.Some? ==> ptr < next.value <= |b|
                             && StepWith(utf8, old(Value()), PLAYERS_TAG, b[ptr..]) == Some((Value(), b[next.value..]))
    {
      hide StepWith, ReadBytes, P.ParseInto, Run;
      PlayerStep(utf8, Value(), b[ptr..]);
      var s := ReadBytes(b[ptr..]);
      if s.None? {
        return None;
      }
      BytesEnd(b, ptr);
      var player := new PO.PlayerMsg();
      var ok := player.InternalParse(utf8, s.value.0);
      if !ok {
        return None;
      }
      players := players + [player.Value()];
      return Some(|b| - |s.value.1|);
    }

    // The inner loop. Each pass consumes at least one byte, and the outcome is
    // that of reading every tag in the outer loop instead.
    method ParsePlayers(utf8: Utf8Check, b: seq<byte>, start: nat) returns (next: Option<nat>)
      requires 0 < start <= |b|
      modifies this`players
      ensures next.None? ==> (var s := StepWith(utf8, old(Value()), PLAYERS_TAG, b[start..]);
                              s.None? || Run(Stepper(utf8), s.value.0, s.value.1).None?)
      ensures next.Some? ==> start < next.value <= |b|
                             && (var s := StepWith(utf8, old(Value()), PLAYERS_TAG, b[start..]);
                                 s.Some? && Run(Stepper(utf8), s.value.0, s.value.1)
                                         == Run(Stepper(utf8), Value(), b[next.value..]))
    {
      hide StepWith, Run, Stepper;
      ghost var first := StepWith(utf8, Value(), PLAYERS_TAG, b[start..]);
      var ptr := start - 1;
      ptr := ptr + 1;
      var step := ParsePlayer(utf8, b, ptr);
      if step.None? {
        return None;
      }
      ptr := step.value;
      while ptr < |b| && b[ptr] == 18
        invariant start < ptr <= |b|
        invariant first.Some?
        invariant Run(Stepper(utf8), first.value.0, first.value.1) == Run(Stepper(utf8), Value(), b[ptr..])
        decreases |b| - ptr
      {
        PlayerRound(utf8, Value(), b, ptr);
        ptr := ptr + 1;
        step := ParsePlayer(utf8, b, ptr);
        if step.None? {
          return None;
        }
        ptr := step.value;
      }
      return Some(ptr);
    }

    method ParseOther(utf8: Utf8Check, tag: nat, b: seq<byte>, ptr: nat) returns (next: Option<nat>)
      requires ptr <= |b| && tag != PLAYERS_TAG
      modifies this`success, this`unknown
      ensures next.None? <==> StepWith(utf8, old(Value()), tag, b[ptr..]).None?
      ensures next.Some? ==> ptr <= next.value <= |b|
                             && StepWith(utf8, old(Value()), tag, b[ptr..]) == Some((Value(), b[next.value..]))
    {
      hide ReadBytes, ReadVarint64, ParseField, P.Parse;
      TagCases(tag);
      if tag / 8 == 1 && tag % 256 == 8 {
        var v := VarintParse(b, ptr);
        if v.None? {
          return None;
        }
        success := v.value.0 != 0;
        return Some(v.value.1);
      }
      if tag == 0 || tag % 8 == 4 {
        return None;
      }
      var f := ParseField(tag, b[ptr..]);
      if f.None? {
        return None;
      }
      FieldSuffix(tag, b[ptr..]);
      SuffixTransitive(f.value.1, b[ptr..], b);
      unknown := unknown + [f.value.0];
      return Some(|b| - |f.value.1|);
    }

    method InternalParse(utf8: Utf8Check, b: seq<byte>) returns (ok: bool)
      modifies this
      ensures ok <==> ParseInto(utf8, old(Value()), b).Some?
      ensures ok ==> ParseInto(utf8, old(Value()), b) == Some(Value())
    {
      hide StepWith;
      var ptr := 0;
      assert b[0..] == b;
      while ptr < |b|
        invariant ptr <= |b|
        invariant ParseInto(utf8, old(Value()), b) == ParseInto(utf8, Value(), b[ptr..])
        decreases |b| - ptr
      {
        var t := TagParse(b, ptr);
        if t.None? {
          return false;
        }
        var tag := t.value.0;
        TagCases(tag);
        ghost var s := StepWith(utf8, Value(), tag, b[t.value.1..]);
        var next;
        if tag / 8 == 2 && tag % 256 == 18 {
          PlayerStepShrinks(utf8, Value(), b[t.value.1..]);
          next := ParsePlayers(utf8, b, t.value.1);
        } else {
          next := ParseOther(utf8, tag, b, t.value.1);
        }
        if next.None? {
          return false;
        }
        ptr := next.value;
      }
      return true;
    }

    method InternalSerialize(target: array<byte>, ptr: nat) returns (end: nat)
      requires Proper(Value())
      requires ptr + |Serialize(Value())| <= target.Length
      modifies target
      ensures end == ptr + |Serialize(Value())|
      ensures target[..] == Splice(old(target[..]), ptr, Serialize(Value()))
      ensures ReadFields(target[ptr..end]) == Some(KnownFields(Value()) + Value().unknown)
    {
      hide Encode, Splice, SerializeAll, P.Proper, PlayerField, PlayersPart, P.Serialize, ProperUnknown, SuccessPart, ReadFields,
        KnownFields;
      ghost var t := target[..];
      ghost var whole := SuccessPart(Value()) + PlayersPart(players);
      SpliceNothing(t, ptr);
      end := WriteSuccess(target, ptr);
      ghost var done := SuccessPart(Value());
      var i := 0;
      assert players[0..] == players;
      while i < |players|
        invariant i <= |players| && end == ptr + |done| && done + PlayersPart(players[i..]) == whole
        invariant target[..] == Splice(t, ptr, done)
      {
        NextPlayer(players, i, done, whole);
        end := WritePlayer(players[i], target, end);
        SpliceTwice(t, ptr, done, PlayerField(players[i]));
        done := done + PlayerField(players[i]);
        i := i + 1;
      }
      NoPlayersLeft(players, done);
      var rest := SerializeAll(unknown);
      end := WriteRaw(rest, target, end);
      SpliceTwice(t, ptr, done, rest);
      SpliceMiddle(t, ptr, Serialize(Value()));
      WireForm(Value());
    }

    // The flag, unless it is false.
    method WriteSuccess(target: array<byte>, ptr: nat) returns (end: nat)
      requires ptr + |SuccessPart(Value())| <= target.Length
      modifies target
      ensures end == ptr + |SuccessPart(Value())|
      ensures target[..] == Splice(old(target[..]), ptr, SuccessPart(Value()))
    {
      SpliceNothing(target[..], ptr);
      end := ptr;
      if success {
        end := PO.WriteVarintField(SUCCESS_TAG, 1, target, end);
      }
    }

    method ByteSizeLong() returns (total: nat)
      requires Proper(Value())
      ensures total == |Serialize(Value())|
    {
      hide Serialize, Proper, PlayersSize, FieldsSize;
      ghost var m := Value();
      ByteSizeIsExact(m);
      total := AddPlayerSizes(|players|);
      if success {
        total := total + 1 + 1;
      }
      total := total + FieldsSize(unknown);
    }

    // The size of each nested message and of its length prefix.
    method AddPlayerSizes(start: nat) returns (total: nat)
      ensures total == start + PlayersSize(players)
    {
      hide P.ByteSize, VarintSize, PlayersSize;
      NoPlayersLeft(players, []);
      total := start;
      var i := 0;
      assert players[0..] == players;
      while i < |players|
        invariant i <= |players|
        invariant total + PlayersSize(players[i..]) == start + PlayersSize(players)
      {
        PlayersSizeHead(players, i);
        var size := P.ByteSize(players[i]);
        total := total + VarintSize(size) + size;
        i := i + 1;
      }
    }

    method MergeFrom(from: LoginMsg)
      requires from != this
      modifies this
      ensures Value() == Merge(old(Value()), from.Value())
    {
      players := players + from.players;
      if from.success {
        success := from.success;
      }
      unknown := unknown + from.unknown;
    }
  }

  lemma NoPlayersLeft(ps: seq<P.Player>, done: seq<byte>)
    ensures done + PlayersPart(ps[|ps|..]) == done && PlayersSize(ps[|ps|..]) == 0
  {
  }

  // What was to come after `done` once player i has been written too.
  lemma NextPlayer(ps: seq<P.Player>, i: nat, done: seq<byte>, whole: seq<byte>)
    requires i < |ps| && done + PlayersPart(ps[i..]) == whole
    ensures (done + PlayerField(ps[i])) + PlayersPart(ps[i + 1..]) == whole
  {
    hide PlayerField, PlayersPart;
    PlayersPartHead(ps, i);
    assert done + (PlayerField(ps[i]) + PlayersPart(ps[i + 1..])) == (done + PlayerField(ps[i])) + PlayersPart(ps[i + 1..]);
  }

  lemma PlayersSizeHead(ps: seq<P.Player>, i: nat)
    requires i < |ps|
    ensures PlayersSize(ps[i..]) == VarintSize(P.ByteSize(ps[i])) + P.ByteSize(ps[i]) + PlayersSize(ps[i + 1..])
  {
    hide VarintSize, P.ByteSize;
    assert ps[i..][0] == ps[i] && ps[i..][1..] == ps[i + 1..];
  }

  lemma PlayersPartHead(ps: seq<P.Player>, i: nat)
    requires i < |ps|
    ensures PlayersPart(ps[i..]) == PlayerField(ps[i]) + PlayersPart(ps[i + 1..])
  {
    hide PlayerField;
    assert ps[i..][0] == ps[i] && ps[i..][1..] == ps[i + 1..];
  }

  lemma PlayerStepShrinks(utf8: Utf8Check, m: Login, b: seq<byte>)
    ensures StepWith(utf8, m, PLAYERS_TAG, b).Some? ==> |StepWith(utf8, m, PLAYERS_TAG, b).value.1| < |b|
  {
  }

  // InternalWriteMessage: tag, cached size of the nested message, message.
  method WritePlayer(p: P.Player, target: array<byte>, ptr: nat) returns (end: nat)
    requires P.Proper(p)
    requires ptr + |PlayerField(p)| <= target.Length
    modifies target
    ensures end == ptr + |PlayerField(p)|
    ensures target[..] == Splice(old(target[..]), ptr, PlayerField(p))
  {
    hide Encode, Splice, P.Serialize, P.ByteSize, P.Proper, P.KnownFields, ReadFields;
    P.ByteSizeIsExact(p);
    var cachedSize := P.ByteSize(p);
    end := PO.WriteVarintField(PLAYERS_TAG, cachedSize, target, ptr);
    var player := new PO.PlayerMsg();
    player.id, player.name, player.playerType, player.unknown := p.id, p.name, p.playerType, p.unknown;
    end := player.InternalSerialize(target, end);
    SpliceTwice(old(target[..]), ptr, Encode(PLAYERS_TAG) + Encode(cachedSize), P.Serialize(p));
    assert Encode(PLAYERS_TAG) + Encode(cachedSize) + P.Serialize(p) == PlayerField(p);
  }
}
