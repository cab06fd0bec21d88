// The S_CHAT message object.
module ChatObject {
  import opened Wrappers
  import opened Varint
  import opened VarintLoops
  import opened UnknownFields
  import opened MessageLoop
  import opened ChatMessage
  import PO = PlayerObject

  lemma TagCases(tag: nat)
    ensures tag / 8 == 1 && tag % 256 == 8 <==> tag == ID_TAG
    ensures tag / 8 == 2 && tag % 256 == 18 <==> tag == MSG_TAG
  {
  }

  class ChatMsg {
    var playerId: nat
    var msg: seq<byte>
    var unknown: seq<UnknownField>

    function Value(): Chat
      reads this
    {
      Chat(playerId, msg, unknown)
    }

    constructor ()
      ensures Value() == EMPTY
    {
      playerId, msg, unknown := 0, [], [];
    }

    method ParseOne(utf8: Utf8Check, tag: nat, b: seq<byte>, ptr: nat) returns (next: Option<nat>)
      requires ptr <= |b|
      modifies this
      ensures next.None? <==> StepWith(utf8, old(Value()), tag, b[ptr..]).None?
      ensures next.Some? ==> ptr <= next.value <= |b|
                             && StepWith(utf8, old(Value()), tag, b[ptr..]) == Some((Value(), b[next.value..]))
    {
      TagCases(tag);
      hide ReadBytes, ReadVarint64, ParseField;
      if tag / 8 == 1 && tag % 256 == 8 {
        var v := VarintParse(b, ptr);
        if v.None? {
          return None;
        }
        playerId := v.value.0;
        return Some(v.value.1);
      } else if tag / 8 == 2 && tag % 256 == 18 {
        var s := ReadBytes(b[ptr..]);
        if s.None? || !utf8(s.value.0) {
          return None;
        }
        BytesSuffix(b[ptr..]);
        SuffixTransitive(s.value.1, b[ptr..], b);
        msg := s.value.0;
        return Some(|b| - |s.value.1|);
      }
      if tag == 0 || tag % 8 == 4 {
        return None;
      }
      var f := ParseField(tag, b[ptr..]);
      if f.None? {
        return None;
      }
      FieldSuffix(tag, b[ptr..]);
      SuffixTransitive(f.value.1, b[ptr..], b);
      unknown := unknown + [f.value.0];
      return Some(|b| - |f.value.1|);
    }

    method InternalParse(utf8: Utf8Check, b: seq<byte>) returns (ok: bool)
      modifies this
      ensures ok <==> ParseInto(utf8, old(Value()), b).Some?
      ensures ok ==> ParseInto(utf8, old(Value()), b) == Some(Value())
    {
      hide StepWith;
      var ptr := 0;
      assert b[0..] == b;
      while ptr < |b|
        invariant ptr <= |b|
        invariant ParseInto(utf8, old(Value()), b) == ParseInto(utf8, Value(), b[ptr..])
        decreases |b| - ptr
      {
        var t := TagParse(b, ptr);
        if t.None? {
          return false;
        }
        var next := ParseOne(utf8, t.value.0, b, t.value.1);
        if next.None? {
          return false;
        }
        ptr := next.value;
      }
      return true;
    }

    method InternalSerialize(target: array<byte>, ptr: nat) returns (end: nat)
      requires ptr + |Serialize(Value())| <= target.Length
      modifies target
      ensures end == ptr + |Serialize(Value())|
      ensures target[..] == Splice(old(target[..]), ptr, Serialize(Value()))
      ensures Proper(Value()) ==> ReadFields(target[ptr..end]) == Some(KnownFields(Value()) + Value().unknown)
    {
      hide Encode, Splice, SerializeAll, ReadFields, KnownFields, Proper;
      ghost var t := target[..];
      ghost var m := Value();
      SpliceNothing(t, ptr);
      end := ptr;
      if playerId != 0 {
        end := PO.WriteVarintField(ID_TAG, playerId, target, end);
      }
      SpliceNothing(target[..], end);
      if msg != [] {
        end := PO.WriteDelimited(MSG_TAG, msg, target, end);
      }
      SpliceTwice(t, ptr, IdPart(m), MsgPart(m));
      var rest := SerializeAll(unknown);
      end := WriteRaw(rest, target, end);
      SpliceTwice(t, ptr, IdPart(m) + MsgPart(m), rest);
      SpliceMiddle(t, ptr, Serialize(m));
      if Proper(m) {
        WireForm(m);
      }
    }

    method ByteSizeLong() returns (total: nat)
      requires Proper(Value())
      ensures total == |Serialize(Value())|
    {
      ByteSizeIsExact(Value());
      total := 0;
      if msg != [] {
        total := total + 1 + VarintSize(|msg|) + |msg|;
      }
      if playerId != 0 {
        total := total + VarintSize(playerId) + 1;
      }
      total := total + FieldsSize(unknown);
    }

    method MergeFrom(from: ChatMsg)
      requires from != this
      modifies this
      ensures Value() == Merge(old(Value()), from.Value())
    {
      if from.msg != [] {
        msg := from.msg;
      }
      if from.playerId != 0 {
        playerId := from.playerId;
      }
      unknown := unknown + from.unknown;
    }
  }
}
