// The Player message object: fields updated in place by the generated code.
module PlayerObject {
  import opened Wrappers
  import opened Varint
  import opened VarintLoops
  import opened UnknownFields
  import opened MessageLoop
  import opened PlayerMessage

  method WriteVarintField(tag: nat, v: nat, target: array<byte>, ptr: nat) returns (end: nat)
    requires ptr + |Encode(tag) + Encode(v)| <= target.Length
    modifies target
    ensures end == ptr + |Encode(tag) + Encode(v)|
    ensures target[..] == Splice(old(target[..]), ptr, Encode(tag) + Encode(v))
  {
    hide Encode, Splice;
    var p := UnsafeVarint(tag, target, ptr);
    end := UnsafeVarint(v, target, p);
    SpliceTwice(old(target[..]), ptr, Encode(tag), Encode(v));
  }

  // A tag, a length prefix and the bytes themselves.
  method WriteDelimited(tag: nat, s: seq<byte>, target: array<byte>, ptr: nat) returns (end: nat)
    requires ptr + |Encode(tag) + (Encode(|s|) + s)| <= target.Length
    modifies target
    ensures end == ptr + |Encode(tag) + (Encode(|s|) + s)|
    ensures target[..] == Splice(old(target[..]), ptr, Encode(tag) + (Encode(|s|) + s))
  {
    hide Encode, Splice;
    var p := WriteVarintField(tag, |s|, target, ptr);
    end := WriteRaw(s, target, p);
    SpliceTwice(old(target[..]), ptr, Encode(tag) + Encode(|s|), s);
    assert Encode(tag) + Encode(|s|) + s == Encode(tag) + (Encode(|s|) + s);
  }

  // The tag tests of the switch: the field number first, then the low byte.
  lemma TagCases(tag: nat)
    ensures tag / 8 == 1 && tag % 256 == 8 <==> tag == ID_TAG
    ensures tag / 8 == 2 && tag % 256 == 18 <==> tag == NAME_TAG
    ensures tag / 8 == 3 && tag % 256 == 24 <==> tag == TYPE_TAG
  {
  }

  class PlayerMsg {
    var id: nat
    var name: seq<byte>
    var playerType: int32
    var unknown: seq<UnknownField>

    function Value(): Player
      reads this
    {
      Player(id, name, playerType, unknown)
    }

    constructor ()
      ensures Value() == EMPTY
    {
      id, name, playerType, unknown := 0, [], 0, [];
    }

    method Clear()
      modifies this
      ensures Value() == EMPTY
    {
      id, name, playerType, unknown := 0, [], 0, [];
    }

    // One pass of the tag switch.
    method ParseField1(utf8: Utf8Check, tag: nat, b: seq<byte>, ptr: nat) returns (next: Option<nat>)
      requires ptr <= |b|
      modifies this
      ensures next.None? <==> StepWith(utf8, old(Value()), tag, b[ptr..]).None?
      ensures next.Some? ==> ptr <= next.value <= |b|
                             && StepWith(utf8, old(Value()), tag, b[ptr..]) == Some((Value(), b[next.value..]))
    {
      TagCases(tag);
      hide ReadBytes, ReadVarint64, ParseField, ToInt32;
      if tag / 8 == 1 && tag % 256 == 8 {
        var v := VarintParse(b, ptr);
        if v.None? {
          return None;
        }
        id := v.value.0;
        return Some(v.value.1);
      } else if tag / 8 == 2 && tag % 256 == 18 {
        var s := ReadBytes(b[ptr..]);
        if s.None? || !utf8(s.value.0) {
          return None;
        }
        BytesSuffix(b[ptr..]);
        SuffixTransitive(s.value.1, b[ptr..], b);
        name := s.value.0;
        return Some(|b| - |s.value.1|);
      } else if tag / 8 == 3 && tag % 256 == 24 {
        var v := VarintParse(b, ptr);
        if v.None? {
          return None;
        }
        playerType := ToInt32(v.value.0);
        return Some(v.value.1);
      }
      if tag == 0 || tag % 8 == 4 {
        return None;
      }
      var f := ParseField(tag, b[ptr..]);
      if f.None? {
        return None;
      }
      FieldSuffix(tag, b[ptr..]);
      SuffixTransitive(f.value.1, b[ptr..], b);
      unknown := unknown + [f.value.0];
      return Some(|b| - |f.value.1|);
    }

    // Parses on top of the present contents; the contents after a failure are
    // whatever was read before it.
    method InternalParse(utf8: Utf8Check, b: seq<byte>) returns (ok: bool)
      modifies this
      ensures ok <==> ParseInto(utf8, old(Value()), b).Some?
      ensures ok ==> ParseInto(utf8, old(Value()), b) == Some(Value())
    {
      hide StepWith;
      var ptr := 0;
      assert b[0..] == b;
      while ptr < |b|
        invariant ptr <= |b|
        invariant ParseInto(utf8, old(Value()), b) == ParseInto(utf8, Value(), b[ptr..])
        decreases |b| - ptr
      {
        var t := TagParse(b, ptr);
        if t.None? {
          return false;
        }
        var next := ParseField1(utf8, t.value.0, b, t.value.1);
        if next.None? {
          return false;
        }
        ptr := next.value;
      }
      return true;
    }

    method InternalSerialize(target: array<byte>, ptr: nat) returns (end: nat)
      requires ptr + |Serialize(Value())| <= target.Length
      modifies target
      ensures end == ptr + |Serialize(Value())|
      ensures target[..] == Splice(old(target[..]), ptr, Serialize(Value()))
      ensures Proper(Value()) ==> ReadFields(target[ptr..end]) == Some(KnownFields(Value()) + Value().unknown)
    {
      hide Encode, Splice, SerializeAll, ReadFields, KnownFields, Proper;
      ghost var t := target[..];
      ghost var m := Value();
      SpliceNothing(t, ptr);
      end := ptr;
      if id != 0 {
        end := WriteVarintField(ID_TAG, id, target, end);
      }
      SpliceNothing(target[..], end);
      ghost var done := IdPart(m);
      if name != [] {
        end := WriteDelimited(NAME_TAG, name, target, end);
      }
      SpliceTwice(t, ptr, done, NamePart(m));
      done := done + NamePart(m);
      SpliceNothing(target[..], end);
      if playerType != 0 {
        end := WriteVarintField(TYPE_TAG, SignExtended(playerType), target, end);
      }
      SpliceTwice(t, ptr, done, TypePart(m));
      done := done + TypePart(m);
      var rest := SerializeAll(unknown);
      end := WriteRaw(rest, target, end);
      SpliceTwice(t, ptr, done, rest);
      SpliceMiddle(t, ptr, Serialize(m));
      if Proper(m) {
        WireForm(m);
      }
    }

    method ByteSizeLong() returns (total: nat)
      requires Proper(Value())
      ensures total == |Serialize(Value())|
    {
      ByteSizeIsExact(Value());
      total := 0;
      if name != [] {
        total := total + 1 + VarintSize(|name|) + |name|;
      }
      if id != 0 {
        total := total + VarintSize(id) + 1;
      }
      if playerType != 0 {
        total := total + 1 + VarintSize(SignExtended(playerType));
      }
      total := total + FieldsSize(unknown);
    }

    method MergeFrom(from: PlayerMsg)
      requires from != this
      modifies this
      ensures Value() == Merge(old(Value()), from.Value())
    {
      if from.name != [] {
        name := from.name;
      }
      if from.id != 0 {
        id := from.id;
      }
      if from.playerType != 0 {
        playerType := from.playerType;
      }
      unknown := unknown + from.unknown;
    }
  }
}
