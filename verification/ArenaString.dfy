// The string fields of one message. A field is a tagged pointer, to the
// shared default string, to a string of its own on the heap, or to a string
// the message's arena will destroy.
module ArenaString {
  import opened Wrappers

  // The two low bits of a tagged pointer.
  const DEFAULT_TAG: int := 0
  const ALLOCATED_TAG: int := 2
  const MUTABLE_ARENA_TAG: int := 3

  function Tag(tagged: int): (t: int)
    ensures 0 <= t < 4
  {
    tagged % 4
  }

  function Pointer(tagged: int): (p: int)
    ensures p % 4 == 0 && tagged == p + Tag(tagged)
  {
    tagged - tagged % 4
  }

  function TagAs(tag: int, p: int): (tagged: int)
    requires 0 <= tag < 4 && p % 4 == 0
    ensures Tag(tagged) == tag && Pointer(tagged) == p
  {
    p + tag
  }

  lemma Tagged(p: int, tag: int)
    requires 0 <= tag < 4 && p % 4 == 0
    ensures Tag(p + tag) == tag && Pointer(p + tag) == p
  {
  }

  // as_int() ^ kAllocated has no tag left exactly for an allocated string.
  function GetIfAllocated(tagged: int): int {
    if Tag(tagged) == ALLOCATED_TAG then tagged - ALLOCATED_TAG else 0
  }

  // Who will delete a string: nobody (the shared default), the caller, a
  // field, or the arena, on which it may still serve a field.
  datatype Owner = Nobody | Caller | Field(field: nat) | Arena(serves: int)

  class StringFields {
    // The strings that live, by address.
    var strings: map<int, string>
    var fields: seq<int>
    // The shared default string, and whether the message is on an arena.
    const default: int
    const onArena: bool

    ghost var owner: map<int, Owner>

    predicate IsSet(i: nat)
      requires i < |fields|
      reads this
    {
      Tag(fields[i]) != DEFAULT_TAG
    }

    ghost predicate FieldOk(i: nat)
      requires i < |fields|
      reads this
    {
      var p := Pointer(fields[i]);
      if IsSet(i) then
        && Tag(fields[i]) == (if onArena then MUTABLE_ARENA_TAG else ALLOCATED_TAG)
        && p in owner && owner[p] == if onArena then Arena(i) else Field(i)
      else p == default
    }

    ghost predicate OwnerOk(p: int)
      requires p in owner
      reads this
    {
      match owner[p]
      case Nobody => p == default
      case Caller => true
      case Field(i) => !onArena && i < |fields| && fields[i] == p + ALLOCATED_TAG
      case Arena(i) => onArena && (i >= 0 ==> i < |fields| && fields[i] == p + MUTABLE_ARENA_TAG)
    }

    // Every living string has exactly one owner, and the default is empty.
    ghost predicate Valid()
      reads this
    {
      && owner.Keys == strings.Keys
      && default in strings && strings[default] == "" && owner[default] == Nobody
      && (forall i :: 0 <= i < |fields| ==> FieldOk(i))
      && (forall p :: p in owner ==> p > 0 && p % 4 == 0 && OwnerOk(p))
    }

    // None is a field that was never set: it reads as the empty string, and
    // releasing it gives null.
    ghost function Value(i: nat): Option<string>
      requires i < |fields|
      reads this
    {
      var p := Pointer(fields[i]);
      if IsSet(i) && p in strings then Some(strings[p]) else None
    }

    // The fields as plain variables.
    ghost function Values(): (vs: seq<Option<string>>)
      reads this
      ensures |vs| == |fields|
      ensures forall i :: 0 <= i < |fields| ==> vs[i] == Value(i)
    {
      seq(|fields|, i requires 0 <= i < |fields| reads this => Value(i))
    }

    // What the callers hold.
    ghost function Held(): map<int, string>
      reads this
    {
      map p | p in strings && p in owner && owner[p] == Caller :: strings[p]
    }

    // Where new may put a string.
    predicate Unused(p: int)
      reads this
    {
      p > 0 && p % 4 == 0 && p !in strings
    }

    // A message of n fields, none of them set.
    constructor (world: map<int, string>, n: nat, default: int, onArena: bool)
      requires default in world && world[default] == ""
      requires forall p :: p in world ==> p > 0 && p % 4 == 0
      ensures Valid() && this.default == default && this.onArena == onArena
      ensures |fields| == n && strings == world
      ensures forall i :: 0 <= i < n ==> Values()[i] == None
      ensures Held() == world - {default}
    {
      hide Tag, Pointer, Valid, Held, Values, Value;
      strings := world;
      fields := seq(n, _ => default);
      this.default, this.onArena := default, onArena;
      owner := map p | p in world :: if p == default then Nobody else Caller;
      new;
      NoneIsSet();
    }

    lemma NoneIsSet()
      requires default in strings && strings[default] == ""
      requires forall p :: p in strings ==> p > 0 && p % 4 == 0
      requires forall i :: 0 <= i < |fields| ==> fields[i] == default
      requires owner.Keys == strings.Keys
      requires forall p :: p in owner ==> owner[p] == if p == default then Nobody else Caller
      ensures Valid() && Held() == strings - {default}
      ensures forall i :: 0 <= i < |fields| ==> Values()[i] == None
    {
      hide Tag, Pointer;
      Tagged(default, DEFAULT_TAG);
    }

    // Get
    method Get(i: nat) returns (s: string)
      requires Valid() && i < |fields|
      ensures s == if Values()[i].Some? then Values()[i].value else ""
    {
      assert FieldOk(i);
      s := strings[Pointer(fields[i])];
    }

    // The caller makes a string of its own.
    method New(value: string, at: int)
      requires Valid() && Unused(at)
      modifies this
      ensures Valid() && |fields| == |old(fields)|
      ensures Values() == old(Values()) && Held() == old(Held())[at := value]
      ensures fields == old(fields) && at !in old(owner)
    {
      hide Tag, Pointer;
      strings := strings[at := value];
      owner := owner[at := Caller];
      forall k | 0 <= k < |fields| ensures FieldOk(k) && Value(k) == old(Values())[k] {
        assert old(FieldOk(k));
      }
      forall q | q in owner ensures q > 0 && q % 4 == 0 && OwnerOk(q) {
        assert q != at ==> old(OwnerOk(q));
      }
      assert Values() == old(Values());
      assert Held() == old(Held())[at := value];
    }

    // The field takes over a string of the caller's, which the arena destroys
    // if there is one.
    method InitAllocated(i: nat, value: int)
      requires Valid() && i < |fields| && !IsSet(i) && value in Held()
      modifies this
      ensures Valid() && |fields| == |old(fields)|
      ensures Values() == old(Values())[i := Some(old(Held())[value])] && Held() == old(Held()) - {value}
      ensures IsSet(i) && Pointer(fields[i]) == value
    {
      hide Tag, Pointer;
      fields := fields[i := TagAs(if onArena then MUTABLE_ARENA_TAG else ALLOCATED_TAG, value)];
      owner := owner[value := if onArena then Arena(i) else Field(i)];
      ghost var vs := old(Values())[i := Some(old(Held())[value])];
      forall k | 0 <= k < |fields| ensures FieldOk(k) && Value(k) == vs[k] {
        assert old(FieldOk(k));
      }
      forall q | q in owner ensures q > 0 && q % 4 == 0 && OwnerOk(q) {
        Tagged(q, ALLOCATED_TAG);
        Tagged(q, MUTABLE_ARENA_TAG);
        assert old(OwnerOk(q));
      }
      assert Values() == vs;
      assert Held() == old(Held()) - {value};
    }

    // NewString
    method NewString(i: nat, value: string, at: int) returns (p: int)
      requires Valid() && i < |fields| && !IsSet(i) && Unused(at)
      modifies this
      ensures Valid() && |fields| == |old(fields)|
      ensures Values() == old(Values())[i := Some(value)] && Held() == old(Held())
      ensures p == at && IsSet(i) && p == Pointer(fields[i])
    {
      hide FieldOk, OwnerOk, Tag, Pointer, Value, Values;
      New(value, at);
      InitAllocated(i, at);
      p := at;
    }

    // The caller's store through a pointer that Mutable gave, or the field's
    // own assign.
    method Assign(i: nat, p: int, value: string)
      requires Valid() && i < |fields| && IsSet(i) && p == Pointer(fields[i])
      modifies this`strings
      ensures Valid()
      ensures Values() == old(Values())[i := Some(value)] && Held() == old(Held())
    {
      hide Tag, Pointer;
      assert FieldOk(i);
      strings := strings[p := value];
      ghost var vs := old(Values())[i := Some(value)];
      forall k | 0 <= k < |fields| ensures FieldOk(k) && Value(k) == vs[k] {
        assert old(FieldOk(k));
      }
      forall q | q in owner ensures q > 0 && q % 4 == 0 && OwnerOk(q) {
        assert old(OwnerOk(q));
      }
      assert Values() == vs;
      assert Held() == old(Held());
    }

    // Set, from a view or by move
    method Set(i: nat, value: string, at: int)
      requires Valid() && i < |fields| && Unused(at)
      modifies this
      ensures Valid() && |fields| == |old(fields)|
      ensures Values() == old(Values())[i := Some(value)] && Held() == old(Held())
    {
      if Tag(fields[i]) == DEFAULT_TAG {
        var _ := NewString(i, value, at);
      } else {
        Assign(i, Pointer(fields[i]), value);
      }
    }

    // A pointer through which the caller may write the field.
    method Mutable(i: nat, at: int) returns (p: int)
      requires Valid() && i < |fields| && Unused(at)
      modifies this
      ensures Valid() && |fields| == |old(fields)|
      ensures IsSet(i) && p == Pointer(fields[i])
      ensures Values() == old(Values())[i := Some(if old(Values())[i].Some? then old(Values())[i].value else "")]
      ensures Held() == old(Held())
    {
      assert FieldOk(i);
      if Tag(fields[i]) >= 2 {
        return Pointer(fields[i]);
      }
      p := NewString(i, "", at);
    }

    method ClearToEmpty(i: nat)
      requires Valid() && i < |fields|
      modifies this`strings
      ensures Valid()
      ensures Values() == old(Values())[i := if old(Values())[i].Some? then Some("") else None]
      ensures Held() == old(Held())
    {
      assert FieldOk(i);
      if Tag(fields[i]) != DEFAULT_TAG {
        Assign(i, Pointer(fields[i]), "");
      }
    }

    // The caller deletes a string of its own.
    method Delete(p: int)
      requires Valid() && p in Held()
      modifies this
      ensures Valid() && |fields| == |old(fields)|
      ensures Values() == old(Values()) && Held() == old(Held()) - {p}
      ensures fields == old(fields) && strings == old(strings) - {p} && owner == old(owner) - {p}
    {
      hide Tag, Pointer;
      strings := strings - {p};
      owner := owner - {p};
      forall k | 0 <= k < |fields| ensures FieldOk(k) && Value(k) == old(Values())[k] {
        assert old(FieldOk(k));
      }
      forall q | q in owner ensures q > 0 && q % 4 == 0 && OwnerOk(q) {
        assert old(OwnerOk(q));
      }
      assert Values() == old(Values());
      assert Held() == old(Held()) - {p};
    }

    // The field as if it had never been set: a string of its own is now the
    // caller's, and one on the arena serves no field any more.
    method Detach(i: nat)
      requires Valid() && i < |fields|
      modifies this`fields, this`owner
      ensures Valid() && fields == old(fields)[i := default]
      ensures Values() == old(Values())[i := None]
      ensures var p := Pointer(old(fields)[i]);
              if Tag(old(fields)[i]) != DEFAULT_TAG then
                p in old(owner) && owner == old(owner)[p := if onArena then Arena(-1) else Caller]
              else owner == old(owner)
      ensures Held() == if old(Values())[i].Some? && !onArena
                        then old(Held())[Pointer(old(fields)[i]) := old(Values())[i].value] else old(Held())
    {
      hide Tag, Pointer;
      assert FieldOk(i);
      ghost var p := Pointer(fields[i]);
      owner := if IsSet(i) then owner[p := if onArena then Arena(-1) else Caller] else owner;
      fields := fields[i := default];
      Tagged(default, DEFAULT_TAG);
      ghost var vs := old(Values())[i := None];
      forall k | 0 <= k < |fields| ensures FieldOk(k) && Value(k) == vs[k] {
        assert old(FieldOk(k));
      }
      forall q | q in owner ensures q > 0 && q % 4 == 0 && OwnerOk(q) {
        assert old(OwnerOk(q));
      }
      assert Values() == vs;
      assert Held() == if old(Values())[i].Some? && !onArena then old(Held())[p := old(Values())[i].value] else old(Held());
    }

    // A string the caller may keep, or null for a field that was not set. On
    // an arena it is a copy at `at`, and what moving leaves behind stays with
    // the arena.
    method Release(i: nat, at: int, leftBehind: string) returns (released: int)
      requires Valid() && i < |fields| && Unused(at)
      modifies this
      ensures Valid() && |fields| == |old(fields)|
      ensures Values() == old(Values())[i := None]
      ensures old(Values())[i].None? ==> released == 0 && Held() == old(Held())
      ensures old(Values())[i].Some? ==> released != 0 && released !in old(Held()) &&
                                         Held() == old(Held())[released := old(Values())[i].value]
    {
      hide Tag, Pointer;
      assert FieldOk(i);
      if Tag(fields[i]) == DEFAULT_TAG {
        assert Values() == old(Values())[i := None];
        return 0;
      }
      released := Pointer(fields[i]);
      if Tag(fields[i]) % 2 == 1 {
        New(strings[released], at);
        Assign(i, released, leftBehind);
        released := at;
      }
      Detach(i);
    }

    // Destroy, with the field left as InitDefault leaves it.
    method DestroyAndInit(i: nat)
      requires Valid() && i < |fields|
      modifies this
      ensures Valid() && |fields| == |old(fields)| && fields == old(fields)[i := default]
      ensures Values() == old(Values())[i := None] && Held() == old(Held())
      ensures forall p :: p in strings <==> p in old(strings) && old(owner)[p] != Field(i)
      ensures forall p :: p in strings ==> strings[p] == old(strings)[p]
      ensures forall p :: p in owner ==>
                p in old(owner) && (owner[p] == old(owner)[p] || (owner[p].Arena? && old(owner)[p].Arena?))
    {
      hide Tag, Pointer;
      assert FieldOk(i);
      var p := GetIfAllocated(fields[i]);
      forall q | q in owner && owner[q] == Field(i) ensures q == p {
        assert OwnerOk(q);
      }
      Detach(i);
      if p != 0 {
        Delete(p);
      }
    }

    // The field takes over a string of the caller's; null leaves it not set.
    method SetAllocated(i: nat, value: int)
      requires Valid() && i < |fields| && (value == 0 || value in Held())
      modifies this
      ensures Valid() && |fields| == |old(fields)|
      ensures value == 0 ==> Values() == old(Values())[i := None] && Held() == old(Held())
      ensures value != 0 ==> Values() == old(Values())[i := Some(old(Held())[value])] && Held() == old(Held()) - {value}
    {
      DestroyAndInit(i);
      if value != 0 {
        InitAllocated(i, value);
        assert old(Values())[i := None][i := Some(old(Held())[value])] == old(Values())[i := Some(old(Held())[value])];
      }
    }

    ghost predicate OwnersAreFields()
      reads this
    {
      forall p :: p in owner && owner[p].Field? ==> owner[p].field < |fields|
    }

    lemma FieldsOwn()
      requires Valid()
      ensures OwnersAreFields()
    {
      hide Tag, Pointer, FieldOk;
      forall p | p in owner ensures owner[p].Field? ==> owner[p].field < |fields| {
        assert OwnerOk(p);
      }
    }

    // The message's destructor: what is left belongs to others.
    method DestroyAll()
      requires Valid()
      modifies this
      ensures Valid() && |fields| == |old(fields)| && Held() == old(Held())
      ensures forall p :: p in strings <==> p in old(strings) && !old(owner)[p].Field?
      ensures forall p :: p in strings ==> strings[p] == old(strings)[p]
    {
      hide Values, Value, Held, FieldOk, OwnerOk, Tag, Pointer;
      FieldsOwn();
      var i := 0;
      while i < |fields|
        invariant 0 <= i <= |fields| == |old(fields)|
        invariant Valid() && Held() == old(Held())
        invariant forall k :: i <= k < |fields| ==> fields[k] == old(fields)[k]
        invariant forall p :: p in strings <==> p in old(strings) && !(old(owner)[p].Field? && old(owner)[p].field < i)
        invariant forall p :: p in strings ==> strings[p] == old(strings)[p]
        invariant forall p :: p in owner ==>
                    owner[p] == old(owner)[p] || (owner[p].Arena? && old(owner)[p].Arena?)
      {
        DestroyAndInit(i);
        i := i + 1;
      }
    }
  }
}
