// The symbol map of SimpleDescriptorDatabase: finding the enclosing symbol of
// a name with one ordered lookup, and keeping the map free of nested symbols.
module SymbolIndex {
  import opened Wrappers
  import opened NameOrder
  import opened SortedVector

  // The map in iteration order.
  type SymbolMap<V> = seq<(string, V)>

  ghost predicate Ordered<V>(m: SymbolMap<V>) {
    Sorted(Less, m)
  }

  ghost predicate AllValid<V>(m: SymbolMap<V>) {
    forall i | 0 <= i < |m| :: ValidName(m[i].0)
  }

  // No key is a dotted parent of another key.
  ghost predicate Antichain<V>(m: SymbolMap<V>) {
    forall i, j | 0 <= i < |m| && 0 <= j < |m| && i != j :: !Encloses(m[i].0, m[j].0)
  }

  // What the index is meant to satisfy at all times.
  ghost predicate Sound<V>(m: SymbolMap<V>) {
    Ordered(m) && AllValid(m) && Antichain(m)
  }

  // No key encloses the name and the name encloses no key.
  ghost predicate NoConflict<V>(m: SymbolMap<V>, name: string) {
    forall i | 0 <= i < |m| :: !Encloses(m[i].0, name) && !Encloses(name, m[i].0)
  }

  // The position of the last key that is at most the name; position 0, even
  // though its key is beyond the name, when there is no such key; and the end
  // only for the empty map.
  function FindLastLessOrEqual<V>(m: SymbolMap<V>, name: string): (i: nat)
    ensures i <= |m|
  {
    var u := UpperBound(Less, m, name);
    if u != 0 then u - 1 else u
  }

  function FindSymbol<V>(m: SymbolMap<V>, name: string): (r: Option<V>)
  {
    var i := FindLastLessOrEqual(m, name);
    if i != |m| && Encloses(m[i].0, name) then Some(m[i].1) else None
  }

  // The two neighbour checks of AddSymbol.
  predicate NeighboursAllow<V>(m: SymbolMap<V>, name: string) {
    var i := FindLastLessOrEqual(m, name);
    i == |m| || (!Encloses(m[i].0, name) && (i + 1 == |m| || !Encloses(name, m[i + 1].0)))
  }

  function Insert<V>(m: SymbolMap<V>, name: string, value: V): SymbolMap<V> {
    InsertSorted(Less, m, (name, value))
  }

  // The one situation in which the neighbour checks look past a child of the
  // new name: every key is beyond the name, the first one is its child and
  // the second one is not.
  predicate Overlooked<V>(m: SymbolMap<V>, name: string) {
    && |m| > 0
    && Less(name, m[0].0)
    && Encloses(name, m[0].0)
    && (|m| == 1 || !Encloses(name, m[1].0))
  }

  lemma LessIsStrictOrder()
    ensures StrictOrder(Less)
  {
    forall a ensures !Less(a, a) {
      LessIrreflexive(a);
    }
    forall a, b, c | Less(a, b) && Less(b, c) ensures Less(a, c) {
      LessTransitive(a, b, c);
    }
    forall a, b ensures a == b || Less(a, b) || Less(b, a) {
      LessTotal(a, b);
    }
  }

  lemma BoundSplits<V>(m: SymbolMap<V>, name: string)
    requires Ordered(m)
    ensures var u := UpperBound(Less, m, name);
            && (forall i | 0 <= i < u :: AtMost(m[i].0, name))
            && (forall i | u <= i < |m| :: Less(name, m[i].0))
  {
    LessIsStrictOrder();
    UpperBoundSplits(Less, m, name);
  }

  // Steps (1) to (9) of the header: the key that encloses s is the last key
  // that is at most s. The searched name is arbitrary, only keys are valid.
  lemma EncloserIsFound<V>(m: SymbolMap<V>, s: string, i: nat)
    requires Sound(m)
    requires i < |m| && Encloses(m[i].0, s)
    ensures FindLastLessOrEqual(m, s) == i
  {
    BoundSplits(m, s);
    EnclosesAtMost(m[i].0, s);
    var f := FindLastLessOrEqual(m, s);
    if i < f {
      BetweenIsEnclosed(m[i].0, m[f].0, s);
      assert false;
    }
  }

  // FindSymbol returns the value of the unique key that is s or a dotted
  // parent of s, and nothing exactly when there is no such key.
  lemma FindSymbolIsExact<V>(m: SymbolMap<V>, s: string)
    requires Sound(m)
    ensures forall i | 0 <= i < |m| && Encloses(m[i].0, s) :: FindSymbol(m, s) == Some(m[i].1)
    ensures forall i, j | 0 <= i < |m| && 0 <= j < |m| && Encloses(m[i].0, s) && Encloses(m[j].0, s) :: i == j
    ensures FindSymbol(m, s).None? <==> forall i | 0 <= i < |m| :: !Encloses(m[i].0, s)
  {
    forall i | 0 <= i < |m| && Encloses(m[i].0, s)
      ensures FindLastLessOrEqual(m, s) == i
    {
      EncloserIsFound(m, s, i);
    }
  }

  // Without the antichain the lookup does miss symbols that are there.
  lemma NestedKeysBreakLookup()
    ensures var m := [("a", 1), ("a.b", 2)];
            Ordered(m) && AllValid(m) && Encloses(m[0].0, "a.c") && FindSymbol(m, "a.c") == None
  {
    var m := [("a", 1), ("a.b", 2)];
    LessFrom("a", "a.b", 1);
    LessFrom("a.b", "a.c", 2);
    EnclosesAtMost("a", "a.c");
    BoundSplits(m, "a.c");
  }

  // A child of the name is preceded only by children among the keys beyond
  // the name, so the first key beyond it decides.
  lemma FirstBeyondDecides<V>(m: SymbolMap<V>, name: string, g: nat, c: nat)
    requires Ordered(m) && AllValid(m)
    requires g <= c < |m|
    requires Less(name, m[g].0) && Encloses(name, m[c].0)
    ensures Encloses(name, m[g].0)
  {
    if g < c {
      LessAsymmetric(m[g].0, m[c].0);
      BetweenIsEnclosed(name, m[g].0, m[c].0);
    }
  }

  // With every key beyond the name, conflicts can only be children of it.
  lemma ConflictsBeyond<V>(m: SymbolMap<V>, name: string)
    requires Sound(m) && ValidName(name)
    requires |m| > 0 && UpperBound(Less, m, name) == 0
    ensures !Encloses(m[0].0, name)
    ensures NoConflict(m, name) <==> !Encloses(name, m[0].0)
  {
    BoundSplits(m, name);
    forall i | 0 <= i < |m| ensures !Encloses(m[i].0, name) && (Encloses(name, m[i].0) ==> Encloses(name, m[0].0)) {
      if Encloses(m[i].0, name) {
        EnclosesAtMost(m[i].0, name);
      }
      if Encloses(name, m[i].0) {
        FirstBeyondDecides(m, name, 0, i);
      }
    }
  }

  // Otherwise they are the last key at most the name, or a child of the name
  // announced by the first key beyond it.
  lemma ConflictsAround<V>(m: SymbolMap<V>, name: string)
    requires Sound(m) && ValidName(name)
    requires UpperBound(Less, m, name) > 0
    ensures var u := UpperBound(Less, m, name);
            NoConflict(m, name) <==> !Encloses(m[u - 1].0, name) && (u == |m| || !Encloses(name, m[u].0))
  {
    var u := UpperBound(Less, m, name);
    BoundSplits(m, name);
    forall i | 0 <= i < |m|
      ensures Encloses(m[i].0, name) ==> i == u - 1
      ensures Encloses(name, m[i].0) ==> Encloses(m[u - 1].0, name) || (u < |m| && Encloses(name, m[u].0))
    {
      if Encloses(m[i].0, name) {
        EncloserIsFound(m, name, i);
      }
      if Encloses(name, m[i].0) {
        EnclosesAtMost(name, m[i].0);
        if i < u {
          assert m[i].0 == name;
          EncloserIsFound(m, name, i);
        } else {
          FirstBeyondDecides(m, name, u, i);
        }
      }
    }
  }

  // The checks answer exactly "no conflict", except in the overlooked
  // situation, where they always answer yes although the first key conflicts.
  lemma NeighbourChecksAreExact<V>(m: SymbolMap<V>, name: string)
    requires Sound(m) && ValidName(name)
    ensures NeighboursAllow(m, name) <==> NoConflict(m, name) || Overlooked(m, name)
    ensures Overlooked(m, name) ==> !NoConflict(m, name)
  {
    BoundSplits(m, name);
    if UpperBound(Less, m, name) > 0 {
      ConflictsAround(m, name);
    } else if |m| > 0 {
      ConflictsBeyond(m, name);
      if NeighboursAllow(m, name) && !NoConflict(m, name) {
        assert Overlooked(m, name);
      }
      if 1 < |m| && Encloses(name, m[1].0) {
        FirstBeyondDecides(m, name, 0, 1);
      }
    }
  }

  lemma AllowedIsAbsent<V(!new)>(m: SymbolMap<V>, name: string)
    requires Ordered(m) && NeighboursAllow(m, name)
    ensures !HasKey(m, name)
  {
    LessIsStrictOrder();
    BoundSplits(m, name);
    LessIrreflexive(name);
    forall i | 0 <= i < |m| ensures m[i].0 != name {
      if i != FindLastLessOrEqual(m, name) {
        LessTotal(m[i].0, name);
      }
    }
  }

  lemma AntichainAsMembers<V(!new)>(m: SymbolMap<V>)
    requires Ordered(m)
    ensures Antichain(m) <==> forall x, y | x in m && y in m && x.0 != y.0 :: !Encloses(x.0, y.0)
  {
    LessIsStrictOrder();
    if Antichain(m) {
      forall x, y | x in m && y in m && x.0 != y.0 ensures !Encloses(x.0, y.0) {
        var i :| 0 <= i < |m| && m[i] == x;
        var j :| 0 <= j < |m| && m[j] == y;
      }
    } else {
      var i, j :| 0 <= i < |m| && 0 <= j < |m| && i != j && Encloses(m[i].0, m[j].0);
      assert m[i] in m && m[j] in m && m[i].0 != m[j].0;
    }
  }

  // An accepted name keeps the index sound exactly when it was not the
  // overlooked case; in that case the antichain is lost at once.
  lemma AcceptedKeepsAntichainIff<V(!new)>(m: SymbolMap<V>, name: string, value: V)
    requires Sound(m) && ValidName(name) && NeighboursAllow(m, name)
    ensures Ordered(Insert(m, name, value)) && AllValid(Insert(m, name, value))
    ensures Antichain(Insert(m, name, value)) <==> !Overlooked(m, name)
  {
    var t := Insert(m, name, value);
    assert Ordered(t) by {
      LessIsStrictOrder();
      AllowedIsAbsent(m, name);
      InsertKeepsSorted(Less, m, (name, value));
    }
    InsertMembers(Less, m, (name, value));
    NeighbourChecksAreExact(m, name);
    AntichainAsMembers(t);
    assert (name, value) in t;
    if Overlooked(m, name) {
      LessIrreflexive(name);
      assert m[0] in t && Encloses(name, m[0].0) && m[0].0 != name;
    } else {
      assert NoConflict(m, name);
      AntichainAsMembers(m);
    }
  }

  // The smallest instance: "foo" is accepted beside "foo.bar".
  lemma OverlookedExample()
    ensures var m := [("foo.bar", 1)];
            Sound(m) && ValidName("foo") && NeighboursAllow(m, "foo") && !Antichain(Insert(m, "foo", 2))
  {
    var m := [("foo.bar", 1)];
    LessFrom("foo", "foo.bar", 3);
    AcceptedKeepsAntichainIff(m, "foo", 2);
  }

  // The variant that does not step past the first key when that key is
  // already beyond the name.
  predicate SteadyNeighboursAllow<V>(m: SymbolMap<V>, name: string) {
    var u := UpperBound(Less, m, name);
    && (u == 0 || !Encloses(m[u - 1].0, name))
    && (u == |m| || !Encloses(name, m[u].0))
  }

  // For that variant success means exactly "no conflict", without a side
  // condition, and the index stays sound.
  lemma SteadyChecksAreExact<V(!new)>(m: SymbolMap<V>, name: string, value: V)
    requires Sound(m) && ValidName(name)
    ensures SteadyNeighboursAllow(m, name) <==> NoConflict(m, name)
    ensures SteadyNeighboursAllow(m, name) ==> Sound(Insert(m, name, value))
  {
    BoundSplits(m, name);
    NeighbourChecksAreExact(m, name);
    if UpperBound(Less, m, name) > 0 {
      ConflictsAround(m, name);
    } else if |m| > 0 {
      ConflictsBeyond(m, name);
    }
    if SteadyNeighboursAllow(m, name) {
      AcceptedKeepsAntichainIff(m, name, value);
    }
  }
}
