// The encoded index answers every lookup as the simple index would, over any
// run of successful adds and lookups that keeps the symbols an antichain.
module EncodedRefinement {
  import opened Wrappers
  import opened NameOrder
  import opened SortedVector
  import opened SymbolIndex
  import opened SymbolCompare
  import opened DescriptorFile
  import opened SimpleIndex
  import opened EncodedIndex

  // Symbols of a file are named.
  ghost predicate Named(items: seq<Item>) {
    forall i | 0 <= i < |items| && items[i].Symbol? :: items[i].name != ""
  }

  // The last file's package is in place and its entries can be compared.
  ghost predicate Ready<V>(x: Encoded<V>, f: File) {
    && |x.values| > 0
    && x.values[|x.values| - 1].package == f.package
    && ValidName(f.package)
    && EntriesOk(x.values, x.symbols.pending) && EntriesOk(x.values, x.symbols.flat)
  }

  // The state in which the entries of the last added file are registered.
  ghost predicate Filling<V>(x: Encoded<V>, m: Maps<int>, f: File) {
    Ready(x, f) && Represents(x, m)
  }

  // Both sides build the same dotted name, valid exactly when the symbol is.
  lemma SameDottedName<V>(x: Encoded<V>, f: File, symbol: string)
    requires |x.values| > 0 && x.values[|x.values| - 1].package == f.package && ValidName(f.package)
    ensures FullName(x.values, SymbolEntry(|x.values| - 1, symbol)) == Path(f) + symbol
    ensures ValidName(Path(f) + symbol) <==> ValidName(symbol)
  {
    var p := Path(f);
    assert forall i | 0 <= i < |p| :: ValidChar(p[i]);
    assert forall i | 0 <= i < |symbol| :: (p + symbol)[|p| + i] == symbol[i];
  }

  // NoConflict by members rather than positions.
  lemma NoConflictAsMembers(m: SymbolMap<int>, name: string)
    ensures NoConflict(m, name) <==> forall e | e in m :: !Encloses(e.0, name) && !Encloses(name, e.0)
  {
    if NoConflict(m, name) {
      forall e | e in m ensures !Encloses(e.0, name) && !Encloses(name, e.0) {
        var i :| 0 <= i < |m| && m[i] == e;
      }
    } else {
      var i :| 0 <= i < |m| && (Encloses(m[i].0, name) || Encloses(name, m[i].0));
      assert m[i] in m;
    }
  }

  // The encoded index applies the neighbour checks to each side.
  lemma EncodedAcceptsIff<V>(x: Encoded<V>, f: File, symbol: string)
    requires Ready(x, f) && symbol != ""
    ensures AddEncodedSymbol(x, symbol).ok
       <==> ValidName(symbol)
            && NeighboursAllow(View(x.values, x.symbols.pending), Path(f) + symbol)
            && NeighboursAllow(View(x.values, x.symbols.flat), Path(f) + symbol)
  {
    hide CheckForMutualSubsymbols, NeighboursAllow, InsertEntry;
    var probe := NameOf(x.values, SymbolEntry(|x.values| - 1, symbol));
    SameDottedName(x, f, symbol);
    CheckIsNeighbourCheck(x.values, x.symbols.pending, probe);
    CheckIsNeighbourCheck(x.values, x.symbols.flat, probe);
  }

  function Inserted<V>(x: Encoded<V>, symbol: string): Encoded<V> {
    x.(symbols := x.symbols.(pending := InsertEntry(x.values, x.symbols.pending, SymbolEntry(|x.values| - 1, symbol))))
  }

  // What an accepted name does to the pending side; nothing else changes.
  lemma EncodedInserts<V>(x: Encoded<V>, f: File, symbol: string)
    requires Ready(x, f) && symbol != ""
    ensures Ready(Inserted(x, symbol), f)
    ensures View(x.values, Inserted(x, symbol).symbols.pending)
         == Insert(View(x.values, x.symbols.pending), Path(f) + symbol, |x.values| - 1)
  {
    hide InsertEntry, Insert;
    var entry := SymbolEntry(|x.values| - 1, symbol);
    assert EntriesOk(x.values, [entry]);
    InsertEntryIsInsert(x.values, x.symbols.pending, entry);
    assert FullName(x.values, entry) == Path(f) + symbol by {
      SameDottedName(x, f, symbol);
    }
  }

  // A part of a sound map is sound.
  lemma PartIsSound(part: SymbolMap<int>, whole: SymbolMap<int>)
    requires Ordered(part) && Sound(whole)
    requires forall e | e in part :: e in whole
    ensures Sound(part)
  {
    AntichainAsMembers(whole);
    AntichainAsMembers(part);
    forall i | 0 <= i < |part| ensures ValidName(part[i].0) {
      assert part[i] in part;
      var j :| 0 <= j < |whole| && whole[j] == part[i];
    }
  }

  lemma PartHasNoConflict(part: SymbolMap<int>, whole: SymbolMap<int>, name: string)
    requires Sound(part) && ValidName(name)
    requires forall e | e in part :: e in whole
    requires NoConflict(whole, name)
    ensures NeighboursAllow(part, name)
  {
    NoConflictAsMembers(whole, name);
    NoConflictAsMembers(part, name);
    NeighbourChecksAreExact(part, name);
  }

  lemma BothSidesAllow(pending: SymbolMap<int>, flat: SymbolMap<int>, whole: SymbolMap<int>, name: string)
    requires Combines(Less, pending, flat, whole) && Sound(whole)
    requires ValidName(name) && NoConflict(whole, name)
    ensures NeighboursAllow(pending, name) && NeighboursAllow(flat, name) && NeighboursAllow(whole, name)
  {
    PartIsSound(pending, whole);
    PartIsSound(flat, whole);
    PartHasNoConflict(pending, whole, name);
    PartHasNoConflict(flat, whole, name);
    PartHasNoConflict(whole, whole, name);
  }

  lemma CombinesInsertByName(pending: SymbolMap<int>, flat: SymbolMap<int>, whole: SymbolMap<int>, name: string, value: int)
    requires Combines(Less, pending, flat, whole)
    requires !HasKey(pending, name) && !HasKey(flat, name)
    ensures Combines(Less, Insert(pending, name, value), flat, Insert(whole, name, value))
  {
    LessIsStrictOrder();
    CombinesInsert(Less, pending, flat, whole, (name, value));
  }

  // A name without conflict is accepted by both indexes, to the same effect.
  lemma SymbolStep<V>(x: Encoded<V>, m: Maps<int>, f: File, symbol: string)
    requires Filling(x, m, f) && Sound(m.bySymbol)
    requires symbol != "" && ValidName(symbol) && NoConflict(m.bySymbol, Path(f) + symbol)
    ensures var y := AddEncodedSymbol(x, symbol);
            var t := WithSymbol(m, Path(f) + symbol, |x.values| - 1);
            y.ok && t.ok && Filling(y.index, t.maps, f) && Sound(t.maps.bySymbol) && y.index.values == x.values
  {
    hide CheckForMutualSubsymbols, NeighboursAllow, InsertEntry, Insert;
    var name := Path(f) + symbol;
    var pending, flat := View(x.values, x.symbols.pending), View(x.values, x.symbols.flat);
    SameDottedName(x, f, symbol);
    BothSidesAllow(pending, flat, m.bySymbol, name);
    EncodedAcceptsIff(x, f, symbol);
    EncodedInserts(x, f, symbol);
    AllowedIsAbsent(pending, name);
    AllowedIsAbsent(flat, name);
    CombinesInsertByName(pending, flat, m.bySymbol, name, |x.values| - 1);
    AcceptedIsSound(m.bySymbol, name, |x.values| - 1);
    PutTogether(x, Inserted(x, symbol), m, WithSymbol(m, name, |x.values| - 1).maps);
  }

  lemma AcceptedIsSound(m: SymbolMap<int>, name: string, value: int)
    requires Sound(m) && ValidName(name) && NoConflict(m, name)
    ensures NeighboursAllow(m, name) && Sound(Insert(m, name, value))
  {
    NeighbourChecksAreExact(m, name);
    AcceptedKeepsAntichainIff(m, name, value);
  }

  // Changing only the symbols of both indexes.
  lemma PutTogether<V>(x: Encoded<V>, y: Encoded<V>, m: Maps<int>, n: Maps<int>)
    requires Represents(x, m)
    requires y == x.(symbols := y.symbols) && n == m.(bySymbol := n.bySymbol)
    requires EntriesOk(y.values, y.symbols.pending) && EntriesOk(y.values, y.symbols.flat)
    requires Combines(Less, View(y.values, y.symbols.pending), View(y.values, y.symbols.flat), n.bySymbol)
    ensures Represents(y, n)
  {
  }

  // All symbols of the split index, whichever side they are on.
  ghost predicate HasSymbol<V>(x: Encoded<V>, e: (string, int)) {
    e in View(x.values, x.symbols.pending) || e in View(x.values, x.symbols.flat)
  }

  // The antichain over both sides together.
  ghost predicate SymbolsApart<V>(x: Encoded<V>) {
    forall a, b | HasSymbol(x, a) && HasSymbol(x, b) && a.0 != b.0 :: !Encloses(a.0, b.0)
  }

  // Registering items only adds symbols.
  lemma {:induction false} ItemsOnlyAdd<V>(x: Encoded<V>, items: seq<Item>)
    requires EntriesOk(x.values, x.symbols.pending) && |x.values| > 0 && Named(items)
    ensures var y := AddEncodedItems(x, items).index;
            && y.values == x.values && y.symbols.flat == x.symbols.flat
            && EntriesOk(y.values, y.symbols.pending)
            && forall e | HasSymbol(x, e) :: HasSymbol(y, e)
    decreases |items|
  {
    if |items| != 0 {
      var a := AddEncodedItem(x, items[0]);
      if items[0].Symbol? && a.ok {
        var entry := SymbolEntry(|x.values| - 1, items[0].name);
        InsertEntryIsInsert(x.values, x.symbols.pending, entry);
        InsertMembers(Less, View(x.values, x.symbols.pending), (FullName(x.values, entry), entry.dataOffset));
      }
      if a.ok {
        ItemsOnlyAdd(a.index, items[1..]);
      }
    }
  }

  lemma ExtensionStep<V>(x: Encoded<V>, m: Maps<int>, f: File, field: Field)
    requires Filling(x, m, f)
    ensures AddEncodedExtension(x, field).ok <==> WithExtension(m, field, |x.values| - 1).ok
    ensures AddEncodedExtension(x, field).ok ==>
              Filling(AddEncodedExtension(x, field).index, WithExtension(m, field, |x.values| - 1).maps, f)
    ensures WithExtension(m, field, |x.values| - 1).maps.bySymbol == m.bySymbol
    ensures AddEncodedExtension(x, field).index.values == x.values
  {
    if FullyQualified(field) {
      KeyLessIsStrictOrder();
      InsertUnlessPresentIsInsert(KeyLess, x.extensions, m.byExtension, (KeyOf(field), |x.values| - 1));
      if AddEncodedExtension(x, field).ok {
        InsertKeepsOffsets(x.values, KeyLess, m.byExtension, (KeyOf(field), |x.values| - 1));
      }
    }
  }

  lemma InsertKeepsOffsets<V, K>(values: seq<FileValue<V>>, less: (K, K) -> bool, s: seq<(K, int)>, e: (K, int))
    requires OffsetsOk(values, s) && 0 <= e.1 < |values|
    ensures OffsetsOk(values, InsertSorted(less, s, e))
  {
  }

  // One item, registered by both.
  lemma ItemStep<V>(x: Encoded<V>, m: Maps<int>, f: File, item: Item)
    requires Filling(x, m, f) && Sound(m.bySymbol)
    requires item.Symbol? ==> item.name != "" && ValidName(item.name) && NoConflict(m.bySymbol, Path(f) + item.name)
    requires item.Extension? ==> AddEncodedItem(x, item).ok || WithItem(m, Path(f), item, |x.values| - 1).ok
    ensures var y := AddEncodedItem(x, item);
            var t := WithItem(m, Path(f), item, |x.values| - 1);
            y.ok && t.ok && Filling(y.index, t.maps, f) && Sound(t.maps.bySymbol) && y.index.values == x.values
  {
    if item.Symbol? {
      SymbolStep(x, m, f, item.name);
    } else {
      ExtensionStep(x, m, f, item.field);
    }
  }

  // Both indexes register the same items when the encoded one succeeds and
  // ends with its symbols apart.
  lemma {:induction false} ItemsAgree<V>(x: Encoded<V>, m: Maps<int>, f: File, items: seq<Item>)
    requires Filling(x, m, f) && Sound(m.bySymbol) && Named(items)
    requires AddEncodedItems(x, items).ok && SymbolsApart(AddEncodedItems(x, items).index)
    ensures var s := WithItems(m, Path(f), items, |x.values| - 1);
            s.ok && Represents(AddEncodedItems(x, items).index, s.maps) && Sound(s.maps.bySymbol)
    decreases |items|
  {
    hide AddEncodedItem, WithItem;
    if |items| != 0 {
      if items[0].Symbol? {
        NextSymbolHasNoConflict(x, m, f, items);
      }
      ItemStep(x, m, f, items[0]);
      ItemsAgree(AddEncodedItem(x, items[0]).index, WithItem(m, Path(f), items[0], |x.values| - 1).maps, f, items[1..]);
    }
  }

  lemma NextSymbolHasNoConflict<V>(x: Encoded<V>, m: Maps<int>, f: File, items: seq<Item>)
    requires Filling(x, m, f) && Sound(m.bySymbol) && Named(items)
    requires |items| > 0 && items[0].Symbol?
    requires AddEncodedItems(x, items).ok && SymbolsApart(AddEncodedItems(x, items).index)
    ensures ValidName(items[0].name) && NoConflict(m.bySymbol, Path(f) + items[0].name)
  {
    hide NeighboursAllow, CheckForMutualSubsymbols, InsertEntry, Encloses;
    var name := Path(f) + items[0].name;
    var a := AddEncodedItem(x, items[0]);
    EncodedAcceptsIff(x, f, items[0].name);
    EncodedInserts(x, f, items[0].name);
    var pending := View(x.values, x.symbols.pending);
    AllowedIsAbsent(pending, name);
    AllowedIsAbsent(View(x.values, x.symbols.flat), name);
    CombinedKeys(Less, pending, View(x.values, x.symbols.flat), m.bySymbol, name);
    InsertMembers(Less, pending, (name, |x.values| - 1));
    assert HasSymbol(a.index, (name, |x.values| - 1));
    ItemsOnlyAdd(a.index, items[1..]);
    NoConflictAsMembers(m.bySymbol, name);
    forall e | e in m.bySymbol ensures !Encloses(e.0, name) && !Encloses(name, e.0) {
      assert HasSymbol(x, e) && HasSymbol(a.index, e);
      assert (e.0, e.1) in m.bySymbol;
      assert e.0 != name;
    }
  }

  // Conversely, what the simple index accepts while staying sound, the
  // encoded one accepts as well.
  lemma {:induction false} ItemsAgreeBack<V>(x: Encoded<V>, m: Maps<int>, f: File, items: seq<Item>)
    requires Filling(x, m, f) && Sound(m.bySymbol) && Named(items)
    requires var s := WithItems(m, Path(f), items, |x.values| - 1); s.ok && Antichain(s.maps.bySymbol)
    ensures AddEncodedItems(x, items).ok
    ensures Represents(AddEncodedItems(x, items).index, WithItems(m, Path(f), items, |x.values| - 1).maps)
    decreases |items|
  {
    hide AddEncodedItem, WithItem;
    if |items| != 0 {
      var s := WithItem(m, Path(f), items[0], |x.values| - 1);
      if items[0].Symbol? {
        SameDottedName(x, f, items[0].name);
        SoundBackwards(m, items[0], |x.values| - 1, Path(f), items[1..]);
      }
      ItemStep(x, m, f, items[0]);
      ItemsAgreeBack(AddEncodedItem(x, items[0]).index, s.maps, f, items[1..]);
    }
  }

  lemma {:induction false} SimpleItemsOnlyAdd(m: Maps<int>, path: string, items: seq<Item>, value: int)
    requires Ordered(m.bySymbol)
    ensures var t := WithItems(m, path, items, value).maps.bySymbol;
            Ordered(t) && forall e | e in m.bySymbol :: e in t
    decreases |items|
  {
    if |items| != 0 {
      var a := WithItem(m, path, items[0], value);
      if items[0].Symbol? && a.ok {
        LessIsStrictOrder();
        AllowedIsAbsent(m.bySymbol, path + items[0].name);
        InsertKeepsSorted(Less, m.bySymbol, (path + items[0].name, value));
        InsertMembers(Less, m.bySymbol, (path + items[0].name, value));
      }
      if a.ok {
        SimpleItemsOnlyAdd(a.maps, path, items[1..], value);
      }
    }
  }

  // If the antichain holds after the rest was registered, the first name had
  // no conflict.
  lemma SoundBackwards(m: Maps<int>, item: Item, value: int, path: string, rest: seq<Item>)
    requires Sound(m.bySymbol) && item.Symbol? && WithItem(m, path, item, value).ok
    requires Antichain(WithItems(WithItem(m, path, item, value).maps, path, rest, value).maps.bySymbol)
    ensures ValidName(path + item.name) && NoConflict(m.bySymbol, path + item.name)
  {
    var name := path + item.name;
    var t := WithSymbol(m, name, value).maps;
    LessIsStrictOrder();
    AllowedIsAbsent(m.bySymbol, name);
    InsertKeepsSorted(Less, m.bySymbol, (name, value));
    InsertMembers(Less, m.bySymbol, (name, value));
    SimpleItemsOnlyAdd(t, path, rest, value);
    AntichainAsMembers(WithItems(t, path, rest, value).maps.bySymbol);
    NoConflictAsMembers(m.bySymbol, name);
    assert (name, value) in t.bySymbol;
    forall e | e in m.bySymbol ensures !Encloses(e.0, name) && !Encloses(name, e.0) {
      assert (e.0, e.1) in m.bySymbol;
    }
  }

  // ---------- files ----------

  // One more file leaves what the earlier entries stand for unchanged.
  lemma PushKeepsView<V>(values: seq<FileValue<V>>, v: FileValue<V>, s: seq<SymbolEntry>)
    requires EntriesOk(values, s)
    ensures EntriesOk(values + [v], s) && View(values + [v], s) == View(values, s)
  {
  }

  lemma PushKeepsRepresents<V>(x: Encoded<V>, m: Maps<int>, v: FileValue<V>)
    requires Represents(x, m)
    ensures Represents(x.(values := x.values + [v]), m)
  {
    PushKeepsView(x.values, v, x.symbols.pending);
    PushKeepsView(x.values, v, x.symbols.flat);
  }

  // The two indexes right after the file name went in.
  lemma NameStep<V>(x: Encoded<V>, m: Maps<int>, f: File, value: V)
    requires Represents(x, m) && ValidName(f.package)
    ensures InsertUnlessPresent(Less, x.names, (f.name, |x.values|)).0 <==> Find(Less, m.byName, f.name).None?
    ensures Find(Less, m.byName, f.name).None? ==>
              Filling(x.(values := x.values + [FileValue(value, f.package)],
                         names := InsertUnlessPresent(Less, x.names, (f.name, |x.values|)).1),
                      m.(byName := InsertSorted(Less, m.byName, (f.name, |x.values|))), f)
  {
    LessIsStrictOrder();
    PushKeepsRepresents(x, m, FileValue(value, f.package));
    InsertUnlessPresentIsInsert(Less, x.names, m.byName, (f.name, |x.values|));
    InsertKeepsOffsets(x.values + [FileValue(value, f.package)], Less, m.byName, (f.name, |x.values|));
  }

  // A file the encoded index accepts, leaving its symbols apart, is accepted
  // by the simple index to the same effect.
  lemma FileAgrees<V>(x: Encoded<V>, m: Maps<int>, f: File, value: V)
    requires Represents(x, m) && Sound(m.bySymbol) && Named(Items(f))
    requires AddEncodedFile(x, f, value).ok && SymbolsApart(AddEncodedFile(x, f, value).index)
    ensures var s := WithFile(m, f, |x.values|);
            s.ok && Represents(AddEncodedFile(x, f, value).index, s.maps) && Sound(s.maps.bySymbol)
  {
    NameStep(x, m, f, value);
    var named := x.(values := x.values + [FileValue(value, f.package)],
                    names := InsertUnlessPresent(Less, x.names, (f.name, |x.values|)).1);
    ItemsAgree(named, m.(byName := InsertSorted(Less, m.byName, (f.name, |x.values|))), f, Items(f));
  }

  // And the other way round, for files whose package name is valid.
  lemma FileAgreesBack<V>(x: Encoded<V>, m: Maps<int>, f: File, value: V)
    requires Represents(x, m) && Sound(m.bySymbol) && Named(Items(f)) && ValidName(f.package)
    requires WithFile(m, f, |x.values|).ok && Antichain(WithFile(m, f, |x.values|).maps.bySymbol)
    ensures AddEncodedFile(x, f, value).ok
    ensures Represents(AddEncodedFile(x, f, value).index, WithFile(m, f, |x.values|).maps)
  {
    NameStep(x, m, f, value);
    var named := x.(values := x.values + [FileValue(value, f.package)],
                    names := InsertUnlessPresent(Less, x.names, (f.name, |x.values|)).1);
    ItemsAgreeBack(named, m.(byName := InsertSorted(Less, m.byName, (f.name, |x.values|))), f, Items(f));
  }

  // ---------- lookups ----------

  // After flattening, each flat vector is the simple map itself, in order.
  lemma FlatIsWhole<V>(x: Encoded<V>, m: Maps<int>)
    requires Represents(x, m)
    ensures Represents(EnsureFlat(x), m)
    ensures EnsureFlat(x).names.flat == m.byName
    ensures View(x.values, EnsureFlat(x).symbols.flat) == m.bySymbol
    ensures EnsureFlat(x).extensions.flat == m.byExtension
  {
    LessIsStrictOrder();
    KeyLessIsStrictOrder();
    MergeEntriesIsMerge(x.values, x.symbols.pending, x.symbols.flat);
    MergeIsWhole(Less, x.names.pending, x.names.flat, m.byName);
    MergeIsWhole(Less, View(x.values, x.symbols.pending), View(x.values, x.symbols.flat), m.bySymbol);
    MergeIsWhole(KeyLess, x.extensions.pending, x.extensions.flat, m.byExtension);
  }

  lemma FlatLookup<V>(values: seq<FileValue<V>>, flat: seq<SymbolEntry>, s: string)
    requires EntriesOk(values, flat)
    ensures var i := FindLastEntry(values, flat, Plain(s));
            && i == FindLastLessOrEqual(View(values, flat), s)
            && (i < |flat| ==> 0 <= flat[i].dataOffset < |values|)
  {
    EntryBoundIsNameBound(values, flat, Plain(s));
  }

  lemma FlatSymbolAgrees<V>(x: Encoded<V>, m: Maps<int>, s: string)
    requires Represents(x, m)
    ensures FindFlatSymbol(EnsureFlat(x), s) == FindSymbol(m.bySymbol, s)
    ensures FindSymbol(m.bySymbol, s).Some? ==> 0 <= FindSymbol(m.bySymbol, s).value < |x.values|
  {
    FlatIsWhole(x, m);
    var y := EnsureFlat(x);
    assert y.values == x.values && EntriesOk(x.values, y.symbols.flat);
    FlatLookup(x.values, y.symbols.flat, s);
  }

  // ---------- runs ----------

  datatype Op<V> =
    | Add(file: File, value: V)
    | LookUpFile(name: string)
    | LookUpSymbol(name: string)
    | LookUpExtension(key: ExtensionKey)
    | LookUpNumbers(containing: string)

  datatype Answer<V> = Done | Found(file: Option<V>) | Numbers(numbers: seq<int>)

  function ValueAt<V>(values: seq<FileValue<V>>, offset: Option<int>): Option<V> {
    if offset.Some? && 0 <= offset.value < |values| then Some(values[offset.value].value) else None
  }

  function EncodedStep<V>(x: Encoded<V>, op: Op<V>): (bool, Encoded<V>, Answer<V>) {
    match op
    case Add(f, v) => var a := AddEncodedFile(x, f, v); (a.ok, a.index, Done)
    case LookUpFile(n) =>
      var y := EnsureFlat(x); (true, y, Found(ValueAt(y.values, Find(Less, y.names.flat, n))))
    case LookUpSymbol(n) =>
      var y := EnsureFlat(x); (true, y, Found(ValueAt(y.values, FindFlatSymbol(y, n))))
    case LookUpExtension(k) =>
      var y := EnsureFlat(x); (true, y, Found(ValueAt(y.values, Find(KeyLess, y.extensions.flat, k))))
    case LookUpNumbers(c) =>
      var y := EnsureFlat(x); (true, y, Numbers(AllExtensionNumbers(y.extensions.flat, c)))
  }

  // The simple database beside it: its maps hold positions in the list of
  // files added so far.
  datatype SimpleDb<V> = SimpleDb(maps: Maps<int>, values: seq<V>)

  function AtPosition<V>(values: seq<V>, p: Option<int>): Option<V> {
    if p.Some? && 0 <= p.value < |values| then Some(values[p.value]) else None
  }

  function SimpleStep<V>(d: SimpleDb<V>, op: Op<V>): (bool, SimpleDb<V>, Answer<V>) {
    match op
    case Add(f, v) =>
      var a := WithFile(d.maps, f, |d.values|); (a.ok, SimpleDb(a.maps, d.values + [v]), Done)
    case LookUpFile(n) => (true, d, Found(AtPosition(d.values, Find(Less, d.maps.byName, n))))
    case LookUpSymbol(n) => (true, d, Found(AtPosition(d.values, FindSymbol(d.maps.bySymbol, n))))
    case LookUpExtension(k) => (true, d, Found(AtPosition(d.values, Find(KeyLess, d.maps.byExtension, k))))
    case LookUpNumbers(c) => (true, d, Numbers(AllExtensionNumbers(d.maps.byExtension, c)))
  }

  // Every step of the run succeeds, names its symbols and leaves them apart.
  ghost predicate CleanRun<V>(x: Encoded<V>, ops: seq<Op<V>>)
    decreases |ops|
  {
    |ops| > 0 ==>
      && (ops[0].Add? ==> Named(Items(ops[0].file)))
      && EncodedStep(x, ops[0]).0
      && SymbolsApart(EncodedStep(x, ops[0]).1)
      && CleanRun(EncodedStep(x, ops[0]).1, ops[1..])
  }

  function EncodedAnswers<V>(x: Encoded<V>, ops: seq<Op<V>>): seq<Answer<V>>
    decreases |ops|
  {
    if |ops| == 0 then []
    else [EncodedStep(x, ops[0]).2] + EncodedAnswers(EncodedStep(x, ops[0]).1, ops[1..])
  }

  function SimpleAnswers<V>(d: SimpleDb<V>, ops: seq<Op<V>>): seq<Answer<V>>
    decreases |ops|
  {
    if |ops| == 0 then []
    else [SimpleStep(d, ops[0]).2] + SimpleAnswers(SimpleStep(d, ops[0]).1, ops[1..])
  }

  ghost predicate Coupled<V>(x: Encoded<V>, d: SimpleDb<V>) {
    && Represents(x, d.maps) && Sound(d.maps.bySymbol)
    && |d.values| == |x.values|
    && forall i | 0 <= i < |x.values| :: x.values[i].value == d.values[i]
  }

  lemma AddsAgree<V>(x: Encoded<V>, d: SimpleDb<V>, f: File, value: V)
    requires Coupled(x, d) && Named(Items(f))
    requires AddEncodedFile(x, f, value).ok && SymbolsApart(AddEncodedFile(x, f, value).index)
    ensures WithFile(d.maps, f, |d.values|).ok
    ensures Coupled(AddEncodedFile(x, f, value).index, SimpleDb(WithFile(d.maps, f, |d.values|).maps, d.values + [value]))
  {
    FileAgrees(x, d.maps, f, value);
    FileKeepsValues(x, f, value);
  }

  lemma LookupsAgree<V>(x: Encoded<V>, d: SimpleDb<V>, op: Op<V>)
    requires Coupled(x, d) && !op.Add?
    ensures Coupled(EnsureFlat(x), d)
    ensures EncodedStep(x, op).2 == SimpleStep(d, op).2
  {
    FlatIsWhole(x, d.maps);
    if op.LookUpSymbol? {
      FlatSymbolAgrees(x, d.maps, op.name);
    }
  }

  // A file the encoded database has accepted is found under its name, under
  // the full name of everything it declares at its top level and below, and
  // under every extension it declares at any depth.
  lemma EncodedFileIsFound<V(!new)>(x: Encoded<V>, d: SimpleDb<V>, f: File, value: V)
    requires Coupled(x, d) && Named(Items(f))
    requires AddEncodedFile(x, f, value).ok && SymbolsApart(AddEncodedFile(x, f, value).index)
    ensures var y := AddEncodedFile(x, f, value).index;
            && EncodedStep(y, LookUpFile(f.name)).2 == Found(Some(value))
            && (forall symbol, name | SymbolOf(f, symbol) && Encloses(symbol, name) ::
                  EncodedStep(y, LookUpSymbol(name)).2 == Found(Some(value)))
            && (forall containing, n | ExtensionOf(f, containing, n) ::
                  EncodedStep(y, LookUpExtension((containing, n))).2 == Found(Some(value)))
  {
    hide AddEncodedFile, WithFile, SymbolOf, ExtensionOf, FindSymbol, Find, Encloses, EncodedStep, Represents, SymbolsApart, Named,
      AllSorted;
    var y := AddEncodedFile(x, f, value).index;
    var e := SimpleDb(WithFile(d.maps, f, |d.values|).maps, d.values + [value]);
    AddsAgree(x, d, f, value);
    CoupledIsSorted(x, d);
    AddedFileIsFound(d.maps, f, |d.values|);
    LookupsAgree(y, e, LookUpFile(f.name));
    forall symbol, name | SymbolOf(f, symbol) && Encloses(symbol, name)
      ensures EncodedStep(y, LookUpSymbol(name)).2 == Found(Some(value))
    {
      LookupsAgree(y, e, LookUpSymbol(name));
    }
    forall containing, n | ExtensionOf(f, containing, n)
      ensures EncodedStep(y, LookUpExtension((containing, n))).2 == Found(Some(value))
    {
      LookupsAgree(y, e, LookUpExtension((containing, n)));
    }
  }

  lemma CoupledIsSorted<V>(x: Encoded<V>, d: SimpleDb<V>)
    requires Coupled(x, d)
    ensures AllSorted(d.maps)
  {
  }

  lemma StepsAgree<V>(x: Encoded<V>, d: SimpleDb<V>, op: Op<V>)
    requires Coupled(x, d)
    requires op.Add? ==> Named(Items(op.file))
    requires EncodedStep(x, op).0 && SymbolsApart(EncodedStep(x, op).1)
    ensures SimpleStep(d, op).0
    ensures Coupled(EncodedStep(x, op).1, SimpleStep(d, op).1)
    ensures EncodedStep(x, op).2 == SimpleStep(d, op).2
  {
    if op.Add? {
      AddsAgree(x, d, op.file, op.value);
    } else {
      LookupsAgree(x, d, op);
    }
  }

  lemma {:induction false} ItemsKeepValues<V>(x: Encoded<V>, items: seq<Item>)
    ensures AddEncodedItems(x, items).index.values == x.values
    decreases |items|
  {
    if |items| != 0 && AddEncodedItem(x, items[0]).ok {
      ItemsKeepValues(AddEncodedItem(x, items[0]).index, items[1..]);
    }
  }

  lemma FileKeepsValues<V>(x: Encoded<V>, f: File, value: V)
    requires ValidName(f.package)
    ensures AddEncodedFile(x, f, value).index.values == x.values + [FileValue(value, f.package)]
  {
    var named := x.(values := x.values + [FileValue(value, f.package)],
                    names := InsertUnlessPresent(Less, x.names, (f.name, |x.values|)).1);
    ItemsKeepValues(named, Items(f));
  }

  // Refinement over whole runs, from any pair of coupled states.
  lemma {:induction false} RunsAgree<V>(x: Encoded<V>, d: SimpleDb<V>, ops: seq<Op<V>>)
    requires Coupled(x, d) && CleanRun(x, ops)
    ensures EncodedAnswers(x, ops) == SimpleAnswers(d, ops)
    decreases |ops|
  {
    if |ops| != 0 {
      StepsAgree(x, d, ops[0]);
      RunsAgree(EncodedStep(x, ops[0]).1, SimpleStep(d, ops[0]).1, ops[1..]);
    }
  }

  // From the empty indexes on, the two databases cannot be told apart.
  lemma EncodedRefinesSimple<V>(ops: seq<Op<V>>)
    requires CleanRun(Encoded([], Split([], []), Split([], []), Split([], [])), ops)
    ensures EncodedAnswers(Encoded([], Split([], []), Split([], []), Split([], [])), ops)
         == SimpleAnswers(SimpleDb(Maps([], [], []), []), ops)
  {
    RunsAgree(Encoded([], Split([], []), Split([], []), Split([], [])), SimpleDb(Maps([], [], []), []), ops);
  }
}
