// EncodedDescriptorDatabase::DescriptorIndex: every map is split into a
// pending set and a flat sorted vector, merged before each lookup. Entries
// name their file by its position in all_values_.
module EncodedIndex {
  import opened Wrappers
  import opened NameOrder
  import opened SortedVector
  import opened SymbolIndex
  import opened SymbolCompare
  import opened DescriptorFile
  import opened SimpleIndex

  datatype FileValue<V> = FileValue(value: V, package: string)

  datatype SymbolEntry = SymbolEntry(dataOffset: int, symbol: string)

  datatype Split<T> = Split(pending: seq<T>, flat: seq<T>)

  datatype Encoded<V> = Encoded(
    values: seq<FileValue<V>>,
    names: Split<(string, int)>,
    symbols: Split<SymbolEntry>,
    extensions: Split<(ExtensionKey, int)>)

  datatype EncodedAdded<V> = EncodedAdded(ok: bool, index: Encoded<V>)

  function PackageAt<V>(values: seq<FileValue<V>>, offset: int): string {
    if 0 <= offset < |values| then values[offset].package else ""
  }

  function NameOf<V>(values: seq<FileValue<V>>, e: SymbolEntry): Name {
    Entry(PackageAt(values, e.dataOffset), e.symbol)
  }

  function FullName<V>(values: seq<FileValue<V>>, e: SymbolEntry): string {
    AsString(NameOf(values, e))
  }

  // FindLastLessOrEqual with SymbolCompare over a container of entries.
  function FindLastEntry<V>(values: seq<FileValue<V>>, s: seq<SymbolEntry>, probe: Name): (i: nat)
    ensures i <= |s|
  {
    var u := EntryUpperBound(values, s, probe);
    if u != 0 then u - 1 else u
  }

  function EntryUpperBound<V>(values: seq<FileValue<V>>, s: seq<SymbolEntry>, probe: Name): (i: nat)
    ensures i <= |s|
  {
    PartitionPoint(s, (e: SymbolEntry) => !Compare(probe, NameOf(values, e)))
  }

  predicate CheckForMutualSubsymbols<V>(values: seq<FileValue<V>>, s: seq<SymbolEntry>, probe: Name) {
    var i := FindLastEntry(values, s, probe);
    i == |s|
    || (!Encloses(FullName(values, s[i]), AsString(probe))
        && (i + 1 == |s| || !Encloses(AsString(probe), FullName(values, s[i + 1]))))
  }

  function InsertEntry<V>(values: seq<FileValue<V>>, s: seq<SymbolEntry>, e: SymbolEntry): seq<SymbolEntry> {
    var u := EntryUpperBound(values, s, NameOf(values, e));
    s[..u] + [e] + s[u..]
  }

  function AddEncodedSymbol<V>(x: Encoded<V>, symbol: string): EncodedAdded<V> {
    var entry := SymbolEntry(|x.values| - 1, symbol);
    var probe := NameOf(x.values, entry);
    if !ValidName(symbol) then EncodedAdded(false, x)
    else if !CheckForMutualSubsymbols(x.values, x.symbols.pending, probe) then EncodedAdded(false, x)
    else if !CheckForMutualSubsymbols(x.values, x.symbols.flat, probe) then EncodedAdded(false, x)
    else EncodedAdded(true, x.(symbols := x.symbols.(pending := InsertEntry(x.values, x.symbols.pending, entry))))
  }

  // Insert into the pending set unless it is there, then refuse what the flat
  // vector already holds; the pending copy stays behind in that case.
  function InsertUnlessPresent<K(==)>(less: (K, K) -> bool, s: Split<(K, int)>, e: (K, int)): (bool, Split<(K, int)>) {
    if Find(less, s.pending, e.0).Some? then (false, s)
    else (Find(less, s.flat, e.0).None?, s.(pending := InsertSorted(less, s.pending, e)))
  }

  function AddEncodedExtension<V>(x: Encoded<V>, f: Field): EncodedAdded<V> {
    if !FullyQualified(f) then EncodedAdded(true, x)
    else
      var (ok, s) := InsertUnlessPresent(KeyLess, x.extensions, (KeyOf(f), |x.values| - 1));
      EncodedAdded(ok, x.(extensions := s))
  }

  function AddEncodedItem<V>(x: Encoded<V>, item: Item): EncodedAdded<V> {
    match item
    case Symbol(name) => AddEncodedSymbol(x, name)
    case Extension(field) => AddEncodedExtension(x, field)
  }

  function AddEncodedItems<V>(x: Encoded<V>, items: seq<Item>): EncodedAdded<V>
    decreases |items|
  {
    if |items| == 0 then EncodedAdded(true, x)
    else
      var a := AddEncodedItem(x, items[0]);
      if a.ok then AddEncodedItems(a.index, items[1..]) else a
  }

  function AddEncodedFile<V>(x: Encoded<V>, f: File, value: V): EncodedAdded<V> {
    if !ValidName(f.package) then
      EncodedAdded(false, x.(values := x.values + [FileValue(value, "")]))
    else
      var pushed := x.(values := x.values + [FileValue(value, f.package)]);
      var (ok, names) := InsertUnlessPresent(Less, x.names, (f.name, |x.values|));
      var named := pushed.(names := names);
      if ok then AddEncodedItems(named, Items(f)) else EncodedAdded(false, named)
  }

  // std::merge by SymbolCompare.
  function MergeEntries<V>(values: seq<FileValue<V>>, a: seq<SymbolEntry>, b: seq<SymbolEntry>): seq<SymbolEntry>
    decreases |a| + |b|
  {
    if |a| == 0 then b
    else if |b| == 0 then a
    else if Compare(NameOf(values, b[0]), NameOf(values, a[0])) then [b[0]] + MergeEntries(values, a, b[1..])
    else [a[0]] + MergeEntries(values, a[1..], b)
  }

  function EnsureFlat<V>(x: Encoded<V>): Encoded<V> {
    Encoded(
      x.values,
      Split([], Merge(Less, x.names.pending, x.names.flat)),
      Split([], MergeEntries(x.values, x.symbols.pending, x.symbols.flat)),
      Split([], Merge(KeyLess, x.extensions.pending, x.extensions.flat)))
  }

  // FindSymbolOnlyFlat, as the position of the file.
  function FindFlatSymbol<V>(x: Encoded<V>, s: string): Option<int> {
    var i := FindLastEntry(x.values, x.symbols.flat, Plain(s));
    if i != |x.symbols.flat| && Encloses(FullName(x.values, x.symbols.flat[i]), s)
    then Some(x.symbols.flat[i].dataOffset) else None
  }

  // The entries of a container as (dotted name, file position) pairs.
  function View<V>(values: seq<FileValue<V>>, s: seq<SymbolEntry>): (v: SymbolMap<int>)
    ensures |v| == |s|
    ensures forall i | 0 <= i < |s| :: v[i] == (FullName(values, s[i]), s[i].dataOffset)
  {
    seq(|s|, i requires 0 <= i < |s| => (FullName(values, s[i]), s[i].dataOffset))
  }

  // whole holds what pending and flat hold together, each key once.
  ghost predicate Combines<K(!new), V(!new)>(less: (K, K) -> bool, pending: seq<(K, V)>, flat: seq<(K, V)>, whole: seq<(K, V)>) {
    && Sorted(less, pending) && Sorted(less, flat) && Sorted(less, whole)
    && (forall i, j | 0 <= i < |pending| && 0 <= j < |flat| :: pending[i].0 != flat[j].0)
    && (forall x :: x in whole <==> x in pending || x in flat)
  }

  ghost predicate EntriesOk<V>(values: seq<FileValue<V>>, s: seq<SymbolEntry>) {
    forall i | 0 <= i < |s| :: 0 <= s[i].dataOffset < |values| && Proper(NameOf(values, s[i]))
  }

  ghost predicate OffsetsOk<K, V>(values: seq<FileValue<V>>, s: seq<(K, int)>) {
    forall i | 0 <= i < |s| :: 0 <= s[i].1 < |values|
  }

  // The split index x stands for the simple index m, whose value for a file
  // is the position of that file among the files added.
  ghost predicate Represents<V>(x: Encoded<V>, m: Maps<int>) {
    && EntriesOk(x.values, x.symbols.pending) && EntriesOk(x.values, x.symbols.flat)
    && OffsetsOk(x.values, m.byName) && OffsetsOk(x.values, m.byExtension)
    && Combines(Less, x.names.pending, x.names.flat, m.byName)
    && Combines(Less, View(x.values, x.symbols.pending), View(x.values, x.symbols.flat), m.bySymbol)
    && Combines(KeyLess, x.extensions.pending, x.extensions.flat, m.byExtension)
  }

  // ---------- containers ----------

  lemma PartitionPointsAgree<T, U>(s: seq<T>, p: T -> bool, t: seq<U>, q: U -> bool)
    requires |s| == |t|
    requires forall i | 0 <= i < |s| :: p(s[i]) == q(t[i])
    ensures PartitionPoint(s, p) == PartitionPoint(t, q)
  {
    var i, j := PartitionPoint(s, p), PartitionPoint(t, q);
    assert i < |s| ==> p(s[i]) == q(t[i]);
    assert j < |s| ==> p(s[j]) == q(t[j]);
  }

  lemma EntryBoundIsNameBound<V>(values: seq<FileValue<V>>, s: seq<SymbolEntry>, probe: Name)
    requires EntriesOk(values, s) && Proper(probe)
    ensures EntryUpperBound(values, s, probe) == UpperBound(Less, View(values, s), AsString(probe))
  {
    var t := View(values, s);
    var p := (e: SymbolEntry) => !Compare(probe, NameOf(values, e));
    var q := (e: (string, int)) => !Less(AsString(probe), e.0);
    forall i | 0 <= i < |s| ensures p(s[i]) == q(t[i]) {
      CompareIsNameOrder(probe, NameOf(values, s[i]));
    }
    PartitionPointsAgree(s, p, t, q);
  }

  lemma CheckIsNeighbourCheck<V>(values: seq<FileValue<V>>, s: seq<SymbolEntry>, probe: Name)
    requires EntriesOk(values, s) && Proper(probe)
    ensures CheckForMutualSubsymbols(values, s, probe) == NeighboursAllow(View(values, s), AsString(probe))
  {
    hide EntryUpperBound, UpperBound, Encloses;
    EntryBoundIsNameBound(values, s, probe);
    assert FindLastEntry(values, s, probe) == FindLastLessOrEqual(View(values, s), AsString(probe));
  }

  lemma ViewOfConcat<V>(values: seq<FileValue<V>>, a: seq<SymbolEntry>, b: seq<SymbolEntry>)
    ensures View(values, a + b) == View(values, a) + View(values, b)
    ensures EntriesOk(values, a) && EntriesOk(values, b) <==> EntriesOk(values, a + b)
  {
    hide FullName, NameOf, Proper;
    assert forall i | 0 <= i < |a| :: (a + b)[i] == a[i];
    assert forall i | 0 <= i < |b| :: (a + b)[|a| + i] == b[i];
  }

  lemma ViewOfSlices<V>(values: seq<FileValue<V>>, s: seq<SymbolEntry>, n: nat)
    requires n <= |s|
    ensures View(values, s[..n]) == View(values, s)[..n] && View(values, s[n..]) == View(values, s)[n..]
    ensures EntriesOk(values, s) ==> EntriesOk(values, s[..n]) && EntriesOk(values, s[n..])
  {
    ViewOfConcat(values, s[..n], s[n..]);
    assert s == s[..n] + s[n..];
  }

  lemma InsertEntryIsInsert<V>(values: seq<FileValue<V>>, s: seq<SymbolEntry>, e: SymbolEntry)
    requires EntriesOk(values, s) && EntriesOk(values, [e])
    ensures EntriesOk(values, InsertEntry(values, s, e))
    ensures View(values, InsertEntry(values, s, e)) == Insert(View(values, s), FullName(values, e), e.dataOffset)
  {
    assert Proper(NameOf(values, [e][0]));
    EntryBoundIsNameBound(values, s, NameOf(values, e));
    var u := EntryUpperBound(values, s, NameOf(values, e));
    ViewOfSlices(values, s, u);
    ViewOfConcat(values, s[..u], [e]);
    ViewOfConcat(values, s[..u] + [e], s[u..]);
    assert View(values, [e]) == [(FullName(values, e), e.dataOffset)];
  }

  // The view of a non-empty vector begins with that of its first entry.
  lemma ViewHead<V>(values: seq<FileValue<V>>, s: seq<SymbolEntry>)
    requires |s| > 0 && EntriesOk(values, s)
    ensures EntriesOk(values, s[1..]) && EntriesOk(values, [s[0]]) && Proper(NameOf(values, s[0]))
    ensures View(values, s)[0] == (AsString(NameOf(values, s[0])), s[0].dataOffset)
    ensures View(values, s)[1..] == View(values, s[1..])
    ensures View(values, [s[0]]) == [View(values, s)[0]]
  {
    hide AsString;
    assert s[..1] == [s[0]];
    ViewOfSlices(values, s, 1);
  }

  lemma {:induction false} MergeEntriesIsMerge<V>(values: seq<FileValue<V>>, a: seq<SymbolEntry>, b: seq<SymbolEntry>)
    requires EntriesOk(values, a) && EntriesOk(values, b)
    ensures EntriesOk(values, MergeEntries(values, a, b))
    ensures View(values, MergeEntries(values, a, b)) == Merge(Less, View(values, a), View(values, b))
    decreases |a| + |b|
  {
    hide Compare, AsString, Less, View, EntriesOk, Proper;
    if |a| != 0 && |b| != 0 {
      ViewHead(values, a);
      ViewHead(values, b);
      CompareIsNameOrder(NameOf(values, b[0]), NameOf(values, a[0]));
      if Compare(NameOf(values, b[0]), NameOf(values, a[0])) {
        MergeEntriesIsMerge(values, a, b[1..]);
        ViewOfConcat(values, [b[0]], MergeEntries(values, a, b[1..]));
      } else {
        MergeEntriesIsMerge(values, a[1..], b);
        ViewOfConcat(values, [a[0]], MergeEntries(values, a[1..], b));
      }
    } else {
      NoView(values);
    }
  }

  lemma NoView<V>(values: seq<FileValue<V>>)
    ensures View(values, []) == []
  {
  }

  // Flattening yields exactly the whole map, in its iteration order.
  lemma MergeIsWhole<K(!new), V(!new)>(less: (K, K) -> bool, pending: seq<(K, V)>, flat: seq<(K, V)>, whole: seq<(K, V)>)
    requires StrictOrder(less) && Combines(less, pending, flat, whole)
    ensures Merge(less, pending, flat) == whole
  {
    MergeSorted(less, pending, flat);
    MergeMembers(less, pending, flat);
    SortedIsUnique(less, Merge(less, pending, flat), whole);
  }

  // Adding an absent key to the pending side adds it to the whole.
  lemma CombinesInsert<K(!new), V(!new)>(less: (K, K) -> bool, pending: seq<(K, V)>, flat: seq<(K, V)>, whole: seq<(K, V)>, e: (K, V))
    requires StrictOrder(less) && Combines(less, pending, flat, whole)
    requires !HasKey(pending, e.0) && !HasKey(flat, e.0)
    ensures !HasKey(whole, e.0)
    ensures Combines(less, InsertSorted(less, pending, e), flat, InsertSorted(less, whole, e))
  {
    InsertKeepsSorted(less, pending, e);
    InsertKeepsSorted(less, whole, e);
    InsertMembers(less, pending, e);
    InsertMembers(less, whole, e);
    var p := InsertSorted(less, pending, e);
    forall i, j | 0 <= i < |p| && 0 <= j < |flat| ensures p[i].0 != flat[j].0 {
      assert p[i] in p && (flat[j].0, flat[j].1) in flat;
      if p[i] != e {
        var k :| 0 <= k < |pending| && pending[k] == p[i];
      }
    }
  }

  // The whole has a key exactly when one of the sides has it.
  lemma CombinedKeys<K(!new), V(!new)>(less: (K, K) -> bool, pending: seq<(K, V)>, flat: seq<(K, V)>, whole: seq<(K, V)>, k: K)
    requires Combines(less, pending, flat, whole)
    ensures HasKey(whole, k) <==> HasKey(pending, k) || HasKey(flat, k)
  {
  }

  lemma InsertUnlessPresentIsInsert<K(!new)>(less: (K, K) -> bool, s: Split<(K, int)>, whole: seq<(K, int)>, e: (K, int))
    requires StrictOrder(less) && Combines(less, s.pending, s.flat, whole)
    ensures InsertUnlessPresent(less, s, e).0 <==> Find(less, whole, e.0).None?
    ensures Find(less, whole, e.0).None? ==>
              Combines(less, InsertUnlessPresent(less, s, e).1.pending, InsertUnlessPresent(less, s, e).1.flat, InsertSorted(less, whole, e))
    ensures InsertUnlessPresent(less, s, e).1.flat == s.flat
  {
    FindIsExact(less, s.pending, e.0);
    FindIsExact(less, s.flat, e.0);
    FindIsExact(less, whole, e.0);
    CombinedKeys(less, s.pending, s.flat, whole, e.0);
    if Find(less, whole, e.0).None? {
      CombinesInsert(less, s.pending, s.flat, whole, e);
    }
  }

  lemma UnfoldItems<V>(x: Encoded<V>, items: seq<Item>, i: nat)
    requires i < |items|
    ensures var a := AddEncodedItem(x, items[i]);
            AddEncodedItems(x, items[i..]) == if a.ok then AddEncodedItems(a.index, items[i + 1..]) else a
  {
    assert items[i..][0] == items[i] && items[i..][1..] == items[i + 1..];
  }

  // ---------- what AddFile leaves in the index ----------

  // Of a file added at this position: the flat sides stay, and what comes to
  // the pending ones is the file's name, its symbols and its fully qualified
  // extensions.
  ghost predicate OnlyPended<V>(x: Encoded<V>, f: File, y: Encoded<V>) {
    var p := |x.values|;
    && y.names.flat == x.names.flat && y.symbols.flat == x.symbols.flat && y.extensions.flat == x.extensions.flat
    && (forall e :: e in x.names.pending ==> e in y.names.pending)
    && (forall e :: e in y.names.pending ==> e in x.names.pending || e == (f.name, p))
    && (forall e :: e in x.symbols.pending ==> e in y.symbols.pending)
    && (forall e :: e in y.symbols.pending ==> e in x.symbols.pending || (e.dataOffset == p && DeclaresName(f, e.symbol)))
    && (forall e :: e in x.extensions.pending ==> e in y.extensions.pending)
    && (forall e: (ExtensionKey, int) :: e in y.extensions.pending ==>
          e in x.extensions.pending || (e.1 == p && ExtensionOf(f, e.0.0, e.0.1)))
  }

  ghost predicate AllPended<V>(x: Encoded<V>, f: File, value: V, y: Encoded<V>) {
    var p := |x.values|;
    && y.values == x.values + [FileValue(value, f.package)]
    && (f.name, p) in y.names.pending
    && (forall name :: DeclaresName(f, name) ==> SymbolEntry(p, name) in y.symbols.pending)
    && (forall containing, n :: ExtensionOf(f, containing, n) ==> ((containing, n), p) in y.extensions.pending)
  }

  ghost predicate ItemsPended<V>(x: Encoded<V>, items: seq<Item>, a: EncodedAdded<V>) {
    var y, p := a.index, |x.values| - 1;
    && y.values == x.values && y.names == x.names
    && y.symbols.flat == x.symbols.flat && y.extensions.flat == x.extensions.flat
    && (forall e :: e in x.symbols.pending ==> e in y.symbols.pending)
    && (forall e :: e in y.symbols.pending ==> e in x.symbols.pending || (e.dataOffset == p && Symbol(e.symbol) in items))
    && (forall e :: e in x.extensions.pending ==> e in y.extensions.pending)
    && (forall e: (ExtensionKey, int) :: e in y.extensions.pending ==>
          e in x.extensions.pending || (e.1 == p && HasExtensionItem(items, e.0)))
    && (a.ok ==> forall name :: Symbol(name) in items ==> SymbolEntry(p, name) in y.symbols.pending)
    && (a.ok ==> forall k :: HasExtensionItem(items, k) ==> (k, p) in y.extensions.pending)
  }

  lemma InsertEntryMembers<V>(values: seq<FileValue<V>>, s: seq<SymbolEntry>, e: SymbolEntry)
    ensures forall z :: z in InsertEntry(values, s, e) <==> z == e || z in s
  {
    hide EntryUpperBound;
    var u := EntryUpperBound(values, s, NameOf(values, e));
    assert s == s[..u] + s[u..];
  }

  lemma SymbolPended<V>(x: Encoded<V>, name: string)
    ensures ItemsPended(x, [Symbol(name)], AddEncodedSymbol(x, name))
  {
    hide CheckForMutualSubsymbols, ValidName, InsertEntry, HasExtensionItem, NameOf;
    OneSymbol("", name);
    assert Symbol(name) in [Symbol(name)];
    InsertEntryMembers(x.values, x.symbols.pending, SymbolEntry(|x.values| - 1, name));
  }

  lemma ExtensionPended<V>(x: Encoded<V>, field: Field)
    ensures ItemsPended(x, [Extension(field)], AddEncodedExtension(x, field))
  {
    hide Find, HasExtensionItem;
    OneExtension("", field);
    if FullyQualified(field) {
      InsertMembers(KeyLess, x.extensions.pending, (KeyOf(field), |x.values| - 1));
    }
  }

  lemma {:induction false} AllItemsPended<V>(x: Encoded<V>, items: seq<Item>)
    ensures ItemsPended(x, items, AddEncodedItems(x, items))
    decreases |items|
  {
    hide AddEncodedSymbol, AddEncodedExtension, HasExtensionItem;
    if |items| == 0 {
      NoItems("");
    } else {
      if items[0].Symbol? {
        SymbolPended(x, items[0].name);
      } else {
        ExtensionPended(x, items[0].field);
      }
      assert ItemsPended(x, [items[0]], AddEncodedItem(x, items[0]));
      ItemsSplit("", items[0], items[1..]);
      assert items == [items[0]] + items[1..];
      if AddEncodedItem(x, items[0]).ok {
        AllItemsPended(AddEncodedItem(x, items[0]).index, items[1..]);
        PendedTwice(x, items[0], items[1..]);
      }
    }
  }

  lemma PendedTwice<V>(x: Encoded<V>, item: Item, rest: seq<Item>)
    requires ItemsPended(x, [item], AddEncodedItem(x, item)) && AddEncodedItem(x, item).ok
    requires ItemsPended(AddEncodedItem(x, item).index, rest, AddEncodedItems(AddEncodedItem(x, item).index, rest))
    ensures ItemsPended(x, [item] + rest, AddEncodedItems(AddEncodedItem(x, item).index, rest))
  {
    hide AddEncodedItem, AddEncodedItems, HasExtensionItem;
    ItemsSplit("", item, rest);
  }

  lemma NamePended(s: Split<(string, int)>, e: (string, int))
    ensures var (ok, s') := InsertUnlessPresent(Less, s, e);
            && s'.flat == s.flat && (forall z :: z in s.pending ==> z in s'.pending)
            && (forall z :: z in s'.pending ==> z in s.pending || z == e)
            && (ok ==> e in s'.pending)
  {
    hide Find;
    InsertMembers(Less, s.pending, e);
  }

  // Whatever the outcome, nothing but what the file declares is entered; if
  // it is accepted, all of that is.
  lemma EncodedFileIsRegistered<V>(x: Encoded<V>, f: File, value: V)
    ensures OnlyPended(x, f, AddEncodedFile(x, f, value).index)
    ensures AddEncodedFile(x, f, value).ok ==> AllPended(x, f, value, AddEncodedFile(x, f, value).index)
  {
    hide Items, ExtensionOf, DeclaresName, HasExtensionItem, Find, ValidName, AddEncodedItems, InsertUnlessPresent, InsertSorted;
    if ValidName(f.package) {
      var pushed := x.(values := x.values + [FileValue(value, f.package)]);
      var (ok, names) := InsertUnlessPresent(Less, x.names, (f.name, |x.values|));
      var named := pushed.(names := names);
      NamePended(x.names, (f.name, |x.values|));
      AllItemsPended(named, Items(f));
      ItemsOfFile(f);
      forall name ensures Symbol(name) in Items(f) <==> DeclaresName(f, name) {
        ItemsAreDeclared(f, Symbol(name));
      }
    }
  }

  class DescriptorIndex<V(==, !new)> {
    var allValues: seq<FileValue<V>>
    var names: Split<(string, int)>
    var symbols: Split<SymbolEntry>
    var extensions: Split<(ExtensionKey, int)>

    function Contents(): Encoded<V>
      reads this
    {
      Encoded(allValues, names, symbols, extensions)
    }

    constructor ()
      ensures Contents() == Encoded([], Split([], []), Split([], []), Split([], []))
    {
      allValues := [];
      names, symbols, extensions := Split([], []), Split([], []), Split([], []);
    }

    method AddSymbol(symbol: string) returns (ok: bool)
      modifies this`symbols
      ensures EncodedAdded(ok, Contents()) == AddEncodedSymbol(old(Contents()), symbol)
      ensures !ok ==> symbols == old(symbols)
    {
      var entry := SymbolEntry(|allValues| - 1, symbol);
      if !ValidName(symbol) {
        return false;
      }
      if !CheckForMutualSubsymbols(allValues, symbols.pending, NameOf(allValues, entry)) {
        return false;
      }
      if !CheckForMutualSubsymbols(allValues, symbols.flat, NameOf(allValues, entry)) {
        return false;
      }
      symbols := symbols.(pending := InsertEntry(allValues, symbols.pending, entry));
      return true;
    }

    method AddExtension(field: Field) returns (ok: bool)
      modifies this`extensions
      ensures EncodedAdded(ok, Contents()) == AddEncodedExtension(old(Contents()), field)
    {
      if !FullyQualified(field) {
        return true;
      }
      if Find(KeyLess, extensions.pending, KeyOf(field)).Some? {
        return false;
      }
      var known := Find(KeyLess, extensions.flat, KeyOf(field)).Some?;
      extensions := extensions.(pending := InsertSorted(KeyLess, extensions.pending, (KeyOf(field), |allValues| - 1)));
      return !known;
    }

    // The position is pushed first, because the entries refer to it.
    method AddFile(f: File, value: V) returns (ok: bool)
      modifies this
      ensures EncodedAdded(ok, Contents()) == AddEncodedFile(old(Contents()), f, value)
      ensures OnlyPended(old(Contents()), f, Contents())
      ensures ok ==> AllPended(old(Contents()), f, value, Contents())
    {
      hide OnlyPended, AllPended;
      EncodedFileIsRegistered(Contents(), f, value);
      allValues := allValues + [FileValue(value, "")];
      if !ValidName(f.package) {
        return false;
      }
      allValues := allValues[|allValues| - 1 := FileValue(value, f.package)];
      assert allValues == old(allValues) + [FileValue(value, f.package)];
      if Find(Less, names.pending, f.name).Some? {
        return false;
      }
      var known := Find(Less, names.flat, f.name).Some?;
      names := names.(pending := InsertSorted(Less, names.pending, (f.name, |allValues| - 1)));
      if known {
        return false;
      }
      ghost var named := Contents();
      var items := Items(f);
      for i := 0 to |items|
        invariant AddEncodedItems(named, items) == AddEncodedItems(Contents(), items[i..])
      {
        UnfoldItems(Contents(), items, i);
        match items[i] {
          case Symbol(name) => ok := AddSymbol(name);
          case Extension(field) => ok := AddExtension(field);
        }
        if !ok {
          return;
        }
      }
      return true;
    }

    method Flatten()
      modifies this
      ensures Contents() == EnsureFlat(old(Contents()))
    {
      if names.pending != [] {
        names := Split([], Merge(Less, names.pending, names.flat));
      }
      if symbols.pending != [] {
        symbols := Split([], MergeEntries(allValues, symbols.pending, symbols.flat));
      }
      if extensions.pending != [] {
        extensions := Split([], Merge(KeyLess, extensions.pending, extensions.flat));
      }
    }

    method FindSymbol(name: string) returns (r: Option<V>)
      modifies this
      ensures Contents() == EnsureFlat(old(Contents()))
      ensures r.None? <==> FindFlatSymbol(Contents(), name).None? || !(0 <= FindFlatSymbol(Contents(), name).value < |allValues|)
      ensures r.Some? ==> r == Some(allValues[FindFlatSymbol(Contents(), name).value].value)
    {
      Flatten();
      var iter := FindLastEntry(allValues, symbols.flat, Plain(name));
      r := None;
      if iter != |symbols.flat| && Encloses(FullName(allValues, symbols.flat[iter]), name) {
        var offset := symbols.flat[iter].dataOffset;
        if 0 <= offset < |allValues| {
          r := Some(allValues[offset].value);
        }
      }
    }

    // Find by an exact key, of a file or of an extension.
    method FindFile(name: string) returns (r: Option<V>)
      modifies this
      ensures Contents() == EnsureFlat(old(Contents()))
      ensures Sorted(Less, names.flat) ==>
                forall p | 0 <= p < |allValues| && (name, p) in names.flat :: r == Some(allValues[p].value)
      ensures r.Some? ==> exists p :: 0 <= p < |allValues| && (name, p) in names.flat && allValues[p].value == r.value
    {
      hide EnsureFlat;
      Flatten();
      LessIsStrictOrder();
      if Sorted(Less, names.flat) {
        FindIsExact(Less, names.flat, name);
      }
      var p := Find(Less, names.flat, name);
      r := if p.Some? && 0 <= p.value < |allValues| then Some(allValues[p.value].value) else None;
    }

    method FindExtension(containing: string, number: int) returns (r: Option<V>)
      modifies this
      ensures Contents() == EnsureFlat(old(Contents()))
      ensures Sorted(KeyLess, extensions.flat) ==>
                forall p | 0 <= p < |allValues| && ((containing, number), p) in extensions.flat :: r == Some(allValues[p].value)
      ensures r.Some? ==>
                exists p :: 0 <= p < |allValues| && ((containing, number), p) in extensions.flat && allValues[p].value == r.value
    {
      hide EnsureFlat;
      Flatten();
      KeyLessIsStrictOrder();
      if Sorted(KeyLess, extensions.flat) {
        FindIsExact(KeyLess, extensions.flat, (containing, number));
      }
      var p := Find(KeyLess, extensions.flat, (containing, number));
      r := if p.Some? && 0 <= p.value < |allValues| then Some(allValues[p.value].value) else None;
    }

    method FindAllExtensionNumbers(containing: string) returns (found: bool, output: seq<int>)
      modifies this
      ensures Contents() == EnsureFlat(old(Contents()))
      ensures output == AllExtensionNumbers(extensions.flat, containing)
      ensures found <==> output != []
    {
      Flatten();
      found, output := ScanNumbers(extensions.flat, containing);
    }
  }
}
