// SimpleDescriptorDatabase::DescriptorIndex: three ordered maps, filled one
// file at a time. A rejected file leaves its earlier entries behind.
module SimpleIndex {
  import opened Wrappers
  import opened NameOrder
  import opened SortedVector
  import opened SymbolIndex
  import opened DescriptorFile

  datatype Maps<V> = Maps(
    byName: seq<(string, V)>,
    bySymbol: SymbolMap<V>,
    byExtension: seq<(ExtensionKey, V)>)

  // Outcome of an add: whether it was accepted, and the maps afterwards.
  datatype Added<V> = Added(ok: bool, maps: Maps<V>)

  lemma KeyLessIsStrictOrder()
    ensures StrictOrder(KeyLess)
  {
    forall a: ExtensionKey ensures !KeyLess(a, a) {
      LessIrreflexive(a.0);
    }
    forall a: ExtensionKey, b: ExtensionKey, c: ExtensionKey | KeyLess(a, b) && KeyLess(b, c) ensures KeyLess(a, c) {
      if Less(a.0, b.0) && Less(b.0, c.0) {
        LessTransitive(a.0, b.0, c.0);
      }
    }
    forall a: ExtensionKey, b: ExtensionKey ensures a == b || KeyLess(a, b) || KeyLess(b, a) {
      LessTotal(a.0, b.0);
    }
  }

  // Lookup by exact key: lower_bound followed by an equality test.
  function Find<K(==), V>(less: (K, K) -> bool, s: seq<(K, V)>, k: K): Option<V> {
    var i := LowerBound(less, s, k);
    if i < |s| && s[i].0 == k then Some(s[i].1) else None
  }

  lemma FindIsExact<K(!new), V(!new)>(less: (K, K) -> bool, s: seq<(K, V)>, k: K)
    requires StrictOrder(less) && Sorted(less, s)
    ensures forall v :: Find(less, s, k) == Some(v) <==> (k, v) in s
    ensures Find(less, s, k) == None <==> !HasKey(s, k)
  {
    LowerBoundSplits(less, s, k);
    forall v | (k, v) in s ensures Find(less, s, k) == Some(v) {
      var j :| 0 <= j < |s| && s[j] == (k, v);
      assert j == LowerBound(less, s, k);
    }
    if Find(less, s, k).Some? {
      assert (k, Find(less, s, k).value) in s;
    }
  }

  function WithSymbol<V>(m: Maps<V>, name: string, value: V): Added<V> {
    if ValidName(name) && NeighboursAllow(m.bySymbol, name)
    then Added(true, m.(bySymbol := Insert(m.bySymbol, name, value)))
    else Added(false, m)
  }

  function WithExtension<V>(m: Maps<V>, f: Field, value: V): Added<V> {
    if !FullyQualified(f) then Added(true, m)
    else if Find(KeyLess, m.byExtension, KeyOf(f)).Some? then Added(false, m)
    else Added(true, m.(byExtension := InsertSorted(KeyLess, m.byExtension, (KeyOf(f), value))))
  }

  // The prefix that AddFile puts in front of every symbol.
  function Path(f: File): string {
    if f.package == "" then "" else f.package + "."
  }

  function WithItem<V>(m: Maps<V>, path: string, item: Item, value: V): Added<V> {
    match item
    case Symbol(name) => WithSymbol(m, path + name, value)
    case Extension(field) => WithExtension(m, field, value)
  }

  // Register the items in order and stop at the first one refused.
  function WithItems<V>(m: Maps<V>, path: string, items: seq<Item>, value: V): Added<V>
    decreases |items|
  {
    if |items| == 0 then Added(true, m)
    else
      var a := WithItem(m, path, items[0], value);
      if a.ok then WithItems(a.maps, path, items[1..], value) else a
  }

  lemma StepItems<V>(m: Maps<V>, path: string, item: Item, rest: seq<Item>, value: V)
    ensures var a := WithItem(m, path, item, value);
            WithItems(m, path, [item] + rest, value) == if a.ok then WithItems(a.maps, path, rest, value) else a
  {
    assert ([item] + rest)[1..] == rest;
  }

  // Registering a list in two halves: the second half starts where an
  // accepted first half ended.
  lemma {:induction false} SplitItems<V>(m: Maps<V>, path: string, first: seq<Item>, rest: seq<Item>, value: V)
    ensures var a := WithItems(m, path, first, value);
            WithItems(m, path, first + rest, value) == if a.ok then WithItems(a.maps, path, rest, value) else a
    decreases |first|
  {
    if |first| == 0 {
      assert first + rest == rest;
    } else {
      assert first + rest == [first[0]] + (first[1..] + rest);
      StepItems(m, path, first[0], first[1..] + rest, value);
      var a := WithItem(m, path, first[0], value);
      if a.ok {
        SplitItems(a.maps, path, first[1..], rest, value);
      }
    }
  }

  function WithFile<V>(m: Maps<V>, f: File, value: V): Added<V> {
    if Find(Less, m.byName, f.name).Some? then Added(false, m)
    else WithItems(m.(byName := InsertSorted(Less, m.byName, (f.name, value))), Path(f), Items(f), value)
  }

  lemma ExtensionAcceptedIff<V(!new)>(m: Maps<V>, x: Field, value: V)
    requires Sorted(KeyLess, m.byExtension)
    ensures WithExtension(m, x, value).ok <==> forall t :: x.extendee == "." + t ==> !HasKey(m.byExtension, (t, x.number))
  {
    hide Find, HasKey, InsertSorted;
    KeyLessIsStrictOrder();
    if FullyQualified(x) {
      FindIsExact(KeyLess, m.byExtension, KeyOf(x));
      KeyOfExtendee(x, KeyOf(x).0, x.number);
    }
    forall t ensures FullyQualified(x) && KeyOf(x) == (t, x.number) <==> x.extendee == "." + t {
      KeyOfExtendee(x, t, x.number);
    }
  }

  // ---------- what AddFile leaves in the maps ----------

  // Of a file added with this value: nothing goes, and what comes is the
  // file's name, its symbols and its fully qualified extensions.
  ghost predicate OnlyDeclared<V(!new)>(m: Maps<V>, f: File, value: V, m': Maps<V>) {
    && (forall k, v :: (k, v) in m.byName ==> (k, v) in m'.byName)
    && (forall k, v :: (k, v) in m'.byName ==> (k, v) in m.byName || (v == value && k == f.name))
    && (forall k, v :: (k, v) in m.bySymbol ==> (k, v) in m'.bySymbol)
    && (forall k, v :: (k, v) in m'.bySymbol ==> (k, v) in m.bySymbol || (v == value && SymbolOf(f, k)))
    && (forall k, v :: (k, v) in m.byExtension ==> (k, v) in m'.byExtension)
    && (forall k: ExtensionKey, v :: (k, v) in m'.byExtension ==>
          (k, v) in m.byExtension || (v == value && ExtensionOf(f, k.0, k.1)))
  }

  ghost predicate AllDeclared<V(!new)>(f: File, value: V, m': Maps<V>) {
    && (f.name, value) in m'.byName
    && (forall symbol :: SymbolOf(f, symbol) ==> (symbol, value) in m'.bySymbol)
    && (forall containing, n :: ExtensionOf(f, containing, n) ==> ((containing, n), value) in m'.byExtension)
  }

  // The items register this symbol, or this extension.
  ghost predicate HasSymbolItem(path: string, items: seq<Item>, symbol: string) {
    exists name :: Symbol(name) in items && symbol == path + name
  }

  ghost predicate HasExtensionItem(items: seq<Item>, k: ExtensionKey) {
    exists x :: Extension(x) in items && FullyQualified(x) && KeyOf(x) == k
  }

  // Everything that went from m to m' stems from the items, and everything of
  // the items is there if all were accepted.
  ghost predicate ItemsLeft<V(!new)>(m: Maps<V>, path: string, items: seq<Item>, value: V, a: Added<V>) {
    && a.maps.byName == m.byName
    && (forall k, v :: (k, v) in m.bySymbol ==> (k, v) in a.maps.bySymbol)
    && (forall k, v :: (k, v) in a.maps.bySymbol ==> (k, v) in m.bySymbol || (v == value && HasSymbolItem(path, items, k)))
    && (forall k, v :: (k, v) in m.byExtension ==> (k, v) in a.maps.byExtension)
    && (forall k, v :: (k, v) in a.maps.byExtension ==> (k, v) in m.byExtension || (v == value && HasExtensionItem(items, k)))
    && (a.ok ==> forall k :: HasSymbolItem(path, items, k) ==> (k, value) in a.maps.bySymbol)
    && (a.ok ==> forall k :: HasExtensionItem(items, k) ==> (k, value) in a.maps.byExtension)
  }

  lemma ItemLeft<V(!new)>(m: Maps<V>, path: string, item: Item, value: V)
    ensures ItemsLeft(m, path, [item], value, WithItem(m, path, item, value))
  {
    hide WithSymbol, WithExtension, ItemsLeft;
    if item.Symbol? {
      SymbolLeft(m, path, item.name, value);
    } else {
      ExtensionLeft(m, path, item.field, value);
    }
  }

  lemma OneSymbol(path: string, name: string)
    ensures forall k :: HasSymbolItem(path, [Symbol(name)], k) <==> k == path + name
    ensures forall k :: !HasExtensionItem([Symbol(name)], k)
  {
    assert Symbol(name) in [Symbol(name)];
  }

  lemma SymbolLeft<V(!new)>(m: Maps<V>, path: string, name: string, value: V)
    ensures ItemsLeft(m, path, [Symbol(name)], value, WithSymbol(m, path + name, value))
  {
    hide NeighboursAllow, ValidName, HasSymbolItem, HasExtensionItem;
    OneSymbol(path, name);
    InsertMembers(Less, m.bySymbol, (path + name, value));
  }

  lemma OneExtension(path: string, x: Field)
    ensures forall k :: !HasSymbolItem(path, [Extension(x)], k)
    ensures forall k :: HasExtensionItem([Extension(x)], k) <==> FullyQualified(x) && k == KeyOf(x)
  {
    assert Extension(x) in [Extension(x)];
  }

  lemma ExtensionLeft<V(!new)>(m: Maps<V>, path: string, x: Field, value: V)
    ensures ItemsLeft(m, path, [Extension(x)], value, WithExtension(m, x, value))
  {
    hide Find, HasSymbolItem, HasExtensionItem;
    OneExtension(path, x);
    if FullyQualified(x) {
      InsertMembers(KeyLess, m.byExtension, (KeyOf(x), value));
    }
  }

  lemma ItemsSplit(path: string, item: Item, rest: seq<Item>)
    ensures forall k :: HasSymbolItem(path, [item] + rest, k) <==> HasSymbolItem(path, [item], k) || HasSymbolItem(path, rest, k)
    ensures forall k :: HasExtensionItem([item] + rest, k) <==> HasExtensionItem([item], k) || HasExtensionItem(rest, k)
  {
    assert forall it :: it in [item] + rest <==> it in [item] || it in rest;
  }

  lemma {:induction false} WithItemsLeft<V(!new)>(m: Maps<V>, path: string, items: seq<Item>, value: V)
    ensures ItemsLeft(m, path, items, value, WithItems(m, path, items, value))
    decreases |items|
  {
    hide WithItem, HasSymbolItem, HasExtensionItem;
    if |items| == 0 {
      NoItems(path);
    } else {
      ItemLeft(m, path, items[0], value);
      ItemsSplit(path, items[0], items[1..]);
      assert items == [items[0]] + items[1..];
      if WithItem(m, path, items[0], value).ok {
        WithItemsLeft(WithItem(m, path, items[0], value).maps, path, items[1..], value);
      }
    }
  }

  lemma NoItems(path: string)
    ensures forall k :: !HasSymbolItem(path, [], k)
    ensures forall k :: !HasExtensionItem([], k)
  {
  }

  lemma ItemsOfFile(f: File)
    ensures forall k :: HasSymbolItem(Path(f), Items(f), k) <==> SymbolOf(f, k)
    ensures forall k: ExtensionKey :: HasExtensionItem(Items(f), k) <==> ExtensionOf(f, k.0, k.1)
  {
    hide Items, DeclaresName, DeclaresExtension, FullyQualified;
    forall it ensures it in Items(f) <==> if it.Symbol? then DeclaresName(f, it.name) else DeclaresExtension(f, it.field) {
      ItemsAreDeclared(f, it);
    }
    forall k ensures HasSymbolItem(Path(f), Items(f), k) <==> SymbolOf(f, k) {
      SymbolsOfFile(f, k);
    }
    forall k: ExtensionKey ensures HasExtensionItem(Items(f), k) <==> ExtensionOf(f, k.0, k.1) {
      ExtensionsOfFile(f, k);
    }
  }

  lemma SymbolsOfFile(f: File, k: string)
    ensures HasSymbolItem(Path(f), Items(f), k) <==> SymbolOf(f, k)
  {
    hide Items, DeclaresName;
    if HasSymbolItem(Path(f), Items(f), k) {
      var name :| Symbol(name) in Items(f) && k == Path(f) + name;
      ItemsAreDeclared(f, Symbol(name));
      assert "" + name == name;
    }
    if SymbolOf(f, k) {
      var name :| DeclaresName(f, name) && k == if f.package == "" then name else f.package + "." + name;
      ItemsAreDeclared(f, Symbol(name));
      assert "" + name == name;
    }
  }

  lemma ExtensionsOfFile(f: File, k: ExtensionKey)
    ensures HasExtensionItem(Items(f), k) <==> ExtensionOf(f, k.0, k.1)
  {
    hide Items, DeclaresExtension;
    if HasExtensionItem(Items(f), k) {
      var x :| Extension(x) in Items(f) && FullyQualified(x) && KeyOf(x) == k;
      ItemsAreDeclared(f, Extension(x));
      KeyOfExtendee(x, k.0, k.1);
    }
    if ExtensionOf(f, k.0, k.1) {
      var x :| DeclaresExtension(f, x) && x.extendee == "." + k.0 && x.number == k.1;
      ItemsAreDeclared(f, Extension(x));
      KeyOfExtendee(x, k.0, k.1);
    }
  }

  // Whatever the outcome, nothing but what the file declares is registered;
  // if it is accepted, all of that is.
  lemma FileIsRegistered<V(!new)>(m: Maps<V>, f: File, value: V)
    ensures OnlyDeclared(m, f, value, WithFile(m, f, value).maps)
    ensures WithFile(m, f, value).ok ==> AllDeclared(f, value, WithFile(m, f, value).maps)
  {
    hide Items, WithItems, Path, ItemsLeft, OnlyDeclared, AllDeclared, Find, InsertSorted;
    if Find(Less, m.byName, f.name).None? {
      var named := m.(byName := InsertSorted(Less, m.byName, (f.name, value)));
      WithItemsLeft(named, Path(f), Items(f), value);
      LeftIsDeclared(m, f, value, WithItems(named, Path(f), Items(f), value));
    } else {
      NothingDeclared(m, f, value);
    }
  }

  lemma NothingDeclared<V(!new)>(m: Maps<V>, f: File, value: V)
    ensures OnlyDeclared(m, f, value, m)
  {
    hide SymbolOf, ExtensionOf;
  }

  lemma LeftIsDeclared<V(!new)>(m: Maps<V>, f: File, value: V, a: Added<V>)
    requires ItemsLeft(m.(byName := InsertSorted(Less, m.byName, (f.name, value))), Path(f), Items(f), value, a)
    ensures OnlyDeclared(m, f, value, a.maps) && (a.ok ==> AllDeclared(f, value, a.maps))
  {
    hide Items, SymbolOf, ExtensionOf, HasSymbolItem, HasExtensionItem, InsertSorted, Path;
    InsertMembers(Less, m.byName, (f.name, value));
    ItemsOfFile(f);
  }

  // ---------- the maps stay sorted ----------

  ghost predicate AllSorted<V>(m: Maps<V>) {
    Sorted(Less, m.byName) && Ordered(m.bySymbol) && Sorted(KeyLess, m.byExtension)
  }

  lemma ItemKeepsSorted<V(!new)>(m: Maps<V>, path: string, item: Item, value: V)
    requires AllSorted(m)
    ensures AllSorted(WithItem(m, path, item, value).maps)
  {
    hide NeighboursAllow, InsertSorted, Find;
    LessIsStrictOrder();
    KeyLessIsStrictOrder();
    if item.Symbol? {
      if NeighboursAllow(m.bySymbol, path + item.name) {
        AllowedIsAbsent(m.bySymbol, path + item.name);
        InsertKeepsSorted(Less, m.bySymbol, (path + item.name, value));
      }
    } else if FullyQualified(item.field) {
      FindIsExact(KeyLess, m.byExtension, KeyOf(item.field));
      if Find(KeyLess, m.byExtension, KeyOf(item.field)).None? {
        InsertKeepsSorted(KeyLess, m.byExtension, (KeyOf(item.field), value));
      }
    }
  }

  lemma {:induction false} ItemsKeepSorted<V(!new)>(m: Maps<V>, path: string, items: seq<Item>, value: V)
    requires AllSorted(m)
    ensures AllSorted(WithItems(m, path, items, value).maps)
    decreases |items|
  {
    hide AllSorted, WithItem;
    if |items| > 0 {
      ItemKeepsSorted(m, path, items[0], value);
      if WithItem(m, path, items[0], value).ok {
        ItemsKeepSorted(WithItem(m, path, items[0], value).maps, path, items[1..], value);
      }
    }
  }

  lemma FileKeepsSorted<V(!new)>(m: Maps<V>, f: File, value: V)
    requires AllSorted(m)
    ensures AllSorted(WithFile(m, f, value).maps)
  {
    hide Items, WithItems, InsertSorted, Find, Path;
    LessIsStrictOrder();
    FindIsExact(Less, m.byName, f.name);
    if Find(Less, m.byName, f.name).None? {
      InsertKeepsSorted(Less, m.byName, (f.name, value));
      ItemsKeepSorted(m.(byName := InsertSorted(Less, m.byName, (f.name, value))), Path(f), Items(f), value);
    }
  }

  // ---------- which files are accepted ----------

  // The item could be registered in m.
  ghost predicate ItemFits<V(!new)>(m: Maps<V>, path: string, it: Item) {
    match it
    case Symbol(name) => ValidName(path + name) && NoConflict(m.bySymbol, path + name)
    case Extension(x) => FullyQualified(x) ==> !HasKey(m.byExtension, KeyOf(x))
  }

  // Neither keeps the other out.
  predicate ItemsApart(path: string, a: Item, b: Item) {
    && (a.Symbol? && b.Symbol? ==> !Encloses(path + a.name, path + b.name) && !Encloses(path + b.name, path + a.name))
    && (a.Extension? && b.Extension? && FullyQualified(a.field) && FullyQualified(b.field) ==> KeyOf(a.field) != KeyOf(b.field))
  }

  ghost predicate ItemsFit<V(!new)>(m: Maps<V>, path: string, items: seq<Item>) {
    && (forall i :: 0 <= i < |items| ==> ItemFits(m, path, items[i]))
    && (forall i, j :: 0 <= i < j < |items| ==> ItemsApart(path, items[i], items[j]))
  }

  lemma NoConflictWithMore<V(!new)>(m: SymbolMap<V>, x: string, value: V, y: string)
    ensures NoConflict(Insert(m, x, value), y) <==> NoConflict(m, y) && !Encloses(x, y) && !Encloses(y, x)
  {
    hide Encloses, InsertSorted;
    InsertMembers(Less, m, (x, value));
    var t := Insert(m, x, value);
    assert (x, value) in t;
    if NoConflict(t, y) {
      forall i | 0 <= i < |m| ensures !Encloses(m[i].0, y) && !Encloses(y, m[i].0) {
        assert m[i] in t;
        var j :| 0 <= j < |t| && t[j] == m[i];
      }
      var j :| 0 <= j < |t| && t[j] == (x, value);
    }
    if NoConflict(m, y) && !Encloses(x, y) && !Encloses(y, x) {
      forall j | 0 <= j < |t| ensures !Encloses(t[j].0, y) && !Encloses(y, t[j].0) {
        assert t[j] in t;
        if t[j] != (x, value) {
          var i :| 0 <= i < |m| && m[i] == t[j];
        }
      }
    }
  }

  // An item is accepted leaving the symbols sound exactly if it fits.
  lemma ItemAcceptedIff<V(!new)>(m: Maps<V>, path: string, it: Item, value: V)
    requires AllSorted(m) && Sound(m.bySymbol)
    ensures var a := WithItem(m, path, it, value);
            a.ok && Sound(a.maps.bySymbol) <==> ItemFits(m, path, it)
  {
    hide NeighboursAllow, InsertSorted, Find, NoConflict, Overlooked, HasKey;
    if it.Symbol? {
      if ValidName(path + it.name) {
        NeighbourChecksAreExact(m.bySymbol, path + it.name);
        if NeighboursAllow(m.bySymbol, path + it.name) {
          AcceptedKeepsAntichainIff(m.bySymbol, path + it.name, value);
        }
      }
    } else if FullyQualified(it.field) {
      KeyLessIsStrictOrder();
      FindIsExact(KeyLess, m.byExtension, KeyOf(it.field));
    }
  }

  // What fits once the item is in is what fits and does not clash with it.
  lemma FitsWithMore<V(!new)>(m: Maps<V>, path: string, it: Item, value: V, next: Item)
    requires WithItem(m, path, it, value).ok
    ensures ItemFits(WithItem(m, path, it, value).maps, path, next) <==> ItemFits(m, path, next) && ItemsApart(path, it, next)
  {
    hide NeighboursAllow, NoConflict, Encloses, Find, ValidName;
    if it.Symbol? && next.Symbol? {
      NoConflictWithMore(m.bySymbol, path + it.name, value, path + next.name);
    } else if it.Extension? && next.Extension? && FullyQualified(it.field) {
      InsertMembers(KeyLess, m.byExtension, (KeyOf(it.field), value));
      var t := InsertSorted(KeyLess, m.byExtension, (KeyOf(it.field), value));
      assert (KeyOf(it.field), value) in t;
      hide InsertSorted;
    }
  }

  // Soundness is not regained by registering more.
  lemma SoundBefore<V(!new)>(m: Maps<V>, path: string, items: seq<Item>, value: V)
    requires AllSorted(m) && Sound(WithItems(m, path, items, value).maps.bySymbol)
    ensures Sound(m.bySymbol)
  {
    hide WithItems, Encloses, ValidName, HasSymbolItem, HasExtensionItem;
    var t := WithItems(m, path, items, value).maps.bySymbol;
    WithItemsLeft(m, path, items, value);
    AntichainAsMembers(t);
    AntichainAsMembers(m.bySymbol);
    forall i | 0 <= i < |m.bySymbol| ensures ValidName(m.bySymbol[i].0) {
      var e := m.bySymbol[i];
      assert (e.0, e.1) in m.bySymbol;
      assert e in t;
      var j :| 0 <= j < |t| && t[j] == e;
    }
    forall x, y | x in m.bySymbol && y in m.bySymbol && x.0 != y.0 ensures !Encloses(x.0, y.0) {
      assert (x.0, x.1) in m.bySymbol && (y.0, y.1) in m.bySymbol;
      assert x in t && y in t;
    }
  }

  lemma {:induction false} ItemsAcceptedIff<V(!new)>(m: Maps<V>, path: string, items: seq<Item>, value: V)
    requires AllSorted(m) && Sound(m.bySymbol)
    ensures var a := WithItems(m, path, items, value);
            a.ok && Sound(a.maps.bySymbol) <==> ItemsFit(m, path, items)
    decreases |items|
  {
    hide WithItem, ItemFits, ItemsApart, AllSorted, Sound;
    if |items| > 0 {
      var a := WithItem(m, path, items[0], value);
      ItemAcceptedIff(m, path, items[0], value);
      ItemKeepsSorted(m, path, items[0], value);
      if a.ok {
        forall i | 1 <= i < |items|
          ensures ItemFits(a.maps, path, items[i]) <==> ItemFits(m, path, items[i]) && ItemsApart(path, items[0], items[i])
        {
          FitsWithMore(m, path, items[0], value, items[i]);
        }
        RestFits(m, a.maps, path, items);
        if Sound(a.maps.bySymbol) {
          ItemsAcceptedIff(a.maps, path, items[1..], value);
        } else if Sound(WithItems(a.maps, path, items[1..], value).maps.bySymbol) {
          SoundBefore(a.maps, path, items[1..], value);
        }
      }
    }
  }

  lemma RestFits<V(!new)>(m: Maps<V>, m1: Maps<V>, path: string, items: seq<Item>)
    requires |items| > 0
    requires forall i :: 1 <= i < |items| ==>
               (ItemFits(m1, path, items[i]) <==> ItemFits(m, path, items[i]) && ItemsApart(path, items[0], items[i]))
    ensures ItemsFit(m, path, items) <==> ItemFits(m, path, items[0]) && ItemsFit(m1, path, items[1..])
  {
    hide ItemFits, ItemsApart;
    var rest := items[1..];
    assert forall i :: 0 <= i < |rest| ==> rest[i] == items[i + 1];
    assert forall i :: 1 <= i < |items| ==> items[i] == rest[i - 1];
  }

  // On a sound index a file is accepted, and leaves the index sound, exactly
  // when its name is new, its symbols are valid, no two of them and those of
  // the index enclose one another, and no extension number is taken twice.
  lemma FileAcceptedIff<V(!new)>(m: Maps<V>, f: File, value: V)
    requires AllSorted(m) && Sound(m.bySymbol)
    ensures var a := WithFile(m, f, value);
            a.ok && Sound(a.maps.bySymbol) <==> !HasKey(m.byName, f.name) && ItemsFit(m, Path(f), Items(f))
  {
    hide WithItems, Items, Path, Find, Sound, ItemFits, ItemsApart, InsertSorted;
    LessIsStrictOrder();
    FindIsExact(Less, m.byName, f.name);
    if Find(Less, m.byName, f.name).None? {
      var named := m.(byName := InsertSorted(Less, m.byName, (f.name, value)));
      InsertKeepsSorted(Less, m.byName, (f.name, value));
      ItemsAcceptedIff(named, Path(f), Items(f), value);
      SameFit(m, named, Path(f), Items(f));
    }
  }

  lemma SameFit<V(!new)>(m: Maps<V>, m': Maps<V>, path: string, items: seq<Item>)
    requires m'.bySymbol == m.bySymbol && m'.byExtension == m.byExtension
    ensures ItemsFit(m', path, items) <==> ItemsFit(m, path, items)
  {
    hide ItemsApart, NoConflict, ValidName, HasKey;
    assert forall it :: ItemFits(m', path, it) == ItemFits(m, path, it);
  }

  // ---------- finding what was added ----------

  // A key of a sorted map is found by its own name, and by what it encloses
  // if the map is sound.
  lemma KeyIsFound<V(!new)>(m: SymbolMap<V>, symbol: string, value: V)
    requires Ordered(m) && (symbol, value) in m
    ensures FindSymbol(m, symbol) == Some(value)
    ensures Sound(m) ==> forall name | Encloses(symbol, name) :: FindSymbol(m, name) == Some(value)
  {
    var i :| 0 <= i < |m| && m[i] == (symbol, value);
    BoundSplits(m, symbol);
    LessIrreflexive(symbol);
    assert Ordered(m);
    assert forall j :: i < j < |m| ==> Less(symbol, m[j].0);
    if Sound(m) {
      forall name | Encloses(symbol, name) ensures FindSymbol(m, name) == Some(value) {
        FindSymbolIsExact(m, name);
      }
    }
  }

  // A file that has been accepted is found under its name, under the full
  // name of everything it declares at its top level, nested names below those
  // included if no two symbols are nested, and under every extension it
  // declares at any depth.
  lemma AddedFileIsFound<V(!new)>(m: Maps<V>, f: File, value: V)
    requires AllSorted(m) && WithFile(m, f, value).ok
    ensures var m' := WithFile(m, f, value).maps;
            && AllSorted(m')
            && Find(Less, m'.byName, f.name) == Some(value)
            && (forall symbol :: SymbolOf(f, symbol) ==> FindSymbol(m'.bySymbol, symbol) == Some(value))
            && (Sound(m'.bySymbol) ==>
                  forall symbol, name | SymbolOf(f, symbol) && Encloses(symbol, name) ::
                    FindSymbol(m'.bySymbol, name) == Some(value))
            && (forall containing, n :: ExtensionOf(f, containing, n) ==>
                  Find(KeyLess, m'.byExtension, (containing, n)) == Some(value))
  {
    hide WithFile, SymbolOf, ExtensionOf, FindSymbol, Find, Encloses;
    var m' := WithFile(m, f, value).maps;
    FileIsRegistered(m, f, value);
    FileKeepsSorted(m, f, value);
    LessIsStrictOrder();
    KeyLessIsStrictOrder();
    FindIsExact(Less, m'.byName, f.name);
    forall symbol | SymbolOf(f, symbol)
      ensures FindSymbol(m'.bySymbol, symbol) == Some(value)
      ensures Sound(m'.bySymbol) ==> forall name | Encloses(symbol, name) :: FindSymbol(m'.bySymbol, name) == Some(value)
    {
      KeyIsFound(m'.bySymbol, symbol, value);
    }
    forall containing, n | ExtensionOf(f, containing, n)
      ensures Find(KeyLess, m'.byExtension, (containing, n)) == Some(value)
    {
      FindIsExact(KeyLess, m'.byExtension, (containing, n));
    }
  }

  // ---------- scanning ----------

  // The numbers of the extensions of a type, as the scan from
  // (type, 0) reads them off the ordered map.
  function NumbersFrom<V>(s: seq<(ExtensionKey, V)>, containing: string): seq<int> {
    if |s| == 0 || s[0].0.0 != containing then [] else [s[0].0.1] + NumbersFrom(s[1..], containing)
  }

  function AllExtensionNumbers<V>(s: seq<(ExtensionKey, V)>, containing: string): seq<int> {
    NumbersFrom(s[LowerBound(KeyLess, s, (containing, 0))..], containing)
  }

  lemma KeyInTail<K(!new), V(!new)>(s: seq<(K, V)>, k: K)
    requires |s| > 0
    ensures HasKey(s, k) <==> k == s[0].0 || HasKey(s[1..], k)
  {
    assert s == [s[0]] + s[1..];
    if k == s[0].0 {
      assert (k, s[0].1) in s;
    }
    if HasKey(s[1..], k) {
      var v :| (k, v) in s[1..];
      assert (k, v) in s;
    }
  }

  // Beyond the first foreign type there are only foreign types.
  lemma ForeignTail<V>(s: seq<(ExtensionKey, V)>, containing: string)
    requires Sorted(KeyLess, s) && |s| > 0
    requires !KeyLess(s[0].0, (containing, 0)) && s[0].0.0 != containing
    ensures forall i | 0 <= i < |s| :: s[i].0.0 != containing
  {
    LessTotal(s[0].0.0, containing);
    LessIrreflexive(containing);
    forall i | 1 <= i < |s| ensures s[i].0.0 != containing {
      assert KeyLess(s[0].0, s[i].0);
      if Less(s[0].0.0, s[i].0.0) {
        LessTransitive(containing, s[0].0.0, s[i].0.0);
      }
    }
  }

  lemma {:induction false} NumbersFromAreThePrefix<V(!new)>(s: seq<(ExtensionKey, V)>, containing: string)
    requires Sorted(KeyLess, s)
    requires forall i | 0 <= i < |s| :: !KeyLess(s[i].0, (containing, 0))
    ensures var r := NumbersFrom(s, containing);
            && (forall n :: n in r <==> HasKey(s, (containing, n)))
            && (forall i, j | 0 <= i < j < |r| :: r[i] < r[j])
  {
    if |s| == 0 {
    } else if s[0].0.0 != containing {
      ForeignTail(s, containing);
    } else {
      NumbersFromAreThePrefix(s[1..], containing);
      var r := NumbersFrom(s, containing);
      forall n ensures n in r <==> HasKey(s, (containing, n)) {
        KeyInTail(s, (containing, n));
      }
      LessIrreflexive(containing);
      forall j | 1 <= j < |r| ensures r[0] < r[j] {
        assert r[j] == r[1..][j - 1];
        assert HasKey(s[1..], (containing, r[j]));
        var v :| ((containing, r[j]), v) in s[1..];
        var k :| 0 <= k < |s[1..]| && s[1..][k] == ((containing, r[j]), v);
        assert KeyLess(s[0].0, s[k + 1].0);
      }
    }
  }

  // The scan yields, in increasing order, exactly the non-negative numbers
  // registered for the type.
  lemma AllExtensionNumbersAreExact<V(!new)>(s: seq<(ExtensionKey, V)>, containing: string)
    requires Sorted(KeyLess, s)
    ensures var r := AllExtensionNumbers(s, containing);
            && (forall n :: n in r <==> n >= 0 && HasKey(s, (containing, n)))
            && (forall i, j | 0 <= i < j < |r| :: r[i] < r[j])
  {
    hide LowerBound, NumbersFrom, Less, HasKey;
    KeyLessIsStrictOrder();
    LowerBoundSplits(KeyLess, s, (containing, 0));
    var i := LowerBound(KeyLess, s, (containing, 0));
    NumbersFromAreThePrefix(s[i..], containing);
    forall n ensures HasKey(s[i..], (containing, n)) <==> n >= 0 && HasKey(s, (containing, n)) {
      TailKeys(s, containing, i, n);
    }
  }

  // From the first key at or beyond (type, 0) on are the type's numbers that
  // are not negative.
  lemma TailKeys<V(!new)>(s: seq<(ExtensionKey, V)>, containing: string, i: nat, n: int)
    requires i <= |s|
    requires forall j :: 0 <= j < i ==> KeyLess(s[j].0, (containing, 0))
    requires forall j :: i <= j < |s| ==> !KeyLess(s[j].0, (containing, 0))
    ensures HasKey(s[i..], (containing, n)) <==> n >= 0 && HasKey(s, (containing, n))
  {
    LessIrreflexive(containing);
    if HasKey(s[i..], (containing, n)) {
      var v :| ((containing, n), v) in s[i..];
      var k :| 0 <= k < |s[i..]| && s[i..][k] == ((containing, n), v);
      assert s[i + k] == s[i..][k];
      assert ((containing, n), v) in s;
    }
    if n >= 0 && HasKey(s, (containing, n)) {
      var v :| ((containing, n), v) in s;
      var k :| 0 <= k < |s| && s[k] == ((containing, n), v);
      assert !KeyLess((containing, n), (containing, 0));
      assert s[i..][k - i] == s[k];
    }
  }

  lemma NumbersStep<V>(s: seq<(ExtensionKey, V)>, containing: string, it: nat)
    requires it < |s|
    ensures NumbersFrom(s[it..], containing) ==
            if s[it].0.0 == containing then [s[it].0.1] + NumbersFrom(s[it + 1..], containing) else []
  {
    assert s[it..][0] == s[it] && s[it..][1..] == s[it + 1..];
  }

  // The loop over the entries of one type, from the lower bound on.
  method ScanNumbers<V>(s: seq<(ExtensionKey, V)>, containing: string) returns (found: bool, output: seq<int>)
    ensures output == AllExtensionNumbers(s, containing)
    ensures found <==> output != []
  {
    var it := LowerBound(KeyLess, s, (containing, 0));
    ghost var all := NumbersFrom(s[it..], containing);
    assert all == AllExtensionNumbers(s, containing);
    assert NumbersFrom(s[|s|..], containing) == [];
    hide NumbersFrom, AllExtensionNumbers, LowerBound;
    output, found := [], false;
    while it < |s| && s[it].0.0 == containing
      invariant it <= |s|
      invariant all == output + NumbersFrom(s[it..], containing)
      invariant found <==> output != []
    {
      NumbersStep(s, containing, it);
      output := output + [s[it].0.1];
      found := true;
      it := it + 1;
    }
    if it < |s| {
      NumbersStep(s, containing, it);
    }
  }

  class DescriptorIndex<V(==, !new)> {
    var byName: seq<(string, V)>
    var bySymbol: SymbolMap<V>
    var byExtension: seq<(ExtensionKey, V)>

    function Contents(): Maps<V>
      reads this
    {
      Maps(byName, bySymbol, byExtension)
    }

    constructor ()
      ensures Contents() == Maps([], [], [])
    {
      byName, bySymbol, byExtension := [], [], [];
    }

    // Refused names change nothing. On a sound map an accepted name has no
    // conflict unless it is the overlooked case, and the rejected ones are
    // invalid or really conflict.
    method AddSymbol(name: string, value: V) returns (ok: bool)
      modifies this`bySymbol
      ensures Added(ok, Contents()) == WithSymbol(old(Contents()), name, value)
      ensures Sound(old(bySymbol)) ==>
                (ok <==> ValidName(name) && (NoConflict(old(bySymbol), name) || Overlooked(old(bySymbol), name)))
      ensures Sound(old(bySymbol)) && ok && !Overlooked(old(bySymbol), name) ==> Sound(bySymbol)
      ensures !ok ==> bySymbol == old(bySymbol)
    {
      if Sound(bySymbol) && ValidName(name) {
        NeighbourChecksAreExact(bySymbol, name);
        if NeighboursAllow(bySymbol, name) {
          AcceptedKeepsAntichainIff(bySymbol, name, value);
        }
      }
      if !ValidName(name) {
        return false;
      }
      var iter := FindLastLessOrEqual(bySymbol, name);
      if iter == |bySymbol| {
        bySymbol := Insert(bySymbol, name, value);
        return true;
      }
      if Encloses(bySymbol[iter].0, name) {
        return false;
      }
      iter := iter + 1;
      if iter != |bySymbol| && Encloses(name, bySymbol[iter].0) {
        return false;
      }
      bySymbol := Insert(bySymbol, name, value);
      return true;
    }

    // Refused only if the type, named with a leading dot, already has an
    // extension of this number.
    method AddExtension(field: Field, value: V) returns (ok: bool)
      modifies this`byExtension
      ensures Added(ok, Contents()) == WithExtension(old(Contents()), field, value)
      ensures Sorted(KeyLess, old(byExtension)) ==>
                (ok <==> forall t :: field.extendee == "." + t ==> !HasKey(old(byExtension), (t, field.number)))
    {
      if Sorted(KeyLess, byExtension) {
        ExtensionAcceptedIff(Contents(), field, value);
      }
      if FullyQualified(field) {
        if Find(KeyLess, byExtension, KeyOf(field)).Some? {
          return false;
        }
        byExtension := InsertSorted(KeyLess, byExtension, (KeyOf(field), value));
      }
      return true;
    }

    method AddFields(fields: seq<Field>, value: V, path: string) returns (ok: bool)
      modifies this`byExtension
      ensures Added(ok, Contents()) == WithItems(old(Contents()), path, FieldItems(fields), value)
    {
      hide WithSymbol, WithExtension, Sound, NoConflict, Overlooked;
      for i := 0 to |fields|
        invariant WithItems(old(Contents()), path, FieldItems(fields), value)
               == WithItems(Contents(), path, FieldItems(fields[i..]), value)
      {
        assert fields[i..][0] == fields[i] && fields[i..][1..] == fields[i + 1..];
        StepItems(Contents(), path, Extension(fields[i]), FieldItems(fields[i + 1..]), value);
        var added := AddExtension(fields[i], value);
        if !added {
          return false;
        }
      }
      return true;
    }

    method AddNestedExtensions(m: Message, value: V, path: string) returns (ok: bool)
      modifies this`byExtension
      ensures Added(ok, Contents()) == WithItems(old(Contents()), path, NestedItems(m), value)
      decreases m
    {
      hide WithSymbol, WithExtension, Sound, NoConflict, Overlooked;
      for i := 0 to |m.nested|
        invariant WithItems(old(Contents()), path, NestedItems(m), value)
               == WithItems(Contents(), path, AllNestedItems(m.nested[i..]) + FieldItems(m.extensions), value)
      {
        var rest := m.nested[i + 1..];
        assert m.nested[i..][0] == m.nested[i] && m.nested[i..][1..] == rest;
        SplitItems(Contents(), path, NestedItems(m.nested[i]), AllNestedItems(rest) + FieldItems(m.extensions), value);
        assert AllNestedItems(m.nested[i..]) + FieldItems(m.extensions)
            == NestedItems(m.nested[i]) + (AllNestedItems(rest) + FieldItems(m.extensions));
        var added := AddNestedExtensions(m.nested[i], value, path);
        if !added {
          return false;
        }
      }
      assert AllNestedItems(m.nested[|m.nested|..]) + FieldItems(m.extensions) == FieldItems(m.extensions);
      ok := AddFields(m.extensions, value, path);
    }

    method AddNames(path: string, names: seq<string>, value: V, ghost after: seq<Item>) returns (ok: bool)
      modifies this`bySymbol
      ensures ok ==> WithItems(old(Contents()), path, SymbolItems(names) + after, value) == WithItems(Contents(), path, after, value)
      ensures !ok ==> WithItems(old(Contents()), path, SymbolItems(names) + after, value) == Added(false, Contents())
    {
      hide WithSymbol, WithExtension, Sound, NoConflict, Overlooked;
      for i := 0 to |names|
        invariant WithItems(old(Contents()), path, SymbolItems(names) + after, value)
               == WithItems(Contents(), path, SymbolItems(names[i..]) + after, value)
      {
        var rest := SymbolItems(names[i + 1..]) + after;
        assert names[i..][0] == names[i] && names[i..][1..] == names[i + 1..];
        assert SymbolItems(names[i..]) + after == [Symbol(names[i])] + rest;
        StepItems(Contents(), path, Symbol(names[i]), rest, value);
        var added := AddSymbol(path + names[i], value);
        if !added {
          return false;
        }
      }
      assert SymbolItems(names[|names|..]) + after == after;
      return true;
    }

    method AddMessages(path: string, ms: seq<Message>, value: V, ghost after: seq<Item>) returns (ok: bool)
      modifies this`bySymbol, this`byExtension
      ensures ok ==> WithItems(old(Contents()), path, MessageItems(ms) + after, value) == WithItems(Contents(), path, after, value)
      ensures !ok ==> WithItems(old(Contents()), path, MessageItems(ms) + after, value) == Added(false, Contents())
    {
      hide WithSymbol, WithExtension, Sound, NoConflict, Overlooked;
      for i := 0 to |ms|
        invariant WithItems(old(Contents()), path, MessageItems(ms) + after, value)
               == WithItems(Contents(), path, MessageItems(ms[i..]) + after, value)
      {
        ghost var rest := MessageItems(ms[i + 1..]) + after;
        assert ms[i..][0] == ms[i] && ms[i..][1..] == ms[i + 1..];
        assert MessageItems(ms[i..]) + after == [Symbol(ms[i].name)] + (NestedItems(ms[i]) + rest);
        StepItems(Contents(), path, Symbol(ms[i].name), NestedItems(ms[i]) + rest, value);
        var added := AddSymbol(path + ms[i].name, value);
        if !added {
          return false;
        }
        SplitItems(Contents(), path, NestedItems(ms[i]), rest, value);
        added := AddNestedExtensions(ms[i], value, path);
        if !added {
          return false;
        }
      }
      assert MessageItems(ms[|ms|..]) + after == after;
      return true;
    }

    method AddExtensions(path: string, es: seq<Field>, value: V, ghost after: seq<Item>) returns (ok: bool)
      modifies this`bySymbol, this`byExtension
      ensures ok ==> WithItems(old(Contents()), path, ExtensionItems(es) + after, value) == WithItems(Contents(), path, after, value)
      ensures !ok ==> WithItems(old(Contents()), path, ExtensionItems(es) + after, value) == Added(false, Contents())
    {
      hide WithSymbol, WithExtension, Sound, NoConflict, Overlooked;
      for i := 0 to |es|
        invariant WithItems(old(Contents()), path, ExtensionItems(es) + after, value)
               == WithItems(Contents(), path, ExtensionItems(es[i..]) + after, value)
      {
        ghost var rest := ExtensionItems(es[i + 1..]) + after;
        assert es[i..][0] == es[i] && es[i..][1..] == es[i + 1..];
        assert ExtensionItems(es[i..]) + after == [Symbol(es[i].name)] + ([Extension(es[i])] + rest);
        StepItems(Contents(), path, Symbol(es[i].name), [Extension(es[i])] + rest, value);
        var added := AddSymbol(path + es[i].name, value);
        if !added {
          return false;
        }
        StepItems(Contents(), path, Extension(es[i]), rest, value);
        added := AddExtension(es[i], value);
        if !added {
          return false;
        }
      }
      assert ExtensionItems(es[|es|..]) + after == after;
      return true;
    }

    // Registers the file name, then every symbol and extension in visiting
    // order, and stops at the first refusal.
    method AddFile(f: File, value: V) returns (ok: bool)
      modifies this
      ensures Added(ok, Contents()) == WithFile(old(Contents()), f, value)
      ensures OnlyDeclared(old(Contents()), f, value, Contents())
      ensures ok ==> AllDeclared(f, value, Contents())
    {
      FileIsRegistered(Contents(), f, value);
      hide WithSymbol, WithExtension, Sound, NoConflict, Overlooked, OnlyDeclared, AllDeclared;
      if Find(Less, byName, f.name).Some? {
        return false;
      }
      byName := InsertSorted(Less, byName, (f.name, value));
      var path := Path(f);
      ghost var services := SymbolItems(f.services);
      ghost var extensions := ExtensionItems(f.extensions) + services;
      ok := AddMessages(path, f.messages, value, SymbolItems(f.enums) + extensions);
      if !ok {
        return;
      }
      ok := AddNames(path, f.enums, value, extensions);
      if !ok {
        return;
      }
      ok := AddExtensions(path, f.extensions, value, services);
      if !ok {
        return;
      }
      assert services + [] == services;
      ok := AddNames(path, f.services, value, []);
    }

    method FindFile(name: string) returns (r: Option<V>)
      ensures Sorted(Less, byName) ==> forall v :: r == Some(v) <==> (name, v) in byName
    {
      LessIsStrictOrder();
      if Sorted(Less, byName) {
        FindIsExact(Less, byName, name);
      }
      r := Find(Less, byName, name);
    }

    method FindSymbol(name: string) returns (r: Option<V>)
      ensures r == SymbolIndex.FindSymbol(bySymbol, name)
      ensures Sound(bySymbol) ==>
                forall i | 0 <= i < |bySymbol| && Encloses(bySymbol[i].0, name) :: r == Some(bySymbol[i].1)
      ensures Sound(bySymbol) && r.Some? ==>
                exists i :: 0 <= i < |bySymbol| && Encloses(bySymbol[i].0, name) && bySymbol[i].1 == r.value
    {
      if Sound(bySymbol) {
        FindSymbolIsExact(bySymbol, name);
      }
      var iter := FindLastLessOrEqual(bySymbol, name);
      if iter != |bySymbol| && Encloses(bySymbol[iter].0, name) {
        r := Some(bySymbol[iter].1);
      } else {
        r := None;
      }
    }

    method FindExtension(containing: string, number: int) returns (r: Option<V>)
      ensures Sorted(KeyLess, byExtension) ==> forall v :: r == Some(v) <==> ((containing, number), v) in byExtension
    {
      KeyLessIsStrictOrder();
      if Sorted(KeyLess, byExtension) {
        FindIsExact(KeyLess, byExtension, (containing, number));
      }
      r := Find(KeyLess, byExtension, (containing, number));
    }

    method FindAllExtensionNumbers(containing: string) returns (found: bool, output: seq<int>)
      ensures output == AllExtensionNumbers(byExtension, containing)
      ensures found <==> output != []
    {
      found, output := ScanNumbers(byExtension, containing);
    }
  }
}
