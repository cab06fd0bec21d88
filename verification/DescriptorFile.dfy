// The parts of a FileDescriptorProto that the descriptor indexes look at.
module DescriptorFile {
  import opened NameOrder

  datatype Field = Field(name: string, extendee: string, number: int)

  datatype Message = Message(name: string, nested: seq<Message>, extensions: seq<Field>)

  datatype File = File(
    name: string,
    package: string,
    messages: seq<Message>,
    enums: seq<string>,
    extensions: seq<Field>,
    services: seq<string>)

  // ---------- what a file declares ----------

  // The field is an extension declared inside the message, at any depth.
  ghost predicate DeclaredIn(m: Message, x: Field) {
    x in m.extensions || exists i :: 0 <= i < |m.nested| && DeclaredIn(m.nested[i], x)
  }

  // A top-level message, enum, extension or service has this name.
  ghost predicate DeclaresName(f: File, name: string) {
    || (exists i :: 0 <= i < |f.messages| && f.messages[i].name == name)
    || name in f.enums
    || (exists i :: 0 <= i < |f.extensions| && f.extensions[i].name == name)
    || name in f.services
  }

  ghost predicate DeclaresExtension(f: File, x: Field) {
    x in f.extensions || exists i :: 0 <= i < |f.messages| && DeclaredIn(f.messages[i], x)
  }

  // The names by which the file's own symbols are looked up.
  ghost predicate SymbolOf(f: File, symbol: string) {
    exists name :: DeclaresName(f, name) && symbol == if f.package == "" then name else f.package + "." + name
  }

  // The file extends the type, given with its leading dot, by field number n.
  ghost predicate ExtensionOf(f: File, containing: string, n: int) {
    exists x :: DeclaresExtension(f, x) && x.extendee == "." + containing && x.number == n
  }

  // ---------- in the order of registration ----------

  // What AddFile registers, one entry at a time and in this order.
  datatype Item = Symbol(name: string) | Extension(field: Field)

  function FieldItems(fields: seq<Field>): seq<Item> {
    if |fields| == 0 then [] else [Extension(fields[0])] + FieldItems(fields[1..])
  }

  function NestedItems(m: Message): seq<Item>
    decreases m, 1
  {
    AllNestedItems(m.nested) + FieldItems(m.extensions)
  }

  function AllNestedItems(ms: seq<Message>): seq<Item>
    decreases ms, 0
  {
    if |ms| == 0 then [] else NestedItems(ms[0]) + AllNestedItems(ms[1..])
  }

  function MessageItems(ms: seq<Message>): seq<Item> {
    if |ms| == 0 then [] else [Symbol(ms[0].name)] + NestedItems(ms[0]) + MessageItems(ms[1..])
  }

  function SymbolItems(names: seq<string>): seq<Item> {
    if |names| == 0 then [] else [Symbol(names[0])] + SymbolItems(names[1..])
  }

  function ExtensionItems(fields: seq<Field>): seq<Item> {
    if |fields| == 0 then []
    else [Symbol(fields[0].name), Extension(fields[0])] + ExtensionItems(fields[1..])
  }

  function Items(f: File): seq<Item> {
    MessageItems(f.messages) + (SymbolItems(f.enums) + (ExtensionItems(f.extensions) + SymbolItems(f.services)))
  }

  lemma {:induction false} FieldItemsAre(fields: seq<Field>, it: Item)
    ensures it in FieldItems(fields) <==> it.Extension? && it.field in fields
  {
    if |fields| > 0 {
      FieldItemsAre(fields[1..], it);
      assert fields == [fields[0]] + fields[1..];
    }
  }

  lemma {:induction false} NestedItemsAre(m: Message, it: Item)
    ensures it in NestedItems(m) <==> it.Extension? && DeclaredIn(m, it.field)
    decreases m, 1
  {
    AllNestedItemsAre(m.nested, it);
    FieldItemsAre(m.extensions, it);
  }

  lemma {:induction false} AllNestedItemsAre(ms: seq<Message>, it: Item)
    ensures it in AllNestedItems(ms) <==> it.Extension? && exists i :: 0 <= i < |ms| && DeclaredIn(ms[i], it.field)
    decreases ms, 0
  {
    hide DeclaredIn;
    if |ms| > 0 {
      NestedItemsAre(ms[0], it);
      AllNestedItemsAre(ms[1..], it);
      if it.Extension? && exists i :: 0 <= i < |ms| && DeclaredIn(ms[i], it.field) {
        var i :| 0 <= i < |ms| && DeclaredIn(ms[i], it.field);
        assert i > 0 ==> ms[1..][i - 1] == ms[i];
      }
    }
  }

  lemma {:induction false} MessageItemsAre(ms: seq<Message>, it: Item)
    ensures it.Symbol? ==> (it in MessageItems(ms) <==> exists i :: 0 <= i < |ms| && ms[i].name == it.name)
    ensures it.Extension? ==> (it in MessageItems(ms) <==> exists i :: 0 <= i < |ms| && DeclaredIn(ms[i], it.field))
  {
    hide DeclaredIn, NestedItems;
    if |ms| > 0 {
      NestedItemsAre(ms[0], it);
      MessageItemsAre(ms[1..], it);
      assert MessageItems(ms) == [Symbol(ms[0].name)] + NestedItems(ms[0]) + MessageItems(ms[1..]);
      assert forall i :: 1 <= i < |ms| ==> ms[i] == ms[1..][i - 1];
    }
  }

  lemma {:induction false} SymbolItemsAre(names: seq<string>, it: Item)
    ensures it in SymbolItems(names) <==> it.Symbol? && it.name in names
  {
    if |names| > 0 {
      SymbolItemsAre(names[1..], it);
      assert names == [names[0]] + names[1..];
    }
  }

  lemma {:induction false} ExtensionItemsAre(fields: seq<Field>, it: Item)
    ensures it.Symbol? ==> (it in ExtensionItems(fields) <==> exists i :: 0 <= i < |fields| && fields[i].name == it.name)
    ensures it.Extension? ==> (it in ExtensionItems(fields) <==> it.field in fields)
  {
    if |fields| > 0 {
      ExtensionItemsAre(fields[1..], it);
      assert fields == [fields[0]] + fields[1..];
      assert forall i :: 1 <= i < |fields| ==> fields[i] == fields[1..][i - 1];
    }
  }

  // Registered is exactly what the file declares.
  lemma ItemsAreDeclared(f: File, it: Item)
    ensures it in Items(f) <==> if it.Symbol? then DeclaresName(f, it.name) else DeclaresExtension(f, it.field)
  {
    hide DeclaredIn, MessageItems, SymbolItems, ExtensionItems;
    MessageItemsAre(f.messages, it);
    SymbolItemsAre(f.enums, it);
    ExtensionItemsAre(f.extensions, it);
    SymbolItemsAre(f.services, it);
  }

  // Extension fields are keyed by the extended type and the field number.
  type ExtensionKey = (string, int)

  predicate KeyLess(a: ExtensionKey, b: ExtensionKey) {
    Less(a.0, b.0) || (a.0 == b.0 && a.1 < b.1)
  }

  predicate FullyQualified(f: Field) {
    f.extendee != "" && f.extendee[0] == '.'
  }

  function KeyOf(f: Field): ExtensionKey
    requires FullyQualified(f)
  {
    (f.extendee[1..], f.number)
  }

  lemma KeyOfExtendee(x: Field, containing: string, n: int)
    ensures FullyQualified(x) && KeyOf(x) == (containing, n) <==> x.extendee == "." + containing && x.number == n
  {
    if FullyQualified(x) {
      assert x.extendee == "." + x.extendee[1..];
    }
    assert ("." + containing)[1..] == containing;
  }
}
