// MergedDescriptorDatabase: several databases searched in order, where a file
// of an earlier source hides a file of the same name in a later one.
module MergedDatabase {
  import opened Wrappers
  import opened DescriptorFile

  // Any database, seen through its lookups. A source that knows no extension
  // of a type answers None.
  datatype Source = Source(
    fileByName: string -> Option<File>,
    fileBySymbol: string -> Option<File>,
    fileByExtension: ExtensionKey -> Option<File>,
    extensionNumbers: string -> Option<seq<int>>)

  // The source finds by name the very files it finds by symbol or extension.
  ghost predicate Coherent(s: Source) {
    && (forall n :: s.fileBySymbol(n).Some? ==> s.fileByName(s.fileBySymbol(n).value.name) == s.fileBySymbol(n))
    && (forall k :: s.fileByExtension(k).Some? ==> s.fileByName(s.fileByExtension(k).value.name) == s.fileByExtension(k))
  }

  // The answer of the first source that has one.
  function FirstAnswer(sources: seq<Source>, ask: Source -> Option<File>): Option<File> {
    if |sources| == 0 then None
    else if ask(sources[0]).Some? then ask(sources[0])
    else FirstAnswer(sources[1..], ask)
  }

  ghost predicate FirstAt(sources: seq<Source>, ask: Source -> Option<File>, i: nat) {
    i < |sources| && ask(sources[i]).Some? && forall j | 0 <= j < i :: ask(sources[j]).None?
  }

  lemma {:induction false} FirstAnswerAt(sources: seq<Source>, ask: Source -> Option<File>, i: nat)
    requires FirstAt(sources, ask, i)
    ensures FirstAnswer(sources, ask) == ask(sources[i])
  {
    if i > 0 {
      assert ask(sources[0]).None?;
      FirstAnswerAt(sources[1..], ask, i - 1);
    }
  }

  lemma {:induction false} NoAnswer(sources: seq<Source>, ask: Source -> Option<File>)
    requires forall j | 0 <= j < |sources| :: ask(sources[j]).None?
    ensures FirstAnswer(sources, ask).None?
  {
    if |sources| > 0 {
      NoAnswer(sources[1..], ask);
    }
  }

  // Some earlier source defines a file of that name.
  ghost predicate Hidden(sources: seq<Source>, i: nat, name: string) {
    exists j :: 0 <= j < i && j < |sources| && sources[j].fileByName(name).Some?
  }

  lemma {:induction false} SomeFirst(sources: seq<Source>, ask: Source -> Option<File>) returns (i: nat)
    requires exists j :: 0 <= j < |sources| && ask(sources[j]).Some?
    ensures FirstAt(sources, ask, i)
  {
    if ask(sources[0]).Some? {
      i := 0;
    } else {
      var j :| 0 <= j < |sources| && ask(sources[j]).Some?;
      assert sources[1..][j - 1] == sources[j];
      i := SomeFirst(sources[1..], ask);
      i := i + 1;
    }
  }

  // A coherent source's file that is not hidden is what its name finds.
  lemma UnhiddenIsNamed(sources: seq<Source>, ask: Source -> Option<File>, i: nat)
    requires FirstAt(sources, ask, i)
    requires !Hidden(sources, i, ask(sources[i]).value.name)
    requires sources[i].fileByName(ask(sources[i]).value.name) == ask(sources[i])
    ensures FirstAnswer(sources, (s: Source) => s.fileByName(ask(sources[i]).value.name)) == ask(sources[i])
  {
    FirstAnswerAt(sources, (s: Source) => s.fileByName(ask(sources[i]).value.name), i);
  }

  // Sorted, duplicate-free lists: std::set<int> in iteration order.
  ghost predicate Ascending(s: seq<int>) {
    forall i, j | 0 <= i < j < |s| :: s[i] < s[j]
  }

  function Inserted(s: seq<int>, n: int): seq<int> {
    if |s| == 0 || n < s[0] then [n] + s
    else if n == s[0] then s
    else [s[0]] + Inserted(s[1..], n)
  }

  lemma {:induction false} InsertedIsUnion(s: seq<int>, n: int)
    requires Ascending(s)
    ensures Ascending(Inserted(s, n))
    ensures forall x :: x in Inserted(s, n) <==> x == n || x in s
  {
    if |s| != 0 && n > s[0] {
      assert s == [s[0]] + s[1..];
      InsertedIsUnion(s[1..], n);
      var t := Inserted(s[1..], n);
      forall i | 0 <= i < |t| ensures s[0] < t[i] {
        assert t[i] in t;
      }
    }
  }

  class MergedDescriptorDatabase {
    const sources: seq<Source>

    constructor (sources: seq<Source>)
      ensures this.sources == sources
    {
      this.sources := sources;
    }

    method FindFileByName(filename: string) returns (r: Option<File>)
      ensures r == FirstAnswer(sources, (s: Source) => s.fileByName(filename))
    {
      ghost var ask := (s: Source) => s.fileByName(filename);
      for i := 0 to |sources|
        invariant forall j | 0 <= j < i :: sources[j].fileByName(filename).None?
      {
        r := sources[i].fileByName(filename);
        if r.Some? {
          FirstAnswerAt(sources, ask, i);
          return;
        }
      }
      NoAnswer(sources, ask);
      r := None;
    }

    // The lookup shared by symbols and extensions: take the first source that
    // answers, unless an earlier source has a file of the same name.
    method FindUnhidden(ask: Source -> Option<File>) returns (r: Option<File>)
      ensures forall i: nat | FirstAt(sources, ask, i) ::
                r == if Hidden(sources, i, ask(sources[i]).value.name) then None else ask(sources[i])
      ensures r.Some? ==> exists i :: 0 <= i < |sources| && ask(sources[i]).Some?
    {
      for i := 0 to |sources|
        invariant forall j | 0 <= j < i :: ask(sources[j]).None?
      {
        r := ask(sources[i]);
        if r.Some? {
          assert forall k: nat | FirstAt(sources, ask, k) :: k == i;
          for j := 0 to i
            invariant !Hidden(sources, j, r.value.name)
          {
            if sources[j].fileByName(r.value.name).Some? {
              assert Hidden(sources, i, r.value.name);
              return None;
            }
          }
          return;
        }
      }
      r := None;
    }

    // The answer is that of the first source that has one. A file found by
    // symbol is the file its own name finds, whatever the sources disagree
    // about; and a hit is only ever dropped because it is hidden.
    method FindFileContainingSymbol(name: string) returns (r: Option<File>)
      ensures (forall s | s in sources :: Coherent(s)) && r.Some? ==>
                FirstAnswer(sources, (s: Source) => s.fileByName(r.value.name)) == r
      ensures forall i: nat | FirstAt(sources, (s: Source) => s.fileBySymbol(name), i) ::
                r == if Hidden(sources, i, sources[i].fileBySymbol(name).value.name) then None else sources[i].fileBySymbol(name)
      ensures r.None? <==>
                forall i: nat | FirstAt(sources, (s: Source) => s.fileBySymbol(name), i) ::
                  Hidden(sources, i, sources[i].fileBySymbol(name).value.name)
    {
      var ask := (s: Source) => s.fileBySymbol(name);
      r := FindUnhidden(ask);
      if exists j :: 0 <= j < |sources| && ask(sources[j]).Some? {
        var i := SomeFirst(sources, ask);
        assert forall k: nat | FirstAt(sources, ask, k) :: k == i;
        if r.Some? && forall s | s in sources :: Coherent(s) {
          assert Coherent(sources[i]);
          UnhiddenIsNamed(sources, ask, i);
        }
      }
    }

    method FindFileContainingExtension(key: ExtensionKey) returns (r: Option<File>)
      ensures (forall s | s in sources :: Coherent(s)) && r.Some? ==>
                FirstAnswer(sources, (s: Source) => s.fileByName(r.value.name)) == r
      ensures forall i: nat | FirstAt(sources, (s: Source) => s.fileByExtension(key), i) ::
                r == if Hidden(sources, i, sources[i].fileByExtension(key).value.name) then None else sources[i].fileByExtension(key)
      ensures r.None? <==>
                forall i: nat | FirstAt(sources, (s: Source) => s.fileByExtension(key), i) ::
                  Hidden(sources, i, sources[i].fileByExtension(key).value.name)
    {
      var ask := (s: Source) => s.fileByExtension(key);
      r := FindUnhidden(ask);
      if exists j :: 0 <= j < |sources| && ask(sources[j]).Some? {
        var i := SomeFirst(sources, ask);
        assert forall k: nat | FirstAt(sources, ask, k) :: k == i;
        if r.Some? && forall s | s in sources :: Coherent(s) {
          assert Coherent(sources[i]);
          UnhiddenIsNamed(sources, ask, i);
        }
      }
    }

    // The numbers known to any source, without duplicates and in increasing
    // order, are appended to what the output held before.
    method FindAllExtensionNumbers(extendee: string, output: seq<int>) returns (success: bool, appended: seq<int>)
      ensures success <==> exists i :: 0 <= i < |sources| && sources[i].extensionNumbers(extendee).Some?
      ensures |output| <= |appended| && appended[..|output|] == output
      ensures Ascending(appended[|output|..])
      ensures forall n :: n in appended[|output|..] <==>
                exists i :: 0 <= i < |sources| && sources[i].extensionNumbers(extendee).Some?
                            && n in sources[i].extensionNumbers(extendee).value
    {
      var merged: seq<int> := [];
      success := false;
      for i := 0 to |sources|
        invariant Ascending(merged)
        invariant success <==> exists k :: 0 <= k < i && sources[k].extensionNumbers(extendee).Some?
        invariant forall n :: n in merged <==>
                    exists k :: 0 <= k < i && sources[k].extensionNumbers(extendee).Some?
                                && n in sources[k].extensionNumbers(extendee).value
      {
        var results := sources[i].extensionNumbers(extendee);
        if results.Some? {
          ghost var before := merged;
          for j := 0 to |results.value|
            invariant Ascending(merged)
            invariant forall n :: n in merged <==> n in before || n in results.value[..j]
          {
            InsertedIsUnion(merged, results.value[j]);
            merged := Inserted(merged, results.value[j]);
          }
          assert results.value[..|results.value|] == results.value;
          success := true;
        }
      }
      appended := output + merged;
      assert appended[|output|..] == merged;
    }
  }
}
