// The packet generator's assignment of packet ids: the server runs it with
// the prefixes C_ and S_, the client with the two exchanged.
module PacketIds {
  import opened Ascii

  datatype Packet = Packet(name: string, id: int)

  // ---------- lines and words ----------

  // What str.split takes for white space.
  predicate IsSpace(c: char) {
    || c == ' ' || '\t' <= c <= '\r' || '\U{1c}' <= c <= '\U{1f}'
    || c == '\U{85}' || c == '\U{a0}' || c == '\U{1680}' || '\U{2000}' <= c <= '\U{200a}'
    || c == '\U{2028}' || c == '\U{2029}' || c == '\U{202f}' || c == '\U{205f}' || c == '\U{3000}'
  }

  function UpperChar(c: char): char {
    if 'a' <= c <= 'z' then c - 'a' + 'A' else c
  }

  function Upper(s: string): (r: string)
    ensures |r| == |s|
  {
    if s == [] then [] else [UpperChar(s[0])] + Upper(s[1..])
  }

  function SkipSpaces(s: string): (r: string)
    ensures |r| <= |s|
  {
    if s != [] && IsSpace(s[0]) then SkipSpaces(s[1..]) else s
  }

  function FirstWord(s: string): (r: string)
    ensures |r| <= |s|
  {
    if s == [] || IsSpace(s[0]) then [] else [s[0]] + FirstWord(s[1..])
  }

  // line.split()
  function Split(s: string): seq<string>
    decreases |s|
  {
    var rest := SkipSpaces(s);
    if rest == [] then [] else
    var word := FirstWord(rest);
    if word == [] then [] else [word] + Split(rest[|word|..])
  }

  predicate StartsWith(s: string, prefix: string) {
    prefix <= s
  }

  const MESSAGE := "message"

  // ---------- the specification ----------

  // ok is false once a message line has no second word, where the run stops.
  datatype Assignment = Assignment(recv: seq<Packet>, send: seq<Packet>, total: seq<Packet>, next: int, ok: bool)

  predicate IsMessage(line: string) {
    StartsWith(line, MESSAGE)
  }

  predicate IsNamed(line: string) {
    |Split(line)| > 1
  }

  function Name(line: string): string
    requires IsNamed(line)
  {
    Upper(Split(line)[1])
  }

  // What one line adds to the lists of recv and send.
  function AfterLine(a: Assignment, line: string, recv: string, send: string): Assignment {
    if !a.ok || !IsMessage(line) then a
    else if !IsNamed(line) then a.(ok := false)
    else
      var p := Packet(Name(line), a.next);
      if StartsWith(p.name, recv) then a.(recv := a.recv + [p], total := a.total + [p], next := a.next + 1)
      else if StartsWith(p.name, send) then a.(send := a.send + [p], total := a.total + [p], next := a.next + 1)
      else a
  }

  // A file's lines after what was assigned before.
  function Continued(a: Assignment, lines: seq<string>, recv: string, send: string): Assignment {
    if |lines| == 0 then a
    else AfterLine(Continued(a, lines[..|lines| - 1], recv, send), lines[|lines| - 1], recv, send)
  }

  function Assigned(lines: seq<string>, startId: int, recv: string, send: string): Assignment {
    Continued(Assignment([], [], [], startId, true), lines, recv, send)
  }

  // Two files after each other are one.
  lemma {:induction false} ContinuedSplit(a: Assignment, x: seq<string>, y: seq<string>, recv: string, send: string)
    ensures Continued(a, x + y, recv, send) == Continued(Continued(a, x, recv, send), y, recv, send)
    decreases |y|
  {
    hide AfterLine;
    if |y| == 0 {
      assert x + y == x;
    } else {
      ContinuedSplit(a, x, y[..|y| - 1], recv, send);
      assert (x + y)[..|x + y| - 1] == x + y[..|y| - 1];
    }
  }

  // ---------- the assigner ----------

  class ProtoParser {
    var recvPkt: seq<Packet>
    var sendPkt: seq<Packet>
    var totalPkt: seq<Packet>
    var id: int
    const startId: int
    const recvPrefix: string
    const sendPrefix: string

    ghost predicate Holds(a: Assignment)
      reads this
    {
      recvPkt == a.recv && sendPkt == a.send && totalPkt == a.total && id == a.next
    }

    // What has been assigned so far, by whichever files.
    ghost function SoFar(): Assignment
      reads this
    {
      Assignment(recvPkt, sendPkt, totalPkt, id, true)
    }

    constructor (startId: int, recvPrefix: string, sendPrefix: string)
      ensures this.startId == startId && this.recvPrefix == recvPrefix && this.sendPrefix == sendPrefix
      ensures Holds(Assigned([], startId, recvPrefix, sendPrefix))
    {
      recvPkt, sendPkt, totalPkt := [], [], [];
      id := startId;
      this.startId, this.recvPrefix, this.sendPrefix := startId, recvPrefix, sendPrefix;
    }

    // False stands for the error raised on a message line without a name.
    method ParseProto(lines: seq<string>) returns (ok: bool)
      modifies this
      ensures Holds(Continued(old(SoFar()), lines, recvPrefix, sendPrefix))
      ensures ok == Continued(old(SoFar()), lines, recvPrefix, sendPrefix).ok
    {
      ghost var a := SoFar();
      for i := 0 to |lines|
        invariant Holds(Continued(a, lines[..i], recvPrefix, sendPrefix))
        invariant Continued(a, lines[..i], recvPrefix, sendPrefix).ok
      {
        assert lines[..i + 1][..i] == lines[..i];
        var line := lines[i];
        if !StartsWith(line, MESSAGE) {
          continue;
        }
        var words := Split(line);
        if |words| <= 1 {
          StopsHere(a, lines, i + 1, recvPrefix, sendPrefix);
          return false;
        }
        var pktName := Upper(words[1]);
        if StartsWith(pktName, recvPrefix) {
          recvPkt := recvPkt + [Packet(pktName, id)];
        } else if StartsWith(pktName, sendPrefix) {
          sendPkt := sendPkt + [Packet(pktName, id)];
        } else {
          continue;
        }
        totalPkt := totalPkt + [Packet(pktName, id)];
        id := id + 1;
      }
      assert lines[..|lines|] == lines;
      ok := true;
    }
  }

  // Once the run has stopped, later lines add nothing.
  lemma {:induction false} StopsHere(a: Assignment, lines: seq<string>, n: nat, recv: string, send: string)
    requires n <= |lines| && !Continued(a, lines[..n], recv, send).ok
    ensures Continued(a, lines, recv, send) == Continued(a, lines[..n], recv, send)
  {
    if n < |lines| {
      assert lines[..|lines| - 1][..n] == lines[..n];
      StopsHere(a, lines[..|lines| - 1], n, recv, send);
    } else {
      assert lines[..n] == lines;
    }
  }

  // ---------- what it promises ----------

  // Ids are consecutive from the start id.
  lemma {:induction false} IdsAreConsecutive(lines: seq<string>, startId: int, recv: string, send: string)
    ensures var a := Assigned(lines, startId, recv, send);
            && a.next == startId + |a.total|
            && forall k :: 0 <= k < |a.total| ==> a.total[k].id == startId + k
  {
    if |lines| > 0 {
      IdsAreConsecutive(lines[..|lines| - 1], startId, recv, send);
    }
  }

  // Of a list, the packets that satisfy StartsWith(prefix), or do not.
  function Filter(ps: seq<Packet>, prefix: string, keep: bool): seq<Packet> {
    if |ps| == 0 then [] else
    Filter(ps[..|ps| - 1], prefix, keep) +
      if StartsWith(ps[|ps| - 1].name, prefix) == keep then [ps[|ps| - 1]] else []
  }

  lemma FilterOne(ps: seq<Packet>, p: Packet, prefix: string, keep: bool)
    ensures Filter(ps + [p], prefix, keep) ==
            Filter(ps, prefix, keep) + if StartsWith(p.name, prefix) == keep then [p] else []
  {
    assert (ps + [p])[..|ps|] == ps;
  }

  // The total list is dealt out, in order, between the received packets (whose
  // names start with the first prefix) and the sent ones (the others).
  lemma {:induction false} TotalIsDealtOut(lines: seq<string>, startId: int, recv: string, send: string)
    ensures var a := Assigned(lines, startId, recv, send);
            a.recv == Filter(a.total, recv, true) && a.send == Filter(a.total, recv, false)
    ensures forall p :: p in Assigned(lines, startId, recv, send).total ==>
              StartsWith(p.name, recv) || StartsWith(p.name, send)
  {
    hide Name, IsMessage, IsNamed, StartsWith;
    if |lines| > 0 {
      var a := Assigned(lines[..|lines| - 1], startId, recv, send);
      var line := lines[|lines| - 1];
      TotalIsDealtOut(lines[..|lines| - 1], startId, recv, send);
      if a.ok && IsMessage(line) && IsNamed(line) {
        FilterOne(a.total, Packet(Name(line), a.next), recv, true);
        FilterOne(a.total, Packet(Name(line), a.next), recv, false);
      }
    }
  }

  // Exchanging the prefixes changes no id and not the order.
  lemma {:induction false} SwapKeepsIds(lines: seq<string>, startId: int, recv: string, send: string)
    ensures var a, b := Assigned(lines, startId, recv, send), Assigned(lines, startId, send, recv);
            a.total == b.total && a.next == b.next && a.ok == b.ok
  {
    if |lines| > 0 {
      SwapKeepsIds(lines[..|lines| - 1], startId, recv, send);
    }
  }

  predicate Ambiguous(ps: seq<Packet>, recv: string, send: string) {
    exists k :: 0 <= k < |ps| && StartsWith(ps[k].name, recv) && StartsWith(ps[k].name, send)
  }

  lemma {:induction false} FiltersExchange(ps: seq<Packet>, recv: string, send: string)
    requires forall p :: p in ps ==> StartsWith(p.name, recv) || StartsWith(p.name, send)
    ensures |Filter(ps, send, true)| >= |Filter(ps, recv, false)|
    ensures !Ambiguous(ps, recv, send) ==> Filter(ps, send, true) == Filter(ps, recv, false)
    ensures |Filter(ps, send, true)| == |Filter(ps, recv, false)| ==> !Ambiguous(ps, recv, send)
  {
    if |ps| > 0 {
      var ps' := ps[..|ps| - 1];
      FiltersExchange(ps', recv, send);
      assert Ambiguous(ps', recv, send) ==> Ambiguous(ps, recv, send);
      var p := ps[|ps| - 1];
      assert p in ps;
      if StartsWith(p.name, recv) && StartsWith(p.name, send) {
        assert Ambiguous(ps, recv, send);
      } else {
        forall k | 0 <= k < |ps| && StartsWith(ps[k].name, recv) && StartsWith(ps[k].name, send)
          ensures Ambiguous(ps', recv, send)
        {
          assert ps'[k] == ps[k];
        }
      }
    }
  }

  // The two sides agree: with the prefixes exchanged every packet has the same
  // id, and what one side receives the other sends, if and only if no packet's
  // name starts with both prefixes.
  lemma SwapExchangesLists(lines: seq<string>, startId: int, recv: string, send: string)
    ensures var a, b := Assigned(lines, startId, recv, send), Assigned(lines, startId, send, recv);
            a.recv == b.send && a.send == b.recv <==> !Ambiguous(a.total, recv, send)
  {
    var a := Assigned(lines, startId, recv, send);
    SwapKeepsIds(lines, startId, recv, send);
    TotalIsDealtOut(lines, startId, recv, send);
    TotalIsDealtOut(lines, startId, send, recv);
    FiltersExchange(a.total, recv, send);
    FiltersExchange(a.total, send, recv);
    assert Ambiguous(a.total, send, recv) == Ambiguous(a.total, recv, send);
  }

  // No name starts with both prefixes when neither prefix starts with the
  // other.
  lemma DistinctPrefixesNeverClash(ps: seq<Packet>, recv: string, send: string)
    requires !StartsWith(recv, send) && !StartsWith(send, recv)
    ensures !Ambiguous(ps, recv, send)
  {
    forall k | 0 <= k < |ps| && StartsWith(ps[k].name, recv) && StartsWith(ps[k].name, send)
      ensures false
    {
      OnePrefixesTheOther(ps[k].name, recv, send);
    }
  }

  lemma OnePrefixesTheOther(name: string, p: string, q: string)
    requires StartsWith(name, p) && StartsWith(name, q)
    ensures StartsWith(p, q) || StartsWith(q, p)
  {
    if |p| <= |q| {
      assert name[..|q|] == q && name[..|p|] == p;
      assert q[..|p|] == p;
    } else {
      assert name[..|q|] == q && name[..|p|] == p;
      assert p[..|q|] == q;
    }
  }

  // ---------- the shipped protocol ----------

  function MessageLines(lines: seq<string>): seq<string> {
    if |lines| == 0 then [] else
    MessageLines(lines[..|lines| - 1]) + if IsMessage(lines[|lines| - 1]) then [lines[|lines| - 1]] else []
  }

  // Fields, braces, comments and everything else between the message lines
  // do not matter.
  lemma {:induction false} OnlyMessageLinesMatter(lines: seq<string>, startId: int, recv: string, send: string)
    ensures Assigned(lines, startId, recv, send) == Assigned(MessageLines(lines), startId, recv, send)
  {
    if |lines| > 0 {
      var before, line := lines[..|lines| - 1], lines[|lines| - 1];
      OnlyMessageLinesMatter(before, startId, recv, send);
      if IsMessage(line) {
        assert (MessageLines(before) + [line])[..|MessageLines(before)|] == MessageLines(before);
      } else {
        assert MessageLines(before) + [] == MessageLines(before);
      }
    }
  }

  predicate IsWord(w: string) {
    w != [] && forall i :: 0 <= i < |w| ==> !IsSpace(w[i])
  }

  lemma {:induction false} FirstWordOf(w: string, rest: string)
    requires IsWord(w) && (rest == [] || IsSpace(rest[0]))
    ensures FirstWord(w + rest) == w
  {
    assert (w + rest)[1..] == w[1..] + rest;
    if |w| > 1 {
      FirstWordOf(w[1..], rest);
    } else {
      assert (w + rest)[1..] == rest;
      assert FirstWord(rest) == [];
    }
  }

  lemma SplitWord(w: string, rest: string)
    requires IsWord(w) && (rest == [] || IsSpace(rest[0]))
    ensures Split(w + rest) == [w] + Split(rest)
  {
    FirstWordOf(w, rest);
    assert SkipSpaces(w + rest) == w + rest;
    assert (w + rest)[|w|..] == rest;
  }

  // ---------- upper and lower case ----------

  // c and d are the same letter in any case, or the same character.
  predicate SameLetter(c: char, d: char) {
    c == d || exists j :: 0 <= j < 26 && c in [SMALL[j], LARGE[j]] && d in [SMALL[j], LARGE[j]]
  }

  // Character by character: a small letter becomes the large one, everything
  // else stays, and no small letter is left.
  lemma UpperAt(s: string, i: nat)
    requires i < |s|
    ensures forall j :: 0 <= j < 26 && s[i] == SMALL[j] ==> Upper(s)[i] == LARGE[j]
    ensures s[i] !in SMALL ==> Upper(s)[i] == s[i]
    ensures Upper(s)[i] !in SMALL
  {
    hide Upper, UpperChar;
    UpperEach(s, i);
    UpperLetter(s[i]);
  }

  lemma {:induction false} UpperEach(s: string, i: nat)
    requires i < |s|
    ensures Upper(s)[i] == UpperChar(s[i])
  {
    hide UpperChar;
    if i > 0 {
      UpperEach(s[1..], i - 1);
    }
  }

  lemma UpperLetter(c: char)
    ensures forall j :: 0 <= j < 26 && c == SMALL[j] ==> UpperChar(c) == LARGE[j]
    ensures c !in SMALL ==> UpperChar(c) == c
    ensures UpperChar(c) !in SMALL
  {
    Alphabets();
    if 'a' <= c <= 'z' {
      assert c == SMALL[c as int - 97];
    }
  }

  ghost predicate SameName(s: string, t: string) {
    |s| == |t| && forall i :: 0 <= i < |s| ==> SameLetter(s[i], t[i])
  }

  lemma SameUpper(s: string, t: string)
    requires SameName(s, t)
    ensures Upper(s) == Upper(t)
  {
    hide Upper;
    Alphabets();
    forall i | 0 <= i < |s| ensures Upper(s)[i] == Upper(t)[i] {
      UpperAt(s, i);
      UpperAt(t, i);
      assert SameLetter(s[i], t[i]);
      LettersApart();
    }
  }

  // Each letter has one place in its alphabet, and none is in both.
  lemma LettersApart()
    ensures forall j, k :: 0 <= j < 26 && 0 <= k < 26 ==> SMALL[j] != LARGE[k]
    ensures forall j, k :: 0 <= j < k < 26 ==> SMALL[j] != SMALL[k] && LARGE[j] != LARGE[k]
  {
    Alphabets();
  }

  // Nothing that would lengthen the word before it.
  predicate Ends(rest: string) {
    rest == [] || IsSpace(rest[0])
  }

  // A line that declares a message: white space, a brace or nothing may
  // follow the name.
  function MessageLine(name: string, rest: string): string {
    "message " + name + rest
  }

  lemma MessageLineNames(name: string, rest: string)
    requires IsWord(name) && Ends(rest)
    ensures IsMessage(MessageLine(name, rest)) && IsNamed(MessageLine(name, rest))
    ensures Name(MessageLine(name, rest)) == Upper(name)
  {
    hide Upper, Split, SkipSpaces, FirstWord;
    assert MessageLine(name, rest) == MESSAGE + (" " + (name + rest));
    SplitWord(MESSAGE, " " + (name + rest));
    SplitAfterSpace(name, rest);
  }

  lemma SplitAfterSpace(name: string, rest: string)
    requires IsWord(name) && Ends(rest)
    ensures Split(" " + (name + rest)) == [name] + Split(rest)
  {
    var s := " " + (name + rest);
    assert s[1..] == name + rest;
    assert (name + rest)[0] == name[0];
    assert SkipSpaces(s) == SkipSpaces(name + rest) == name + rest;
    FirstWordOf(name, rest);
    assert (name + rest)[|name|..] == rest;
  }

  // The two lines are the same, or declare messages whose names differ in
  // case only.
  ghost predicate SameButForCase(line: string, line': string) {
    line == line' ||
    exists name, name', rest, rest' ::
      && line == MessageLine(name, rest) && line' == MessageLine(name', rest')
      && IsWord(name) && IsWord(name') && Ends(rest) && Ends(rest') && SameName(name, name')
  }

  lemma SameLineAfter(a: Assignment, line: string, line': string, recv: string, send: string)
    requires SameButForCase(line, line')
    ensures AfterLine(a, line, recv, send) == AfterLine(a, line', recv, send)
  {
    hide AfterLine, IsWord, MessageLine, SameName;
    if line != line' {
      var name, name', rest, rest' :|
        && line == MessageLine(name, rest) && line' == MessageLine(name', rest')
        && IsWord(name) && IsWord(name') && Ends(rest) && Ends(rest') && SameName(name, name');
      SameNames(a, name, name', rest, rest', recv, send);
    }
  }

  lemma SameNames(a: Assignment, name: string, name': string, rest: string, rest': string, recv: string, send: string)
    requires IsWord(name) && IsWord(name') && Ends(rest) && Ends(rest') && SameName(name, name')
    ensures AfterLine(a, MessageLine(name, rest), recv, send) == AfterLine(a, MessageLine(name', rest'), recv, send)
  {
    hide AfterLine, IsWord, MessageLine, SameName, Ends, Upper, IsMessage, IsNamed, Name;
    SameUpper(name, name');
    MessageLineNames(name, rest);
    MessageLineNames(name', rest');
    OnlyNamesMatter(a, MessageLine(name, rest), MessageLine(name', rest'), recv, send);
  }

  lemma OnlyNamesMatter(a: Assignment, line: string, line': string, recv: string, send: string)
    requires IsMessage(line) && IsMessage(line') && IsNamed(line) && IsNamed(line') && Name(line) == Name(line')
    ensures AfterLine(a, line, recv, send) == AfterLine(a, line', recv, send)
  {
    hide IsMessage, IsNamed, Name, StartsWith;
  }

  // Files that differ only in the case of their messages' names get the same
  // names, ids and lists.
  lemma {:induction false} CaseDoesNotMatter(lines: seq<string>, lines': seq<string>, startId: int, recv: string, send: string)
    requires |lines| == |lines'| && forall i :: 0 <= i < |lines| ==> SameButForCase(lines[i], lines'[i])
    ensures Assigned(lines, startId, recv, send) == Assigned(lines', startId, recv, send)
  {
    hide AfterLine, SameButForCase;
    if |lines| > 0 {
      var last := |lines| - 1;
      CaseDoesNotMatter(lines[..last], lines'[..last], startId, recv, send);
      SameLineAfter(Assigned(lines[..last], startId, recv, send), lines[last], lines'[last], recv, send);
    }
  }

  // One line in mixed case, with a brace behind the name.
  lemma MixedCaseLine()
    ensures Assigned(["message s_Go {\n"], 1000, "C_", "S_") ==
            Assignment([], [Packet("S_GO", 1000)], [Packet("S_GO", 1000)], 1001, true)
  {
    hide Upper, Split, MessageLine, IsMessage, IsNamed, Name, StartsWith, IsWord, Assigned;
    WrittenOut();
    MixedCaseName();
    MessageLineNames("s_Go", " {\n");
    AssignedOneMore([], MessageLine("s_Go", " {\n"), 1000, "C_", "S_");
    NothingAssigned(1000, "C_", "S_");
    Prefixed("S_GO", "C_");
    Prefixed("S_GO", "S_");
  }

  lemma WrittenOut()
    ensures [] + [MessageLine("s_Go", " {\n")] == ["message s_Go {\n"]
    ensures Ends(" {\n")
  {
    assert "message " + "s_Go" + " {\n" == "message s_Go {\n";
    assert [] + [MessageLine("s_Go", " {\n")] == [MessageLine("s_Go", " {\n")];
  }

  lemma NothingAssigned(startId: int, recv: string, send: string)
    ensures Assigned([], startId, recv, send) == Assignment([], [], [], startId, true)
  {
  }

  lemma MixedCaseName()
    ensures IsWord("s_Go") && Upper("s_Go") == "S_GO"
  {
    hide Upper;
    Alphabets();
    forall i | 0 <= i < 4 ensures Upper("s_Go")[i] == "S_GO"[i] {
      UpperAt("s_Go", i);
      assert "s_Go"[0] == SMALL[18] && "s_Go"[3] == SMALL[14];
    }
  }

  // ---------- the shipped ids ----------

  const SHIPPED: seq<string> := ["C_LOGIN", "S_LOGIN", "C_ENTER_GAME", "S_ENTER_GAME", "C_CHAT", "S_CHAT"]

  function MessageLinesOf(names: seq<string>): seq<string> {
    if |names| == 0 then [] else MessageLinesOf(names[..|names| - 1]) + [MessageLine(names[|names| - 1], "\n")]
  }

  lemma OneName(names: seq<string>, name: string, startId: int, recv: string, send: string)
    requires IsWord(name) && Upper(name) == name
    requires Assigned(MessageLinesOf(names), startId, recv, send).ok
    ensures var a := Assigned(MessageLinesOf(names), startId, recv, send);
            var b := Assigned(MessageLinesOf(names + [name]), startId, recv, send);
            var p := Packet(name, a.next);
            b == if StartsWith(name, recv) then a.(recv := a.recv + [p], total := a.total + [p], next := a.next + 1)
                 else if StartsWith(name, send) then a.(send := a.send + [p], total := a.total + [p], next := a.next + 1)
                 else a
  {
    hide MessageLine, Name, IsMessage, IsNamed, IsWord, Upper, StartsWith, Assigned;
    MessageLineNames(name, "\n");
    assert (names + [name])[..|names|] == names;
    AssignedOneMore(MessageLinesOf(names), MessageLine(name, "\n"), startId, recv, send);
  }

  lemma AssignedOneMore(lines: seq<string>, line: string, startId: int, recv: string, send: string)
    ensures Assigned(lines + [line], startId, recv, send) == AfterLine(Assigned(lines, startId, recv, send), line, recv, send)
  {
    hide AfterLine;
    assert (lines + [line])[..|lines|] == lines;
  }

  predicate NoLowerCase(s: string) {
    forall i :: 0 <= i < |s| ==> !('a' <= s[i] <= 'z')
  }

  lemma {:induction false} UpperKeeps(s: string)
    requires NoLowerCase(s)
    ensures Upper(s) == s
  {
    if s != [] {
      UpperKeeps(s[1..]);
    }
  }

  lemma ShippedName(i: nat)
    requires i < 6
    ensures IsWord(SHIPPED[i]) && Upper(SHIPPED[i]) == SHIPPED[i]
    ensures StartsWith(SHIPPED[i], "C_") <==> i % 2 == 0
    ensures StartsWith(SHIPPED[i], "S_") <==> i % 2 == 1
  {
    hide Upper;
    assert NoLowerCase(SHIPPED[i]);
    UpperKeeps(SHIPPED[i]);
    Prefixed(SHIPPED[i], "C_");
    Prefixed(SHIPPED[i], "S_");
  }

  lemma Prefixed(s: string, prefix: string)
    requires |s| >= 2 && |prefix| == 2
    ensures StartsWith(s, prefix) <==> s[0] == prefix[0] && s[1] == prefix[1]
  {
    assert s[..2] == [s[0], s[1]];
  }

  lemma NextShipped(i: nat)
    requires i < 6 && Assigned(MessageLinesOf(SHIPPED[..i]), 1000, "C_", "S_").ok
    ensures var a := Assigned(MessageLinesOf(SHIPPED[..i]), 1000, "C_", "S_");
            var b := Assigned(MessageLinesOf(SHIPPED[..i + 1]), 1000, "C_", "S_");
            var p := Packet(SHIPPED[i], a.next);
            b == if i % 2 == 0 then a.(recv := a.recv + [p], total := a.total + [p], next := a.next + 1)
                 else a.(send := a.send + [p], total := a.total + [p], next := a.next + 1)
  {
    hide Assigned, MessageLinesOf, Upper, IsWord, StartsWith;
    ShippedName(i);
    OneName(SHIPPED[..i], SHIPPED[i], 1000, "C_", "S_");
    assert SHIPPED[..i] + [SHIPPED[i]] == SHIPPED[..i + 1];
  }

  // PKT_C_LOGIN = 1000 up to PKT_S_CHAT = 1005
  function Numbered(i: nat): Packet
    requires i < 6
  {
    Packet(SHIPPED[i], 1000 + i)
  }

  // The shipped protocol file gets the ids that both generated headers list.
  lemma ShippedIds(lines: seq<string>)
    requires MessageLines(lines) == MessageLinesOf(SHIPPED)
    ensures var a := Assigned(lines, 1000, "C_", "S_");
            && a.ok
            && a.recv == [Numbered(0), Numbered(2), Numbered(4)]
            && a.send == [Numbered(1), Numbered(3), Numbered(5)]
  {
    hide Assigned, MessageLinesOf, MessageLines, Numbered;
    NoneShipped();
    OnlyMessageLinesMatter(lines, 1000, "C_", "S_");
    NextTwo(0, [], []);
    assert [] + [Numbered(0)] == [Numbered(0)] && [] + [Numbered(1)] == [Numbered(1)];
    NextTwo(2, [Numbered(0)], [Numbered(1)]);
    NextTwo(4, [Numbered(0), Numbered(2)], [Numbered(1), Numbered(3)]);
    assert SHIPPED[..6] == SHIPPED;
  }

  lemma NoneShipped()
    ensures Assigned(MessageLinesOf(SHIPPED[..0]), 1000, "C_", "S_") == Assignment([], [], [], 1000, true)
  {
  }

  lemma NextTwo(i: nat, recv: seq<Packet>, send: seq<Packet>)
    requires i < 5 && i % 2 == 0
    requires var a := Assigned(MessageLinesOf(SHIPPED[..i]), 1000, "C_", "S_");
             a.ok && a.next == 1000 + i && a.recv == recv && a.send == send
    ensures var b := Assigned(MessageLinesOf(SHIPPED[..i + 2]), 1000, "C_", "S_");
            && b.ok && b.next == 1000 + i + 2
            && b.recv == recv + [Numbered(i)] && b.send == send + [Numbered(i + 1)]
  {
    hide Assigned, MessageLinesOf;
    NextShipped(i);
    NextShipped(i + 1);
  }
}
