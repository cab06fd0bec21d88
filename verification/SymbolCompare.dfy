// The comparator of the encoded index, which orders (package, symbol) entries
// and plain names without building the dotted names in the common cases.
module SymbolCompare {
  import opened NameOrder

  datatype Name =
    | Entry(package: string, symbol: string)
    | Plain(text: string)

  function AsString(n: Name): string {
    match n
    case Entry(p, s) => if p == "" then s else p + "." + s
    case Plain(t) => t
  }

  function GetParts(n: Name): (string, string) {
    match n
    case Entry(p, s) => if p == "" then (s, "") else (p, s)
    case Plain(t) => (t, "")
  }

  function Shortened(s: string, n: nat): string {
    if |s| <= n then s else s[..n]
  }

  predicate Compare(lhs: Name, rhs: Name) {
    var l := GetParts(lhs);
    var r := GetParts(rhs);
    var lhead := Shortened(l.0, |r.0|);
    var rhead := Shortened(r.0, |l.0|);
    if lhead != rhead then Less(lhead, rhead)
    else if |l.0| == |r.0| then Less(l.1, r.1)
    else Less(AsString(lhs), AsString(rhs))
  }

  // A symbol in a package is not empty.
  predicate Proper(n: Name) {
    n.Entry? && n.package != "" ==> n.symbol != ""
  }

  lemma PartsPrefix(n: Name)
    ensures HasPrefix(AsString(n), GetParts(n).0)
    ensures Proper(n) ==> (AsString(n) == GetParts(n).0 <==> GetParts(n).1 == "")
    ensures GetParts(n).1 != "" ==> AsString(n)[|GetParts(n).0|..] == "." + GetParts(n).1
  {
    if n.Entry? && n.package != "" {
      assert AsString(n) == n.package + ("." + n.symbol);
    }
  }

  // Heads of equal length that differ decide the order of whatever follows.
  lemma HeadsDecide(a: string, b: string, n: nat)
    requires n <= |a| && n <= |b| && a[..n] != b[..n]
    ensures Less(a, b) <==> Less(a[..n], b[..n])
  {
    var p := Parting(a[..n], b[..n]);
    assert a[..p] == a[..n][..p] && b[..p] == b[..n][..p];
    LessFrom(a, b, p);
    LessFrom(a[..n], b[..n], p);
  }

  // The fast path decides exactly the order of the full dotted names, for
  // every mix of entries and plain names.
  lemma CompareIsNameOrder(l: Name, r: Name)
    requires Proper(l) && Proper(r)
    ensures Compare(l, r) <==> Less(AsString(l), AsString(r))
  {
    var a, b := AsString(l), AsString(r);
    var lf, rf := GetParts(l).0, GetParts(r).0;
    PartsPrefix(l);
    PartsPrefix(r);
    var n := if |lf| < |rf| then |lf| else |rf|;
    assert Shortened(lf, |rf|) == a[..n] by { assert a[..|lf|][..n] == a[..n]; }
    assert Shortened(rf, |lf|) == b[..n] by { assert b[..|rf|][..n] == b[..n]; }
    if a[..n] != b[..n] {
      HeadsDecide(a, b, n);
    } else if |lf| == |rf| {
      LessFrom(a, b, n);
      var ls, rs := GetParts(l).1, GetParts(r).1;
      if ls != "" && rs != "" {
        LessFrom("." + ls, "." + rs, 1);
        assert ("." + ls)[1..] == ls && ("." + rs)[1..] == rs;
      }
    }
  }

  // The condition is needed: an entry with a package and an empty symbol is
  // misordered against its own package name.
  lemma EmptySymbolIsMisordered(l: Name)
    requires !Proper(l)
    ensures !Compare(Plain(l.package), l) && Less(l.package, AsString(l))
  {
    assert AsString(l)[..|l.package|] == l.package[..|l.package|];
    LessFrom(l.package, AsString(l), |l.package|);
  }

  lemma ProperIffOrdered(l: Name)
    ensures Proper(l) <==> forall r | Proper(r) ::
              (Compare(r, l) <==> Less(AsString(r), AsString(l))) && (Compare(l, r) <==> Less(AsString(l), AsString(r)))
  {
    if Proper(l) {
      forall r | Proper(r)
        ensures (Compare(r, l) <==> Less(AsString(r), AsString(l))) && (Compare(l, r) <==> Less(AsString(l), AsString(r)))
      {
        CompareIsNameOrder(l, r);
        CompareIsNameOrder(r, l);
      }
    } else {
      EmptySymbolIsMisordered(l);
      assert Proper(Plain(l.package)) && AsString(Plain(l.package)) == l.package;
    }
  }

  // Hence a strict weak order whose equivalent entries are exactly those
  // with the same dotted name.
  lemma CompareIsStrictWeakOrder(a: Name, b: Name, c: Name)
    requires Proper(a) && Proper(b) && Proper(c)
    ensures !Compare(a, a)
    ensures Compare(a, b) && Compare(b, c) ==> Compare(a, c)
    ensures !Compare(a, b) && !Compare(b, a) <==> AsString(a) == AsString(b)
  {
    CompareIsNameOrder(a, a);
    CompareIsNameOrder(a, b);
    CompareIsNameOrder(b, a);
    CompareIsNameOrder(b, c);
    CompareIsNameOrder(a, c);
    LessIrreflexive(AsString(a));
    LessTotal(AsString(a), AsString(b));
    if Compare(a, b) && Compare(b, c) {
      LessTransitive(AsString(a), AsString(b), AsString(c));
    }
  }
}
