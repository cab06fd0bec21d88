// The byte-wise order of std::string and StringPiece, and the dotted-name
// relation that the descriptor databases build on it.
module NameOrder {
  import opened Ascii

  // Strict lexicographic order: a proper prefix sorts first, otherwise the
  // first differing character decides.
  predicate Less(a: string, b: string)
    decreases |a|
  {
    if |b| == 0 then false
    else if |a| == 0 then true
    else if a[0] != b[0] then a[0] < b[0]
    else Less(a[1..], b[1..])
  }

  predicate AtMost(a: string, b: string) {
    !Less(b, a)
  }

  predicate HasPrefix(s: string, prefix: string) {
    |prefix| <= |s| && s[..|prefix|] == prefix
  }

  // IsSubSymbol(k, s) of the source: k is s itself or a dotted parent of s.
  predicate Encloses(k: string, s: string) {
    k == s || (HasPrefix(s, k) && s[|k|] == '.')
  }

  predicate ValidChar(c: char) {
    c == '.' || c == '_' || '0' <= c <= '9' || 'A' <= c <= 'Z' || 'a' <= c <= 'z'
  }

  // Letters, digits, dots and underscores.
  lemma ValidCharsAre(c: char)
    ensures ValidChar(c) <==> c == '.' || c == '_' || c in DIGITS || c in LARGE || c in SMALL
  {
    Alphabets();
    if '0' <= c <= '9' {
      assert c == DIGITS[c as int - 48];
    } else if 'A' <= c <= 'Z' {
      assert c == LARGE[c as int - 65];
    } else if 'a' <= c <= 'z' {
      assert c == SMALL[c as int - 97];
    }
  }

  predicate ValidName(s: string) {
    forall i | 0 <= i < |s| :: ValidChar(s[i])
  }

  // Position of the first character where a and b part, or the length of the
  // shorter one.
  ghost function Parting(a: string, b: string): (p: nat)
    ensures p <= |a| && p <= |b|
    ensures a[..p] == b[..p]
    ensures p < |a| && p < |b| ==> a[p] != b[p]
    decreases |a|
  {
    if |a| == 0 || |b| == 0 || a[0] != b[0] then 0
    else
      var q := Parting(a[1..], b[1..]);
      assert a[..q + 1] == [a[0]] + a[1..][..q];
      assert b[..q + 1] == [b[0]] + b[1..][..q];
      q + 1
  }

  // Less is decided at the parting point.
  lemma {:induction false} LessAtParting(a: string, b: string)
    ensures var p := Parting(a, b);
            Less(a, b) <==> (p < |b| && (p == |a| || a[p] < b[p]))
    decreases |a|
  {
    if |a| != 0 && |b| != 0 && a[0] == b[0] {
      LessAtParting(a[1..], b[1..]);
    }
  }

  // Any common prefix followed by a difference also decides Less.
  lemma {:induction false} LessFrom(a: string, b: string, p: nat)
    requires p <= |a| && p <= |b| && a[..p] == b[..p]
    ensures Less(a, b) <==> Less(a[p..], b[p..])
    decreases p
  {
    if p == 0 {
      assert a[0..] == a && b[0..] == b;
    } else {
      assert a[0] == a[..p][0] && b[0] == b[..p][0];
      assert a[1..][..p - 1] == a[..p][1..] && b[1..][..p - 1] == b[..p][1..];
      LessFrom(a[1..], b[1..], p - 1);
      assert a[1..][p - 1..] == a[p..] && b[1..][p - 1..] == b[p..];
    }
  }

  lemma {:induction false} LessIrreflexive(a: string)
    ensures !Less(a, a)
  {
    if |a| != 0 {
      LessIrreflexive(a[1..]);
    }
  }

  lemma {:induction false} LessTotal(a: string, b: string)
    ensures a == b || Less(a, b) || Less(b, a)
    decreases |a|
  {
    if |a| != 0 && |b| != 0 && a[0] == b[0] {
      LessTotal(a[1..], b[1..]);
      assert a == [a[0]] + a[1..] && b == [b[0]] + b[1..];
    }
  }

  lemma {:induction false} LessTransitive(a: string, b: string, c: string)
    requires Less(a, b) && Less(b, c)
    ensures Less(a, c)
    decreases |a|
  {
    if |a| != 0 && a[0] == b[0] && b[0] == c[0] {
      LessTransitive(a[1..], b[1..], c[1..]);
    }
  }

  lemma LessAsymmetric(a: string, b: string)
    requires Less(a, b)
    ensures !Less(b, a)
  {
    if Less(b, a) {
      LessTransitive(a, b, a);
      LessIrreflexive(a);
    }
  }

  // Step (3) of the header's argument: a name that encloses s sorts at or
  // before s.
  lemma EnclosesAtMost(k: string, s: string)
    requires Encloses(k, s)
    ensures AtMost(k, s)
    ensures k != s ==> Less(k, s)
  {
    if k == s {
      LessIrreflexive(s);
    } else {
      assert k[..|k|] == k;
      LessFrom(k, s, |k|);
      assert k[|k|..] == "";
      LessAsymmetric(k, s);
    }
  }

  // Steps (5) to (8): a valid name strictly between a name and a symbol
  // under it is itself a symbol under it, because '.' sorts before every
  // other legal character.
  lemma BetweenIsEnclosed(m: string, f: string, s: string)
    requires Encloses(m, s) && Less(m, f) && AtMost(f, s)
    requires ValidName(f)
    ensures Encloses(m, f) && m != f
  {
    LessIrreflexive(m);
    var p := Parting(m, f);
    LessAtParting(m, f);
    if p < |m| {
      // f parts upwards inside m, so it sorts after every extension of m.
      assert s[..p] == s[..|m|][..p] == m[..p] == f[..p];
      assert s[p] == m[p] < f[p];
      LessFrom(s, f, p);
    } else {
      assert m == m[..p] == f[..p];
      assert s[..p] == m;
      LessFrom(s, f, p);
      assert ValidChar(f[p]);
      assert s[p..][0] == '.' && f[p..][0] == f[p];
    }
  }
}
