// Strictly sorted sequences of key-value pairs: the common shape of std::map,
// of std::set in iteration order and of the flattened std::vector copies.
module SortedVector {

  // What std::upper_bound and std::lower_bound return on a range that p
  // partitions: the first position at which p fails.
  function PartitionPoint<T>(s: seq<T>, p: T -> bool): (i: nat)
    ensures i <= |s|
    ensures forall j | 0 <= j < i :: p(s[j])
    ensures i < |s| ==> !p(s[i])
  {
    if |s| == 0 || !p(s[0]) then 0 else 1 + PartitionPoint(s[1..], p)
  }

  ghost predicate StrictOrder<K(!new)>(less: (K, K) -> bool) {
    && (forall a :: !less(a, a))
    && (forall a, b, c :: less(a, b) && less(b, c) ==> less(a, c))
    && (forall a, b :: a == b || less(a, b) || less(b, a))
  }

  ghost predicate Sorted<K, V>(less: (K, K) -> bool, s: seq<(K, V)>) {
    forall i, j | 0 <= i < j < |s| :: less(s[i].0, s[j].0)
  }

  ghost predicate HasKey<K(!new), V(!new)>(s: seq<(K, V)>, k: K) {
    exists v :: (k, v) in s
  }

  function UpperBound<K, V>(less: (K, K) -> bool, s: seq<(K, V)>, k: K): (i: nat)
    ensures i <= |s|
  {
    PartitionPoint(s, (e: (K, V)) => !less(k, e.0))
  }

  function LowerBound<K, V>(less: (K, K) -> bool, s: seq<(K, V)>, k: K): (i: nat)
    ensures i <= |s|
  {
    PartitionPoint(s, (e: (K, V)) => less(e.0, k))
  }

  function InsertSorted<K, V>(less: (K, K) -> bool, s: seq<(K, V)>, e: (K, V)): seq<(K, V)> {
    var i := UpperBound(less, s, e.0);
    s[..i] + [e] + s[i..]
  }

  // std::merge of two ranges: on equal keys the first range goes first.
  function Merge<K, V>(less: (K, K) -> bool, a: seq<(K, V)>, b: seq<(K, V)>): seq<(K, V)>
    decreases |a| + |b|
  {
    if |a| == 0 then b
    else if |b| == 0 then a
    else if less(b[0].0, a[0].0) then [b[0]] + Merge(less, a, b[1..])
    else [a[0]] + Merge(less, a[1..], b)
  }

  // The upper bound splits a sorted range: keys up to k before it, keys
  // beyond k from it on.
  lemma UpperBoundSplits<K(!new), V>(less: (K, K) -> bool, s: seq<(K, V)>, k: K)
    requires StrictOrder(less) && Sorted(less, s)
    ensures var i := UpperBound(less, s, k);
            && (forall j | 0 <= j < i :: !less(k, s[j].0))
            && (forall j | i <= j < |s| :: less(k, s[j].0))
  {
  }

  lemma LowerBoundSplits<K(!new), V>(less: (K, K) -> bool, s: seq<(K, V)>, k: K)
    requires StrictOrder(less) && Sorted(less, s)
    ensures var i := LowerBound(less, s, k);
            && (forall j | 0 <= j < i :: less(s[j].0, k))
            && (forall j | i <= j < |s| :: !less(s[j].0, k))
  {
  }

  // Inserting an absent key keeps the order.
  lemma InsertKeepsSorted<K(!new), V(!new)>(less: (K, K) -> bool, s: seq<(K, V)>, e: (K, V))
    requires StrictOrder(less) && Sorted(less, s)
    requires !HasKey(s, e.0)
    ensures Sorted(less, InsertSorted(less, s, e))
  {
    var i := UpperBound(less, s, e.0);
    var t := InsertSorted(less, s, e);
    UpperBoundSplits(less, s, e.0);
    forall j | 0 <= j < i ensures less(s[j].0, e.0) {
      assert (s[j].0, s[j].1) in s;
    }
    assert forall j | 0 <= j < |t| :: t[j] == if j < i then s[j] else if j == i then e else s[j - 1];
    forall j, k | 0 <= j < k < |t| ensures less(t[j].0, t[k].0) {
    }
  }

  // It adds exactly the new pair.
  lemma InsertMembers<K, V(!new)>(less: (K, K) -> bool, s: seq<(K, V)>, e: (K, V))
    ensures forall x :: x in InsertSorted(less, s, e) <==> x == e || x in s
    ensures |InsertSorted(less, s, e)| == |s| + 1
  {
    var i := UpperBound(less, s, e.0);
    assert s == s[..i] + s[i..];
  }

  lemma {:induction false} MergeMembers<K, V(!new)>(less: (K, K) -> bool, a: seq<(K, V)>, b: seq<(K, V)>)
    ensures forall x :: x in Merge(less, a, b) <==> x in a || x in b
    ensures |Merge(less, a, b)| == |a| + |b|
    decreases |a| + |b|
  {
    if |a| != 0 && |b| != 0 {
      assert a == [a[0]] + a[1..] && b == [b[0]] + b[1..];
      if less(b[0].0, a[0].0) {
        MergeMembers(less, a, b[1..]);
      } else {
        MergeMembers(less, a[1..], b);
      }
    }
  }

  // Merging two sorted ranges without a common key gives a sorted range.
  lemma {:induction false} MergeSorted<K(!new), V(!new)>(less: (K, K) -> bool, a: seq<(K, V)>, b: seq<(K, V)>)
    requires StrictOrder(less) && Sorted(less, a) && Sorted(less, b)
    requires forall i, j | 0 <= i < |a| && 0 <= j < |b| :: a[i].0 != b[j].0
    ensures Sorted(less, Merge(less, a, b))
    decreases |a| + |b|
  {
    if |a| != 0 && |b| != 0 {
      var m := Merge(less, a, b);
      if less(b[0].0, a[0].0) {
        MergeSorted(less, a, b[1..]);
        MergeMembers(less, a, b[1..]);
        forall k | 1 <= k < |m| ensures less(m[0].0, m[k].0) {
          assert m[k] in Merge(less, a, b[1..]);
        }
      } else {
        MergeSorted(less, a[1..], b);
        MergeMembers(less, a[1..], b);
        forall k | 1 <= k < |m| ensures less(m[0].0, m[k].0) {
          assert m[k] in Merge(less, a[1..], b);
        }
      }
    }
  }

  lemma HeadNotInTail<K(!new), V>(less: (K, K) -> bool, s: seq<(K, V)>)
    requires StrictOrder(less) && Sorted(less, s) && |s| > 0
    ensures s[0] !in s[1..]
  {
    forall k | 0 <= k < |s[1..]| ensures s[1..][k] != s[0] {
      assert less(s[0].0, s[k + 1].0);
    }
  }

  lemma MembersDecideEmptiness<T(!new)>(a: seq<T>, b: seq<T>)
    requires forall x :: x in a ==> x in b
    ensures |a| > 0 ==> |b| > 0
  {
    if |a| > 0 {
      assert a[0] in b;
    }
  }

  // A sorted sequence is determined by its members, so a container that
  // holds the same pairs iterates over them in the same order.
  lemma {:induction false} SortedIsUnique<K(!new), V(!new)>(less: (K, K) -> bool, a: seq<(K, V)>, b: seq<(K, V)>)
    requires StrictOrder(less) && Sorted(less, a) && Sorted(less, b)
    requires forall x :: x in a <==> x in b
    ensures a == b
    decreases |a|
  {
    MembersDecideEmptiness(a, b);
    MembersDecideEmptiness(b, a);
    if |a| != 0 {
      assert a[0] in b && b[0] in a;
      var i :| 0 <= i < |b| && b[i] == a[0];
      var j :| 0 <= j < |a| && a[j] == b[0];
      assert i == 0;
      assert a == [a[0]] + a[1..] && b == [b[0]] + b[1..];
      HeadNotInTail(less, a);
      HeadNotInTail(less, b);
      assert forall x :: x in a[1..] <==> x in a && x != a[0];
      assert forall x :: x in b[1..] <==> x in b && x != b[0];
      SortedIsUnique(less, a[1..], b[1..]);
    }
  }
}
