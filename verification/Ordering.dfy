/**
 Three-way comparisons, their lexicographic combination, and sorted sequences.
 */
module Ordering {
  datatype Order = Less | Equal | Greater

  function Flip(o: Order): Order {
    match o case Less => Greater case Equal => Equal case Greater => Less
  }

  /** The second comparison decides where the first one is equal, as Python compares tuples. */
  function Then(first: Order, second: Order): Order { if first == Equal then second else first }

  function CompareInt(a: int, b: int): Order { if a < b then Less else if a > b then Greater else Equal }

  /** Lexicographic comparison of sequences, a proper prefix being smaller. */
  function CompareSeq<T>(a: seq<T>, b: seq<T>, cmp: (T, T) -> Order): Order {
    if a == [] then (if b == [] then Equal else Less)
    else if b == [] then Greater
    else Then(cmp(a[0], b[0]), CompareSeq(a[1..], b[1..], cmp))
  }

  /** A total order: only equal values compare equal. */
  ghost predicate IsOrder<T(!new)>(cmp: (T, T) -> Order) {
    && (forall x, y :: cmp(x, y) == Equal <==> x == y)
    && (forall x, y :: cmp(y, x) == Flip(cmp(x, y)))
    && (forall x, y, z :: cmp(x, y) == Less && cmp(y, z) == Less ==> cmp(x, z) == Less)
  }

  lemma {:induction false} CompareSeqEqual<T(!new)>(a: seq<T>, b: seq<T>, cmp: (T, T) -> Order)
    requires IsOrder(cmp)
    ensures CompareSeq(a, b, cmp) == Equal <==> a == b
    ensures CompareSeq(b, a, cmp) == Flip(CompareSeq(a, b, cmp))
  {
    if a != [] && b != [] {
      CompareSeqEqual(a[1..], b[1..], cmp);
      assert a == [a[0]] + a[1..] && b == [b[0]] + b[1..];
    }
  }

  lemma {:induction false} CompareSeqTransitive<T(!new)>(a: seq<T>, b: seq<T>, c: seq<T>, cmp: (T, T) -> Order)
    requires IsOrder(cmp) && CompareSeq(a, b, cmp) == Less && CompareSeq(b, c, cmp) == Less
    ensures CompareSeq(a, c, cmp) == Less
  {
    if a != [] && b != [] && c != [] {
      if cmp(a[0], b[0]) == Equal && cmp(b[0], c[0]) == Equal {
        CompareSeqTransitive(a[1..], b[1..], c[1..], cmp);
      }
    }
  }

  // ----- sorted sequences -----------------------------------------------------------------

  /** Each element is at least its predecessor: what a single pass with `key < previous` accepts. */
  predicate SortedBy<T>(s: seq<T>, cmp: (T, T) -> Order) {
    forall i :: 0 < i < |s| ==> cmp(s[i], s[i - 1]) != Less
  }

  lemma {:induction false} FirstIsLeast<T(!new)>(s: seq<T>, cmp: (T, T) -> Order, i: nat)
    requires IsOrder(cmp) && SortedBy(s, cmp) && i < |s|
    ensures cmp(s[i], s[0]) != Less
    decreases i
  {
    if i > 0 {
      FirstIsLeast(s, cmp, i - 1);
      assert cmp(s[i], s[i - 1]) != Less;
    }
  }

  lemma LeastAgree<T(!new)>(a: seq<T>, b: seq<T>, cmp: (T, T) -> Order)
    requires IsOrder(cmp) && SortedBy(a, cmp) && SortedBy(b, cmp)
    requires a != [] && b != [] && multiset(a) == multiset(b)
    ensures a[0] == b[0]
  {
    assert a[0] in multiset(b) && b[0] in multiset(a);
    var i :| 0 <= i < |a| && a[i] == b[0];
    var j :| 0 <= j < |b| && b[j] == a[0];
    FirstIsLeast(a, cmp, i);
    FirstIsLeast(b, cmp, j);
  }

  /** A multiset has only one sorted arrangement. */
  lemma {:induction false} SortedUnique<T(!new)>(a: seq<T>, b: seq<T>, cmp: (T, T) -> Order)
    requires IsOrder(cmp) && SortedBy(a, cmp) && SortedBy(b, cmp)
    requires multiset(a) == multiset(b)
    ensures a == b
  {
    assert |multiset(a)| == |a| && |multiset(b)| == |b|;
    if a != [] {
      LeastAgree(a, b, cmp);
      var p, q := a[1..], b[1..];
      assert a == [a[0]] + p && b == [b[0]] + q;
      assert multiset(p) == multiset(a) - multiset{a[0]};
      assert multiset(q) == multiset(b) - multiset{b[0]};
      assert SortedBy(p, cmp) && SortedBy(q, cmp) by { hide IsOrder; }
      SortedUnique(p, q, cmp);
    }
  }
}
