/** Texts compared code point by code point, and strictly sorted lists of texts. */
module TextOrder {
  import opened Json
  import opened Ordering

  function T(s: string): Text { seq(|s|, i requires 0 <= i < |s| => s[i] as int) }

  function CompareText(a: Text, b: Text): Order { CompareSeq(a, b, (c: Code, d: Code) => CompareInt(c, d)) }

  lemma CompareTextIsOrder()
    ensures IsOrder(CompareText)
  {
    var cmp := (c: Code, d: Code) => CompareInt(c, d);
    assert IsOrder(cmp);
    forall a, b ensures (CompareText(a, b) == Equal <==> a == b) && CompareText(b, a) == Flip(CompareText(a, b)) {
      CompareSeqEqual(a, b, cmp);
    }
    forall a, b, c | CompareText(a, b) == Less && CompareText(b, c) == Less ensures CompareText(a, c) == Less {
      CompareSeqTransitive(a, b, c, cmp);
    }
  }

  /** The first difference of two texts is at `k`, and there the first text is smaller or at its end. */
  predicate SmallerAt(a: Text, b: Text, k: nat) {
    && k <= |a| && k < |b| && a[..k] == b[..k] && (k < |a| ==> a[k] < b[k])
  }

  /** Texts are ordered as in a dictionary, by code point. */
  lemma {:induction false} TextOrderIsLexicographic(a: Text, b: Text)
    ensures CompareText(a, b) == Less <==> exists k :: SmallerAt(a, b, k)
  {
    if a != [] && b != [] {
      var p, q := a[1..], b[1..];
      TextOrderIsLexicographic(p, q);
      if a[0] == b[0] && CompareText(p, q) == Less {
        var k: nat :| SmallerAt(p, q, k);
        assert a[..k + 1] == [a[0]] + p[..k] && b[..k + 1] == [b[0]] + q[..k];
        assert SmallerAt(a, b, k + 1);
      }
      if k: nat :| SmallerAt(a, b, k) {
        if k > 0 {
          assert a[0] == a[..k][0] && b[0] == b[..k][0];
          assert p[..k - 1] == a[..k][1..] && q[..k - 1] == b[..k][1..];
          assert SmallerAt(p, q, k - 1);
        }
      }
      if a[0] < b[0] { assert SmallerAt(a, b, 0); }
    } else if b != [] {
      assert SmallerAt(a, b, 0);
    }
  }

  /** What a pass that refuses `left >= right` for neighbours accepts. */
  predicate StrictlySorted(s: seq<Text>) {
    forall i :: 0 < i < |s| ==> CompareText(s[i - 1], s[i]) == Less
  }

  ghost function Elements(s: seq<Text>): set<Text> { set i | 0 <= i < |s| :: s[i] }

  lemma {:induction false} StrictlyIncreasing(s: seq<Text>, i: nat, j: nat)
    requires StrictlySorted(s) && i < j < |s|
    ensures CompareText(s[i], s[j]) == Less && s[i] != s[j]
    decreases j
  {
    hide CompareText;
    CompareTextIsOrder();
    assert CompareText(s[j - 1], s[j]) == Less;
    if i < j - 1 {
      StrictlyIncreasing(s, i, j - 1);
    }
  }

  lemma LastIsNew(s: seq<Text>)
    requires StrictlySorted(s) && s != []
    ensures StrictlySorted(s[..|s| - 1]) && s[|s| - 1] !in Elements(s[..|s| - 1])
  {
    hide CompareText;
    var n := |s| - 1;
    forall i | 0 <= i < n ensures s[..n][i] != s[n] { StrictlyIncreasing(s, i, n); }
  }

  lemma ElementsSnoc(p: seq<Text>, last: Text)
    ensures Elements(p + [last]) == Elements(p) + {last}
    ensures multiset(p + [last]) == multiset(p) + multiset{last}
  {
    var s := p + [last];
    assert forall i :: 0 <= i < |p| ==> s[i] == p[i];
    assert s[|p|] == last;
  }

  /** A strictly sorted list has no duplicates. */
  lemma {:induction false} SortedSize(s: seq<Text>)
    requires StrictlySorted(s)
    ensures |Elements(s)| == |s| && multiset(s) == multiset(Elements(s))
  {
    hide StrictlySorted;
    if s == [] {
      assert Elements(s) == {};
    } else {
      var p, last := s[..|s| - 1], s[|s| - 1];
      LastIsNew(s);
      SortedSize(p);
      assert s == p + [last];
      hide Elements;
      ElementsSnoc(p, last);
    }
  }

  /** A strictly sorted list is determined by its elements. */
  lemma SortedListUnique(a: seq<Text>, b: seq<Text>)
    requires StrictlySorted(a) && StrictlySorted(b) && Elements(a) == Elements(b)
    ensures a == b
  {
    hide CompareText;
    CompareTextIsOrder();
    SortedSize(a);
    SortedSize(b);
    StrictIsSorted(a);
    StrictIsSorted(b);
    SortedUnique(a, b, CompareText);
  }

  lemma StrictIsSorted(s: seq<Text>)
    requires StrictlySorted(s)
    ensures SortedBy(s, CompareText)
  {
    hide CompareText;
    CompareTextIsOrder();
    assert forall i :: 0 < i < |s| ==> CompareText(s[i], s[i - 1]) == Flip(CompareText(s[i - 1], s[i]));
  }

  // ----- Python's `sorted` on a list of texts -----------------------------------------------

  function Insert(x: Text, s: seq<Text>): seq<Text> {
    if s == [] || CompareText(x, s[0]) != Greater then [x] + s else [s[0]] + Insert(x, s[1..])
  }

  function Sort(s: seq<Text>): seq<Text> {
    if s == [] then [] else Insert(s[0], Sort(s[1..]))
  }

  lemma {:induction false} InsertKeeps(x: Text, s: seq<Text>)
    requires SortedBy(s, CompareText)
    ensures SortedBy(Insert(x, s), CompareText) && multiset(Insert(x, s)) == multiset(s) + multiset{x}
    ensures Insert(x, s) != [] && (Insert(x, s)[0] == x || (s != [] && Insert(x, s)[0] == s[0]))
  {
    hide CompareText;
    CompareTextIsOrder();
    if s != [] && CompareText(x, s[0]) == Greater {
      InsertKeeps(x, s[1..]);
      assert s == [s[0]] + s[1..];
      assert CompareText(s[0], x) == Flip(CompareText(x, s[0]));
    } else if s != [] {
      assert CompareText(s[0], x) == Flip(CompareText(x, s[0]));
    }
  }

  lemma {:induction false} SortSorts(s: seq<Text>)
    ensures SortedBy(Sort(s), CompareText) && multiset(Sort(s)) == multiset(s)
  {
    if s != [] {
      SortSorts(s[1..]);
      InsertKeeps(s[0], Sort(s[1..]));
      assert s == [s[0]] + s[1..];
    }
  }

  /** The strictly sorted arrangement is the one `sorted` returns. */
  lemma SortFinds(s: seq<Text>, t: seq<Text>)
    requires StrictlySorted(t) && multiset(s) == multiset(t)
    ensures Sort(s) == t
  {
    hide CompareText;
    CompareTextIsOrder();
    SortSorts(s);
    StrictIsSorted(t);
    SortedUnique(Sort(s), t, CompareText);
  }
}
