/**
 The findings array of a native DRC report: what the validator accepts is a normal form.
 */
module DrcFindings {
  import opened Json
  import opened Ordering
  import opened TextOrder

  const MAX_TEXT_BYTES := 4096
  const MAX_FINDINGS := 100_000
  const MAX_ITEMS_PER_FINDING := 1024
  const MAX_COORDINATE_NM := 1_000_000_000_000_000

  datatype Item = Item(description: Text, x: int, y: int)
  datatype Finding = Finding(category: Text, description: Text, items: seq<Item>, severity: Text, type_: Text)

  predicate TextOk(t: Text) {
    t != [] && 0 !in t && (forall i :: 0 <= i < |t| ==> !IsSurrogate(t[i])) && |Utf8(t)| <= MAX_TEXT_BYTES
  }

  predicate CategoryOk(t: Text) { t == T("violation") || t == T("unconnected-item") || t == T("schematic-parity") }
  predicate SeverityOk(t: Text) { t == T("error") || t == T("warning") }
  predicate CoordinateOk(n: int) { -MAX_COORDINATE_NM <= n <= MAX_COORDINATE_NM }

  /** Comparison of the items' sort keys. */
  function CompareItem(a: Item, b: Item): Order {
    Then(CompareText(a.description, b.description), Then(CompareInt(a.x, b.x), CompareInt(a.y, b.y)))
  }

  /** Comparison of the findings' sort keys. */
  function CompareFinding(a: Finding, b: Finding): Order {
    Then(CompareText(a.category, b.category),
      Then(CompareText(a.severity, b.severity),
        Then(CompareText(a.type_, b.type_),
          Then(CompareText(a.description, b.description), CompareSeq(a.items, b.items, CompareItem)))))
  }

  predicate ItemOk(i: Item) { TextOk(i.description) && CoordinateOk(i.x) && CoordinateOk(i.y) }

  predicate FindingOk(f: Finding) {
    && TextOk(f.category) && CategoryOk(f.category) && TextOk(f.description)
    && TextOk(f.severity) && SeverityOk(f.severity) && TextOk(f.type_)
    && |f.items| <= MAX_ITEMS_PER_FINDING
    && (forall i :: 0 <= i < |f.items| ==> ItemOk(f.items[i]))
    && SortedBy(f.items, CompareItem)
  }

  /** What a report may carry. */
  predicate FindingsOk(findings: seq<Finding>) {
    && |findings| <= MAX_FINDINGS
    && (forall i :: 0 <= i < |findings| ==> FindingOk(findings[i]))
    && SortedBy(findings, CompareFinding)
  }

  method ValidateItems(items: seq<Item>) returns (ok: bool)
    ensures ok <==> (forall i :: 0 <= i < |items| ==> ItemOk(items[i])) && SortedBy(items, CompareItem)
  {
    hide ItemOk, CompareItem;
    var n := 0;
    while n < |items|
      invariant 0 <= n <= |items|
      invariant forall i :: 0 <= i < n ==> ItemOk(items[i])
      invariant SortedBy(items[..n], CompareItem)
    {
      if !ItemOk(items[n]) { return false; }
      if n > 0 && CompareItem(items[n], items[n - 1]) == Less { return false; }
      n := n + 1;
    }
    assert items[..n] == items;
    return true;
  }

  /** The validating pass accepts exactly the arrays in normal form. */
  method ValidateFindings(findings: seq<Finding>) returns (ok: bool)
    ensures ok <==> FindingsOk(findings)
  {
    hide TextOk, CategoryOk, SeverityOk, ItemOk, CompareFinding, CompareItem;
    if |findings| > MAX_FINDINGS { return false; }
    var n := 0;
    while n < |findings|
      invariant 0 <= n <= |findings|
      invariant forall i :: 0 <= i < n ==> FindingOk(findings[i])
      invariant SortedBy(findings[..n], CompareFinding)
    {
      var f := findings[n];
      if !TextOk(f.category) || !CategoryOk(f.category) || !TextOk(f.description) { return false; }
      if !TextOk(f.severity) || !SeverityOk(f.severity) || !TextOk(f.type_) { return false; }
      if |f.items| > MAX_ITEMS_PER_FINDING { return false; }
      var itemsOk := ValidateItems(f.items);
      if !itemsOk { return false; }
      if n > 0 && CompareFinding(f, findings[n - 1]) == Less { return false; }
      n := n + 1;
    }
    assert findings[..n] == findings;
    return true;
  }

  // ----- the keys cover every field -------------------------------------------------------

  lemma CompareItemIsOrder()
    ensures IsOrder(CompareItem)
  {
    hide CompareText;
    CompareTextIsOrder();
  }

  lemma CompareFindingIsOrder()
    ensures IsOrder(CompareFinding)
  {
    hide CompareText, CompareItem, CompareSeq;
    CompareTextIsOrder();
    CompareItemIsOrder();
    forall a, b: Finding
      ensures (CompareFinding(a, b) == Equal <==> a == b) && CompareFinding(b, a) == Flip(CompareFinding(a, b))
    {
      CompareSeqEqual(a.items, b.items, CompareItem);
    }
    forall a, b, c: Finding | CompareFinding(a, b) == Less && CompareFinding(b, c) == Less
      ensures CompareFinding(a, c) == Less
    {
      CompareSeqEqual(a.items, b.items, CompareItem);
      CompareSeqEqual(b.items, c.items, CompareItem);
      if CompareSeq(a.items, b.items, CompareItem) == Less && CompareSeq(b.items, c.items, CompareItem) == Less {
        CompareSeqTransitive(a.items, b.items, c.items, CompareItem);
      }
    }
  }

  /** The sort keys as tuples: the first field that differs decides, items being compared one by one in
      the same way. */
  lemma KeysAreTuples(a: Finding, b: Finding, i: Item, j: Item)
    ensures CompareFinding(a, b) ==
              if a.category != b.category then CompareText(a.category, b.category)
              else if a.severity != b.severity then CompareText(a.severity, b.severity)
              else if a.type_ != b.type_ then CompareText(a.type_, b.type_)
              else if a.description != b.description then CompareText(a.description, b.description)
              else CompareSeq(a.items, b.items, CompareItem)
    ensures CompareItem(i, j) == Less <==>
              if i.description != j.description then CompareText(i.description, j.description) == Less
              else i.x < j.x || (i.x == j.x && i.y < j.y)
  {
    hide CompareText, CompareSeq;
    CompareTextIsOrder();
  }

  /** Which findings may stand in a report, field by field. */
  lemma FieldsDecide(f: Finding)
    ensures FindingsOk([f]) <==>
              && f.category in {T("violation"), T("unconnected-item"), T("schematic-parity")}
              && f.severity in {T("error"), T("warning")}
              && (forall t :: t in [f.category, f.description, f.severity, f.type_] ==> Readable(t))
              && |f.items| <= 1024 && SortedBy(f.items, CompareItem)
              && (forall i :: i in f.items ==> Readable(i.description) && Near(i.x) && Near(i.y))
  {
    hide CompareFinding, CompareItem, TextOk, Readable, SortedBy;
    OneFinding(f);
    ReadableTexts([f.category, f.description, f.severity, f.type_]);
    forall i | i in f.items ensures TextOk(i.description) <==> Readable(i.description) { ReadableText(i.description); }
    assert forall t :: t in [f.category, f.description, f.severity, f.type_] <==>
             t == f.category || t == f.description || t == f.severity || t == f.type_;
  }

  lemma OneFinding(f: Finding)
    ensures FindingsOk([f]) <==> FindingOk(f)
  {
    hide FindingOk, CompareFinding;
    assert [f][0] == f;
  }

  lemma ReadableText(t: Text)
    ensures TextOk(t) <==> Readable(t)
  {
    if TextOk(t) {
      forall c | c in t ensures c != 0 && !(0xD800 <= c < 0xE000) {
        var i :| 0 <= i < |t| && t[i] == c;
        assert !IsSurrogate(t[i]);
      }
    }
    if Readable(t) {
      forall i | 0 <= i < |t| ensures !IsSurrogate(t[i]) { assert t[i] in t; }
    }
  }

  lemma ReadableTexts(texts: seq<Text>)
    ensures forall t :: t in texts ==> (TextOk(t) <==> Readable(t))
  {
    forall t | t in texts ensures TextOk(t) <==> Readable(t) { ReadableText(t); }
  }

  /** One to 4096 bytes of UTF-8 without a zero. */
  ghost predicate Readable(t: Text) {
    0 < |t| && |Utf8(t)| < 4097 && forall c :: c in t ==> c != 0 && !(0xD800 <= c < 0xE000)
  }

  /** Within a thousand kilometres. */
  predicate Near(n: int) { (if n < 0 then -n else n) < 1_000_000_000_000_001 }

  // ----- the normal form is unique --------------------------------------------------------

  /** A finding without the order of its items. */
  datatype Meaning = Meaning(category: Text, description: Text, items: multiset<Item>, severity: Text, type_: Text)

  ghost function MeaningOf(f: Finding): Meaning {
    Meaning(f.category, f.description, multiset(f.items), f.severity, f.type_)
  }

  ghost function MeaningSeq(findings: seq<Finding>): seq<Meaning> {
    seq(|findings|, i requires 0 <= i < |findings| => MeaningOf(findings[i]))
  }

  ghost function Meanings(findings: seq<Finding>): multiset<Meaning> { multiset(MeaningSeq(findings)) }

  lemma MeaningDetermines(f: Finding, g: Finding)
    requires FindingOk(f) && FindingOk(g) && MeaningOf(f) == MeaningOf(g)
    ensures f == g
  {
    CompareItemIsOrder();
    SortedUnique(f.items, g.items, CompareItem);
  }

  function Without(b: seq<Finding>, j: nat): seq<Finding>
    requires j < |b|
  {
    b[..j] + b[j + 1..]
  }

  lemma MeaningsWithout(b: seq<Finding>, j: nat)
    requires j < |b|
    ensures Meanings(b) == Meanings(Without(b, j)) + multiset{MeaningOf(b[j])}
    ensures multiset(b) == multiset(Without(b, j)) + multiset{b[j]}
  {
    hide MeaningOf;
    var m := MeaningSeq(b);
    assert b == b[..j] + [b[j]] + b[j + 1..];
    assert m == m[..j] + [m[j]] + m[j + 1..];
    assert MeaningSeq(Without(b, j)) == m[..j] + m[j + 1..];
  }

  lemma {:induction false} MeaningsDetermine(a: seq<Finding>, b: seq<Finding>)
    requires forall i :: 0 <= i < |a| ==> FindingOk(a[i])
    requires forall i :: 0 <= i < |b| ==> FindingOk(b[i])
    requires Meanings(a) == Meanings(b)
    ensures multiset(a) == multiset(b)
    decreases |a|
  {
    hide FindingOk, MeaningOf;
    if a == [] {
      assert |Meanings(b)| == |b|;
    } else {
      assert MeaningSeq(a)[0] in Meanings(b);
      var j :| 0 <= j < |b| && MeaningSeq(b)[j] == MeaningSeq(a)[0];
      MeaningDetermines(a[0], b[j]);
      MeaningsWithout(b, j);
      MeaningsWithout(a, 0);
      var p, q := Without(a, 0), Without(b, j);
      assert Meanings(p) == Meanings(a) - multiset{MeaningOf(a[0])};
      assert Meanings(q) == Meanings(b) - multiset{MeaningOf(b[j])};
      MeaningsDetermine(p, q);
    }
  }

  /** Two accepted arrays that list the same findings, in any order of findings and of the items
      inside them, are the same array. */
  lemma NormalFormUnique(a: seq<Finding>, b: seq<Finding>)
    requires FindingsOk(a) && FindingsOk(b) && Meanings(a) == Meanings(b)
    ensures a == b
  {
    MeaningsDetermine(a, b);
    CompareFindingIsOrder();
    SortedUnique(a, b, CompareFinding);
  }
}
