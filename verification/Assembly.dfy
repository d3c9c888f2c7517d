/**
 The membership partition and the procurement line items of an assembly-evidence report.

 What makes a single text acceptable, and case folding, are parameters.
 */
module Assembly {
  import opened Json
  import opened Ordering
  import opened TextOrder

  const MAX_REFERENCES := 256

  datatype Line = Line(mpn: Text, supplier: Text, digest: Text, footprint: Text, quantity: int, references: seq<Text>)

  /** The three membership lists and what they are checked against. */
  datatype Membership = Membership(both: seq<Text>, bomOnly: seq<Text>, cplOnly: seq<Text>,
    cplReferences: seq<Text>, bomCount: int, cplCount: int)

  datatype Checks = Checks(membershipText: Text -> bool, reference: Text -> bool, mpn: Text -> bool, supplier: Text -> bool,
    digest: Text -> bool, footprint: Text -> bool, casefold: Text -> Text)

  // ----- membership -----------------------------------------------------------------------

  predicate ListOk(s: seq<Text>, textOk: Text -> bool) {
    |s| <= MAX_REFERENCES && (forall i :: 0 <= i < |s| ==> textOk(s[i])) && StrictlySorted(s)
  }

  /** The three lists are sorted, disjoint, and add up to the CPL references and to both counts. */
  ghost predicate MembershipOk(m: Membership, textOk: Text -> bool) {
    && ListOk(m.both, textOk) && ListOk(m.bomOnly, textOk) && ListOk(m.cplOnly, textOk)
    && Elements(m.both) !! Elements(m.bomOnly) && Elements(m.both) !! Elements(m.cplOnly)
    && Elements(m.bomOnly) !! Elements(m.cplOnly)
    && Elements(m.both) + Elements(m.cplOnly) == Elements(m.cplReferences)
    && |m.both| + |m.bomOnly| == m.bomCount && |m.both| + |m.cplOnly| == m.cplCount
  }

  method ValidateList(s: seq<Text>, textOk: Text -> bool) returns (ok: bool, elements: set<Text>)
    ensures ok <==> ListOk(s, textOk)
    ensures ok ==> elements == Elements(s)
  {
    hide CompareText;
    elements := {};
    if |s| > MAX_REFERENCES { return false, elements; }
    for n := 0 to |s|
      invariant forall i :: 0 <= i < n ==> textOk(s[i])
    {
      if !textOk(s[n]) { return false, elements; }
    }
    for n := 0 to |s|
      invariant forall i :: 0 < i < n ==> CompareText(s[i - 1], s[i]) == Less
    {
      if n > 0 && CompareText(s[n - 1], s[n]) != Less { return false, elements; }
    }
    elements := set i | 0 <= i < |s| :: s[i];
    ok := true;
  }

  method ValidateMembership(m: Membership, textOk: Text -> bool) returns (ok: bool, bom: set<Text>)
    ensures ok <==> MembershipOk(m, textOk)
    ensures ok ==> bom == Elements(m.both) + Elements(m.bomOnly)
  {
    hide ListOk, Elements;
    var both, bomOnly, cplOnly;
    bom := {};
    ok, both := ValidateList(m.both, textOk);
    if !ok { return; }
    ok, bomOnly := ValidateList(m.bomOnly, textOk);
    if !ok { return; }
    ok, cplOnly := ValidateList(m.cplOnly, textOk);
    if !ok { return; }
    ListSizes(m, textOk);
    ok := both !! bomOnly && both !! cplOnly && bomOnly !! cplOnly;
    if !ok { return; }
    var cpl := SetOf(m.cplReferences);
    ok := both + cplOnly == cpl && |both| + |bomOnly| == m.bomCount && |both| + |cplOnly| == m.cplCount;
    bom := both + bomOnly;
  }

  function SetOf(s: seq<Text>): (e: set<Text>)
    ensures e == Elements(s)
  {
    set i | 0 <= i < |s| :: s[i]
  }

  lemma ListSizes(m: Membership, textOk: Text -> bool)
    ensures ListOk(m.both, textOk) ==> |Elements(m.both)| == |m.both|
    ensures ListOk(m.bomOnly, textOk) ==> |Elements(m.bomOnly)| == |m.bomOnly|
    ensures ListOk(m.cplOnly, textOk) ==> |Elements(m.cplOnly)| == |m.cplOnly|
  {
    hide Elements, CompareText;
    if ListOk(m.both, textOk) { SortedSize(m.both); }
    if ListOk(m.bomOnly, textOk) { SortedSize(m.bomOnly); }
    if ListOk(m.cplOnly, textOk) { SortedSize(m.cplOnly); }
  }

  /** The BOM and CPL references leave no choice: an accepted partition consists of the sorted
      intersection and the two sorted differences. */
  lemma PartitionIsUnique(m: Membership, textOk: Text -> bool, bom: set<Text>)
    requires MembershipOk(m, textOk) && bom == Elements(m.both) + Elements(m.bomOnly)
    ensures Composed(m, bom)
  {
    ListSizes(m, textOk);
    hide Elements, ListOk;
  }

  /** What the composer writes: the sorted intersection and differences, and the counts of both inventories. */
  ghost predicate Composed(m: Membership, bom: set<Text>) {
    var cpl := Elements(m.cplReferences);
    && Elements(m.both) == bom * cpl && Elements(m.bomOnly) == bom - cpl && Elements(m.cplOnly) == cpl - bom
    && |bom| == m.bomCount && |cpl| == m.cplCount
  }

  /** What the composer writes is accepted. */
  lemma ComposedIsAccepted(m: Membership, textOk: Text -> bool, bom: set<Text>)
    requires Composed(m, bom) && ListOk(m.both, textOk) && ListOk(m.bomOnly, textOk) && ListOk(m.cplOnly, textOk)
    ensures MembershipOk(m, textOk)
  {
    ListSizes(m, textOk);
    hide Elements, ListOk;
    var cpl := Elements(m.cplReferences);
    assert bom == bom * cpl + (bom - cpl) && cpl == bom * cpl + (cpl - bom);
    assert |bom| == |bom * cpl| + |bom - cpl| && |cpl| == |bom * cpl| + |cpl - bom|;
  }

  /** Nothing else is accepted for the same two inventories. */
  lemma AcceptedIsComposed(m: Membership, n: Membership, textOk: Text -> bool, bom: set<Text>)
    requires MembershipOk(m, textOk) && bom == Elements(m.both) + Elements(m.bomOnly)
    requires MembershipOk(n, textOk) && bom == Elements(n.both) + Elements(n.bomOnly)
    requires m.cplReferences == n.cplReferences
    ensures Composed(m, bom) && m == n
  {
    hide Elements, StrictlySorted;
    PartitionIsUnique(m, textOk, bom);
    PartitionIsUnique(n, textOk, bom);
    SortedListUnique(m.both, n.both);
    SortedListUnique(m.bomOnly, n.bomOnly);
    SortedListUnique(m.cplOnly, n.cplOnly);
  }

  // ----- line items -----------------------------------------------------------------------

  /** The sort key of a line: MPN, supplier part number, catalog digest, footprint. */
  function CompareLine(a: Line, b: Line): Order {
    Then(CompareText(a.mpn, b.mpn), Then(CompareText(a.supplier, b.supplier),
      Then(CompareText(a.digest, b.digest), CompareText(a.footprint, b.footprint))))
  }

  predicate LineOk(line: Line, checks: Checks) {
    && |line.references| <= MAX_REFERENCES && line.quantity == |line.references| > 0
    && ListOk(line.references, checks.reference)
    && checks.mpn(line.mpn) && checks.supplier(line.supplier) && checks.digest(line.digest) && checks.footprint(line.footprint)
  }

  /** No reference, supplier part number, catalog digest or case-folded MPN appears in two lines. */
  ghost predicate Distinct(a: Line, b: Line, checks: Checks) {
    && Elements(a.references) !! Elements(b.references) && checks.casefold(a.mpn) != checks.casefold(b.mpn)
    && a.supplier != b.supplier && a.digest != b.digest
  }

  ghost predicate LinesOk(lines: seq<Line>, checks: Checks) {
    && |lines| <= MAX_REFERENCES
    && (forall i :: 0 <= i < |lines| ==> LineOk(lines[i], checks))
    && (forall i, j :: 0 <= i < j < |lines| ==> Distinct(lines[i], lines[j], checks))
    && (forall i :: 0 < i < |lines| ==> CompareLine(lines[i - 1], lines[i]) == Less)
  }

  ghost function References(lines: seq<Line>): set<Text> {
    if lines == [] then {} else References(lines[..|lines| - 1]) + Elements(lines[|lines| - 1].references)
  }

  function Quantity(lines: seq<Line>): int {
    if lines == [] then 0 else Quantity(lines[..|lines| - 1]) + lines[|lines| - 1].quantity
  }

  /** A reference of some line. */
  lemma {:induction false} InReferences(lines: seq<Line>, x: Text)
    ensures x in References(lines) <==> exists i :: 0 <= i < |lines| && x in Elements(lines[i].references)
  {
    hide Elements;
    if lines != [] {
      var p := lines[..|lines| - 1];
      InReferences(p, x);
      if x in References(p) {
        var i :| 0 <= i < |p| && x in Elements(p[i].references);
        assert lines[i] == p[i];
      }
      assert forall i :: 0 <= i < |p| ==> p[i] == lines[i];
    }
  }

  /** What the loop has collected: references, the part behind each supplier number, the folded MPNs,
      the part behind each catalog digest. */
  datatype Seen = Seen(references: set<Text>, suppliers: map<Text, (Text, Text)>, folded: set<Text>,
    catalog: map<Text, (Text, Text, Text)>)

  ghost predicate Tracks(seen: Seen, lines: seq<Line>, checks: Checks) {
    && seen.references == References(lines) && TracksFolded(seen.folded, lines, checks.casefold)
    && TracksSuppliers(seen.suppliers, lines) && TracksCatalog(seen.catalog, lines)
  }

  ghost predicate TracksFolded(folded: set<Text>, lines: seq<Line>, casefold: Text -> Text) {
    folded == set i | 0 <= i < |lines| :: casefold(lines[i].mpn)
  }

  ghost predicate TracksSuppliers(suppliers: map<Text, (Text, Text)>, lines: seq<Line>) {
    && (forall i :: 0 <= i < |lines| ==> (lines[i].supplier in suppliers
                                          && suppliers[lines[i].supplier] == (lines[i].mpn, lines[i].digest)))
    && (forall k :: k in suppliers ==> exists i :: 0 <= i < |lines| && lines[i].supplier == k)
  }

  ghost predicate TracksCatalog(catalog: map<Text, (Text, Text, Text)>, lines: seq<Line>) {
    && (forall i :: 0 <= i < |lines| ==> (lines[i].digest in catalog
                                          && catalog[lines[i].digest] == (lines[i].mpn, lines[i].supplier, lines[i].footprint)))
    && (forall k :: k in catalog ==> exists i :: 0 <= i < |lines| && lines[i].digest == k)
  }

  lemma FoldedStep(folded: set<Text>, lines: seq<Line>, line: Line, casefold: Text -> Text)
    requires TracksFolded(folded, lines, casefold)
    ensures casefold(line.mpn) in folded <==> exists i :: 0 <= i < |lines| && casefold(lines[i].mpn) == casefold(line.mpn)
    ensures TracksFolded(folded + {casefold(line.mpn)}, lines + [line], casefold)
  {
    var all, f := lines + [line], casefold(line.mpn);
    assert forall i :: 0 <= i < |lines| ==> all[i] == lines[i];
    assert all[|lines|] == line;
  }

  /** The part behind a supplier number differs from this line's, or the line repeats an MPN. */
  lemma SupplierStep(suppliers: map<Text, (Text, Text)>, lines: seq<Line>, line: Line)
    requires TracksSuppliers(suppliers, lines)
    ensures line.supplier in suppliers ==> exists i ::
              0 <= i < |lines| && lines[i].supplier == line.supplier && suppliers[line.supplier] == (lines[i].mpn, lines[i].digest)
    ensures line.supplier !in suppliers ==>
              (forall i :: 0 <= i < |lines| ==> lines[i].supplier != line.supplier)
              && TracksSuppliers(suppliers[line.supplier := (line.mpn, line.digest)], lines + [line])
  {
    var all := lines + [line];
    assert forall i :: 0 <= i < |lines| ==> all[i] == lines[i];
    assert all[|lines|] == line;
  }

  lemma CatalogStep(catalog: map<Text, (Text, Text, Text)>, lines: seq<Line>, line: Line)
    requires TracksCatalog(catalog, lines)
    ensures line.digest in catalog ==> exists i ::
              0 <= i < |lines| && lines[i].digest == line.digest && catalog[line.digest] == (lines[i].mpn, lines[i].supplier, lines[i].footprint)
    ensures line.digest !in catalog ==>
              (forall i :: 0 <= i < |lines| ==> lines[i].digest != line.digest)
              && TracksCatalog(catalog[line.digest := (line.mpn, line.supplier, line.footprint)], lines + [line])
  {
    var all := lines + [line];
    assert forall i :: 0 <= i < |lines| ==> all[i] == lines[i];
    assert all[|lines|] == line;
  }

  /** The checks of one line against everything before it. */
  method AddLine(seen: Seen, line: Line, ghost before: seq<Line>, checks: Checks) returns (ok: bool, next: Seen)
    requires Tracks(seen, before, checks)
    ensures ok <==> LineOk(line, checks) && forall i :: 0 <= i < |before| ==> Distinct(before[i], line, checks)
    ensures ok ==> Tracks(next, before + [line], checks)
  {
    hide ListOk, CompareText, Elements, References, TracksFolded, TracksSuppliers, TracksCatalog;
    next := seen;
    if |line.references| > MAX_REFERENCES || line.quantity != |line.references| || line.quantity <= 0 { return false, next; }
    var elements;
    ok, elements := ValidateList(line.references, checks.reference);
    if !ok { return; }
    DisjointReferences(before, elements);
    if !(seen.references !! elements) { return false, next; }
    if !checks.mpn(line.mpn) || !checks.supplier(line.supplier) || !checks.digest(line.digest) || !checks.footprint(line.footprint) {
      return false, next;
    }
    var part := (line.mpn, line.digest);
    SupplierStep(seen.suppliers, before, line);
    if line.supplier in seen.suppliers && seen.suppliers[line.supplier] != part { return false, next; }
    var folded := checks.casefold(line.mpn);
    FoldedStep(seen.folded, before, line, checks.casefold);
    if folded in seen.folded { return false, next; }
    var item := (line.mpn, line.supplier, line.footprint);
    CatalogStep(seen.catalog, before, line);
    if line.digest in seen.catalog && seen.catalog[line.digest] != item { return false, next; }
    next := Seen(seen.references + elements, seen.suppliers[line.supplier := part], seen.folded + {folded},
      seen.catalog[line.digest := item]);
    ReferencesSnoc(before, line);
    ok := true;
  }

  lemma ReferencesSnoc(lines: seq<Line>, line: Line)
    ensures References(lines + [line]) == References(lines) + Elements(line.references)
  {
    assert (lines + [line])[..|lines|] == lines;
  }

  lemma DisjointReferences(lines: seq<Line>, e: set<Text>)
    ensures References(lines) !! e <==> forall i :: 0 <= i < |lines| ==> Elements(lines[i].references) !! e
  {
    hide Elements, References;
    forall x ensures x in References(lines) <==> exists i :: 0 <= i < |lines| && x in Elements(lines[i].references) {
      InReferences(lines, x);
    }
  }

  /** The loop over the line items accepts exactly the sorted lists of acceptable, pairwise distinct lines. */
  method ValidateLines(lines: seq<Line>, checks: Checks) returns (ok: bool, references: set<Text>)
    ensures ok <==> LinesOk(lines, checks)
    ensures ok ==> references == References(lines)
  {
    hide CompareLine, LineOk, Distinct, References, TracksFolded, TracksSuppliers, TracksCatalog;
    references := {};
    if |lines| > MAX_REFERENCES { return false, references; }
    var seen := Seen({}, map[], {}, map[]);
    NothingSeen(checks);
    assert lines[..0] == [];
    for n := 0 to |lines|
      invariant Tracks(seen, lines[..n], checks)
      invariant forall i :: 0 <= i < n ==> LineOk(lines[i], checks)
      invariant forall i, j :: 0 <= i < j < n ==> Distinct(lines[i], lines[j], checks)
      invariant forall i :: 0 < i < n ==> CompareLine(lines[i - 1], lines[i]) == Less
    {
      var next;
      ok, next := AddLine(seen, lines[n], lines[..n], checks);
      assert forall i :: 0 <= i < n ==> lines[..n][i] == lines[i];
      if !ok { return; }
      if n > 0 && CompareLine(lines[n - 1], lines[n]) != Less { return false, references; }
      assert lines[..n] + [lines[n]] == lines[..n + 1];
      seen := next;
    }
    assert lines[..|lines|] == lines;
    return true, seen.references;
  }

  lemma NothingSeen(checks: Checks)
    ensures Tracks(Seen({}, map[], {}, map[]), [], checks)
  {
  }

  // ----- both together --------------------------------------------------------------------

  /** What a report may say: line items for the whole BOM when procurement is approved, none otherwise. */
  ghost predicate ReportOk(m: Membership, approved: bool, lines: seq<Line>, checks: Checks) {
    && MembershipOk(m, checks.membershipText) && LinesOk(lines, checks)
    && if approved then lines != [] && References(lines) == Elements(m.both) + Elements(m.bomOnly) else lines == []
  }

  method ValidateReport(m: Membership, approved: bool, lines: seq<Line>, checks: Checks) returns (ok: bool)
    ensures ok <==> ReportOk(m, approved, lines, checks)
  {
    hide MembershipOk, LinesOk, References, Elements;
    var bom, references;
    ok, bom := ValidateMembership(m, checks.membershipText);
    if !ok { return; }
    ok, references := ValidateLines(lines, checks);
    if !ok { return; }
    ok := if approved then lines != [] && references == bom else lines == [];
  }

  /** Quantities count references: over distinct lines they add up to the number of all references. */
  lemma {:induction false} QuantitiesCountReferences(lines: seq<Line>, checks: Checks)
    requires forall i :: 0 <= i < |lines| ==> LineOk(lines[i], checks)
    requires forall i, j :: 0 <= i < j < |lines| ==> Distinct(lines[i], lines[j], checks)
    ensures Quantity(lines) == |References(lines)|
  {
    hide CompareText, Elements;
    if lines != [] {
      var p, last := lines[..|lines| - 1], lines[|lines| - 1];
      assert forall i :: 0 <= i < |p| ==> p[i] == lines[i] && Distinct(lines[i], last, checks);
      QuantitiesCountReferences(p, checks);
      DisjointReferences(p, Elements(last.references));
      assert LineOk(last, checks);
      SortedSize(last.references);
    }
  }

  /** In an accepted report with approved procurement the quantities of all lines add up to the number of
      BOM parts, every BOM part is in exactly one line, and no part is bought under two lines. */
  lemma QuantitiesAddUp(m: Membership, lines: seq<Line>, checks: Checks)
    requires ReportOk(m, true, lines, checks)
    ensures Quantity(lines) == m.bomCount == |m.both| + |m.bomOnly|
    ensures forall x :: x in Elements(m.both) + Elements(m.bomOnly) <==>
                        exists i :: 0 <= i < |lines| && x in Elements(lines[i].references)
    ensures forall i, j :: 0 <= i < j < |lines| ==>
              && Elements(lines[i].references) !! Elements(lines[j].references)
              && lines[i].mpn != lines[j].mpn && lines[i].supplier != lines[j].supplier && lines[i].digest != lines[j].digest
  {
    QuantitiesCountReferences(lines, checks);
    hide References, CompareLine, LineOk, ListOk;
    ListSizes(m, checks.membershipText);
    forall x
      ensures x in References(lines) <==> exists i :: 0 <= i < |lines| && x in Elements(lines[i].references)
    {
      InReferences(lines, x);
    }
  }
}
