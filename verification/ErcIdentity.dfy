/**
 The canonical bytes of a native ERC report: a closed document is rebuilt in a fixed field order and
 printed, with every coordinate as a float.

 `number` stands for what is made of a coordinate; `CoordinateText` is the one the writer uses, the
 canonical text of the coordinate as a float.
 */
module ErcIdentity {
  import opened Common
  import opened Json
  import opened TextOrder
  import Canonical
  import Decimal

  /** A document shape: a scalar, a coordinate, a list, or a record with its field order. */
  datatype Shape = Scalar | Coordinate | ListOf(item: Shape) | Record(entries: seq<Entry>)

  datatype Entry = Entry(key: Text, shape: Shape)

  function E(key: string, shape: Shape): Entry { Entry(T(key), shape) }

  // ----- the two report shapes ------------------------------------------------------------

  const SOURCE := Record([E("bytes", Scalar), E("sha256", Scalar)])
  const CHECKS := ListOf(Record([E("description", Scalar), E("key", Scalar)]))
  const POSITION := Record([E("x", Coordinate), E("y", Coordinate)])
  const ITEMS := ListOf(Record([E("description", Scalar), E("pos", POSITION), E("uuid", Scalar)]))
  const FINDINGS := ListOf(Record([E("description", Scalar), E("items", ITEMS), E("severity", Scalar), E("sheet_path", Scalar),
    E("sheet_uuid_path", Scalar), E("type", Scalar)]))

  function Invocation(severity: Entry): Shape {
    Record([E("command", Scalar), E("format", Scalar), E("units", Scalar), severity, E("exit_code_violations", Scalar)])
  }

  function Head(severity: Entry): seq<Entry> {
    [E("schema_version", Scalar), E("engine", Scalar), E("engine_version", Scalar), E("kicad_version", Scalar),
     E("source", SOURCE), E("invocation", Invocation(severity)), E("ignored_checks", CHECKS), E("findings", FINDINGS),
     E("error_count", Scalar)]
  }

  /** Version 1. */
  const V1 := Record(Head(E("severity", Scalar)) + [E("approved", Scalar)])

  const POLICY := Record([E("schema_version", Scalar), E("id", Scalar), E("maximum_total_warnings", Scalar),
    E("warning_limits", ListOf(Record([E("finding_type", Scalar), E("maximum_count", Scalar)]))),
    E("allowed_ignored_checks", ListOf(Scalar))])

  /** Version 2, with the warning policy. */
  const V2 := Record(Head(E("severities", ListOf(Scalar))) + [
    E("warning_count", Scalar), E("warning_counts", ListOf(Record([E("finding_type", Scalar), E("count", Scalar)]))),
    E("warning_policy", Record([E("source", SOURCE), E("policy_sha256", Scalar), E("policy", POLICY)])),
    E("policy_failures", ListOf(Record([E("code", Scalar), E("subject", Scalar), E("actual_count", Scalar), E("maximum_count", Scalar)]))),
    E("approved", Scalar)])

  /** What is written: the identity and its digest. */
  function WithDigest(identity: Shape): Shape
    requires identity.Record?
  {
    Record(identity.entries + [E("run_sha256", Scalar)])
  }

  // ----- rebuilding -----------------------------------------------------------------------

  predicate DistinctFields(fields: seq<Field>) {
    forall i, j :: 0 <= i < j < |fields| ==> fields[i].key != fields[j].key
  }

  predicate Declared(entries: seq<Entry>, key: Text) { exists i :: 0 <= i < |entries| && entries[i].key == key }

  const MAX_COORDINATE_MM := 1_000_000_000

  predicate InRange(n: int) { -MAX_COORDINATE_MM <= n <= MAX_COORDINATE_MM }

  /** What the coordinate check lets through: an integer in range, or a finite float.  The range of
      floats plays no part here. */
  predicate IsCoordinate(v: Json) { (v.Int? && InRange(v.n)) || (v.Float? && Decimal.IsRepr(v.repr)) }

  /** The document has exactly the shape's fields, in any order. */
  ghost predicate Conforms(shape: Shape, doc: Json)
    decreases shape, 1
  {
    match shape
    case Scalar => doc.Null? || doc.Bool? || doc.Int? || doc.Str?
    case Coordinate => IsCoordinate(doc)
    case ListOf(item) => doc.Arr? && forall i :: 0 <= i < |doc.items| ==> Conforms(item, doc.items[i])
    case Record(entries) =>
      && doc.Obj? && DistinctFields(doc.fields) && (forall i :: 0 <= i < |doc.fields| ==> Declared(entries, doc.fields[i].key))
      && (forall i :: 0 <= i < |entries| ==> EntryConforms(entries[i], doc.fields))
  }

  ghost predicate EntryConforms(e: Entry, fields: seq<Field>)
    decreases e, 0
  {
    HasKey(fields, e.key) && Conforms(e.shape, FieldValue(fields, e.key))
  }

  /** The document in the order of the shape. */
  ghost function Rebuild(shape: Shape, doc: Json, number: Json -> Text): Json
    requires Conforms(shape, doc)
    decreases shape, 1
  {
    match shape
    case Scalar => doc
    case Coordinate => Float(number(doc))
    case ListOf(item) => Arr(seq(|doc.items|, i requires 0 <= i < |doc.items| => Rebuild(item, doc.items[i], number)))
    case Record(entries) =>
      Obj(seq(|entries|, i requires 0 <= i < |entries| => RebuildField(entries[i], doc.fields, number)))
  }

  ghost function RebuildField(e: Entry, fields: seq<Field>, number: Json -> Text): Field
    requires EntryConforms(e, fields)
    decreases e, 0
  {
    Field(e.key, Rebuild(e.shape, FieldValue(fields, e.key), number))
  }

  /** Equal as dictionaries, lists and scalars, coordinates by what `number` makes of them. */
  ghost predicate Same<N>(shape: Shape, a: Json, b: Json, number: Json -> N)
    requires Conforms(shape, a) && Conforms(shape, b)
    decreases shape, 1
  {
    match shape
    case Scalar => a == b
    case Coordinate => number(a) == number(b)
    case ListOf(item) =>
      |a.items| == |b.items| && forall i :: 0 <= i < |a.items| ==> Same(item, a.items[i], b.items[i], number)
    case Record(entries) =>
      forall i :: 0 <= i < |entries| ==> SameField(entries[i], a.fields, b.fields, number)
  }

  ghost predicate SameField<N>(e: Entry, f: seq<Field>, g: seq<Field>, number: Json -> N)
    requires EntryConforms(e, f) && EntryConforms(e, g)
    decreases e, 0
  {
    Same(e.shape, FieldValue(f, e.key), FieldValue(g, e.key), number)
  }

  /** Rebuilding decides equality. */
  lemma {:induction false} RebuildDecides(shape: Shape, a: Json, b: Json, number: Json -> Text)
    requires Conforms(shape, a) && Conforms(shape, b)
    ensures Rebuild(shape, a, number) == Rebuild(shape, b, number) <==> Same(shape, a, b, number)
    decreases shape, 1
  {
    match shape
    case Scalar =>
    case Coordinate =>
    case ListOf(item) =>
      var x, y := Rebuild(shape, a, number).items, Rebuild(shape, b, number).items;
      forall i | 0 <= i < |a.items| && i < |b.items|
        ensures x[i] == y[i] <==> Same(item, a.items[i], b.items[i], number)
      {
        RebuildDecides(item, a.items[i], b.items[i], number);
      }
      assert x == y <==> |x| == |y| && forall i :: 0 <= i < |x| ==> x[i] == y[i];
    case Record(entries) =>
      var x, y := Rebuild(shape, a, number).fields, Rebuild(shape, b, number).fields;
      forall i | 0 <= i < |entries|
        ensures x[i] == y[i] <==> SameField(entries[i], a.fields, b.fields, number)
      {
        FieldDecides(entries[i], a.fields, b.fields, number);
      }
      assert x == y <==> forall i :: 0 <= i < |entries| ==> x[i] == y[i];
  }

  lemma {:induction false} FieldDecides(e: Entry, f: seq<Field>, g: seq<Field>, number: Json -> Text)
    requires EntryConforms(e, f) && EntryConforms(e, g)
    ensures RebuildField(e, f, number) == RebuildField(e, g, number) <==> SameField(e, f, g, number)
    decreases e, 0
  {
    RebuildDecides(e.shape, FieldValue(f, e.key), FieldValue(g, e.key), number);
  }

  // ----- the canonical bytes --------------------------------------------------------------

  /** Every coordinate becomes a float token. */
  ghost predicate WritesFloats(number: Json -> Text) { forall v: Json :: IsCoordinate(v) ==> IsFloatRepr(number(v)) }

  lemma {:induction false} RebuiltFloats(shape: Shape, doc: Json, number: Json -> Text)
    requires Conforms(shape, doc) && WritesFloats(number)
    ensures FloatsOk(Rebuild(shape, doc, number))
    decreases shape, 1
  {
    hide IsFloatRepr;
    match shape
    case Scalar =>
    case Coordinate =>
      assert IsFloatRepr(number(doc));
    case ListOf(item) =>
      forall i | 0 <= i < |doc.items| ensures FloatsOk(Rebuild(item, doc.items[i], number)) {
        RebuiltFloats(item, doc.items[i], number);
      }
    case Record(entries) =>
      forall i | 0 <= i < |entries| ensures FloatsOk(RebuildField(entries[i], doc.fields, number).value) {
        RebuiltFieldFloats(entries[i], doc.fields, number);
      }
  }

  lemma {:induction false} RebuiltFieldFloats(e: Entry, fields: seq<Field>, number: Json -> Text)
    requires EntryConforms(e, fields) && WritesFloats(number)
    ensures FloatsOk(RebuildField(e, fields, number).value)
    decreases e, 0
  {
    RebuiltFloats(e.shape, FieldValue(fields, e.key), number);
  }

  /** `_canonical_report_bytes`, for the shape of either version. */
  ghost function CanonicalBytes(shape: Shape, doc: Json, number: Json -> Text): seq<Byte>
    requires Conforms(shape, doc)
  {
    Utf8(Print(Rebuild(shape, doc, number)) + [10])
  }

  /** Two closed reports have the same canonical bytes exactly when they are equal as dictionaries. */
  lemma CanonicalBytesDecide(shape: Shape, a: Json, b: Json, number: Json -> Text)
    requires Conforms(shape, a) && Conforms(shape, b) && WritesFloats(number)
    ensures CanonicalBytes(shape, a, number) == CanonicalBytes(shape, b, number) <==> Same(shape, a, b, number)
  {
    hide IsFloatRepr, Conforms, Rebuild, Same;
    RebuildDecides(shape, a, b, number);
    RebuiltFloats(shape, a, number);
    RebuiltFloats(shape, b, number);
    if CanonicalBytes(shape, a, number) == CanonicalBytes(shape, b, number) {
      Canonical.PrintInjective(Rebuild(shape, a, number), Rebuild(shape, b, number));
    }
  }

  ghost function KeySet(fields: seq<Field>): set<Text> { set i | 0 <= i < |fields| :: fields[i].key }
  ghost function EntrySet(entries: seq<Entry>): set<Text> { set i | 0 <= i < |entries| :: entries[i].key }

  /** Shapes are closed: an object has exactly the fields of its shape, each once. */
  lemma RecordsAreClosed(entries: seq<Entry>, doc: Json)
    requires Conforms(Record(entries), doc)
    ensures doc.Obj? && KeySet(doc.fields) == EntrySet(entries)
    ensures forall i, j :: 0 <= i < j < |doc.fields| ==> doc.fields[i].key != doc.fields[j].key
  {
    forall i | 0 <= i < |entries| ensures entries[i].key in KeySet(doc.fields) {
      assert EntryConforms(entries[i], doc.fields);
    }
    forall i | 0 <= i < |doc.fields| ensures doc.fields[i].key in EntrySet(entries) {
      assert Declared(entries, doc.fields[i].key);
    }
  }

  /** Coordinates are the integers up to a thousand kilometres and the finite floats. */
  lemma CoordinatesDecide(v: Json)
    ensures Conforms(Coordinate, v) <==>
              match v
              case Int(n) => (if n < 0 then -n else n) < 1_000_000_001
              case Float(r) => Decimal.IsPlainRepr(r) || Decimal.IsExponentRepr(r)
              case _ => false
  {
  }

  lemma {:induction false} FieldFound(fields: seq<Field>, i: nat)
    requires i < |fields| && DistinctFields(fields)
    ensures HasKey(fields, fields[i].key) && FieldValue(fields, fields[i].key) == fields[i].value
  {
    if i > 0 {
      assert fields[0].key != fields[i].key;
      assert DistinctFields(fields[1..]);
      FieldFound(fields[1..], i - 1);
    }
  }

  // ----- the two versions with their coordinates ------------------------------------------

  /** The `repr` of a coordinate as a float; `floatOf` is what conversion to float and `repr` make of
      an integer. */
  function ReprOf(v: Json, floatOf: int -> Text): Text {
    match v case Float(r) => r case Int(n) => floatOf(n) case _ => []
  }

  function CoordinateText(floatOf: int -> Text): Json -> Text { v => Decimal.CanonicalFloat(ReprOf(v, floatOf)) }

  /** The number itself. */
  function CoordinateValue(floatOf: int -> Text): Json -> Decimal.Decimal { v => Decimal.Denotes(ReprOf(v, floatOf)) }

  ghost predicate GivesReprs(floatOf: int -> Text) { forall n :: InRange(n) ==> Decimal.IsRepr(floatOf(n)) }

  lemma CoordinatesAreFloats(floatOf: int -> Text)
    requires GivesReprs(floatOf)
    ensures WritesFloats(CoordinateText(floatOf))
  {
    hide IsFloatRepr;
    forall v: Json | IsCoordinate(v)
      ensures IsFloatRepr(CoordinateText(floatOf)(v))
    {
      Decimal.CanonicalFloatIsFloatText(ReprOf(v, floatOf));
    }
  }

  /** Coordinates that are written alike are the same number. */
  lemma CoordinateTextDecides(floatOf: int -> Text, v: Json, w: Json)
    requires GivesReprs(floatOf) && IsCoordinate(v) && IsCoordinate(w)
    requires CoordinateText(floatOf)(v) == CoordinateText(floatOf)(w)
    ensures CoordinateValue(floatOf)(v) == CoordinateValue(floatOf)(w)
  {
    Decimal.CanonicalFloatKeepsNumber(ReprOf(v, floatOf));
    Decimal.CanonicalFloatKeepsNumber(ReprOf(w, floatOf));
  }

  lemma {:induction false} SameTextSameValue(shape: Shape, a: Json, b: Json, floatOf: int -> Text)
    requires GivesReprs(floatOf) && Conforms(shape, a) && Conforms(shape, b) && Same(shape, a, b, CoordinateText(floatOf))
    ensures Same(shape, a, b, CoordinateValue(floatOf))
    decreases shape, 1
  {
    match shape
    case Scalar =>
    case Coordinate =>
      CoordinateTextDecides(floatOf, a, b);
    case ListOf(item) =>
      forall i | 0 <= i < |a.items| ensures Same(item, a.items[i], b.items[i], CoordinateValue(floatOf)) {
        SameTextSameValue(item, a.items[i], b.items[i], floatOf);
      }
    case Record(entries) =>
      forall i | 0 <= i < |entries| ensures SameField(entries[i], a.fields, b.fields, CoordinateValue(floatOf)) {
        assert SameField(entries[i], a.fields, b.fields, CoordinateText(floatOf));
        SameFieldSameValue(entries[i], a.fields, b.fields, floatOf);
      }
  }

  lemma {:induction false} SameFieldSameValue(e: Entry, f: seq<Field>, g: seq<Field>, floatOf: int -> Text)
    requires GivesReprs(floatOf) && EntryConforms(e, f) && EntryConforms(e, g)
    requires SameField(e, f, g, CoordinateText(floatOf))
    ensures SameField(e, f, g, CoordinateValue(floatOf))
    decreases e, 0
  {
    SameTextSameValue(e.shape, FieldValue(f, e.key), FieldValue(g, e.key), floatOf);
  }

  /** The shape of a written report. */
  function ReportShape(version: int): Shape { WithDigest(if version == 1 then V1 else V2) }

  /** For a written report of either version: equal canonical bytes are equal reports, and then every
      coordinate is the same number. */
  lemma ReportBytesDecide(version: int, a: Json, b: Json, floatOf: int -> Text)
    requires Conforms(ReportShape(version), a) && Conforms(ReportShape(version), b) && GivesReprs(floatOf)
    ensures CanonicalBytes(ReportShape(version), a, CoordinateText(floatOf))
            == CanonicalBytes(ReportShape(version), b, CoordinateText(floatOf))
        <==> Same(ReportShape(version), a, b, CoordinateText(floatOf))
    ensures Same(ReportShape(version), a, b, CoordinateText(floatOf))
        ==> Same(ReportShape(version), a, b, CoordinateValue(floatOf))
  {
    hide Conforms, Same, CanonicalBytes, ReportShape, GivesReprs, WritesFloats;
    CoordinatesAreFloats(floatOf);
    CanonicalBytesDecide(ReportShape(version), a, b, CoordinateText(floatOf));
    if Same(ReportShape(version), a, b, CoordinateText(floatOf)) {
      SameTextSameValue(ReportShape(version), a, b, floatOf);
    }
  }

  /** A report of version 1 has no warning policy, one of any other version has one. */
  lemma VersionsDiffer(version: int, doc: Json)
    requires Conforms(ReportShape(version), doc)
    ensures T("warning_policy") in KeySet(doc.fields) <==> version != 1
  {
    var shape := ReportShape(version);
    RecordsAreClosed(shape.entries, doc);
    hide Conforms;
    if version == 1 {
      NoPolicyInFirst();
    } else {
      assert shape.entries[11] == E("warning_policy", shape.entries[11].shape);
    }
  }

  const FIRST_FIELDS: seq<string> := [
    "schema_version", "engine", "engine_version", "kicad_version", "source", "invocation",
    "ignored_checks", "findings", "error_count", "approved", "run_sha256"
  ]

  /** The fields of a written report of version 1, in the order in which they are written. */
  lemma FirstVersionFields()
    ensures |WithDigest(V1).entries| == |FIRST_FIELDS|
    ensures forall i :: 0 <= i < |FIRST_FIELDS| ==> WithDigest(V1).entries[i].key == T(FIRST_FIELDS[i])
  {
    hide T;
    assert WithDigest(V1).entries[9] == E("approved", Scalar) && WithDigest(V1).entries[10] == E("run_sha256", Scalar);
  }

  lemma NoPolicyInFirst()
    ensures T("warning_policy") !in EntrySet(WithDigest(V1).entries)
  {
    FirstVersionFields();
    hide WithDigest;
    assert forall i :: 0 <= i < |FIRST_FIELDS| ==> FIRST_FIELDS[i][0] != 'w';
    forall i | 0 <= i < |FIRST_FIELDS| ensures T(FIRST_FIELDS[i]) != T("warning_policy") {
      assert T(FIRST_FIELDS[i])[0] == FIRST_FIELDS[i][0] as int && T("warning_policy")[0] == 'w' as int;
    }
  }

  // ----- the order of the parsed fields ---------------------------------------------------

  /** The same document up to the order of fields, at every depth; no key occurs twice. */
  ghost predicate Reordered(a: Json, b: Json)
    decreases a
  {
    match a
    case Arr(items) =>
      b.Arr? && |items| == |b.items| && forall i :: 0 <= i < |items| ==> Reordered(items[i], b.items[i])
    case Obj(fields) =>
      && b.Obj? && DistinctFields(fields) && DistinctFields(b.fields)
      && (forall j :: 0 <= j < |b.fields| ==> HasKey(fields, b.fields[j].key))
      && (forall i :: 0 <= i < |fields| ==>
            HasKey(b.fields, fields[i].key) && Reordered(fields[i].value, FieldValue(b.fields, fields[i].key)))
    case _ => a == b
  }

  lemma ReorderedLookup(a: Json, b: Json, key: Text)
    requires Reordered(a, b) && a.Obj? && HasKey(a.fields, key)
    ensures HasKey(b.fields, key) && Reordered(FieldValue(a.fields, key), FieldValue(b.fields, key))
  {
    var i :| 0 <= i < |a.fields| && a.fields[i].key == key;
    FieldFound(a.fields, i);
  }

  /** The order of the fields in the parsed report, at any depth, shows neither in what is accepted nor
      in the canonical bytes. */
  lemma {:induction false} FieldOrderIsIrrelevant(shape: Shape, a: Json, b: Json, number: Json -> Text)
    requires Conforms(shape, a) && Reordered(a, b)
    ensures Conforms(shape, b) && Rebuild(shape, a, number) == Rebuild(shape, b, number)
    ensures CanonicalBytes(shape, a, number) == CanonicalBytes(shape, b, number)
    decreases shape, 1
  {
    match shape
    case Scalar =>
    case Coordinate =>
    case ListOf(item) =>
      forall i | 0 <= i < |a.items|
        ensures Conforms(item, b.items[i]) && Rebuild(item, a.items[i], number) == Rebuild(item, b.items[i], number)
      {
        FieldOrderIsIrrelevant(item, a.items[i], b.items[i], number);
      }
      assert Rebuild(shape, a, number).items == Rebuild(shape, b, number).items;
    case Record(entries) =>
      forall i | 0 <= i < |entries|
        ensures EntryConforms(entries[i], b.fields)
        ensures RebuildField(entries[i], a.fields, number) == RebuildField(entries[i], b.fields, number)
      {
        EntryOrderIsIrrelevant(entries[i], a, b, number);
      }
      OnlyDeclared(entries, a, b);
      assert Rebuild(shape, a, number).fields == Rebuild(shape, b, number).fields;
  }

  lemma {:induction false} EntryOrderIsIrrelevant(e: Entry, a: Json, b: Json, number: Json -> Text)
    requires a.Obj? && Reordered(a, b) && EntryConforms(e, a.fields)
    ensures EntryConforms(e, b.fields) && RebuildField(e, a.fields, number) == RebuildField(e, b.fields, number)
    decreases e, 0
  {
    ReorderedLookup(a, b, e.key);
    FieldOrderIsIrrelevant(e.shape, FieldValue(a.fields, e.key), FieldValue(b.fields, e.key), number);
  }

  lemma OnlyDeclared(entries: seq<Entry>, a: Json, b: Json)
    requires a.Obj? && Reordered(a, b) && forall i :: 0 <= i < |a.fields| ==> Declared(entries, a.fields[i].key)
    ensures forall j :: 0 <= j < |b.fields| ==> Declared(entries, b.fields[j].key)
  {
    forall j | 0 <= j < |b.fields|
      ensures Declared(entries, b.fields[j].key)
    {
      var i :| 0 <= i < |a.fields| && a.fields[i].key == b.fields[j].key;
      assert Declared(entries, a.fields[i].key);
    }
  }

  /** In particular the fields of one object may be permuted. */
  lemma PermutationReorders(f: seq<Field>, g: seq<Field>)
    requires DistinctFields(f) && DistinctFields(g) && multiset(f) == multiset(g)
    requires forall i :: 0 <= i < |f| ==> Reordered(f[i].value, f[i].value)
    ensures Reordered(Obj(f), Obj(g))
  {
    forall j | 0 <= j < |g|
      ensures HasKey(f, g[j].key)
    {
      assert g[j] in multiset(f);
    }
    forall i | 0 <= i < |f|
      ensures HasKey(g, f[i].key) && FieldValue(g, f[i].key) == f[i].value
    {
      assert f[i] in multiset(g);
      var j :| 0 <= j < |g| && g[j] == f[i];
      FieldFound(g, j);
    }
  }
}
