/**
 The allocation preflight for injected JSON: one traversal charges an estimate for every part of a
 caller-supplied value and builds a plain snapshot of it.
 */
module Preflight {
  import opened Common
  import opened Json
  import opened DecimalDigits

  /** The text of a finite float: ASCII, at most 24 characters (`-1.7976931348623157e+308`). */
  type FloatText = t: Text | 1 <= |t| <= 24 && forall i :: 0 <= i < |t| ==> t[i] <= 0x7F
    witness [48]

  /** A Python value handed in by a caller.  A mapping yields its items once, in order; its keys need
      not be strings or distinct, and its iteration may raise after the last pair. */
  datatype Py =
    | PyNone
    | PyBool(b: bool)
    | PyInt(n: int)
    | PyFloat(finite: bool, repr: FloatText)
    | PyStr(s: Text)
    | PyMapping(pairs: seq<Pair>, raises: bool)
    | PyList(items: seq<Py>)
    | PyOther

  datatype Pair = Pair(key: Option<Text>, value: Py)

  const MAX_DEPTH := 128

  // ----- strings --------------------------------------------------------------------------

  /** The bytes one character of a JSON string takes. */
  function CodeCost(c: Code): nat {
    if c == 34 || c == 92 || c == 8 || c == 12 || c == 10 || c == 13 || c == 9 then 2
    else if c < 0x20 then 6
    else if c <= 0x7F then 1
    else if c <= 0x7FF then 2
    else if c <= 0xFFFF then 3
    else 4
  }

  function TextCost(s: Text): nat { if s == [] then 2 else TextCost(s[..|s| - 1]) + CodeCost(s[|s| - 1]) }

  predicate Encodable(s: Text) { forall i :: 0 <= i < |s| ==> !IsSurrogate(s[i]) }

  lemma {:induction false} TextCostPrefix(s: Text, n: nat)
    requires n <= |s|
    ensures TextCost(s[..n]) + (|s| - n) <= TextCost(s)
    decreases |s| - n
  {
    if n == |s| {
      assert s[..n] == s;
    } else {
      assert s[..n + 1][..n] == s[..n];
      TextCostPrefix(s, n + 1);
    }
  }

  /** `_json_string_bytes`: the size of an encodable string within the bound, refused otherwise.  The
      empty string is not checked here; the charge that follows every call refuses it if need be. */
  method JsonStringBytes(value: Text, maximum: nat) returns (r: Option<nat>)
    ensures r == if Encodable(value) && (value == [] || TextCost(value) <= maximum) then Some(TextCost(value)) else None
  {
    TextCostPrefix(value, 0);
    assert value[..0] == [];
    if |value| > maximum { return None; }
    var size := 2;
    var index := 0;
    while index < |value|
      invariant 0 <= index <= |value|
      invariant Encodable(value[..index]) && size == TextCost(value[..index])
      invariant index > 0 ==> size <= maximum
    {
      var c := value[index];
      TextCostPrefix(value, index + 1);
      assert value[..index + 1][..index] == value[..index];
      if c != 34 && c != 92 && 0x7FF < c && IsSurrogate(c) { return None; }
      size := size + CodeCost(c);
      if size > maximum { return None; }
      index := index + 1;
    }
    assert value[..index] == value;
    return Some(size);
  }

  // ----- what is charged and what is accepted ---------------------------------------------

  /** The total charge for a value. */
  function Cost(item: Py): nat
    decreases item, 1
  {
    match item
    case PyNone => 5
    case PyBool(_) => 5
    case PyInt(n) => DigitCharge(n)
    case PyFloat(_, _) => 32
    case PyStr(s) => TextCost(s)
    case PyMapping(pairs, _) => 2 + PairsCost(pairs)
    case PyList(items) => 2 + ItemsCost(items)
    case PyOther => 0
  }

  function PairsCost(pairs: seq<Pair>): nat
    decreases pairs, 0
  {
    if pairs == [] then 0
    else PairsCost(pairs[..|pairs| - 1]) + PairCost(pairs[|pairs| - 1])
  }

  function PairCost(p: Pair): nat
    decreases p, 0
  {
    (match p.key case None => 0 case Some(k) => TextCost(k) + 2) + Cost(p.value)
  }

  function ItemsCost(items: seq<Py>): nat
    decreases items, 0
  {
    if items == [] then 0 else ItemsCost(items[..|items| - 1]) + 1 + Cost(items[|items| - 1])
  }

  /** A finite JSON value nested no deeper than the limit below `depth`. */
  ghost predicate Acceptable(item: Py, depth: int)
    decreases item, 1
  {
    && depth <= MAX_DEPTH
    && match item
       case PyFloat(finite, _) => finite
       case PyStr(s) => Encodable(s)
       case PyMapping(pairs, raises) =>
         && !raises
         && (forall i :: 0 <= i < |pairs| ==> PairOk(pairs[i], depth))
         && DistinctKeys(pairs)
       case PyList(items) => forall i :: 0 <= i < |items| ==> Acceptable(items[i], depth + 1)
       case PyOther => false
       case _ => true
  }

  ghost predicate PairOk(p: Pair, depth: int)
    decreases p, 0
  {
    p.key.Some? && Encodable(p.key.value) && Acceptable(p.value, depth + 1)
  }

  ghost predicate DistinctKeys(pairs: seq<Pair>) {
    forall i, j :: 0 <= i < j < |pairs| ==> pairs[i].key != pairs[j].key
  }

  /** The plain copy: the same document. */
  ghost function Snapshot(item: Py, depth: int): Json
    requires Acceptable(item, depth)
    decreases item, 1
  {
    match item
    case PyNone => Null
    case PyBool(b) => Bool(b)
    case PyInt(n) => Int(n)
    case PyFloat(_, repr) => Float(repr)
    case PyStr(s) => Str(s)
    case PyMapping(pairs, _) =>
      Obj(seq(|pairs|, i requires 0 <= i < |pairs| => FieldOf(pairs[i], depth)))
    case PyList(items) => Arr(seq(|items|, i requires 0 <= i < |items| => Snapshot(items[i], depth + 1)))
  }

  ghost function FieldOf(p: Pair, depth: int): Field
    requires PairOk(p, depth)
    decreases p, 0
  {
    Field(p.key.value, Snapshot(p.value, depth + 1))
  }

  predicate KeySeen(seen: seq<Field>, key: Option<Text>) {
    exists i :: 0 <= i < |seen| && Some(seen[i].key) == key
  }

  lemma NoKeys(pairs: seq<Pair>)
    ensures DistinctKeys(pairs[..0])
  {
  }

  /** The pairs copied so far, in order. */
  ghost predicate Copied(pairs: seq<Pair>, snapshot: seq<Field>, depth: int) {
    && |snapshot| <= |pairs|
    && forall i :: 0 <= i < |snapshot| ==>
         PairOk(pairs[i], depth) && snapshot[i] == FieldOf(pairs[i], depth) && pairs[i].key == Some(snapshot[i].key)
  }

  lemma CopiedStep(pairs: seq<Pair>, snapshot: seq<Field>, depth: int, field: Field)
    requires Copied(pairs, snapshot, depth) && |snapshot| < |pairs|
    requires var p := pairs[|snapshot|]; PairOk(p, depth) && field == FieldOf(p, depth) && p.key == Some(field.key)
    ensures Copied(pairs, snapshot + [field], depth)
  {
    hide PairOk, FieldOf;
  }

  /** Once all pairs are copied the mapping is acceptable, unless its protocol raised; and nothing else
      can have stopped the copying. */
  lemma AllCopied(pairs: seq<Pair>, snapshot: seq<Field>, depth: int)
    requires Copied(pairs, snapshot, depth) && |snapshot| == |pairs| && DistinctKeys(pairs) && depth <= MAX_DEPTH
    ensures Acceptable(PyMapping(pairs, false), depth) && Obj(snapshot) == Snapshot(PyMapping(pairs, false), depth)
  {
    hide PairOk, FieldOf, DistinctKeys;
    MappingUnfolds(pairs, false, depth);
    MappingSnapshot(pairs, depth, snapshot);
  }

  /** A key among those copied already is a duplicate of the mapping, and nothing else is. */
  lemma KeysSoFar(pairs: seq<Pair>, seen: seq<Field>, n: nat, depth: int)
    requires n == |seen| < |pairs| && Copied(pairs, seen, depth)
    ensures KeySeen(seen, pairs[n].key) ==> !DistinctKeys(pairs)
    ensures DistinctKeys(pairs[..n]) && !KeySeen(seen, pairs[n].key) ==> DistinctKeys(pairs[..n + 1])
  {
    hide PairOk, FieldOf;
    assert forall i :: 0 <= i < n ==> pairs[i].key == Some(seen[i].key);
  }

  lemma MappingUnfolds(pairs: seq<Pair>, raises: bool, depth: int)
    ensures Acceptable(PyMapping(pairs, raises), depth) <==>
              depth <= MAX_DEPTH && !raises && (forall i :: 0 <= i < |pairs| ==> PairOk(pairs[i], depth)) && DistinctKeys(pairs)
    ensures Cost(PyMapping(pairs, raises)) == 2 + PairsCost(pairs)
  {
  }

  lemma MappingSnapshot(pairs: seq<Pair>, depth: int, snapshot: seq<Field>)
    requires Acceptable(PyMapping(pairs, false), depth) && |snapshot| == |pairs|
    requires forall i :: 0 <= i < |pairs| ==> PairOk(pairs[i], depth) && snapshot[i] == FieldOf(pairs[i], depth)
    ensures Obj(snapshot) == Snapshot(PyMapping(pairs, false), depth)
  {
    hide FieldOf, PairOk;
    assert Snapshot(PyMapping(pairs, false), depth).fields == snapshot;
  }

  lemma ListUnfolds(items: seq<Py>, depth: int)
    ensures Acceptable(PyList(items), depth) <==>
              depth <= MAX_DEPTH && forall i :: 0 <= i < |items| ==> Acceptable(items[i], depth + 1)
    ensures Cost(PyList(items)) == 2 + ItemsCost(items)
  {
  }

  lemma ListSnapshot(items: seq<Py>, depth: int, snapshot: seq<Json>)
    requires Acceptable(PyList(items), depth) && |snapshot| == |items|
    requires forall i :: 0 <= i < |items| ==> Acceptable(items[i], depth + 1) && snapshot[i] == Snapshot(items[i], depth + 1)
    ensures Arr(snapshot) == Snapshot(PyList(items), depth)
  {
    assert Snapshot(PyList(items), depth).items == snapshot;
  }

  lemma {:induction false} PairsCostPrefix(pairs: seq<Pair>, n: nat)
    requires n <= |pairs|
    ensures PairsCost(pairs[..n]) <= PairsCost(pairs)
    decreases |pairs| - n
  {
    if n == |pairs| {
      assert pairs[..n] == pairs;
    } else {
      assert pairs[..n + 1][..n] == pairs[..n];
      PairsCostPrefix(pairs, n + 1);
    }
  }

  lemma {:induction false} ItemsCostPrefix(items: seq<Py>, n: nat)
    requires n <= |items|
    ensures ItemsCost(items[..n]) + (|items| - n) <= ItemsCost(items)
    decreases |items| - n
  {
    if n == |items| {
      assert items[..n] == items;
    } else {
      assert items[..n + 1][..n] == items[..n];
      ItemsCostPrefix(items, n + 1);
    }
  }

  // ----- the traversal --------------------------------------------------------------------

  class Traversal {
    const maximum: nat
    var used: nat

    constructor (maximum: nat)
      ensures this.maximum == maximum && used == 0
    {
      this.maximum, used := maximum, 0;
    }

    /** `charge`: adds up and refuses once the bound is passed. */
    method Charge(amount: nat) returns (ok: bool)
      modifies `used
      ensures used == old(used) + amount && (ok <==> used <= maximum)
    {
      used := used + amount;
      ok := used <= maximum;
    }

    /** `visit`: succeeds exactly on acceptable values whose whole charge still fits, and then has
        charged exactly that and copied exactly the value. */
    method Visit(item: Py, depth: nat) returns (r: Option<Json>)
      modifies `used
      ensures r.Some? <==> Acceptable(item, depth) && old(used) + Cost(item) <= maximum
      ensures r.Some? ==> used == old(used) + Cost(item) && r.value == Snapshot(item, depth)
      decreases item, 1
    {
      if depth > MAX_DEPTH { return None; }
      match item {
        case PyNone =>
          var ok := Charge(5);
          return if ok then Some(Null) else None;
        case PyBool(b) =>
          var ok := Charge(5);
          return if ok then Some(Bool(b)) else None;
        case PyInt(n) =>
          var ok := Charge(DigitCharge(n));
          return if ok then Some(Int(n)) else None;
        case PyFloat(finite, repr) =>
          if !finite { return None; }
          var ok := Charge(32);
          return if ok then Some(Float(repr)) else None;
        case PyStr(s) =>
          var size := JsonStringBytes(s, maximum);
          if size.None? { return None; }
          var ok := Charge(size.value);
          return if ok then Some(Str(s)) else None;
        case PyMapping(pairs, raises) =>
          r := VisitMapping(pairs, raises, depth);
        case PyList(items) =>
          r := VisitList(items, depth);
        case PyOther => return None;
      }
    }

    method VisitMapping(pairs: seq<Pair>, raises: bool, depth: nat) returns (r: Option<Json>)
      requires depth <= MAX_DEPTH
      modifies `used
      ensures var item := PyMapping(pairs, raises);
        && (r.Some? <==> Acceptable(item, depth) && old(used) + Cost(item) <= maximum)
        && (r.Some? ==> used == old(used) + Cost(item) && r.value == Snapshot(item, depth))
      decreases pairs, 0
    {
      assert Copied(pairs, [], depth);
      hide Acceptable, Cost, Snapshot, PairOk, PairCost, FieldOf, DistinctKeys, KeySeen, Copied;
      MappingUnfolds(pairs, raises, depth);
      var snapshot: seq<Field> := [];
      PairsCostPrefix(pairs, 0);
      var ok := Charge(2);
      if !ok { return None; }
      NoKeys(pairs);
      var n := 0;
      while n < |pairs|
        invariant 0 <= n == |snapshot| <= |pairs|
        invariant used == old(used) + 2 + PairsCost(pairs[..n]) <= maximum
        invariant Copied(pairs, snapshot, depth) && DistinctKeys(pairs[..n])
      {
        var p := pairs[n];
        PairsCostPrefix(pairs, n + 1);
        KeysSoFar(pairs, snapshot, n, depth);
        assert pairs[..n + 1][..n] == pairs[..n] && pairs[..n + 1][n] == p;
        assert PairsCost(pairs[..n + 1]) == PairsCost(pairs[..n]) + PairCost(p);
        var field := VisitPair(p, snapshot, depth);
        if field.None? { return None; }
        CopiedStep(pairs, snapshot, depth, field.value);
        snapshot := snapshot + [field.value];
        n := n + 1;
      }
      assert pairs[..n] == pairs;
      if raises { return None; }
      AllCopied(pairs, snapshot, depth);
      return Some(Obj(snapshot));
    }

    /** One pass of the loop over a mapping's items. */
    method VisitPair(p: Pair, seen: seq<Field>, depth: nat) returns (r: Option<Field>)
      modifies `used
      ensures r.Some? <==> PairOk(p, depth) && old(used) + PairCost(p) <= maximum
                           && !KeySeen(seen, p.key)
      ensures r.Some? ==> used == old(used) + PairCost(p) && r.value == FieldOf(p, depth)
      ensures r.Some? ==> p.key == Some(r.value.key)
      decreases p, 0
    {
      if p.key.None? { return None; }
      var size := JsonStringBytes(p.key.value, maximum);
      if size.None? { return None; }
      var ok := Charge(size.value + 2);
      if !ok { return None; }
      if KeySeen(seen, p.key) { return None; }
      var child := Visit(p.value, depth + 1);
      if child.None? { return None; }
      return Some(Field(p.key.value, child.value));
    }

    method VisitList(items: seq<Py>, depth: nat) returns (r: Option<Json>)
      requires depth <= MAX_DEPTH
      modifies `used
      ensures var item := PyList(items);
        && (r.Some? <==> Acceptable(item, depth) && old(used) + Cost(item) <= maximum)
        && (r.Some? ==> used == old(used) + Cost(item) && r.value == Snapshot(item, depth))
      decreases items, 0
    {
      hide Acceptable, Cost, Snapshot;
      ListUnfolds(items, depth);
      ItemsCostPrefix(items, 0);
      assert items[..0] == [];
      if |items| > maximum { return None; }
      var snapshot: seq<Json> := [];
      var ok := Charge(2);
      if !ok { return None; }
      var n := 0;
      while n < |items|
        invariant 0 <= n == |snapshot| <= |items|
        invariant used == old(used) + 2 + ItemsCost(items[..n]) <= maximum
        invariant forall i :: 0 <= i < n ==> Acceptable(items[i], depth + 1)
        invariant forall i :: 0 <= i < n ==> snapshot[i] == Snapshot(items[i], depth + 1)
      {
        ItemsCostPrefix(items, n + 1);
        assert items[..n + 1][..n] == items[..n] && items[..n + 1][n] == items[n];
        ok := Charge(1);
        if !ok { return None; }
        var child := Visit(items[n], depth + 1);
        if child.None? { return None; }
        snapshot := snapshot + [child.value];
        n := n + 1;
      }
      assert items[..n] == items;
      ListSnapshot(items, depth, snapshot);
      return Some(Arr(snapshot));
    }
  }

  // ----- the charge bounds the encoding ---------------------------------------------------

  lemma {:induction false} TextCostFront(s: Text)
    requires s != []
    ensures TextCost(s) == CodeCost(s[0]) + TextCost(s[1..])
  {
    var n := |s| - 1;
    if n == 0 {
      assert s[..0] == [] && s[1..] == [];
    } else {
      TextCostFront(s[..n]);
      assert s[..n][1..] == s[1..][..n - 1];
    }
  }

  lemma EscapedSize(c: Code)
    requires !IsSurrogate(c)
    ensures |Utf8(EscapeCode(c))| == CodeCost(c)
  {
    var t := EscapeCode(c);
    if |t| == 1 {
      assert Utf8(t) == Utf8Code(t[0]) + Utf8([]);
    } else {
      Utf8Ascii(t);
    }
  }

  lemma {:induction false} EscapeSize(s: Text)
    requires Encodable(s)
    ensures |Utf8(Escape(s))| + 2 == TextCost(s)
  {
    if s != [] {
      EscapedSize(s[0]);
      EscapeSize(s[1..]);
      Utf8Concat(EscapeCode(s[0]), Escape(s[1..]));
      TextCostFront(s);
    }
  }

  lemma QuoteSize(s: Text)
    requires Encodable(s)
    ensures |Utf8(Quote(s))| == TextCost(s)
  {
    EscapeSize(s);
    Utf8Concat([34] + Escape(s), [34]);
    Utf8Concat([34], Escape(s));
    Utf8Ascii([34]);
  }

  lemma {:induction false} ItemsCostFront(items: seq<Py>)
    requires items != []
    ensures ItemsCost(items) == 1 + Cost(items[0]) + ItemsCost(items[1..])
  {
    var n := |items| - 1;
    if n == 0 {
      assert items[..0] == [] && items[1..] == [];
    } else {
      ItemsCostFront(items[..n]);
      assert items[..n][1..] == items[1..][..n - 1];
    }
  }

  lemma {:induction false} PairsCostFront(pairs: seq<Pair>)
    requires pairs != []
    ensures PairsCost(pairs) == PairCost(pairs[0]) + PairsCost(pairs[1..])
  {
    var n := |pairs| - 1;
    if n == 0 {
      assert pairs[..0] == [] && pairs[1..] == [];
    } else {
      PairsCostFront(pairs[..n]);
      assert pairs[..n][1..] == pairs[1..][..n - 1];
    }
  }

  function Bytes(v: Json): nat { |Utf8(Print(v))| }

  /** For every acceptable value the charge is at least the length of its compact encoding. */
  lemma {:induction false} ChargeCoversEncoding(item: Py, depth: int)
    requires Acceptable(item, depth)
    ensures Bytes(Snapshot(item, depth)) <= Cost(item)
    decreases item, 1
  {
    match item {
      case PyNone => Utf8Ascii(NULL);
      case PyBool(b) => Utf8Ascii(if b then TRUE else FALSE);
      case PyInt(n) =>
        DigitChargeSuffices(n);
        Utf8Ascii(IntText(n));
      case PyFloat(_, repr) => Utf8Ascii(repr);
      case PyStr(s) => QuoteSize(s);
      case PyMapping(pairs, _) =>
        MappingCovered(pairs, depth);
      case PyList(items) =>
        ListCovered(items, depth);
    }
  }

  lemma {:induction false} MappingCovered(pairs: seq<Pair>, depth: int)
    requires Acceptable(PyMapping(pairs, false), depth)
    ensures Bytes(Snapshot(PyMapping(pairs, false), depth)) <= Cost(PyMapping(pairs, false))
    decreases pairs, 1
  {
    MappingUnfolds(pairs, false, depth);
    var fields := Snapshot(PyMapping(pairs, false), depth).fields;
    hide PairOk, FieldOf, PairCost, PrintFields;
    PairsCovered(pairs, fields, depth);
    Bracketed(123, PrintFields(fields), 125);
  }

  lemma {:induction false} ListCovered(items: seq<Py>, depth: int)
    requires Acceptable(PyList(items), depth)
    ensures Bytes(Snapshot(PyList(items), depth)) <= Cost(PyList(items))
    decreases items, 1
  {
    ListUnfolds(items, depth);
    var elements := Snapshot(PyList(items), depth).items;
    hide PrintItems;
    ItemsCovered(items, elements, depth);
    Bracketed(91, PrintItems(elements), 93);
  }

  lemma Bracketed(open: Code, t: Text, close: Code)
    requires open <= 0x7F && close <= 0x7F
    ensures |Utf8([open] + t + [close])| == |Utf8(t)| + 2
  {
    Utf8Concat([open] + t, [close]);
    Utf8Concat([open], t);
    Utf8Ascii([open]);
    Utf8Ascii([close]);
  }

  lemma Joined(t: Text, mark: Code, u: Text)
    requires mark <= 0x7F
    ensures |Utf8(t + [mark] + u)| == |Utf8(t)| + 1 + |Utf8(u)|
  {
    Utf8Concat(t + [mark], u);
    Utf8Concat(t, [mark]);
    Utf8Ascii([mark]);
  }

  lemma {:induction false} ItemsCovered(items: seq<Py>, elements: seq<Json>, depth: int)
    requires |elements| == |items|
    requires forall i :: 0 <= i < |items| ==> Acceptable(items[i], depth + 1) && elements[i] == Snapshot(items[i], depth + 1)
    ensures |Utf8(PrintItems(elements))| <= ItemsCost(items)
    decreases items, 0
  {
    if items != [] {
      ItemsCostFront(items);
      ChargeCoversEncoding(items[0], depth + 1);
      ItemsCovered(items[1..], elements[1..], depth);
      Joined(Print(elements[0]), 44, PrintItems(elements[1..]));
    }
  }

  lemma {:induction false} PairsCovered(pairs: seq<Pair>, fields: seq<Field>, depth: int)
    requires |fields| == |pairs|
    requires forall i :: 0 <= i < |pairs| ==> PairOk(pairs[i], depth) && fields[i] == FieldOf(pairs[i], depth)
    ensures |Utf8(PrintFields(fields))| <= PairsCost(pairs)
    decreases pairs, 0
  {
    if pairs != [] {
      PairsCostFront(pairs);
      PairCovered(pairs[0], depth);
      PairsCovered(pairs[1..], fields[1..], depth);
      Joined(PrintField(fields[0]), 44, PrintFields(fields[1..]));
    }
  }

  /** A key's two extra bytes pay for the colon and the comma. */
  lemma PairCovered(p: Pair, depth: int)
    requires PairOk(p, depth)
    ensures |Utf8(PrintField(FieldOf(p, depth)))| + 1 <= PairCost(p)
    decreases p, 0
  {
    var f := FieldOf(p, depth);
    ChargeCoversEncoding(p.value, depth + 1);
    QuoteSize(f.key);
    Joined(Quote(f.key), 58, Print(f.value));
  }

  // ----- encoding the snapshot ------------------------------------------------------------

  /** Python's default limit on the digits of an integer, which the package never changes. */
  const MAX_STR_DIGITS := 4300

  /** Every integer of the document can be written. */
  predicate IntegersWritable(v: Json, digitLimit: nat) {
    match v
    case Int(n) => Writable(n, digitLimit)
    case Arr(items) => forall i :: 0 <= i < |items| ==> IntegersWritable(items[i], digitLimit)
    case Obj(fields) => forall i :: 0 <= i < |fields| ==> IntegersWritable(fields[i].value, digitLimit)
    case _ => true
  }

  /** The same of a value handed in by a caller. */
  predicate ValueWritable(item: Py, digitLimit: nat) {
    match item
    case PyInt(n) => Writable(n, digitLimit)
    case PyList(items) => forall i :: 0 <= i < |items| ==> ValueWritable(items[i], digitLimit)
    case PyMapping(pairs, _) => forall i :: 0 <= i < |pairs| ==> ValueWritable(pairs[i].value, digitLimit)
    case _ => true
  }

  /** `json.dumps` of a plain document: the compact encoding, or Python's ValueError. */
  function Dumps(v: Json, digitLimit: nat): Option<seq<Byte>> {
    if IntegersWritable(v, digitLimit) then Some(Utf8(Print(v))) else None
  }

  lemma {:induction false} SnapshotWritable(item: Py, depth: int, digitLimit: nat)
    requires Acceptable(item, depth)
    ensures IntegersWritable(Snapshot(item, depth), digitLimit) <==> ValueWritable(item, digitLimit)
    decreases item, 1
  {
    match item
    case PyMapping(pairs, _) =>
      MappingWritable(pairs, depth, digitLimit);
    case PyList(items) =>
      var elements := Snapshot(item, depth).items;
      forall i | 0 <= i < |items|
        ensures IntegersWritable(elements[i], digitLimit) <==> ValueWritable(items[i], digitLimit)
      {
        SnapshotWritable(items[i], depth + 1, digitLimit);
      }
    case _ =>
  }

  lemma {:induction false} MappingWritable(pairs: seq<Pair>, depth: int, digitLimit: nat)
    requires Acceptable(PyMapping(pairs, false), depth)
    ensures IntegersWritable(Snapshot(PyMapping(pairs, false), depth), digitLimit)
            <==> ValueWritable(PyMapping(pairs, false), digitLimit)
    decreases pairs, 1
  {
    MappingUnfolds(pairs, false, depth);
    var fields := Snapshot(PyMapping(pairs, false), depth).fields;
    forall i | 0 <= i < |pairs|
      ensures IntegersWritable(fields[i].value, digitLimit) <==> ValueWritable(pairs[i].value, digitLimit)
    {
      assert PairOk(pairs[i], depth) && fields[i] == FieldOf(pairs[i], depth);
      SnapshotWritable(pairs[i].value, depth + 1, digitLimit);
    }
  }

  /** `_json_bytes`: succeeds exactly on acceptable values whose charge fits and whose integers
      Python agrees to write, with the compact encoding of the value, never longer than the bound;
      the check after encoding cannot fail. */
  method JsonBytes(value: Py, maximum: nat, digitLimit: nat) returns (r: Option<seq<Byte>>)
    ensures r.Some? <==> Acceptable(value, 0) && Cost(value) <= maximum && ValueWritable(value, digitLimit)
    ensures r.Some? ==> r.value == Utf8(Print(Snapshot(value, 0))) && 0 < |r.value| <= maximum
  {
    var traversal := new Traversal(maximum);
    var snapshot := traversal.Visit(value, 0);
    if snapshot.None? { return None; }
    SnapshotWritable(value, 0, digitLimit);
    var encoded := Dumps(snapshot.value, digitLimit);
    if encoded.None? { return None; }
    ChargeCoversEncoding(value, 0);
    PrintNotEmpty(snapshot.value);
    if encoded.value == [] || |encoded.value| > maximum {
      assert false;
    }
    return encoded;
  }

  /** The preflight does not settle it: ten to the 5000th is acceptable and its charge fits ten
      thousand bytes, and the default limit refuses it nevertheless. */
  lemma PreflightPassesUnwritable()
    ensures var value := PyInt(Pow(10, 5000));
      Acceptable(value, 0) && Cost(value) <= 10000 && !ValueWritable(value, MAX_STR_DIGITS)
  {
    hide Pow, Digits, BitLength;
    PowPositive(10, 5000);
    PowerOfTenDigits(5000);
    PowerOfTenBits(5000);
  }

  lemma PrintNotEmpty(v: Json)
    requires forall f :: v == Float(f) ==> f != []
    ensures Utf8(Print(v)) != []
  {
  }
}
