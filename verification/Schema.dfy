/**
 The structural schema interpreter of the assembly-evidence report.

 `Checker` is the interpreter: its counters persist through caught failures.  `Sat` is what the
 keywords mean.  Objects keep their fields in key order, the order in which the compact encoding
 writes them.
 */
module Schema {
  import opened Common
  import opened Json
  import Canonical

  datatype TypeName = TObject | TArray | TString | TInteger | TBoolean | TNull | TNumber | TUnknown

  /** A rule; absent keywords are `None` (or the defaults the interpreter uses). */
  datatype Rule = Rule(
    allOf: Rules, anyOf: Rules, oneOf: Rules,
    not: Option<Rule>, cond: Option<Rule>, then_: Option<Rule>,
    types: Option<seq<TypeName>>, const_: Option<Json>, enum_: Option<seq<Json>>,
    required: seq<Text>, properties: seq<Property>, closed: bool,
    minItems: int, maxItems: Option<int>, uniqueItems: bool, items: Option<Rule>,
    minLength: int, maxLength: Option<int>, pattern: Option<Text>,
    minimum: Option<real>, maximum: Option<real>)

  datatype Rules = Absent | Rules(list: seq<Rule>)

  datatype Property = Property(key: Text, rule: Rule)

  /** What is taken from outside: the number a float text denotes and the regular expression engine. */
  datatype Host = Host(number: Text -> real, fullmatch: (Text, Text) -> bool, search: (Text, Text) -> bool)

  const MAX_VISITS := 1_000_000
  const MAX_DEPTH := 256
  const MAX_UNIQUE_BYTES := 32 * 1024 * 1024

  // ----- keywords without subrules --------------------------------------------------------

  /** `_strict_json_equal`: same types throughout, floats by value. */
  predicate StrictEqual(host: Host, a: Json, b: Json)
    decreases a
  {
    match a
    case Null => b.Null?
    case Bool(p) => b.Bool? && p == b.b
    case Int(n) => b.Int? && n == b.n
    case Float(r) => b.Float? && host.number(r) == host.number(b.repr)
    case Str(s) => b.Str? && s == b.s
    case Arr(items) =>
      b.Arr? && |items| == |b.items| && forall i :: 0 <= i < |items| ==> StrictEqual(host, items[i], b.items[i])
    case Obj(fields) =>
      b.Obj? && |fields| == |b.fields|
      && forall i :: 0 <= i < |fields| ==>
           fields[i].key == b.fields[i].key && StrictEqual(host, fields[i].value, b.fields[i].value)
  }

  predicate NoFloats(v: Json) {
    match v
    case Float(_) => false
    case Arr(items) => forall i :: 0 <= i < |items| ==> NoFloats(items[i])
    case Obj(fields) => forall i :: 0 <= i < |fields| ==> NoFloats(fields[i].value)
    case _ => true
  }

  /** Without floats strict equality is equality, so no two types are ever mixed up. */
  lemma {:induction false} StrictEqualIsEquality(host: Host, a: Json, b: Json)
    requires NoFloats(a)
    ensures StrictEqual(host, a, b) <==> a == b
    decreases a
  {
    match a
    case Arr(items) =>
      if b.Arr? && |items| == |b.items| {
        forall i | 0 <= i < |items| ensures StrictEqual(host, items[i], b.items[i]) <==> items[i] == b.items[i] {
          StrictEqualIsEquality(host, items[i], b.items[i]);
        }
        assert items == b.items <==> forall i :: 0 <= i < |items| ==> items[i] == b.items[i];
      }
    case Obj(fields) =>
      if b.Obj? && |fields| == |b.fields| {
        forall i | 0 <= i < |fields|
          ensures StrictEqual(host, fields[i].value, b.fields[i].value) <==> fields[i].value == b.fields[i].value
        {
          StrictEqualIsEquality(host, fields[i].value, b.fields[i].value);
        }
        assert fields == b.fields <==>
               forall i :: 0 <= i < |fields| ==> fields[i].key == b.fields[i].key && fields[i].value == b.fields[i].value;
      }
    case _ =>
  }

  predicate TypeMatches(item: Json, t: TypeName) {
    match t
    case TObject => item.Obj?
    case TArray => item.Arr?
    case TString => item.Str?
    case TInteger => item.Int?
    case TBoolean => item.Bool?
    case TNull => item.Null?
    case TNumber => item.Int? || item.Float?
    case TUnknown => false
  }

  function NumberOf(host: Host, item: Json): real
    requires item.Int? || item.Float?
  {
    if item.Int? then item.n as real else host.number(item.repr)
  }

  function Encoded(v: Json): seq<Byte> { Utf8(Print(v)) }

  predicate DeclaredKey(properties: seq<Property>, key: Text) {
    exists i :: 0 <= i < |properties| && properties[i].key == key
  }

  predicate PatternMatches(host: Host, pattern: Text, s: Text) {
    if pattern != [] && pattern[0] == 94 && pattern[|pattern| - 1] == 36 then host.fullmatch(pattern, s)
    else host.search(pattern, s)
  }

  predicate Distinct(items: seq<Json>) {
    forall i, j :: 0 <= i < j < |items| ==> Encoded(items[i]) != Encoded(items[j])
  }

  predicate SatType(item: Json, rule: Rule) {
    rule.types.Some? ==> exists i :: 0 <= i < |rule.types.value| && TypeMatches(item, rule.types.value[i])
  }

  predicate SatValue(host: Host, item: Json, rule: Rule) {
    && (rule.const_.Some? ==> StrictEqual(host, item, rule.const_.value))
    && (rule.enum_.Some? ==> exists i :: 0 <= i < |rule.enum_.value| && StrictEqual(host, item, rule.enum_.value[i]))
  }

  predicate SatKeys(item: Json, rule: Rule) {
    item.Obj? ==>
      && (forall i :: 0 <= i < |rule.required| ==> HasKey(item.fields, rule.required[i]))
      && (rule.closed ==> forall i :: 0 <= i < |item.fields| ==> DeclaredKey(rule.properties, item.fields[i].key))
  }

  predicate SatScalar(host: Host, item: Json, rule: Rule) {
    && (item.Str? ==>
          && |item.s| >= rule.minLength && (rule.maxLength.Some? ==> |item.s| <= rule.maxLength.value)
          && (rule.pattern.Some? ==> PatternMatches(host, rule.pattern.value, item.s)))
    && (item.Int? || item.Float? ==>
          && (rule.minimum.Some? ==> NumberOf(host, item) >= rule.minimum.value)
          && (rule.maximum.Some? ==> NumberOf(host, item) <= rule.maximum.value))
  }

  // ----- the meaning of a rule ------------------------------------------------------------

  /** How deep a rule may still nest: without limit, or `left` more levels. */
  datatype Room = Unlimited | Limited(left: int)

  predicate Open(room: Room) { room.Limited? ==> room.left >= 0 }
  function Deeper(room: Room): Room { if room.Unlimited? then Unlimited else Limited(room.left - 1) }

  /** The keyword semantics.  With `Limited`, nesting too deep counts as not satisfied, which is what
      the interpreter makes of it. */
  ghost predicate Sat(host: Host, item: Json, rule: Rule, room: Room)
    decreases rule, 2
  {
    && Open(room)
    && SatApplicators(host, item, rule, Deeper(room))
    && SatType(item, rule) && SatValue(host, item, rule) && SatKeys(item, rule)
    && (item.Obj? ==> SatProperties(host, item.fields, rule.properties, Deeper(room)))
    && (item.Arr? ==> SatArray(host, item.items, rule, Deeper(room)))
    && SatScalar(host, item, rule)
  }

  ghost predicate SatApplicators(host: Host, item: Json, rule: Rule, room: Room)
    decreases rule, 1
  {
    SatLists(host, item, rule, room) && SatConditions(host, item, rule, room)
  }

  /** allOf, anyOf and oneOf. */
  ghost predicate SatLists(host: Host, item: Json, rule: Rule, room: Room)
    decreases rule, 0
  {
    SatAll(host, item, rule.allOf, room) && SatAny(host, item, rule.anyOf, room) && SatOne(host, item, rule.oneOf, room)
  }

  ghost predicate SatAll(host: Host, item: Json, rules: Rules, room: Room)
    decreases rules, 0
  {
    rules.Rules? ==> forall i :: 0 <= i < |rules.list| ==> Sat(host, item, rules.list[i], room)
  }

  ghost predicate SatAny(host: Host, item: Json, rules: Rules, room: Room)
    decreases rules, 0
  {
    rules.Rules? ==> exists i :: 0 <= i < |rules.list| && Sat(host, item, rules.list[i], room)
  }

  ghost predicate SatOne(host: Host, item: Json, rules: Rules, room: Room)
    decreases rules, 0
  {
    rules.Rules? ==> SatCount(host, item, rules.list, room) == 1
  }

  /** not, and if/then. */
  ghost predicate SatConditions(host: Host, item: Json, rule: Rule, room: Room)
    decreases rule, 0
  {
    && (rule.not.Some? ==> !Sat(host, item, rule.not.value, room))
    && (rule.cond.Some? && Sat(host, item, rule.cond.value, room) && rule.then_.Some? ==>
          Sat(host, item, rule.then_.value, room))
  }

  ghost predicate SatProperties(host: Host, fields: seq<Field>, properties: seq<Property>, room: Room)
    decreases properties, 1
  {
    forall i :: 0 <= i < |properties| ==> SatProperty(host, fields, properties[i], room)
  }

  ghost predicate SatArray(host: Host, items: seq<Json>, rule: Rule, room: Room)
    decreases rule, 1
  {
    && |items| >= rule.minItems && (rule.maxItems.Some? ==> |items| <= rule.maxItems.value)
    && (rule.uniqueItems ==> Distinct(items))
    && (rule.items.Some? ==> SatItems(host, items, rule.items.value, room))
  }

  ghost predicate SatItems(host: Host, items: seq<Json>, rule: Rule, room: Room)
    decreases rule, 3
  {
    forall i :: 0 <= i < |items| ==> Sat(host, items[i], rule, room)
  }

  ghost predicate SatProperty(host: Host, fields: seq<Field>, p: Property, room: Room)
    decreases p, 0
  {
    HasKey(fields, p.key) ==> Sat(host, FieldValue(fields, p.key), p.rule, room)
  }

  /** How many of the rules hold. */
  ghost function SatCount(host: Host, item: Json, rules: seq<Rule>, room: Room): nat
    decreases rules, 0
  {
    if rules == [] then 0
    else SatCount(host, item, rules[..|rules| - 1], room) + (if Sat(host, item, rules[|rules| - 1], room) then 1 else 0)
  }

  // ----- the depth limit ------------------------------------------------------------------

  /** On this value the rule nests at most `left` levels below itself; rules under absent properties
      and for items of anything but an array are never reached. */
  predicate Shallow(item: Json, rule: Rule, left: int)
    decreases rule, 2
  {
    left >= 0 && ShallowApplicators(item, rule, left - 1) && ShallowChildren(item, rule, left - 1)
  }

  predicate ShallowApplicators(item: Json, rule: Rule, left: int)
    decreases rule, 1
  {
    && ShallowList(item, rule.allOf, left) && ShallowList(item, rule.anyOf, left) && ShallowList(item, rule.oneOf, left)
    && ShallowMaybe(item, rule.not, left) && ShallowMaybe(item, rule.cond, left) && ShallowMaybe(item, rule.then_, left)
  }

  predicate ShallowList(item: Json, rules: Rules, left: int)
    decreases rules, 0
  {
    rules.Rules? ==> forall i :: 0 <= i < |rules.list| ==> Shallow(item, rules.list[i], left)
  }

  predicate ShallowMaybe(item: Json, rule: Option<Rule>, left: int)
    decreases rule, 0
  {
    rule.Some? ==> Shallow(item, rule.value, left)
  }

  predicate ShallowChildren(item: Json, rule: Rule, left: int)
    decreases rule, 1
  {
    && (item.Obj? ==> ShallowProperties(item.fields, rule.properties, left))
    && (item.Arr? ==> ShallowItems(item.items, rule.items, left))
  }

  predicate ShallowProperties(fields: seq<Field>, properties: seq<Property>, left: int)
    decreases properties, 1
  {
    forall i :: 0 <= i < |properties| ==> ShallowProperty(fields, properties[i], left)
  }

  predicate ShallowProperty(fields: seq<Field>, p: Property, left: int)
    decreases p, 0
  {
    HasKey(fields, p.key) ==> Shallow(FieldValue(fields, p.key), p.rule, left)
  }

  predicate ShallowItems(items: seq<Json>, rule: Option<Rule>, left: int)
    decreases rule, 0
  {
    rule.Some? ==> forall i :: 0 <= i < |items| ==> Shallow(items[i], rule.value, left)
  }

  /** On a value where the rule is not too deep the depth limit makes no difference. */
  lemma {:induction false} DepthFree(host: Host, item: Json, rule: Rule, left: int)
    requires Shallow(item, rule, left)
    ensures Sat(host, item, rule, Limited(left)) <==> Sat(host, item, rule, Unlimited)
    decreases rule, 2
  {
    hide SatType, SatValue, SatKeys, SatScalar, Distinct, SatLists, SatConditions, SatProperty, HasKey, ShallowList, ShallowMaybe, ShallowItems, ShallowProperty;
    DepthFreeLists(host, item, rule, left - 1);
    DepthFreeConditions(host, item, rule, left - 1);
    assert ShallowChildren(item, rule, left - 1);
    if item.Obj? {
      assert ShallowProperties(item.fields, rule.properties, left - 1);
      forall i | 0 <= i < |rule.properties|
        ensures SatProperty(host, item.fields, rule.properties[i], Limited(left - 1))
          <==> SatProperty(host, item.fields, rule.properties[i], Unlimited)
      {
        DepthFreeProperty(host, item.fields, rule.properties[i], left - 1);
      }
    }
    if item.Arr? && rule.items.Some? {
      DepthFreeItems(host, item.items, rule.items, left - 1);
    }
  }

  lemma {:induction false} DepthFreeProperty(host: Host, fields: seq<Field>, p: Property, left: int)
    requires ShallowProperty(fields, p, left)
    ensures SatProperty(host, fields, p, Limited(left)) <==> SatProperty(host, fields, p, Unlimited)
    decreases p, 3
  {
    hide Sat, Shallow;
    if HasKey(fields, p.key) {
      DepthFree(host, FieldValue(fields, p.key), p.rule, left);
    }
  }

  lemma {:induction false} DepthFreeItems(host: Host, items: seq<Json>, rule: Option<Rule>, left: int)
    requires rule.Some? && ShallowItems(items, rule, left)
    ensures SatItems(host, items, rule.value, Limited(left)) <==> SatItems(host, items, rule.value, Unlimited)
    decreases rule, 0
  {
    hide Sat, Shallow;
    forall i | 0 <= i < |items|
      ensures Sat(host, items[i], rule.value, Limited(left)) <==> Sat(host, items[i], rule.value, Unlimited)
    {
      DepthFree(host, items[i], rule.value, left);
    }
  }

  lemma {:induction false} DepthFreeLists(host: Host, item: Json, rule: Rule, left: int)
    requires ShallowList(item, rule.allOf, left) && ShallowList(item, rule.anyOf, left) && ShallowList(item, rule.oneOf, left)
    ensures SatLists(host, item, rule, Limited(left)) <==> SatLists(host, item, rule, Unlimited)
    decreases rule, 1
  {
    hide Sat, Shallow, SatCount;
    DepthFreeList(host, item, rule.allOf, left);
    DepthFreeList(host, item, rule.anyOf, left);
    DepthFreeList(host, item, rule.oneOf, left);
    if rule.oneOf.Rules? {
      SatCountAgrees(host, item, rule.oneOf.list, Limited(left), Unlimited);
    }
  }

  lemma {:induction false} DepthFreeList(host: Host, item: Json, rules: Rules, left: int)
    requires ShallowList(item, rules, left)
    ensures rules.Rules? ==> forall i :: 0 <= i < |rules.list| ==>
              (Sat(host, item, rules.list[i], Limited(left)) <==> Sat(host, item, rules.list[i], Unlimited))
    decreases rules, 0
  {
    hide Sat, Shallow;
    if rules.Rules? {
      forall i | 0 <= i < |rules.list|
        ensures Sat(host, item, rules.list[i], Limited(left)) <==> Sat(host, item, rules.list[i], Unlimited)
      {
        DepthFree(host, item, rules.list[i], left);
      }
    }
  }

  lemma {:induction false} SatCountAgrees(host: Host, item: Json, rules: seq<Rule>, room: Room, other: Room)
    requires forall i :: 0 <= i < |rules| ==> (Sat(host, item, rules[i], room) <==> Sat(host, item, rules[i], other))
    ensures SatCount(host, item, rules, room) == SatCount(host, item, rules, other)
  {
    hide Sat;
    if rules != [] {
      SatCountAgrees(host, item, rules[..|rules| - 1], room, other);
    }
  }

  lemma {:induction false} DepthFreeConditions(host: Host, item: Json, rule: Rule, left: int)
    requires ShallowMaybe(item, rule.not, left) && ShallowMaybe(item, rule.cond, left) && ShallowMaybe(item, rule.then_, left)
    ensures SatConditions(host, item, rule, Limited(left)) <==> SatConditions(host, item, rule, Unlimited)
    decreases rule, 1
  {
    hide Sat, Shallow;
    if rule.not.Some? { DepthFree(host, item, rule.not.value, left); }
    if rule.cond.Some? { DepthFree(host, item, rule.cond.value, left); }
    if rule.then_.Some? { DepthFree(host, item, rule.then_.value, left); }
  }

  const ANYTHING := Rule(Absent, Absent, Absent, None, None, None, None, None, None, [], [], false, 0, None, false, None,
    0, None, None, None, None)

  /** `n` nested allOf around a rule that accepts everything. */
  function Nest(n: nat): Rule {
    if n == 0 then ANYTHING else ANYTHING.(allOf := Rules([Nest(n - 1)]))
  }

  /** It accepts everything, but only as far as the depth limit allows. */
  lemma {:induction false} NestAccepts(host: Host, item: Json, n: nat, room: Room)
    ensures Sat(host, item, Nest(n), room) <==> room.Unlimited? || n <= room.left
  {
    var rule := Nest(n);
    assert SatType(item, rule) && SatValue(host, item, rule) && SatKeys(item, rule) && SatScalar(host, item, rule);
    assert SatConditions(host, item, rule, Deeper(room));
    if n == 0 {
      assert SatLists(host, item, rule, Deeper(room));
    } else {
      NestAccepts(host, item, n - 1, Deeper(room));
      assert rule.allOf.list == [Nest(n - 1)];
      assert SatLists(host, item, rule, Deeper(room)) <==> Sat(host, item, rule.allOf.list[0], Deeper(room));
    }
  }

  // ----- what single keywords decide ------------------------------------------------------

  /** A rule without subrules. */
  predicate Flat(rule: Rule) {
    && rule.allOf.Absent? && rule.anyOf.Absent? && rule.oneOf.Absent? && rule.not.None? && rule.cond.None?
    && rule.items.None? && forall i :: 0 <= i < |rule.properties| ==> rule.properties[i].rule == ANYTHING
  }

  lemma AnythingAccepts(host: Host, item: Json)
    ensures Sat(host, item, ANYTHING, Unlimited)
  {
    NestAccepts(host, item, 0, Unlimited);
  }

  lemma FlatApplicators(host: Host, item: Json, rule: Rule)
    requires Flat(rule)
    ensures SatApplicators(host, item, rule, Unlimited)
  {
    assert SatAll(host, item, rule.allOf, Unlimited) && SatAny(host, item, rule.anyOf, Unlimited) && SatOne(host, item, rule.oneOf, Unlimited);
    assert SatConditions(host, item, rule, Unlimited);
  }

  lemma FlatProperties(host: Host, fields: seq<Field>, rule: Rule)
    requires Flat(rule)
    ensures SatProperties(host, fields, rule.properties, Unlimited)
  {
    hide Sat;
    forall i | 0 <= i < |rule.properties| ensures SatProperty(host, fields, rule.properties[i], Unlimited) {
      if HasKey(fields, rule.properties[i].key) {
        AnythingAccepts(host, FieldValue(fields, rule.properties[i].key));
      }
    }
  }

  /** Such a rule is the conjunction of its keywords. */
  lemma FlatMeans(host: Host, item: Json, rule: Rule)
    requires Flat(rule)
    ensures Sat(host, item, rule, Unlimited) <==>
              && SatType(item, rule) && SatValue(host, item, rule) && SatKeys(item, rule) && SatScalar(host, item, rule)
              && (item.Arr? ==>
                    && |item.items| >= rule.minItems && (rule.maxItems.Some? ==> |item.items| <= rule.maxItems.value)
                    && (rule.uniqueItems ==> Distinct(item.items)))
  {
    hide SatType, SatValue, SatKeys, SatScalar, SatApplicators, SatProperties, Distinct, Flat;
    FlatApplicators(host, item, rule);
    if item.Obj? { FlatProperties(host, item.fields, rule); }
    assert rule.items.None? by { FlatHasNoItems(rule); }
  }

  lemma FlatHasNoItems(rule: Rule)
    requires Flat(rule)
    ensures rule.items.None?
  {
  }

  /** `type`: each kind of document has its own name, integers are numbers too, a boolean is no integer,
      and of a list of names any one will do. */
  lemma TypeDecides(host: Host, item: Json, names: seq<TypeName>)
    ensures Sat(host, item, ANYTHING.(types := Some(names)), Unlimited) <==>
              match item
              case Null => TNull in names
              case Bool(_) => TBoolean in names
              case Int(_) => TInteger in names || TNumber in names
              case Float(_) => TNumber in names
              case Str(_) => TString in names
              case Arr(_) => TArray in names
              case Obj(_) => TObject in names
  {
    var rule := ANYTHING.(types := Some(names));
    FlatMeans(host, item, rule);
    hide Sat;
    match item {
      case Null => NamesDecide(item, names, TNull);
      case Bool(_) => NamesDecide(item, names, TBoolean);
      case Int(_) => NamesDecide(item, names, TInteger); NamesDecide(item, names, TNumber);
      case Float(_) => NamesDecide(item, names, TNumber);
      case Str(_) => NamesDecide(item, names, TString);
      case Arr(_) => NamesDecide(item, names, TArray);
      case Obj(_) => NamesDecide(item, names, TObject);
    }
  }

  lemma NamesDecide(item: Json, names: seq<TypeName>, t: TypeName)
    requires TypeMatches(item, t)
    ensures t in names ==> exists i :: 0 <= i < |names| && TypeMatches(item, names[i])
  {
    if t in names {
      var i :| 0 <= i < |names| && names[i] == t;
      assert TypeMatches(item, names[i]);
    }
  }

  /** `minLength` and `maxLength`: both ends belong to the range, and only strings are measured. */
  lemma LengthDecides(host: Host, item: Json, low: int, high: int)
    ensures Sat(host, item, ANYTHING.(minLength := low, maxLength := Some(high)), Unlimited) <==>
              (item.Str? ==> low <= |item.s| <= high)
  {
    FlatMeans(host, item, ANYTHING.(minLength := low, maxLength := Some(high)));
    hide Sat;
  }

  /** `minItems` and `maxItems`, likewise for arrays. */
  lemma SizeDecides(host: Host, item: Json, low: int, high: int)
    ensures Sat(host, item, ANYTHING.(minItems := low, maxItems := Some(high)), Unlimited) <==>
              (item.Arr? ==> low <= |item.items| <= high)
  {
    FlatMeans(host, item, ANYTHING.(minItems := low, maxItems := Some(high)));
    hide Sat;
  }

  /** `uniqueItems`: no document occurs twice. */
  lemma UniqueDecides(host: Host, items: seq<Json>)
    requires forall i :: 0 <= i < |items| ==> FloatsOk(items[i])
    ensures Sat(host, Arr(items), ANYTHING.(uniqueItems := true), Unlimited) <==>
              forall i, j :: 0 <= i < j < |items| ==> items[i] != items[j]
  {
    FlatMeans(host, Arr(items), ANYTHING.(uniqueItems := true));
    hide Sat, Distinct;
    DistinctDocuments(items);
  }

  /** `minimum` and `maximum`: both ends belong to the range, and only numbers are compared. */
  lemma RangeDecides(host: Host, item: Json, low: real, high: real)
    ensures Sat(host, item, ANYTHING.(minimum := Some(low), maximum := Some(high)), Unlimited) <==>
              match item
              case Int(n) => low <= n as real <= high
              case Float(r) => low <= host.number(r) <= high
              case _ => true
  {
    FlatMeans(host, item, ANYTHING.(minimum := Some(low), maximum := Some(high)));
    hide Sat;
  }

  function Keys(fields: seq<Field>): set<Text> { set i | 0 <= i < |fields| :: fields[i].key }
  function DeclaredKeys(properties: seq<Property>): set<Text> { set i | 0 <= i < |properties| :: properties[i].key }

  lemma RequiredKeys(required: seq<Text>, fields: seq<Field>)
    ensures (set k | k in required) <= Keys(fields) <==> forall i :: 0 <= i < |required| ==> HasKey(fields, required[i])
  {
    assert forall k :: k in Keys(fields) <==> HasKey(fields, k);
    if (set k | k in required) <= Keys(fields) {
      forall i | 0 <= i < |required| ensures HasKey(fields, required[i]) {
        assert required[i] in (set k | k in required);
      }
    }
  }

  lemma OnlyDeclaredKeys(fields: seq<Field>, properties: seq<Property>)
    ensures Keys(fields) <= DeclaredKeys(properties) <==> forall i :: 0 <= i < |fields| ==> DeclaredKey(properties, fields[i].key)
  {
    assert forall k :: k in DeclaredKeys(properties) <==> DeclaredKey(properties, k);
    if Keys(fields) <= DeclaredKeys(properties) {
      forall i | 0 <= i < |fields| ensures DeclaredKey(properties, fields[i].key) {
        assert fields[i].key in Keys(fields);
      }
    }
  }

  /** `required` and `additionalProperties: false`: the keys of an object lie between the two. */
  lemma KeysDecide(host: Host, item: Json, required: seq<Text>, properties: seq<Property>)
    requires forall i :: 0 <= i < |properties| ==> properties[i].rule == ANYTHING
    ensures Sat(host, item, ANYTHING.(required := required, properties := properties, closed := true), Unlimited) <==>
              (item.Obj? ==> (set k | k in required) <= Keys(item.fields) <= DeclaredKeys(properties))
  {
    var rule := ANYTHING.(required := required, properties := properties, closed := true);
    FlatMeans(host, item, rule);
    hide Sat;
    if item.Obj? {
      RequiredKeys(required, item.fields);
      OnlyDeclaredKeys(item.fields, properties);
    }
  }

  /** `const` and `enum`: equality and membership; a float equals the floats of the same value only. */
  lemma ValueDecides(host: Host, item: Json, value: Json, choices: seq<Json>)
    ensures NoFloats(item) ==> (Sat(host, item, ANYTHING.(const_ := Some(value)), Unlimited) <==> item == value)
    ensures NoFloats(item) ==> (Sat(host, item, ANYTHING.(enum_ := Some(choices)), Unlimited) <==> item in choices)
    ensures item.Float? ==> (Sat(host, item, ANYTHING.(const_ := Some(value)), Unlimited) <==>
                               value.Float? && host.number(item.repr) == host.number(value.repr))
  {
    FlatMeans(host, item, ANYTHING.(const_ := Some(value)));
    FlatMeans(host, item, ANYTHING.(enum_ := Some(choices)));
    hide Sat;
    if NoFloats(item) {
      StrictEqualIsEquality(host, item, value);
      forall i | 0 <= i < |choices| ensures StrictEqual(host, item, choices[i]) <==> item == choices[i] {
        StrictEqualIsEquality(host, item, choices[i]);
      }
    }
  }

  /** `pattern`: a pattern from caret to dollar must match the whole string, any other some part of it. */
  lemma PatternDecides(host: Host, item: Json, pattern: Text)
    ensures Sat(host, item, ANYTHING.(pattern := Some(pattern)), Unlimited) <==>
              (item.Str? ==>
                 if pattern != [] && pattern[0] == '^' as int && pattern[|pattern| - 1] == '$' as int
                 then host.fullmatch(pattern, item.s) else host.search(pattern, item.s))
  {
    FlatMeans(host, item, ANYTHING.(pattern := Some(pattern)));
    hide Sat;
  }

  /** Comparing compact encodings is comparing documents. */
  lemma DistinctDocuments(items: seq<Json>)
    requires forall i :: 0 <= i < |items| ==> FloatsOk(items[i])
    ensures Distinct(items) <==> forall i, j :: 0 <= i < j < |items| ==> items[i] != items[j]
  {
    forall i, j | 0 <= i < j < |items| && Encoded(items[i]) == Encoded(items[j])
      ensures items[i] == items[j]
    {
      Utf8Injective(Print(items[i]), Print(items[j]));
      Canonical.PrintInjective(items[i], items[j]);
    }
    if i, j :| 0 <= i < j < |items| && items[i] == items[j] {
      assert Encoded(items[i]) == Encoded(items[j]);
    }
  }

  // ----- how much work a rule can cause ---------------------------------------------------

  datatype Work = Work(visits: nat, bytes: nat)

  function Plus(a: Work, b: Work): Work { Work(a.visits + b.visits, a.bytes + b.bytes) }

  const NO_WORK := Work(0, 0)

  /** A bound on the visits and on the bytes encoded for uniqueness, known before the run. */
  function WorkOf(item: Json, rule: Rule): Work
    decreases rule, 2
  {
    Plus(Work(1, 0), Plus(ApplicatorWork(item, rule), ChildWork(item, rule)))
  }

  function ApplicatorWork(item: Json, rule: Rule): Work
    decreases rule, 1
  {
    Plus(ListsWork(item, rule), ConditionsWork(item, rule))
  }

  function ListsWork(item: Json, rule: Rule): Work
    decreases rule, 0
  {
    Plus(RulesWork(item, rule.allOf), Plus(RulesWork(item, rule.anyOf), RulesWork(item, rule.oneOf)))
  }

  function ConditionsWork(item: Json, rule: Rule): Work
    decreases rule, 0
  {
    Plus(MaybeWork(item, rule.not), Plus(MaybeWork(item, rule.cond), MaybeWork(item, rule.then_)))
  }

  function ChildWork(item: Json, rule: Rule): Work
    decreases rule, 1
  {
    if item.Obj? then PropertiesWork(item.fields, rule.properties)
    else if item.Arr? then ArrayWork(item.items, rule)
    else NO_WORK
  }

  function ArrayWork(items: seq<Json>, rule: Rule): Work
    decreases rule, 0
  {
    Plus(if rule.uniqueItems then Work(0, EncodedBytes(items)) else NO_WORK,
      if rule.items.Some? then ItemsWork(items, rule.items.value) else NO_WORK)
  }

  lemma ArrayWorkParts(items: seq<Json>, rule: Rule)
    ensures rule.uniqueItems ==> EncodedBytes(items) <= ArrayWork(items, rule).bytes
    ensures rule.items.Some? ==>
              && ItemsWork(items, rule.items.value).visits <= ArrayWork(items, rule).visits
              && ItemsWork(items, rule.items.value).bytes + (if rule.uniqueItems then EncodedBytes(items) else 0)
                 <= ArrayWork(items, rule).bytes
  {
    hide EncodedBytes, ItemsWork;
  }

  function MaybeWork(item: Json, rule: Option<Rule>): Work
    decreases rule, 0
  {
    if rule.None? then NO_WORK else WorkOf(item, rule.value)
  }

  function RulesWork(item: Json, rules: Rules): Work
    decreases rules, 0
  {
    if rules.Absent? then NO_WORK else ListWork(item, rules.list)
  }

  function ListWork(item: Json, rules: seq<Rule>): Work
    decreases rules, 0
  {
    if rules == [] then NO_WORK
    else Plus(ListWork(item, rules[..|rules| - 1]), WorkOf(item, rules[|rules| - 1]))
  }

  function PropertiesWork(fields: seq<Field>, properties: seq<Property>): Work
    decreases properties, 1
  {
    if properties == [] then NO_WORK
    else Plus(PropertiesWork(fields, properties[..|properties| - 1]), PropertyWork(fields, properties[|properties| - 1]))
  }

  function PropertyWork(fields: seq<Field>, p: Property): Work
    decreases p, 0
  {
    if HasKey(fields, p.key) then WorkOf(FieldValue(fields, p.key), p.rule) else NO_WORK
  }

  function ItemsWork(items: seq<Json>, rule: Rule): Work
    decreases rule, 3, |items|
  {
    if items == [] then NO_WORK
    else Plus(ItemsWork(items[..|items| - 1], rule), WorkOf(items[|items| - 1], rule))
  }

  function EncodedBytes(items: seq<Json>): nat {
    if items == [] then 0 else EncodedBytes(items[..|items| - 1]) + |Encoded(items[|items| - 1])|
  }

  predicate AtMost(a: Work, b: Work) { a.visits <= b.visits && a.bytes <= b.bytes }

  lemma {:induction false} ListWorkPrefix(item: Json, rules: seq<Rule>, n: nat)
    requires n <= |rules|
    ensures AtMost(ListWork(item, rules[..n]), ListWork(item, rules))
    decreases |rules| - n
  {
    if n == |rules| {
      assert rules[..n] == rules;
    } else {
      assert rules[..n + 1][..n] == rules[..n];
      ListWorkPrefix(item, rules, n + 1);
    }
  }

  /** One more rule of a list. */
  lemma ListStep(item: Json, rules: seq<Rule>, n: nat)
    requires n < |rules|
    ensures ListWork(item, rules[..n + 1]) == Plus(ListWork(item, rules[..n]), WorkOf(item, rules[n]))
    ensures AtMost(ListWork(item, rules[..n + 1]), ListWork(item, rules))
  {
    ListWorkPrefix(item, rules, n + 1);
    assert rules[..n + 1][..n] == rules[..n];
  }

  lemma ListEnds(item: Json, rules: seq<Rule>)
    ensures ListWork(item, rules[..0]) == NO_WORK && rules[..|rules|] == rules
  {
  }

  lemma CountStep(host: Host, item: Json, rules: seq<Rule>, n: nat, room: Room)
    requires n < |rules|
    ensures SatCount(host, item, rules[..n + 1], room) ==
              SatCount(host, item, rules[..n], room) + (if Sat(host, item, rules[n], room) then 1 else 0)
  {
    hide Sat;
    assert rules[..n + 1][..n] == rules[..n];
  }

  lemma CountNone(host: Host, item: Json, rules: seq<Rule>)
    ensures forall room :: SatCount(host, item, rules[..0], room) == 0
  {
    hide Sat;
  }

  lemma {:induction false} PropertiesWorkPrefix(fields: seq<Field>, properties: seq<Property>, n: nat)
    requires n <= |properties|
    ensures AtMost(PropertiesWork(fields, properties[..n]), PropertiesWork(fields, properties))
    decreases |properties| - n
  {
    if n == |properties| {
      assert properties[..n] == properties;
    } else {
      assert properties[..n + 1][..n] == properties[..n];
      PropertiesWorkPrefix(fields, properties, n + 1);
    }
  }

  lemma {:induction false} ItemsWorkPrefix(items: seq<Json>, rule: Rule, n: nat)
    requires n <= |items|
    ensures AtMost(ItemsWork(items[..n], rule), ItemsWork(items, rule))
    decreases |items| - n
  {
    if n == |items| {
      assert items[..n] == items;
    } else {
      assert items[..n + 1][..n] == items[..n];
      ItemsWorkPrefix(items, rule, n + 1);
    }
  }

  lemma {:induction false} EncodedBytesPrefix(items: seq<Json>, n: nat)
    requires n <= |items|
    ensures EncodedBytes(items[..n]) <= EncodedBytes(items)
    decreases |items| - n
  {
    if n == |items| {
      assert items[..n] == items;
    } else {
      assert items[..n + 1][..n] == items[..n];
      EncodedBytesPrefix(items, n + 1);
    }
  }

  predicate ApplicatorsOnly(rule: Rule) {
    && rule.anyOf.Absent? && rule.oneOf.Absent? && rule.cond.None? && rule.then_.None?
    && rule.properties == [] && rule.items.None? && !rule.uniqueItems
  }

  lemma PlusNothing(w: Work)
    ensures Plus(w, NO_WORK) == w && Plus(NO_WORK, w) == w
  {
  }

  lemma NoListsWork(item: Json, rule: Rule)
    requires rule.anyOf == Absent && rule.oneOf == Absent
    ensures ListsWork(item, rule) == RulesWork(item, rule.allOf)
  {
    hide WorkOf, ListWork;
    assert RulesWork(item, rule.anyOf) == RulesWork(item, rule.oneOf) == NO_WORK;
    PlusNothing(NO_WORK);
    PlusNothing(RulesWork(item, rule.allOf));
  }

  lemma NoConditionsWork(item: Json, rule: Rule)
    requires rule.cond == None && rule.then_ == None
    ensures ConditionsWork(item, rule) == MaybeWork(item, rule.not)
  {
    hide WorkOf;
    assert MaybeWork(item, rule.cond) == MaybeWork(item, rule.then_) == NO_WORK;
    PlusNothing(NO_WORK);
    PlusNothing(MaybeWork(item, rule.not));
  }

  lemma NoChildWork(item: Json, rule: Rule)
    requires ApplicatorsOnly(rule)
    ensures ChildWork(item, rule) == NO_WORK
  {
    hide WorkOf, ItemsWork, PropertyWork, EncodedBytes;
  }

  lemma ApplicatorsOnlyWork(item: Json, rule: Rule)
    requires ApplicatorsOnly(rule)
    ensures WorkOf(item, rule) == Plus(Work(1, 0), Plus(RulesWork(item, rule.allOf), MaybeWork(item, rule.not)))
  {
    assert WorkOf(item, rule) == Plus(Work(1, 0), ApplicatorWork(item, rule)) by {
      NoChildWork(item, rule);
      PlusNothing(ApplicatorWork(item, rule));
    }
    assert ApplicatorWork(item, rule) == Plus(RulesWork(item, rule.allOf), MaybeWork(item, rule.not)) by {
      NoListsWork(item, rule);
      NoConditionsWork(item, rule);
    }
  }

  lemma SingleWork(item: Json, rule: Rule)
    ensures RulesWork(item, Rules([rule])) == WorkOf(item, rule)
  {
    hide WorkOf;
    var rules := [rule];
    assert rules[..0] == [];
    assert ListWork(item, []) == NO_WORK;
    assert ListWork(item, rules) == Plus(ListWork(item, rules[..0]), WorkOf(item, rules[0]));
  }

  lemma {:induction false} NestWork(item: Json, n: nat)
    ensures WorkOf(item, Nest(n)) == Work(n + 1, 0)
  {
    var rule := Nest(n);
    ApplicatorsOnlyWork(item, rule);
    hide WorkOf, ListWork;
    assert MaybeWork(item, rule.not) == NO_WORK;
    PlusNothing(RulesWork(item, rule.allOf));
    assert RulesWork(item, rule.allOf) == Work(n, 0) by {
      if n > 0 {
        NestWork(item, n - 1);
        SingleWork(item, Nest(n - 1));
      }
    }
    assert WorkOf(item, rule) == Plus(Work(1, 0), Work(n, 0));
    assert Plus(Work(1, 0), Work(n, 0)) == Work(n + 1, 0);
  }

  /** Accepts exactly what `rule` does not. */
  function Negation(rule: Rule): Rule { ANYTHING.(not := Some(rule)) }

  lemma NegationMeans(host: Host, item: Json, rule: Rule, room: Room)
    ensures Sat(host, item, Negation(rule), room) <==> Open(room) && !Sat(host, item, rule, Deeper(room))
  {
    var whole, inner := Negation(rule), Deeper(room);
    assert SatType(item, whole) && SatValue(host, item, whole) && SatKeys(item, whole) && SatScalar(host, item, whole);
    assert SatAll(host, item, whole.allOf, inner) && SatAny(host, item, whole.anyOf, inner) && SatOne(host, item, whole.oneOf, inner);
    assert SatConditions(host, item, whole, inner) <==> !Sat(host, item, rule, inner);
    assert SatApplicators(host, item, whole, inner) <==> !Sat(host, item, rule, inner);
  }

  lemma NegationWork(item: Json, rule: Rule)
    ensures WorkOf(item, Negation(rule)) == Plus(Work(1, 0), WorkOf(item, rule))
  {
    var whole := Negation(rule);
    ApplicatorsOnlyWork(item, whole);
    hide ListWork, ApplicatorWork, ChildWork;
    assert RulesWork(item, whole.allOf) == NO_WORK;
    assert MaybeWork(item, whole.not) == WorkOf(item, rule);
    PlusNothing(MaybeWork(item, whole.not));
  }

  /** `not` swallows the depth failure: no value satisfies the rule, yet it is accepted as soon as the
      negated rule nests deeper than the limit, long before a counter could trip. */
  lemma DepthFailureIsSwallowed(host: Host, item: Json, n: nat)
    ensures !Sat(host, item, Negation(Nest(n)), Unlimited)
    ensures Sat(host, item, Negation(Nest(n)), Limited(MAX_DEPTH)) <==> n >= MAX_DEPTH
    ensures WorkOf(item, Negation(Nest(n))) == Work(n + 2, 0)
  {
    hide Sat, WorkOf, Nest, Negation;
    NegationMeans(host, item, Nest(n), Unlimited);
    NegationMeans(host, item, Nest(n), Limited(MAX_DEPTH));
    NestAccepts(host, item, n, Unlimited);
    NestAccepts(host, item, n, Limited(MAX_DEPTH - 1));
    NegationWork(item, Nest(n));
    NestWork(item, n);
    assert Plus(Work(1, 0), Work(n + 1, 0)) == Work(n + 2, 0);
  }

  // ----- the interpreter ------------------------------------------------------------------

  class Checker {
    const host: Host
    var visited: nat
    var uniqueBytes: nat
    /** Whether some nesting was ever cut off; the source keeps no such flag, the claims below do. */
    var tooDeep: bool

    constructor (host: Host)
      ensures this.host == host && visited == 0 && uniqueBytes == 0 && !tooDeep
    {
      this.host, visited, uniqueBytes, tooDeep := host, 0, 0, false;
    }

    /** Neither counter has tripped; once tripped, a counter stays tripped. */
    predicate Within() reads this { visited <= MAX_VISITS && uniqueBytes <= MAX_UNIQUE_BYTES }

    /** No budget has tripped at all: neither a counter nor the depth. */
    predicate Untripped() reads this { Within() && !tooDeep }

    /** The counters have grown by at most `w`, and the depth flag is never taken back. */
    twostate predicate Spent(w: Work) reads this {
      && old(visited) <= visited <= old(visited) + w.visits
      && old(uniqueBytes) <= uniqueBytes <= old(uniqueBytes) + w.bytes
      && (old(tooDeep) ==> tooDeep)
    }

    /** `check`, with true for a normal return and false for a raised failure: while no counter trips
        it accepts exactly what the rule means, nesting beyond the depth limit counting as failed. */
    method Check(item: Json, rule: Rule, depth: nat) returns (ok: bool)
      modifies this
      ensures Spent(WorkOf(item, rule)) && visited > old(visited)
      ensures old(visited) >= MAX_VISITS || depth > MAX_DEPTH ==> !ok
      ensures Within() ==> (ok <==> Sat(host, item, rule, Limited(MAX_DEPTH - depth)))
      ensures Untripped() ==> (ok <==> Sat(host, item, rule, Unlimited))
      ensures tooDeep ==> old(tooDeep) || !Shallow(item, rule, MAX_DEPTH - depth)
      decreases rule, 2
    {
      hide ApplicatorWork, ChildWork, SatType, SatValue, SatKeys, SatScalar, SatApplicators, SatProperties, SatArray;
      visited := visited + 1;
      tooDeep := tooDeep || depth > MAX_DEPTH;
      if visited > MAX_VISITS || depth > MAX_DEPTH { return false; }
      ok := CheckApplicators(item, rule, depth);
      if !ok { return; }
      if !SatType(item, rule) || !SatValue(host, item, rule) || !SatKeys(item, rule) { return false; }
      ok := CheckChildren(item, rule, depth);
      if !ok { return; }
      return SatScalar(host, item, rule);
    }

    /** `matches`: a failure below is caught, the counters are kept. */
    method Matches(item: Json, rule: Rule, depth: nat) returns (ok: bool)
      modifies this
      ensures Spent(WorkOf(item, rule))
      ensures old(visited) >= MAX_VISITS || depth > MAX_DEPTH ==> !ok
      ensures Within() ==> (ok <==> Sat(host, item, rule, Limited(MAX_DEPTH - depth)))
      ensures Untripped() ==> (ok <==> Sat(host, item, rule, Unlimited))
      ensures tooDeep ==> old(tooDeep) || !Shallow(item, rule, MAX_DEPTH - depth)
      decreases rule, 3
    {
      ok := Check(item, rule, depth);
    }

    method CheckApplicators(item: Json, rule: Rule, depth: nat) returns (ok: bool)
      modifies this
      ensures Spent(ApplicatorWork(item, rule))
      ensures Within() ==> (ok <==> SatApplicators(host, item, rule, Limited(MAX_DEPTH - depth - 1)))
      ensures Untripped() ==> (ok <==> SatApplicators(host, item, rule, Unlimited))
      ensures tooDeep ==> old(tooDeep) || !ShallowApplicators(item, rule, MAX_DEPTH - depth - 1)
      decreases rule, 1
    {
      hide Sat, SatLists, SatConditions, ListsWork, ConditionsWork;
      ok := CheckLists(item, rule, depth);
      if !ok { return; }
      ok := CheckConditions(item, rule, depth);
    }

    method CheckLists(item: Json, rule: Rule, depth: nat) returns (ok: bool)
      modifies this
      ensures Spent(ListsWork(item, rule))
      ensures Within() ==> (ok <==> SatLists(host, item, rule, Limited(MAX_DEPTH - depth - 1)))
      ensures Untripped() ==> (ok <==> SatLists(host, item, rule, Unlimited))
      ensures tooDeep ==> old(tooDeep) || !ShallowApplicators(item, rule, MAX_DEPTH - depth - 1)
      decreases rule, 0
    {
      hide Sat, SatAll, SatAny, SatOne, RulesWork;
      ok := CheckAll(item, rule.allOf, depth + 1);
      if !ok { return; }
      ok := MatchesAny(item, rule.anyOf, depth + 1);
      if !ok { return; }
      ok := MatchesOne(item, rule.oneOf, depth + 1);
    }

    method CheckConditions(item: Json, rule: Rule, depth: nat) returns (ok: bool)
      modifies this
      ensures Spent(ConditionsWork(item, rule))
      ensures Within() ==> (ok <==> SatConditions(host, item, rule, Limited(MAX_DEPTH - depth - 1)))
      ensures Untripped() ==> (ok <==> SatConditions(host, item, rule, Unlimited))
      ensures tooDeep ==> old(tooDeep) || !ShallowApplicators(item, rule, MAX_DEPTH - depth - 1)
      decreases rule, 0
    {
      hide Sat, WorkOf;
      if rule.not.Some? {
        var matched := Matches(item, rule.not.value, depth + 1);
        if matched { return false; }
      }
      if rule.cond.Some? {
        var matched := Matches(item, rule.cond.value, depth + 1);
        if matched && rule.then_.Some? {
          ok := Check(item, rule.then_.value, depth + 1);
          return;
        }
      }
      return true;
    }

    method CheckAll(item: Json, rules: Rules, depth: nat) returns (ok: bool)
      modifies this
      ensures Spent(RulesWork(item, rules))
      ensures Within() ==> (ok <==> SatAll(host, item, rules, Limited(MAX_DEPTH - depth)))
      ensures Untripped() ==> (ok <==> SatAll(host, item, rules, Unlimited))
      ensures tooDeep ==> old(tooDeep) || !ShallowList(item, rules, MAX_DEPTH - depth)
      decreases rules, 0
    {
      hide Sat, WorkOf, ListWork, SatCount;
      if rules.Absent? { return true; }
      var list, n := rules.list, 0;
      ListEnds(item, list);
      while n < |list|
        invariant 0 <= n <= |list| && Spent(ListWork(item, list[..n]))
        invariant tooDeep ==> old(tooDeep) || !ShallowList(item, rules, MAX_DEPTH - depth)
        invariant Within() ==> forall i :: 0 <= i < n ==> Sat(host, item, list[i], Limited(MAX_DEPTH - depth))
        invariant Untripped() ==> forall i :: 0 <= i < n ==> Sat(host, item, list[i], Unlimited)
      {
        ListStep(item, list, n);
        ok := Check(item, list[n], depth);
        if !ok { return; }
        n := n + 1;
      }
      return true;
    }

    /** `any` over the children stops at the first match. */
    method MatchesAny(item: Json, rules: Rules, depth: nat) returns (ok: bool)
      modifies this
      ensures Spent(RulesWork(item, rules))
      ensures Within() ==> (ok <==> SatAny(host, item, rules, Limited(MAX_DEPTH - depth)))
      ensures Untripped() ==> (ok <==> SatAny(host, item, rules, Unlimited))
      ensures tooDeep ==> old(tooDeep) || !ShallowList(item, rules, MAX_DEPTH - depth)
      decreases rules, 0
    {
      hide Sat, WorkOf, ListWork, SatCount;
      if rules.Absent? { return true; }
      var list, n := rules.list, 0;
      ListEnds(item, list);
      while n < |list|
        invariant 0 <= n <= |list| && Spent(ListWork(item, list[..n]))
        invariant tooDeep ==> old(tooDeep) || !ShallowList(item, rules, MAX_DEPTH - depth)
        invariant Within() ==> forall i :: 0 <= i < n ==> !Sat(host, item, list[i], Limited(MAX_DEPTH - depth))
        invariant Untripped() ==> forall i :: 0 <= i < n ==> !Sat(host, item, list[i], Unlimited)
      {
        ListStep(item, list, n);
        ok := Matches(item, list[n], depth);
        if ok { return; }
        n := n + 1;
      }
      return false;
    }

    /** `sum` over the children visits all of them. */
    method MatchesOne(item: Json, rules: Rules, depth: nat) returns (ok: bool)
      modifies this
      ensures Spent(RulesWork(item, rules))
      ensures Within() ==> (ok <==> SatOne(host, item, rules, Limited(MAX_DEPTH - depth)))
      ensures Untripped() ==> (ok <==> SatOne(host, item, rules, Unlimited))
      ensures tooDeep ==> old(tooDeep) || !ShallowList(item, rules, MAX_DEPTH - depth)
      decreases rules, 0
    {
      hide Sat, WorkOf, ListWork, SatCount;
      if rules.Absent? { return true; }
      var list, n := rules.list, 0;
      var count := 0;
      ListEnds(item, list);
      CountNone(host, item, list);
      while n < |list|
        invariant 0 <= n <= |list| && Spent(ListWork(item, list[..n]))
        invariant tooDeep ==> old(tooDeep) || !ShallowList(item, rules, MAX_DEPTH - depth)
        invariant Within() ==> count == SatCount(host, item, list[..n], Limited(MAX_DEPTH - depth))
        invariant Untripped() ==> count == SatCount(host, item, list[..n], Unlimited)
      {
        ListStep(item, list, n);
        CountStep(host, item, list, n, Limited(MAX_DEPTH - depth));
        CountStep(host, item, list, n, Unlimited);
        var matched := Matches(item, list[n], depth);
        if matched { count := count + 1; }
        n := n + 1;
      }
      return count == 1;
    }

    method CheckChildren(item: Json, rule: Rule, depth: nat) returns (ok: bool)
      modifies this
      ensures Spent(ChildWork(item, rule))
      ensures Within() ==> (ok <==>
        && (item.Obj? ==> SatProperties(host, item.fields, rule.properties, Limited(MAX_DEPTH - depth - 1)))
        && (item.Arr? ==> SatArray(host, item.items, rule, Limited(MAX_DEPTH - depth - 1))))
      ensures Untripped() ==> (ok <==>
        && (item.Obj? ==> SatProperties(host, item.fields, rule.properties, Unlimited))
        && (item.Arr? ==> SatArray(host, item.items, rule, Unlimited)))
      ensures tooDeep ==> old(tooDeep) || !ShallowChildren(item, rule, MAX_DEPTH - depth - 1)
      decreases rule, 1
    {
      hide SatProperties, SatArray, PropertiesWork, ArrayWork;
      ok := true;
      if item.Obj? {
        ok := CheckProperties(item.fields, rule.properties, depth + 1);
      }
      if item.Arr? {
        ok := CheckArray(item.items, rule, depth + 1);
      }
    }

    method CheckArray(items: seq<Json>, rule: Rule, depth: nat) returns (ok: bool)
      modifies this
      ensures Spent(ArrayWork(items, rule))
      ensures Within() ==> (ok <==> SatArray(host, items, rule, Limited(MAX_DEPTH - depth)))
      ensures Untripped() ==> (ok <==> SatArray(host, items, rule, Unlimited))
      ensures tooDeep ==> old(tooDeep) || !ShallowItems(items, rule.items, MAX_DEPTH - depth)
      decreases rule, 0
    {
      hide SatItems, ItemsWork, EncodedBytes, Distinct, ShallowItems;
      ArrayWorkParts(items, rule);
      hide ArrayWork;
      if |items| < rule.minItems { return false; }
      if rule.maxItems.Some? && |items| > rule.maxItems.value { return false; }
      if rule.uniqueItems {
        ok := CheckUnique(items);
        if !ok { return; }
      }
      if rule.items.Some? {
        ok := CheckItems(items, rule.items.value, depth);
        return;
      }
      return true;
    }

    method CheckProperty(fields: seq<Field>, p: Property, depth: nat) returns (ok: bool)
      modifies this
      ensures Spent(PropertyWork(fields, p))
      ensures Within() ==> (ok <==> SatProperty(host, fields, p, Limited(MAX_DEPTH - depth)))
      ensures Untripped() ==> (ok <==> SatProperty(host, fields, p, Unlimited))
      ensures tooDeep ==> old(tooDeep) || !ShallowProperty(fields, p, MAX_DEPTH - depth)
      decreases p, 0
    {
      hide Sat, WorkOf, Shallow;
      if !HasKey(fields, p.key) { return true; }
      ok := Check(FieldValue(fields, p.key), p.rule, depth);
    }

    method CheckProperties(fields: seq<Field>, properties: seq<Property>, depth: nat) returns (ok: bool)
      modifies this
      ensures Spent(PropertiesWork(fields, properties))
      ensures Within() ==> (ok <==> SatProperties(host, fields, properties, Limited(MAX_DEPTH - depth)))
      ensures Untripped() ==> (ok <==> SatProperties(host, fields, properties, Unlimited))
      ensures tooDeep ==> old(tooDeep) || !ShallowProperties(fields, properties, MAX_DEPTH - depth)
      decreases properties, 1
    {
      hide Sat, WorkOf, SatProperty, PropertyWork, ShallowProperty;
      var n := 0;
      assert properties[..0] == [];
      while n < |properties|
        invariant 0 <= n <= |properties| && Spent(PropertiesWork(fields, properties[..n]))
        invariant tooDeep ==> old(tooDeep) || !ShallowProperties(fields, properties, MAX_DEPTH - depth)
        invariant Within() ==> forall i :: 0 <= i < n ==> SatProperty(host, fields, properties[i], Limited(MAX_DEPTH - depth))
        invariant Untripped() ==> forall i :: 0 <= i < n ==> SatProperty(host, fields, properties[i], Unlimited)
      {
        assert properties[..n + 1][..n] == properties[..n];
        PropertiesWorkPrefix(fields, properties, n + 1);
        assert PropertiesWork(fields, properties[..n + 1]) == Plus(PropertiesWork(fields, properties[..n]), PropertyWork(fields, properties[n]));
        ok := CheckProperty(fields, properties[n], depth);
        if !ok { return; }
        n := n + 1;
      }
      assert properties[..n] == properties;
      return true;
    }

    method CheckItems(items: seq<Json>, rule: Rule, depth: nat) returns (ok: bool)
      modifies this
      ensures Spent(ItemsWork(items, rule))
      ensures Within() ==> (ok <==> SatItems(host, items, rule, Limited(MAX_DEPTH - depth)))
      ensures Untripped() ==> (ok <==> SatItems(host, items, rule, Unlimited))
      ensures tooDeep ==> old(tooDeep) || !ShallowItems(items, Some(rule), MAX_DEPTH - depth)
      decreases rule, 3
    {
      hide Sat, WorkOf;
      var n := 0;
      assert items[..0] == [];
      while n < |items|
        invariant 0 <= n <= |items| && Spent(ItemsWork(items[..n], rule))
        invariant tooDeep ==> old(tooDeep) || !ShallowItems(items, Some(rule), MAX_DEPTH - depth)
        invariant Within() ==> forall i :: 0 <= i < n ==> Sat(host, items[i], rule, Limited(MAX_DEPTH - depth))
        invariant Untripped() ==> forall i :: 0 <= i < n ==> Sat(host, items[i], rule, Unlimited)
      {
        assert items[..n + 1][..n] == items[..n];
        ItemsWorkPrefix(items, rule, n + 1);
        ok := Check(items[n], rule, depth);
        if !ok { return; }
        n := n + 1;
      }
      assert items[..n] == items;
      return true;
    }

    /** uniqueItems compares the compact encodings seen so far. */
    method CheckUnique(items: seq<Json>) returns (ok: bool)
      modifies this
      ensures Spent(Work(0, EncodedBytes(items)))
      ensures Within() ==> (ok <==> Distinct(items))
      ensures ok && items != [] ==> uniqueBytes <= MAX_UNIQUE_BYTES
      ensures tooDeep == old(tooDeep)
    {
      hide Encoded;
      var seen: set<seq<Byte>> := {};
      var n := 0;
      assert items[..0] == [];
      while n < |items|
        invariant 0 <= n <= |items| && Spent(Work(0, EncodedBytes(items[..n]))) && uniqueBytes == old(uniqueBytes) + EncodedBytes(items[..n])
        invariant tooDeep == old(tooDeep)
        invariant n > 0 ==> uniqueBytes <= MAX_UNIQUE_BYTES
        invariant seen == set i | 0 <= i < n :: Encoded(items[i])
        invariant Distinct(items[..n])
      {
        assert items[..n + 1][..n] == items[..n];
        EncodedBytesPrefix(items, n + 1);
        var encoded := Encoded(items[n]);
        uniqueBytes := uniqueBytes + |encoded|;
        if uniqueBytes > MAX_UNIQUE_BYTES { return false; }
        if encoded in seen { return false; }
        seen := seen + {encoded};
        n := n + 1;
      }
      assert items[..n] == items;
      return true;
    }
  }

  /** `_validate_structural_schema`: while no counter trips it accepts exactly what the keywords mean,
      nesting beyond the depth limit counting as failed; in a run where the depth does not trip either
      that is exactly the unlimited meaning.  Small work trips no counter, and a value on which the
      rule nests no deeper than the limit does not trip the depth. */
  method Validate(host: Host, value: Json, schema: Rule) returns (ok: bool, tripped: bool, tooDeep: bool)
    ensures !tripped ==> (ok <==> Sat(host, value, schema, Limited(MAX_DEPTH)))
    ensures !tripped && !tooDeep ==> (ok <==> Sat(host, value, schema, Unlimited))
    ensures AtMost(WorkOf(value, schema), Work(MAX_VISITS, MAX_UNIQUE_BYTES)) ==> !tripped
    ensures Shallow(value, schema, MAX_DEPTH) ==> !tooDeep
  {
    hide Sat, WorkOf, Shallow;
    var checker := new Checker(host);
    ok := checker.Check(value, schema, 0);
    tripped, tooDeep := !checker.Within(), checker.tooDeep;
  }

  /** The finding in a run: no counter trips, the depth does, and a rule that no value satisfies is
      accepted. */
  method SwallowedRun(host: Host, value: Json, n: nat) returns (ok: bool, tripped: bool, tooDeep: bool)
    requires MAX_DEPTH <= n <= MAX_VISITS - 2
    ensures ok && !tripped && tooDeep && !Sat(host, value, Negation(Nest(n)), Unlimited)
  {
    hide Sat, WorkOf, Shallow, Nest, Negation;
    DepthFailureIsSwallowed(host, value, n);
    ok, tripped, tooDeep := Validate(host, value, Negation(Nest(n)));
  }
}
