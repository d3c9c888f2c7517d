/**
 The compact JSON printer is injective, also inside containers.

 Printed values are compared with whatever follows them: two documents printed at the start of the
 same text are the same document.
 */
module Canonical {
  import opened Json

  /** What may follow a value: nothing, a comma or a closing bracket. */
  predicate Stops(x: Text) { x == [] || x[0] == 44 || x[0] == 93 || x[0] == 125 }

  // ----- tokens ---------------------------------------------------------------------------

  lemma Split(t: Text, u: Text, x: Text, y: Text)
    requires t + x == u + y && |t| == |u|
    ensures t == u && x == y
  {
    assert t == (t + x)[..|t|] == (u + y)[..|u|] == u;
    assert x == (t + x)[|t|..] == (u + y)[|u|..] == y;
  }

  /** Numbers end where the numeric characters end. */
  lemma NumberPrefixFree(t: Text, u: Text, x: Text, y: Text)
    requires forall i :: 0 <= i < |t| ==> IsNumeric(t[i])
    requires forall i :: 0 <= i < |u| ==> IsNumeric(u[i])
    requires Stops(x) && Stops(y) && t + x == u + y
    ensures t == u && x == y
  {
    NoLonger(t, u, x, y);
    NoLonger(u, t, y, x);
    Split(t, u, x, y);
  }

  lemma NoLonger(t: Text, u: Text, x: Text, y: Text)
    requires forall i :: 0 <= i < |u| ==> IsNumeric(u[i])
    requires Stops(x) && t + x == u + y
    ensures |u| <= |t|
  {
    var w := t + x;
    assert forall k :: 0 <= k < |u| ==> IsNumeric(w[k]);
    if |t| < |w| {
      assert w[|t|] == x[0];
    }
  }

  lemma IntTextInjective(m: int, n: int)
    requires IntText(m) == IntText(n)
    ensures m == n
  {
    assert m < 0 <==> IntText(m)[0] == 45;
    assert n < 0 <==> IntText(n)[0] == 45;
    NumberOfDigits(if m < 0 then -m else m);
    NumberOfDigits(if n < 0 then -n else n);
    if m < 0 {
      assert Digits(-m) == IntText(m)[1..] == IntText(n)[1..] == Digits(-n);
    }
  }

  lemma IntTextIsNoFloat(n: int, t: Text)
    requires IsFloatRepr(t)
    ensures IntText(n) != t
  {
    var u := IntText(n);
    assert forall i :: 0 <= i < |u| ==> u[i] != 46 && u[i] != 101;
  }

  lemma EscapeCodePrefixFree(c: Code, d: Code, x: Text, y: Text)
    requires EscapeCode(c) + x == EscapeCode(d) + y
    ensures c == d && x == y
  {
    var u, v := EscapeCode(c), EscapeCode(d);
    var w := u + x;
    assert w[0] == u[0] && w[0] == v[0];
    if u[0] == 92 {
      assert |u| >= 2 && |v| >= 2 && w[1] == u[1] && w[1] == v[1];
      if u[1] == 117 {
        assert |u| == 6 && |v| == 6;
        assert w[4] == u[4] && w[4] == v[4] && w[5] == u[5] && w[5] == v[5];
        assert c / 16 == d / 16 && c % 16 == d % 16;
      }
    }
    assert |u| == |v|;
    Split(u, v, x, y);
  }

  // ----- documents, written in front of what follows --------------------------------------

  function EscapeTo(s: Text, rest: Text): Text {
    if s == [] then [34] + rest else EscapeCode(s[0]) + EscapeTo(s[1..], rest)
  }

  function PrintTo(v: Json, rest: Text): Text {
    match v
    case Str(s) => [34] + EscapeTo(s, rest)
    case Arr(items) => [91] + ItemsTo(items, rest)
    case Obj(fields) => [123] + FieldsTo(fields, rest)
    case _ => Print(v) + rest
  }

  function ItemsTo(items: seq<Json>, rest: Text): Text {
    if items == [] then [93] + rest
    else PrintTo(items[0], if |items| == 1 then [93] + rest else [44] + ItemsTo(items[1..], rest))
  }

  function FieldTo(f: Field, rest: Text): Text { [34] + EscapeTo(f.key, [58] + PrintTo(f.value, rest)) }

  function FieldsTo(fields: seq<Field>, rest: Text): Text {
    if fields == [] then [125] + rest
    else FieldTo(fields[0], if |fields| == 1 then [125] + rest else [44] + FieldsTo(fields[1..], rest))
  }

  lemma {:induction false} EscapeToIsEscape(s: Text, rest: Text)
    ensures EscapeTo(s, rest) == Escape(s) + [34] + rest
  {
    if s != [] {
      EscapeToIsEscape(s[1..], rest);
    }
  }

  lemma {:induction false} PrintToIsPrint(v: Json, rest: Text)
    ensures PrintTo(v, rest) == Print(v) + rest
    decreases v, 1
  {
    match v {
      case Str(s) => EscapeToIsEscape(s, rest);
      case Arr(items) => ItemsToIsPrint(items, rest);
      case Obj(fields) => FieldsToIsPrint(fields, rest);
      case _ =>
    }
  }

  lemma {:induction false} ItemsToIsPrint(items: seq<Json>, rest: Text)
    ensures ItemsTo(items, rest) == PrintItems(items) + [93] + rest
    decreases items, 0
  {
    if |items| == 1 {
      PrintToIsPrint(items[0], [93] + rest);
    } else if |items| > 1 {
      PrintToIsPrint(items[0], [44] + ItemsTo(items[1..], rest));
      ItemsToIsPrint(items[1..], rest);
    }
  }

  lemma FieldToIsPrint(f: Field, rest: Text)
    ensures FieldTo(f, rest) == PrintField(f) + rest
    decreases f, 0
  {
    PrintToIsPrint(f.value, rest);
    EscapeToIsEscape(f.key, [58] + PrintTo(f.value, rest));
  }

  lemma {:induction false} FieldsToIsPrint(fields: seq<Field>, rest: Text)
    ensures FieldsTo(fields, rest) == PrintFields(fields) + [125] + rest
    decreases fields, 0
  {
    if |fields| == 1 {
      FieldToIsPrint(fields[0], [125] + rest);
    } else if |fields| > 1 {
      FieldToIsPrint(fields[0], [44] + FieldsTo(fields[1..], rest));
      FieldsToIsPrint(fields[1..], rest);
    }
  }

  // ----- prefix freedom -------------------------------------------------------------------

  lemma Cons(c: Code, d: Code, t: Text, u: Text)
    requires [c] + t == [d] + u
    ensures c == d && t == u
  {
    assert ([c] + t)[0] == c && ([d] + u)[0] == d;
    assert t == ([c] + t)[1..] == ([d] + u)[1..] == u;
  }

  lemma {:induction false} EscapePrefixFree(s: Text, t: Text, x: Text, y: Text)
    requires EscapeTo(s, x) == EscapeTo(t, y)
    ensures s == t && x == y
    decreases |s| + |t|
  {
    if s == [] && t == [] {
      Cons(34, 34, x, y);
    } else if s != [] && t != [] {
      EscapeCodePrefixFree(s[0], t[0], EscapeTo(s[1..], x), EscapeTo(t[1..], y));
      EscapePrefixFree(s[1..], t[1..], x, y);
    } else {
      EscapeStart(s, x);
      EscapeStart(t, y);
    }
  }

  lemma EscapeStart(s: Text, x: Text)
    ensures |EscapeTo(s, x)| >= 1 && (EscapeTo(s, x)[0] == 34 <==> s == [])
  {
    if s != [] {
      assert EscapeTo(s, x)[0] == EscapeCode(s[0])[0];
    }
  }

  /** The first character tells the kinds of value apart, but for the two kinds of number. */
  function Kind(v: Json): int {
    match v
    case Null => 110
    case Bool(b) => if b then 116 else 102
    case Int(_) => 0
    case Float(_) => 0
    case Str(_) => 34
    case Arr(_) => 91
    case Obj(_) => 123
  }

  lemma FirstCharacter(v: Json, x: Text)
    requires FloatsOk(v)
    ensures |PrintTo(v, x)| >= 1
    ensures if Kind(v) == 0 then IsDigitOrMinus(PrintTo(v, x)[0]) else PrintTo(v, x)[0] == Kind(v)
  {
  }

  lemma {:induction false} PrintPrefixFree(a: Json, b: Json, x: Text, y: Text)
    requires FloatsOk(a) && FloatsOk(b) && Stops(x) && Stops(y)
    requires PrintTo(a, x) == PrintTo(b, y)
    ensures a == b && x == y
    decreases a, 1
  {
    FirstCharacter(a, x);
    FirstCharacter(b, y);
    match a {
      case Null => Split(NULL, NULL, x, y);
      case Bool(p) => Split(Print(a), Print(a), x, y);
      case Int(m) => NumbersPrefixFree(a, b, x, y);
      case Float(r) => NumbersPrefixFree(a, b, x, y);
      case Str(s) =>
        Cons(34, 34, EscapeTo(s, x), EscapeTo(b.s, y));
        EscapePrefixFree(s, b.s, x, y);
      case Arr(items) =>
        Cons(91, 91, ItemsTo(items, x), ItemsTo(b.items, y));
        ItemsPrefixFree(items, b.items, x, y);
      case Obj(fields) =>
        Cons(123, 123, FieldsTo(fields, x), FieldsTo(b.fields, y));
        FieldsPrefixFree(fields, b.fields, x, y);
    }
  }

  lemma NumbersPrefixFree(a: Json, b: Json, x: Text, y: Text)
    requires Kind(a) == 0 && Kind(b) == 0 && FloatsOk(a) && FloatsOk(b) && Stops(x) && Stops(y)
    requires PrintTo(a, x) == PrintTo(b, y)
    ensures a == b && x == y
  {
    NumberPrefixFree(Print(a), Print(b), x, y);
    if a.Int? && b.Int? {
      IntTextInjective(a.n, b.n);
    } else if a.Int? {
      IntTextIsNoFloat(a.n, b.repr);
    } else if b.Int? {
      IntTextIsNoFloat(b.n, a.repr);
    }
  }

  lemma {:induction false} ItemsPrefixFree(p: seq<Json>, q: seq<Json>, x: Text, y: Text)
    requires forall i :: 0 <= i < |p| ==> FloatsOk(p[i])
    requires forall i :: 0 <= i < |q| ==> FloatsOk(q[i])
    requires ItemsTo(p, x) == ItemsTo(q, y)
    ensures p == q && x == y
    decreases p, 0
  {
    if p != [] && q != [] {
      var s := if |p| == 1 then [93] + x else [44] + ItemsTo(p[1..], x);
      var t := if |q| == 1 then [93] + y else [44] + ItemsTo(q[1..], y);
      PrintPrefixFree(p[0], q[0], s, t);
      if |p| == 1 || |q| == 1 {
        assert s[0] == t[0];
        Cons(93, 93, x, y);
      } else {
        Cons(44, 44, ItemsTo(p[1..], x), ItemsTo(q[1..], y));
        ItemsPrefixFree(p[1..], q[1..], x, y);
      }
    } else {
      ItemsStart(p, x);
      ItemsStart(q, y);
      Cons(93, 93, x, y);
    }
  }

  lemma ItemsStart(p: seq<Json>, x: Text)
    requires forall i :: 0 <= i < |p| ==> FloatsOk(p[i])
    ensures |ItemsTo(p, x)| >= 1 && (ItemsTo(p, x)[0] == 93 <==> p == [])
  {
    if p != [] {
      FirstCharacter(p[0], if |p| == 1 then [93] + x else [44] + ItemsTo(p[1..], x));
    }
  }

  lemma {:induction false} FieldsPrefixFree(p: seq<Field>, q: seq<Field>, x: Text, y: Text)
    requires forall i :: 0 <= i < |p| ==> FloatsOk(p[i].value)
    requires forall i :: 0 <= i < |q| ==> FloatsOk(q[i].value)
    requires FieldsTo(p, x) == FieldsTo(q, y)
    ensures p == q && x == y
    decreases p, 0
  {
    if p != [] && q != [] {
      var s := if |p| == 1 then [125] + x else [44] + FieldsTo(p[1..], x);
      var t := if |q| == 1 then [125] + y else [44] + FieldsTo(q[1..], y);
      FieldPrefixFree(p[0], q[0], s, t);
      if |p| == 1 || |q| == 1 {
        assert s[0] == t[0];
        Cons(125, 125, x, y);
      } else {
        Cons(44, 44, FieldsTo(p[1..], x), FieldsTo(q[1..], y));
        FieldsPrefixFree(p[1..], q[1..], x, y);
      }
    } else {
      FieldsStart(p, x);
      FieldsStart(q, y);
      Cons(125, 125, x, y);
    }
  }

  lemma FieldsStart(p: seq<Field>, x: Text)
    ensures |FieldsTo(p, x)| >= 1 && FieldsTo(p, x)[0] == (if p == [] then 125 else 34)
  {
  }

  lemma FieldPrefixFree(f: Field, g: Field, x: Text, y: Text)
    requires FloatsOk(f.value) && FloatsOk(g.value) && Stops(x) && Stops(y)
    requires FieldTo(f, x) == FieldTo(g, y)
    ensures f == g && x == y
    decreases f, 0
  {
    var s, t := [58] + PrintTo(f.value, x), [58] + PrintTo(g.value, y);
    Cons(34, 34, EscapeTo(f.key, s), EscapeTo(g.key, t));
    EscapePrefixFree(f.key, g.key, s, t);
    Cons(58, 58, PrintTo(f.value, x), PrintTo(g.value, y));
    PrintPrefixFree(f.value, g.value, x, y);
  }

  /** Different ordered documents have different canonical texts and different canonical bytes, also
      with the newline that ends a report. */
  lemma PrintInjective(a: Json, b: Json)
    requires FloatsOk(a) && FloatsOk(b)
    requires Utf8(Print(a) + [10]) == Utf8(Print(b) + [10])
    ensures a == b
  {
    var s, t := Print(a) + [10], Print(b) + [10];
    Utf8Injective(s, t);
    assert Print(a) == s[..|s| - 1] && Print(b) == t[..|t| - 1];
    PrintToIsPrint(a, []);
    PrintToIsPrint(b, []);
    PrintPrefixFree(a, b, [], []);
  }
}
