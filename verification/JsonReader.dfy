/**
 A reader for the compact JSON text, written from the JSON grammar of RFC 8259 and not from the printer,
 and the round trip: what is printed is read back.
 */
module JsonReader {
  import opened Common
  import opened Json
  import opened Canonical

  datatype Parsed<T> = Refused | Parsed(value: T, rest: Text)

  // ----- strings --------------------------------------------------------------------------

  /** What the character after a backslash stands for. */
  function EscapeMeaning(c: Code): Option<Code> {
    if c == '"' as int then Some('"' as int)
    else if c == '\\' as int then Some('\\' as int)
    else if c == '/' as int then Some('/' as int)
    else if c == 'b' as int then Some('\U{0008}' as int)
    else if c == 'f' as int then Some('\U{000C}' as int)
    else if c == 'n' as int then Some('\n' as int)
    else if c == 'r' as int then Some('\r' as int)
    else if c == 't' as int then Some('\t' as int)
    else None
  }

  function HexMeaning(c: Code): Option<nat> {
    if '0' as int <= c <= '9' as int then Some(c - '0' as int)
    else if 'a' as int <= c <= 'f' as int then Some(10 + c - 'a' as int)
    else if 'A' as int <= c <= 'F' as int then Some(10 + c - 'A' as int)
    else None
  }

  /** Four hexadecimal digits. */
  function ReadUnit(t: Text): (r: Option<Code>)
    requires |t| >= 4
  {
    var a, b, c, d := HexMeaning(t[0]), HexMeaning(t[1]), HexMeaning(t[2]), HexMeaning(t[3]);
    if a.None? || b.None? || c.None? || d.None? || a.value >= 16 || b.value >= 16 || c.value >= 16 || d.value >= 16 then None
    else Some(((a.value * 16 + b.value) * 16 + c.value) * 16 + d.value)
  }

  function PutFirst(c: Code, p: Parsed<Text>): Parsed<Text> {
    match p case Refused => Refused case Parsed(s, rest) => Parsed([c] + s, rest)
  }

  /** The rest of a string, after its opening quote. */
  function ReadString(t: Text): (p: Parsed<Text>)
    ensures p.Parsed? ==> |p.rest| < |t|
  {
    if t == [] then Refused
    else if t[0] == '"' as int then Parsed([], t[1..])
    else if t[0] < ' ' as int then Refused
    else if t[0] != '\\' as int then PutFirst(t[0], ReadString(t[1..]))
    else if |t| >= 6 && t[1] == 'u' as int then
      match ReadUnit(t[2..6]) case None => Refused case Some(c) => PutFirst(c, ReadString(t[6..]))
    else if |t| >= 2 then
      match EscapeMeaning(t[1]) case None => Refused case Some(c) => PutFirst(c, ReadString(t[2..]))
    else Refused
  }

  // ----- documents ------------------------------------------------------------------------

  predicate IsNumberCharacter(c: Code) {
    '0' as int <= c <= '9' as int || c == '-' as int || c == '+' as int || c == '.' as int || c == 'e' as int || c == 'E' as int
  }

  function NumberEnd(t: Text): (n: nat)
    ensures n <= |t| && (t != [] && IsNumberCharacter(t[0]) ==> n > 0)
  {
    if t == [] || !IsNumberCharacter(t[0]) then 0 else 1 + NumberEnd(t[1..])
  }

  /** A number with a fraction or an exponent is a float, any other an integer. */
  function NumberOf(token: Text): Json
    requires token != []
  {
    if '.' as int in token || 'e' as int in token || 'E' as int in token then Float(token)
    else if token[0] == '-' as int then Int(-Number(token[1..]))
    else Int(Number(token))
  }

  predicate StartsWith(t: Text, word: string) { |word| <= |t| && forall i :: 0 <= i < |word| ==> t[i] == word[i] as int }

  function ReadValue(t: Text): (p: Parsed<Json>)
    ensures p.Parsed? ==> |p.rest| < |t|
    decreases |t|, 1
  {
    if t == [] then Refused
    else if t[0] == '"' as int then
      match ReadString(t[1..]) case Refused => Refused case Parsed(s, rest) => Parsed(Str(s), rest)
    else if t[0] == '[' as int then
      if StartsWith(t, "[]") then Parsed(Arr([]), t[2..]) else ReadItems(t[1..], [])
    else if t[0] == '{' as int then
      if StartsWith(t, "{}") then Parsed(Obj([]), t[2..]) else ReadFields(t[1..], [])
    else if '0' as int <= t[0] <= '9' as int || t[0] == '-' as int then
      var n := NumberEnd(t);
      Parsed(NumberOf(t[..n]), t[n..])
    else if StartsWith(t, "null") then Parsed(Null, t[4..])
    else if StartsWith(t, "true") then Parsed(Bool(true), t[4..])
    else if StartsWith(t, "false") then Parsed(Bool(false), t[5..])
    else Refused
  }

  /** The rest of an array, at an element. */
  function ReadItems(t: Text, items: seq<Json>): (p: Parsed<Json>)
    ensures p.Parsed? ==> |p.rest| < |t|
    decreases |t|, 2
  {
    match ReadValue(t)
    case Refused => Refused
    case Parsed(v, rest) =>
      if StartsWith(rest, ",") then ReadItems(rest[1..], items + [v])
      else if StartsWith(rest, "]") then Parsed(Arr(items + [v]), rest[1..])
      else Refused
  }

  /** The rest of an object, at a key. */
  function ReadFields(t: Text, fields: seq<Field>): (p: Parsed<Json>)
    ensures p.Parsed? ==> |p.rest| < |t|
    decreases |t|, 2
  {
    match ReadField(t)
    case Refused => Refused
    case Parsed(f, rest) =>
      if StartsWith(rest, ",") then ReadFields(rest[1..], fields + [f])
      else if StartsWith(rest, "}") then Parsed(Obj(fields + [f]), rest[1..])
      else Refused
  }

  function ReadField(t: Text): (p: Parsed<Field>)
    ensures p.Parsed? ==> |p.rest| < |t|
    decreases |t|, 1
  {
    if !StartsWith(t, "\"") then Refused
    else
      match ReadString(t[1..])
      case Refused => Refused
      case Parsed(key, rest) =>
        if !StartsWith(rest, ":") then Refused
        else match ReadValue(rest[1..]) case Refused => Refused case Parsed(v, after) => Parsed(Field(key, v), after)
  }

  // ----- what is printed is read back -----------------------------------------------------

  lemma EscapeRead(c: Code, t: Text)
    ensures ReadString(EscapeCode(c) + t) == PutFirst(c, ReadString(t))
  {
    var e := EscapeCode(c);
    var u := e + t;
    assert u[0] == e[0];
    if |e| == 1 {
      assert u[1..] == t;
    } else if |e| == 2 {
      assert u[1] == e[1] && u[2..] == t;
    } else {
      assert u[1] == e[1] && u[2..6] == e[2..] && u[6..] == t;
      UnitRead(c);
    }
  }

  lemma UnitRead(c: Code)
    requires c < 0x20
    ensures ReadUnit([48, 48, HexDigit(c / 16), HexDigit(c % 16)]) == Some(c)
  {
  }

  /** An escaped string is read back, whatever follows its closing quote. */
  lemma {:induction false} StringRead(s: Text, rest: Text)
    ensures ReadString(EscapeTo(s, rest)) == Parsed(s, rest)
  {
    if s == [] {
      assert ([34] + rest)[1..] == rest;
    } else {
      EscapeRead(s[0], EscapeTo(s[1..], rest));
      StringRead(s[1..], rest);
      assert [s[0]] + s[1..] == s;
    }
  }

  lemma {:induction false} NumberEnds(token: Text, rest: Text)
    requires (forall i :: 0 <= i < |token| ==> IsNumeric(token[i])) && Stops(rest)
    ensures NumberEnd(token + rest) == |token|
  {
    if token == [] {
      assert token + rest == rest;
    } else {
      assert (token + rest)[0] == token[0] && (token + rest)[1..] == token[1..] + rest;
      NumberEnds(token[1..], rest);
    }
  }

  lemma IntRead(n: int)
    ensures NumberOf(IntText(n)) == Int(n)
  {
    var t := IntText(n);
    NumberOfDigits(if n < 0 then -n else n);
    if n < 0 {
      assert t[1..] == Digits(-n);
    }
  }

  lemma NumberRead(v: Json, rest: Text)
    requires (v.Int? || v.Float?) && FloatsOk(v) && Stops(rest)
    ensures ReadValue(PrintTo(v, rest)) == Parsed(v, rest)
  {
    var token := Print(v);
    var t := token + rest;
    assert t[0] == token[0];
    NumberEnds(token, rest);
    assert t[..|token|] == token && t[|token|..] == rest;
    if v.Int? {
      IntRead(v.n);
    }
  }

  lemma LiteralRead(v: Json, rest: Text)
    requires v.Null? || v.Bool?
    ensures ReadValue(PrintTo(v, rest)) == Parsed(v, rest)
  {
    var word := Print(v);
    var t := word + rest;
    assert forall i :: 0 <= i < |word| ==> t[i] == word[i];
    assert t[|word|..] == rest;
  }

  /** Every document is read back from its compact text, whatever comma, bracket or end follows. */
  lemma {:induction false} ReadPrinted(v: Json, rest: Text)
    requires FloatsOk(v) && Stops(rest)
    ensures ReadValue(PrintTo(v, rest)) == Parsed(v, rest)
    decreases v, 1
  {
    match v {
      case Null => LiteralRead(v, rest);
      case Bool(_) => LiteralRead(v, rest);
      case Int(_) => NumberRead(v, rest);
      case Float(_) => NumberRead(v, rest);
      case Str(s) =>
        StringRead(s, rest);
        assert ([34] + EscapeTo(s, rest))[1..] == EscapeTo(s, rest);
      case Arr(items) => ArrayRead(items, rest);
      case Obj(fields) => ObjectRead(fields, rest);
    }
  }

  lemma {:induction false} ArrayRead(items: seq<Json>, rest: Text)
    requires FloatsOk(Arr(items)) && Stops(rest)
    ensures ReadValue(PrintTo(Arr(items), rest)) == Parsed(Arr(items), rest)
    decreases items, 1
  {
    var t := PrintTo(Arr(items), rest);
    assert t == [91] + ItemsTo(items, rest) && t[1..] == ItemsTo(items, rest);
    ItemsStart(items, rest);
    if items == [] {
      assert t == [91] + ([93] + rest) && t[2..] == rest;
    } else {
      ItemsRead(items, [], rest);
      assert [] + items == items;
      assert t[1] == ItemsTo(items, rest)[0];
    }
  }

  lemma {:induction false} ItemsRead(items: seq<Json>, before: seq<Json>, rest: Text)
    requires items != [] && (forall i :: 0 <= i < |items| ==> FloatsOk(items[i])) && Stops(rest)
    ensures ReadItems(ItemsTo(items, rest), before) == Parsed(Arr(before + items), rest)
    decreases items, 0
  {
    hide ReadValue, PrintTo, FloatsOk;
    if |items| == 1 {
      ReadPrinted(items[0], [93] + rest);
      assert ([93] + rest)[1..] == rest && items == [items[0]];
    } else {
      var tail := ItemsTo(items[1..], rest);
      ReadPrinted(items[0], [44] + tail);
      assert ([44] + tail)[1..] == tail;
      ItemsRead(items[1..], before + [items[0]], rest);
      assert before + [items[0]] + items[1..] == before + items;
    }
  }

  lemma {:induction false} ObjectRead(fields: seq<Field>, rest: Text)
    requires FloatsOk(Obj(fields)) && Stops(rest)
    ensures ReadValue(PrintTo(Obj(fields), rest)) == Parsed(Obj(fields), rest)
    decreases fields, 1
  {
    var t := PrintTo(Obj(fields), rest);
    assert t == [123] + FieldsTo(fields, rest) && t[1..] == FieldsTo(fields, rest);
    FieldsStart(fields, rest);
    if fields == [] {
      assert t == [123] + ([125] + rest) && t[2..] == rest;
    } else {
      FieldsRead(fields, [], rest);
      assert [] + fields == fields;
      assert t[1] == FieldsTo(fields, rest)[0];
    }
  }

  lemma {:induction false} FieldsRead(fields: seq<Field>, before: seq<Field>, rest: Text)
    requires fields != [] && (forall i :: 0 <= i < |fields| ==> FloatsOk(fields[i].value)) && Stops(rest)
    ensures ReadFields(FieldsTo(fields, rest), before) == Parsed(Obj(before + fields), rest)
    decreases fields, 0
  {
    hide ReadField, FieldTo, FloatsOk;
    if |fields| == 1 {
      FieldRead(fields[0], [125] + rest);
      assert ([125] + rest)[1..] == rest && fields == [fields[0]];
    } else {
      var tail := FieldsTo(fields[1..], rest);
      FieldRead(fields[0], [44] + tail);
      assert ([44] + tail)[1..] == tail;
      FieldsRead(fields[1..], before + [fields[0]], rest);
      assert before + [fields[0]] + fields[1..] == before + fields;
    }
  }

  lemma {:induction false} FieldRead(f: Field, rest: Text)
    requires FloatsOk(f.value) && Stops(rest)
    ensures ReadField(FieldTo(f, rest)) == Parsed(f, rest)
    decreases f, 0
  {
    hide ReadValue, ReadString, PrintTo, EscapeTo, FloatsOk;
    var after := PrintTo(f.value, rest);
    StringRead(f.key, [58] + after);
    ReadPrinted(f.value, rest);
    var t := FieldTo(f, rest);
    assert t[1..] == EscapeTo(f.key, [58] + after) && ([58] + after)[1..] == after;
  }

  /** The text of a document is read back as that document, to its end. */
  lemma RoundTrip(v: Json)
    requires FloatsOk(v)
    ensures ReadValue(Print(v)) == Parsed(v, [])
  {
    PrintToIsPrint(v, []);
    assert Print(v) + [] == Print(v);
    ReadPrinted(v, []);
  }
}
