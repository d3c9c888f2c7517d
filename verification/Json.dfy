/**
 JSON documents and the compact text that `json.dumps(..., ensure_ascii=False,
 separators=(",", ":"))` writes for them, and UTF-8.

 Text is a sequence of code points, so lone surrogates exist and can be refused.  An object keeps
 the order of its fields.  The text of a float is its `repr`, which is not computed here.
 */
module Json {
  import opened Common

  type Code = c: int | 0 <= c < 0x110000
  type Text = seq<Code>

  datatype Json =
    | Null
    | Bool(b: bool)
    | Int(n: int)
    | Float(repr: Text)
    | Str(s: Text)
    | Arr(items: seq<Json>)
    | Obj(fields: seq<Field>)

  datatype Field = Field(key: Text, value: Json)

  predicate HasKey(fields: seq<Field>, key: Text) { exists i :: 0 <= i < |fields| && fields[i].key == key }

  function FieldValue(fields: seq<Field>, key: Text): Json
    requires HasKey(fields, key)
  {
    if fields[0].key == key then fields[0].value else FieldValue(fields[1..], key)
  }

  // ----- numbers --------------------------------------------------------------------------

  function Digits(n: nat): (t: Text)
    ensures |t| >= 1 && forall i :: 0 <= i < |t| ==> 48 <= t[i] < 58
  {
    if n < 10 then [48 + n] else Digits(n / 10) + [48 + n % 10]
  }

  function IntText(n: int): (t: Text)
    ensures |t| >= 1 && forall i :: 0 <= i < |t| ==> IsDigitOrMinus(t[i])
  {
    if n < 0 then [45] + Digits(-n) else Digits(n)
  }

  /** The number a sequence of digits stands for. */
  function Number(t: seq<int>): int {
    if t == [] then 0 else Number(t[..|t| - 1]) * 10 + (t[|t| - 1] - 48)
  }

  lemma {:induction false} NumberOfDigits(n: nat)
    ensures Number(Digits(n)) == n
  {
    var t := Digits(n);
    if n >= 10 {
      NumberOfDigits(n / 10);
      assert t[..|t| - 1] == Digits(n / 10);
    } else {
      assert t[..0] == [];
    }
  }

  predicate IsDigitOrMinus(c: Code) { 48 <= c < 58 || c == 45 }

  /** The characters of a number: digits, minus, plus, dot and the exponent letters. */
  predicate IsNumeric(c: Code) { IsDigitOrMinus(c) || c == 43 || c == 46 || c == 101 || c == 69 }

  /** The `repr` of a finite float: a numeric token with a dot or an exponent. */
  predicate IsFloatRepr(t: Text) {
    |t| >= 1 && IsDigitOrMinus(t[0]) && (forall i :: 0 <= i < |t| ==> IsNumeric(t[i])) && (46 in t || 101 in t)
  }

  // ----- strings --------------------------------------------------------------------------

  function HexDigit(d: int): Code
    requires 0 <= d < 16
  {
    if d < 10 then 48 + d else 87 + d
  }

  function EscapeCode(c: Code): (t: Text)
    ensures |t| >= 1
  {
    if c == 34 then [92, 34]            // quote
    else if c == 92 then [92, 92]       // backslash
    else if c == 8 then [92, 98]
    else if c == 12 then [92, 102]
    else if c == 10 then [92, 110]
    else if c == 13 then [92, 114]
    else if c == 9 then [92, 116]
    else if c < 0x20 then [92, 117, 48, 48, HexDigit(c / 16), HexDigit(c % 16)]
    else [c]
  }

  function Escape(s: Text): Text {
    if s == [] then [] else EscapeCode(s[0]) + Escape(s[1..])
  }

  function Quote(s: Text): Text { [34] + Escape(s) + [34] }

  // ----- documents ------------------------------------------------------------------------

  const NULL: Text := [110, 117, 108, 108]
  const TRUE: Text := [116, 114, 117, 101]
  const FALSE: Text := [102, 97, 108, 115, 101]

  function Print(v: Json): Text {
    match v
    case Null => NULL
    case Bool(b) => if b then TRUE else FALSE
    case Int(n) => IntText(n)
    case Float(repr) => repr
    case Str(s) => Quote(s)
    case Arr(items) => [91] + PrintItems(items) + [93]
    case Obj(fields) => [123] + PrintFields(fields) + [125]
  }

  function PrintItems(items: seq<Json>): Text {
    if items == [] then []
    else if |items| == 1 then Print(items[0])
    else Print(items[0]) + [44] + PrintItems(items[1..])
  }

  function PrintField(f: Field): Text { Quote(f.key) + [58] + Print(f.value) }

  function PrintFields(fields: seq<Field>): Text {
    if fields == [] then []
    else if |fields| == 1 then PrintField(fields[0])
    else PrintField(fields[0]) + [44] + PrintFields(fields[1..])
  }

  /** Every float in the document has the form of a finite float. */
  ghost predicate FloatsOk(v: Json) {
    match v
    case Float(repr) => IsFloatRepr(repr)
    case Arr(items) => forall i :: 0 <= i < |items| ==> FloatsOk(items[i])
    case Obj(fields) => forall i :: 0 <= i < |fields| ==> FloatsOk(fields[i].value)
    case _ => true
  }

  // ----- UTF-8 ----------------------------------------------------------------------------

  predicate IsSurrogate(c: Code) { 0xD800 <= c <= 0xDFFF }

  function Utf8Size(c: Code): nat {
    if c <= 0x7F then 1 else if c <= 0x7FF then 2 else if c <= 0xFFFF then 3 else 4
  }

  function Utf8Code(c: Code): (b: seq<Byte>)
    ensures |b| == Utf8Size(c)
  {
    if c <= 0x7F then [c]
    else if c <= 0x7FF then [0xC0 + c / 64, 0x80 + c % 64]
    else if c <= 0xFFFF then [0xE0 + c / 4096, 0x80 + c / 64 % 64, 0x80 + c % 64]
    else [0xF0 + c / 262144, 0x80 + c / 4096 % 64, 0x80 + c / 64 % 64, 0x80 + c % 64]
  }

  /** The strict encoding of text without surrogates. */
  function Utf8(t: Text): seq<Byte> {
    if t == [] then [] else Utf8Code(t[0]) + Utf8(t[1..])
  }

  lemma {:induction false} Utf8Concat(a: Text, b: Text)
    ensures Utf8(a + b) == Utf8(a) + Utf8(b)
  {
    if a == [] {
      assert a + b == b;
    } else {
      assert (a + b)[0] == a[0] && (a + b)[1..] == a[1..] + b;
      Utf8Concat(a[1..], b);
    }
  }

  lemma {:induction false} Utf8Ascii(t: Text)
    requires forall i :: 0 <= i < |t| ==> t[i] <= 0x7F
    ensures |Utf8(t)| == |t|
  {
    if t != [] {
      Utf8Ascii(t[1..]);
    }
  }

  /** UTF-8 is a prefix code, so it determines the text. */
  lemma {:induction false} Utf8Injective(a: Text, b: Text)
    requires Utf8(a) == Utf8(b)
    ensures a == b
    decreases |a| + |b|
  {
    if a != [] && b != [] {
      Utf8CodePrefixFree(a[0], b[0], Utf8(a[1..]), Utf8(b[1..]));
      Utf8Injective(a[1..], b[1..]);
    }
  }

  lemma Utf8CodePrefixFree(c: Code, d: Code, x: seq<Byte>, y: seq<Byte>)
    requires Utf8Code(c) + x == Utf8Code(d) + y
    ensures c == d && x == y
  {
    var u, v := Utf8Code(c), Utf8Code(d);
    assert u[0] == (u + x)[0] == (v + y)[0] == v[0];
    LeadByte(c);
    LeadByte(d);
    assert |u| == |v|;
    assert u == (u + x)[..|u|] == (v + y)[..|v|] == v;
    assert x == (u + x)[|u|..] == (v + y)[|v|..] == y;
    DecodeUtf8(c);
    DecodeUtf8(d);
  }

  /** The first byte tells the length. */
  lemma LeadByte(c: Code)
    ensures var b := Utf8Code(c)[0];
      && (Utf8Size(c) == 1 <==> b < 0x80) && (Utf8Size(c) == 2 <==> 0x80 <= b < 0xE0)
      && (Utf8Size(c) == 3 <==> 0xE0 <= b < 0xF0) && (Utf8Size(c) == 4 <==> 0xF0 <= b)
  {
  }

  /** The code point a UTF-8 sequence of up to four bytes stands for. */
  function Decode(u: seq<int>): int {
    if |u| == 1 then u[0]
    else if |u| == 2 then (u[0] - 0xC0) * 64 + (u[1] - 0x80)
    else if |u| == 3 then (u[0] - 0xE0) * 4096 + (u[1] - 0x80) * 64 + (u[2] - 0x80)
    else if |u| == 4 then (u[0] - 0xF0) * 262144 + (u[1] - 0x80) * 4096 + (u[2] - 0x80) * 64 + (u[3] - 0x80)
    else -1
  }

  lemma DecodeUtf8(c: Code)
    ensures Decode(Utf8Code(c)) == c
  {
    var d, e, f := c / 64, c / 4096, c / 262144;
    assert d / 64 == e && e / 64 == f;
    assert c == d * 64 + c % 64 && d == e * 64 + d % 64 && e == f * 64 + e % 64;
    var u := Utf8Code(c);
    if |u| == 4 {
      assert u == [0xF0 + f, 0x80 + e % 64, 0x80 + d % 64, 0x80 + c % 64];
    }
  }
}
