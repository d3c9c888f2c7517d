/**
 The decimal rewriter for coordinates: `repr` texts with an exponent are rewritten to the notation of
 the Rust serializer without changing the number they denote.
 */
module Decimal {
  import opened Json

  const MINUS: Code := 45
  const PLUS: Code := 43
  const DOT: Code := 46
  const EXP: Code := 101
  const ZERO: Code := 48

  // ----- reading decimal texts ------------------------------------------------------------

  function Find(t: Text, c: Code): (i: nat)
    ensures i <= |t| && (i < |t| ==> t[i] == c) && forall j :: 0 <= j < i ==> t[j] != c
  {
    if t == [] then 0 else if t[0] == c then 0 else 1 + Find(t[1..], c)
  }

  function Remove(t: Text, c: Code): Text {
    if t == [] then [] else (if t[0] == c then [] else [t[0]]) + Remove(t[1..], c)
  }

  predicate AllDigits(t: Text) { forall i :: 0 <= i < |t| ==> 48 <= t[i] < 58 }

  function SignOf(t: Text): int { if t != [] && t[0] == MINUS then -1 else 1 }

  function Unsigned(t: Text): Text { if t != [] && (t[0] == MINUS || t[0] == PLUS) then t[1..] else t }

  /** Python's `int` on an optional sign and digits, leading zeros allowed. */
  function ParseInt(t: Text): int { SignOf(t) * Number(Unsigned(t)) }

  /** A decimal number: an integer coefficient times a power of ten. */
  datatype Decimal = Decimal(coefficient: int, exponent: int)

  /** What a mantissa with an optional sign and an optional dot denotes. */
  function Mantissa(t: Text): Decimal {
    var u := Unsigned(t);
    var digits := Remove(u, DOT);
    Decimal(SignOf(t) * Number(digits), Find(u, DOT) - |digits|)
  }

  /** What a decimal text denotes, with or without an exponent part. */
  function Denotes(t: Text): Decimal {
    var e := Find(t, EXP);
    var m := Mantissa(t[..e]);
    if e == |t| then m else m.(exponent := m.exponent + ParseInt(t[e + 1..]))
  }

  /** Digits with at most one dot after an optional minus. */
  predicate IsMantissa(t: Text) { IsUnsignedMantissa(if t != [] && t[0] == MINUS then t[1..] else t) }

  predicate IsUnsignedMantissa(u: Text) {
    var p := Find(u, DOT);
    1 <= p && AllDigits(u[..p]) && (p < |u| ==> AllDigits(u[p + 1..]) && p + 1 < |u|)
  }

  /** The `repr` of a finite float that uses an exponent: mantissa, `e`, signed digits. */
  predicate IsExponentRepr(t: Text) {
    var e := Find(t, EXP);
    && e < |t| && IsMantissa(t[..e])
    && Unsigned(t[e + 1..]) != [] && AllDigits(Unsigned(t[e + 1..]))
  }

  /** The `repr` of a finite float that uses none: an optional minus and digits around a dot. */
  predicate IsPlainRepr(t: Text) { EXP !in t && IsMantissa(t) && DOT in t }

  /** The `repr` of a finite float. */
  predicate IsRepr(t: Text) { IsPlainRepr(t) || IsExponentRepr(t) }

  // ----- the rewriter ---------------------------------------------------------------------

  function Zeros(n: nat): (t: Text)
    ensures |t| == n && forall i :: 0 <= i < n ==> t[i] == ZERO
  {
    if n == 0 then [] else Zeros(n - 1) + [ZERO]
  }

  /** Digits with a dot before the given position, padded with zeros. */
  function Place(digits: Text, position: int): Text {
    if position <= 0 then [ZERO, DOT] + Zeros(-position) + digits
    else if position >= |digits| then digits + Zeros(position - |digits|) + [DOT, ZERO]
    else digits[..position] + [DOT] + digits[position..]
  }

  /** Fixed notation for exponents -5 to -1. */
  function Fixed(mantissa: Text, exponent: int): Text {
    var negative := mantissa != [] && mantissa[0] == MINUS;
    var m := if negative then mantissa[1..] else mantissa;
    WithSign(negative, Place(Remove(m, DOT), Find(m, DOT) + exponent))
  }

  function WithSign(negative: bool, u: Text): Text { (if negative then [MINUS] else []) + u }

  function SignedText(n: int): Text { if n >= 0 then [PLUS] + Digits(n) else IntText(n) }

  /** `_canonical_float` on the `repr` of a finite value. */
  function CanonicalFloat(rendered: Text): Text {
    var e := Find(rendered, EXP);
    if e == |rendered| then rendered
    else
      var mantissa, exponent := rendered[..e], ParseInt(rendered[e + 1..]);
      if -6 < exponent < 0 then Fixed(mantissa, exponent)
      else mantissa + [EXP] + SignedText(exponent)
  }

  // ----- lemmas on texts ------------------------------------------------------------------

  lemma SignedTextParses(n: int)
    ensures ParseInt(SignedText(n)) == n
  {
    var t := SignedText(n);
    if n >= 0 {
      assert t[1..] == Digits(n);
      NumberOfDigits(n);
    } else {
      assert t[1..] == Digits(-n);
      NumberOfDigits(-n);
    }
  }

  lemma {:induction false} FindAt(a: Text, c: Code, b: Text)
    requires c !in a
    ensures Find(a + [c] + b, c) == |a|
  {
    var t := a + [c] + b;
    var i := Find(t, c);
    assert t[|a|] == c;
    assert forall j :: 0 <= j < |a| ==> t[j] == a[j];
  }

  lemma {:induction false} RemoveNone(a: Text, c: Code)
    requires c !in a
    ensures Remove(a, c) == a
  {
    if a != [] {
      RemoveNone(a[1..], c);
    }
  }

  lemma {:induction false} RemoveConcat(a: Text, b: Text, c: Code)
    ensures Remove(a + b, c) == Remove(a, c) + Remove(b, c)
  {
    if a == [] {
      assert a + b == b;
    } else {
      assert (a + b)[0] == a[0] && (a + b)[1..] == a[1..] + b;
      RemoveConcat(a[1..], b, c);
    }
  }

  lemma RemoveOnlyDot()
    ensures Remove([DOT], DOT) == []
  {
  }

  lemma RemoveDot(a: Text, b: Text)
    requires DOT !in a && DOT !in b
    ensures Remove(a + [DOT] + b, DOT) == a + b && Find(a + [DOT] + b, DOT) == |a|
  {
    hide *;
    FindAt(a, DOT, b);
    RemoveConcat(a + [DOT], b, DOT);
    RemoveConcat(a, [DOT], DOT);
    RemoveNone(a, DOT);
    RemoveNone(b, DOT);
    RemoveOnlyDot();
    assert a + [] == a;
  }

  lemma {:induction false} LeadingZeros(n: nat, t: Text)
    ensures Number(Zeros(n) + t) == Number(t)
  {
    var u := Zeros(n) + t;
    if t == [] {
      assert u == Zeros(n);
      if n > 0 {
        assert u[..n - 1] == Zeros(n - 1) + [];
        LeadingZeros(n - 1, []);
      }
    } else {
      assert u[..|u| - 1] == Zeros(n) + t[..|t| - 1];
      LeadingZeros(n, t[..|t| - 1]);
    }
  }

  // ----- the number is kept ---------------------------------------------------------------

  /** A signed text starting with a digit denotes the signed number of its unsigned part. */
  lemma MantissaWithSign(negative: bool, u: Text)
    requires u != [] && 48 <= u[0] < 58
    ensures Unsigned(WithSign(negative, u)) == u
    ensures SignOf(WithSign(negative, u)) == if negative then -1 else 1
  {
    if negative {
      assert ([MINUS] + u)[1..] == u;
    } else {
      assert [] + u == u;
    }
  }

  /** The digits of a mantissa and where its dot is. */
  lemma MantissaParts(u: Text) returns (a: Text, b: Text)
    requires IsUnsignedMantissa(u)
    ensures a != [] && AllDigits(a) && AllDigits(b) && u != [] && u[0] == a[0]
    ensures Find(u, DOT) == |a| && Remove(u, DOT) == a + b
  {
    hide Remove;
    var p := Find(u, DOT);
    a := u[..p];
    assert a[0] == u[0];
    if p < |u| {
      b := u[p + 1..];
      assert u == a + [DOT] + b;
      RemoveDot(a, b);
    } else {
      b := [];
      assert u == a && a + b == a;
      RemoveNone(u, DOT);
    }
  }

  lemma DigitsHaveNoMarks(t: Text)
    requires AllDigits(t)
    ensures DOT !in t && EXP !in t
  {
  }

  /** What digits around a dot, with a sign, denote. */
  lemma SignedDecimal(negative: bool, left: Text, right: Text)
    requires left != [] && AllDigits(left) && AllDigits(right)
    ensures Mantissa(WithSign(negative, left + [DOT] + right)) ==
              Decimal((if negative then -1 else 1) * Number(left + right), -|right|)
    ensures EXP !in WithSign(negative, left + [DOT] + right)
  {
    hide Remove, Find, Number;
    var u := left + [DOT] + right;
    DigitsHaveNoMarks(left);
    DigitsHaveNoMarks(right);
    assert u[0] == left[0];
    MantissaWithSign(negative, u);
    RemoveDot(left, right);
  }

  /** The digits around the dot that fixed notation writes. */
  lemma PlaceParts(digits: Text, position: int) returns (left: Text, right: Text)
    requires AllDigits(digits) && position < |digits|
    ensures left != [] && AllDigits(left) && AllDigits(right)
    ensures Place(digits, position) == left + [DOT] + right
    ensures Number(left + right) == Number(digits) && |right| == |digits| - position
  {
    hide Remove, Find, Number;
    if position <= 0 {
      left, right := [ZERO], Zeros(-position) + digits;
      assert left + right == ([ZERO] + Zeros(-position)) + digits;
      OneMoreZero(-position);
      LeadingZeros(-position + 1, digits);
    } else {
      left, right := digits[..position], digits[position..];
      assert left + right == digits;
    }
  }

  lemma SignAndRest(m: Text)
    ensures var negative := m != [] && m[0] == MINUS;
      m == WithSign(negative, if negative then m[1..] else m)
  {
    assert [] + m == m;
  }

  /** Fixed notation denotes the mantissa shifted by the exponent. */
  lemma FixedKeepsNumber(mantissa: Text, exponent: int)
    requires IsMantissa(mantissa) && exponent < 0
    ensures Mantissa(Fixed(mantissa, exponent)) ==
              Mantissa(mantissa).(exponent := Mantissa(mantissa).exponent + exponent)
    ensures EXP !in Fixed(mantissa, exponent)
  {
    hide Remove, Find, Number, Place, IsUnsignedMantissa, WithSign;
    var negative := mantissa != [] && mantissa[0] == MINUS;
    var u := if negative then mantissa[1..] else mantissa;
    var a, b := MantissaParts(u);
    SignAndRest(mantissa);
    MantissaWithSign(negative, u);
    var left, right := PlaceParts(a + b, |a| + exponent);
    SignedDecimal(negative, left, right);
  }

  lemma {:induction false} OneMoreZero(n: nat)
    ensures [ZERO] + Zeros(n) == Zeros(n + 1)
  {
    if n > 0 {
      OneMoreZero(n - 1);
    } else {
      assert Zeros(1) == Zeros(0) + [ZERO];
    }
  }

  lemma MantissaHasNoExponent(m: Text)
    requires IsMantissa(m)
    ensures EXP !in m
  {
    var u := if m != [] && m[0] == MINUS then m[1..] else m;
    UnsignedHasNoExponent(u);
    assert u == m || m == [MINUS] + u;
  }

  lemma UnsignedHasNoExponent(u: Text)
    requires IsUnsignedMantissa(u)
    ensures EXP !in u
  {
    hide Find;
    var p := Find(u, DOT);
    DigitsHaveNoMarks(u[..p]);
    if p < |u| {
      DigitsHaveNoMarks(u[p + 1..]);
      assert u == u[..p] + [DOT] + u[p + 1..];
    } else {
      assert u[..p] == u;
    }
  }

  lemma NoExponentPart(t: Text)
    requires EXP !in t
    ensures Find(t, EXP) == |t| && Denotes(t) == Mantissa(t)
  {
    hide Mantissa;
    assert t[..|t|] == t;
  }

  lemma ExponentPart(m: Text, exponent: int)
    requires EXP !in m
    ensures var t := m + [EXP] + SignedText(exponent);
      EXP in t && Denotes(t) == Mantissa(m).(exponent := Mantissa(m).exponent + exponent)
  {
    hide Mantissa, SignedText, ParseInt;
    var s := SignedText(exponent);
    var t := m + [EXP] + s;
    FindAt(m, EXP, s);
    assert t[|m|] == EXP && t[..|m|] == m && t[|m| + 1..] == s;
    SignedTextParses(exponent);
  }

  lemma ExponentReprKeepsNumber(rendered: Text)
    requires IsExponentRepr(rendered)
    ensures Denotes(CanonicalFloat(rendered)) == Denotes(rendered)
    ensures EXP !in CanonicalFloat(rendered) <==> -6 < ParseInt(rendered[Find(rendered, EXP) + 1..]) < 0
  {
    hide Remove, Number, IsMantissa, Fixed, Mantissa, SignedText, ParseInt;
    var e := Find(rendered, EXP);
    var m, exponent := rendered[..e], ParseInt(rendered[e + 1..]);
    if -6 < exponent < 0 {
      FixedKeepsNumber(m, exponent);
      NoExponentPart(Fixed(m, exponent));
    } else {
      MantissaHasNoExponent(m);
      ExponentPart(m, exponent);
    }
  }

  /** What `repr` gives for a finite float, with or without an exponent, is rewritten to a text that
      denotes the same number and is not rewritten again; an exponent part is lost exactly when the
      exponent is one of -5 to -1, and a text without one is kept. */
  lemma CanonicalFloatKeepsNumber(rendered: Text)
    requires IsRepr(rendered)
    ensures Denotes(CanonicalFloat(rendered)) == Denotes(rendered)
    ensures CanonicalFloat(CanonicalFloat(rendered)) == CanonicalFloat(rendered)
    ensures EXP in rendered ==>
              (EXP !in CanonicalFloat(rendered) <==> -6 < ParseInt(rendered[Find(rendered, EXP) + 1..]) < 0)
    ensures EXP !in rendered ==> CanonicalFloat(rendered) == rendered
  {
    hide Denotes, IsMantissa, Find, ParseInt, CanonicalFloat;
    if EXP in rendered {
      ExponentReprKeepsNumber(rendered);
      RewrittenOnce(rendered);
    } else {
      PlainIsKept(rendered);
    }
  }

  /** Nothing `repr` writes is left out: any digits around a dot, and with an exponent of any sign also
      digits alone, after an optional minus. */
  lemma ReprsAreCovered(negative: bool, left: Text, right: Text, mark: Code, exponent: Text)
    requires left != [] && right != [] && AllDigits(left) && AllDigits(right)
    requires exponent != [] && AllDigits(exponent) && (mark == '-' as int || mark == '+' as int)
    ensures IsPlainRepr(WithSign(negative, left + [DOT] + right))
    ensures IsExponentRepr(WithSign(negative, left + [DOT] + right) + [EXP] + ([mark] + exponent))
    ensures IsExponentRepr(WithSign(negative, left) + [EXP] + ([mark] + exponent))
  {
    var m, n := WithSign(negative, left + [DOT] + right), WithSign(negative, left);
    SignedMantissa(negative, left, right);
    MantissaHasNoExponent(m);
    MantissaHasNoExponent(n);
    ExponentCovered(m, mark, exponent);
    ExponentCovered(n, mark, exponent);
    assert m[if negative then |left| + 1 else |left|] == DOT;
  }

  lemma SignedMantissa(negative: bool, left: Text, right: Text)
    requires left != [] && right != [] && AllDigits(left) && AllDigits(right)
    ensures IsMantissa(WithSign(negative, left + [DOT] + right)) && IsMantissa(WithSign(negative, left))
  {
    var u := left + [DOT] + right;
    DigitsHaveNoMarks(left);
    FindAt(left, DOT, right);
    assert u[..|left|] == left && u[|left| + 1..] == right && u[0] == left[0];
    NotFound(left, DOT);
    assert left[..|left|] == left;
    if negative {
      assert ([MINUS] + u)[1..] == u && ([MINUS] + left)[1..] == left;
    } else {
      assert [] + u == u && [] + left == left;
    }
  }

  lemma NotFound(t: Text, c: Code)
    requires c !in t
    ensures Find(t, c) == |t|
  {
  }

  lemma ExponentCovered(m: Text, mark: Code, exponent: Text)
    requires IsMantissa(m) && EXP !in m && exponent != [] && AllDigits(exponent) && (mark == MINUS || mark == PLUS)
    ensures IsExponentRepr(m + [EXP] + ([mark] + exponent))
  {
    hide IsMantissa;
    var x := [mark] + exponent;
    var t := m + [EXP] + x;
    FindAt(m, EXP, x);
    assert t[..|m|] == m && t[|m| + 1..] == x && x[1..] == exponent;
  }

  lemma PlainIsKept(t: Text)
    requires EXP !in t
    ensures CanonicalFloat(t) == t
  {
    assert Find(t, EXP) == |t|;
  }

  lemma RewrittenOnce(rendered: Text)
    requires IsExponentRepr(rendered)
    ensures CanonicalFloat(CanonicalFloat(rendered)) == CanonicalFloat(rendered)
  {
    hide Remove, Number, IsMantissa, Fixed, Mantissa, SignedText, ParseInt;
    var e := Find(rendered, EXP);
    var m, exponent := rendered[..e], ParseInt(rendered[e + 1..]);
    if -6 < exponent < 0 {
      FixedKeepsNumber(m, exponent);
      PlainIsKept(Fixed(m, exponent));
    } else {
      MantissaHasNoExponent(m);
      ExponentStays(m, exponent);
    }
  }

  lemma ExponentStays(m: Text, exponent: int)
    requires EXP !in m && !(-6 < exponent < 0)
    ensures CanonicalFloat(m + [EXP] + SignedText(exponent)) == m + [EXP] + SignedText(exponent)
  {
    hide SignedText, ParseInt, Fixed;
    var s := SignedText(exponent);
    var t := m + [EXP] + s;
    FindAt(m, EXP, s);
    assert t[|m|] == EXP && t[..|m|] == m && t[|m| + 1..] == s;
    SignedTextParses(exponent);
  }

  predicate AllNumeric(t: Text) { forall i :: 0 <= i < |t| ==> IsNumeric(t[i]) }

  lemma NumericConcat(a: Text, b: Text)
    requires AllNumeric(a) && AllNumeric(b)
    ensures AllNumeric(a + b)
  {
    hide IsNumeric;
  }

  lemma DigitsAreNumeric(t: Text)
    requires AllDigits(t)
    ensures AllNumeric(t)
  {
  }

  lemma UnsignedIsNumeric(u: Text)
    requires IsUnsignedMantissa(u)
    ensures AllNumeric(u) && u != [] && 48 <= u[0] < 58
  {
    assert AllNumeric([DOT]);
    hide Find, IsNumeric;
    var p := Find(u, DOT);
    DigitsAreNumeric(u[..p]);
    assert u[..p][0] == u[0];
    if p < |u| {
      DigitsAreNumeric(u[p + 1..]);
      NumericConcat(u[..p], [DOT]);
      NumericConcat(u[..p] + [DOT], u[p + 1..]);
      assert u == u[..p] + [DOT] + u[p + 1..];
    } else {
      assert u[..p] == u;
    }
  }

  lemma MantissaIsNumeric(m: Text)
    requires IsMantissa(m)
    ensures AllNumeric(m) && m != [] && IsDigitOrMinus(m[0])
  {
    hide IsUnsignedMantissa;
    if m != [] && m[0] == MINUS {
      UnsignedIsNumeric(m[1..]);
      NumericConcat([MINUS], m[1..]);
      assert m == [MINUS] + m[1..];
    } else {
      UnsignedIsNumeric(m);
    }
  }

  lemma SignedTextIsNumeric(n: int)
    ensures AllNumeric(SignedText(n))
  {
  }

  lemma DigitsAroundDot(negative: bool, left: Text, right: Text)
    requires left != [] && AllDigits(left) && AllDigits(right)
    ensures IsFloatRepr(WithSign(negative, left + [DOT] + right))
  {
    var t := WithSign(negative, left + [DOT] + right);
    assert left + [DOT] + right == left + ([DOT] + right);
    assert t[if negative then |left| + 1 else |left|] == DOT;
  }

  /** The rewritten text is again a float token, so the printer stays injective on documents with
      rewritten coordinates. */
  lemma CanonicalFloatIsFloatText(rendered: Text)
    requires IsRepr(rendered)
    ensures IsFloatRepr(CanonicalFloat(rendered))
  {
    if EXP in rendered {
      ExponentReprToFloatText(rendered);
    } else {
      hide IsMantissa, CanonicalFloat;
      PlainIsKept(rendered);
      MantissaIsNumeric(rendered);
    }
  }

  lemma ExponentReprToFloatText(rendered: Text)
    requires IsExponentRepr(rendered)
    ensures IsFloatRepr(CanonicalFloat(rendered))
  {
    hide Find, Remove, Number, Place, WithSign, SignedText, ParseInt, IsUnsignedMantissa, IsFloatRepr;
    var e := Find(rendered, EXP);
    var m, exponent := rendered[..e], ParseInt(rendered[e + 1..]);
    if -6 < exponent < 0 {
      var negative := m != [] && m[0] == MINUS;
      var u := if negative then m[1..] else m;
      var a, b := MantissaParts(u);
      var left, right := PlaceParts(a + b, |a| + exponent);
      DigitsAroundDot(negative, left, right);
    } else {
      MantissaIsNumeric(m);
      SignedTextIsNumeric(exponent);
      ExponentTextIsRepr(m, SignedText(exponent));
    }
  }

  lemma ExponentTextIsRepr(m: Text, x: Text)
    requires AllNumeric(m) && m != [] && IsDigitOrMinus(m[0]) && AllNumeric(x)
    ensures IsFloatRepr(m + [EXP] + x)
  {
    var t := m + [EXP] + x;
    assert t[|m|] == EXP && t[0] == m[0];
  }
}
