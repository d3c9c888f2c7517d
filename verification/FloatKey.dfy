/**
 The 64-bit sort key for coordinates against the totalOrder predicate of section 5.10 of
 IEEE 754-2019.  Bit patterns are numbers below 2^64.
 */
module FloatKey {
  const TWO52: int := 0x10_0000_0000_0000
  const TWO63: int := 0x8000_0000_0000_0000
  const TWO64: int := 0x1_0000_0000_0000_0000

  type Bits = b: int | 0 <= b < 0x1_0000_0000_0000_0000

  /** `_f64_total_key` on the big-endian bit pattern: complement when the sign bit is set, set it
      otherwise. */
  function TotalKey(bits: Bits): Bits {
    if bits / TWO63 != 0 then TWO64 - 1 - bits else bits + TWO63
  }

  // ----- what a bit pattern means ---------------------------------------------------------

  predicate Negative(b: Bits) { b >= TWO63 }
  function Unsigned(b: Bits): nat { if Negative(b) then b - TWO63 else b }
  function Exponent(b: Bits): nat { Unsigned(b) / TWO52 }
  function Fraction(b: Bits): nat { Unsigned(b) % TWO52 }
  predicate Finite(b: Bits) { Exponent(b) < 2047 }
  predicate Infinite(b: Bits) { Exponent(b) == 2047 && Fraction(b) == 0 }
  predicate IsNan(b: Bits) { Exponent(b) == 2047 && Fraction(b) != 0 }
  predicate Quiet(b: Bits) { Fraction(b) >= TWO52 / 2 }
  function Payload(b: Bits): nat { Fraction(b) % (TWO52 / 2) }

  function Pow2(e: nat): nat { if e == 0 then 1 else 2 * Pow2(e - 1) }

  /** The magnitude of a finite number in units of 2^-1074; subnormal numbers have no implicit bit. */
  function Magnitude(u: nat): nat {
    if u / TWO52 == 0 then u % TWO52 else (TWO52 + u % TWO52) * Pow2(u / TWO52 - 1)
  }

  /** The value of a finite number in units of 2^-1074, exactly. */
  function ScaledValue(b: Bits): int
    requires Finite(b)
  {
    var m: int := Magnitude(Unsigned(b));
    if Negative(b) then -m else m
  }

  predicate NumericLess(x: Bits, y: Bits)
    requires !IsNan(x) && !IsNan(y)
  {
    if Infinite(x) then Negative(x) && !(Infinite(y) && Negative(y))
    else if Infinite(y) then !Negative(y)
    else ScaledValue(x) < ScaledValue(y)
  }

  /** totalOrder, strictly: numbers by value, negative zero before positive zero, NaNs outside the
      numbers on the side of their sign, signalling inside quiet, then by payload. */
  predicate TotalLess(x: Bits, y: Bits) {
    if IsNan(x) && IsNan(y) then
      if Negative(x) != Negative(y) then Negative(x)
      else if Quiet(x) != Quiet(y) then (if Negative(x) then Quiet(x) else Quiet(y))
      else if Negative(x) then Payload(x) > Payload(y) else Payload(x) < Payload(y)
    else if IsNan(x) then Negative(x)
    else if IsNan(y) then !Negative(y)
    else NumericLess(x, y) || (!NumericLess(y, x) && Negative(x) && !Negative(y))
  }

  // ----- the key realises it --------------------------------------------------------------

  lemma KeyInjective(x: Bits, y: Bits)
    ensures TotalKey(x) == TotalKey(y) <==> x == y
  {
  }

  lemma {:induction false} Pow2Grows(m: nat, n: nat)
    requires m <= n
    ensures 1 <= Pow2(m) <= Pow2(n)
    decreases n
  {
    if n > 0 {
      if m < n { Pow2Grows(m, n - 1); } else { Pow2Grows(m - 1, n - 1); }
    }
  }

  /** Larger patterns have larger magnitudes. */
  lemma MagnitudeGrows(u: nat, v: nat)
    requires u < v
    ensures Magnitude(u) < Magnitude(v)
  {
    var e, f, g, h := u / TWO52, u % TWO52, v / TWO52, v % TWO52;
    assert u == e * TWO52 + f && v == g * TWO52 + h;
    if e == g {
      if e > 0 {
        Pow2Grows(0, e - 1);
        Times(TWO52 + f, TWO52 + h, Pow2(e - 1));
      }
    } else {
      assert e < g;
      Pow2Grows(0, g - 1);
      Product(TWO52, TWO52 + h, Pow2(g - 1));
      if e == 0 {
        Product(1, TWO52, Pow2(g - 1));
      } else {
        Pow2Grows(0, e - 1);
        Times(TWO52 + f, 2 * TWO52, Pow2(e - 1));
        assert 2 * TWO52 * Pow2(e - 1) == TWO52 * Pow2(e);
        Pow2Grows(e, g - 1);
      }
    }
  }

  lemma Times(a: nat, b: nat, c: nat)
    requires a < b && c >= 1
    ensures a * c < b * c
  {
  }

  lemma Product(a: nat, b: nat, c: nat)
    requires a <= b
    ensures a * c <= b * c
  {
  }

  /** Comparing two numbers that are not NaN by value, or by sign for the two zeros, is comparing
      their signed patterns. */
  lemma NumbersByPattern(x: Bits, y: Bits)
    requires !IsNan(x) && !IsNan(y)
    ensures TotalLess(x, y) <==>
      if Negative(x) != Negative(y) then Negative(x)
      else if Negative(x) then Unsigned(x) > Unsigned(y) else Unsigned(x) < Unsigned(y)
  {
    hide Magnitude;
    var u, v := Unsigned(x), Unsigned(y);
    if u < v { MagnitudeGrows(u, v); } else if v < u { MagnitudeGrows(v, u); }
    ZeroMagnitude();
    if u > 0 { MagnitudeGrows(0, u); }
    if v > 0 { MagnitudeGrows(0, v); }
  }

  lemma ZeroMagnitude()
    ensures Magnitude(0) == 0
  {
  }

  /** The key's order is totalOrder, for all bit patterns. */
  lemma KeyRealisesTotalOrder(x: Bits, y: Bits)
    ensures TotalKey(x) < TotalKey(y) <==> TotalLess(x, y)
  {
    if IsNan(x) || IsNan(y) {
      NansByPattern(x, y);
    } else {
      hide TotalLess;
      NumbersByPattern(x, y);
    }
  }

  lemma NansByPattern(x: Bits, y: Bits)
    requires IsNan(x) || IsNan(y)
    ensures TotalLess(x, y) <==>
      if Negative(x) != Negative(y) then Negative(x)
      else if Negative(x) then Unsigned(x) > Unsigned(y) else Unsigned(x) < Unsigned(y)
  {
    hide Quiet, Payload, Exponent, Fraction, IsNan, NumericLess;
    Parts(x);
    Parts(y);
    if IsNan(x) && IsNan(y) {
      assert Quiet(x) && !Quiet(y) ==> Fraction(x) > Fraction(y);
      assert !Quiet(x) && Quiet(y) ==> Fraction(x) < Fraction(y);
    }
  }

  /** A pattern is its exponent and fraction; a NaN's fraction is its quiet bit and payload. */
  lemma Parts(b: Bits)
    ensures Unsigned(b) == Exponent(b) * TWO52 + Fraction(b) && 0 <= Fraction(b) < TWO52 && Exponent(b) <= 2047
    ensures Fraction(b) == Payload(b) + (if Quiet(b) then TWO52 / 2 else 0) && 0 <= Payload(b) < TWO52 / 2
    ensures IsNan(b) <==> Unsigned(b) > 2047 * TWO52
    ensures IsNan(b) ==> Exponent(b) == 2047
  {
  }

  /** In particular a smaller real number has a smaller key. */
  lemma SmallerValueSmallerKey(x: Bits, y: Bits)
    requires Finite(x) && Finite(y) && ScaledValue(x) < ScaledValue(y)
    ensures TotalKey(x) < TotalKey(y)
  {
    KeyRealisesTotalOrder(x, y);
  }
}
