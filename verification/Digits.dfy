/**
 Decimal digits against bits: the estimate `bit_length * 30104 // 100000 + 2` is never too small.
 */
module DecimalDigits {
  import opened Common
  import opened Json

  function BitLength(n: nat): nat { if n == 0 then 0 else 1 + BitLength(n / 2) }

  function Abs(n: int): nat { if n < 0 then -n else n }

  /** The charge for an integer: its digits and a possible minus sign. */
  function DigitCharge(n: int): nat { Max(1, BitLength(Abs(n)) * 30104 / 100000 + 2) }

  function Pow(b: nat, e: nat): nat { if e == 0 then 1 else b * Pow(b, e - 1) }

  lemma {:induction false} PowAdd(b: nat, m: nat, n: nat)
    ensures Pow(b, m + n) == Pow(b, m) * Pow(b, n)
  {
    if m > 0 {
      PowAdd(b, m - 1, n);
      assert b * (Pow(b, m - 1) * Pow(b, n)) == (b * Pow(b, m - 1)) * Pow(b, n);
    }
  }

  lemma {:induction false} PowMul(b: nat, m: nat, n: nat)
    ensures Pow(Pow(b, m), n) == Pow(b, m * n)
  {
    if n == 0 {
      assert m * n == 0;
    } else {
      PowMul(b, m, n - 1);
      assert m * n == m + m * (n - 1);
      PowAdd(b, m, m * (n - 1));
    }
  }

  lemma Product(a: nat, b: nat, c: nat, d: nat)
    requires a <= c && b <= d
    ensures a * b <= c * d
  {
    assert a * b <= a * d <= c * d;
  }

  lemma {:induction false} PowMonotone(a: nat, b: nat, e: nat)
    requires a <= b
    ensures Pow(a, e) <= Pow(b, e)
  {
    if e > 0 {
      PowMonotone(a, b, e - 1);
      Product(a, Pow(a, e - 1), b, Pow(b, e - 1));
    }
  }

  lemma {:induction false} PowPositive(b: nat, e: nat)
    requires b >= 1
    ensures Pow(b, e) >= 1
  {
    if e > 0 {
      PowPositive(b, e - 1);
      Product(1, 1, b, Pow(b, e - 1));
    }
  }

  lemma {:induction false} PowStrict(a: nat, b: nat, e: nat)
    requires a < b && e >= 1
    ensures Pow(a, e) < Pow(b, e)
  {
    PowPositive(b, e - 1);
    PowMonotone(a, b, e - 1);
    Product(a, Pow(a, e - 1), a, Pow(b, e - 1));
    assert (b - a) * Pow(b, e - 1) >= 1 by { Product(1, 1, b - a, Pow(b, e - 1)); }
    assert b * Pow(b, e - 1) == a * Pow(b, e - 1) + (b - a) * Pow(b, e - 1);
  }

  lemma PowIncreasing(b: nat, m: nat, n: nat)
    requires b >= 1 && m <= n
    ensures Pow(b, m) <= Pow(b, n)
  {
    PowAdd(b, m, n - m);
    PowPositive(b, n - m);
    Product(Pow(b, m), 1, Pow(b, m), Pow(b, n - m));
  }

  lemma PowStep(b: nat, m: nat, n: nat, x: nat, y: nat)
    requires Pow(b, m) == x && Pow(b, n) == y
    ensures Pow(b, m + n) == x * y
  {
    PowAdd(b, m, n);
  }

  lemma TwoTo289()
    ensures Pow(2, 289) == 994646472819573284310764496293641680200912301594695434880927953786318994025066751066112
  {
    hide Pow;
    SmallPowers();
    PowStep(2, 8, 8, 256, 256);
    PowStep(2, 16, 16, 65536, 65536);
    PowStep(2, 32, 32, 4294967296, 4294967296);
    PowStep(2, 64, 64, 18446744073709551616, 18446744073709551616);
    PowStep(2, 128, 128, 340282366920938463463374607431768211456, 340282366920938463463374607431768211456);
    PowStep(2, 256, 32, 115792089237316195423570985008687907853269984665640564039457584007913129639936, 4294967296);
    PowStep(2, 288, 1, 497323236409786642155382248146820840100456150797347717440463976893159497012533375533056, 2);
  }

  lemma TenTo87()
    ensures Pow(10, 87) == 1000000000000000000000000000000000000000000000000000000000000000000000000000000000000000
  {
    hide Pow;
    SmallPowers();
    PowStep(10, 7, 7, 10000000, 10000000);
    PowStep(10, 14, 14, 100000000000000, 100000000000000);
    PowStep(10, 28, 28, 10000000000000000000000000000, 10000000000000000000000000000);
    PowStep(10, 56, 28, 100000000000000000000000000000000000000000000000000000000, 10000000000000000000000000000);
    PowStep(10, 84, 3, 1000000000000000000000000000000000000000000000000000000000000000000000000000000000000, 1000);
  }

  lemma SmallPowers()
    ensures Pow(2, 1) == 2 && Pow(2, 8) == 256 && Pow(10, 3) == 1000 && Pow(10, 7) == 10000000
  {
  }

  /** 87/289 is just above log10(2). */
  lemma Pivot()
    ensures Pow(2, 289) <= Pow(10, 87)
  {
    hide Pow;
    TwoTo289();
    TenTo87();
  }

  /** A number of `b` bits is below ten to the estimate, for every `b`. */
  lemma BitsBelowDigits(b: nat)
    ensures Pow(2, b) <= Pow(10, b * 30104 / 100000 + 1)
  {
    var k := b * 30104 / 100000 + 1;
    if Pow(10, k) < Pow(2, b) {
      PowStrict(Pow(10, k), Pow(2, b), 289);
      Pivot();
      PowMonotone(Pow(2, 289), Pow(10, 87), b);
      PowMul(2, b, 289);
      PowMul(2, 289, b);
      PowMul(10, 87, b);
      PowMul(10, k, 289);
      assert b * 289 == 289 * b;
      PowIncreasing(10, 87 * b, k * 289);
    }
  }

  lemma {:induction false} BitLengthBounds(n: nat)
    ensures n < Pow(2, BitLength(n))
  {
    if n > 0 {
      BitLengthBounds(n / 2);
    }
  }

  lemma {:induction false} DigitsBounded(n: nat, k: nat)
    requires k >= 1 && n < Pow(10, k)
    ensures |Digits(n)| <= k
  {
    if n >= 10 {
      assert Pow(10, 1) == 10;
      assert k > 1;
      assert n / 10 < Pow(10, k - 1);
      DigitsBounded(n / 10, k - 1);
    }
  }

  // ----- Python's limit on integer text --------------------------------------------------

  /** CPython refuses to write an integer of more decimal digits than its limit; the sign does not
      count, and a limit of zero means none. */
  predicate Writable(n: int, digitLimit: nat) { digitLimit == 0 || |Digits(Abs(n))| <= digitLimit }

  lemma {:induction false} DigitsReach(n: nat)
    ensures n < Pow(10, |Digits(n)|)
  {
    if n < 10 {
      assert Pow(10, 1) == 10;
    } else {
      DigitsReach(n / 10);
    }
  }

  /** The integers that can be written under a limit are those below its power of ten; without one, all. */
  lemma WritableDecides(n: int, digitLimit: nat)
    ensures Writable(n, digitLimit) <==> digitLimit == 0 || (if n < 0 then -n else n) < Pow(10, digitLimit)
  {
    var m: nat := if n < 0 then -n else n;
    if digitLimit > 0 {
      DigitsReach(m);
      if |Digits(m)| <= digitLimit {
        PowIncreasing(10, |Digits(m)|, digitLimit);
      }
      if m < Pow(10, digitLimit) {
        DigitsBounded(m, digitLimit);
      }
    }
  }

  /** The charge for zero is two, and for each three bits more at most one more. */
  lemma DigitChargeIsModest(n: int)
    ensures 2 <= DigitCharge(n) <= 2 + BitLength(Abs(n)) / 3
  {
  }

  lemma {:induction false} PowerOfTenDigits(k: nat)
    ensures |Digits(Pow(10, k))| == k + 1
  {
    if k > 0 {
      PowPositive(10, k - 1);
      assert Pow(10, k) / 10 == Pow(10, k - 1);
      PowerOfTenDigits(k - 1);
    }
  }

  lemma {:induction false} BitLengthFits(n: nat, b: nat)
    requires n < Pow(2, b)
    ensures BitLength(n) <= b
  {
    if n > 0 {
      assert b > 0 && n / 2 < Pow(2, b - 1);
      BitLengthFits(n / 2, b - 1);
    }
  }

  /** Four bits and a third of one, at most, for a digit. */
  lemma PowerOfTenBits(k: nat)
    ensures BitLength(Pow(10, k)) <= 4 * k + 1
  {
    PowMonotone(10, 16, k);
    assert Pow(2, 4) == 16;
    PowMul(2, 4, k);
    PowPositive(2, 4 * k);
    BitLengthFits(Pow(10, k), 4 * k + 1);
  }

  /** The charge covers the text of every integer, signs included. */
  lemma DigitChargeSuffices(n: int)
    ensures |IntText(n)| <= DigitCharge(n)
  {
    var b := BitLength(Abs(n));
    BitLengthBounds(Abs(n));
    BitsBelowDigits(b);
    DigitsBounded(Abs(n), b * 30104 / 100000 + 1);
  }
}
