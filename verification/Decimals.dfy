/** Decimal arithmetic as the measurement code uses it: coefficients times powers of ten,
    a context precision that rounds products and quotients, and `quantize`. */
module Decimals {
  import opened Wrappers

  /** n followed by k zeros. */
  function Shifted(n: nat, k: nat): (r: nat)
    ensures n <= r
  {
    if k == 0 then n else 10 * Shifted(n, k - 1)
  }

  function Pow10(k: nat): (p: nat)
    ensures p >= 1
  {
    Shifted(1, k)
  }

  lemma {:induction false} ShiftedTwice(n: nat, a: nat, b: nat)
    ensures Shifted(Shifted(n, a), b) == Shifted(n, a + b)
  {
    if b > 0 {
      ShiftedTwice(n, a, b - 1);
    }
  }

  lemma {:induction false} ShiftedOrder(m: nat, n: nat, k: nat)
    ensures m <= n <==> Shifted(m, k) <= Shifted(n, k)
  {
    if k > 0 {
      ShiftedOrder(m, n, k - 1);
    }
  }

  lemma {:induction false} ShiftedTimes(n: nat, c: nat, k: nat)
    ensures Shifted(n * c, k) == n * Shifted(c, k)
  {
    if k > 0 {
      ShiftedTimes(n, c, k - 1);
      Swap(10, Shifted(c, k - 1), n);
    }
  }

  lemma ShiftedIsProduct(n: nat, k: nat)
    ensures Shifted(n, k) == n * Pow10(k)
  {
    ShiftedTimes(n, 1, k);
  }

  lemma Pow10Monotone(a: nat, b: nat)
    requires a <= b
    ensures Pow10(a) <= Pow10(b)
  {
    ShiftedTwice(1, a, b - a);
  }

  lemma MulMonotone(x: int, y: int, z: int)
    requires x <= y && z >= 0
    ensures x * z <= y * z && z * x <= z * y
  {
  }

  lemma Distribute(x: int, y: int, z: int)
    ensures (x + y) * z == x * z + y * z
  {
  }

  lemma MulStrict(x: int, y: int, z: int)
    requires x < y && z > 0
    ensures x * z < y * z
  {
  }

  lemma Swap(x: int, y: int, z: int)
    ensures (x * y) * z == (x * z) * y
  {
  }

  /** Length of the decimal numeral of n. */
  function Digits(n: nat): (d: nat)
    ensures d >= 1 && n < Pow10(d)
    ensures n > 0 ==> Pow10(d - 1) <= n
  {
    if n < 10 then 1 else 1 + Digits(n / 10)
  }

  lemma {:induction false} DigitsAtMost(n: nat, k: nat)
    requires k >= 1 && n < Pow10(k)
    ensures Digits(n) <= k
  {
    if n >= 10 {
      DigitsAtMost(n / 10, k - 1);
    }
  }

  lemma DigitsMonotone(a: nat, b: nat)
    requires a <= b
    ensures Digits(a) <= Digits(b)
  {
    DigitsAtMost(a, Digits(b));
  }

  /** A numeral of a digits followed by s zeros has a + s digits. */
  lemma ShiftedDigits(n: nat, s: nat)
    ensures Shifted(n, s) < Pow10(Digits(n) + s) && Digits(Shifted(n, s)) <= Digits(n) + s
    ensures n > 0 ==> Pow10(Digits(n) + s - 1) <= Shifted(n, s)
  {
    hide *;
    var a := Digits(n);
    ShiftedUnder(n, a, s);
    if n > 0 {
      ShiftedOver(n, a - 1, s);
    }
    DigitsAtMost(Shifted(n, s), a + s);
  }

  lemma ShiftedUnder(n: nat, a: nat, s: nat)
    requires n < Pow10(a)
    ensures Shifted(n, s) < Pow10(a + s)
  {
    hide Shifted;
    ShiftedOrder(Pow10(a), n, s);
    ShiftedTwice(1, a, s);
  }

  lemma ShiftedOver(n: nat, a: nat, s: nat)
    requires Pow10(a) <= n
    ensures Pow10(a + s) <= Shifted(n, s)
  {
    hide Shifted;
    ShiftedOrder(Pow10(a), n, s);
    ShiftedTwice(1, a, s);
  }

  /******* Ties-to-even *******/

  /** Integer nearest to n/d; on a tie the even one. Whole pairs of units are taken off first,
      which leaves the parity of the answer alone. */
  function HalfEven(n: nat, d: nat): (q: nat)
    requires d > 0
    ensures q <= n
  {
    if n >= 2 * d then 2 + HalfEven(n - 2 * d, d)
    else if 2 * n <= d then 0
    else if 2 * n < 3 * d then 1
    else 2
  }

  function Abs(x: int): nat {
    if x < 0 then -x else x
  }

  /** roundTiesToEven of section 4.3.1 of IEEE 754-2008 at integer spacing, for n/d:
      no integer is closer, and the answer is even when another one is as close. */
  ghost predicate RoundsTiesToEven(n: int, d: int, q: int) {
    forall k: int :: Distance(n, d, q) <= Distance(n, d, k)
                     && (k != q && Distance(n, d, q) == Distance(n, d, k) ==> q % 2 == 0)
  }

  /** |n - k*d|: d times the distance between k and n/d. */
  function Distance(n: int, d: int, k: int): nat {
    Abs(n - k * d)
  }

  /** The same condition without a quantifier, on the remainder e = n - q*d. */
  predicate NearestOrEven(e: int, d: int, q: int) {
    0 - d <= 2 * e <= d && (2 * Abs(e) == d ==> q % 2 == 0)
  }

  lemma {:induction false} HalfEvenNearest(n: nat, d: nat)
    requires d > 0
    ensures NearestOrEven(n - HalfEven(n, d) * d, d, HalfEven(n, d))
  {
    if n >= 2 * d {
      var r := HalfEven(n - 2 * d, d);
      HalfEvenNearest(n - 2 * d, d);
      hide HalfEven;
      TwoMore(n, d, r);
      assert HalfEven(n, d) == 2 + r by { HalfEvenOfMore(n, d); }
    } else {
      var q := HalfEven(n, d);
      assert q * d == if q == 0 then 0 else if q == 1 then d else 2 * d;
    }
  }

  lemma HalfEvenOfMore(n: nat, d: nat)
    requires d > 0 && n >= 2 * d
    ensures HalfEven(n, d) == 2 + HalfEven(n - 2 * d, d)
  {
  }

  lemma TwoMore(n: int, d: int, r: int)
    requires NearestOrEven(n - 2 * d - r * d, d, r)
    ensures NearestOrEven(n - (2 + r) * d, d, 2 + r)
  {
    Distribute(2, r, d);
  }

  /** A larger numerator has a larger nearest integer. */
  lemma NearestOrdered(n1: int, n2: int, d: int, p: int, q: int)
    requires d > 0 && n1 <= n2
    requires NearestOrEven(n1 - p * d, d, p) && NearestOrEven(n2 - q * d, d, q)
    ensures p <= q
  {
    var k := p - q;
    var step := k * d;
    assert p * d == q * d + step by { Distribute(q, k, d); }
    assert (k >= 1 ==> step >= d) && (k >= 2 ==> step >= 2 * d) by { Multiples(k, d); }
    Ordered(n1 - p * d, n2 - q * d, d, p, q, step);
  }

  lemma Ordered(e1: int, e2: int, d: int, p: int, q: int, step: int)
    requires d > 0 && NearestOrEven(e1, d, p) && NearestOrEven(e2, d, q)
    requires e1 + step <= e2
    requires (p - q >= 1 ==> step >= d) && (p - q >= 2 ==> step >= 2 * d)
    ensures p <= q
  {
  }

  lemma NearestUnique(n: int, d: int, p: int, q: int)
    requires d > 0
    requires NearestOrEven(n - p * d, d, p) && NearestOrEven(n - q * d, d, q)
    ensures p == q
  {
    NearestOrdered(n, n, d, p, q);
    NearestOrdered(n, n, d, q, p);
  }

  /** HalfEven is exactly roundTiesToEven. */
  lemma HalfEvenIsTiesToEven(n: nat, d: nat, q: int)
    requires d > 0
    ensures q == HalfEven(n, d) <==> RoundsTiesToEven(n, d, q)
  {
    var h := HalfEven(n, d);
    HalfEvenNearest(n, d);
    forall k: int
      ensures Distance(n, d, h) <= Distance(n, d, k)
      ensures k != h && Distance(n, d, h) == Distance(n, d, k) ==> h % 2 == 0
    {
      OtherIntegers(n, d, h, k);
    }
    OtherIntegers(n, d, h, q);
    if RoundsTiesToEven(n, d, q) {
      assert Distance(n, d, q) <= Distance(n, d, h);
    }
  }

  lemma OtherIntegers(n: int, d: int, h: int, k: int)
    requires d > 0 && NearestOrEven(n - h * d, d, h)
    ensures Distance(n, d, h) <= Distance(n, d, k)
    ensures k != h && Distance(n, d, h) == Distance(n, d, k) ==> h % 2 == 0 && Abs(k - h) == 1
  {
    var j := k - h;
    var step := j * d;
    assert k * d == h * d + step by { Distribute(h, j, d); }
    assert (j >= 1 ==> step >= d) && (j >= 2 ==> step >= 2 * d) by { Multiples(j, d); }
    assert (j <= -1 ==> step <= -d) && (j <= -2 ==> step <= -2 * d) by { Multiples(-j, d); assert (-j) * d == -step; }
    StepAway(n - h * d, d, h, j, step);
  }

  lemma Multiples(j: int, d: int)
    requires d > 0
    ensures (j >= 1 ==> j * d >= d) && (j >= 2 ==> j * d >= 2 * d)
  {
  }

  lemma StepAway(e: int, d: int, h: int, j: int, step: int)
    requires d > 0 && NearestOrEven(e, d, h)
    requires j == 0 ==> step == 0
    requires (j >= 1 ==> step >= d) && (j >= 2 ==> step >= 2 * d)
    requires (j <= -1 ==> step <= -d) && (j <= -2 ==> step <= -2 * d)
    ensures Abs(e) <= Abs(e - step)
    ensures j != 0 && Abs(e) == Abs(e - step) ==> h % 2 == 0 && Abs(j) == 1
  {
  }

  lemma HalfEvenScale(n: nat, d: nat, m: nat)
    requires d > 0 && m > 0
    ensures d * m > 0 && n * m >= 0 && HalfEven(n * m, d * m) == HalfEven(n, d)
  {
    hide HalfEven;
    MulMonotone(1, d, m);
    MulMonotone(0, n, m);
    var q := HalfEven(n, d);
    HalfEvenNearest(n, d);
    ScaledRemainder(n, d, q, m);
    HalfEvenNearest(n * m, d * m);
    NearestUnique(n * m, d * m, q, HalfEven(n * m, d * m));
  }

  lemma ScaledRemainder(n: int, d: int, q: int, m: int)
    requires m > 0 && NearestOrEven(n - q * d, d, q)
    ensures NearestOrEven(n * m - q * (d * m), d * m, q)
  {
    var e := n - q * d;
    assert q * (d * m) == (q * d) * m;
    Distribute(e, q * d, m);
    assert n * m - q * (d * m) == e * m;
    ScaledBounds(e, d, m);
  }

  lemma ScaledBounds(e: int, d: int, m: int)
    requires m > 0 && 0 - d <= 2 * e <= d
    ensures 0 - d * m <= 2 * (e * m) <= d * m
    ensures 2 * Abs(e * m) == d * m ==> 2 * Abs(e) == d
  {
    Distribute(e, e, m);
    Distribute(d, -d, m);
    MulMonotone(0 - d, 2 * e, m);
    MulMonotone(2 * e, d, m);
    if 2 * e < d { MulStrict(2 * e, d, m); }
    if 0 - d < 2 * e { MulStrict(0 - d, 2 * e, m); }
  }

  /** Rounding keeps order. */
  lemma HalfEvenMonotone(m: nat, n: nat, d: nat)
    requires d > 0 && m <= n
    ensures HalfEven(m, d) <= HalfEven(n, d)
  {
    hide HalfEven;
    HalfEvenNearest(m, d);
    HalfEvenNearest(n, d);
    NearestOrdered(m, n, d, HalfEven(m, d), HalfEven(n, d));
  }

  /******* Decimals *******/

  /** A non-negative decimal: coeff * 10^exp. */
  datatype Dec = Dec(coeff: nat, exp: int) {
    /** Position of the leading digit. */
    function Adjusted(): int { exp + Digits(coeff) - 1 }
    /** The coefficient the same number has at a smaller exponent. */
    function At(e: int): nat
      requires e <= exp
    {
      Shifted(coeff, exp - e)
    }
  }

  function Min(a: int, b: int): int {
    if a <= b then a else b
  }

  /** Numeric order, read at the smaller exponent. */
  predicate DecLeq(x: Dec, y: Dec) {
    var e := Min(x.exp, y.exp);
    x.At(e) <= y.At(e)
  }

  /** Any common exponent gives the same comparison. */
  lemma OrderAt(x: Dec, y: Dec, e: int)
    requires e <= x.exp && e <= y.exp
    ensures DecLeq(x, y) <==> x.At(e) <= y.At(e)
  {
    var m := Min(x.exp, y.exp);
    ShiftedTwice(x.coeff, x.exp - m, m - e);
    ShiftedTwice(y.coeff, y.exp - m, m - e);
    ShiftedOrder(x.At(m), y.At(m), m - e);
  }

  lemma DecLeqTransitive(x: Dec, y: Dec, z: Dec)
    requires DecLeq(x, y) && DecLeq(y, z)
    ensures DecLeq(x, z)
  {
    var e := Min(x.exp, Min(y.exp, z.exp));
    OrderAt(x, y, e);
    OrderAt(y, z, e);
    OrderAt(x, z, e);
  }

  /** A context keeps at most prec digits of a result, rounding half-even. */
  function RoundToPrecision(x: Dec, prec: nat): Dec
    requires prec >= 1
  {
    var k := Digits(x.coeff) - prec;
    if k <= 0 then x
    else
      var c := HalfEven(x.coeff, Pow10(k));
      if c == Pow10(prec) then Dec(Pow10(prec - 1), x.exp + k + 1) else Dec(c, x.exp + k)
  }

  /** x times a positive integer. */
  function Multiply(x: Dec, factor: nat, prec: nat): Dec
    requires prec >= 1
  {
    RoundToPrecision(Dec(x.coeff * factor, x.exp), prec)
  }

  /** x - y for y <= x. */
  function Subtract(x: Dec, y: Dec, prec: nat): Dec
    requires prec >= 1
  {
    var e := Min(x.exp, y.exp);
    RoundToPrecision(Dec(Abs(x.At(e) - y.At(e)), e), prec)
  }

  function Max(a: int, b: int): int {
    if a >= b then a else b
  }

  /** Digits that do not fit are rounded away, ties to even; the result has no more than prec
      digits, and just that many when any were. */
  lemma RoundToPrecisionIsTiesToEven(x: Dec, prec: nat)
    requires prec >= 1
    ensures var r, k := RoundToPrecision(x, prec), Max(0, Digits(x.coeff) - prec);
            && r.exp >= x.exp + k && RoundsTiesToEven(x.coeff, Pow10(k), r.At(x.exp + k))
            && Digits(r.coeff) <= prec && (k > 0 ==> Pow10(prec - 1) <= r.coeff) && (k == 0 ==> r == x)
  {
    hide Shifted, Digits, HalfEven, RoundsTiesToEven;
    var k := Max(0, Digits(x.coeff) - prec);
    FewZeros(1);
    if k == 0 {
      HalfEvenOne(x.coeff);
      FewZeros(x.coeff);
    } else {
      RoundedLength(x.coeff, k, prec);
      FewZeros(HalfEven(x.coeff, Pow10(k)));
      FewZeros(Pow10(prec - 1));
      TenTimes(1, prec - 1);
      DigitsAtMost(Pow10(prec - 1), prec);
    }
    HalfEvenIsTiesToEven(x.coeff, Pow10(k), HalfEven(x.coeff, Pow10(k)));
  }

  lemma FewZeros(n: nat)
    ensures Shifted(n, 0) == n && Shifted(n, 1) == 10 * n
  {
  }

  /** Dropping k of prec + k digits leaves prec, or the next power of ten. */
  lemma RoundedLength(c: nat, k: nat, prec: nat)
    requires prec >= 1 && k >= 1 && Digits(c) == prec + k
    ensures Pow10(prec - 1) <= HalfEven(c, Pow10(k)) <= Pow10(prec)
    ensures HalfEven(c, Pow10(k)) < Pow10(prec) ==> Digits(HalfEven(c, Pow10(k))) <= prec
  {
    hide *;
    MoreDigitsThanOne(c);
    assert prec - 1 + k == Digits(c) - 1;
    RoundedPower(prec - 1, k);
    RoundedPower(prec, k);
    HalfEvenMonotone(Pow10(prec - 1 + k), c, Pow10(k));
    HalfEvenMonotone(c, Pow10(prec + k), Pow10(k));
    if HalfEven(c, Pow10(k)) < Pow10(prec) {
      DigitsAtMost(HalfEven(c, Pow10(k)), prec);
    }
  }

  lemma MoreDigitsThanOne(c: nat)
    ensures Digits(c) >= 2 ==> c > 0
  {
  }

  lemma RoundedPower(n: nat, k: nat)
    ensures HalfEven(Pow10(n + k), Pow10(k)) == Pow10(n)
  {
    hide HalfEven, Shifted;
    ShiftedTwice(1, n, k);
    RoundAway(Pow10(n), 1, k);
    HalfEvenOne(Pow10(n));
  }

  /** The difference is exact when it fits the context, and otherwise the nearest decimal of prec
      digits, ties to even. */
  lemma SubtractIsTiesToEven(x: Dec, y: Dec, prec: nat)
    requires prec >= 1 && DecLeq(y, x)
    ensures var e := Min(x.exp, y.exp);
            var r, d := Subtract(x, y, prec), x.At(e) - y.At(e);
            && d >= 0
            && (Digits(d) <= prec ==> r.exp == e && r.coeff + y.At(e) == x.At(e))
            && var k := Max(0, Digits(d) - prec);
               r.exp >= e + k && RoundsTiesToEven(d, Pow10(k), r.At(e + k)) && Digits(r.coeff) <= prec
  {
    hide Digits, RoundsTiesToEven, RoundToPrecision, Shifted;
    var e := Min(x.exp, y.exp);
    OrderAt(y, x, e);
    RoundToPrecisionIsTiesToEven(Dec(x.At(e) - y.At(e), e), prec);
  }

  /** What is left of an integer of which only prec digits are kept. */
  function Kept(n: nat, prec: nat): nat {
    var k := Max(0, Digits(n) - prec);
    Shifted(HalfEven(n, Pow10(k)), k)
  }

  /** Rounding to a precision depends on the number, not on its trailing zeros. */
  lemma RoundedAt(x: Dec, prec: nat, e: int)
    requires prec >= 1 && e <= x.exp
    ensures RoundToPrecision(x, prec).exp >= x.exp && RoundToPrecision(x, prec).At(e) == Kept(x.At(e), prec)
  {
    hide Shifted, Digits, HalfEven, RoundsTiesToEven;
    var r, z, k := RoundToPrecision(x, prec), x.exp - e, Max(0, Digits(x.coeff) - prec);
    RoundToPrecisionIsTiesToEven(x, prec);
    if k == 0 {
      KeptWhole(x.coeff, z, prec);
    } else {
      HalfEvenIsTiesToEven(x.coeff, Pow10(k), r.At(x.exp + k));
      KeptDigits(x.coeff, z, k, prec);
      ShiftedTwice(r.coeff, r.exp - (x.exp + k), k + z);
    }
  }

  lemma KeptWhole(c: nat, z: nat, prec: nat)
    requires Digits(c) <= prec
    ensures Kept(Shifted(c, z), prec) == Shifted(c, z)
  {
    hide Shifted, Digits, HalfEven;
    var n := Shifted(c, z);
    var k := Max(0, Digits(n) - prec);
    ShiftedDigits(c, z);
    ShiftedTwice(c, z - k, k);
    RoundAway(Shifted(c, z - k), 1, k);
    HalfEvenOne(Shifted(c, z - k));
  }

  lemma KeptDigits(c: nat, z: nat, k: nat, prec: nat)
    requires k >= 1 && prec >= 1 && Digits(c) == prec + k
    ensures Kept(Shifted(c, z), prec) == Shifted(HalfEven(c, Pow10(k)), k + z)
  {
    hide Shifted, HalfEven;
    MoreDigitsThanOne(c);
    ExactDigits(c, z);
    hide Digits;
    ShiftedTwice(1, k, z);
    RoundAway(c, Pow10(k), z);
  }

  lemma ExactDigits(c: nat, z: nat)
    requires c > 0
    ensures Digits(Shifted(c, z)) == Digits(c) + z
  {
    hide *;
    ShiftedDigits(c, z);
    if Digits(Shifted(c, z)) < Digits(c) + z {
      FitsDigits(Shifted(c, z));
      Pow10Monotone(Digits(Shifted(c, z)), Digits(c) + z - 1);
    }
  }

  lemma FitsDigits(n: nat)
    ensures n < Pow10(Digits(n))
  {
  }

  lemma KeptMonotone(m: nat, n: nat, prec: nat)
    requires prec >= 1 && m <= n
    ensures Kept(m, prec) <= Kept(n, prec)
  {
    hide Shifted, Digits, HalfEven;
    DigitsMonotone(m, n);
    var j, k := Max(0, Digits(m) - prec), Max(0, Digits(n) - prec);
    if j == k {
      HalfEvenMonotone(m, n, Pow10(k));
      ShiftedOrder(HalfEven(m, Pow10(k)), HalfEven(n, Pow10(k)), k);
    } else {
      KeptUnder(m, j, prec);
      RoundedLength(n, k, prec);
      ShiftedOver(HalfEven(n, Pow10(k)), prec - 1, k);
      Pow10Monotone(prec + j, prec - 1 + k);
    }
  }

  lemma KeptUnder(m: nat, j: nat, prec: nat)
    requires prec >= 1 && j == Max(0, Digits(m) - prec)
    ensures Kept(m, prec) <= Pow10(prec + j)
  {
    hide Shifted, Digits, HalfEven;
    if j == 0 {
      FitsDigits(m);
      Pow10Monotone(Digits(m), prec);
      KeptWhole(m, 0, prec);
      FewZeros(m);
    } else {
      RoundedLength(m, j, prec);
      ShiftedOrder(HalfEven(m, Pow10(j)), Pow10(prec), j);
      ShiftedTwice(1, prec, j);
    }
  }

  lemma ShiftedDifference(a: nat, b: nat, k: nat)
    requires b <= a
    ensures Shifted(a - b, k) == Shifted(a, k) - Shifted(b, k)
  {
    ShiftedIsProduct(a - b, k);
    ShiftedIsProduct(a, k);
    ShiftedIsProduct(b, k);
    Distribute(a - b, b, Pow10(k));
  }

  /** Subtracting from more leaves no less, however the two differences are rounded. */
  lemma SubtractMonotone(x: Dec, y: Dec, z: Dec, prec: nat)
    requires prec >= 1 && DecLeq(z, x) && DecLeq(x, y)
    ensures DecLeq(Subtract(x, z, prec), Subtract(y, z, prec))
  {
    hide Shifted, RoundToPrecision, Digits;
    var e := Min(Min(x.exp, y.exp), z.exp);
    DecLeqTransitive(z, x, y);
    DifferenceAt(x, z, e, prec);
    DifferenceAt(y, z, e, prec);
    OrderAt(x, y, e);
    KeptMonotone(x.At(e) - z.At(e), y.At(e) - z.At(e), prec);
    OrderAt(Subtract(x, z, prec), Subtract(y, z, prec), e);
  }

  lemma DifferenceAt(x: Dec, z: Dec, e: int, prec: nat)
    requires prec >= 1 && DecLeq(z, x) && e <= x.exp && e <= z.exp
    ensures x.At(e) >= z.At(e) && Subtract(x, z, prec).exp >= e
    ensures Subtract(x, z, prec).At(e) == Kept(x.At(e) - z.At(e), prec)
  {
    hide Shifted, RoundToPrecision, Kept;
    var m := Min(x.exp, z.exp);
    OrderAt(z, x, e);
    OrderAt(z, x, m);
    ShiftedTwice(x.coeff, x.exp - m, m - e);
    ShiftedTwice(z.coeff, z.exp - m, m - e);
    ShiftedDifference(x.At(m), z.At(m), m - e);
    RoundedAt(Dec(x.At(m) - z.At(m), m), prec, e);
  }

  /** The quotient of two integers to prec significant digits. */
  function Divide(n: nat, d: nat, prec: nat): Dec
    requires d > 0 && prec >= Digits(n)
  {
    var s: int := QuotientShift(n, d, prec);
    Dec(HalfEven(Shifted(n, s), d), 0 - s)
  }

  /** Number of fractional places that leaves prec digits in front of the point. */
  function QuotientShift(n: nat, d: nat, prec: nat): (s: nat)
    requires prec >= Digits(n)
    ensures s >= prec - Digits(n) + Digits(d) - 1
  {
    var s := prec - Digits(n) + Digits(d);
    if Shifted(n, s) < Shifted(d, prec) then s else s - 1
  }

  /** c * 10^shift as an integer, rounded half-even when places are dropped. */
  function Rescaled(c: nat, shift: int): nat {
    if shift >= 0 then Shifted(c, shift) else HalfEven(c, Pow10(-shift))
  }

  /** Rescale to exponent exp; fails when the answer needs more than prec digits. */
  function Quantize(x: Dec, exp: int, prec: nat): Option<Dec> {
    var c := Rescaled(x.coeff, x.exp - exp);
    if Digits(c) > prec then None else Some(Dec(c, exp))
  }

  /** Rescaling rounds to the nearest multiple of the new unit, ties to even, exactly when that has
      no more digits than the context allows. */
  lemma QuantizeIsTiesToEven(x: Dec, exp: int, prec: nat)
    requires prec >= 1
    ensures match Quantize(x, exp, prec)
            case None => Rescaled(x.coeff, x.exp - exp) >= Pow10(prec)
            case Some(r) =>
              && r.exp == exp && r.coeff < Pow10(prec)
              && (if exp <= x.exp then r.coeff == x.At(exp) else RoundsTiesToEven(x.coeff, Pow10(exp - x.exp), r.coeff))
  {
    hide Shifted, HalfEven, RoundsTiesToEven;
    var c := Rescaled(x.coeff, x.exp - exp);
    FitsDigits(c);
    if Digits(c) <= prec {
      Pow10Monotone(Digits(c), prec);
      if exp > x.exp {
        HalfEvenIsTiesToEven(x.coeff, Pow10(exp - x.exp), c);
      }
    } else if c < Pow10(prec) {
      DigitsAtMost(c, prec);
    }
  }

  /** The quotient of a non-zero numerator has exactly prec integer digits at the chosen shift. */
  lemma QuotientHasPrecisionDigits(n: nat, d: nat, prec: nat)
    requires n > 0 && d > 0 && prec >= Digits(n)
    ensures Shifted(d, prec - 1) <= Shifted(n, QuotientShift(n, d, prec)) < Shifted(d, prec)
  {
    hide Shifted, Digits, Pow10;
    var s := prec - Digits(n) + Digits(d);
    ShiftedDigits(n, s);
    ShiftedDigits(d, prec - 1);
    ShiftedDigits(d, prec + 1);
    TenTimes(n, s - 1);
    TenTimes(d, prec - 1);
    TenTimes(d, prec);
  }

  lemma TenTimes(n: nat, k: nat)
    ensures Shifted(n, k + 1) == 10 * Shifted(n, k)
  {
  }

  /** Padding a coefficient with zeros does not change what quantize returns. */
  lemma QuantizeIgnoresRepresentation(x: Dec, e: int, exp: int, prec: nat)
    requires e <= x.exp
    ensures Quantize(Dec(x.At(e), e), exp, prec) == Quantize(x, exp, prec)
  {
    RescaledPadding(x.coeff, x.exp - e, x.exp - exp);
    hide Shifted, Pow10, HalfEven, Digits;
  }

  lemma RescaledPadding(c: nat, k: nat, shift: int)
    ensures Rescaled(Shifted(c, k), shift - k) == Rescaled(c, shift)
  {
    hide Shifted, HalfEven;
    if shift >= k {
      ShiftedTwice(c, k, shift - k);
    } else if shift >= 0 {
      ShiftedTwice(c, shift, k - shift);
      RoundAway(Shifted(c, shift), 1, k - shift);
      assert HalfEven(Shifted(c, shift), 1) == Shifted(c, shift) by { HalfEvenOne(Shifted(c, shift)); }
    } else {
      ShiftedTwice(1, -shift, k);
      RoundAway(c, Pow10(-shift), k);
    }
  }

  /** Zeros appended on both sides cancel. */
  lemma RoundAway(c: nat, d: nat, k: nat)
    requires d > 0
    ensures HalfEven(Shifted(c, k), Shifted(d, k)) == HalfEven(c, d)
  {
    ShiftedIsProduct(c, k);
    ShiftedIsProduct(d, k);
    HalfEvenScale(c, d, Pow10(k));
    hide HalfEven, Shifted;
  }

  lemma {:induction false} HalfEvenOne(n: nat)
    ensures HalfEven(n, 1) == n
  {
    if n >= 2 {
      HalfEvenOne(n - 2);
    }
  }
}
