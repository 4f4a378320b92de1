/** Exactness of the two roundings that enter the recalculated measurements. */
module Measurement {
  import opened Wrappers
  import opened Decimals

  const MAX_NANOSECONDS: nat := 0x7FFF_FFFF_FFFF_FFFF
  const NANOSECONDS_PER_SECOND: nat := 1_000_000_000

  datatype TimingError = InvalidOperation | OutOfRange

  /** A ratio rendered with six places: a division at working precision, then quantize. */
  function DecimalRatio(n: nat, d: nat): Option<Dec>
    requires d > 0
  {
    var prec := Max(50, Digits(n) + Digits(d) + 20);
    Quantize(Divide(n, d, prec), -6, prec)
  }

  /** The two roundings act as one exact half-even rounding of n/d at six places. */
  lemma RatioIsExactlyRounded(n: nat, d: nat)
    requires d > 0
    ensures DecimalRatio(n, d) == Some(Dec(HalfEven(Shifted(n, 6), d), -6))
  {
    RatioAtPlaces(n, d, 6, Max(50, Digits(n) + Digits(d) + 20));
  }

  lemma RatioAtPlaces(n: nat, d: nat, places: nat, prec: nat)
    requires d > 0 && prec >= Digits(n) + places + 2
    ensures Quantize(Divide(n, d, prec), 0 - places, prec) == Some(Dec(HalfEven(Shifted(n, places), d), 0 - places))
  {
    hide HalfEven, QuotientShift, Pow10, Digits, Shifted;
    var s := QuotientShift(n, d, prec);
    RoundTwiceOrOnce(n, d, s, places);
    ShiftedDigits(n, places);
    DigitsMonotone(HalfEven(Shifted(n, places), d), Shifted(n, places));
    assert -(places - s) == s - places;
  }

  /** Rounding at s places and then at fewer equals rounding once, when 10^(s-places) exceeds d. */
  lemma RoundTwiceOrOnce(n: nat, d: nat, s: nat, places: nat)
    requires d > 0 && s >= Digits(d) + places + 1
    ensures HalfEven(HalfEven(Shifted(n, s), d), Pow10(s - places)) == HalfEven(Shifted(n, places), d)
  {
    hide *;
    LargeShift(d, s - places);
    ShiftedTwice(n, places, s - places);
    ShiftedIsProduct(Shifted(n, places), s - places);
    RoundTwice(Shifted(n, places), d, Pow10(s - places), Shifted(n, s));
  }

  lemma LargeShift(d: nat, k: nat)
    requires k >= Digits(d) + 1
    ensures Pow10(k) > d && Pow10(k) % 2 == 0
  {
    hide Digits, Pow10;
    Pow10Monotone(Digits(d), k - 1);
    PowIsEven(k);
  }

  lemma PowIsEven(k: nat)
    requires k >= 1
    ensures Pow10(k) % 2 == 0 && Pow10(k) == 10 * Pow10(k - 1)
  {
    NextPow(k);
    hide *;
    assert 10 * Pow10(k - 1) == 2 * (5 * Pow10(k - 1));
  }

  lemma NextPow(k: nat)
    requires k >= 1
    ensures Pow10(k) == 10 * Pow10(k - 1)
  {
    TenTimes(1, k - 1);
    hide Shifted;
  }

  lemma RoundTwice(N: nat, d: nat, u: nat, M: nat)
    requires d > 0 && u > d && u % 2 == 0 && M == N * u
    ensures HalfEven(HalfEven(M, d), u) == HalfEven(N, d)
  {
    hide HalfEven;
    var q, c := HalfEven(N, d), HalfEven(M, d);
    HalfEvenNearest(N, d);
    HalfEvenNearest(M, d);
    NoDoubleRounding(N, d, u, q, c);
    HalfEvenNearest(c, u);
    NearestUnique(c, u, q, HalfEven(c, u));
  }

  /** c is N*u/d rounded, with u even and finer than d: rounding c at u gives N/d rounded. */
  lemma NoDoubleRounding(N: nat, d: nat, u: nat, q: nat, c: nat)
    requires d > 0 && u > d && u % 2 == 0
    requires NearestOrEven(N - q * d, d, q)
    requires NearestOrEven(N * u - c * d, d, c)
    ensures NearestOrEven(c - q * u, u, q)
  {
    var e, f, g := N - q * d, N * u - c * d, c - q * u;
    assert g * d == e * u - f by {
      Distribute(g, q * u, d);
      Distribute(e, q * d, u);
      Swap(q, u, d);
    }
    if 2 * Abs(e) == d {
      TieStaysATie(e, d, u, f, g);
    } else {
      NonTieStaysClose(e, d, u, f, g);
    }
  }

  lemma NonTieStaysClose(e: int, d: nat, u: nat, f: int, g: int)
    requires 0 < d < u && 2 * Abs(e) < d && 2 * Abs(f) <= d && g * d == e * u - f
    ensures 2 * Abs(g) < u
  {
    StrictlyScaled(e, d, u);
    StrictlyScaled(-e, d, u);
    assert (-e) * u == -(e * u) && (-g) * d == -(g * d);
    if 2 * g >= u {
      DoubledProduct(u, g, d);
    } else if 2 * g <= 0 - u {
      DoubledProduct(u, -g, d);
    }
  }

  lemma StrictlyScaled(e: int, d: int, u: nat)
    requires 2 * e < d
    ensures 2 * (e * u) <= d * u - u
  {
    MulMonotone(2 * e, d - 1, u);
  }

  lemma DoubledProduct(u: int, g: int, d: nat)
    requires u <= 2 * g
    ensures d * u <= 2 * (g * d)
  {
    MulMonotone(u, 2 * g, d);
  }

  lemma TieStaysATie(e: int, d: nat, u: nat, f: int, g: int)
    requires 0 < d < u && u % 2 == 0 && 2 * Abs(e) == d && 2 * Abs(f) <= d && g * d == e * u - f
    ensures 2 * Abs(g) == u
  {
    var h := u / 2;
    var m := if e >= 0 then h else 0 - h;
    HalfProduct(e, d, u, h, m);
    Distribute(m, g - m, d);
    if g > m {
      MulMonotone(1, g - m, d);
    } else if g < m {
      MulMonotone(g - m, -1, d);
    }
  }

  lemma HalfProduct(e: int, d: int, u: int, h: int, m: int)
    requires u == 2 * h && ((d == 2 * e && m == h) || (d == -2 * e && m == -h))
    ensures e * u == m * d
  {
  }

  /** Native seconds to integer nanoseconds. */
  function SecondsToNs(x: Dec): Result<nat, TimingError> {
    var prec := Max(50, Digits(x.coeff) + Abs(x.Adjusted()) + 20);
    match Quantize(Multiply(x, NANOSECONDS_PER_SECOND, prec), 0, prec)
    case None => Err(InvalidOperation)
    case Some(ns) => if ns.coeff > MAX_NANOSECONDS then Err(OutOfRange) else Ok(ns.coeff)
  }

  /** The number of nanoseconds, rounded once: coeff * 10^9 * 10^exp. */
  function ExactNs(x: Dec): (ns: int)
    ensures ns >= 0
  {
    Rescaled(x.coeff * NANOSECONDS_PER_SECOND, x.exp)
  }

  /** The working precision always suffices, so only the range check can fail. */
  lemma SecondsAreExactlyRounded(x: Dec)
    ensures SecondsToNs(x) == if ExactNs(x) > MAX_NANOSECONDS then Err(OutOfRange) else Ok(ExactNs(x))
  {
    hide HalfEven, Pow10, Digits;
    var c := x.coeff * NANOSECONDS_PER_SECOND;
    assert Digits(c) <= Digits(x.coeff) + 9 by {
      ShiftedTimes(x.coeff, 1, 9);
      ShiftedDigits(x.coeff, 9);
    }
    if x.exp >= 0 {
      ShiftedDigits(c, x.exp);
    } else {
      DigitsMonotone(HalfEven(c, Pow10(-x.exp)), c);
    }
  }

  /** Whole seconds are so many thousand million nanoseconds; whole nanoseconds are themselves, and
      in range up to the largest 64-bit integer. */
  lemma SecondsKeepUnits(n: nat)
    ensures ExactNs(Dec(n, 0)) == 1_000_000_000 * n && ExactNs(Dec(n, -9)) == n
    ensures SecondsToNs(Dec(n, -9)) == if n > 9_223_372_036_854_775_807 then Err(OutOfRange) else Ok(n)
  {
    assert ExactNs(Dec(n, 0)) == 1_000_000_000 * n;
    assert ExactNs(Dec(n, -9)) == n by {
      Thousands();
      ShiftedIsProduct(n, 9);
      RoundAway(n, 1, 9);
      HalfEvenOne(n);
      hide HalfEven, Shifted;
    }
    hide ExactNs, SecondsToNs;
    SecondsAreExactlyRounded(Dec(n, -9));
  }

  lemma Thousands()
    ensures Pow10(9) == 1_000_000_000
  {
    assert Pow10(3) == 1_000;
    assert Pow10(6) == 1_000_000;
  }

  /** A later instant never converts to fewer nanoseconds. */
  lemma SecondsMonotone(x: Dec, y: Dec)
    requires DecLeq(x, y)
    ensures ExactNs(x) <= ExactNs(y)
  {
    hide HalfEven, Pow10, Shifted;
    var e := Min(x.exp, y.exp);
    NsAt(x, e);
    NsAt(y, e);
    var a, b := x.At(e) * NANOSECONDS_PER_SECOND, y.At(e) * NANOSECONDS_PER_SECOND;
    if e >= 0 {
      ShiftedOrder(a, b, e);
    } else {
      HalfEvenMonotone(a, b, Pow10(-e));
    }
  }

  /** The conversion read at a smaller exponent. */
  lemma NsAt(x: Dec, e: int)
    requires e <= x.exp
    ensures ExactNs(x) == Rescaled(x.At(e) * NANOSECONDS_PER_SECOND, e)
  {
    hide HalfEven, Pow10, Shifted, Rescaled;
    RescaledPadding(x.coeff * NANOSECONDS_PER_SECOND, x.exp - e, x.exp);
    ShiftedTimes(NANOSECONDS_PER_SECOND, x.coeff, x.exp - e);
  }
}
