/** Exact decimal numbers as java.math.BigDecimal represents them (an unscaled
    integer and a scale), and the one BigDecimal operation the price source
    applies to its random draws: setScale(2, RoundingMode.HALF_UP), which
    yields a whole number of cents. */
module BigDecimalRounding {

  /** The value unscaled * 10^-scale. Only non-negative scales are modelled:
      they are the ones a double in the price source's ranges converts to. */
  datatype Decimal = Decimal(unscaled: int, scale: nat)

  function Pow10(k: nat): (p: nat)
    ensures p >= 1
  {
    if k == 0 then 1 else 10 * Pow10(k - 1)
  }

  function Abs(x: int): nat
  {
    if x < 0 then -x else x
  }

  lemma {:induction false} Pow10Add(a: nat, b: nat)
    ensures Pow10(a + b) == Pow10(a) * Pow10(b)
  {
    if b != 0 {
      Pow10Add(a, b - 1);
      assert Pow10(a + b) == 10 * Pow10(a + b - 1);
    }
  }

  lemma MulMonotone(a: int, b: int, q: nat)
    requires a <= b
    ensures a * q <= b * q
  {
  }

  lemma MulStrict(a: int, b: int, q: nat)
    requires q > 0
    requires a * q < b * q
    ensures a < b
  {
  }

  /** Division of x >= 0 by an even q, rounding to the nearest quotient
      and a tie upwards. */
  lemma HalfUpQuotient(x: nat, q: nat)
    requires q > 0 && q % 2 == 0
    ensures var m := (x + q / 2) / q * q;
      2 * Abs(x - m) <= q && (2 * Abs(x - m) == q ==> m > x)
  {
  }

  /** setScale(2, HALF_UP): the value rounded to a whole number of cents, to
      the nearest neighbour, ties going away from zero. The result is in
      cents, i.e. the unscaled value of a scale-2 BigDecimal. */
  function SetScale2HalfUp(d: Decimal): (cents: int)
    // a scale of at most 2 loses nothing: cents * 10^scale == unscaled * 100
    ensures d.scale <= 2 ==> cents * Pow10(d.scale) == d.unscaled * 100
    // otherwise cents is a nearest whole number of cents ...
    ensures d.scale > 2 ==>
      2 * Abs(d.unscaled - cents * Pow10(d.scale - 2)) <= Pow10(d.scale - 2)
    // ... and a tie is broken away from zero
    ensures d.scale > 2 ==>
      2 * Abs(d.unscaled - cents * Pow10(d.scale - 2)) == Pow10(d.scale - 2) ==>
        Abs(cents * Pow10(d.scale - 2)) > Abs(d.unscaled)
  {
    if d.scale <= 2 then
      var e := Pow10(2 - d.scale);
      Pow10Add(2 - d.scale, d.scale);
      assert d.unscaled * e * Pow10(d.scale) == d.unscaled * (e * Pow10(d.scale));
      d.unscaled * e
    else
      var q := Pow10(d.scale - 2);
      assert q % 2 == 0 by { assert q == 10 * Pow10(d.scale - 3); }
      var x := Abs(d.unscaled);
      var c := (x + q / 2) / q;
      HalfUpQuotient(x, q);
      if d.unscaled >= 0 then
        c
      else
        assert (-c) * q == -(c * q);
        -c
  }

  /** The value d lies in [lo, hi) cents, i.e. lo/100 <= d < hi/100. */
  predicate InCentRange(d: Decimal, lo: int, hi: int)
  {
    lo * Pow10(d.scale) <= 100 * d.unscaled < hi * Pow10(d.scale)
  }

  lemma ExactStaysInRange(d: Decimal, lo: int, hi: int)
    requires d.scale <= 2
    requires InCentRange(d, lo, hi)
    ensures lo <= SetScale2HalfUp(d) < hi
  {
  }

  lemma {:induction false} NearestStaysInRange(u: int, c: int, q: nat, lo: int, hi: int)
    requires q > 0
    requires lo * q <= u < hi * q
    requires 2 * Abs(u - c * q) <= q
    ensures lo <= c <= hi
  {
    if c < lo {
      assert (c + 1) * q == c * q + q;
      MulMonotone(c + 1, lo, q);
    }
    if c > hi {
      assert (hi + 1) * q == hi * q + q;
      MulMonotone(hi + 1, c, q);
    }
  }

  /** Rounding half-up to cents never leaves the closed range [lo, hi] when
      the exact value lies in [lo, hi) cents (hi itself can be reached by a
      value just below it rounding up). */
  lemma RoundedStaysInRange(d: Decimal, lo: int, hi: int)
    requires InCentRange(d, lo, hi)
    ensures lo <= SetScale2HalfUp(d) <= hi
  {
    if d.scale <= 2 {
      ExactStaysInRange(d, lo, hi);
    } else {
      var q := Pow10(d.scale - 2);
      Pow10Add(d.scale - 2, 2);
      assert Pow10(d.scale) == q * 100;
      assert lo * q * 100 == lo * Pow10(d.scale);
      assert hi * q * 100 == hi * Pow10(d.scale);
      NearestStaysInRange(d.unscaled, SetScale2HalfUp(d), q, lo, hi);
    }
  }
}
