/** The few numeric operations of Python the agents use, over mathematical
    integers and reals (floating-point rounding is not modelled). */
module Numeric {

  function MinInt(a: int, b: int): int { if a <= b then a else b }

  function MaxInt(a: int, b: int): int { if a >= b then a else b }

  function MinReal(a: real, b: real): real { if a <= b then a else b }

  function MaxReal(a: real, b: real): real { if a >= b then a else b }

  function Abs(x: real): real { if x >= 0.0 then x else -x }

  /** Python's `int(x)` on a float: truncation toward zero. On a
      non-negative value it is the floor. */
  function Trunc(x: real): (n: int)
    ensures x >= 0.0 ==> n >= 0 && n as real <= x < n as real + 1.0
    ensures x < 0.0 ==> n <= 0 && x <= n as real < x + 1.0
  {
    if x >= 0.0 then x.Floor else -((-x).Floor)
  }

  /** `Trunc(cash / unit)` shares of price `unit` are affordable with `cash`,
      and one more share is not: the quantity Python's
      `int(cash / cost_per_share)` yields is the largest affordable one. */
  lemma AffordableQuantity(cash: real, unit: real)
    requires cash > 0.0 && unit > 0.0
    ensures Trunc(cash / unit) >= 0
    ensures Trunc(cash / unit) as real * unit <= cash
    ensures cash < (Trunc(cash / unit) + 1) as real * unit
  {
    var q := cash / unit;
    var n := Trunc(q);
    assert q * unit == cash;
    assert n as real <= q;
    MulMonotone(n as real, q, unit);
    assert q < n as real + 1.0;
    MulStrict(q, n as real + 1.0, unit);
    assert (n + 1) as real == n as real + 1.0;
    calc {
      cash;
    ==
      q * unit;
    <
      (n as real + 1.0) * unit;
    ==
      (n + 1) as real * unit;
    }
  }

  /** Fewer shares of an affordable lot are affordable too, down to one. */
  lemma FewerAffordable(q: int, most: int, unit: real, cash: real)
    requires 1 <= q <= most && unit > 0.0 && most as real * unit <= cash
    ensures q as real * unit <= cash && unit <= cash
  {
    MulMonotone(q as real, most as real, unit);
    MulMonotone(1.0, q as real, unit);
  }

  /** A non-negative part over a positive whole is a fraction in [0, 1]. */
  lemma DivUnit(a: real, b: real)
    requires 0.0 <= a <= b && b > 0.0
    ensures 0.0 <= a / b <= 1.0
  {
  }

  /** A fraction of at most 1 of a non-negative amount does not exceed it. */
  lemma FractionAtMost(x: real, f: real)
    requires x >= 0.0
    ensures f <= 1.0 ==> x * f <= x
  {
    if f <= 1.0 {
      MulMonotone(f, 1.0, x);
    }
  }

  /** Dividing by a positive unit keeps a strict upper bound. */
  lemma DivBelow(a: real, b: real, u: real)
    requires u > 0.0 && a < b * u
    ensures a / u < b
  {
  }

  /** Dividing by a positive unit keeps a bound either way. */
  lemma DivBounds(a: real, b: real, u: real)
    requires u > 0.0
    ensures a <= b * u ==> a / u <= b
    ensures b * u <= a ==> b <= a / u
  {
  }

  /** A whole that holds at least one unit holds at least one unit's worth. */
  lemma DivAtLeastOne(a: real, u: real)
    requires 0.0 < u <= a
    ensures a / u >= 1.0
  {
  }

  /** The reciprocal of a quotient swaps its terms. */
  lemma ReciprocalOfQuotient(a: real, b: real)
    requires a != 0.0 && b != 0.0
    ensures 1.0 / (a / b) == b / a
  {
  }

  /** Reciprocals reverse the order of positive reals. */
  lemma ReciprocalAntitone(a: real, b: real)
    requires 0.0 < a <= b
    ensures 1.0 / b <= 1.0 / a
  {
  }

  /** A point further along a non-negative step lies no lower. */
  lemma AffineMonotone(base: real, a: real, b: real, w: real)
    requires a <= b && w >= 0.0
    ensures base + a * w <= base + b * w
  {
    MulMonotone(a, b, w);
  }

  /** A fraction in [0, 1] of the way from `lo` to `hi` stays between them,
      whichever way round the product is written. */
  lemma Interpolate(lo: real, hi: real, u: real)
    requires lo <= hi && 0.0 <= u <= 1.0
    ensures lo <= lo + (hi - lo) * u <= hi
    ensures lo <= lo + u * (hi - lo) <= hi
  {
    MulMonotone(0.0, u, hi - lo);
    MulMonotone(u, 1.0, hi - lo);
    assert (hi - lo) * u == u * (hi - lo);
  }

  lemma MulMonotone(a: real, b: real, c: real)
    requires a <= b && c >= 0.0
    ensures a * c <= b * c
  {
  }

  lemma MulStrict(a: real, b: real, c: real)
    requires a < b && c > 0.0
    ensures a * c < b * c
  {
  }
}
