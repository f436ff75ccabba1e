/** Powers and averages of reals, and the few inequalities on products that the proofs need. */
module Reals {
  function Pow(x: real, n: nat): real {
    if n == 0 then 1.0 else x * Pow(x, n - 1)
  }

  function Abs(x: real): real { if x < 0.0 then -x else x }

  /** An exponentially weighted average moved towards `sample`. */
  function Ewma(alpha: real, average: real, sample: real): real {
    alpha * sample + (1.0 - alpha) * average
  }

  lemma NonNegative(x: real, y: real)
    requires x >= 0.0 && y >= 0.0
    ensures x * y >= 0.0
  {
  }

  lemma ScaleUp(k: real, x: real, y: real)
    requires k >= 0.0 && x <= y
    ensures k * x <= k * y
  {
    NonNegative(k, y - x);
    assert k * (y - x) == k * y - k * x;
  }

  lemma Shrink(x: real, p: real)
    requires 0.0 <= x <= 1.0 && 0.0 <= p
    ensures 0.0 <= x * p <= p
  {
    NonNegative(x, p);
    NonNegative(1.0 - x, p);
    assert (1.0 - x) * p == p - x * p;
  }

  lemma AbsProduct(x: real, y: real)
    ensures Abs(x * y) == Abs(x) * Abs(y)
  {
    NonNegative(Abs(x), Abs(y));
    assert -x * y == -(x * y) && x * -y == -(x * y) && -x * -y == x * y;
  }

  lemma BoundedProduct(a: real, d: real, bound: real)
    requires a >= 0.0 && Abs(d) <= bound
    ensures Abs(a * d) <= a * bound
  {
    AbsProduct(a, d);
    ScaleUp(a, Abs(d), bound);
  }

  lemma LargeFactor(e: real, ds: real, least: real)
    requires 0.0 <= least <= Abs(ds)
    ensures Abs(e) * least <= Abs(e * ds)
  {
    AbsProduct(e, ds);
    ScaleUp(Abs(e), least, Abs(ds));
  }

  lemma {:induction false} PowBounds(x: real, n: nat)
    requires 0.0 <= x <= 1.0
    ensures 0.0 <= Pow(x, n) <= 1.0
  {
    if n != 0 {
      PowBounds(x, n - 1);
      Shrink(x, Pow(x, n - 1));
    }
  }

  lemma {:induction false} PowDecreases(x: real, m: nat, n: nat)
    requires 0.0 <= x <= 1.0 && m <= n
    ensures Pow(x, n) <= Pow(x, m)
    decreases n
  {
    if m < n {
      PowDecreases(x, m, n - 1);
      PowBounds(x, n - 1);
      Shrink(x, Pow(x, n - 1));
    }
  }

  lemma PowBelow(x: real, m: nat, n: nat)
    requires 0.0 <= x <= 1.0 && m <= n
    ensures 0.0 <= Pow(x, n) <= Pow(x, m)
  {
    PowBounds(x, n);
    PowDecreases(x, m, n);
  }

  /** A step of relative size `alpha` from `x` towards `x + d` stays in any interval holding both. */
  lemma StepWithin(alpha: real, x: real, d: real, lo: real, hi: real)
    requires 0.0 <= alpha <= 1.0 && lo <= x <= hi && lo <= x + d <= hi
    ensures lo <= x + alpha * d <= hi
  {
    if d >= 0.0 {
      Shrink(alpha, d);
      MoveWithin(x, alpha * d, d, lo, hi);
    } else {
      Shrink(alpha, -d);
      assert alpha * -d == -(alpha * d);
      MoveWithin(x, alpha * d, d, lo, hi);
    }
  }

  lemma MoveWithin(x: real, m: real, d: real, lo: real, hi: real)
    requires lo <= x <= hi && lo <= x + d <= hi
    requires 0.0 <= m <= d || d <= m <= 0.0
    ensures lo <= x + m <= hi
  {
  }
}
