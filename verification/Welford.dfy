/** Welford's online variance, over the reals. */
module Welford {
  import opened Chars

  function Sum(xs: seq<real>): real { if xs == [] then 0.0 else Sum(xs[..|xs| - 1]) + xs[|xs| - 1] }

  /** The sum of the squared deviations of `xs` from `m`. */
  function Deviation(xs: seq<real>, m: real): (d: real)
    ensures d >= 0.0
  {
    if xs == [] then 0.0
    else
      Deviation(xs[..|xs| - 1], m) + Square(xs[|xs| - 1] - m)
  }

  function Square(x: real): (s: real)
    ensures s >= 0.0
  {
    SquareNotNegative(x);
    x * x
  }

  lemma {:induction false} SquareNotNegative(x: real)
    ensures x * x >= 0.0
  {
  }

  /** The deviation `d` of `n` values with sum `s` after the centre has moved from `m` by `e`. */
  function Moved(d: real, s: real, n: real, m: real, e: real): real {
    d - 2.0 * e * (s - m * n) + e * e * n
  }

  /** Moving the centre by `e`. */
  lemma {:induction false} DeviationMoves(xs: seq<real>, m: real, e: real)
    ensures Deviation(xs, m + e) == Moved(Deviation(xs, m), Sum(xs), |xs| as real, m, e)
    decreases |xs|
  {
    hide Square, Moved;
    if xs == [] {
      NothingMoves(m, e);
    } else {
      var n := |xs| - 1;
      DeviationMoves(xs[..n], m, e);
      OneMore(Deviation(xs[..n], m), Sum(xs[..n]), n as real, m, e, xs[n], |xs| as real);
    }
  }

  lemma {:induction false} NothingMoves(m: real, e: real)
    ensures Moved(0.0, 0.0, 0.0, m, e) == 0.0
  {
  }

  lemma {:induction false} OneMore(d: real, s: real, n: real, m: real, e: real, x: real, k: real)
    requires k == n + 1.0
    ensures Moved(d, s, n, m, e) + Square(x - (m + e)) == Moved(d + Square(x - m), s + x, k, m, e)
  {
  }

  /** The algebra of one update: `e` is how far the mean moves, and `(n + 1) * e == delta`. */
  lemma {:induction false} UpdateAlgebra(n: real, e: real, delta: real)
    requires (n + 1.0) * e == delta
    ensures e * e * n + (delta - e) * (delta - e) == delta * (delta - e)
  {
    assert n * e == delta - e;
    assert e * e * n == e * (delta - e) by { assert e * e * n == e * (n * e); }
    assert e * (delta - e) + (delta - e) * (delta - e) == delta * (delta - e);
  }

  class WelfordStandardDeviation {
    var count: nat
    var mean: real
    var m2: real
    ghost var values: seq<real>

    /** The mean is the exact average, and `m2` the exact sum of squared deviations from it. */
    ghost predicate Valid()
      reads this
    {
      count == |values| && mean * count as real == Sum(values) && m2 == Deviation(values, mean)
    }

    constructor ()
      ensures Valid() && values == []
    {
      count, mean, m2, values := 0, 0.0, 0.0, [];
    }

    method Update(newValue: real)
      requires Valid()
      modifies this
      ensures Valid() && values == old(values) + [newValue] && m2 >= old(m2)
    {
      hide Sum, Deviation;
      ghost var xs, m := values, mean;
      count := count + 1;
      var delta := newValue - mean;
      var e := delta / count as real;
      mean := mean + e;
      var delta2 := newValue - mean;
      m2 := m2 + delta * delta2;
      values := values + [newValue];
      Quotient(delta, count as real, e);
      Updated(xs, m, newValue, e);
      GrowthNotNegative(|xs| as real, e, delta);
    }

    /** `computeVariance`: NaN before the second value, and never negative. */
    method ComputeVariance() returns (v: Option<real>)
      requires Valid()
      ensures v.Some? <==> count >= 2
      ensures v.Some? ==> v.value >= 0.0 && v.value * (count - 1) as real == Deviation(values, mean)
    {
      if count < 2 { return None; }
      var q := m2 / (count - 1) as real;
      Quotient(m2, (count - 1) as real, q);
      QuotientSign(m2, (count - 1) as real, q);
      return Some(q);
    }
  }

  /** What one more value makes of sum and deviation when the mean moves by `e`. */
  lemma {:induction false} Updated(xs: seq<real>, m: real, x: real, e: real)
    requires m * |xs| as real == Sum(xs) && e * (|xs| + 1) as real == x - m
    ensures (m + e) * (|xs| + 1) as real == Sum(xs + [x])
    ensures Deviation(xs + [x], m + e) == Deviation(xs, m) + (x - m) * (x - (m + e))
  {
    hide Square, Moved;
    assert (xs + [x])[..|xs|] == xs;
    DeviationMoves(xs, m, e);
    UpdatedValues(Deviation(xs, m), Sum(xs), |xs| as real, m, x, e, (|xs| + 1) as real);
  }

  lemma {:induction false} UpdatedValues(d: real, s: real, n: real, m: real, x: real, e: real, k: real)
    requires m * n == s && e * k == x - m && k == n + 1.0
    ensures (m + e) * k == s + x
    ensures Moved(d, s, n, m, e) + Square(x - (m + e)) == d + (x - m) * (x - (m + e))
  {
    MeanMoves(m, e, n, x - m, x, s);
    UpdateAlgebra(n, e, x - m);
  }

  lemma {:induction false} Quotient(a: real, b: real, q: real)
    requires b != 0.0 && q == a / b
    ensures q * b == a
  {
  }

  lemma {:induction false} QuotientSign(a: real, b: real, q: real)
    requires a >= 0.0 && b > 0.0 && q * b == a
    ensures q >= 0.0
  {
    NegativeTimes(q, b);
  }

  lemma {:induction false} NegativeTimes(q: real, b: real)
    requires b > 0.0
    ensures q < 0.0 ==> q * b < 0.0
  {
  }

  lemma {:induction false} MeanMoves(m: real, e: real, n: real, delta: real, x: real, sum: real)
    requires m * n == sum && e * (n + 1.0) == delta && delta == x - m
    ensures (m + e) * (n + 1.0) == sum + x
  {
    assert (m + e) * (n + 1.0) == m * n + m + e * (n + 1.0);
  }

  /** `m2` never falls: what an update adds is a sum of squares. */
  lemma {:induction false} GrowthNotNegative(n: real, e: real, delta: real)
    requires n >= 0.0 && (n + 1.0) * e == delta
    ensures delta * (delta - e) >= 0.0
  {
    UpdateAlgebra(n, e, delta);
    SquareNotNegative(e);
    SquareNotNegative(delta - e);
  }
}
