/** The controller's numerical filters: the Kalman-style latency estimate and the least-squares
    trend. Both work on reals. */
module Filters {
  // ---------------------------------------------------------------- Kalman filter

  /** The filter's error variance. */
  type PosReal = r: real | r > 0.0 witness 1.0

  function ClampLatency(raw: real): real {
    if raw < 1.0 then 1.0 else if raw > 10000.0 then 10000.0 else raw
  }

  function Gain(error: real): real
    requires error > 0.0
  {
    (error + 0.01) / (error + 0.01 + 5.0)
  }

  lemma GainInUnit(error: real)
    requires error > 0.0
    ensures 0.0 < Gain(error) < 1.0
  {
    var p := error + 0.01;
    assert Gain(error) * (p + 5.0) == p;
  }

  function NextEstimate(estimate: real, error: real, m: real): real
    requires error > 0.0
  {
    estimate + Gain(error) * (m - estimate)
  }

  function NextError(error: real): PosReal
    requires error > 0.0
  {
    GainInUnit(error);
    Positive(1.0 - Gain(error), error + 0.01);
    (1.0 - Gain(error)) * (error + 0.01)
  }

  /** The variance is what is left of the predicted one: positive, below it and below the
      measurement's own noise of 5. */
  lemma ErrorShrinks(error: real)
    requires error > 0.0
    ensures 0.0 < NextError(error) < error + 0.01 && NextError(error) < 5.0
  {
    var p, rest := error + 0.01, 1.0 - Gain(error);
    GainInUnit(error);
    assert Gain(error) * (p + 5.0) == p;
    hide Gain;
    assert rest * (p + 5.0) == 5.0;
    Positive(rest, p);
    Positive(Gain(error), p);
    assert rest * p == p - Gain(error) * p;
    assert rest * p == 5.0 - rest * 5.0;
  }

  /** However sure the filter is, it still follows: the gain is more than a 502nd. */
  lemma GainAtLeast(error: real)
    requires error > 0.0
    ensures 502.0 * Gain(error) > 1.0
  {
    var p := error + 0.01;
    assert Gain(error) * (p + 5.0) == p;
    Scaled(Gain(error), p + 5.0, p);
    PositiveFactor(502.0 * Gain(error) - 1.0, p + 5.0);
  }

  lemma Scaled(g: real, d: real, p: real)
    requires g * d == p
    ensures (502.0 * g - 1.0) * d == 502.0 * p - d
  {
  }

  lemma PositiveFactor(a: real, d: real)
    requires d > 0.0 && a * d > 0.0
    ensures a > 0.0
  {
  }

  lemma StrictProduct(a: real, b: real, ab: real)
    requires a > 0.0 && b > 0.0 && ab == a * b
    ensures ab > 0.0
  {
  }

  lemma RestOf(k: real, d: real, move: real)
    requires move == k * d
    ensures d - move == (1.0 - k) * d
  {
  }

  lemma Excess(k: real, d: real, move: real)
    requires move == k * d
    ensures 502.0 * move - d == (502.0 * k - 1.0) * d
  {
  }

  /** A step of gain `k` over a distance `d`. */
  lemma StepOver(k: real, d: real, move: real)
    requires 0.0 < k < 1.0 && 502.0 * k > 1.0 && d > 0.0 && move == k * d
    ensures 0.0 < move < d && d < 502.0 * move
  {
    RestOf(k, d, move);
    Excess(k, d, move);
    StrictProduct(k, d, move);
    StrictProduct(1.0 - k, d, d - move);
    StrictProduct(502.0 * k - 1.0, d, 502.0 * move - d);
  }

  /** The estimate moves towards the measurement, by more than a 502nd of the way, and stops short of
      it; it rests only where it is measured. */
  lemma KalmanStep(estimate: real, error: real, m: real)
    requires error > 0.0
    ensures estimate < m ==> estimate < NextEstimate(estimate, error, m) < m
    ensures m < estimate ==> m < NextEstimate(estimate, error, m) < estimate
    ensures estimate == m ==> NextEstimate(estimate, error, m) == m
    ensures estimate < m ==> m - estimate < 502.0 * (NextEstimate(estimate, error, m) - estimate)
    ensures m < estimate ==> estimate - m < 502.0 * (estimate - NextEstimate(estimate, error, m))
  {
    hide Gain;
    var k := Gain(error);
    GainInUnit(error);
    GainAtLeast(error);
    var d, next := m - estimate, NextEstimate(estimate, error, m);
    Approach(k, d, k * d);
    Landed(estimate, m, d, k * d, next);
  }

  lemma Approach(k: real, d: real, move: real)
    requires 0.0 < k < 1.0 && 502.0 * k > 1.0 && move == k * d
    ensures d > 0.0 ==> 0.0 < move < d < 502.0 * move
    ensures d < 0.0 ==> 0.0 < -move < -d < 502.0 * -move
    ensures d == 0.0 ==> move == 0.0
  {
    Negated(k, d, move);
    if d > 0.0 {
      StepOver(k, d, move);
    } else if d < 0.0 {
      StepOver(k, -d, -move);
    }
  }

  lemma Landed(x: real, m: real, d: real, move: real, next: real)
    requires d == m - x && next == x + move
    requires d > 0.0 ==> 0.0 < move < d < 502.0 * move
    requires d < 0.0 ==> 0.0 < -move < -d < 502.0 * -move
    requires d == 0.0 ==> move == 0.0
    ensures x < m ==> x < next < m && m - x < 502.0 * (next - x)
    ensures m < x ==> m < next < x && x - m < 502.0 * (x - next)
    ensures x == m ==> next == m
  {
  }

  lemma Negated(k: real, d: real, move: real)
    requires move == k * d
    ensures -move == k * -d
  {
  }

  /** Latencies in range are taken as they are, others as the nearer end of the range. */
  lemma LatencyClamped(raw: real)
    ensures 1.0 <= ClampLatency(raw) <= 10000.0
    ensures 1.0 <= raw <= 10000.0 ==> ClampLatency(raw) == raw
    ensures raw < 1.0 ==> ClampLatency(raw) == 1.0
  {
  }

  // ---------------------------------------------------------------- trend

  function SumX(n: nat): real { if n == 0 then 0.0 else SumX(n - 1) + (n - 1) as real }
  function SumX2(n: nat): real { if n == 0 then 0.0 else SumX2(n - 1) + (n - 1) as real * (n - 1) as real }

  function SumY(h: seq<real>): real {
    if |h| == 0 then 0.0 else SumY(h[..|h| - 1]) + h[|h| - 1]
  }

  function SumXY(h: seq<real>): real {
    if |h| == 0 then 0.0 else SumXY(h[..|h| - 1]) + (|h| - 1) as real * h[|h| - 1]
  }

  function Denominator(n: nat): real {
    n as real * SumX2(n) - SumX(n) * SumX(n)
  }

  /** The least-squares slope of the latency history against its index. */
  function Trend(h: seq<real>): real {
    if |h| < 10 then 0.0
    else
      DenominatorPositive(|h|);
      (|h| as real * SumXY(h) - SumX(|h|) * SumY(h)) / Denominator(|h|)
  }

  lemma ClosedStep(k: real, x: real, x2: real)
    requires 2.0 * x == k * (k - 1.0) && 6.0 * x2 == k * (k - 1.0) * (2.0 * k - 1.0)
    ensures 2.0 * (x + k) == (k + 1.0) * k
    ensures 6.0 * (x2 + k * k) == (k + 1.0) * k * (2.0 * k + 1.0)
  {
  }

  lemma {:induction false} SumsClosed(n: nat)
    ensures 2.0 * SumX(n) == n as real * (n as real - 1.0)
    ensures 6.0 * SumX2(n) == n as real * (n as real - 1.0) * (2.0 * n as real - 1.0)
  {
    if n > 0 {
      SumsClosed(n - 1);
      var x, x2 := SumX(n - 1), SumX2(n - 1);
      hide SumX2, SumX;
      XStep(n);
      ClosedStep((n - 1) as real, x, x2);
    }
  }

  lemma XStep(n: nat)
    requires n > 0
    ensures SumX(n) == SumX(n - 1) + (n - 1) as real
    ensures SumX2(n) == SumX2(n - 1) + (n - 1) as real * (n - 1) as real
  {
  }

  lemma Positive(a: real, b: real)
    requires a > 0.0 && b > 0.0
    ensures a * b > 0.0
  {
  }

  lemma SquareOfHalf(x: real, s: real)
    requires 2.0 * x == s
    ensures 4.0 * (x * x) == s * s
  {
  }

  lemma ScaleSixth(n: real, x2: real, t: real)
    requires 6.0 * x2 == t
    ensures 12.0 * (n * x2) == 2.0 * (n * t)
  {
    assert n * (6.0 * x2) == n * t;
  }

  lemma DenominatorPolynomial(n: real)
    ensures 2.0 * (n * (n * (n - 1.0) * (2.0 * n - 1.0))) - 3.0 * ((n * (n - 1.0)) * (n * (n - 1.0)))
         == (n * (n - 1.0)) * (n * (n + 1.0))
  {
    var sq := n * (n - 1.0);
    assert 2.0 * n * (sq * (2.0 * n - 1.0)) - 3.0 * (sq * sq) == sq * (2.0 * n * (2.0 * n - 1.0) - 3.0 * sq);
    assert 2.0 * n * (2.0 * n - 1.0) - 3.0 * sq == n * (n + 1.0);
  }

  lemma PositiveDifference(a: real, b: real, p: real, q: real, r: real)
    requires 12.0 * a == 2.0 * p && 4.0 * b == q && 2.0 * p - 3.0 * q == r && r > 0.0
    ensures a - b > 0.0
  {
  }

  lemma DenominatorClosed(n: real, x: real, x2: real)
    requires 2.0 * x == n * (n - 1.0) && 6.0 * x2 == n * (n - 1.0) * (2.0 * n - 1.0)
    requires n >= 2.0
    ensures n * x2 - x * x > 0.0
  {
    SquareOfHalf(x, n * (n - 1.0));
    ScaleSixth(n, x2, n * (n - 1.0) * (2.0 * n - 1.0));
    DenominatorPolynomial(n);
    Positive(n, n - 1.0);
    Positive(n, n + 1.0);
    Positive(n * (n - 1.0), n * (n + 1.0));
    PositiveDifference(n * x2, x * x, n * (n * (n - 1.0) * (2.0 * n - 1.0)),
                       (n * (n - 1.0)) * (n * (n - 1.0)), (n * (n - 1.0)) * (n * (n + 1.0)));
  }

  /** The slope never divides by zero. */
  lemma DenominatorPositive(n: nat)
    requires n >= 2
    ensures Denominator(n) > 0.0
  {
    hide SumX, SumX2;
    var r := n as real;
    SumsClosed(n);
    DenominatorClosed(r, SumX(n), SumX2(n));
  }

  function Line(a: real, b: real, i: int): real {
    a + b * i as real
  }

  lemma LinearY(a: real, b: real, x: real, x1: real, sx: real, sx1: real, sy: real, sy1: real, y: real)
    requires sy == x * a + b * sx && y == a + b * x && x1 == x + 1.0 && sx1 == sx + x && sy1 == sy + y
    ensures sy1 == x1 * a + b * sx1
  {
    assert b * (sx + x) == b * sx + b * x;
    assert (x + 1.0) * a == x * a + a;
  }

  lemma LinearXY(a: real, b: real, x: real, sx: real, sx1: real, s2: real, s21: real, sy: real, sy1: real, y: real)
    requires sy == a * sx + b * s2 && y == a + b * x && sx1 == sx + x && s21 == s2 + x * x && sy1 == sy + x * y
    ensures sy1 == a * sx1 + b * s21
  {
    assert a * (sx + x) == a * sx + a * x;
    assert b * (s2 + x * x) == b * s2 + b * (x * x);
    assert x * (a + b * x) == a * x + b * (x * x);
  }

  lemma EmptySums(a: real, b: real)
    ensures SumY([]) == 0.0 * a + b * SumX(0)
    ensures SumXY([]) == a * SumX(0) + b * SumX2(0)
  {
  }

  lemma {:induction false} LinearSumY(h: seq<real>, a: real, b: real)
    requires forall i :: 0 <= i < |h| ==> h[i] == Line(a, b, i)
    ensures SumY(h) == |h| as real * a + b * SumX(|h|)
  {
    hide SumX, SumX2, SumY, SumXY;
    if |h| > 0 {
      var n := |h| - 1;
      SumsStep(h);
      LinearSumY(h[..n], a, b);
      LinearY(a, b, n as real, |h| as real, SumX(n), SumX(|h|), SumY(h[..n]), SumY(h), h[n]);
    } else {
      assert h == [];
      EmptySums(a, b);
    }
  }

  lemma {:induction false} LinearSumXY(h: seq<real>, a: real, b: real)
    requires forall i :: 0 <= i < |h| ==> h[i] == Line(a, b, i)
    ensures SumXY(h) == a * SumX(|h|) + b * SumX2(|h|)
  {
    hide SumX, SumX2, SumY, SumXY;
    if |h| > 0 {
      var n := |h| - 1;
      SumsStep(h);
      LinearSumXY(h[..n], a, b);
      LinearXY(a, b, n as real, SumX(n), SumX(|h|), SumX2(n), SumX2(|h|), SumXY(h[..n]), SumXY(h), h[n]);
    } else {
      assert h == [];
      EmptySums(a, b);
    }
  }

  lemma SumsStep(h: seq<real>)
    requires |h| > 0
    ensures SumY(h) == SumY(h[..|h| - 1]) + h[|h| - 1]
    ensures SumXY(h) == SumXY(h[..|h| - 1]) + (|h| - 1) as real * h[|h| - 1]
    ensures SumX(|h|) == SumX(|h| - 1) + (|h| - 1) as real
    ensures SumX2(|h|) == SumX2(|h| - 1) + (|h| - 1) as real * (|h| - 1) as real
  {
  }

  /** On a history that rises by `b` per cycle the trend is exactly `b`. */
  lemma TrendOfLine(h: seq<real>, a: real, b: real)
    requires |h| >= 10 && forall i :: 0 <= i < |h| ==> h[i] == Line(a, b, i)
    ensures Trend(h) == b
  {
    hide SumX, SumX2, SumY, SumXY, Line;
    LinearSumY(h, a, b);
    LinearSumXY(h, a, b);
    DenominatorPositive(|h|);
    LineSlope(|h| as real, a, b, SumX(|h|), SumX2(|h|));
    Quotient(b, Denominator(|h|));
  }

  lemma Quotient(b: real, d: real)
    requires d > 0.0
    ensures (b * d) / d == b
  {
  }

  lemma LineSlope(n: real, a: real, b: real, x: real, x2: real)
    ensures n * (a * x + b * x2) - x * (n * a + b * x) == b * (n * x2 - x * x)
  {
    assert n * (a * x + b * x2) == n * (a * x) + n * (b * x2);
    assert x * (n * a + b * x) == x * (n * a) + x * (b * x);
    assert n * (a * x) == x * (n * a);
    assert n * (b * x2) == b * (n * x2);
    assert x * (b * x) == b * (x * x);
  }

  /** One pass accumulating the four sums of the regression. */
  method AccumulateSums(h: seq<real>) returns (sumX: real, sumY: real, sumXY: real, sumX2: real)
    ensures sumX == SumX(|h|) && sumX2 == SumX2(|h|) && sumY == SumY(h) && sumXY == SumXY(h)
  {
    hide SumX, SumX2, SumY, SumXY;
    sumX, sumY, sumXY, sumX2 := 0.0, 0.0, 0.0, 0.0;
    NoSums();
    for i := 0 to |h|
      invariant sumX == SumX(i) && sumX2 == SumX2(i)
      invariant sumY == SumY(h[..i]) && sumXY == SumXY(h[..i])
    {
      PrefixStep(h, i);
      var x := i as real;
      var y := h[i];
      sumX, sumY, sumXY, sumX2 := sumX + x, sumY + y, sumXY + x * y, sumX2 + x * x;
    }
    assert h[..|h|] == h;
  }

  /** computeTrend. */
  method ComputeTrend(h: seq<real>) returns (slope: real)
    ensures slope == Trend(h)
  {
    hide SumX, SumX2, SumY, SumXY;
    if |h| < 10 {
      return 0.0;
    }
    var sumX, sumY, sumXY, sumX2 := AccumulateSums(h);
    DenominatorPositive(|h|);
    slope := (|h| as real * sumXY - sumX * sumY) / (|h| as real * sumX2 - sumX * sumX);
  }

  lemma PrefixStep(h: seq<real>, i: nat)
    requires i < |h|
    ensures SumX(i + 1) == SumX(i) + i as real
    ensures SumX2(i + 1) == SumX2(i) + i as real * i as real
    ensures SumY(h[..i + 1]) == SumY(h[..i]) + h[i]
    ensures SumXY(h[..i + 1]) == SumXY(h[..i]) + i as real * h[i]
  {
    SumsStep(h[..i + 1]);
    hide SumX, SumX2, SumY, SumXY;
    assert h[..i + 1][..i] == h[..i];
  }

  lemma NoSums()
    ensures SumX(0) == 0.0 && SumX2(0) == 0.0 && SumY([]) == 0.0 && SumXY([]) == 0.0
  {
  }
}
