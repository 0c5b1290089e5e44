/** The black-and-white threshold of a grey-level histogram, found in one pass. */
module Otsu {
  type Histogram = seq<nat>

  const DEFAULT_THRESHOLD := 127

  /** Number of pixels with a value in lo..hi. */
  function Count(h: Histogram, lo: nat, hi: nat): nat
    requires lo <= hi <= |h|
    decreases hi - lo
  {
    if lo == hi then 0 else Count(h, lo, hi - 1) + h[hi - 1]
  }

  /** Sum of their values. */
  function Weight(h: Histogram, lo: nat, hi: nat): nat
    requires lo <= hi <= |h|
    decreases hi - lo
  {
    if lo == hi then 0 else Weight(h, lo, hi - 1) + (hi - 1) * h[hi - 1]
  }

  function Mean(weight: nat, count: nat): real
    requires count > 0
  {
    weight as real / count as real
  }

  function Square(x: real): real {
    x * x
  }

  /** Between-class variance of two classes, as the pass computes it. */
  function Variance(count: nat, weight: nat, total: nat, weightedTotal: nat): real
    requires 0 < count < total && weight <= weightedTotal
  {
    count as real * (total - count) as real
    * Square(Mean(weight, count) - Mean(weightedTotal - weight, total - count))
  }

  /** Thresholds that leave pixels on both sides. */
  predicate Splits(h: Histogram, t: nat) {
    t < |h| && Count(h, 0, t + 1) > 0 && Count(h, t + 1, |h|) > 0
  }

  lemma {:induction false} CountAdds(h: Histogram, mid: nat, hi: nat)
    requires mid <= hi <= |h|
    ensures Count(h, 0, hi) == Count(h, 0, mid) + Count(h, mid, hi)
    ensures Weight(h, 0, hi) == Weight(h, 0, mid) + Weight(h, mid, hi)
    decreases hi - mid
  {
    if mid < hi {
      CountAdds(h, mid, hi - 1);
    }
  }

  function Between(h: Histogram, t: nat): real
    requires Splits(h, t)
  {
    CountAdds(h, t + 1, |h|);
    Variance(Count(h, 0, t + 1), Weight(h, 0, t + 1), Count(h, 0, |h|), Weight(h, 0, |h|))
  }

  lemma VarianceNonNegative(count: nat, weight: nat, total: nat, weightedTotal: nat)
    requires 0 < count < total && weight <= weightedTotal
    ensures Variance(count, weight, total, weightedTotal) >= 0.0
  {
    var d := Mean(weight, count) - Mean(weightedTotal - weight, total - count);
    Product(count as real, (total - count) as real);
    Product(d, d);
    Product(count as real * (total - count) as real, Square(d));
  }

  lemma Product(x: real, y: real)
    requires (x >= 0.0 && y >= 0.0) || x == y
    ensures x * y >= 0.0
  {
  }

  /** Past the last pixel no threshold splits any more. */
  lemma NoLaterSplit(h: Histogram, t: nat, u: nat)
    requires t <= u < |h| && Count(h, t + 1, |h|) == 0
    ensures !Splits(h, u)
  {
    CountAdds(h, t + 1, |h|);
    CountAdds(h, u + 1, |h|);
    CountAdds(h, t + 1, u + 1);
  }

  /** `best` is the first of the best splits below `n`. */
  ghost predicate FirstBest(h: Histogram, n: nat, best: nat) {
    && best < n && Splits(h, best)
    && forall u | 0 <= u < n && Splits(h, u) ::
         Between(h, u) <= Between(h, best) && (u < best ==> Between(h, u) < Between(h, best))
  }

  /** The smallest threshold of greatest between-class variance, or the default when nothing can be split. */
  method OtsuThreshold(h: Histogram) returns (bestThreshold: nat)
    ensures (exists u :: Splits(h, u)) ==> FirstBest(h, |h|, bestThreshold)
    ensures !(exists u :: Splits(h, u)) ==> bestThreshold == 127
  {
    hide Variance;
    var total, weightedTotal := 0, 0;
    for v := 0 to |h|
      invariant total == Count(h, 0, v) && weightedTotal == Weight(h, 0, v)
    {
      total := total + h[v];
      weightedTotal := weightedTotal + v * h[v];
    }
    var backgroundCount, backgroundWeight := 0, 0;
    bestThreshold := DEFAULT_THRESHOLD;
    var bestVariance := -1.0;
    for t := 0 to |h|
      invariant backgroundCount == Count(h, 0, t)
      invariant backgroundCount > 0 || Weight(h, 0, t) == 0
      invariant backgroundWeight == Weight(h, 0, t)
      invariant bestVariance == -1.0 ==> bestThreshold == DEFAULT_THRESHOLD && forall u | 0 <= u < t :: !Splits(h, u)
      invariant bestVariance != -1.0 ==> FirstBest(h, t, bestThreshold) && bestVariance == Between(h, bestThreshold)
    {
      CountAdds(h, t + 1, |h|);
      backgroundCount := backgroundCount + h[t];
      if backgroundCount == 0 {
        assert h[t] == 0 && Weight(h, 0, t + 1) == 0 + t * 0;
        continue;
      }
      var foregroundCount := total - backgroundCount;
      if foregroundCount == 0 {
        forall u | t <= u < |h| ensures !Splits(h, u) {
          NoLaterSplit(h, t, u);
        }
        break;
      }
      backgroundWeight := backgroundWeight + t * h[t];
      var variance := Variance(backgroundCount, backgroundWeight, total, weightedTotal);
      VarianceNonNegative(backgroundCount, backgroundWeight, total, weightedTotal);
      assert variance == Between(h, t);
      if variance > bestVariance {
        bestVariance := variance;
        bestThreshold := t;
      }
    }
  }

  // ------------------------------------------------------------ what the variance means

  /** What `count` pixels at distance `x` contribute. */
  function Spread(count: nat, x: real): real {
    count as real * Square(x)
  }

  /** Sum of squared values. */
  function Squares(h: Histogram, lo: nat, hi: nat): real
    requires lo <= hi <= |h|
    decreases hi - lo
  {
    if lo == hi then 0.0 else Squares(h, lo, hi - 1) + Spread(h[hi - 1], (hi - 1) as real)
  }

  /** Sum of squared deviations from `m`. */
  function Scatter(h: Histogram, lo: nat, hi: nat, m: real): real
    requires lo <= hi <= |h|
    decreases hi - lo
  {
    if lo == hi then 0.0 else Scatter(h, lo, hi - 1, m) + Spread(h[hi - 1], (hi - 1) as real - m)
  }

  /** Squared deviations of both classes from their own means. */
  function Within(h: Histogram, t: nat): real
    requires Splits(h, t)
  {
    Scatter(h, 0, t + 1, Mean(Weight(h, 0, t + 1), Count(h, 0, t + 1)))
    + Scatter(h, t + 1, |h|, Mean(Weight(h, t + 1, |h|), Count(h, t + 1, |h|)))
  }

  /** Squared deviations from `m`, told by the sums of squares, of values and of pixels. */
  function Around(squares: real, weight: nat, count: nat, m: real): real {
    squares - 2.0 * m * weight as real + m * m * count as real
  }

  lemma AroundOneMore(squares: real, weight: nat, count: nat, m: real, n: nat, v: nat)
    ensures Around(squares + Spread(n, v as real), weight + v * n, count + n, m)
         == Around(squares, weight, count, m) + Spread(n, v as real - m)
  {
    var x, c, d := v as real, n as real, m * m;
    assert Square(x - m) == Square(x) - 2.0 * m * x + d;
    assert c * (Square(x) - 2.0 * m * x + d) == c * Square(x) - c * (2.0 * m * x) + c * d;
    assert (weight + v * n) as real == weight as real + x * c;
    Distributes(2.0 * m, weight as real, x * c);
    Distributes(d, count as real, c);
    assert c * (2.0 * m * x) == 2.0 * m * (x * c);
  }

  lemma {:induction false} ScatterExpands(h: Histogram, lo: nat, hi: nat, m: real)
    requires lo <= hi <= |h|
    ensures Scatter(h, lo, hi, m) == Around(Squares(h, lo, hi), Weight(h, lo, hi), Count(h, lo, hi), m)
    decreases hi - lo
  {
    if lo < hi {
      hide Spread, Around;
      ScatterExpands(h, lo, hi - 1, m);
      AroundOneMore(Squares(h, lo, hi - 1), Weight(h, lo, hi - 1), Count(h, lo, hi - 1), m, h[hi - 1], hi - 1);
    }
  }

  lemma Distributes(a: real, x: real, y: real)
    ensures a * (x + y) == a * x + a * y
  {
  }

  lemma {:induction false} SquaresAdd(h: Histogram, mid: nat, hi: nat)
    requires mid <= hi <= |h|
    ensures Squares(h, 0, hi) == Squares(h, 0, mid) + Squares(h, mid, hi)
    decreases hi - mid
  {
    if mid < hi {
      SquaresAdd(h, mid, hi - 1);
    }
  }

  lemma MeanTimesCount(weight: nat, count: nat)
    requires count > 0
    ensures Mean(weight, count) * count as real == weight as real
  {
  }

  lemma ScatterAroundMean(h: Histogram, lo: nat, hi: nat)
    requires lo <= hi <= |h| && Count(h, lo, hi) > 0
    ensures var m := Mean(Weight(h, lo, hi), Count(h, lo, hi));
      Scatter(h, lo, hi, m) == Squares(h, lo, hi) - m * m * Count(h, lo, hi) as real
  {
    hide Scatter, Squares, Weight, Count, Mean;
    var w, n := Weight(h, lo, hi), Count(h, lo, hi);
    var m := Mean(w, n);
    ScatterExpands(h, lo, hi, m);
    MeanTimesCount(w, n);
    assert m * m * n as real == m * (m * n as real);
    assert 2.0 * m * w as real == 2.0 * (m * w as real);
  }

  /** (p+q)(p a^2 + q b^2) - (p a + q b)^2 == p q (a - b)^2. */
  lemma TwoClassIdentity(p: real, q: real, a: real, b: real)
    ensures (p + q) * (a * a * p + b * b * q) - Square(a * p + b * q) == p * q * Square(a - b)
  {
    var x, y := a * p, b * q;
    assert (p + q) * (a * x + b * y) == p * (a * x) + p * (b * y) + q * (a * x) + q * (b * y);
    assert Square(x + y) == x * x + 2.0 * (x * y) + y * y;
    assert p * (a * x) == x * x && q * (b * y) == y * y;
    assert p * (b * y) == p * q * (b * b) && q * (a * x) == p * q * (a * a);
    assert x * y == p * q * (a * b);
    assert Square(a - b) == a * a - 2.0 * (a * b) + b * b;
    Distributes(p * q, a * a - 2.0 * (a * b), b * b);
    Distributes(p * q, a * a, -2.0 * (a * b));
    assert a * a * p == a * x && b * b * q == b * y;
  }

  /** Between-class variance plus the pixel count times the within-class scatter does not depend on the threshold. */
  lemma VarianceDecomposition(h: Histogram, t: nat)
    requires Splits(h, t)
    ensures Between(h, t) + Count(h, 0, |h|) as real * Within(h, t)
         == Count(h, 0, |h|) as real * Squares(h, 0, |h|) - Square(Weight(h, 0, |h|) as real)
  {
    hide Scatter, Squares, Weight, Count, Mean, Square;
    CountAdds(h, t + 1, |h|);
    SquaresAdd(h, t + 1, |h|);
    ScatterAroundMean(h, 0, t + 1);
    ScatterAroundMean(h, t + 1, |h|);
    var nb, wb, nf, wf := Count(h, 0, t + 1), Weight(h, 0, t + 1), Count(h, t + 1, |h|), Weight(h, t + 1, |h|);
    var a, b, p, q := Mean(wb, nb), Mean(wf, nf), nb as real, nf as real;
    MeanTimesCount(wb, nb);
    MeanTimesCount(wf, nf);
    TwoClassIdentity(p, q, a, b);
    assert Count(h, 0, |h|) == nb + nf && Weight(h, 0, |h|) == wb + wf;
    assert Count(h, 0, |h|) as real == p + q && Weight(h, 0, |h|) as real == a * p + b * q;
    assert Between(h, t) == p * q * Square(a - b);
    assert Within(h, t) == Squares(h, 0, |h|) + -(a * a * p + b * b * q);
    Distributes(p + q, Squares(h, 0, |h|), -(a * a * p + b * b * q));
    assert (p + q) * -(a * a * p + b * b * q) == -((p + q) * (a * a * p + b * b * q));
  }

  /** So the threshold of greatest between-class variance is the one of least within-class scatter. */
  lemma GreatestBetweenIsLeastWithin(h: Histogram, t: nat, u: nat)
    requires Splits(h, t) && Splits(h, u)
    ensures Between(h, u) <= Between(h, t) <==> Within(h, t) <= Within(h, u)
  {
    hide Within, Between, Squares, Square, Weight;
    VarianceDecomposition(h, t);
    VarianceDecomposition(h, u);
    CountAdds(h, t + 1, |h|);
    var n := Count(h, 0, |h|) as real;
    assert n > 0.0;
    Compare(n, Within(h, t), Within(h, u));
  }

  /** What the pass returns is a threshold of least within-class scatter. */
  lemma FirstBestHasLeastScatter(h: Histogram, t: nat, u: nat)
    requires FirstBest(h, |h|, t) && Splits(h, u)
    ensures Within(h, t) <= Within(h, u)
  {
    hide Within, Between;
    GreatestBetweenIsLeastWithin(h, t, u);
  }

  lemma Compare(n: real, x: real, y: real)
    requires n > 0.0
    ensures n * x <= n * y <==> x <= y
  {
    if x < y {
      assert n * (y - x) > 0.0;
    } else {
      assert n * (x - y) >= 0.0;
    }
  }
}
