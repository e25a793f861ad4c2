/** The Newey-West (Bartlett kernel) long-run variance of the Sharpe estimator, pooled over
    backtest windows whose autocovariance pairs never cross a window boundary.

    The main result identifies the accumulated variance with a sum of squares: T (q+1) V is the
    sum, over all windows and all sliding blocks of q+1 consecutive positions, of the squared
    block sum of the influence values d1 a + d2 b.  Everything else (V >= 0, when V == 0,
    c12 == c21) is read off that identity. */
module HacVariance {
  import opened Outcomes
  import opened Sums
  import opened ProductFacts

  // ----- the influence series of one window, read as zero outside the window

  function At(x: seq<real>, t: int): real {
    if 0 <= t < |x| then x[t] else 0.0
  }

  /** x[j] x[0] + ... + x[n-1] x[n-1-j] */
  function Lag(x: seq<real>, j: nat, n: nat): real
    requires n <= |x|
  {
    if n <= j then 0.0 else Lag(x, j, n - 1) + Times(x[n - 1], x[n - 1 - j])
  }

  /** The sum of the q+1 padded positions s-q .. s. */
  function Block(x: seq<real>, s: int, q: nat): real {
    At(x, s - q) + if q == 0 then 0.0 else Block(x, s, q - 1)
  }

  /** The squared block sums of the blocks ending at 0 .. n-1. */
  function Energy(x: seq<real>, q: nat, n: nat): (e: real)
    ensures e >= 0.0
  {
    if n == 0 then 0.0 else Energy(x, q, n - 1) + Square(Block(x, n - 1, q))
  }

  /** The Bartlett-weighted autocovariance sum of one series, weights scaled by q+1. */
  function Kernel(x: seq<real>, q: nat, j: nat): real
    requires j <= q
  {
    if j == 0 then (q + 1) as real * Lag(x, 0, |x|)
    else Kernel(x, q, j - 1) + (q + 1 - j) as real * (Lag(x, j, |x|) + Lag(x, j, |x|))
  }

  function Lags(x: seq<real>, j: nat): real {
    if j == 0 then 0.0 else Lags(x, j - 1) + Lag(x, j, |x|)
  }

  function Cross(x: seq<real>, i: nat, q: nat, n: nat): real {
    if n == 0 then 0.0 else Cross(x, i, q, n - 1) + Times(At(x, n - 1 - i), At(x, n - 1 - q))
  }

  function BlockCross(x: seq<real>, p: nat, q: nat, n: nat): real {
    if n == 0 then 0.0 else BlockCross(x, p, q, n - 1) + Times(Block(x, n - 1, p), At(x, n - 1 - q))
  }

  lemma {:induction false} CrossIsLag(x: seq<real>, i: nat, q: nat, n: nat)
    requires i <= q
    ensures Cross(x, i, q, n) == Lag(x, q - i, if n <= i then 0 else if n - i <= |x| then n - i else |x|)
  {
    if n != 0 {
      CrossIsLag(x, i, q, n - 1);
    }
  }

  lemma SumTimes(a: real, b: real, y: real)
    ensures Times(a + b, y) == Times(a, y) + Times(b, y)
  {
  }

  lemma SquareOfSum(y: real, b: real)
    ensures Square(y + b) == Square(b) + 2.0 * Times(b, y) + Times(y, y)
  {
  }

  lemma {:induction false} BlockCrossSplits(x: seq<real>, p: nat, q: nat, n: nat)
    ensures p == 0 ==> BlockCross(x, p, q, n) == Cross(x, 0, q, n)
    ensures p > 0 ==> BlockCross(x, p, q, n) == BlockCross(x, p - 1, q, n) + Cross(x, p, q, n)
  {
    hide At, Times;
    if n != 0 {
      BlockCrossSplits(x, p, q, n - 1);
      if p > 0 {
        SumTimes(At(x, n - 1 - p), Block(x, n - 1, p - 1), At(x, n - 1 - q));
      }
    }
  }

  lemma {:induction false} BlockCrossIsLags(x: seq<real>, p: nat, q: nat, n: nat)
    requires p < q && n >= |x| + q
    ensures BlockCross(x, p, q, n) == Lags(x, q) - Lags(x, q - p - 1)
  {
    BlockCrossSplits(x, p, q, n);
    CrossIsLag(x, p, q, n);
    if p > 0 {
      BlockCrossIsLags(x, p - 1, q, n);
    }
  }

  lemma {:induction false} EnergyStep(x: seq<real>, q: nat, n: nat)
    requires q > 0
    ensures Energy(x, q, n) ==
            Energy(x, q - 1, n) + 2.0 * BlockCross(x, q - 1, q, n) + Cross(x, q, q, n)
  {
    if n != 0 {
      EnergyStep(x, q, n - 1);
      var b, y := Block(x, n - 1, q - 1), At(x, n - 1 - q);
      assert Block(x, n - 1, q) == y + b;
      hide At, Block, Times, Square;
      SquareOfSum(y, b);
    }
  }

  lemma {:induction false} EnergyBase(x: seq<real>, n: nat)
    ensures Energy(x, 0, n) == Cross(x, 0, 0, n)
  {
    if n != 0 {
      EnergyBase(x, n - 1);
    }
  }

  /** Raising the bandwidth from q-1 to q raises every one of the weights 0..q by one. */
  lemma {:induction false} KernelStep(x: seq<real>, q: nat, j: nat)
    requires j < q
    ensures Kernel(x, q, j) == Kernel(x, q - 1, j) + Lag(x, 0, |x|) + 2.0 * Lags(x, j)
  {
    if j != 0 {
      KernelStep(x, q, j - 1);
      var l := Lag(x, j, |x|);
      assert (q + 1 - j) as real * (l + l) == (q - j) as real * (l + l) + (l + l);
    } else {
      var l := Lag(x, 0, |x|);
      assert (q + 1) as real * l == q as real * l + l;
    }
  }

  /** One window: the weighted autocovariances are exactly the squared sliding block sums. */
  lemma {:induction false} KernelIsEnergy(x: seq<real>, q: nat, n: nat)
    requires n >= |x| + q
    ensures Kernel(x, q, q) == Energy(x, q, n)
  {
    CrossIsLag(x, q, q, n);
    if q == 0 {
      EnergyBase(x, n);
    } else {
      KernelIsEnergy(x, q - 1, n);
      EnergyStep(x, q, n);
      BlockCrossIsLags(x, q - 1, q, n);
      KernelStep(x, q, q - 1);
    }
  }

  /** The block sums of a series vanish only when the series does. */
  lemma {:induction false} EnergyZero(x: seq<real>, q: nat, n: nat)
    requires Energy(x, q, n) == 0.0
    ensures forall t :: 0 <= t < n && t < |x| ==> x[t] == 0.0
  {
    if n != 0 {
      var b := Block(x, n - 1, q);
      SquareNonNegative(b);
      EnergyZero(x, q, n - 1);
      if n <= |x| {
        BlockOfZeros(x, n - 1, q);
      }
    }
  }

  lemma {:induction false} BlockOfZeros(x: seq<real>, s: nat, q: nat)
    requires forall t :: 0 <= t < s && t < |x| ==> x[t] == 0.0
    ensures Block(x, s, q) == At(x, s)
  {
    if q != 0 {
      BlockOfZeros(x, s, q - 1);
    }
  }

  // ----- pooled sample moments

  function Flatten(windows: seq<seq<real>>): seq<real> {
    if windows == [] then [] else Flatten(windows[..|windows| - 1]) + windows[|windows| - 1]
  }

  function Mean(xs: seq<real>): real
    requires xs != []
  {
    Total(xs) / |xs| as real
  }

  function SquaredDeviations(xs: seq<real>, mean: real): real {
    if xs == [] then 0.0
    else
      var d := xs[|xs| - 1] - mean;
      SquaredDeviations(xs[..|xs| - 1], mean) + d * d
  }

  function Variance(xs: seq<real>): real
    requires xs != []
  {
    SquaredDeviations(xs, Mean(xs)) / |xs| as real
  }

  /** The pair of centred moments (r - mu, (r - mu)^2 - sigma^2) of one return. */
  function Moment(r: real, mean: real, variance: real): (real, real) {
    (r - mean, (r - mean) * (r - mean) - variance)
  }

  function Moments(window: seq<real>, mean: real, variance: real): seq<(real, real)> {
    seq(|window|, t requires 0 <= t < |window| => Moment(window[t], mean, variance))
  }

  function AllMoments(windows: seq<seq<real>>, mean: real, variance: real): seq<seq<(real, real)>> {
    seq(|windows|, i requires 0 <= i < |windows| => Moments(windows[i], mean, variance))
  }

  /** The squared deviations about any value are those about the mean plus its squared distance: this
      fixes the mean, where they are least, and the variance, their average there. */
  lemma DeviationsAboutAnyValue(xs: seq<real>, c: real)
    requires xs != []
    ensures SquaredDeviations(xs, c) == Times(|xs| as real, Variance(xs) + Square(Mean(xs) - c))
  {
    hide *;
    MeanAndVariance(xs);
    DeviationsShift(xs, Mean(xs), c);
    AtTheMean(SquaredDeviations(xs, Mean(xs)), Variance(xs), Square(Mean(xs) - c), Mean(xs) - c, Total(xs), |xs| as real,
              Mean(xs));
  }

  lemma MeanAndVariance(xs: seq<real>)
    requires xs != []
    ensures Times(|xs| as real, Mean(xs)) == Total(xs)
    ensures Times(|xs| as real, Variance(xs)) == SquaredDeviations(xs, Mean(xs))
  {
    QuotientProduct(Total(xs), |xs| as real);
    QuotientProduct(SquaredDeviations(xs, Mean(xs)), |xs| as real);
  }

  function Shifted(deviations: real, k: real, total: real, n: real, a: real, square: real): real {
    deviations + 2.0 * k * (total - n * a) + n * square
  }

  lemma AtTheMean(deviations: real, variance: real, square: real, k: real, total: real, n: real, mean: real)
    requires Times(n, mean) == total && Times(n, variance) == deviations
    ensures Shifted(deviations, k, total, n, mean, square) == Times(n, variance + square)
  {
  }

  lemma {:induction false} DeviationsShift(xs: seq<real>, a: real, c: real)
    ensures SquaredDeviations(xs, c)
            == Shifted(SquaredDeviations(xs, a), a - c, Total(xs), |xs| as real, a, Square(a - c))
  {
    hide *;
    if xs == [] {
      assert |xs| == 0;
      NoDeviations(a, c);
    } else {
      var front, x := xs[..|xs| - 1], xs[|xs| - 1];
      DeviationsShift(front, a, c);
      TotalLast(xs);
      DeviationsLast(xs, a);
      DeviationsLast(xs, c);
      ShiftStep(SquaredDeviations(front, a), x, a, c, Total(front), |front| as real);
      assert |xs| as real == |front| as real + 1.0;
    }
  }

  lemma NoDeviations(a: real, c: real)
    ensures SquaredDeviations([], c)
            == Shifted(SquaredDeviations([], a), a - c, Total([]), 0.0, a, Square(a - c))
  {
  }

  lemma DeviationsLast(xs: seq<real>, c: real)
    requires xs != []
    ensures SquaredDeviations(xs, c) == SquaredDeviations(xs[..|xs| - 1], c) + Square(xs[|xs| - 1] - c)
  {
  }

  lemma TotalLast(xs: seq<real>)
    requires xs != []
    ensures Total(xs) == Total(xs[..|xs| - 1]) + xs[|xs| - 1]
  {
    var front, x := xs[..|xs| - 1], xs[|xs| - 1];
    assert xs == front + [x];
    TotalConcat(front, [x]);
    assert Sum([x], 0) == 0.0;
  }

  lemma ShiftStep(deviations: real, x: real, a: real, c: real, t: real, n: real)
    ensures Shifted(deviations, a - c, t, n, a, Square(a - c)) + Square(x - c)
            == Shifted(deviations + Square(x - a), a - c, t + x, n + 1.0, a, Square(a - c))
  {
  }

  function MomentSum(ms: seq<(real, real)>, second: bool): real {
    if ms == [] then 0.0 else MomentSum(ms[..|ms| - 1], second) + Coordinate(ms[|ms| - 1], second)
  }

  /** Both moments are centred on the sample, and they differ between returns as the return and its
      squared deviation do; this fixes them. */
  lemma MomentsAreCentred(xs: seq<real>, r: real, s: real)
    requires xs != []
    ensures var ms := Moments(xs, Mean(xs), Variance(xs));
            |ms| == |xs| && MomentSum(ms, false) == 0.0 && MomentSum(ms, true) == 0.0
    ensures var mean, variance := Mean(xs), Variance(xs);
            var a, b := Moment(r, mean, variance), Moment(s, mean, variance);
            a.0 - b.0 == r - s && a.1 - b.1 == (r - s) * (r + s - 2.0 * mean)
  {
    MomentSums(xs, Mean(xs), Variance(xs));
    MeanAndVariance(xs);
  }

  lemma {:induction false} MomentSums(xs: seq<real>, mean: real, variance: real)
    ensures MomentSum(Moments(xs, mean, variance), false) == Total(xs) - |xs| as real * mean
    ensures MomentSum(Moments(xs, mean, variance), true) == SquaredDeviations(xs, mean) - |xs| as real * variance
  {
    if xs != [] {
      var front, x := xs[..|xs| - 1], xs[|xs| - 1];
      MomentSums(front, mean, variance);
      TotalLast(xs);
      var ms, n := Moments(xs, mean, variance), |front| as real;
      assert ms[..|ms| - 1] == Moments(front, mean, variance);
      assert |xs| as real == n + 1.0;
      assert (n + 1.0) * mean == n * mean + mean && (n + 1.0) * variance == n * variance + variance;
      hide Total, Moments;
    }
  }

  function Coordinate(m: (real, real), second: bool): real {
    if second then m.1 else m.0
  }

  /** One entry of the lag-j cross product sum of a window, over t = j .. n-1. */
  function LagEntry(w: seq<(real, real)>, j: nat, r: bool, c: bool, n: nat): real
    requires n <= |w|
  {
    if n <= j then 0.0
    else LagEntry(w, j, r, c, n - 1) + Times(Coordinate(w[n - 1], r), Coordinate(w[n - 1 - j], c))
  }

  function PooledEntry(ms: seq<seq<(real, real)>>, j: nat, r: bool, c: bool): real {
    if ms == [] then 0.0
    else
      var w := ms[|ms| - 1];
      PooledEntry(ms[..|ms| - 1], j, r, c) + LagEntry(w, j, r, c, |w|)
  }

  function Weight(q: nat, j: nat): real {
    1.0 - j as real / (q + 1) as real
  }

  /** The accumulated covariance entry after lags 0 .. j, not yet divided by the sample size. */
  function LongRunEntry(ms: seq<seq<(real, real)>>, q: nat, j: nat, r: bool, c: bool): real {
    if j == 0 then PooledEntry(ms, 0, r, c)
    else LongRunEntry(ms, q, j - 1, r, c) +
         Times(Weight(q, j), PooledEntry(ms, j, r, c) + PooledEntry(ms, j, c, r))
  }

  // ----- the influence series, and the reduction of the 2x2 form to it

  function Influence(w: seq<(real, real)>, d1: real, d2: real): seq<real> {
    seq(|w|, t requires 0 <= t < |w| => d1 * w[t].0 + d2 * w[t].1)
  }

  /** Sum over windows of all squared block sums (every block touching the window). */
  function BlockEnergy(ms: seq<seq<(real, real)>>, d1: real, d2: real, q: nat): (e: real)
    ensures e >= 0.0
  {
    if ms == [] then 0.0
    else
      var x := Influence(ms[|ms| - 1], d1, d2);
      BlockEnergy(ms[..|ms| - 1], d1, d2, q) + Energy(x, q, |x| + q)
  }

  function Form(c11: real, c12: real, c21: real, c22: real, d1: real, d2: real): real {
    d1 * d1 * c11 + d1 * d2 * (c12 + c21) + d2 * d2 * c22
  }

  function LagForm(w: seq<(real, real)>, j: nat, d1: real, d2: real, n: nat): real
    requires n <= |w|
  {
    Form(LagEntry(w, j, false, false, n), LagEntry(w, j, false, true, n),
         LagEntry(w, j, true, false, n), LagEntry(w, j, true, true, n), d1, d2)
  }

  lemma {:induction false} LagFormIsLag(w: seq<(real, real)>, j: nat, d1: real, d2: real, n: nat)
    requires n <= |w|
    ensures LagForm(w, j, d1, d2, n) == Lag(Influence(w, d1, d2), j, n)
  {
    if n <= j {
    } else {
      LagFormIsLag(w, j, d1, d2, n - 1);
      var a, b := w[n - 1], w[n - 1 - j];
      FormAdds(LagEntry(w, j, false, false, n - 1), LagEntry(w, j, false, true, n - 1),
               LagEntry(w, j, true, false, n - 1), LagEntry(w, j, true, true, n - 1),
               Times(a.0, b.0), Times(a.0, b.1), Times(a.1, b.0), Times(a.1, b.1), d1, d2);
      FormOfProduct(a, b, d1, d2);
      var x := Influence(w, d1, d2);
      assert x[n - 1] == d1 * a.0 + d2 * a.1 && x[n - 1 - j] == d1 * b.0 + d2 * b.1;
      assert |x| == |w|;
    }
  }

  lemma FormAdds(a11: real, a12: real, a21: real, a22: real,
                 b11: real, b12: real, b21: real, b22: real, d1: real, d2: real)
    ensures Form(a11 + b11, a12 + b12, a21 + b21, a22 + b22, d1, d2) ==
            Form(a11, a12, a21, a22, d1, d2) + Form(b11, b12, b21, b22, d1, d2)
  {
    Distribute(d1 * d1, a11, b11);
    Distribute(d1 * d2, a12 + a21, b12 + b21);
    Distribute(d2 * d2, a22, b22);
  }

  lemma FormScales(k: real, a11: real, a12: real, a21: real, a22: real, d1: real, d2: real)
    ensures Form(Times(k, a11), Times(k, a12), Times(k, a21), Times(k, a22), d1, d2) ==
            Times(k, Form(a11, a12, a21, a22, d1, d2))
  {
    Distribute(k, a12, a21);
    Swap(d1 * d1, k, a11);
    Swap(d1 * d2, k, a12 + a21);
    Swap(d2 * d2, k, a22);
    Distribute(k, d1 * d1 * a11, d1 * d2 * (a12 + a21));
    Distribute(k, d1 * d1 * a11 + d1 * d2 * (a12 + a21), d2 * d2 * a22);
  }

  lemma Swap(d: real, k: real, a: real)
    ensures d * (k * a) == k * (d * a)
  {
  }

  lemma Rearranged(d: real, e: real, x: real, y: real)
    ensures (d * x) * (e * y) == (d * e) * (x * y)
  {
    assert (d * x) * (e * y) == d * (x * (e * y));
    assert x * (e * y) == e * (x * y);
    assert d * (e * (x * y)) == (d * e) * (x * y);
  }

  lemma FormOfProduct(a: (real, real), b: (real, real), d1: real, d2: real)
    ensures Form(Times(a.0, b.0), Times(a.0, b.1), Times(a.1, b.0), Times(a.1, b.1), d1, d2) ==
            Times(d1 * a.0 + d2 * a.1, d1 * b.0 + d2 * b.1)
  {
    var p, q, r, t := d1 * a.0, d2 * a.1, d1 * b.0, d2 * b.1;
    assert (p + q) * (r + t) == p * (r + t) + q * (r + t);
    Distribute(p, r, t);
    Distribute(q, r, t);
    Rearranged(d1, d1, a.0, b.0);
    Rearranged(d1, d2, a.0, b.1);
    Rearranged(d2, d1, a.1, b.0);
    Rearranged(d2, d2, a.1, b.1);
    Distribute(d1 * d2, a.0 * b.1, a.1 * b.0);
  }

  // ----- pooling over windows

  function PooledLag(ms: seq<seq<(real, real)>>, d1: real, d2: real, j: nat): real {
    if ms == [] then 0.0
    else
      var x := Influence(ms[|ms| - 1], d1, d2);
      PooledLag(ms[..|ms| - 1], d1, d2, j) + Lag(x, j, |x|)
  }

  function PooledKernel(ms: seq<seq<(real, real)>>, d1: real, d2: real, q: nat, j: nat): real
    requires j <= q
  {
    if ms == [] then 0.0
    else PooledKernel(ms[..|ms| - 1], d1, d2, q, j) + Kernel(Influence(ms[|ms| - 1], d1, d2), q, j)
  }

  function PooledForm(ms: seq<seq<(real, real)>>, j: nat, d1: real, d2: real): real {
    Form(PooledEntry(ms, j, false, false), PooledEntry(ms, j, false, true),
         PooledEntry(ms, j, true, false), PooledEntry(ms, j, true, true), d1, d2)
  }

  function LongRunForm(ms: seq<seq<(real, real)>>, q: nat, j: nat, d1: real, d2: real): real {
    Form(LongRunEntry(ms, q, j, false, false), LongRunEntry(ms, q, j, false, true),
         LongRunEntry(ms, q, j, true, false), LongRunEntry(ms, q, j, true, true), d1, d2)
  }

  lemma {:induction false} PooledFormIsLag(ms: seq<seq<(real, real)>>, j: nat, d1: real, d2: real)
    ensures PooledForm(ms, j, d1, d2) == PooledLag(ms, d1, d2, j)
  {
    if ms != [] {
      var before, w := ms[..|ms| - 1], ms[|ms| - 1];
      PooledFormIsLag(before, j, d1, d2);
      LagFormIsLag(w, j, d1, d2, |w|);
      FormAdds(PooledEntry(before, j, false, false), PooledEntry(before, j, false, true),
               PooledEntry(before, j, true, false), PooledEntry(before, j, true, true),
               LagEntry(w, j, false, false, |w|), LagEntry(w, j, false, true, |w|),
               LagEntry(w, j, true, false, |w|), LagEntry(w, j, true, true, |w|), d1, d2);
    }
  }

  lemma {:induction false} PooledKernelBase(ms: seq<seq<(real, real)>>, d1: real, d2: real, q: nat)
    ensures PooledKernel(ms, d1, d2, q, 0) == (q + 1) as real * PooledLag(ms, d1, d2, 0)
  {
    if ms != [] {
      var x := Influence(ms[|ms| - 1], d1, d2);
      PooledKernelBase(ms[..|ms| - 1], d1, d2, q);
      Distribute((q + 1) as real, PooledLag(ms[..|ms| - 1], d1, d2, 0), Lag(x, 0, |x|));
    }
  }

  lemma {:induction false} PooledKernelStep(ms: seq<seq<(real, real)>>, d1: real, d2: real, q: nat, j: nat)
    requires 0 < j <= q
    ensures PooledKernel(ms, d1, d2, q, j)
            == PooledKernel(ms, d1, d2, q, j - 1) + (q + 1 - j) as real * (2.0 * PooledLag(ms, d1, d2, j))
  {
    hide Influence;
    if ms == [] {
    } else {
      var front, x := ms[..|ms| - 1], Influence(ms[|ms| - 1], d1, d2);
      var w, l := (q + 1 - j) as real, Lag(x, j, |x|);
      PooledKernelStep(front, d1, d2, q, j);
      assert PooledKernel(ms, d1, d2, q, j) == PooledKernel(front, d1, d2, q, j) + Kernel(x, q, j)
             && PooledKernel(ms, d1, d2, q, j - 1) == PooledKernel(front, d1, d2, q, j - 1) + Kernel(x, q, j - 1);
      assert Kernel(x, q, j) == Kernel(x, q, j - 1) + w * (l + l);
      assert PooledLag(ms, d1, d2, j) == PooledLag(front, d1, d2, j) + l;
      DoubledSum(w, PooledLag(front, d1, d2, j), l);
    }
  }

  lemma DoubledSum(w: real, x: real, y: real)
    ensures w * (2.0 * x) + w * (y + y) == w * (2.0 * (x + y))
  {
  }

  lemma WeightScaled(q: nat, j: nat)
    ensures (q + 1) as real * Weight(q, j) == (q + 1 - j) as real
  {
  }

  function Scaled(q: nat, v: real): real {
    (q + 1) as real * v
  }

  lemma {:induction false} LongRunFormIsKernel(ms: seq<seq<(real, real)>>, q: nat, j: nat, d1: real, d2: real)
    requires j <= q
    ensures Scaled(q, LongRunForm(ms, q, j, d1, d2)) == PooledKernel(ms, d1, d2, q, j)
  {
    hide *;
    if j == 0 {
      LongRunFormBase(ms, q, d1, d2);
    } else {
      PooledFormIsLag(ms, j, d1, d2);
      PooledKernelStep(ms, d1, d2, q, j);
      LongRunFormIsKernel(ms, q, j - 1, d1, d2);
      LongRunFormStep(ms, q, j, d1, d2);
      WeightScaled(q, j);
      KernelArithmetic(q, Weight(q, j), (q + 1 - j) as real,
                       LongRunForm(ms, q, j - 1, d1, d2), LongRunForm(ms, q, j, d1, d2),
                       PooledForm(ms, j, d1, d2), PooledLag(ms, d1, d2, j),
                       PooledKernel(ms, d1, d2, q, j - 1), PooledKernel(ms, d1, d2, q, j));
    }
  }

  lemma LongRunFormBase(ms: seq<seq<(real, real)>>, q: nat, d1: real, d2: real)
    ensures Scaled(q, LongRunForm(ms, q, 0, d1, d2)) == PooledKernel(ms, d1, d2, q, 0)
  {
    hide Form, PooledEntry, PooledLag, PooledKernel;
    assert LongRunForm(ms, q, 0, d1, d2) == PooledForm(ms, 0, d1, d2);
    PooledFormIsLag(ms, 0, d1, d2);
    PooledKernelBase(ms, d1, d2, q);
  }

  lemma KernelArithmetic(q: nat, weight: real, scaled: real, before: real, after: real,
                         form: real, l: real, kernelBefore: real, kernelAfter: real)
    requires (q + 1) as real * weight == scaled
    requires after == before + Times(weight, 2.0 * form) && form == l
    requires Scaled(q, before) == kernelBefore
    requires kernelAfter == kernelBefore + scaled * (2.0 * l)
    ensures Scaled(q, after) == kernelAfter
  {
    var k := (q + 1) as real;
    Distribute(k, before, weight * (2.0 * l));
    assert k * (weight * (2.0 * l)) == (k * weight) * (2.0 * l);
  }

  /** One iteration of the lag loop adds the weighted symmetrised autocovariance. */
  lemma LongRunFormStep(ms: seq<seq<(real, real)>>, q: nat, j: nat, d1: real, d2: real)
    requires j > 0
    ensures LongRunForm(ms, q, j, d1, d2) ==
            LongRunForm(ms, q, j - 1, d1, d2) + Times(Weight(q, j), 2.0 * PooledForm(ms, j, d1, d2))
  {
    var w := Weight(q, j);
    var g11, g12 := PooledEntry(ms, j, false, false), PooledEntry(ms, j, false, true);
    var g21, g22 := PooledEntry(ms, j, true, false), PooledEntry(ms, j, true, true);
    var e11, e12 := LongRunEntry(ms, q, j - 1, false, false), LongRunEntry(ms, q, j - 1, false, true);
    var e21, e22 := LongRunEntry(ms, q, j - 1, true, false), LongRunEntry(ms, q, j - 1, true, true);
    assert LongRunForm(ms, q, j, d1, d2)
           == Form(e11 + Times(w, g11 + g11), e12 + Times(w, g12 + g21), e21 + Times(w, g21 + g12), e22 + Times(w, g22 + g22), d1, d2);
    assert LongRunForm(ms, q, j - 1, d1, d2) == Form(e11, e12, e21, e22, d1, d2);
    assert Form(g11, g12, g21, g22, d1, d2) == PooledForm(ms, j, d1, d2)
           && Form(g11, g21, g12, g22, d1, d2) == PooledForm(ms, j, d1, d2);
    FormAdds(e11, e12, e21, e22, Times(w, g11 + g11), Times(w, g12 + g21), Times(w, g21 + g12), Times(w, g22 + g22), d1, d2);
    FormScales(w, g11 + g11, g12 + g21, g21 + g12, g22 + g22, d1, d2);
    FormAdds(g11, g12, g21, g22, g11, g21, g12, g22, d1, d2);
  }

  lemma {:induction false} PooledKernelIsEnergy(ms: seq<seq<(real, real)>>, d1: real, d2: real, q: nat)
    ensures PooledKernel(ms, d1, d2, q, q) == BlockEnergy(ms, d1, d2, q)
  {
    if ms != [] {
      PooledKernelIsEnergy(ms[..|ms| - 1], d1, d2, q);
      var x := Influence(ms[|ms| - 1], d1, d2);
      KernelIsEnergy(x, q, |x| + q);
    }
  }

  /** The main identity: the Bartlett-weighted form is a sum of squares. */
  lemma LongRunFormIsSumOfSquares(ms: seq<seq<(real, real)>>, q: nat, d1: real, d2: real)
    ensures (q + 1) as real * LongRunForm(ms, q, q, d1, d2) == BlockEnergy(ms, d1, d2, q)
    ensures LongRunForm(ms, q, q, d1, d2) >= 0.0
  {
    LongRunFormIsKernel(ms, q, q, d1, d2);
    PooledKernelIsEnergy(ms, d1, d2, q);
    ProductSign((q + 1) as real, LongRunForm(ms, q, q, d1, d2));
  }

  lemma {:induction false} LagEntrySymmetric(w: seq<(real, real)>, n: nat)
    requires n <= |w|
    ensures LagEntry(w, 0, false, true, n) == LagEntry(w, 0, true, false, n)
  {
    if n != 0 {
      LagEntrySymmetric(w, n - 1);
    }
  }

  lemma {:induction false} PooledEntrySymmetric(ms: seq<seq<(real, real)>>)
    ensures PooledEntry(ms, 0, false, true) == PooledEntry(ms, 0, true, false)
  {
    if ms != [] {
      PooledEntrySymmetric(ms[..|ms| - 1]);
      LagEntrySymmetric(ms[|ms| - 1], |ms[|ms| - 1]|);
    }
  }

  /** c12 and c21 agree after every iteration of the lag loop. */
  lemma {:induction false} LongRunEntrySymmetric(ms: seq<seq<(real, real)>>, q: nat, j: nat)
    ensures LongRunEntry(ms, q, j, false, true) == LongRunEntry(ms, q, j, true, false)
  {
    if j == 0 {
      PooledEntrySymmetric(ms);
    } else {
      LongRunEntrySymmetric(ms, q, j - 1);
    }
  }

  // ----- when the variance degenerates

  /** Every return of the sample has influence zero on the Sharpe estimator. */
  ghost predicate Degenerate(xs: seq<real>, mean: real, variance: real, d1: real, d2: real) {
    forall r :: r in xs ==> InfluenceOf(r, mean, variance, d1, d2) == 0.0
  }

  function InfluenceOf(r: real, mean: real, variance: real, d1: real, d2: real): real {
    var m := Moment(r, mean, variance);
    d1 * m.0 + d2 * m.1
  }

  lemma {:induction false} FlattenMembers(windows: seq<seq<real>>, r: real)
    ensures r in Flatten(windows) <==> exists i :: 0 <= i < |windows| && r in windows[i]
  {
    if windows != [] {
      var before := windows[..|windows| - 1];
      FlattenMembers(before, r);
      assert Flatten(windows) == Flatten(before) + windows[|windows| - 1];
      if r in Flatten(before) {
        var i :| 0 <= i < |before| && r in before[i];
        assert r in windows[i];
      }
      forall i | 0 <= i < |windows| && r in windows[i]
        ensures r in Flatten(windows)
      {
        assert i < |before| ==> r in before[i];
      }
    }
  }

  lemma {:induction false} EnergyZeroIff(x: seq<real>, q: nat, n: nat)
    requires n >= |x|
    ensures Energy(x, q, n) == 0.0 <==> forall t :: 0 <= t < |x| ==> x[t] == 0.0
  {
    if Energy(x, q, n) == 0.0 {
      EnergyZero(x, q, n);
    }
    if forall t :: 0 <= t < |x| ==> x[t] == 0.0 {
      EnergyOfZeros(x, q, n);
    }
  }

  lemma {:induction false} EnergyOfZeros(x: seq<real>, q: nat, n: nat)
    requires forall t :: 0 <= t < |x| ==> x[t] == 0.0
    ensures Energy(x, q, n) == 0.0
  {
    if n != 0 {
      EnergyOfZeros(x, q, n - 1);
      BlockOfZeros(x, n - 1, q);
    }
  }

  ghost predicate NoInfluence(w: seq<(real, real)>, d1: real, d2: real) {
    forall t :: 0 <= t < |w| ==> Influence(w, d1, d2)[t] == 0.0
  }

  lemma {:induction false} BlockEnergyZeroIff(ms: seq<seq<(real, real)>>, d1: real, d2: real, q: nat)
    ensures BlockEnergy(ms, d1, d2, q) == 0.0 <==>
            forall i :: 0 <= i < |ms| ==> NoInfluence(ms[i], d1, d2)
  {
    if ms != [] {
      var before, w := ms[..|ms| - 1], ms[|ms| - 1];
      BlockEnergyZeroIff(before, d1, d2, q);
      var x := Influence(w, d1, d2);
      EnergyZeroIff(x, q, |x| + q);
      assert NoInfluence(w, d1, d2) <==> Energy(x, q, |x| + q) == 0.0;
      assert forall i :: 0 <= i < |before| ==> before[i] == ms[i];
    }
  }

  lemma DegenerateIff(windows: seq<seq<real>>, mean: real, variance: real, d1: real, d2: real, q: nat)
    ensures BlockEnergy(AllMoments(windows, mean, variance), d1, d2, q) == 0.0 <==>
            Degenerate(Flatten(windows), mean, variance, d1, d2)
  {
    var ms := AllMoments(windows, mean, variance);
    BlockEnergyZeroIff(ms, d1, d2, q);
    assert |ms| == |windows|;
    forall i | 0 <= i < |windows|
      ensures NoInfluence(ms[i], d1, d2) <==>
              forall r :: r in windows[i] ==> InfluenceOf(r, mean, variance, d1, d2) == 0.0
    {
      WindowDegenerate(windows, i, mean, variance, d1, d2);
    }
    forall r
      ensures r in Flatten(windows) <==> exists i :: 0 <= i < |windows| && r in windows[i]
    {
      FlattenMembers(windows, r);
    }
  }

  lemma WindowDegenerate(windows: seq<seq<real>>, i: nat, mean: real, variance: real, d1: real, d2: real)
    requires i < |windows|
    ensures NoInfluence(AllMoments(windows, mean, variance)[i], d1, d2) <==>
            forall r :: r in windows[i] ==> InfluenceOf(r, mean, variance, d1, d2) == 0.0
  {
    var m := AllMoments(windows, mean, variance)[i];
    var x := Influence(m, d1, d2);
    forall t | 0 <= t < |windows[i]|
      ensures x[t] == InfluenceOf(windows[i][t], mean, variance, d1, d2)
    {
    }
    hide InfluenceOf, Influence, AllMoments;
    if forall r :: r in windows[i] ==> InfluenceOf(r, mean, variance, d1, d2) == 0.0 {
      forall t | 0 <= t < |m|
        ensures x[t] == 0.0
      {
        assert windows[i][t] in windows[i];
      }
    }
  }

  /** A quadratic with a non-zero slope has at most two roots, so three different returns
      rule the degenerate branch out. */
  lemma ThreeReturnsNeverDegenerate(xs: seq<real>, r: real, s: real, t: real,
                                    mean: real, variance: real, d1: real, d2: real)
    requires r in xs && s in xs && t in xs && r != s && s != t && r != t
    requires d1 != 0.0
    ensures !Degenerate(xs, mean, variance, d1, d2)
  {
    if Degenerate(xs, mean, variance, d1, d2) {
      var a, b, c := r - mean, s - mean, t - mean;
      assert InfluenceOf(r, mean, variance, d1, d2) == d1 * a + d2 * (a * a - variance);
      assert InfluenceOf(s, mean, variance, d1, d2) == d1 * b + d2 * (b * b - variance);
      assert InfluenceOf(t, mean, variance, d1, d2) == d1 * c + d2 * (c * c - variance);
      ThreeRoots(d1, d2, variance, a, b, c);
    }
  }

  lemma ThreeRoots(d1: real, d2: real, v: real, a: real, b: real, c: real)
    requires a != b && b != c && a != c
    requires d1 * a + d2 * (a * a - v) == d1 * b + d2 * (b * b - v) == d1 * c + d2 * (c * c - v)
    ensures d1 == 0.0
  {
    Slope(d1, d2, v, a, b);
    Slope(d1, d2, v, a, c);
    assert d2 * (a + b) - d2 * (a + c) == d2 * (b - c);
    ProductNonZero(d2, b - c);
  }

  lemma Slope(d1: real, d2: real, v: real, a: real, b: real)
    requires a != b
    requires d1 * a + d2 * (a * a - v) == d1 * b + d2 * (b * b - v)
    ensures d1 + d2 * (a + b) == 0.0
  {
    var k := d1 + d2 * (a + b);
    assert k * (a - b) == (d1 * a + d2 * (a * a - v)) - (d1 * b + d2 * (b * b - v));
    ProductNonZero(k, a - b);
  }

  // ----- the computation

  /** average = total / count, without the division. */
  predicate IsAverage(average: real, total: real, count: real) {
    average * count == total
  }

  lemma AverageOf(total: real, count: real)
    requires count != 0.0
    ensures IsAverage(total / count, total, count)
  {
  }

  lemma AverageUnique(a: real, b: real, total: real, count: real)
    requires count != 0.0 && IsAverage(a, total, count) && IsAverage(b, total, count)
    ensures a == b
  {
    assert (a - b) * count == 0.0;
    ProductNonZero(a - b, count);
  }

  method WindowGamma(w: seq<(real, real)>, j: nat)
    returns (s11: real, s12: real, s21: real, s22: real)
    ensures s11 == LagEntry(w, j, false, false, |w|)
    ensures s12 == LagEntry(w, j, false, true, |w|)
    ensures s21 == LagEntry(w, j, true, false, |w|)
    ensures s22 == LagEntry(w, j, true, true, |w|)
  {
    s11, s12, s21, s22 := 0.0, 0.0, 0.0, 0.0;
    if j < |w| {
      for t := j to |w|
        invariant s11 == LagEntry(w, j, false, false, t)
        invariant s12 == LagEntry(w, j, false, true, t)
        invariant s21 == LagEntry(w, j, true, false, t)
        invariant s22 == LagEntry(w, j, true, true, t)
      {
        var a, b := w[t], w[t - j];
        s11 := s11 + a.0 * b.0;
        s12 := s12 + a.0 * b.1;
        s21 := s21 + a.1 * b.0;
        s22 := s22 + a.1 * b.1;
      }
    }
  }

  method Gamma(ms: seq<seq<(real, real)>>, j: nat, count: real)
    returns (g11: real, g12: real, g21: real, g22: real)
    requires count != 0.0
    ensures IsAverage(g11, PooledEntry(ms, j, false, false), count)
    ensures IsAverage(g12, PooledEntry(ms, j, false, true), count)
    ensures IsAverage(g21, PooledEntry(ms, j, true, false), count)
    ensures IsAverage(g22, PooledEntry(ms, j, true, true), count)
  {
    hide IsAverage, LagEntry;
    var s11, s12, s21, s22 := 0.0, 0.0, 0.0, 0.0;
    for i := 0 to |ms|
      invariant s11 == PooledEntry(ms[..i], j, false, false)
      invariant s12 == PooledEntry(ms[..i], j, false, true)
      invariant s21 == PooledEntry(ms[..i], j, true, false)
      invariant s22 == PooledEntry(ms[..i], j, true, true)
    {
      var t11, t12, t21, t22 := WindowGamma(ms[i], j);
      s11, s12, s21, s22 := s11 + t11, s12 + t12, s21 + t21, s22 + t22;
      assert ms[..i + 1][..i] == ms[..i];
    }
    assert ms[..|ms|] == ms;
    g11, g12, g21, g22 := s11 / count, s12 / count, s21 / count, s22 / count;
    AverageOf(s11, count);
    AverageOf(s12, count);
    AverageOf(s21, count);
    AverageOf(s22, count);
  }

  /** The weighted accumulation over the lags 0 .. q. */
  method LongRunCovariance(ms: seq<seq<(real, real)>>, q: nat, count: real)
    returns (c11: real, c12: real, c21: real, c22: real)
    requires count != 0.0
    ensures IsAverage(c11, LongRunEntry(ms, q, q, false, false), count)
    ensures IsAverage(c12, LongRunEntry(ms, q, q, false, true), count)
    ensures IsAverage(c22, LongRunEntry(ms, q, q, true, true), count)
    ensures c12 == c21
  {
    hide IsAverage, Weight;
    c11, c12, c21, c22 := Gamma(ms, 0, count);
    LongRunEntrySymmetric(ms, q, 0);
    AverageUnique(c12, c21, PooledEntry(ms, 0, false, true), count);
    for j := 1 to q + 1
      invariant IsAverage(c11, LongRunEntry(ms, q, j - 1, false, false), count)
      invariant IsAverage(c12, LongRunEntry(ms, q, j - 1, false, true), count)
      invariant IsAverage(c22, LongRunEntry(ms, q, j - 1, true, true), count)
      invariant c12 == c21
    {
      var weight := Weight(q, j);
      var g11, g12, g21, g22 := Gamma(ms, j, count);
      Accumulated(ms, q, j, false, false, c11, g11, g11, weight, count);
      Accumulated(ms, q, j, false, true, c12, g12, g21, weight, count);
      Accumulated(ms, q, j, true, true, c22, g22, g22, weight, count);
      c11 := c11 + weight * (g11 + g11);
      c12 := c12 + weight * (g12 + g21);
      c21 := c21 + weight * (g21 + g12);
      c22 := c22 + weight * (g22 + g22);
    }
  }

  lemma Accumulated(ms: seq<seq<(real, real)>>, q: nat, j: nat, r: bool, c: bool,
                    entry: real, g: real, h: real, weight: real, count: real)
    requires j > 0 && weight == Weight(q, j)
    requires IsAverage(entry, LongRunEntry(ms, q, j - 1, r, c), count)
    requires IsAverage(g, PooledEntry(ms, j, r, c), count)
    requires IsAverage(h, PooledEntry(ms, j, c, r), count)
    ensures IsAverage(entry + weight * (g + h), LongRunEntry(ms, q, j, r, c), count)
  {
    Average(entry, g, h, weight, count);
  }

  lemma Average(entry: real, g: real, h: real, w: real, count: real)
    ensures (entry + w * (g + h)) * count == entry * count + w * (g * count + h * count)
  {
    Distribute(count, entry, w * (g + h));
    Distribute(count, g, h);
    assert (w * (g + h)) * count == w * ((g + h) * count);
  }

  datatype SharpeVariance = SharpeVariance(sharpe: real, variance: real)

  /** What the pair returned for a sample means. */
  ghost predicate IsSharpeVariance(o: SharpeVariance, windows: seq<seq<real>>, q: nat, rf: real, sigma: real)
    requires Flatten(windows) != [] && sigma > 0.0 && Variance(Flatten(windows)) > 0.0
  {
    var xs := Flatten(windows);
    var mean, variance := Mean(xs), Variance(xs);
    && o.sharpe * sigma == mean - rf
    && o.variance >= 0.0
    && exists d1, d2 ::
         && IsGradient(d1, d2, o.sharpe, variance, sigma)
         && o.variance * |xs| as real * (q + 1) as real
            == BlockEnergy(AllMoments(windows, mean, variance), d1, d2, q)
         && (o.variance == 0.0 <==> Degenerate(xs, mean, variance, d1, d2))
  }

  /** The derivatives of the Sharpe ratio in the mean and in the variance. */
  ghost predicate IsGradient(d1: real, d2: real, sharpe: real, variance: real, sigma: real) {
    d1 * sigma == 1.0 && 2.0 * variance * d2 == -sharpe
  }

  /** They are its derivatives: moving the mean and the deviation changes the ratio by their linear
      combination up to a remainder of second order, given here times twice sigma cubed times sigma'. */
  lemma GradientOfSharpe(d1: real, d2: real, rf: real, mean: real, sigma: real, sharpe: real,
                         mean': real, sigma': real, sharpe': real)
    requires sharpe * sigma == mean - rf && sharpe' * sigma' == mean' - rf
    requires IsGradient(d1, d2, sharpe, sigma * sigma, sigma)
    ensures (sharpe' - sharpe - d1 * (mean' - mean) - d2 * (sigma' * sigma' - sigma * sigma))
              * (2.0 * (sigma * sigma * sigma) * sigma')
            == (mean - rf) * Square(sigma' - sigma) * (sigma' + 2.0 * sigma)
               - 2.0 * (sigma * sigma) * ((mean' - mean) * (sigma' - sigma))
  {
    ScaledChange(sharpe', sharpe, mean - rf, mean' - rf, sigma, sigma', d1, d2);
    ScaledRemainder(mean - rf, mean' - rf, sigma, sigma');
    assert (mean' - rf) - (mean - rf) == mean' - mean;
  }

  lemma ScaledChange(a: real, b: real, e: real, e': real, s: real, t: real, d1: real, d2: real)
    requires IsGradient(d1, d2, b, s * s, s) && a * t == e' && b * s == e
    ensures (a - b - d1 * (e' - e) - d2 * (t * t - s * s)) * (2.0 * (s * s * s) * t)
            == 2.0 * (s * s * s) * e' - 2.0 * (s * s) * t * e - 2.0 * (s * s) * t * (e' - e) + e * (t * (t * t - s * s))
  {
    var z, w := e' - e, t * t - s * s;
    calc {
      (a - b - d1 * z - d2 * w) * (2.0 * (s * s * s) * t);
      2.0 * (s * s * s) * (a * t) - 2.0 * (s * s) * t * (b * s) - 2.0 * (s * s) * t * z * (d1 * s)
        - (2.0 * (s * s) * d2) * (s * (t * w));
      2.0 * (s * s * s) * (a * t) - 2.0 * (s * s) * t * (b * s) - 2.0 * (s * s) * t * z + (b * s) * (t * w);
    }
  }

  lemma ScaledRemainder(e: real, e': real, s: real, t: real)
    ensures 2.0 * (s * s * s) * e' - 2.0 * (s * s) * t * e - 2.0 * (s * s) * t * (e' - e) + e * (t * (t * t - s * s))
            == e * Square(t - s) * (t + 2.0 * s) - 2.0 * (s * s) * ((e' - e) * (t - s))
  {
    assert Square(t - s) * (t + 2.0 * s) == t * t * t - 3.0 * (s * s) * t + 2.0 * (s * s * s);
    assert e * Square(t - s) * (t + 2.0 * s) == e * (t * t * t - 3.0 * (s * s) * t + 2.0 * (s * s * s));
  }

  /** `sigma` stands for the square root of the sample variance. */
  method HacStatistics(windows: seq<seq<real>>, q: nat, rf: real, sigma: real)
    returns (r: Option<SharpeVariance>)
    requires Flatten(windows) != []
    requires sigma > 0.0
    requires Variance(Flatten(windows)) > 0.0 ==> sigma * sigma == Variance(Flatten(windows))
    ensures r.None? <==> Variance(Flatten(windows)) <= 0.0
    ensures r.Some? ==> IsSharpeVariance(r.value, windows, q, rf, sigma)
  {
    var xs := Flatten(windows);
    var count := |xs| as real;
    var mean, variance := Mean(xs), Variance(xs);
    if variance <= 0.0 {
      return None;
    }
    hide IsAverage, Form, IsGradient, IsSharpeVariance, IsBlockEnergy;
    var ms := AllMoments(windows, mean, variance);
    var c11, c12, c21, c22 := LongRunCovariance(ms, q, count);
    var sharpe := (mean - rf) / sigma;
    var d1 := 1.0 / sigma;
    var d2 := -sharpe / (2.0 * variance);
    var v := Form(c11, c12, c21, c22, d1, d2);
    r := Some(SharpeVariance(sharpe, v));
    QuotientProduct(mean - rf, sigma);
    SlopesAreGradient(d1, d2, sharpe, variance, sigma);
    FormOfQuotients(ms, q, d1, d2, count, c11, c12, c22);
    IsSharpeVarianceIntro(r.value, windows, q, rf, sigma, d1, d2);
  }

  lemma SlopesAreGradient(d1: real, d2: real, sharpe: real, variance: real, sigma: real)
    requires sigma > 0.0 && variance > 0.0 && d1 == 1.0 / sigma && d2 == -sharpe / (2.0 * variance)
    ensures IsGradient(d1, d2, sharpe, variance, sigma)
  {
    QuotientProduct(1.0, sigma);
    QuotientProduct(-sharpe, 2.0 * variance);
  }

  lemma GradientIsUnique(d1: real, d2: real, b1: real, b2: real, sharpe: real, variance: real, sigma: real)
    requires sigma > 0.0 && variance > 0.0
    requires IsGradient(d1, d2, sharpe, variance, sigma) && IsGradient(b1, b2, sharpe, variance, sigma)
    ensures d1 == b1 && d2 == b2
  {
    assert (d1 - b1) * sigma == 0.0;
    ProductNonZero(d1 - b1, sigma);
    assert (d2 - b2) * variance == 0.0;
    ProductNonZero(d2 - b2, variance);
  }

  lemma IsSharpeVarianceIntro(o: SharpeVariance, windows: seq<seq<real>>, q: nat, rf: real, sigma: real,
                              d1: real, d2: real)
    requires Flatten(windows) != [] && sigma > 0.0 && Variance(Flatten(windows)) > 0.0
    requires o.sharpe * sigma == Mean(Flatten(windows)) - rf
    requires IsGradient(d1, d2, o.sharpe, Variance(Flatten(windows)), sigma)
    requires
      var xs := Flatten(windows);
      var ms := AllMoments(windows, Mean(xs), Variance(xs));
      IsBlockEnergy(o.variance, ms, q, d1, d2, |xs| as real)
    ensures IsSharpeVariance(o, windows, q, rf, sigma)
  {
    var xs := Flatten(windows);
    DegenerateIff(windows, Mean(xs), Variance(xs), d1, d2, q);
  }

  predicate IsBlockEnergy(v: real, ms: seq<seq<(real, real)>>, q: nat, d1: real, d2: real, count: real) {
    && v * count * (q + 1) as real == BlockEnergy(ms, d1, d2, q)
    && v >= 0.0
    && (v == 0.0 <==> BlockEnergy(ms, d1, d2, q) == 0.0)
  }

  lemma FormOfQuotients(ms: seq<seq<(real, real)>>, q: nat, d1: real, d2: real, count: real,
                        c11: real, c12: real, c22: real)
    requires count > 0.0
    requires IsAverage(c11, LongRunEntry(ms, q, q, false, false), count)
    requires IsAverage(c12, LongRunEntry(ms, q, q, false, true), count)
    requires IsAverage(c22, LongRunEntry(ms, q, q, true, true), count)
    ensures IsBlockEnergy(Form(c11, c12, c12, c22, d1, d2), ms, q, d1, d2, count)
  {
    LongRunEntrySymmetric(ms, q, q);
    FormScales(count, c11, c12, c12, c22, d1, d2);
    LongRunFormIsSumOfSquares(ms, q, d1, d2);
    hide Form, BlockEnergy, LongRunEntry, Scaled;
    assert Times(count, c11) == LongRunEntry(ms, q, q, false, false);
    assert Times(count, c12) == LongRunEntry(ms, q, q, false, true);
    assert Times(count, c22) == LongRunEntry(ms, q, q, true, true);
    assert Times(count, Form(c11, c12, c12, c22, d1, d2)) == LongRunForm(ms, q, q, d1, d2);
    VarianceOf(Form(c11, c12, c12, c22, d1, d2), LongRunForm(ms, q, q, d1, d2), count, (q + 1) as real);
  }

  lemma VarianceOf(v: real, form: real, count: real, k: real)
    requires count > 0.0 && k > 0.0 && v * count == form && form >= 0.0
    ensures v * count * k == k * form && v >= 0.0
    ensures v == 0.0 <==> k * form == 0.0
  {
    ProductSign(count, v);
    ProductSign(k, form);
  }

  // ----- the per-trial decision

  datatype HacOutcome =
    | TooFewObservations
    | NotPositive
    | Evaluated(sharpe: real, variance: real)

  /** One trial is evaluated exactly when its sample is long enough, its returns vary and some
      return has influence on the Sharpe ratio; `variance <= 0` never means a negative value. */
  method EvaluateHacTrial(windows: seq<seq<real>>, q: nat, rf: real, sigma: real)
    returns (o: HacOutcome)
    requires sigma > 0.0
    requires Flatten(windows) != [] && Variance(Flatten(windows)) > 0.0 ==>
               sigma * sigma == Variance(Flatten(windows))
    ensures o.TooFewObservations? <==> |Flatten(windows)| <= 2 * (q + 1)
    ensures o.NotPositive? ==> Uninformative(windows, rf, sigma)
    ensures o.Evaluated? ==>
              && !Uninformative(windows, rf, sigma)
              && o.variance > 0.0
              && IsSharpeVariance(SharpeVariance(o.sharpe, o.variance), windows, q, rf, sigma)
  {
    var count := |Flatten(windows)|;
    if count <= 2 * (q + 1) {
      return TooFewObservations;
    }
    var r := HacStatistics(windows, q, rf, sigma);
    if r.Some? {
      DegenerateIsUninformative(r.value, windows, q, rf, sigma);
    }
    hide IsSharpeVariance, Degenerate, Mean;
    if r.None? || r.value.variance <= 0.0 {
      return NotPositive;
    }
    return Evaluated(r.value.sharpe, r.value.variance);
  }

  lemma DegenerateIsUninformative(o: SharpeVariance, windows: seq<seq<real>>, q: nat, rf: real, sigma: real)
    requires Flatten(windows) != [] && sigma > 0.0 && Variance(Flatten(windows)) > 0.0
    requires IsSharpeVariance(o, windows, q, rf, sigma)
    ensures o.variance >= 0.0
    ensures o.variance == 0.0 <==> Uninformative(windows, rf, sigma)
  {
    hide Degenerate, IsGradient, Mean, Variance, BlockEnergy, AllMoments, Flatten;
    var xs := Flatten(windows);
    var mean, variance := Mean(xs), Variance(xs);
    QuotientProduct(o.sharpe, sigma);
    assert o.sharpe == (mean - rf) / sigma;
    forall d1, d2, b1, b2
      | IsGradient(d1, d2, o.sharpe, variance, sigma) && IsGradient(b1, b2, o.sharpe, variance, sigma)
      ensures d1 == b1 && d2 == b2
    {
      GradientIsUnique(d1, d2, b1, b2, o.sharpe, variance, sigma);
    }
  }

  /** Constant returns, or every return a root of the influence quadratic. */
  ghost predicate Uninformative(windows: seq<seq<real>>, rf: real, sigma: real)
    requires Flatten(windows) != [] && sigma > 0.0
  {
    var xs := Flatten(windows);
    var mean, variance := Mean(xs), Variance(xs);
    variance <= 0.0 ||
    exists d1, d2 ::
      IsGradient(d1, d2, (mean - rf) / sigma, variance, sigma) && Degenerate(xs, mean, variance, d1, d2)
  }
}
