/** The average-correlation effective number of trials, bounded by the geometry of the normalized
    return columns.  The square root is a parameter. */
module EffectiveTrials {
  import opened Outcomes
  import opened Sums
  import opened ProductFacts

  type Column = seq<real>

  ghost predicate IsRoot(root: real -> real) {
    forall x: real :: x >= 0.0 ==> root(x) >= 0.0 && Square(root(x)) == x
  }

  // ----- sums over observations

  function Dot(x: Column, y: Column, n: nat): real
    requires n <= |x| && n <= |y|
  {
    if n == 0 then 0.0 else Dot(x, y, n - 1) + Times(x[n - 1], y[n - 1])
  }

  function Centered(x: Column): (d: Column)
    requires x != []
    ensures |d| == |x|
  {
    var mean := Sum(x, |x|) / (|x| as real);
    seq(|x|, t requires 0 <= t < |x| => x[t] - mean)
  }

  /** Centering shifts a column as a whole to the sum zero; this fixes it. */
  lemma CenteredMeaning(x: Column, s: nat, t: nat)
    requires s < |x| && t < |x|
    ensures Centered(x)[s] - Centered(x)[t] == x[s] - x[t]
    ensures Total(Centered(x)) == 0.0
  {
    var mean := Sum(x, |x|) / (|x| as real);
    QuotientProduct(Sum(x, |x|), |x| as real);
    ShiftedSum(x, Centered(x), mean, |x|);
  }

  lemma {:induction false} ShiftedSum(x: Column, d: Column, mean: real, n: nat)
    requires n <= |x| == |d| && forall t :: 0 <= t < |x| ==> d[t] == x[t] - mean
    ensures Sum(d, n) == Sum(x, n) - n as real * mean
  {
    if n > 0 {
      ShiftedSum(x, d, mean, n - 1);
      assert n as real == (n - 1) as real + 1.0;
      Distribute(mean, (n - 1) as real, 1.0);
    }
  }

  lemma {:induction false} DotSelfNonNegative(x: Column, n: nat)
    requires n <= |x|
    ensures Dot(x, x, n) >= 0.0
    ensures Dot(x, x, n) == 0.0 <==> forall t :: 0 <= t < n ==> x[t] == 0.0
  {
    if n > 0 {
      DotSelfNonNegative(x, n - 1);
      SquareNonNegative(x[n - 1]);
    }
  }

  predicate Constant(x: Column) {
    forall t :: 0 <= t < |x| ==> x[t] == x[0]
  }

  lemma {:induction false} ConstantSum(x: Column, n: nat)
    requires Constant(x) && n <= |x| && x != []
    ensures Sum(x, n) == Times(n as real, x[0])
  {
    if n > 0 {
      ConstantSum(x, n - 1);
      assert Times(n as real, x[0]) == Times((n - 1) as real, x[0]) + x[0] by {
        assert n as real == (n - 1) as real + 1.0;
      }
    }
  }

  lemma ConstantMean(x: Column)
    requires x != [] && Constant(x)
    ensures Sum(x, |x|) / (|x| as real) == x[0]
  {
    ConstantSum(x, |x|);
    var k := |x| as real;
    QuotientProduct(x[0], k);
    assert Times(k, x[0]) == x[0] * k;
  }

  /** A column has zero variance exactly when it is constant. */
  lemma ZeroVarianceIffConstant(x: Column)
    requires x != []
    ensures Dot(Centered(x), Centered(x), |x|) == 0.0 <==> Constant(x)
  {
    hide Dot, Sum;
    var d, mean := Centered(x), Sum(x, |x|) / (|x| as real);
    assert forall t :: 0 <= t < |x| ==> d[t] == x[t] - mean;
    DotSelfNonNegative(d, |x|);
    if Constant(x) {
      ConstantMean(x);
    }
    hide Centered;
    if forall t :: 0 <= t < |x| ==> d[t] == 0.0 {
      assert x[0] == mean;
    }
  }

  // ----- normalized columns

  function Scaled(x: Column, norm: real): (u: Column)
    requires norm > 0.0
    ensures |u| == |x|
  {
    seq(|x|, t requires 0 <= t < |x| => x[t] / norm)
  }

  /** Dot products scale with both norms. */
  lemma {:induction false} DotScales(x: Column, y: Column, a: real, b: real, n: nat)
    requires a > 0.0 && b > 0.0 && n <= |x| && n <= |y|
    ensures Dot(x, y, n) == Times(Times(a, b), Dot(Scaled(x, a), Scaled(y, b), n))
  {
    if n > 0 {
      DotScales(x, y, a, b, n - 1);
      var p, q := x[n - 1] / a, y[n - 1] / b;
      ProductOfScaled(x[n - 1], y[n - 1], a, b);
      Distribute(Times(a, b), Dot(Scaled(x, a), Scaled(y, b), n - 1), Times(p, q));
    } else {
      assert Times(Times(a, b), 0.0) == 0.0;
    }
  }

  lemma ProductOfScaled(x: real, y: real, a: real, b: real)
    requires a > 0.0 && b > 0.0
    ensures Times(x, y) == Times(Times(a, b), Times(x / a, y / b))
  {
    var p, q := x / a, y / b;
    QuotientProduct(x, a);
    QuotientProduct(y, b);
    assert x == p * a && y == q * b;
    assert (p * a) * (q * b) == (a * b) * (p * q);
  }

  /** Pearson's correlation, as the code divides it. */
  function Correlation(x: Column, y: Column, a: real, b: real, n: nat): real
    requires a > 0.0 && b > 0.0 && n <= |x| && n <= |y|
  {
    Dot(x, y, n) / (a * b)
  }

  lemma CorrelationIsDot(x: Column, y: Column, a: real, b: real, n: nat)
    requires a > 0.0 && b > 0.0 && n <= |x| && n <= |y|
    ensures a * b > 0.0
    ensures Correlation(x, y, a, b, n) == Dot(Scaled(x, a), Scaled(y, b), n)
  {
    ProductPositive(a, b);
    DotScales(x, y, a, b, n);
    var k, v := a * b, Dot(Scaled(x, a), Scaled(y, b), n);
    assert k * v / k == v;
  }

  lemma UnitLength(x: Column, norm: real, n: nat)
    requires n <= |x| && norm > 0.0 && Square(norm) == Dot(x, x, n)
    ensures Dot(Scaled(x, norm), Scaled(x, norm), n) == 1.0
  {
    DotScales(x, x, norm, norm, n);
    TimesPositive(norm, norm);
    assert Square(norm) == Times(norm, norm);
    UnitFactor(Times(norm, norm), Dot(Scaled(x, norm), Scaled(x, norm), n));
  }

  lemma TimesPositive(x: real, y: real)
    requires x > 0.0 && y > 0.0
    ensures Times(x, y) > 0.0
  {
    ProductPositive(x, y);
  }

  lemma UnitFactor(k: real, v: real)
    requires k > 0.0 && Times(k, v) == k
    ensures v == 1.0
  {
    var w := v - 1.0;
    ProductNonZero(k, w);
    assert k * w == k * v - k;
  }

  // ----- the squared length of the sum of the normalized columns

  ghost predicate Uniform(us: seq<Column>, n: nat) {
    forall i :: 0 <= i < |us| ==> |us[i]| == n
  }

  /** Column i and every later one, added at observation t. */
  function TailSum(us: seq<Column>, n: nat, i: nat, t: nat): real
    requires Uniform(us, n) && i <= |us| && t < n
    decreases |us| - i
  {
    if i == |us| then 0.0 else us[i][t] + TailSum(us, n, i + 1, t)
  }

  function TailEnergy(us: seq<Column>, n: nat, i: nat, m: nat): real
    requires Uniform(us, n) && i <= |us| && m <= n
  {
    if m == 0 then 0.0 else TailEnergy(us, n, i, m - 1) + Square(TailSum(us, n, i, m - 1))
  }

  /** The dot products of column i with every column from j on. */
  function RowSum(us: seq<Column>, n: nat, i: nat, j: nat, m: nat): real
    requires Uniform(us, n) && i < |us| && j <= |us| && m <= n
    decreases |us| - j
  {
    if j == |us| then 0.0 else Dot(us[i], us[j], m) + RowSum(us, n, i, j + 1, m)
  }

  /** The dot products of all pairs of columns from i on. */
  function PairSum(us: seq<Column>, n: nat, i: nat): real
    requires Uniform(us, n) && i <= |us|
    decreases |us| - i
  {
    if i == |us| then 0.0 else RowSum(us, n, i, i + 1, n) + PairSum(us, n, i + 1)
  }

  lemma {:induction false} RowSumStep(us: seq<Column>, n: nat, i: nat, j: nat, m: nat)
    requires Uniform(us, n) && i < |us| && j <= |us| && m < n
    ensures RowSum(us, n, i, j, m + 1) == RowSum(us, n, i, j, m) + Times(us[i][m], TailSum(us, n, j, m))
    decreases |us| - j
  {
    if j < |us| {
      RowSumStep(us, n, i, j + 1, m);
      Distribute(us[i][m], us[j][m], TailSum(us, n, j + 1, m));
      assert Times(us[i][m], TailSum(us, n, j, m))
             == Times(us[i][m], us[j][m]) + Times(us[i][m], TailSum(us, n, j + 1, m));
    } else {
      assert Times(us[i][m], 0.0) == 0.0;
    }
  }

  lemma RowSumZero(us: seq<Column>, n: nat, i: nat, j: nat)
    requires Uniform(us, n) && i < |us| && j <= |us|
    ensures RowSum(us, n, i, j, 0) == 0.0
    decreases |us| - j
  {
    if j < |us| {
      RowSumZero(us, n, i, j + 1);
    }
  }

  /** Splitting the first column off the squared length. */
  lemma {:induction false} EnergySplits(us: seq<Column>, n: nat, i: nat, m: nat)
    requires Uniform(us, n) && i < |us| && m <= n
    ensures TailEnergy(us, n, i, m)
            == Dot(us[i], us[i], m) + 2.0 * RowSum(us, n, i, i + 1, m) + TailEnergy(us, n, i + 1, m)
  {
    if m == 0 {
      RowSumZero(us, n, i, i + 1);
    } else {
      EnergySplits(us, n, i, m - 1);
      RowSumStep(us, n, i, i + 1, m - 1);
      var x, y := us[i][m - 1], TailSum(us, n, i + 1, m - 1);
      assert TailSum(us, n, i, m - 1) == x + y;
      SquareOfTotal(x, y);
    }
  }

  lemma SquareOfTotal(x: real, y: real)
    ensures Square(x + y) == Times(x, x) + 2.0 * Times(x, y) + Square(y)
  {
  }

  ghost predicate UnitColumns(us: seq<Column>, n: nat)
    requires Uniform(us, n)
  {
    forall i :: 0 <= i < |us| ==> Dot(us[i], us[i], n) == 1.0
  }

  /** The squared length of the sum of M unit columns is M plus twice the sum over all pairs. */
  lemma {:induction false} EnergyIsPairs(us: seq<Column>, n: nat, i: nat)
    requires Uniform(us, n) && UnitColumns(us, n) && i <= |us|
    ensures TailEnergy(us, n, i, n) == (|us| - i) as real + 2.0 * PairSum(us, n, i)
    decreases |us| - i
  {
    if i < |us| {
      EnergyIsPairs(us, n, i + 1);
      EnergySplits(us, n, i, n);
      hide TailEnergy, Dot, RowSum;
      assert (|us| - i) as real == (|us| - (i + 1)) as real + 1.0;
    } else {
      NoColumnsNoEnergy(us, n, n);
    }
  }

  lemma {:induction false} NoColumnsNoEnergy(us: seq<Column>, n: nat, m: nat)
    requires Uniform(us, n) && m <= n
    ensures TailEnergy(us, n, |us|, m) == 0.0
  {
    if m > 0 {
      NoColumnsNoEnergy(us, n, m - 1);
    }
  }

  lemma {:induction false} EnergyNonNegative(us: seq<Column>, n: nat, i: nat, m: nat)
    requires Uniform(us, n) && i <= |us| && m <= n
    ensures TailEnergy(us, n, i, m) >= 0.0
  {
    if m > 0 {
      EnergyNonNegative(us, n, i, m - 1);
      SquareNonNegative(TailSum(us, n, i, m - 1));
    }
  }

  /** Cauchy-Schwarz for two unit columns, from the squared length of their difference. */
  lemma UnitDotAtMostOne(x: Column, y: Column, n: nat)
    requires n <= |x| && n <= |y| && Dot(x, x, n) == 1.0 && Dot(y, y, n) == 1.0
    ensures Dot(x, y, n) <= 1.0
  {
    DifferenceEnergy(x, y, n);
  }

  lemma {:induction false} DifferenceEnergy(x: Column, y: Column, n: nat)
    requires n <= |x| && n <= |y|
    ensures Dot(x, x, n) - 2.0 * Dot(x, y, n) + Dot(y, y, n) >= 0.0
  {
    if n > 0 {
      DifferenceEnergy(x, y, n - 1);
      SquareOfDifference(x[n - 1], y[n - 1]);
      hide Times;
    }
  }

  lemma SquareOfDifference(a: real, b: real)
    ensures Times(a, a) - 2.0 * Times(a, b) + Times(b, b) >= 0.0
  {
    SquareNonNegative(a - b);
    assert (a - b) * (a - b) == Times(a, a) - 2.0 * Times(a, b) + Times(b, b);
  }

  lemma {:induction false} RowSumAtMost(us: seq<Column>, n: nat, i: nat, j: nat)
    requires Uniform(us, n) && UnitColumns(us, n) && i < |us| && j <= |us|
    ensures RowSum(us, n, i, j, n) <= (|us| - j) as real
    decreases |us| - j
  {
    if j < |us| {
      RowSumAtMost(us, n, i, j + 1);
      UnitDotAtMostOne(us[i], us[j], n);
    }
  }

  /** The number of pairs of columns from i on. */
  function PairCount(m: nat, i: nat): nat
    requires i <= m
    decreases m - i
  {
    if i == m then 0 else (m - i - 1) + PairCount(m, i + 1)
  }

  lemma {:induction false} PairCountClosed(m: nat, i: nat)
    requires i <= m
    ensures 2 * PairCount(m, i) == (m - i) * (m - i - 1)
    decreases m - i
  {
    if i < m {
      PairCountClosed(m, i + 1);
      var d := m - i;
      assert d * (d - 1) == 2 * (d - 1) + (d - 1) * (d - 2);
    }
  }

  lemma {:induction false} PairSumAtMost(us: seq<Column>, n: nat, i: nat)
    requires Uniform(us, n) && UnitColumns(us, n) && i <= |us|
    ensures PairSum(us, n, i) <= PairCount(|us|, i) as real
    decreases |us| - i
  {
    if i < |us| {
      PairSumAtMost(us, n, i + 1);
      RowSumAtMost(us, n, i, i + 1);
    }
  }

  // ----- the bounds

  /** Every pair of columns from i on is perfectly correlated. */
  ghost predicate AllAligned(us: seq<Column>, n: nat, i: nat)
    requires Uniform(us, n)
  {
    forall a, b :: i <= a < b < |us| ==> Dot(us[a], us[b], n) == 1.0
  }

  lemma {:induction false} RowSumFull(us: seq<Column>, n: nat, i: nat, j: nat)
    requires Uniform(us, n) && UnitColumns(us, n) && i < |us| && j <= |us|
    ensures RowSum(us, n, i, j, n) == (|us| - j) as real <==> forall b :: j <= b < |us| ==> Dot(us[i], us[b], n) == 1.0
    decreases |us| - j
  {
    if j < |us| {
      RowSumFull(us, n, i, j + 1);
      RowSumAtMost(us, n, i, j + 1);
      UnitDotAtMostOne(us[i], us[j], n);
    }
  }

  lemma {:induction false} PairSumFull(us: seq<Column>, n: nat, i: nat)
    requires Uniform(us, n) && UnitColumns(us, n) && i <= |us|
    ensures PairSum(us, n, i) == PairCount(|us|, i) as real <==> AllAligned(us, n, i)
    decreases |us| - i
  {
    if i < |us| {
      PairSumFull(us, n, i + 1);
      PairSumAtMost(us, n, i + 1);
      RowSumAtMost(us, n, i, i + 1);
      RowSumFull(us, n, i, i + 1);
    }
  }

  /** What a count means for M columns with this mean correlation: the squared length of their sum is
      M (M + 1 - count).  So the count lies in [1, M + 1], is 1 exactly when every pair is perfectly
      correlated, M exactly when the mean correlation is zero, above M exactly when it is negative, and
      M + 1 exactly when the columns cancel. */
  ghost predicate IsEffectiveCount(effective: real, us: seq<Column>, n: nat, rho: real)
    requires Uniform(us, n)
  {
    var m := |us| as real;
    && TailEnergy(us, n, 0, n) == Times(m, m + 1.0 - effective)
    && 1.0 <= effective <= m + 1.0
    && (effective == 1.0 <==> AllAligned(us, n, 0))
    && (effective == m <==> rho == 0.0)
    && (effective > m <==> rho < 0.0)
    && (effective == m + 1.0 <==> TailEnergy(us, n, 0, n) == 0.0)
  }

  lemma EffectiveBounds(us: seq<Column>, n: nat, rho: real, effective: real)
    requires Uniform(us, n) && UnitColumns(us, n) && |us| >= 2
    requires rho * (PairCount(|us|, 0) as real) == PairSum(us, n, 0)
    requires effective == rho + (1.0 - rho) * |us| as real
    ensures -1.0 <= rho * (|us| as real - 1.0) && rho <= 1.0
    ensures IsEffectiveCount(effective, us, n, rho)
  {
    EnergyNonNegative(us, n, 0, n);
    EnergyIsPairs(us, n, 0);
    PairSumAtMost(us, n, 0);
    PairSumFull(us, n, 0);
    PairCountClosed(|us|, 0);
    hide TailEnergy, PairSum, PairCount, UnitColumns, AllAligned;
    MeanCorrelationBounds(|us|, PairCount(|us|, 0), PairSum(us, n, 0), rho, effective);
  }

  lemma MeanCorrelationBounds(m: nat, pairs: nat, total: real, rho: real, effective: real)
    requires m >= 2 && 2 * pairs == m * (m - 1) && effective == rho + (1.0 - rho) * m as real
    requires rho * (pairs as real) == total && total <= pairs as real && 0.0 <= m as real + 2.0 * total
    ensures -1.0 <= rho * (m as real - 1.0) && rho <= 1.0
    ensures m as real + 2.0 * total == Times(m as real, m as real + 1.0 - effective)
    ensures 1.0 <= effective <= m as real + 1.0
    ensures effective == 1.0 <==> total == pairs as real
    ensures effective == m as real <==> rho == 0.0
    ensures effective > m as real <==> rho < 0.0
    ensures effective == m as real + 1.0 <==> m as real + 2.0 * total == 0.0
  {
    var p, k := pairs as real, m as real;
    CastProduct(m, m - 1);
    assert 2.0 * p == k * (k - 1.0) by {
      assert (2 * pairs) as real == 2.0 * p;
    }
    assert pairs > 0 by { assert m * (m - 1) >= 2; }
    ProductSign(p, 1.0 - rho);
    assert p * (1.0 - rho) == p - total;
    var slack := 1.0 + rho * (k - 1.0);
    assert k * slack == k + rho * (k * (k - 1.0));
    assert rho * (k * (k - 1.0)) == 2.0 * (rho * p);
    ProductSign(k, slack);
    assert effective == k - rho * (k - 1.0);
    assert slack == k + 1.0 - effective;
    ProductSign(k - 1.0, rho);
    ProductSign(k - 1.0, 1.0 - rho);
    assert (k - 1.0) * (1.0 - rho) == k - 1.0 - rho * (k - 1.0);
  }

  // ----- the estimate

  datatype TrialError = TooFewTrials | TooFewObservations | ZeroVariance(column: nat)

  datatype EffectiveTrialCount = EffectiveTrialCount(
    trialCount: nat, pairCount: nat, meanCorrelation: real, effective: real, exceeds: bool)

  ghost predicate Normalizes(root: real -> real, columns: seq<Column>, us: seq<Column>, n: nat)
    requires Uniform(columns, n) && n > 0
  {
    && |us| == |columns| && Uniform(us, n)
    && forall i :: 0 <= i < |us| ==>
         var d := Centered(columns[i]);
         var norm := root(Dot(d, d, n));
         norm > 0.0 && forall t :: 0 <= t < n ==> Times(us[i][t], norm) == d[t]
  }

  lemma ScaledNormalizes(root: real -> real, columns: seq<Column>, us: seq<Column>, n: nat, norms: seq<real>)
    requires Uniform(columns, n) && n > 0 && |us| == |columns| == |norms| && Uniform(us, n)
    requires forall i :: 0 <= i < |us| ==>
               var d := Centered(columns[i]);
               norms[i] == root(Dot(d, d, n)) && norms[i] > 0.0 && us[i] == Scaled(d, norms[i])
    ensures Normalizes(root, columns, us, n)
  {
    hide Dot, Centered, Scaled;
    forall i, t | 0 <= i < |us| && 0 <= t < n
      ensures Times(us[i][t], norms[i]) == Centered(columns[i])[t]
    {
      ScaledAt(Centered(columns[i]), norms[i], t);
    }
    hide Times;
  }

  lemma ScaledAt(x: Column, norm: real, t: nat)
    requires norm > 0.0 && t < |x|
    ensures Times(Scaled(x, norm)[t], norm) == x[t]
  {
    QuotientProduct(x[t], norm);
  }

  method CenterColumn(root: real -> real, column: Column, n: nat) returns (deviations: Column, norm: real)
    requires IsRoot(root) && |column| == n > 0
    ensures deviations == Centered(column) && norm == root(Dot(deviations, deviations, n))
    ensures norm >= 0.0 && Square(norm) == Dot(deviations, deviations, n)
    ensures norm == 0.0 <==> Constant(column)
  {
    deviations := Centered(column);
    var total := 0.0;
    for t := 0 to n
      invariant total == Dot(deviations, deviations, t)
    {
      total := total + deviations[t] * deviations[t];
    }
    DotSelfNonNegative(deviations, n);
    ZeroVarianceIffConstant(column);
    norm := root(total);
    SquareNonNegative(norm);
    hide Dot, Constant, Centered;
  }

  /** The mean pairwise correlation and the interpolated count; refused exactly for fewer than two
      trials or observations, or a constant column. */
  method EstimateEffectiveTrialCount(root: real -> real, columns: seq<Column>, n: nat)
    returns (r: Result<EffectiveTrialCount, TrialError>, ghost us: seq<Column>)
    requires IsRoot(root) && Uniform(columns, n)
    ensures r.Ok? <==> |columns| >= 2 && n >= 2 && forall i :: 0 <= i < |columns| ==> !Constant(columns[i])
    ensures r.Err? && r.error.ZeroVariance? ==>
              r.error.column < |columns| && Constant(columns[r.error.column])
              && forall i :: 0 <= i < r.error.column ==> !Constant(columns[i])
    ensures r.Ok? ==>
              && Normalizes(root, columns, us, n) && UnitColumns(us, n)
              && r.value.trialCount == |columns| && r.value.pairCount == PairCount(|columns|, 0)
              && r.value.meanCorrelation * (r.value.pairCount as real) == PairSum(us, n, 0)
              && IsEffectiveCount(r.value.effective, us, n, r.value.meanCorrelation)
              && (r.value.exceeds <==> r.value.effective > |columns| as real)
  {
    hide Centered, Dot, Scaled, Times, IsRoot, PairCount, PairSum, Normalizes, IsEffectiveCount;
    us := [];
    var count := |columns|;
    if count < 2 {
      return Err(TooFewTrials), us;
    }
    if n < 2 {
      return Err(TooFewObservations), us;
    }
    var centered: seq<Column> := [];
    var norms: seq<real> := [];
    for i := 0 to count
      invariant |centered| == |norms| == |us| == i
      invariant forall j :: 0 <= j < i ==> !Constant(columns[j])
      invariant forall j :: 0 <= j < i ==>
                  && centered[j] == Centered(columns[j]) && |centered[j]| == n
                  && norms[j] == root(Dot(centered[j], centered[j], n)) && norms[j] > 0.0
                  && us[j] == Scaled(centered[j], norms[j]) && Dot(us[j], us[j], n) == 1.0
    {
      var deviations, norm := CenterColumn(root, columns[i], n);
      if norm == 0.0 {
        return Err(ZeroVariance(i)), us;
      }
      UnitLength(deviations, norm, n);
      centered, norms, us := centered + [deviations], norms + [norm], us + [Scaled(deviations, norm)];
    }
    assert Uniform(us, n) && UnitColumns(us, n);
    ScaledNormalizes(root, columns, us, n, norms);
    var total, pairs: nat := AddCorrelations(centered, norms, n, us);
    PairCountClosed(count, 0);
    assert pairs > 0 by { assert count * (count - 1) >= 2; }
    var rho := total / pairs as real;
    QuotientProduct(total, pairs as real);
    var effective := rho + (1.0 - rho) * count as real;
    EffectiveBounds(us, n, rho, effective);
    return Ok(EffectiveTrialCount(count, pairs, rho, effective, effective > count as real)), us;
  }

  /** The nested accumulation over i < j, row by row. */
  method AddCorrelations(centered: seq<Column>, norms: seq<real>, n: nat, ghost us: seq<Column>)
    returns (total: real, pairs: nat)
    requires Uniform(centered, n) && Uniform(us, n) && |centered| == |norms| == |us|
    requires forall j :: 0 <= j < |us| ==> norms[j] > 0.0 && us[j] == Scaled(centered[j], norms[j])
    ensures total == PairSum(us, n, 0) && pairs == PairCount(|us|, 0)
  {
    hide Scaled;
    total, pairs := 0.0, 0;
    var count := |norms|;
    for i := 0 to count
      invariant total + PairSum(us, n, i) == PairSum(us, n, 0)
      invariant pairs + PairCount(|us|, i) == PairCount(|us|, 0)
    {
      for j := i + 1 to count
        invariant total + RowSum(us, n, i, j, n) + PairSum(us, n, i + 1) == PairSum(us, n, 0)
        invariant pairs + (|us| - j) + PairCount(|us|, i + 1) == PairCount(|us|, 0)
      {
        CorrelationIsDot(centered[i], centered[j], norms[i], norms[j], n);
        var product := 0.0;
        for t := 0 to n
          invariant product == Dot(centered[i], centered[j], t)
        {
          product := product + centered[i][t] * centered[j][t];
        }
        assert Correlation(centered[i], centered[j], norms[i], norms[j], n) == product / (norms[i] * norms[j]);
        total := total + product / (norms[i] * norms[j]);
        pairs := pairs + 1;
      }
    }
  }
}
