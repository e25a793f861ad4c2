/** The probability of backtest overfitting by combinatorially symmetric cross-validation: block
    combinations, mid-ranks and the tie-split overfitting weights.  Logarithms are left out. */
module Pbo {
  import opened Outcomes
  import opened Sums
  import opened ProductFacts
  import opened Combinations
  import opened FoldModel
  import opened Cpcv

  const MAX_EVALUATIONS := 20_000_000

  // ----- average ranks

  function Smaller(values: seq<real>, v: real, n: nat): (k: nat)
    requires n <= |values|
    ensures k <= n
  {
    if n == 0 then 0 else Smaller(values, v, n - 1) + if values[n - 1] < v then 1 else 0
  }

  function Equal(values: seq<real>, v: real, n: nat): (k: nat)
    requires n <= |values|
    ensures k <= n
  {
    if n == 0 then 0 else Equal(values, v, n - 1) + if values[n - 1] == v then 1 else 0
  }

  function Larger(values: seq<real>, v: real, n: nat): (k: nat)
    requires n <= |values|
    ensures k <= n
  {
    if n == 0 then 0 else Larger(values, v, n - 1) + if values[n - 1] > v then 1 else 0
  }

  /** Twice the mid-rank, an integer. */
  function DoubleRank(values: seq<real>, c: nat): nat
    requires c < |values|
  {
    2 * Smaller(values, values[c], |values|) + Equal(values, values[c], |values|) + 1
  }

  function AverageRank(values: seq<real>, c: nat): real
    requires c < |values|
  {
    DoubleRank(values, c) as real / 2.0
  }

  ghost predicate IsMidRank(rank: real, values: seq<real>, c: nat)
    requires c < |values|
  {
    var n, v := |values|, values[c];
    2.0 * rank + Larger(values, v, n) as real == (n + 1) as real + Smaller(values, v, n) as real
  }

  /** Ranks are ordered as the values are, and equal exactly on ties. */
  lemma RanksFollowValues(values: seq<real>, c: nat, d: nat)
    requires c < |values| && d < |values|
    ensures AverageRank(values, c) < AverageRank(values, d) <==> values[c] < values[d]
  {
    var n := |values|;
    SelfIsEqual(values, c, n);
    SelfIsEqual(values, d, n);
    if values[c] < values[d] {
      BelowIsSmaller(values, values[c], values[d], n);
    } else if values[d] < values[c] {
      BelowIsSmaller(values, values[d], values[c], n);
    }
  }

  lemma {:induction false} BelowIsSmaller(values: seq<real>, v: real, w: real, n: nat)
    requires n <= |values| && v < w
    ensures Smaller(values, v, n) + Equal(values, v, n) <= Smaller(values, w, n)
  {
    if n > 0 {
      BelowIsSmaller(values, v, w, n - 1);
    }
  }

  lemma {:induction false} Trichotomy(values: seq<real>, v: real, n: nat)
    requires n <= |values|
    ensures Smaller(values, v, n) + Equal(values, v, n) + Larger(values, v, n) == n
  {
    if n > 0 {
      Trichotomy(values, v, n - 1);
    }
  }

  lemma {:induction false} SelfIsEqual(values: seq<real>, c: nat, n: nat)
    requires c < n <= |values|
    ensures Equal(values, values[c], n) >= 1
  {
    if c < n - 1 {
      SelfIsEqual(values, c, n - 1);
    }
  }

  /** A mid-rank exceeds the median rank by half of what more values lie below than above; so it lies in
      [1, N], and is at or below the median exactly when no more values lie below than above. */
  lemma RankMeaning(values: seq<real>, c: nat)
    requires c < |values|
    ensures IsMidRank(AverageRank(values, c), values, c)
    ensures 1.0 <= AverageRank(values, c) <= |values| as real
    ensures 2.0 * AverageRank(values, c) <= (|values| + 1) as real <==>
            Smaller(values, values[c], |values|) <= Larger(values, values[c], |values|)
  {
    Trichotomy(values, values[c], |values|);
    SelfIsEqual(values, c, |values|);
    var d := DoubleRank(values, c);
    assert 2.0 * AverageRank(values, c) == d as real;
    assert 2 <= d <= 2 * |values|;
  }

  /** What the pair (c, d) adds to twice the rank of c. */
  function PairTerm(values: seq<real>, c: nat, d: nat): nat
    requires c < |values| && d < |values|
  {
    if values[d] < values[c] then 2 else if values[d] == values[c] then 1 else 0
  }

  function RowTerms(values: seq<real>, c: nat, n: nat): nat
    requires c < |values| && n <= |values|
  {
    if n == 0 then 0 else RowTerms(values, c, n - 1) + PairTerm(values, c, n - 1)
  }

  function ColumnTerms(values: seq<real>, d: nat, n: nat): nat
    requires d < |values| && n <= |values|
  {
    if n == 0 then 0 else ColumnTerms(values, d, n - 1) + PairTerm(values, n - 1, d)
  }

  /** The sum of the terms of rows below m over columns below n. */
  function TermSum(values: seq<real>, m: nat, n: nat): nat
    requires m <= |values| && n <= |values|
  {
    if m == 0 then 0 else TermSum(values, m - 1, n) + RowTerms(values, m - 1, n)
  }

  function DoubleRankSum(values: seq<real>, m: nat): nat
    requires m <= |values|
  {
    if m == 0 then 0 else DoubleRankSum(values, m - 1) + DoubleRank(values, m - 1)
  }

  lemma {:induction false} RowTermsAreRank(values: seq<real>, c: nat, n: nat)
    requires c < |values| && n <= |values|
    ensures RowTerms(values, c, n) == 2 * Smaller(values, values[c], n) + Equal(values, values[c], n)
  {
    if n > 0 {
      RowTermsAreRank(values, c, n - 1);
    }
  }

  lemma {:induction false} OneMoreColumn(values: seq<real>, m: nat, n: nat)
    requires m <= |values| && n < |values|
    ensures TermSum(values, m, n + 1) == TermSum(values, m, n) + ColumnTerms(values, n, m)
  {
    if m > 0 {
      OneMoreColumn(values, m - 1, n);
    }
  }

  /** Each unordered pair contributes two in total, and each value one with itself. */
  lemma {:induction false} RowPlusColumn(values: seq<real>, c: nat, n: nat)
    requires c < |values| && n <= |values|
    ensures RowTerms(values, c, n) + ColumnTerms(values, c, n) == 2 * n
  {
    if n > 0 {
      RowPlusColumn(values, c, n - 1);
    }
  }

  lemma {:induction false} SquareOfTerms(values: seq<real>, n: nat)
    requires n <= |values|
    ensures TermSum(values, n, n) == n * n
  {
    if n > 0 {
      SquareOfTerms(values, n - 1);
      OneMoreColumn(values, n - 1, n - 1);
      RowPlusColumn(values, n - 1, n - 1);
      assert (n - 1) * (n - 1) + 2 * (n - 1) + 1 == n * n;
    }
  }

  lemma {:induction false} RanksAreTerms(values: seq<real>, m: nat)
    requires m <= |values|
    ensures DoubleRankSum(values, m) == TermSum(values, m, |values|) + m
  {
    if m > 0 {
      RanksAreTerms(values, m - 1);
      RowTermsAreRank(values, m - 1, |values|);
    }
  }

  /** With any ties the mid-ranks still sum to N(N+1)/2. */
  lemma RanksConserveTheirSum(values: seq<real>)
    ensures DoubleRankSum(values, |values|) == |values| * (|values| + 1)
  {
    RanksAreTerms(values, |values|);
    SquareOfTerms(values, |values|);
  }

  // ----- block combinations

  function Complement(blocks: seq<nat>, count: nat): seq<nat> {
    Select(count, (b: nat) => b !in blocks)
  }

  /** The rows of the blocks, ascending. */
  function RowsIn(blocks: seq<nat>, size: nat, rows: nat): (r: seq<nat>)
    requires size > 0
    ensures FoldModel.Below(r, rows)
    ensures forall row: nat :: row in r <==> row < rows && row / size in blocks
  {
    Select(rows, (row: nat) => row / size in blocks)
  }

  /** The blocks are consecutive runs of equally many rows. */
  lemma RowsOfBlocks(blocks: seq<nat>, size: nat, rows: nat, row: nat)
    requires size > 0
    ensures row in RowsIn(blocks, size, rows) <==>
            row < rows && exists b :: b in blocks && b * size <= row < (b + 1) * size
  {
    var q := row / size;
    assert row == q * size + row % size;
    assert (q + 1) * size == q * size + size;
    forall b: nat | b * size <= row < (b + 1) * size
      ensures b == q
    {
      assert (b + 1) * size == b * size + size;
      if b < q {
        IntegerProductMonotone(b + 1, q, size);
      } else if b > q {
        IntegerProductMonotone(q + 1, b, size);
      }
    }
    if row in RowsIn(blocks, size, rows) {
      assert q in blocks && q * size <= row < (q + 1) * size;
    }
  }

  lemma QuotientBelow(row: nat, size: nat, count: nat)
    requires size > 0 && row < count * size
    ensures row / size < count
  {
    var q := row / size;
    assert row == q * size + row % size;
    if count <= q {
      IntegerProductMonotone(count, q, size);
    }
  }

  /** Every row is in sample or out of sample, never both. */
  lemma HalvesPartitionRows(blocks: seq<nat>, count: nat, size: nat, row: nat)
    requires size > 0 && row < count * size
    ensures row in RowsIn(blocks, size, count * size) <==>
            row !in RowsIn(Complement(blocks, count), size, count * size)
  {
    var inRows, outRows := RowsIn(blocks, size, count * size), RowsIn(Complement(blocks, count), size, count * size);
    QuotientBelow(row, size, count);
    assert row in inRows <==> row / size in blocks;
    assert row in outRows <==> row / size !in blocks;
    hide *;
  }

  lemma {:induction false} ChooseSymmetric(n: nat, k: nat)
    requires k <= n
    ensures Choose(n, k) == Choose(n, n - k)
  {
    if 0 < k < n {
      ChooseSymmetric(n - 1, k - 1);
      ChooseSymmetric(n - 1, k);
    } else {
      ChooseAll(n);
    }
  }

  lemma {:induction false} ChooseAll(n: nat)
    ensures Choose(n, n) == 1
  {
    if n > 0 {
      ChooseAll(n - 1);
      ChooseTooMany(n - 1, n);
    }
  }

  lemma {:induction false} ChooseTooMany(n: nat, k: nat)
    requires n < k
    ensures Choose(n, k) == 0
  {
    if n > 0 {
      ChooseTooMany(n - 1, k - 1);
      ChooseTooMany(n - 1, k);
    }
  }

  /** Every block is in sample in exactly half of the combinations. */
  lemma EachBlockInHalf(count: nat, b: nat)
    requires count % 2 == 0 && b < count
    ensures 2 * Containing(0, count, count / 2, b) == Choose(count, count / 2)
  {
    EachIndexOccurs(0, count, count / 2, b);
    ChooseSymmetric(count - 1, count / 2);
    assert count - 1 - count / 2 == count / 2 - 1;
    hide Containing;
  }

  /** The complement of an in-sample half is an in-sample half of the list. */
  lemma ComplementIsListed(count: nat, i: nat) returns (j: nat)
    requires count % 2 == 0 && i < |Combos(0, count, count / 2)|
    ensures j < |Combos(0, count, count / 2)|
    ensures Combos(0, count, count / 2)[j] == Complement(Combos(0, count, count / 2)[i], count)
  {
    var blocks := Combos(0, count, count / 2)[i];
    CombosSound(0, count, count / 2, i);
    var other := Complement(blocks, count);
    assert Ascending(blocks) && |blocks| == count / 2 && FoldModel.Below(blocks, count);
    assert Ascending(other) && FoldModel.Below(other, count) && forall b: nat :: b in other <==> b < count && b !in blocks;
    ComplementSize(blocks, other, count);
    assert IsCombination(other, 0, count, count / 2);
    j := CombosComplete(0, count, count / 2, other);
  }

  lemma SmallestMember(s: seq<nat>)
    ensures s == [] || exists b: nat :: b in s
  {
    if s != [] {
      assert s[0] in s;
    }
  }

  lemma {:induction false} ComplementSize(blocks: seq<nat>, other: seq<nat>, count: nat)
    requires Ascending(blocks) && Ascending(other)
    requires forall b: nat :: b in blocks ==> b < count
    requires forall b: nat :: b in other <==> b < count && b !in blocks
    ensures |blocks| + |other| == count
  {
    if count == 0 {
      SmallestMember(blocks);
      SmallestMember(other);
    } else if count - 1 in blocks {
      DropTop(blocks, other, count);
      ComplementSize(blocks[..|blocks| - 1], other, count - 1);
    } else {
      assert count - 1 in other;
      DropTop(other, blocks, count);
      ComplementSize(blocks, other[..|other| - 1], count - 1);
    }
  }

  lemma DropTop(a: seq<nat>, b: seq<nat>, count: nat)
    requires Ascending(a) && Ascending(b) && count > 0 && count - 1 in a && count - 1 !in b
    requires forall r: nat :: r in a ==> r < count
    ensures a != [] && a[|a| - 1] == count - 1 && Ascending(a[..|a| - 1])
    ensures forall r: nat :: r in a[..|a| - 1] <==> r in a && r != count - 1
  {
    LastIsLargest(a, count - 1);
    assert a[|a| - 1] in a;
    forall r: nat
      ensures r in a[..|a| - 1] <==> r in a && r != count - 1
    {
      DropLast(a, r);
    }
  }

  // ----- one combination

  datatype PboError =
    | OddBlockCount
    | TooFewCandidates
    | IndivisibleRows
    | TooFewRows
    | TooExpensive
    | UndefinedSharpe

  datatype Combination = Combination(inSample: seq<nat>, selected: seq<nat>, ranks: seq<real>)

  /** The scores of every candidate on the given rows. */
  ghost predicate AreScores(cells: seq<seq<real>>, width: nat, sharpe: Sharpe, rows: seq<nat>, scores: seq<real>)
    requires FoldModel.Below(rows, |cells|) && Rectangular(cells, |cells|, width)
  {
    |scores| == width && forall c :: 0 <= c < width ==> Score(cells, width, sharpe, rows, c) == Some(scores[c])
  }

  method ColumnSharpes(cells: seq<seq<real>>, width: nat, sharpe: Sharpe, rows: seq<nat>)
    returns (r: Result<seq<real>, PboError>)
    requires FoldModel.Below(rows, |cells|) && Rectangular(cells, |cells|, width)
    ensures r.Ok? <==> ScoresDefined(cells, width, sharpe, rows)
    ensures r.Ok? ==> AreScores(cells, width, sharpe, rows, r.value)
    ensures r.Err? ==> r.error == UndefinedSharpe
  {
    hide Score, Rectangular, FoldModel.Below;
    var sharpes: seq<real> := [];
    for c := 0 to width
      invariant |sharpes| == c
      invariant forall d :: 0 <= d < c ==> Score(cells, width, sharpe, rows, d) == Some(sharpes[d])
    {
      var score := Score(cells, width, sharpe, rows, c);
      if score.None? {
        return Err(UndefinedSharpe);
      }
      sharpes := sharpes + [score.value];
    }
    return Ok(sharpes);
  }

  /** Out of sample, no more candidates are worse than better: at or below the median. */
  predicate Overfit(scores: seq<real>, c: nat)
    requires c < |scores|
  {
    Smaller(scores, scores[c], |scores|) <= Larger(scores, scores[c], |scores|)
  }

  function OverfitCount(scores: seq<real>, selected: seq<nat>, n: nat): (k: nat)
    requires n <= |selected| && FoldModel.Below(selected, |scores|)
    ensures k <= n
  {
    if n == 0 then 0 else OverfitCount(scores, selected, n - 1) + if Overfit(scores, selected[n - 1]) then 1 else 0
  }

  lemma OverfitStep(scores: seq<real>, selected: seq<nat>, k: nat)
    requires k < |selected| && FoldModel.Below(selected, |scores|)
    ensures OverfitCount(scores, selected, 0) == 0
    ensures OverfitCount(scores, selected, k + 1)
            == OverfitCount(scores, selected, k)
               + if Smaller(scores, scores[selected[k]], |scores|) <= Larger(scores, scores[selected[k]], |scores|) then 1 else 0
  {
  }

  ghost predicate CombinationHolds(
    cells: seq<seq<real>>, width: nat, sharpe: Sharpe, count: nat, size: nat, c: Combination, weight: real)
    requires size > 0 && |cells| == count * size && Rectangular(cells, |cells|, width)
  {
    var inRows := RowsIn(c.inSample, size, |cells|);
    var outRows := RowsIn(Complement(c.inSample, count), size, |cells|);
    && ScoresDefined(cells, width, sharpe, inRows)
    && AreSelected(cells, width, sharpe, inRows, c.selected)
    && |c.ranks| == |c.selected|
    && exists scores :: IsRanked(cells, width, sharpe, outRows, scores, c, weight)
  }

  /** The ranks of the selected candidates out of sample, and the share of them that overfits. */
  ghost predicate IsRanked(
    cells: seq<seq<real>>, width: nat, sharpe: Sharpe, outRows: seq<nat>, scores: seq<real>, c: Combination, weight: real)
    requires FoldModel.Below(outRows, |cells|) && Rectangular(cells, |cells|, width) && |c.ranks| == |c.selected|
  {
    && AreScores(cells, width, sharpe, outRows, scores)
    && FoldModel.Below(c.selected, |scores|)
    && (forall k :: 0 <= k < |c.selected| ==> IsMidRank(c.ranks[k], scores, c.selected[k]))
    && weight * (|c.selected| as real) == OverfitCount(scores, c.selected, |c.selected|) as real
    && 0.0 <= weight <= 1.0
  }

  method RankSelected(scores: seq<real>, selected: seq<nat>) returns (ranks: seq<real>, weight: real)
    requires FoldModel.Below(selected, |scores|) && selected != []
    ensures |ranks| == |selected| && forall k :: 0 <= k < |selected| ==> IsMidRank(ranks[k], scores, selected[k])
    ensures weight * (|selected| as real) == OverfitCount(scores, selected, |selected|) as real
    ensures 0.0 <= weight <= 1.0
  {
    hide AverageRank, IsMidRank, Larger, Share, Smaller, OverfitCount, Overfit;
    ranks := [];
    var overfit := 0;
    for k := 0 to |selected|
      invariant |ranks| == k && forall j :: 0 <= j < k ==> IsMidRank(ranks[j], scores, selected[j])
      invariant overfit == OverfitCount(scores, selected, k)
    {
      var rank := AverageRank(scores, selected[k]);
      ranks := ranks + [rank];
      RankMeaning(scores, selected[k]);
      OverfitStep(scores, selected, k);
      if 2.0 * rank <= (|scores| + 1) as real {
        overfit := overfit + 1;
      }
    }
    weight := Share(overfit, |selected|);
  }

  function Share(part: nat, whole: nat): (w: real)
    requires 0 < whole && part <= whole
    ensures w * (whole as real) == part as real && 0.0 <= w <= 1.0
  {
    ShareBounds(part as real, whole as real);
    part as real / whole as real
  }

  lemma ShareBounds(part: real, whole: real)
    requires 0.0 <= part <= whole && whole > 0.0
    ensures part / whole * whole == part && 0.0 <= part / whole <= 1.0
  {
    QuotientProduct(part, whole);
    var w := part / whole;
    ProductSign(whole, w);
    ProductSign(whole, 1.0 - w);
    assert whole * (1.0 - w) == whole - w * whole;
  }

  ghost predicate Evaluable(cells: seq<seq<real>>, width: nat, sharpe: Sharpe, count: nat, size: nat, blocks: seq<nat>)
    requires size > 0 && |cells| == count * size && Rectangular(cells, |cells|, width)
  {
    && ScoresDefined(cells, width, sharpe, RowsIn(blocks, size, |cells|))
    && ScoresDefined(cells, width, sharpe, RowsIn(Complement(blocks, count), size, |cells|))
  }

  method EvaluateCombination(
    cells: seq<seq<real>>, width: nat, sharpe: Sharpe, count: nat, size: nat, blocks: seq<nat>)
    returns (r: Result<(Combination, real), PboError>)
    requires size > 0 && |cells| == count * size && Rectangular(cells, |cells|, width) && width > 0
    ensures r.Ok? <==> Evaluable(cells, width, sharpe, count, size, blocks)
    ensures r.Ok? ==> r.value.0.inSample == blocks
                      && CombinationHolds(cells, width, sharpe, count, size, r.value.0, r.value.1)
    ensures r.Err? ==> r.error == UndefinedSharpe
  {
    hide OverfitCount;
    var inRows := RowsIn(blocks, size, |cells|);
    var outRows := RowsIn(Complement(blocks, count), size, |cells|);
    var best := SelectColumns(cells, width, sharpe, inRows, 0);
    if best.Err? {
      return Err(UndefinedSharpe);
    }
    var scores := ColumnSharpes(cells, width, sharpe, outRows);
    if scores.Err? {
      return Err(UndefinedSharpe);
    }
    var selected := best.value.1;
    assert selected != [] && FoldModel.Below(selected, width);
    assert |scores.value| == width;
    var ranks, weight := RankSelected(scores.value, selected);
    var c := Combination(blocks, selected, ranks);
    assert IsRanked(cells, width, sharpe, outRows, scores.value, c, weight);
    return Ok((c, weight));
  }

  // ----- the estimate

  datatype PboResult = PboResult(blockCount: nat, combinations: seq<Combination>, probability: real)

  ghost predicate Admissible(rows: nat, width: nat, count: int) {
    && count >= 2 && count % 2 == 0 && width >= 2 && rows % count == 0 && rows / 2 >= 2
    && Choose(count, count / 2) * rows * width <= MAX_EVALUATIONS
  }

  ghost predicate IsResult(
    cells: seq<seq<real>>, width: nat, sharpe: Sharpe, count: nat, size: nat, result: PboResult, weights: seq<real>)
    requires size > 0 && |cells| == count * size && Rectangular(cells, |cells|, width)
  {
    var cs := Combos(0, count, count / 2);
    && result.blockCount == count
    && |result.combinations| == |weights| == |cs| == Choose(count, count / 2)
    && (forall i :: 0 <= i < |cs| ==>
          result.combinations[i].inSample == cs[i]
          && CombinationHolds(cells, width, sharpe, count, size, result.combinations[i], weights[i]))
    && result.probability * (|cs| as real) == Sum(weights, |weights|)
    && 0.0 <= result.probability <= 1.0
  }

  lemma {:induction false} WeightsInRange(weights: seq<real>, n: nat)
    requires n <= |weights| && forall i :: 0 <= i < |weights| ==> 0.0 <= weights[i] <= 1.0
    ensures 0.0 <= Sum(weights, n) <= n as real
  {
    if n > 0 {
      WeightsInRange(weights, n - 1);
    }
  }

  /** The mean, over all block combinations, of the share of best candidates that overfit. */
  method ComputeProbabilityOfBacktestOverfitting(
    cells: seq<seq<real>>, width: nat, sharpe: Sharpe, count: int)
    returns (r: Result<PboResult, PboError>, ghost weights: seq<real>)
    requires Rectangular(cells, |cells|, width)
    ensures r.Ok? ==> Admissible(|cells|, width, count) && |cells| == count * (|cells| / count) && |cells| / count > 0
                      && IsResult(cells, width, sharpe, count, |cells| / count, r.value, weights)
    ensures Admissible(|cells|, width, count) && r.Err? ==>
              && |cells| == count * (|cells| / count) && |cells| / count > 0
              && exists i :: 0 <= i < |Combos(0, count, count / 2)|
                             && !Evaluable(cells, width, sharpe, count, |cells| / count, Combos(0, count, count / 2)[i])
  {
    hide AreScores, AreSelected, Ascending, IsMidRank, Below, Choose, Combos, Complement, Evaluable,
      OverfitCount, Rectangular, RowsIn, ScoresDefined, Select;
    weights := [];
    if count < 2 || count % 2 != 0 {
      return Err(OddBlockCount), weights;
    }
    if width < 2 {
      return Err(PboError.TooFewCandidates), weights;
    }
    if |cells| % count != 0 {
      return Err(IndivisibleRows), weights;
    }
    if |cells| / 2 < 2 {
      return Err(TooFewRows), weights;
    }
    if Choose(count, count / 2) * |cells| * width > MAX_EVALUATIONS {
      return Err(PboError.TooExpensive), weights;
    }
    var size := |cells| / count;
    BlockSize(|cells|, count);
    var cs := Combos(0, count, count / 2);
    CombosCount(0, count, count / 2);
    var total := 0.0;
    var results: seq<Combination> := [];
    assert Sum(weights, 0) == 0.0;
    for i := 0 to |cs|
      invariant |results| == |weights| == i
      invariant forall j :: 0 <= j < i ==>
                  results[j].inSample == cs[j] && CombinationHolds(cells, width, sharpe, count, size, results[j], weights[j])
      invariant total == Sum(weights, i)
      invariant forall j :: 0 <= j < i ==> 0.0 <= weights[j] <= 1.0
    {
      var combination := EvaluateCombination(cells, width, sharpe, count, size, cs[i]);
      if combination.Err? {
        assert !Evaluable(cells, width, sharpe, count, size, cs[i]);
        return Err(combination.error), weights;
      }
      assert 0.0 <= combination.value.1 <= 1.0;
      SumPrefix(weights, [combination.value.1], i);
      total := total + combination.value.1;
      weights := weights + [combination.value.1];
      assert total == Sum(weights, i + 1);
      results := results + [combination.value.0];
    }
    WeightsInRange(weights, |weights|);
    assert |cs| > 0 by { ChooseHalfPositive(count, count / 2); }
    ShareBounds(total, |cs| as real);
    r := Ok(PboResult(count, results, total / |cs| as real));
  }

  lemma BlockSize(rows: nat, count: nat)
    requires count > 0 && rows % count == 0 && rows > 0
    ensures rows == count * (rows / count) && rows / count > 0
  {
  }

  lemma {:induction false} ChooseHalfPositive(n: nat, k: nat)
    requires k <= n
    ensures Choose(n, k) > 0
  {
    if 0 < k {
      ChooseHalfPositive(n - 1, k - 1);
    }
  }
}
