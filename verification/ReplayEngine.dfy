/** The replay loop itself: input validation, the candle loop over mutable accumulators, the
    optional position recorder, and the assembly of the result with its consistency checks. */
module ReplayEngine {
  import opened Outcomes
  import opened Sums
  import opened ProductFacts
  import opened Market
  import opened Accounting
  import opened Replay
  import PositionLog

  // ----- result assembly

  datatype BacktestResult = BacktestResult(
    initialCash: real, finalCash: real, finalEquity: real,
    realizedPnl: real, unrealizedPnl: real, totalPnl: real, totalCost: real,
    fillCount: nat, tradeCount: nat, equityCurve: seq<EquityPoint>)

  datatype ResultError = PnlInconsistent | CurveNotAscending | FinalPointMismatch

  ghost predicate CurveAscends(curve: seq<EquityPoint>) {
    forall j, k :: 0 <= j < k < |curve| ==> curve[j].time < curve[k].time
  }

  method BuildBacktestResult(initialCash: real, state: AccountState, mark: real, totalCost: real,
                             fillCount: nat, tradeCount: nat, curve: seq<EquityPoint>)
    returns (r: Result<BacktestResult, ResultError>)
    requires ValidAccount(state)
    ensures r.Ok? <==>
            && Equity(state, mark) - initialCash == state.realizedPnl + UnrealizedPnl(state, mark) - totalCost
            && CurveAscends(curve)
            && (curve != [] ==> curve[|curve| - 1].equity == Equity(state, mark))
    ensures r.Ok? ==>
              r.value == BacktestResult(initialCash, state.cash, Equity(state, mark), state.realizedPnl,
                                        UnrealizedPnl(state, mark), Equity(state, mark) - initialCash,
                                        totalCost, fillCount, tradeCount, curve)
  {
    hide Equity, UnrealizedPnl;
    var unrealized := UnrealizedPnl(state, mark);
    var finalEquity := Equity(state, mark);
    var totalPnl := finalEquity - initialCash;
    if totalPnl != state.realizedPnl + unrealized - totalCost {
      return Err(PnlInconsistent);
    }
    var previous: Option<int> := None;
    for i := 0 to |curve|
      invariant previous.None? <==> i == 0
      invariant i > 0 ==> previous.value == curve[i - 1].time
      invariant forall j, k :: 0 <= j < k < i ==> curve[j].time < curve[k].time
    {
      if previous.Some? && curve[i].time <= previous.value {
        return Err(CurveNotAscending);
      }
      previous := Some(curve[i].time);
    }
    if curve != [] && curve[|curve| - 1].equity != finalEquity {
      return Err(FinalPointMismatch);
    }
    return Ok(BacktestResult(initialCash, state.cash, finalEquity, state.realizedPnl, unrealized,
                             totalPnl, totalCost, fillCount, tradeCount, curve));
  }

  // ----- the evaluation start

  datatype StartError = NotGridAligned | OutsideDataset

  ghost predicate StartAccepted(candles: seq<Candle>, evaluationStart: Option<int>)
    requires candles != [] && Uniform(candles)
  {
    evaluationStart.Some? ==>
      && evaluationStart.value % Duration(candles[0].timeframe) == 0
      && candles[0].openTime <= evaluationStart.value < Availability(candles[|candles| - 1])
  }

  function StartOf(candles: seq<Candle>, evaluationStart: Option<int>): int
    requires candles != []
  {
    if evaluationStart.Some? then evaluationStart.value else candles[0].openTime
  }

  method ResolveEvaluationStart(evaluationStart: Option<int>, candles: seq<Candle>)
    returns (r: Result<int, StartError>)
    requires candles != [] && Uniform(candles)
    ensures r.Ok? <==> StartAccepted(candles, evaluationStart)
    ensures r.Ok? ==> r.value == StartOf(candles, evaluationStart)
  {
    if evaluationStart.None? {
      return Ok(candles[0].openTime);
    }
    var start := evaluationStart.value;
    if start % Duration(candles[0].timeframe) != 0 {
      return Err(NotGridAligned);
    }
    if !(candles[0].openTime <= start < Availability(candles[|candles| - 1])) {
      return Err(OutsideDataset);
    }
    return Ok(start);
  }

  /** An accepted start leaves at least one candle to evaluate whenever the dataset lies on the
      grid of its timeframe (or no explicit start is given). */
  lemma AlignedDatasetHasEvaluationCandle(candles: seq<Candle>, evaluationStart: Option<int>)
    requires candles != [] && Uniform(candles) && StartAccepted(candles, evaluationStart)
    requires evaluationStart.None? || candles[0].openTime % Duration(candles[0].timeframe) == 0
    ensures candles[|candles| - 1].openTime >= StartOf(candles, evaluationStart)
  {
    var last := |candles| - 1;
    OpenTimes(candles, last);
    if evaluationStart.Some? {
      var d, start := Duration(candles[0].timeframe), evaluationStart.value;
      var q := start / d;
      var p := candles[0].openTime / d;
      assert start == q * d && candles[0].openTime == p * d;
      assert (p + last) * d == p * d + last * d;
      SameGridCell(q, p + last, d);
    } else if last > 0 {
      OpensAscend(candles, 0, last);
    }
  }

  /** The documented promise, a candle that opens exactly at an accepted explicit start, holds if
      and only if the dataset lies on the grid of its timeframe. */
  lemma StartIsAnOpenIffAligned(candles: seq<Candle>, start: int)
    requires candles != [] && Uniform(candles) && StartAccepted(candles, Some(start))
    ensures (exists i :: 0 <= i < |candles| && candles[i].openTime == start) <==>
            candles[0].openTime % Duration(candles[0].timeframe) == 0
  {
    var d, first := Duration(candles[0].timeframe), candles[0].openTime;
    if i :| 0 <= i < |candles| && candles[i].openTime == start {
      OpenTimes(candles, i);
      SameResidue(first, start, i, d);
    }
    if first % d == 0 {
      var i := (start - first) / d;
      SameResidue(first, start, (start / d) - (first / d), d);
      assert start - first == i * d by {
        assert start == (start / d) * d && first == (first / d) * d;
        MultipleQuotient((start / d) - (first / d), d);
      }
      OpenTimes(candles, |candles| - 1);
      IndexInRange(i, |candles|, d);
      OpenTimes(candles, i);
    }
  }

  lemma SameResidue(a: int, b: int, k: int, d: int)
    requires d > 0 && b == a + k * d
    ensures a % d == b % d
  {
    var q := a / d;
    assert b == (q + k) * d + a % d;
    QuotientUnique(q + k, a % d, d);
  }

  lemma QuotientUnique(q: int, r: int, d: int)
    requires d > 0 && 0 <= r < d
    ensures (q * d + r) % d == r
  {
    var n := q * d + r;
    var p := n / d;
    assert (p - q) * d == r - n % d;
    if p > q {
      IntegerProductMonotone(1, p - q, d);
    } else if p < q {
      IntegerProductMonotone(p - q, -1, d);
    }
  }

  lemma MultipleQuotient(k: int, d: int)
    requires d > 0
    ensures (k * d) / d == k
  {
    QuotientUnique(k, 0, d);
    var p := (k * d) / d;
    assert k * d == p * d + (k * d) % d;
    if p > k {
      IntegerProductMonotone(k + 1, p, d);
    } else if p < k {
      IntegerProductMonotone(p + 1, k, d);
    }
  }

  lemma IndexInRange(i: int, n: nat, d: int)
    requires d > 0 && n > 0 && 0 <= i * d < (n - 1) * d + d
    ensures 0 <= i < n
  {
    if i < 0 {
      IntegerProductMonotone(i, -1, d);
    } else if i >= n {
      IntegerProductMonotone(n, i, d);
    }
  }

  lemma SameGridCell(q: int, m: int, d: int)
    requires d > 0 && q * d < m * d + d
    ensures q * d <= m * d
  {
    if q > m {
      IntegerProductMonotone(m + 1, q, d);
      assert (m + 1) * d == m * d + d;
    }
    IntegerProductMonotone(if q <= m then q else m, m, d);
  }

  /** Off the grid the guarantee fails: a start on the grid can fall inside the only candle. */
  lemma OffGridDatasetCounterexample()
    ensures exists candles: seq<Candle>, start: int ::
              && candles != [] && Uniform(candles) && StartAccepted(candles, Some(start))
              && forall i :: 0 <= i < |candles| ==> candles[i].openTime < start
  {
    var candle := Candle("BTCUSDT", OneHour, 1_800_000_000, 1.0, 1.0, 1.0, 1.0, 0.0);
    var candles, start := [candle], 3_600_000_000;
    assert Uniform(candles) && StartAccepted(candles, Some(start));
  }

  // ----- the funding sweep loop

  method ApplyDueFundingEvents(
    state: AccountState, events: seq<HistoricalFundingEvent>, start: nat, t: int,
    fundingModel: Option<(real, real, real) -> real>, ghost s: Setup)
    returns (after: AccountState, sum: real, cursor: nat)
    requires start <= |events| && s.events == events
    requires fundingModel.None? ==> events == []
    requires fundingModel.Some? ==> fundingModel.value == s.fundingModel
    ensures cursor == DueEnd(events, start, t)
    ensures sum == Total(Charges(s, state.quantity, start, cursor))
    ensures after == ApplyCashCost(state, sum)
  {
    after, sum, cursor := state, 0.0, start;
    assert Charges(s, state.quantity, start, start) == [];
    while cursor < |events|
      invariant start <= cursor <= |events|
      invariant DueEnd(events, start, t) == DueEnd(events, cursor, t)
      invariant sum == Total(Charges(s, state.quantity, start, cursor))
      invariant after == ApplyCashCost(state, sum)
    {
      var event := events[cursor];
      if EventTime(event) > t {
        break;
      }
      var cost := fundingModel.value(after.quantity, event.funding.referencePrice, event.funding.rate);
      after := ApplyCashCost(after, cost);
      sum := sum + cost;
      assert Charges(s, state.quantity, start, cursor + 1)
             == Charges(s, state.quantity, start, cursor) + [Charge(s, state.quantity, cursor)];
      TotalConcat(Charges(s, state.quantity, start, cursor), [Charge(s, state.quantity, cursor)]);
      assert Sum([cost], 0) == 0.0;
      cursor := cursor + 1;
    }
  }

  // ----- the replay

  datatype ReplayError =
    | Dataset(why: DatasetError)
    | Start(whyStart: StartError)
    | FundingModelMissing
    | Funding(whyFunding: FundingError)
    | NoEvaluationCandle

  /** Exactly what the replay checks before its first candle. */
  ghost predicate InputsAccepted(
    candles: seq<Candle>, asOf: int, events: seq<HistoricalFundingEvent>,
    fundingModel: Option<(real, real, real) -> real>, evaluationStart: Option<int>)
  {
    && ValidDataset(candles, asOf)
    && StartAccepted(candles, evaluationStart)
    && (events != [] ==> fundingModel.Some?)
    && ValidFunding(events, candles[0].symbol, StartOf(candles, evaluationStart),
                    Availability(candles[|candles| - 1]))
  }

  ghost predicate Accepts(
    candles: seq<Candle>, asOf: int, events: seq<HistoricalFundingEvent>,
    fundingModel: Option<(real, real, real) -> real>, evaluationStart: Option<int>)
  {
    && InputsAccepted(candles, asOf, events, fundingModel, evaluationStart)
    && candles[|candles| - 1].openTime >= StartOf(candles, evaluationStart)
  }

  function SetupOf(
    candles: seq<Candle>, config: Config, policy: PolicyContext -> Target,
    costModel: (real, real) -> real, events: seq<HistoricalFundingEvent>,
    fundingModel: Option<(real, real, real) -> real>, evaluationStart: Option<int>): Setup
    requires candles != []
  {
    Setup(candles, config, policy, costModel, events,
          if fundingModel.Some? then fundingModel.value else (q, p, f) => 0.0,
          StartOf(candles, evaluationStart))
  }

  ghost predicate IsResultOf(s: Setup, result: BacktestResult)
    requires s.candles != [] && Uniform(s.candles)
  {
    var run := RunAt(s, |s.candles|);
    && result.initialCash == s.config.initialCash
    && result.finalCash == run.account.cash
    && result.finalEquity == Equity(run.account, s.candles[|s.candles| - 1].close)
    && result.realizedPnl == run.account.realizedPnl
    && result.unrealizedPnl == UnrealizedPnl(run.account, s.candles[|s.candles| - 1].close)
    && result.totalPnl == result.finalEquity - result.initialCash
    && result.totalCost == run.totalCost
    && result.fillCount == |run.fills|
    && result.tradeCount == run.tradeCount
    && result.equityCurve == run.points
  }

  ghost predicate Recorded(recorder: PositionLog.PositionIntervalRecorder?, run: Run)
    reads recorder
  {
    recorder != null ==> recorder.Contents() == PositionLog.LogOf(run.fills, |run.fills|)
  }

  /** The fill of one decision at the next open.  The branches in which the source would raise
      (an off-target position, a malformed candle pair, a resize, a refused observer call) are
      dead: each holds only `assert false`. */
  method ExecuteDecision(
    ghost s: Setup, i: nat, candles: seq<Candle>, config: Config, costModel: (real, real) -> real,
    marked: AccountState, target: Target, total: real, fills: nat, trades: nat,
    recorder: PositionLog.PositionIntervalRecorder?)
    returns (state: AccountState, totalCost: real, fillCount: nat, tradeCount: nat)
    requires s.candles == candles && i + 1 < |candles| && Uniform(candles) && Evaluated(s, i)
    requires s.config == config && s.costModel == costModel && ValidConfig(config)
    requires var m := MarkedAt(s, i);
             && marked == m.account && target == s.policy(m.contexts[|m.contexts| - 1])
             && total == m.totalCost && fills == |m.fills| && trades == m.tradeCount
             && Recorded(recorder, m)
    modifies recorder
    ensures var run := RunAt(s, i + 1);
            && state == run.account && totalCost == run.totalCost
            && fillCount == |run.fills| && tradeCount == run.tradeCount
            && Recorded(recorder, run)
  {
    state, totalCost, fillCount, tradeCount := marked, total, fills, trades;
    ghost var m := MarkedAt(s, i);
    LedgerAlwaysHolds(s, i);
    DecisionNeverFails(s, i, m);
    RunStep(s, i);
    hide RunAt, Mark, LedgerHolds, ApplyFill;
    assert candles[i + 1].openTime == s.candles[i + 1].openTime;
    var executed := ExecuteTarget(marked, target, config, candles[i], candles[i + 1], costModel);
    assert executed == Decide(s, i, m);
    hide ExecuteTarget, Decide;
    if executed.Err? {
      assert false;
    }
    if executed.value.Some? {
      var e := executed.value.value;
      state := e.state;
      totalCost := totalCost + e.cost;
      fillCount := fillCount + 1;
      var transition := TradeCount(marked.quantity, e.state.quantity);
      if transition.Err? {
        assert false;
      }
      tradeCount := tradeCount + transition.value;
      if recorder != null && marked.quantity != e.state.quantity {
        RecorderAccepts(s, i);
        var refused := recorder.OnFill(candles[i + 1].openTime, marked.quantity, e.state.quantity);
        if refused.Some? {
          assert false;
        }
      }
    }
  }

  /** What the sweep, the mark and the context of candle i contribute. */
  lemma MarkedFields(s: Setup, i: nat, sum: real, cursor: nat)
    requires i < |s.candles| && Uniform(s.candles)
    requires var run := RunAt(s, i);
             && cursor == DueEnd(s.events, run.cursor, Availability(s.candles[i]))
             && sum == Total(Charges(s, run.account.quantity, run.cursor, cursor))
    ensures var run, m, t := RunAt(s, i), MarkedAt(s, i), Availability(s.candles[i]);
            && m.account == ApplyCashCost(run.account, sum)
            && m.totalCost == run.totalCost + sum
            && m.cursor == cursor
            && m.points == run.points + [EquityPoint(t, Equity(m.account, s.candles[i].close))]
            && m.contexts[|m.contexts| - 1] == PolicyContext(t, s.candles[..i + 1])
            && m.fills == run.fills && m.tradeCount == run.tradeCount
  {
  }

  method RunBacktestReplay(
    candles: seq<Candle>, asOf: int, config: Config, policy: PolicyContext -> Target,
    costModel: (real, real) -> real, events: seq<HistoricalFundingEvent>,
    fundingModel: Option<(real, real, real) -> real>, evaluationStart: Option<int>,
    recorder: PositionLog.PositionIntervalRecorder?)
    returns (r: Result<BacktestResult, ReplayError>)
    requires ValidConfig(config)
    requires recorder != null ==> recorder.Contents() == PositionLog.EmptyLog
    modifies recorder
    ensures r.Ok? <==> Accepts(candles, asOf, events, fundingModel, evaluationStart)
    ensures r == Err(NoEvaluationCandle) <==>
            && InputsAccepted(candles, asOf, events, fundingModel, evaluationStart)
            && candles[|candles| - 1].openTime < StartOf(candles, evaluationStart)
    ensures r.Ok? ==>
              var s := SetupOf(candles, config, policy, costModel, events, fundingModel, evaluationStart);
              IsResultOf(s, r.value) && Recorded(recorder, RunAt(s, |candles|))
  {
    var invalidDataset := ValidateDataset(candles, asOf);
    if invalidDataset.Some? {
      return Err(Dataset(invalidDataset.value));
    }
    var start := ResolveEvaluationStart(evaluationStart, candles);
    if start.Err? {
      return Err(Start(start.error));
    }
    if events != [] && fundingModel.None? {
      return Err(FundingModelMissing);
    }
    var runEnd := Availability(candles[|candles| - 1]);
    var invalidFunding := ValidateFundingEvents(events, candles[0].symbol, start.value, runEnd);
    if invalidFunding.Some? {
      return Err(Funding(invalidFunding.value));
    }
    ghost var s := SetupOf(candles, config, policy, costModel, events, fundingModel, evaluationStart);
    r := ReplayCandles(candles, config, policy, costModel, events, fundingModel, start.value, recorder, s);
    LastEvaluated(s);
  }

  lemma LastEvaluated(s: Setup)
    requires s.candles != [] && Uniform(s.candles)
    ensures (exists j :: 0 <= j < |s.candles| && Evaluated(s, j)) <==>
            s.candles[|s.candles| - 1].openTime >= s.start
  {
    var last := |s.candles| - 1;
    assert Evaluated(s, last) <==> s.candles[last].openTime >= s.start;
    if j :| 0 <= j < |s.candles| && Evaluated(s, j) {
      EvaluatedOnward(s, j, last);
    }
  }

  method ReplayCandles(
    candles: seq<Candle>, config: Config, policy: PolicyContext -> Target,
    costModel: (real, real) -> real, events: seq<HistoricalFundingEvent>,
    fundingModel: Option<(real, real, real) -> real>, start: int,
    recorder: PositionLog.PositionIntervalRecorder?, ghost s: Setup)
    returns (r: Result<BacktestResult, ReplayError>)
    requires candles != [] && Uniform(candles) && ValidConfig(config)
    requires s.candles == candles && s.config == config && s.policy == policy
    requires s.costModel == costModel && s.events == events && s.start == start
    requires fundingModel.None? ==> events == []
    requires fundingModel.Some? ==> s.fundingModel == fundingModel.value
    requires Recorded(recorder, NewRun(config))
    modifies recorder
    ensures r.Ok? <==> exists j :: 0 <= j < |candles| && Evaluated(s, j)
    ensures r.Ok? ==> IsResultOf(s, r.value) && Recorded(recorder, RunAt(s, |candles|))
    ensures r.Err? ==> r.error.NoEvaluationCandle?
  {
    hide RunAt, Mark, Settle, LedgerHolds, Equity, UnrealizedPnl, DueEnd;
    var state: Option<AccountState> := None;
    var totalCost, fillCount: nat, tradeCount: nat, cursor := 0.0, 0, 0, 0;
    var points: seq<EquityPoint> := [];
    ghost var run := NewRun(config);
    RunStart(s);
    for i := 0 to |candles|
      invariant run == RunAt(s, i)
      invariant state.Some? ==> state.value == run.account && exists j :: 0 <= j < i && Evaluated(s, j)
      invariant state.None? ==> run == NewRun(config) && forall j :: 0 <= j < i ==> !Evaluated(s, j)
      invariant totalCost == run.totalCost && fillCount == |run.fills| && tradeCount == run.tradeCount
      invariant cursor == run.cursor && points == run.points
      invariant Recorded(recorder, run)
    {
      var candle := candles[i];
      RunStep(s, i);
      if candle.openTime >= start {
        var account := if state.None? then NewAccount(config) else state.value;
        var availability := Availability(candle);
        var swept, sum, next := ApplyDueFundingEvents(account, events, cursor, availability, fundingModel, s);
        MarkedFields(s, i, sum, next);
        totalCost, cursor := totalCost + sum, next;
        points := points + [EquityPoint(availability, Equity(swept, candle.close))];
        var context := PolicyContext(availability, candles[..i + 1]);
        var target := policy(context);
        state := Some(swept);
        assert Evaluated(s, i);
        if i + 1 < |candles| {
          var filled, total, fills, trades :=
            ExecuteDecision(s, i, candles, config, costModel, swept, target, totalCost, fillCount, tradeCount, recorder);
          state, totalCost, fillCount, tradeCount := Some(filled), total, fills, trades;
        }
        SettleKeepsMark(s, i);
      }
      run := RunAt(s, i + 1);
    }
    if state.None? {
      return Err(NoEvaluationCandle);
    }
    FinalRunConsistent(s);
    RunSound(s, |candles|);
    var built := BuildBacktestResult(config.initialCash, state.value, candles[|candles| - 1].close,
                                     totalCost, fillCount, tradeCount, points);
    if built.Err? {
      assert false;
    }
    return Ok(built.value);
  }

  lemma RunSound(s: Setup, n: nat)
    requires n <= |s.candles| && s.candles != [] && Uniform(s.candles)
    ensures ValidAccount(RunAt(s, n).account)
  {
  }

  /** Settling never touches the points, the cursor or, on the last candle, anything. */
  lemma SettleKeepsMark(s: Setup, i: nat)
    requires i < |s.candles| && Uniform(s.candles) && Evaluated(s, i)
    ensures var m, run := MarkedAt(s, i), RunAt(s, i + 1);
            && run.points == m.points && run.cursor == m.cursor
            && (i + 1 == |s.candles| ==> run == m)
  {
  }

  /** The record after the next fill: the recorder's own step on the fill just executed. */
  lemma RecorderAccepts(s: Setup, n: nat)
    requires n + 1 < |s.candles| && Uniform(s.candles) && ValidConfig(s.config) && Evaluated(s, n)
    requires |RunAt(s, n + 1).fills| == |RunAt(s, n).fills| + 1
    ensures var before, after := RunAt(s, n).fills, RunAt(s, n + 1).fills;
            PositionLog.LogFill(PositionLog.LogOf(before, |before|), after[|before|])
            == Outcomes.Ok(PositionLog.LogOf(after, |after|))
  {
    FillsAlwaysHold(s, n + 1);
    var before, after := RunAt(s, n).fills, RunAt(s, n + 1).fills;
    PositionLog.RecorderNeverRaises(after, |before|);
    assert after == before + [after[|before|]];
    LogPrefix(before, after[|before|], |before|);
  }

  lemma {:induction false} LogPrefix(fills: seq<Fill>, f: Fill, k: nat)
    requires k <= |fills|
    ensures PositionLog.LogOf(fills + [f], k) == PositionLog.LogOf(fills, k)
  {
    if k > 0 {
      LogPrefix(fills, f, k - 1);
    }
  }

  /** Both consistency checks of the result assembly hold of every finished run. */
  lemma FinalRunConsistent(s: Setup)
    requires s.candles != [] && Uniform(s.candles) && ValidConfig(s.config)
    requires exists j :: 0 <= j < |s.candles| && Evaluated(s, j)
    ensures var run, mark := RunAt(s, |s.candles|), s.candles[|s.candles| - 1].close;
            && Equity(run.account, mark) - s.config.initialCash
               == run.account.realizedPnl + UnrealizedPnl(run.account, mark) - run.totalCost
            && CurveAscends(run.points)
            && run.points != []
            && run.points[|run.points| - 1].equity == Equity(run.account, mark)
  {
    LedgerAlwaysHolds(s, |s.candles|);
    var run := RunAt(s, |s.candles|);
    BalancedEquity(run.account, s.candles[|s.candles| - 1].close, s.config.initialCash, run.totalCost);
    PointsAlwaysAscend(s, |s.candles|);
    var j :| 0 <= j < |s.candles| && Evaluated(s, j);
    EvaluatedOnward(s, j, |s.candles| - 1);
    FinalPoint(s);
  }
}
