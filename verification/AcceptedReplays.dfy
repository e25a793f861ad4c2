/** What a backtest may rely on once its inputs are accepted, with the linear funding formula. */
module AcceptedReplays {
  import opened Outcomes
  import opened Sums
  import opened Market
  import opened Accounting
  import opened Replay
  import opened ReplayEngine
  import opened ReplayTheorems
  import opened ReplayLedger
  import PositionLog

  lemma {:induction false} FirstEvaluatedExists(s: Setup, n: nat) returns (e: nat)
    requires Uniform(s.candles) && n < |s.candles| && Evaluated(s, n)
    ensures e <= n && FirstEvaluated(s, e)
  {
    if n > 0 && Evaluated(s, n - 1) {
      e := FirstEvaluatedExists(s, n - 1);
    } else {
      e := n;
      forall j | 0 <= j < n
        ensures s.candles[j].openTime < s.start
      {
        if Evaluated(s, j) {
          EvaluatedOnward(s, j, n - 1);
        }
      }
    }
  }

  /** Some recorded interval carries the return that ends at this mark. */
  ghost predicate Attributed(run: Run, mark: int) {
    var intervals := PositionLog.Intervals(PositionLog.LogOf(run.fills, |run.fills|));
    exists a :: 0 <= a < |intervals| && mark in PositionLog.ReturnMarks(intervals[a], MarkTimes(run.points))
  }

  /** The fill executes the decision taken at some candle, at the next one's open. */
  ghost predicate Decided(s: Setup, f: Fill, cost: real)
    requires Uniform(s.candles)
  {
    exists i :: 0 <= i < |s.candles| && FromDecision(s, f, cost, i)
  }

  /** From accepted inputs alone: every funding event is charged exactly once by the declarative rule
      and costs are these charges plus fill costs; every equity change is attributed to a recorded
      position; every fill executes a decision at the next open, and what the fills paid there is what
      left the cash; the trade count is the recorder's transition count. */
  lemma AcceptedRunKeepsItsPromises(
    candles: seq<Candle>, asOf: int, config: Config, policy: PolicyContext -> Target,
    costModel: (real, real) -> real, events: seq<HistoricalFundingEvent>, evaluationStart: Option<int>)
    requires ValidConfig(config) && Accepts(candles, asOf, events, Some(LinearFunding), evaluationStart)
    ensures var s := SetupOf(candles, config, policy, costModel, events, Some(LinearFunding), evaluationStart);
            var run := RunAt(s, |candles|);
            && run.cursor == |events| == |run.charges| && |run.fillCosts| == |run.fills|
            && (forall j :: 0 <= j < |events| ==>
                  var event := events[j].funding;
                  run.charges[j] == LinearFunding(NetBefore(run.fills, |run.fills|, event.eventTime),
                                                  event.referencePrice, event.rate))
            && run.totalCost == Total(run.charges) + Total(run.fillCosts)
            && (forall k :: 0 <= k && k + 1 < |run.points| && run.points[k].equity != run.points[k + 1].equity ==>
                  Attributed(run, run.points[k + 1].time))
            && (forall k :: 0 <= k < |run.fills| ==> Decided(s, run.fills[k], run.fillCosts[k]))
            && run.account.cash == config.initialCash - run.totalCost - Paid(candles, run.fills, |run.fills|)
            && run.tradeCount
               == PositionLog.TransitionCount(PositionLog.Intervals(PositionLog.LogOf(run.fills, |run.fills|)))
  {
    var s := SetupOf(candles, config, policy, costModel, events, Some(LinearFunding), evaluationStart);
    assert Uniform(s.candles) && Evaluated(s, |s.candles| - 1);
    ValidFundingIsValidEvents(s, candles[0].symbol);
    LinearFundingFlatIsFree();
    hide *;
    TradesAreRecordedTransitions(s);
    var e := FirstEvaluatedExists(s, |s.candles| - 1);
    var run := RunAt(s, |candles|);
    forall k | 0 <= k && k + 1 < |run.points| && run.points[k].equity != run.points[k + 1].equity
      ensures Attributed(run, run.points[k + 1].time)
    {
      ReturnsAreAttributed(s, e, k);
    }
    FillsAreDecided(s);
    CashOfFills(s);
    LinearCharges(s);
  }

  lemma FillsAreDecided(s: Setup)
    requires s.candles != [] && Uniform(s.candles) && ValidConfig(s.config)
    ensures var run := RunAt(s, |s.candles|);
            && |run.fillCosts| == |run.fills|
            && forall k :: 0 <= k < |run.fills| ==> Decided(s, run.fills[k], run.fillCosts[k])
  {
    hide RunAt, FromDecision, LedgerHolds;
    var run := RunAt(s, |s.candles|);
    LedgerAlwaysHolds(s, |s.candles|);
    FillCostPerFill(s, |s.candles|);
    forall k | 0 <= k < |run.fills|
      ensures Decided(s, run.fills[k], run.fillCosts[k])
    {
      var i := FillsExecuteDecisions(s, |s.candles|, k);
    }
  }

  lemma CashOfFills(s: Setup)
    requires s.candles != [] && Uniform(s.candles) && ValidConfig(s.config)
    ensures var run := RunAt(s, |s.candles|);
            run.account.cash == s.config.initialCash - run.totalCost - Paid(s.candles, run.fills, |run.fills|)
  {
    AccountFollowsFills(s, |s.candles|);
  }

  lemma LinearCharges(s: Setup)
    requires s.candles != [] && Uniform(s.candles) && ValidConfig(s.config) && ValidEvents(s)
    requires Evaluated(s, |s.candles| - 1) && s.fundingModel == LinearFunding
    ensures var run := RunAt(s, |s.candles|);
            && run.cursor == |s.events| == |run.charges|
            && (forall j :: 0 <= j < |s.events| ==>
                  var event := s.events[j].funding;
                  run.charges[j] == LinearFunding(NetBefore(run.fills, |run.fills|, event.eventTime),
                                                  event.referencePrice, event.rate))
            && run.totalCost == Total(run.charges) + Total(run.fillCosts)
  {
    EveryEventChargedOnce(s);
    hide RunAt, NetBefore, Uniform;
  }

  /** The reported result, from the fills of its run and the last close alone: cash is what they and
      the costs left, equity adds the position they leave, and profit is realized and open profit
      less every cost. */
  lemma ResultFollowsFills(s: Setup, result: BacktestResult)
    requires s.candles != [] && Uniform(s.candles) && ValidConfig(s.config) && IsResultOf(s, result)
    ensures var fills, mark := RunAt(s, |s.candles|).fills, s.candles[|s.candles| - 1].close;
            var held := PositionLog.PositionAfter(fills, |fills|);
            && result.fillCount == |fills|
            && result.finalCash == s.config.initialCash - result.totalCost - Paid(s.candles, fills, |fills|)
            && result.finalEquity == result.finalCash + held * mark
            && (held == 0.0 ==> result.unrealizedPnl == 0.0)
            && (held != 0.0 ==>
                  && fills != []
                  && result.unrealizedPnl
                     == held * (mark - OpenAt(s.candles, |s.candles|, fills[|fills| - 1].time)))
            && result.totalPnl == result.finalEquity - s.config.initialCash
                               == result.realizedPnl + result.unrealizedPnl - result.totalCost
  {
    var run, mark := RunAt(s, |s.candles|), s.candles[|s.candles| - 1].close;
    AccountFollowsFills(s, |s.candles|);
    LedgerAlwaysHolds(s, |s.candles|);
    FillsAlwaysHold(s, |s.candles|);
    BalancedEquity(run.account, mark, s.config.initialCash, run.totalCost);
    hide RunAt, OpenAt, Paid, PositionLog.PositionAfter, Total, Instant;
  }
}
