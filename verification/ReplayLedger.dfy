/** The account of a run in closed form: what its fills paid, at the opens at which they were stamped,
    and what it is worth at every mark. */
module ReplayLedger {
  import opened Outcomes
  import opened Market
  import opened Accounting
  import opened Replay
  import opened ReplayTheorems
  import PositionLog

  /** The open of the last of the first n candles that opens at t. */
  function OpenAt(candles: seq<Candle>, n: nat, t: int): real
    requires n <= |candles|
  {
    if n == 0 then 0.0 else if candles[n - 1].openTime == t then candles[n - 1].open else OpenAt(candles, n - 1, t)
  }

  lemma {:induction false} OpenAtOpenTime(candles: seq<Candle>, n: nat, i: nat)
    requires Uniform(candles) && i < n <= |candles|
    ensures OpenAt(candles, n, candles[i].openTime) == candles[i].open
  {
    if i < n - 1 {
      OpensAscend(candles, i, n - 1);
      OpenAtOpenTime(candles, n - 1, i);
    }
  }

  /** What the first k fills paid, each at the open of the candle that opens when it is stamped. */
  function Paid(candles: seq<Candle>, fills: seq<Fill>, k: nat): real
    requires k <= |fills|
  {
    if k == 0 then 0.0
    else Paid(candles, fills, k - 1)
         + (fills[k - 1].after - fills[k - 1].before) * OpenAt(candles, |candles|, fills[k - 1].time)
  }

  lemma {:induction false} PaidPrefix(candles: seq<Candle>, fills: seq<Fill>, f: Fill, k: nat)
    requires k <= |fills|
    ensures Paid(candles, fills + [f], k) == Paid(candles, fills, k)
  {
    if k > 0 {
      PaidPrefix(candles, fills, f, k - 1);
      assert (fills + [f])[k - 1] == fills[k - 1];
    }
  }

  /** Cash is what the fills and the costs left of the initial cash; the entry is the open paid by
      the last fill; profit is realized against it. */
  ghost predicate AccountOfFills(s: Setup, r: Run) {
    && r.account.cash == s.config.initialCash - r.totalCost - Paid(s.candles, r.fills, |r.fills|)
    && (r.account.quantity == 0.0 ==> r.account.entry.None?)
    && (r.account.quantity != 0.0 ==>
          && r.fills != []
          && r.account.entry == Some(OpenAt(s.candles, |s.candles|, r.fills[|r.fills| - 1].time)))
  }

  lemma MarkKeepsAccount(s: Setup, n: nat, r: Run)
    requires Sound(s, r) && n < |s.candles| && AccountOfFills(s, r)
    ensures AccountOfFills(s, Mark(s, n, r))
  {
  }

  lemma {:induction false} AccountFollowsFills(s: Setup, n: nat)
    requires n <= |s.candles| && s.candles != [] && Uniform(s.candles) && ValidConfig(s.config)
    ensures AccountOfFills(s, RunAt(s, n))
    ensures n < |s.candles| ==> AccountOfFills(s, MarkedAt(s, n))
  {
    hide RunAt, Mark, Settle, AccountOfFills;
    if n == 0 {
      RunStart(s);
      NewAccountOfFills(s);
    } else {
      AccountFollowsFills(s, n - 1);
      RunStep(s, n - 1);
      if Evaluated(s, n - 1) {
        SettleKeepsAccount(s, n - 1);
      }
    }
    if n < |s.candles| {
      MarkKeepsAccount(s, n, RunAt(s, n));
    }
  }

  lemma NewAccountOfFills(s: Setup)
    ensures AccountOfFills(s, NewRun(s.config))
  {
  }

  lemma SettleKeepsAccount(s: Setup, i: nat)
    requires i < |s.candles| && Uniform(s.candles) && ValidConfig(s.config)
    requires Evaluated(s, i) && AccountOfFills(s, MarkedAt(s, i))
    ensures AccountOfFills(s, RunAt(s, i + 1))
  {
    var m, r := MarkedAt(s, i), RunAt(s, i + 1);
    StepFields(s, i);
    hide RunAt, Mark, Settle;
    if r != m {
      var f := r.fills[|m.fills|];
      OpenAtOpenTime(s.candles, |s.candles|, i + 1);
      PaidPrefix(s.candles, m.fills, f, |m.fills|);
      hide FromDecision, OpenAt, Uniform;
    }
  }

  lemma StepFields(s: Setup, i: nat)
    requires i < |s.candles| && Uniform(s.candles) && ValidConfig(s.config) && Evaluated(s, i)
    ensures var m, r := MarkedAt(s, i), RunAt(s, i + 1);
            r != m ==>
              && i + 1 < |s.candles|
              && |r.fills| == |m.fills| + 1 && r.fills == m.fills + [r.fills[|m.fills|]]
              && r.fillCosts != [] && r.totalCost == m.totalCost + r.fillCosts[|r.fillCosts| - 1]
              && r.fills[|m.fills|].time == s.candles[i + 1].openTime
              && BookedAt(m.account, r.account, r.fills[|m.fills|], s.candles[i + 1].open,
                          r.fillCosts[|r.fillCosts| - 1])
  {
    RunStep(s, i);
    var m, r := MarkedAt(s, i), RunAt(s, i + 1);
    if r != m {
      NewFillExecutesDecision(s, i, |m.fills|);
    }
    hide RunAt, BookedAt;
  }

  /** Equity point k values the position held at the close of candle e + k, before that candle's fill:
      initial cash, less the costs and the price paid so far, plus the position at that close. */
  lemma EquityOfPoint(s: Setup, e: nat, k: nat)
    requires Uniform(s.candles) && ValidConfig(s.config) && FirstEvaluated(s, e) && e + k < |s.candles|
    ensures var points, m := RunAt(s, |s.candles|).points, MarkedAt(s, e + k);
            && |points| == |s.candles| - e
            && points[k].time == Availability(s.candles[e + k])
            && points[k].equity == s.config.initialCash - m.totalCost - Paid(s.candles, m.fills, |m.fills|)
                                   + m.account.quantity * s.candles[e + k].close
  {
    AccountFollowsFills(s, e + k);
    PointsOfRun(s, e, |s.candles|);
    InstantOf(s, e + k);
    assert PointAt(s, e + k).equity == MarkedAt(s, e + k).account.cash
                                       + MarkedAt(s, e + k).account.quantity * s.candles[e + k].close;
    assert AccountOfFills(s, MarkedAt(s, e + k));
    hide RunAt, Mark, Instant;
  }
}
