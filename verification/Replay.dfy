/** The single-leg replay.  `RunAt` gives the whole history of a run (ledger, fills, funding
    charges, equity points and the contexts shown to the policy) after n candles;
    `RunBacktestReplay` is the candle loop proved against it. */
module Replay {
  import opened Outcomes
  import opened ProductFacts
  import opened Sums
  import opened Market
  import opened Accounting
  import PositionLog

  type Fill = PositionLog.Fill

  datatype EquityPoint = EquityPoint(time: int, equity: real)

  datatype PolicyContext = PolicyContext(asOf: int, candles: seq<Candle>)

  /** Everything that determines a run; `start` is the resolved evaluation start. */
  datatype Setup = Setup(
    candles: seq<Candle>,
    config: Config,
    policy: PolicyContext -> Target,
    costModel: (real, real) -> real,
    events: seq<HistoricalFundingEvent>,
    fundingModel: (real, real, real) -> real,
    start: int)

  datatype Run = Run(
    account: AccountState,
    totalCost: real,
    fills: seq<Fill>,
    fillCosts: seq<real>,
    tradeCount: nat,
    cursor: nat,
    charges: seq<real>,
    points: seq<EquityPoint>,
    contexts: seq<PolicyContext>)

  function NewRun(config: Config): Run {
    Run(NewAccount(config), 0.0, [], [], 0, 0, [], [], [])
  }

  // ----- the funding sweep

  /** One past the last event, from the cursor on, that is due at instant t. */
  function DueEnd(events: seq<HistoricalFundingEvent>, cursor: nat, t: int): (end: nat)
    requires cursor <= |events|
    ensures cursor <= end <= |events|
    ensures forall j :: cursor <= j < end ==> EventTime(events[j]) <= t
    ensures end < |events| ==> EventTime(events[end]) > t
    decreases |events| - cursor
  {
    if cursor < |events| && EventTime(events[cursor]) <= t then DueEnd(events, cursor + 1, t) else cursor
  }

  function Charge(s: Setup, quantity: real, j: nat): real
    requires j < |s.events|
  {
    s.fundingModel(quantity, s.events[j].funding.referencePrice, s.events[j].funding.rate)
  }

  function Charges(s: Setup, quantity: real, from: nat, to: nat): (c: seq<real>)
    requires from <= to <= |s.events|
    ensures |c| == to - from
    ensures forall k :: 0 <= k < |c| ==> c[k] == Charge(s, quantity, from + k)
  {
    seq(to - from, k requires 0 <= k < to - from => Charge(s, quantity, from + k))
  }

  // ----- one candle

  ghost predicate Sound(s: Setup, r: Run) {
    s.candles != [] && Uniform(s.candles) && ValidAccount(r.account) && r.cursor <= |s.events|
  }

  /** Funding due by the candle's availability, then the equity mark, then the policy context. */
  function Mark(s: Setup, n: nat, r: Run): (m: Run)
    requires Sound(s, r) && n < |s.candles|
    ensures Sound(s, m) && m.contexts != []
  {
    var t := Availability(s.candles[n]);
    var end := DueEnd(s.events, r.cursor, t);
    var charges := Charges(s, r.account.quantity, r.cursor, end);
    var account := ApplyCashCost(r.account, Total(charges));
    r.(account := account,
       totalCost := r.totalCost + Total(charges),
       cursor := end,
       charges := r.charges + charges,
       points := r.points + [EquityPoint(t, Equity(account, s.candles[n].close))],
       contexts := r.contexts + [PolicyContext(t, s.candles[..n + 1])])
  }

  function Decide(s: Setup, n: nat, m: Run): Result<Option<Execution>, ExecutionError>
    requires Sound(s, m) && m.contexts != [] && n + 1 < |s.candles|
  {
    ExecuteTarget(m.account, s.policy(m.contexts[|m.contexts| - 1]), s.config,
                  s.candles[n], s.candles[n + 1], s.costModel)
  }

  /** The decision's fill at the next candle's open; the last candle is never filled. */
  function Settle(s: Setup, n: nat, m: Run): (r: Run)
    requires Sound(s, m) && m.contexts != [] && n < |s.candles|
    ensures Sound(s, r)
  {
    if n + 1 == |s.candles| then m
    else
      match Decide(s, n, m)
      case Ok(Some(e)) =>
        m.(account := e.state,
           totalCost := m.totalCost + e.cost,
           fills := m.fills + [PositionLog.Fill(s.candles[n + 1].openTime, m.account.quantity, e.state.quantity)],
           fillCosts := m.fillCosts + [e.cost],
           tradeCount := m.tradeCount + Trades(m.account.quantity, e.state.quantity))
      case _ => m
  }

  function Trades(before: real, after: real): nat {
    match TradeCount(before, after)
    case Ok(n) => n
    case Err(_) => 0
  }

  predicate Evaluated(s: Setup, n: nat)
    requires n < |s.candles|
  {
    s.candles[n].openTime >= s.start
  }

  function RunAt(s: Setup, n: nat): (r: Run)
    requires n <= |s.candles| && s.candles != [] && Uniform(s.candles)
    ensures Sound(s, r)
  {
    if n == 0 then NewRun(s.config)
    else
      var before := RunAt(s, n - 1);
      if Evaluated(s, n - 1) then Settle(s, n - 1, Mark(s, n - 1, before)) else before
  }

  function MarkedAt(s: Setup, n: nat): Run
    requires n < |s.candles| && Uniform(s.candles)
  {
    Mark(s, n, RunAt(s, n))
  }

  lemma RunStep(s: Setup, i: nat)
    requires i < |s.candles| && Uniform(s.candles)
    ensures Evaluated(s, i) ==>
              && RunAt(s, i + 1) == Settle(s, i, MarkedAt(s, i))
              && MarkedAt(s, i).fills == RunAt(s, i).fills
    ensures !Evaluated(s, i) ==> RunAt(s, i + 1) == RunAt(s, i)
  {
  }

  lemma RunStart(s: Setup)
    requires s.candles != [] && Uniform(s.candles)
    ensures RunAt(s, 0) == NewRun(s.config)
  {
  }

  // ----- candle instants

  function Instant(s: Setup, n: nat): int
    requires s.candles != [] && Uniform(s.candles)
  {
    s.candles[0].openTime + n * Duration(s.candles[0].timeframe)
  }

  lemma InstantOf(s: Setup, n: nat)
    requires n < |s.candles| && Uniform(s.candles)
    ensures s.candles[n].openTime == Instant(s, n)
    ensures Availability(s.candles[n]) == Instant(s, n + 1)
    ensures Instant(s, n) < Instant(s, n + 1)
  {
    OpenTimes(s.candles, n);
  }

  lemma {:induction false} InstantsAscend(s: Setup, a: nat, b: nat)
    requires s.candles != [] && Uniform(s.candles) && a < b
    ensures Instant(s, a) < Instant(s, b)
  {
    if a + 1 < b {
      InstantsAscend(s, a, b - 1);
    }
  }

  /** Once a candle is evaluated, every later one is. */
  lemma EvaluatedOnward(s: Setup, a: nat, b: nat)
    requires Uniform(s.candles) && a <= b < |s.candles| && Evaluated(s, a)
    ensures Evaluated(s, b)
  {
    if a < b {
      InstantOf(s, a);
      InstantOf(s, b);
      InstantsAscend(s, a, b);
    }
  }

  // ----- the ledger in every run

  ghost predicate ValidConfig(c: Config) {
    c.positionQuantity > 0.0
  }

  ghost predicate LedgerHolds(s: Setup, r: Run) {
    && ValidAccount(r.account)
    && AtTarget(r.account, s.config.positionQuantity)
    && Balanced(r.account, s.config.initialCash, r.totalCost)
    && r.totalCost == Total(r.charges) + Total(r.fillCosts)
    && |r.fillCosts| == |r.fills|
  }

  lemma MarkKeepsLedger(s: Setup, n: nat, r: Run)
    requires Sound(s, r) && n < |s.candles| && LedgerHolds(s, r)
    ensures LedgerHolds(s, Mark(s, n, r))
  {
    var end := DueEnd(s.events, r.cursor, Availability(s.candles[n]));
    var charges := Charges(s, r.account.quantity, r.cursor, end);
    TotalConcat(r.charges, charges);
    CashCostKeepsBalance(r.account, Total(charges), s.config.initialCash, r.totalCost);
    hide Charges, DueEnd, Sum, Balanced;
  }

  /** From a target position every decision is executable: no guard of the execution, the
      accounting or the trade count can fire. */
  lemma DecisionNeverFails(s: Setup, n: nat, m: Run)
    requires Sound(s, m) && m.contexts != [] && n + 1 < |s.candles|
    requires ValidConfig(s.config) && LedgerHolds(s, m)
    ensures Decide(s, n, m).Ok?
    ensures Decide(s, n, m).value.Some? ==>
              var e := Decide(s, n, m).value.value;
              && m.account.quantity != e.state.quantity
              && LegalFill(m.account.quantity, e.delta)
              && e.state.quantity == m.account.quantity + e.delta
              && e.state == ApplyFill(m.account, e.delta, e.price, e.cost).value
              && e.price == s.candles[n + 1].open
              && e.cost == s.costModel(Abs(e.delta), s.candles[n + 1].open)
              && AtTarget(e.state, s.config.positionQuantity)
              && TradeCount(m.account.quantity, e.state.quantity).Ok?
              && s.candles[n + 1].openTime == Availability(s.candles[n])
  {
    hide Balanced, Total;
    assert Adjoins(s.candles, n + 1);
    var target := s.policy(m.contexts[|m.contexts| - 1]);
    TargetsAreLegal(m.account.quantity, target, s.config.positionQuantity);
  }

  lemma SettleKeepsLedger(s: Setup, n: nat, m: Run)
    requires Sound(s, m) && m.contexts != [] && n < |s.candles|
    requires ValidConfig(s.config) && LedgerHolds(s, m)
    ensures LedgerHolds(s, Settle(s, n, m))
  {
    if n + 1 < |s.candles| {
      DecisionNeverFails(s, n, m);
      if Decide(s, n, m).value.Some? {
        var e := Decide(s, n, m).value.value;
        FillKeepsBalance(m.account, e.delta, e.price, e.cost, s.config.initialCash, m.totalCost);
        TotalConcat(m.fillCosts, [e.cost]);
        assert Sum([e.cost], 0) == 0.0;
        hide Balanced, Total, Decide, ApplyFill, LegalFill;
      }
    }
  }

  lemma {:induction false} LedgerAlwaysHolds(s: Setup, n: nat)
    requires n <= |s.candles| && s.candles != [] && Uniform(s.candles) && ValidConfig(s.config)
    ensures LedgerHolds(s, RunAt(s, n))
    ensures n < |s.candles| ==> LedgerHolds(s, MarkedAt(s, n))
  {
    if n > 0 {
      LedgerAlwaysHolds(s, n - 1);
      if Evaluated(s, n - 1) {
        SettleKeepsLedger(s, n - 1, MarkedAt(s, n - 1));
      }
    }
    if n < |s.candles| {
      hide LedgerHolds;
      MarkKeepsLedger(s, n, RunAt(s, n));
    }
  }

  // ----- the fills in every run

  ghost predicate FillsHold(s: Setup, n: nat, r: Run)
    requires s.candles != [] && Uniform(s.candles)
  {
    && PositionLog.LegalFills(r.fills)
    && PositionLog.PositionAfter(r.fills, |r.fills|) == r.account.quantity
    && (forall k :: 0 <= k < |r.fills| ==> r.fills[k].time <= Instant(s, n))
    && r.tradeCount == PositionLog.Transitions(r.fills, |r.fills|)
  }

  lemma AppendFill(fills: seq<Fill>, f: Fill)
    requires PositionLog.LegalFills(fills)
    requires f.before == PositionLog.PositionAfter(fills, |fills|) != f.after && !PositionLog.IsResize(f)
    requires forall k :: 0 <= k < |fills| ==> fills[k].time < f.time
    ensures PositionLog.LegalFills(fills + [f])
    ensures PositionLog.Transitions(fills + [f], |fills| + 1)
            == PositionLog.Transitions(fills, |fills|) + if f.before == 0.0 || f.after == 0.0 then 1 else 2
  {
    var all := fills + [f];
    forall k | 0 <= k < |all|
      ensures PositionLog.Linked(all, k)
    {
      assert k < |fills| ==> PositionLog.Linked(fills, k);
    }
    TransitionsPrefix(fills, f, |fills|);
  }

  lemma {:induction false} TransitionsPrefix(fills: seq<Fill>, f: Fill, k: nat)
    requires k <= |fills|
    ensures PositionLog.Transitions(fills + [f], k) == PositionLog.Transitions(fills, k)
  {
    if k > 0 {
      TransitionsPrefix(fills, f, k - 1);
    }
  }

  lemma TradesOf(before: real, delta: real)
    requires LegalFill(before, delta)
    ensures TradeCount(before, before + delta).Ok?
    ensures Trades(before, before + delta) == if before == 0.0 || before + delta == 0.0 then 1 else 2
    ensures !PositionLog.IsResize(PositionLog.Fill(0, before, before + delta))
  {
  }

  lemma SettleKeepsFills(s: Setup, n: nat, m: Run)
    requires Sound(s, m) && m.contexts != [] && n < |s.candles|
    requires ValidConfig(s.config) && LedgerHolds(s, m) && FillsHold(s, n, m)
    ensures FillsHold(s, n + 1, Settle(s, n, m))
  {
    InstantOf(s, n);
    if n + 1 < |s.candles| {
      InstantOf(s, n + 1);
      DecisionNeverFails(s, n, m);
      if Decide(s, n, m).value.Some? {
        var e := Decide(s, n, m).value.value;
        TradesOf(m.account.quantity, e.delta);
        var f := PositionLog.Fill(s.candles[n + 1].openTime, m.account.quantity, e.state.quantity);
        assert PositionLog.IsResize(f) == PositionLog.IsResize(f.(time := 0));
        AppendFill(m.fills, f);
        hide LedgerHolds, Decide, ApplyFill, LegalFill, PositionLog.LegalFills, Instant, Trades;
      }
    }
  }

  lemma FillsHoldLater(s: Setup, n: nat, r: Run)
    requires s.candles != [] && Uniform(s.candles) && FillsHold(s, n, r)
    ensures FillsHold(s, n + 1, r)
  {
    InstantsAscend(s, n, n + 1);
  }

  lemma MarkKeepsFills(s: Setup, n: nat, r: Run)
    requires Sound(s, r) && n < |s.candles| && FillsHold(s, n, r)
    ensures FillsHold(s, n, Mark(s, n, r))
  {
  }

  lemma {:induction false} FillsAlwaysHold(s: Setup, n: nat)
    requires n <= |s.candles| && s.candles != [] && Uniform(s.candles) && ValidConfig(s.config)
    ensures FillsHold(s, n, RunAt(s, n))
  {
    hide RunAt, Instant, Mark, Settle, LedgerHolds;
    if n == 0 {
      RunStart(s);
    } else {
      hide FillsHold;
      RunStep(s, n - 1);
      FillsAlwaysHold(s, n - 1);
      if Evaluated(s, n - 1) {
        LedgerAlwaysHolds(s, n - 1);
        MarkKeepsFills(s, n - 1, RunAt(s, n - 1));
        SettleKeepsFills(s, n - 1, MarkedAt(s, n - 1));
      } else {
        FillsHoldLater(s, n - 1, RunAt(s, n - 1));
      }
    }
  }

  // ----- the equity points in every run

  ghost predicate PointsHold(s: Setup, n: nat, r: Run)
    requires s.candles != [] && Uniform(s.candles)
  {
    && (forall k :: 0 <= k < |r.points| ==> r.points[k].time <= Instant(s, n))
    && (forall j, k :: 0 <= j < k < |r.points| ==> r.points[j].time < r.points[k].time)
  }

  lemma {:induction false} PointsAlwaysAscend(s: Setup, n: nat)
    requires n <= |s.candles| && s.candles != [] && Uniform(s.candles)
    ensures PointsHold(s, n, RunAt(s, n))
  {
    if n > 0 {
      PointsAlwaysAscend(s, n - 1);
      InstantOf(s, n - 1);
    }
  }

  /** The last candle is marked and never filled, so the final mark is the last equity point. */
  lemma FinalPoint(s: Setup)
    requires s.candles != [] && Uniform(s.candles) && Evaluated(s, |s.candles| - 1)
    ensures var r := RunAt(s, |s.candles|);
            && r.points != []
            && r.points[|r.points| - 1]
               == EquityPoint(Instant(s, |s.candles|), Equity(r.account, s.candles[|s.candles| - 1].close))
  {
    InstantOf(s, |s.candles| - 1);
  }
}
