/** Properties of whole replays: funding timing, absence of look-ahead, and the attribution of
    every equity change to a recorded position interval. */
module ReplayTheorems {
  import opened Outcomes
  import opened Sums
  import opened ProductFacts
  import opened Market
  import opened Accounting
  import opened Replay
  import PositionLog

  // ----- funding: the cursor sweep is the declarative rule

  /** The net quantity of the fills stamped strictly before t, among the first k. */
  function NetBefore(fills: seq<Fill>, k: nat, t: int): real
    requires k <= |fills|
  {
    if k == 0 then 0.0
    else NetBefore(fills, k - 1, t) + if fills[k - 1].time < t then fills[k - 1].after - fills[k - 1].before else 0.0
  }

  lemma {:induction false} NetOfAll(fills: seq<Fill>, k: nat, t: int)
    requires PositionLog.LegalFills(fills) && k <= |fills|
    requires forall j :: 0 <= j < k ==> fills[j].time < t
    ensures NetBefore(fills, k, t) == PositionLog.PositionAfter(fills, k)
  {
    if k > 0 {
      NetOfAll(fills, k - 1, t);
      assert PositionLog.Linked(fills, k - 1);
    }
  }

  lemma {:induction false} NetPrefix(fills: seq<Fill>, f: Fill, k: nat, t: int)
    requires k <= |fills|
    ensures NetBefore(fills + [f], k, t) == NetBefore(fills, k, t)
  {
    if k > 0 {
      NetPrefix(fills, f, k - 1, t);
    }
  }

  ghost predicate ValidEvents(s: Setup)
    requires s.candles != [] && Uniform(s.candles)
  {
    && (forall i, j :: 0 <= i < j < |s.events| ==> EventTime(s.events[i]) <= EventTime(s.events[j]))
    && (forall i :: 0 <= i < |s.events| ==> s.start <= EventTime(s.events[i]) < Instant(s, |s.candles|))
  }

  lemma ValidFundingIsValidEvents(s: Setup, symbol: string)
    requires s.candles != [] && Uniform(s.candles)
    requires ValidFunding(s.events, symbol, s.start, Availability(s.candles[|s.candles| - 1]))
    ensures ValidEvents(s)
  {
    InstantOf(s, |s.candles| - 1);
    forall i, j | 0 <= i < j < |s.events|
      ensures EventTime(s.events[i]) <= EventTime(s.events[j])
    {
      FundingStrictlyIncreasing(s.events, symbol, s.start, Availability(s.candles[|s.candles| - 1]), i, j);
    }
  }

  /** The charge the declarative rule assigns to event j. */
  function RuleCharge(s: Setup, fills: seq<Fill>, j: nat): real
    requires j < |s.events|
  {
    Charge(s, NetBefore(fills, |fills|, EventTime(s.events[j])), j)
  }

  ghost predicate ChargedByRule(s: Setup, r: Run)
    requires r.cursor <= |s.events|
  {
    |r.charges| == r.cursor && forall j :: 0 <= j < r.cursor ==> r.charges[j] == RuleCharge(s, r.fills, j)
  }

  /** Events behind the cursor are not after t; no fill is at or after an event still ahead. */
  ghost predicate SweptUpTo(s: Setup, r: Run, t: int)
    requires r.cursor <= |s.events|
  {
    && (forall j :: 0 <= j < r.cursor ==> EventTime(s.events[j]) <= t)
    && (forall j, k :: r.cursor <= j < |s.events| && 0 <= k < |r.fills| ==> r.fills[k].time < EventTime(s.events[j]))
  }

  lemma MarkKeepsRule(s: Setup, n: nat, r: Run)
    requires Sound(s, r) && n < |s.candles| && FillsHold(s, n, r) && ValidEvents(s)
    requires ChargedByRule(s, r) && SweptUpTo(s, r, Instant(s, n))
    ensures ChargedByRule(s, Mark(s, n, r)) && SweptUpTo(s, Mark(s, n, r), Instant(s, n + 1))
    ensures forall j :: Mark(s, n, r).cursor <= j < |s.events| ==> EventTime(s.events[j]) > Instant(s, n + 1)
  {
    InstantOf(s, n);
    var m := Mark(s, n, r);
    hide Instant;
    forall j | 0 <= j < m.cursor
      ensures m.charges[j] == RuleCharge(s, m.fills, j)
    {
      if j >= r.cursor {
        NetOfAll(r.fills, |r.fills|, EventTime(s.events[j]));
      }
    }
  }

  lemma SettleKeepsRule(s: Setup, n: nat, m: Run)
    requires Sound(s, m) && m.contexts != [] && n < |s.candles|
    requires ChargedByRule(s, m) && SweptUpTo(s, m, Instant(s, n + 1))
    requires forall j :: m.cursor <= j < |s.events| ==> EventTime(s.events[j]) > Instant(s, n + 1)
    ensures ChargedByRule(s, Settle(s, n, m)) && SweptUpTo(s, Settle(s, n, m), Instant(s, n + 1))
  {
    var r := Settle(s, n, m);
    if r.fills != m.fills {
      InstantOf(s, n + 1);
      var f := r.fills[|m.fills|];
      hide Instant, Settle;
      forall j | 0 <= j < r.cursor
        ensures r.charges[j] == RuleCharge(s, r.fills, j)
      {
        NetPrefix(m.fills, f, |m.fills|, EventTime(s.events[j]));
      }
    }
  }

  lemma {:induction false} FundingFollowsRule(s: Setup, n: nat)
    requires n <= |s.candles| && s.candles != [] && Uniform(s.candles) && ValidConfig(s.config)
    requires ValidEvents(s)
    ensures RunAt(s, n).cursor <= |s.events|
    ensures ChargedByRule(s, RunAt(s, n)) && SweptUpTo(s, RunAt(s, n), Instant(s, n))
  {
    hide *;
    if n == 0 {
      NothingCharged(s);
    } else {
      FundingFollowsRule(s, n - 1);
      FillsAlwaysHold(s, n - 1);
      RunStep(s, n - 1);
      if Evaluated(s, n - 1) {
        RuleStep(s, n - 1);
      } else {
        SweptLater(s, n - 1, RunAt(s, n - 1));
      }
    }
  }

  lemma NothingCharged(s: Setup)
    requires s.candles != [] && Uniform(s.candles)
    ensures RunAt(s, 0).cursor <= |s.events|
    ensures ChargedByRule(s, RunAt(s, 0)) && SweptUpTo(s, RunAt(s, 0), Instant(s, 0))
  {
  }

  lemma RuleStep(s: Setup, i: nat)
    requires Uniform(s.candles) && i < |s.candles| && ValidEvents(s) && Evaluated(s, i)
    requires RunAt(s, i).cursor <= |s.events|
    requires FillsHold(s, i, RunAt(s, i)) && ChargedByRule(s, RunAt(s, i)) && SweptUpTo(s, RunAt(s, i), Instant(s, i))
    ensures RunAt(s, i + 1).cursor <= |s.events|
    ensures ChargedByRule(s, RunAt(s, i + 1)) && SweptUpTo(s, RunAt(s, i + 1), Instant(s, i + 1))
  {
    RunStep(s, i);
    MarkKeepsRule(s, i, RunAt(s, i));
    SettleKeepsRule(s, i, MarkedAt(s, i));
    hide RunAt, Settle, ChargedByRule, SweptUpTo, Instant, FillsHold;
  }

  lemma SweptLater(s: Setup, i: nat, r: Run)
    requires s.candles != [] && Uniform(s.candles) && r.cursor <= |s.events| && SweptUpTo(s, r, Instant(s, i))
    ensures SweptUpTo(s, r, Instant(s, i + 1))
  {
    InstantsAscend(s, i, i + 1);
    hide Instant, Uniform;
  }

  /** Every event of the run is charged exactly once, on the net quantity of all fills of the
      whole run stamped strictly before it; nothing else but fill costs is ever charged. */
  lemma EveryEventChargedOnce(s: Setup)
    requires s.candles != [] && Uniform(s.candles) && ValidConfig(s.config) && ValidEvents(s)
    requires Evaluated(s, |s.candles| - 1)
    ensures var run := RunAt(s, |s.candles|);
            && run.cursor == |s.events| == |run.charges|
            && (forall j :: 0 <= j < |s.events| ==>
                  var event := s.events[j].funding;
                  run.charges[j] == s.fundingModel(NetBefore(run.fills, |run.fills|, event.eventTime),
                                                   event.referencePrice, event.rate))
            && run.totalCost == Total(run.charges) + Total(run.fillCosts)
  {
    var last := |s.candles| - 1;
    FundingFollowsRule(s, last + 1);
    LedgerAlwaysHolds(s, last + 1);
    FundingFollowsRule(s, last);
    FillsAlwaysHold(s, last);
    MarkKeepsRule(s, last, RunAt(s, last));
    RunStep(s, last);
    assert RunAt(s, last + 1) == MarkedAt(s, last);
    hide RunAt, Mark, Settle, FillsHold, Instant, NetBefore, Uniform, Balanced;
  }

  // ----- no look-ahead

  /** The two setups differ only in candles from n on and in events after t. */
  ghost predicate AgreeUpTo(s: Setup, t: Setup, n: nat, m: nat)
    requires s.candles != [] && Uniform(s.candles)
  {
    && n <= |s.candles| && n <= |t.candles| && s.candles[..n] == t.candles[..n]
    && s.config == t.config && s.policy == t.policy && s.costModel == t.costModel
    && s.fundingModel == t.fundingModel && s.start == t.start
    && m <= |s.events| && m <= |t.events| && s.events[..m] == t.events[..m]
    && (forall j :: m <= j < |s.events| ==> EventTime(s.events[j]) > Instant(s, n))
    && (forall j :: m <= j < |t.events| ==> EventTime(t.events[j]) > Instant(s, n))
  }

  lemma {:induction false} DueEndAgrees(a: seq<HistoricalFundingEvent>, b: seq<HistoricalFundingEvent>,
                                        cursor: nat, m: nat, t: int)
    requires cursor <= m <= |a| && m <= |b| && a[..m] == b[..m]
    requires forall j :: m <= j < |a| ==> EventTime(a[j]) > t
    requires forall j :: m <= j < |b| ==> EventTime(b[j]) > t
    ensures DueEnd(a, cursor, t) == DueEnd(b, cursor, t) <= m
    decreases m - cursor
  {
    if cursor < m {
      assert a[cursor] == a[..m][cursor] == b[..m][cursor] == b[cursor];
      if EventTime(a[cursor]) <= t {
        DueEndAgrees(a, b, cursor + 1, m, t);
      }
    }
  }

  lemma MarkAgrees(s: Setup, t: Setup, n: nat, m: nat, i: nat, r: Run)
    requires Sound(s, r) && Sound(t, r) && AgreeUpTo(s, t, n, m) && i < n && r.cursor <= m
    ensures Mark(s, i, r) == Mark(t, i, r) && Mark(s, i, r).cursor <= m
  {
    assert s.candles[i] == s.candles[..n][i] == t.candles[i];
    InstantOf(s, i);
    assert Availability(s.candles[i]) <= Instant(s, n) by {
      if i + 1 < n {
        InstantsAscend(s, i + 1, n);
      }
    }
    var at := Availability(s.candles[i]);
    hide Instant;
    DueEndAgrees(s.events, t.events, r.cursor, m, at);
    var end := DueEnd(s.events, r.cursor, at);
    forall k | r.cursor <= k < end
      ensures Charge(s, r.account.quantity, k) == Charge(t, r.account.quantity, k)
    {
      assert s.events[k] == s.events[..m][k] == t.events[k];
    }
    assert Charges(s, r.account.quantity, r.cursor, end) == Charges(t, r.account.quantity, r.cursor, end);
    assert s.candles[..i + 1] == s.candles[..n][..i + 1] == t.candles[..n][..i + 1] == t.candles[..i + 1];
  }

  lemma SettleAgrees(s: Setup, t: Setup, n: nat, m: nat, i: nat, r: Run)
    requires Sound(s, r) && Sound(t, r) && AgreeUpTo(s, t, n, m) && i + 1 < n && r.contexts != []
    ensures Settle(s, i, r) == Settle(t, i, r) && Settle(s, i, r).cursor == r.cursor
  {
    assert s.candles[i] == s.candles[..n][i] == t.candles[i];
    assert s.candles[i + 1] == s.candles[..n][i + 1] == t.candles[i + 1];
  }

  /** While both runs only see candles before n, they are one run: same ledger, points, contexts
      and fills up to the mark of candle i, and so the same decision there. */
  lemma {:induction false} NoLookAhead(s: Setup, t: Setup, n: nat, m: nat, i: nat)
    requires s.candles != [] && t.candles != [] && Uniform(s.candles) && Uniform(t.candles)
    requires AgreeUpTo(s, t, n, m) && i < n
    ensures RunAt(s, i) == RunAt(t, i) && RunAt(s, i).cursor <= m
    ensures MarkedAt(s, i) == MarkedAt(t, i)
    ensures s.policy(MarkedAt(s, i).contexts[|MarkedAt(s, i).contexts| - 1])
            == t.policy(MarkedAt(t, i).contexts[|MarkedAt(t, i).contexts| - 1])
  {
    hide Mark, Settle;
    if i > 0 {
      NoLookAhead(s, t, n, m, i - 1);
      assert s.candles[i - 1] == s.candles[..n][i - 1] == t.candles[i - 1];
      MarkAgrees(s, t, n, m, i - 1, RunAt(s, i - 1));
      if Evaluated(s, i - 1) {
        SettleAgrees(s, t, n, m, i - 1, MarkedAt(s, i - 1));
      }
    }
    MarkAgrees(s, t, n, m, i, RunAt(s, i));
  }

  /** Later candles only extend a run. */
  ghost predicate Extends(r: Run, later: Run) {
    r.points <= later.points && r.contexts <= later.contexts && r.fills <= later.fills && r.charges <= later.charges
  }

  lemma {:induction false} RunsExtend(s: Setup, a: nat, b: nat)
    requires a <= b <= |s.candles| && s.candles != [] && Uniform(s.candles)
    ensures Extends(RunAt(s, a), RunAt(s, b))
    ensures a < b && Evaluated(s, a) ==> Extends(MarkedAt(s, a), RunAt(s, b))
  {
    if a < b {
      StepExtends(s, b - 1);
      RunsExtend(s, a, b - 1);
      hide RunAt, Mark, Settle, Uniform;
    }
  }

  lemma StepExtends(s: Setup, i: nat)
    requires i < |s.candles| && Uniform(s.candles)
    ensures Extends(RunAt(s, i), RunAt(s, i + 1))
    ensures Evaluated(s, i) ==> Extends(MarkedAt(s, i), RunAt(s, i + 1))
  {
  }

  /** The complete runs share the first n equity points, policy contexts and the fills decided
      before candle n-1, whatever follows. */
  lemma FinalRunsShareTheirPast(s: Setup, t: Setup, n: nat, m: nat)
    requires s.candles != [] && t.candles != [] && Uniform(s.candles) && Uniform(t.candles)
    requires AgreeUpTo(s, t, n, m) && n > 0 && Evaluated(s, n - 1)
    ensures var past := MarkedAt(s, n - 1);
            Extends(past, RunAt(s, |s.candles|)) && Extends(past, RunAt(t, |t.candles|))
  {
    hide RunAt, Mark, Instant, Extends;
    NoLookAhead(s, t, n, m, n - 1);
    assert s.candles[n - 1] == s.candles[..n][n - 1] == t.candles[n - 1];
    RunsExtend(s, n - 1, |s.candles|);
    RunsExtend(t, n - 1, |t.candles|);
  }

  // ----- one point and one context per evaluated candle

  ghost predicate FirstEvaluated(s: Setup, e: nat) {
    e < |s.candles| && s.candles[e].openTime >= s.start && forall j :: 0 <= j < e ==> s.candles[j].openTime < s.start
  }

  function PointAt(s: Setup, i: nat): EquityPoint
    requires i < |s.candles| && Uniform(s.candles)
  {
    EquityPoint(Instant(s, i + 1), Equity(MarkedAt(s, i).account, s.candles[i].close))
  }

  function ContextAt(s: Setup, i: nat): PolicyContext
    requires i < |s.candles| && Supported(s.candles[i].timeframe)
  {
    PolicyContext(Availability(s.candles[i]), s.candles[..i + 1])
  }

  lemma {:induction false} NothingBeforeFirst(s: Setup, e: nat, n: nat)
    requires Uniform(s.candles) && FirstEvaluated(s, e) && n <= e
    ensures RunAt(s, n) == NewRun(s.config)
  {
    if n > 0 {
      NothingBeforeFirst(s, e, n - 1);
    }
  }

  lemma {:induction false} PointsOfRun(s: Setup, e: nat, n: nat)
    requires Uniform(s.candles) && FirstEvaluated(s, e) && e <= n <= |s.candles|
    ensures var r := RunAt(s, n);
            && |r.points| == |r.contexts| == n - e
            && (forall k :: 0 <= k < n - e ==> r.points[k] == PointAt(s, e + k))
            && (forall k :: 0 <= k < n - e ==> r.contexts[k] == ContextAt(s, e + k))
  {
    if n == e {
      NothingBeforeFirst(s, e, n);
    } else {
      PointsOfRun(s, e, n - 1);
      EvaluatedOnward(s, e, n - 1);
      InstantOf(s, n - 1);
      PointsOfStep(s, n - 1);
      hide PointAt, ContextAt, Mark, Settle, RunAt;
    }
  }

  lemma PointsOfStep(s: Setup, i: nat)
    requires Uniform(s.candles) && i < |s.candles| && Evaluated(s, i)
    ensures var r, next := RunAt(s, i), RunAt(s, i + 1);
            next.points == r.points + [PointAt(s, i)] && next.contexts == r.contexts + [ContextAt(s, i)]
  {
    InstantOf(s, i);
  }

  /** The policy is only ever shown candles that are available at its own instant. */
  lemma ContextsAreAvailable(s: Setup, i: nat, j: nat)
    requires Uniform(s.candles) && i < |s.candles| && j <= i
    ensures |ContextAt(s, i).candles| == i + 1
    ensures Availability(ContextAt(s, i).candles[j]) <= ContextAt(s, i).asOf
  {
    if j < i {
      OpensAscend(s.candles, j, i);
    }
  }

  // ----- every fill executes the decision taken at its instant, at the next open

  ghost predicate FromDecision(s: Setup, f: Fill, cost: real, i: nat)
    requires Uniform(s.candles)
  {
    && i + 1 < |s.candles|
    && Evaluated(s, i)
    && f.time == s.candles[i + 1].openTime == ContextAt(s, i).asOf
    && cost == s.costModel(Abs(f.after - f.before), s.candles[i + 1].open)
    && var quantity, target := s.config.positionQuantity, s.policy(ContextAt(s, i));
    && (target.Long? ==> f.after == quantity)
    && (target.Flat? ==> f.after == 0.0)
    && (target.Short? ==> f.after == -quantity)
    && BookedAt(MarkedAt(s, i).account, RunAt(s, i + 1).account, f, s.candles[i + 1].open, cost)
  }

  /** The account moves by one fill at this price: the price is paid for what was bought, and
      becomes the entry of what is then held. */
  ghost predicate BookedAt(before: AccountState, after: AccountState, f: Fill, price: real, cost: real) {
    && f.before == before.quantity
    && f.after == after.quantity
    && after.cash == before.cash - (f.after - f.before) * price - cost
    && after.entry == (if f.after == 0.0 then None else Some(price))
    && (before.entry.None? ==> after.realizedPnl == before.realizedPnl)
    && (before.entry.Some? ==> after.realizedPnl == before.realizedPnl + f.before * (price - before.entry.value))
  }

  lemma {:induction false} FillsExecuteDecisions(s: Setup, n: nat, k: nat) returns (i: nat)
    requires n <= |s.candles| && s.candles != [] && Uniform(s.candles) && ValidConfig(s.config)
    requires k < |RunAt(s, n).fills| && |RunAt(s, n).fillCosts| == |RunAt(s, n).fills|
    ensures i < n && FromDecision(s, RunAt(s, n).fills[k], RunAt(s, n).fillCosts[k], i)
  {
    hide RunAt, FromDecision, LedgerHolds, ContextAt;
    RunStart(s);
    RunsExtendCosts(s, n - 1);
    if k < |RunAt(s, n - 1).fills| {
      LedgerAlwaysHolds(s, n - 1);
      FillCostPerFill(s, n - 1);
      i := FillsExecuteDecisions(s, n - 1, k);
    } else {
      i := n - 1;
      NewFillExecutesDecision(s, i, k);
    }
  }

  lemma FillCostPerFill(s: Setup, n: nat)
    requires n <= |s.candles| && s.candles != [] && Uniform(s.candles) && LedgerHolds(s, RunAt(s, n))
    ensures |RunAt(s, n).fillCosts| == |RunAt(s, n).fills|
  {
  }

  lemma NewFillExecutesDecision(s: Setup, i: nat, k: nat)
    requires i < |s.candles| && Uniform(s.candles) && ValidConfig(s.config)
    requires |RunAt(s, i).fills| <= k < |RunAt(s, i + 1).fills|
    ensures |RunAt(s, i + 1).fillCosts| == |RunAt(s, i + 1).fills|
    ensures FromDecision(s, RunAt(s, i + 1).fills[k], RunAt(s, i + 1).fillCosts[k], i)
  {
    LedgerAlwaysHolds(s, i);
    var m := MarkedAt(s, i);
    RunStep(s, i);
    DecisionNeverFails(s, i, m);
    var e := Decide(s, i, m).value.value;
    assert e.delta == e.state.quantity - m.account.quantity;
    FillIsBooked(m.account, e.delta, e.price, e.cost, s.candles[i + 1].openTime);
    hide RunAt, Balanced, Total, LegalFill, ApplyFill, Equity, BookedAt;
  }

  lemma FillIsBooked(before: AccountState, delta: real, price: real, cost: real, time: int)
    requires ValidAccount(before) && LegalFill(before.quantity, delta)
    ensures var after := ApplyFill(before, delta, price, cost).value;
            BookedAt(before, after, PositionLog.Fill(time, before.quantity, after.quantity), price, cost)
  {
  }

  lemma RunsExtendCosts(s: Setup, n: nat)
    requires n < |s.candles| && Uniform(s.candles)
    ensures RunAt(s, n).fills <= RunAt(s, n + 1).fills
    ensures RunAt(s, n).fillCosts <= RunAt(s, n + 1).fillCosts
  {
  }

  // ----- return attribution

  ghost predicate FlatIsFree(fundingModel: (real, real, real) -> real) {
    forall price, rate :: fundingModel(0.0, price, rate) == 0.0
  }

  lemma LinearFundingFlatIsFree()
    ensures FlatIsFree(LinearFunding)
  {
    forall price, rate
      ensures LinearFunding(0.0, price, rate) == 0.0
    {
    }
  }

  lemma {:induction false} ZeroTotal(xs: seq<real>, n: nat)
    requires n <= |xs| && forall k :: 0 <= k < n ==> xs[k] == 0.0
    ensures Sum(xs, n) == 0.0
  {
    if n > 0 {
      ZeroTotal(xs, n - 1);
    }
  }

  /** Flat across two consecutive marks means an unchanged equity. */
  lemma FlatKeepsEquity(s: Setup, i: nat)
    requires Uniform(s.candles) && ValidConfig(s.config) && FlatIsFree(s.fundingModel)
    requires i + 1 < |s.candles| && Evaluated(s, i)
    requires MarkedAt(s, i).account.quantity == 0.0 && RunAt(s, i + 1).account.quantity == 0.0
    ensures PointAt(s, i).equity == PointAt(s, i + 1).equity
  {
    LedgerAlwaysHolds(s, i);
    DecisionNeverFails(s, i, MarkedAt(s, i));
    var r := RunAt(s, i + 1);
    assert r == MarkedAt(s, i);
    var end := DueEnd(s.events, r.cursor, Availability(s.candles[i + 1]));
    var charges := Charges(s, 0.0, r.cursor, end);
    ZeroTotal(charges, |charges|);
  }

  lemma {:induction false} LaterFillsAreLater(s: Setup, a: nat, b: nat)
    requires a <= b <= |s.candles| && s.candles != [] && Uniform(s.candles)
    ensures RunAt(s, a).fills <= RunAt(s, b).fills
    ensures forall j :: |RunAt(s, a).fills| <= j < |RunAt(s, b).fills| ==> RunAt(s, b).fills[j].time > Instant(s, a)
  {
    hide RunAt, Instant, Uniform;
    if a < b {
      LaterFillsAreLater(s, a, b - 1);
      RunsExtendCosts(s, b - 1);
      FillOfStep(s, b - 1);
      InstantsAscend(s, a, b);
    }
  }

  lemma FillOfStep(s: Setup, i: nat)
    requires i < |s.candles| && Uniform(s.candles)
    ensures |RunAt(s, i + 1).fills| <= |RunAt(s, i).fills| + 1
    ensures |RunAt(s, i + 1).fills| > |RunAt(s, i).fills| ==>
              RunAt(s, i + 1).fills[|RunAt(s, i).fills|].time == Instant(s, i + 1)
  {
    if i + 1 < |s.candles| {
      InstantOf(s, i + 1);
    }
  }

  function MarkTimes(points: seq<EquityPoint>): (r: seq<int>)
    ensures |r| == |points|
  {
    seq(|points|, k requires 0 <= k < |points| => points[k].time)
  }

  /** The marks of a run are candle instants, so none lies strictly between two neighbours. */
  lemma NoMarkBetween(s: Setup, e: nat, i: nat, mark: int)
    requires Uniform(s.candles) && FirstEvaluated(s, e) && i + 1 < |s.candles|
    requires mark in MarkTimes(RunAt(s, |s.candles|).points) && mark > Instant(s, i + 1)
    ensures mark >= Instant(s, i + 2)
  {
    hide RunAt, MarkedAt, Instant, Equity, ContextAt;
    PointsOfRun(s, e, |s.candles|);
    var points := RunAt(s, |s.candles|).points;
    var k :| 0 <= k < |points| && MarkTimes(points)[k] == mark;
    var j := e + k + 1;
    assert points[k] == PointAt(s, e + k);
    if j < i + 1 {
      InstantsAscend(s, j, i + 1);
    } else if j > i + 2 {
      InstantsAscend(s, i + 2, j);
    }
  }

  /** An interval entered by instant i+1 and not left before it carries the mark at instant i+2. */
  lemma CarriesMark(s: Setup, e: nat, i: nat, interval: PositionLog.PositionInterval)
    requires Uniform(s.candles) && FirstEvaluated(s, e) && e <= i && i + 1 < |s.candles|
    requires interval.entry <= Instant(s, i + 1)
    requires interval.exit.Some? ==> interval.exit.value >= Instant(s, i + 1)
    ensures Instant(s, i + 2) in PositionLog.ReturnMarks(interval, MarkTimes(RunAt(s, |s.candles|).points))
  {
    var points := RunAt(s, |s.candles|).points;
    var marks, m := MarkTimes(points), Instant(s, i + 2);
    PointsOfRun(s, e, |s.candles|);
    PointsAlwaysAscend(s, |s.candles|);
    assert marks[i + 1 - e] == m;
    InstantsAscend(s, i + 1, i + 2);
    PositionLog.ReturnMarksMeaning(interval, marks, m);
    forall k | 0 <= k < |marks| && Instant(s, i + 1) < marks[k]
      ensures m <= marks[k]
    {
      NoMarkBetween(s, e, i, marks[k]);
    }
  }

  /** If a position is held at mark i or right after it, some recorded interval of the whole run
      was entered by then and not left before. */
  lemma HeldPositionIsRecorded(s: Setup, i: nat) returns (a: nat)
    requires Uniform(s.candles) && ValidConfig(s.config) && i + 1 < |s.candles| && Evaluated(s, i)
    requires MarkedAt(s, i).account.quantity != 0.0 || RunAt(s, i + 1).account.quantity != 0.0
    ensures var fills := RunAt(s, |s.candles|).fills;
            var intervals := PositionLog.Intervals(PositionLog.LogOf(fills, |fills|));
            && a < |intervals|
            && intervals[a].entry <= Instant(s, i + 1)
            && (intervals[a].exit.Some? ==> intervals[a].exit.value >= Instant(s, i + 1))
  {
    hide RunAt, Mark, Instant, FillsHold, PositionLog.LogOf, PositionLog.LegalFills, PositionLog.Intervals;
    var fills, now := RunAt(s, |s.candles|).fills, RunAt(s, i + 1).fills;
    var k := |now|;
    FillsAlwaysHold(s, |s.candles|);
    FillsAlwaysHold(s, i + 1);
    LaterFillsAreLater(s, i + 1, |s.candles|);
    FillOfHeld(s, i);
    FillsHoldFacts(s, i + 1);
    FillsHoldFacts(s, |s.candles|);
    assert k > 0 && fills[k - 1] == now[k - 1];
    if RunAt(s, i + 1).account.quantity != 0.0 {
      a := PositionLog.OpenPersists(fills, k, |fills|);
    } else {
      a := PositionLog.ClosePersists(fills, k - 1, |fills|);
    }
  }

  lemma FillsHoldFacts(s: Setup, n: nat)
    requires n <= |s.candles| && s.candles != [] && Uniform(s.candles) && FillsHold(s, n, RunAt(s, n))
    ensures var r := RunAt(s, n);
            && PositionLog.LegalFills(r.fills)
            && (r.fills == [] ==> r.account.quantity == 0.0)
            && (r.fills != [] ==> r.fills[|r.fills| - 1].after == r.account.quantity)
            && (r.fills != [] ==> r.fills[|r.fills| - 1].time <= Instant(s, n))
  {
  }

  /** Leaving a position at step i is a fill stamped at the next open. */
  lemma FillOfHeld(s: Setup, i: nat)
    requires Uniform(s.candles) && ValidConfig(s.config) && i + 1 < |s.candles| && Evaluated(s, i)
    ensures var m, r := MarkedAt(s, i), RunAt(s, i + 1);
            m.account.quantity != 0.0 && r.account.quantity == 0.0 ==>
              && r.fills != []
              && r.fills[|r.fills| - 1].before == m.account.quantity
              && r.fills[|r.fills| - 1].time == Instant(s, i + 1)
  {
    InstantOf(s, i + 1);
  }

  /** Every change of equity between consecutive marks is carried by a recorded interval. */
  lemma ReturnsAreAttributed(s: Setup, e: nat, k: nat)
    requires Uniform(s.candles) && ValidConfig(s.config) && FlatIsFree(s.fundingModel)
    requires FirstEvaluated(s, e)
    requires var points := RunAt(s, |s.candles|).points;
             k + 1 < |points| && points[k].equity != points[k + 1].equity
    ensures var run := RunAt(s, |s.candles|);
            var intervals := PositionLog.Intervals(PositionLog.LogOf(run.fills, |run.fills|));
            exists a :: 0 <= a < |intervals| &&
              run.points[k + 1].time in PositionLog.ReturnMarks(intervals[a], MarkTimes(run.points))
  {
    hide RunAt, Mark, Instant, Equity, PositionLog.LogOf, PositionLog.Intervals, PositionLog.ReturnMarks;
    PointsOfRun(s, e, |s.candles|);
    var run := RunAt(s, |s.candles|);
    var intervals := PositionLog.Intervals(PositionLog.LogOf(run.fills, |run.fills|));
    var i := e + k;
    assert run.points[k] == PointAt(s, i) && run.points[k + 1] == PointAt(s, i + 1);
    EvaluatedOnward(s, e, i);
    hide PointAt, Uniform;
    if MarkedAt(s, i).account.quantity == 0.0 && RunAt(s, i + 1).account.quantity == 0.0 {
      FlatKeepsEquity(s, i);
    }
    var a := HeldPositionIsRecorded(s, i);
    PointTime(s, i + 1);
    CarriesMark(s, e, i, intervals[a]);
  }

  lemma PointTime(s: Setup, i: nat)
    requires i < |s.candles| && Uniform(s.candles)
    ensures PointAt(s, i).time == Instant(s, i + 1)
  {
  }

  /** The intervals of a run are chronological, and two neighbours share at most the one mark
      that carries both sides of a reversal. */
  lemma IntervalsShareOnlyReversalMarks(s: Setup, e: nat, a: nat, b: nat, m: int)
    requires Uniform(s.candles) && ValidConfig(s.config) && FirstEvaluated(s, e)
    requires var run := RunAt(s, |s.candles|);
             var intervals := PositionLog.Intervals(PositionLog.LogOf(run.fills, |run.fills|));
             && a < b < |intervals|
             && m in PositionLog.ReturnMarks(intervals[a], MarkTimes(run.points))
             && m in PositionLog.ReturnMarks(intervals[b], MarkTimes(run.points))
    ensures var run := RunAt(s, |s.candles|);
            var intervals := PositionLog.Intervals(PositionLog.LogOf(run.fills, |run.fills|));
            && intervals[a].exit == Some(intervals[b].entry)
            && PositionLog.FirstAfter(MarkTimes(run.points), intervals[b].entry) == Some(m)
  {
    var run := RunAt(s, |s.candles|);
    var intervals := PositionLog.Intervals(PositionLog.LogOf(run.fills, |run.fills|));
    FillsAlwaysHold(s, |s.candles|);
    PointsAlwaysAscend(s, |s.candles|);
    PositionLog.IntervalsOrdered(run.fills, a, b);
    var f := PositionLog.IntervalIsHolding(run.fills, |run.fills|, b);
    FillIsMark(s, e, f);
    PositionLog.SharedMark(intervals[a], intervals[b], MarkTimes(run.points), m);
  }

  /** Fills are stamped at equity marks: the open of the next candle is the close of this one. */
  lemma FillIsMark(s: Setup, e: nat, f: nat)
    requires Uniform(s.candles) && ValidConfig(s.config) && FirstEvaluated(s, e)
    requires f < |RunAt(s, |s.candles|).fills|
    ensures RunAt(s, |s.candles|).fills[f].time in MarkTimes(RunAt(s, |s.candles|).points)
  {
    var run := RunAt(s, |s.candles|);
    LedgerAlwaysHolds(s, |s.candles|);
    var i := FillsExecuteDecisions(s, |s.candles|, f);
    hide BookedAt;
    PointsOfRun(s, e, |s.candles|);
    assert i >= e;
    InstantOf(s, i + 1);
    assert MarkTimes(run.points)[i - e] == Instant(s, i + 1);
  }

  /** The engine's trade count is the number of transitions the recorder reconstructs. */
  lemma TradesAreRecordedTransitions(s: Setup)
    requires s.candles != [] && Uniform(s.candles) && ValidConfig(s.config)
    ensures var run := RunAt(s, |s.candles|);
            run.tradeCount
            == PositionLog.TransitionCount(PositionLog.Intervals(PositionLog.LogOf(run.fills, |run.fills|)))
  {
    FillsAlwaysHold(s, |s.candles|);
    var run := RunAt(s, |s.candles|);
    PositionLog.TransitionsAreRecorded(run.fills, |run.fills|);
    hide RunAt, PositionLog.Transitions, PositionLog.TransitionCount;
  }
}
