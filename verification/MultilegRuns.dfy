/** Whole multi-leg runs: every check of the accounting that a validated run could meet is decided
    by the inputs alone, and the finished ledgers are given by the fills and funding records. */
module MultilegRuns {
  import opened Outcomes
  import opened TextOrder
  import opened Market
  import opened Multileg
  import opened MultilegReplay

  // ----- the paired fill

  /** What the inputs must offer for intent k to fill at candle i: positive opens, costs that are
      not negative, and, for the open, enough spot cash. */
  predicate FillAccepted(s: Setup, k: nat, i: nat)
    requires k < |s.intents| && i < |s.spot| == |s.perpetual|
  {
    var q, spot, perpetual := s.intents[k].quantity, s.spot[i].open, s.perpetual[i].open;
    && spot > 0.0 && perpetual > 0.0
    && s.spotCosts(q, spot) >= 0.0 && s.perpetualCosts(q, perpetual) >= 0.0
    && (k == 0 ==> s.spotCash - q * spot - s.spotCosts(q, spot) >= 0.0)
  }

  predicate External(f: Failure) {
    || f.FlatFundingNotZero? || f.NonPositiveOpen?
    || f == Hedge(InsufficientSpotCash) || f == Hedge(InvalidCost) || f == Hedge(NonPositiveMark)
  }

  /** The intent of candle n is the next one of the script, and the count of due intents moves with it. */
  lemma ScriptPosition(s: Setup, n: nat)
    requires ValidSetup(s) && n < |s.spot|
    ensures var k, intent := Due(s.intents, Clock(s, n)), IntentAt(s.intents, |s.intents|, Clock(s, n + 1));
            && (intent.None? ==> Due(s.intents, Clock(s, n + 1)) == k)
            && (intent.Some? ==>
                  && k < |s.intents| && intent.value == s.intents[k]
                  && s.intents[k].decisionTime == Clock(s, n + 1)
                  && Due(s.intents, Clock(s, n + 1)) == k + 1)
  {
    forall i | 0 <= i < |s.intents|
      ensures s.intents[i].decisionTime <= Clock(s, n) || s.intents[i].decisionTime >= Clock(s, n + 1)
    {
      DecisionOnGrid(s, i, n);
    }
    ClockOf(s, n);
    assert LawfulScript(s.intents);
    hide ValidSetup, Clock;
    var intent := IntentAt(s.intents, |s.intents|, Clock(s, n + 1));
    if intent.Some? {
      var i :| 0 <= i < |s.intents| && s.intents[i].decisionTime == Clock(s, n + 1) && intent.value == s.intents[i];
    }
  }

  /** The fill of candle n's decision comes after everything recorded so far. */
  lemma FillFollows(s: Setup, n: nat, b: Book)
    requires ValidSetup(s) && n < |s.spot| && Reachable(b.state) && OrderFree(s, n, b)
    requires Identity(s, b.state)
    ensures OrderError(b.state, EventKey(Clock(s, n + 1), FILL_PHASE, "")).None?
  {
    assert HistoryHolds(b.state);
    assert b.state.ordering == FundingBeforeFill;
    assert s.spot != [] && Uniform(s.spot);
    var key := EventKey(Clock(s, n + 1), FILL_PHASE, "");
    OrderErrorMeaning(b.state, key);
    ClockOf(s, n);
    hide LedgersHold, FillsDescribe, Increasing, Uniform, ValidFunding, ValidIntents, OrderError;
  }

  ghost predicate FilledInto(s: Setup, k: nat, n: nat, b: Book, after: Book)
    requires |s.spot| == |s.perpetual| && n < |s.spot| && Uniform(s.spot)
  {
    && after == b.(state := after.state)
    && Core(s, k + 1, after)
    && after.state.fills != [] && Latest(after.state).time == Clock(s, n)
  }

  lemma OpenHolds(s: Setup, n: nat, b: Book)
    requires ValidSetup(s) && 0 < n < |s.spot| && Core(s, 0, b) && |s.intents| > 0
    requires s.intents[0].decisionTime == Clock(s, n)
    ensures FillPair(s, n, s.intents[0], b).Ok? <==> FillAccepted(s, 0, n)
    ensures FillPair(s, n, s.intents[0], b).Err? ==> External(FillPair(s, n, s.intents[0], b).error)
    ensures FillPair(s, n, s.intents[0], b).Ok? ==> FilledInto(s, 0, n, b, FillPair(s, n, s.intents[0], b).value)
  {
    assert |s.spot| == |s.perpetual| && Uniform(s.spot) && LawfulScript(s.intents);
    var intent := s.intents[0];
    assert intent.action == OpenAction && intent.quantity > 0.0;
    assert Reachable(b.state) && Identity(s, b.state) && b.state.lifecycle == Flat && RecordsHold(s, b);
    ClockOf(s, n);
    if s.spot[n].open > 0.0 && s.perpetual[n].open > 0.0 {
      var spot, perpetual := SpotLeg(s, n, intent), PerpetualLeg(s, n, intent);
      assert ValidLegs(Some(spot), Some(perpetual));
      assert PairError(b.state, Some(spot), Some(perpetual), Buy, Sell).None?;
      assert b.state.fills == [] && b.state.fundingKeys == [];
      assert b.state.spot == SpotLedger(s.spotCash, 0.0, None, 0.0, 0.0)
             && b.state.perpetual.quantity == 0.0;
      OpenKeepsReachable(b.state, Some(spot), Some(perpetual), s.spotCosts, s.perpetualCosts);
      OpenErrors(s, n, b, spot, perpetual);
      if FillPair(s, n, intent, b).Ok? {
        var x := OpenState(b.state, spot, perpetual, s.spotCosts(spot.quantity, spot.price),
                           s.perpetualCosts(perpetual.quantity, perpetual.price));
        assert FillPair(s, n, intent, b).value == b.(state := x);
        OpenedCore(s, n, b, x, spot, perpetual);
      }
    } else {
    }
  }

  lemma OpenErrors(s: Setup, n: nat, b: Book, spot: LegExecution, perpetual: LegExecution)
    requires |s.spot| == |s.perpetual| && n < |s.spot| && |s.intents| > 0
    requires s.intents[0].action == OpenAction && s.intents[0].quantity > 0.0
    requires spot == SpotLeg(s, n, s.intents[0]) && perpetual == PerpetualLeg(s, n, s.intents[0])
    requires s.spot[n].open > 0.0 && s.perpetual[n].open > 0.0 && ValidLegs(Some(spot), Some(perpetual))
    requires Reachable(b.state) && b.state.lifecycle == Flat && b.state.spot.cash == s.spotCash
    requires PairError(b.state, Some(spot), Some(perpetual), Buy, Sell).None?
    ensures FillPair(s, n, s.intents[0], b).Ok? <==> FillAccepted(s, 0, n)
    ensures FillPair(s, n, s.intents[0], b).Err? ==> External(FillPair(s, n, s.intents[0], b).error)
  {
    assert HistoryHolds(b.state);
    OrderErrorMeaning(b.state, EventKey(spot.time, FILL_PHASE, ""));
    OpenKeepsReachable(b.state, Some(spot), Some(perpetual), s.spotCosts, s.perpetualCosts);
    hide HistoryHolds;
  }

  lemma OpenedCore(s: Setup, n: nat, b: Book, x: State, spot: LegExecution, perpetual: LegExecution)
    requires |s.spot| == |s.perpetual| && 0 < n < |s.spot| && |s.intents| > 0 && Uniform(s.spot)
    requires s.intents[0].action == OpenAction && s.intents[0].decisionTime == Clock(s, n) == s.spot[n].openTime
    requires spot == SpotLeg(s, n, s.intents[0]) && perpetual == PerpetualLeg(s, n, s.intents[0])
    requires b.state.fills == [] && b.state.fundingKeys == [] && b.state.perpetual.quantity == 0.0
    requires Identity(s, b.state) && RecordsHold(s, b)
    requires Reachable(x)
             && x == OpenState(b.state, spot, perpetual, s.spotCosts(spot.quantity, spot.price),
                               s.perpetualCosts(perpetual.quantity, perpetual.price))
    ensures FilledInto(s, 0, n, b, b.(state := x))
  {
    hide Reachable, Uniform, RecordOf, Clock;
    assert FilledAt(s, x.fills[0], 0, n);
  }

  lemma CloseHolds(s: Setup, n: nat, b: Book)
    requires ValidSetup(s) && 0 < n < |s.spot| && Core(s, 1, b) && |s.intents| == 2
    requires s.intents[1].decisionTime == Clock(s, n)
    requires OrderError(b.state, EventKey(Clock(s, n), FILL_PHASE, "")).None?
    requires b.state.lifecycle == HedgedOpen ==> b.state.spot.entry.Some? && b.state.perpetual.entry.Some?
    ensures FillPair(s, n, s.intents[1], b).Ok? <==> FillAccepted(s, 1, n)
    ensures FillPair(s, n, s.intents[1], b).Err? ==> External(FillPair(s, n, s.intents[1], b).error)
    ensures FillPair(s, n, s.intents[1], b).Ok? ==> FilledInto(s, 1, n, b, FillPair(s, n, s.intents[1], b).value)
  {
    assert |s.spot| == |s.perpetual| && Uniform(s.spot) && LawfulScript(s.intents);
    var intent := s.intents[1];
    assert intent.action == CloseAction && intent.quantity == s.intents[0].quantity > 0.0;
    assert Reachable(b.state) && Identity(s, b.state) && b.state.lifecycle == HedgedOpen
           && b.state.perpetual.quantity == -intent.quantity;
    assert b.state.spot.quantity == intent.quantity;
    ClockOf(s, n);
    if s.spot[n].open > 0.0 && s.perpetual[n].open > 0.0 {
      var spot, perpetual := SpotLeg(s, n, intent), PerpetualLeg(s, n, intent);
      assert ValidLegs(Some(spot), Some(perpetual));
      assert PairError(b.state, Some(spot), Some(perpetual), Sell, Buy).None?
             && spot.time == Clock(s, n) && spot.quantity == perpetual.quantity == intent.quantity;
      CloseKeepsReachable(b.state, Some(spot), Some(perpetual), s.spotCosts, s.perpetualCosts);
      CloseErrors(s, n, b, spot, perpetual);
      if FillPair(s, n, intent, b).Ok? {
        var x := CloseState(b.state, spot, perpetual, s.spotCosts(spot.quantity, spot.price),
                            s.perpetualCosts(perpetual.quantity, perpetual.price));
        assert FillPair(s, n, intent, b).value == b.(state := x);
        ClosedCore(s, n, b, x, spot, perpetual);
      }
    } else {
    }
  }

  lemma CloseErrors(s: Setup, n: nat, b: Book, spot: LegExecution, perpetual: LegExecution)
    requires |s.spot| == |s.perpetual| && n < |s.spot| && |s.intents| == 2
    requires s.intents[1].action == CloseAction && s.intents[1].quantity > 0.0
    requires spot == SpotLeg(s, n, s.intents[1]) && perpetual == PerpetualLeg(s, n, s.intents[1])
    requires s.spot[n].open > 0.0 && s.perpetual[n].open > 0.0 && ValidLegs(Some(spot), Some(perpetual))
    requires Reachable(b.state) && b.state.lifecycle == HedgedOpen
    requires b.state.spot.quantity == spot.quantity == -b.state.perpetual.quantity
    requires b.state.spot.entry.Some? && b.state.perpetual.entry.Some?
    requires PairError(b.state, Some(spot), Some(perpetual), Sell, Buy).None?
    requires OrderError(b.state, EventKey(spot.time, FILL_PHASE, "")).None?
    ensures FillPair(s, n, s.intents[1], b).Ok? <==> FillAccepted(s, 1, n)
    ensures FillPair(s, n, s.intents[1], b).Err? ==> External(FillPair(s, n, s.intents[1], b).error)
  {
    PairErrorMeaning(b.state, Some(spot), Some(perpetual), Sell, Buy);
    hide PairError, OrderError, Reachable, Checked, CloseState, LegsMatch;
    CloseKeepsReachable(b.state, Some(spot), Some(perpetual), s.spotCosts, s.perpetualCosts);
  }

  lemma ClosedCore(s: Setup, n: nat, b: Book, x: State, spot: LegExecution, perpetual: LegExecution)
    requires |s.spot| == |s.perpetual| && 0 < n < |s.spot| && |s.intents| == 2 && Uniform(s.spot)
    requires s.intents[1].action == CloseAction && s.intents[1].decisionTime == Clock(s, n) == s.spot[n].openTime
    requires spot == SpotLeg(s, n, s.intents[1]) && perpetual == PerpetualLeg(s, n, s.intents[1])
    requires Core(s, 1, b) && b.state.spot.entry.Some? && b.state.perpetual.entry.Some?
    requires Reachable(x)
             && x == CloseState(b.state, spot, perpetual, s.spotCosts(spot.quantity, spot.price),
                                s.perpetualCosts(perpetual.quantity, perpetual.price))
    ensures FilledInto(s, 1, n, b, b.(state := x))
  {
    assert Reachable(b.state) && Identity(s, b.state) && RecordsHold(s, b) && FillsFollow(s, b.state.fills)
           && b.state.lifecycle == HedgedOpen;
    assert |b.state.fills| == 1;
    assert |x.fills| == 2 && x.fills[0] == b.state.fills[0] && FilledAt(s, x.fills[1], 1, n);
    assert FillsFollow(s, x.fills);
    assert RecordsHold(s, b.(state := x)) && Identity(s, x) && x.lifecycle == FlatClosed
           && x.perpetual.quantity == 0.0;
    assert Latest(x).time == Clock(s, n);
  }

  // ----- one candle

  /** How many decisions have been executed before candle n. */
  function Executed(s: Setup, n: nat): nat
    requires s.spot != [] && Uniform(s.spot)
  {
    Due(s.intents, Clock(s, if n < |s.spot| then n else |s.spot| - 1))
  }

  ghost predicate NothingAfter(s: Setup, t: int, x: State) {
    x.lifecycle != Flat && 0 < |x.fills| <= 2 ==> Latest(x).time <= t
  }

  function Unfilled(s: Setup, n: nat): seq<HedgeIntent>
    requires s.spot != [] && Uniform(s.spot)
  {
    if n < |s.spot| then []
    else
      match IntentAt(s.intents, |s.intents|, Clock(s, n))
      case None => []
      case Some(intent) => [intent]
  }

  lemma MarkHolds(s: Setup, n: nat, b: Book)
    requires ValidSetup(s) && n < |s.spot| && Reachable(b.state) && OrderFree(s, n, b)
    ensures MarkBook(s, n, b).Ok? <==> s.spot[n].close > 0.0 && s.perpetual[n].close > 0.0
    ensures MarkBook(s, n, b).Err? ==> MarkBook(s, n, b).error == Hedge(NonPositiveMark)
    ensures MarkBook(s, n, b).Ok? ==>
              exists m :: MarkBook(s, n, b).value == b.(marks := b.marks + [m]) && m.time == Clock(s, n + 1)
                          && MarkPortfolio(b.state, m.time, s.spot[n].close, s.perpetual[n].close) == Outcomes.Ok(m)
                          && m.equity == PortfolioEquity(b.state, s.spot[n].close, s.perpetual[n].close)
    ensures NothingAfter(s, Clock(s, n + 1), b.state)
  {
    assert |s.spot| == |s.perpetual| && Uniform(s.spot);
    assert Supported(s.spot[n].timeframe);
    ClockOf(s, n);
    assert NothingAfter(s, Clock(s, n + 1), b.state);
    assert HistoryHolds(b.state);
    assert b.state.lastEvent.Some? ==> Clock(s, n + 1) >= b.state.lastEvent.value;
    MarkNeverMismatches(b.state, Clock(s, n + 1), s.spot[n].close, s.perpetual[n].close);
  }

  ghost predicate DecisionAccepted(s: Setup, n: nat)
    requires n < |s.spot| == |s.perpetual| && Uniform(s.spot)
  {
    n + 1 < |s.spot| ==>
      forall k :: 0 <= k < |s.intents| && s.intents[k].decisionTime == Clock(s, n + 1) ==> FillAccepted(s, k, n + 1)
  }

  ghost predicate DecisionApplied(s: Setup, n: nat, b: Book, after: Book)
    requires n < |s.spot| == |s.perpetual| && Uniform(s.spot)
  {
    && after == b.(state := after.state, unexecuted := b.unexecuted + Unfilled(s, n + 1))
    && Core(s, Executed(s, n + 1), after)
    && NothingAfter(s, Clock(s, n + 1), after.state)
  }

  lemma OneFill(s: Setup, n: nat, k: nat, b: Book)
    requires ValidSetup(s) && 0 < n < |s.spot| && Core(s, k, b) && OrderFree(s, n - 1, b)
    requires k < |s.intents| && s.intents[k].decisionTime == Clock(s, n)
    ensures FillPair(s, n, s.intents[k], b).Ok? <==> FillAccepted(s, k, n)
    ensures FillPair(s, n, s.intents[k], b).Err? ==> External(FillPair(s, n, s.intents[k], b).error)
    ensures FillPair(s, n, s.intents[k], b).Ok? ==> FilledInto(s, k, n, b, FillPair(s, n, s.intents[k], b).value)
  {
    hide Availability;
    assert |s.spot| == |s.perpetual| && Uniform(s.spot) && LawfulScript(s.intents);
    assert Reachable(b.state) && Identity(s, b.state) && b.state.lifecycle == Stage(k);
    assert |s.intents| <= 2;
    if k == 0 {
      OpenHolds(s, n, b);
    } else {
      assert b.state.lifecycle == HedgedOpen;
      HedgedHasEntries(b.state);
      FillFollows(s, n - 1, b);
      CloseHolds(s, n, b);
    }
  }

  lemma DecisionHolds(s: Setup, n: nat, b: Book)
    requires ValidSetup(s) && n < |s.spot| && Core(s, Due(s.intents, Clock(s, n)), b) && OrderFree(s, n, b)
    requires NothingAfter(s, Clock(s, n + 1), b.state)
    ensures DecideAndFill(s, n, b).Ok? <==> DecisionAccepted(s, n)
    ensures DecideAndFill(s, n, b).Err? ==> External(DecideAndFill(s, n, b).error)
    ensures DecideAndFill(s, n, b).Ok? ==> DecisionApplied(s, n, b, DecideAndFill(s, n, b).value)
  {
    hide Chronology, CostSum, Due, FillAccepted, FillPair, FillsDescribe, FillsFollow, ForPair,
      HistoryHolds;
    assert |s.spot| == |s.perpetual| && Uniform(s.spot) && LawfulScript(s.intents);
    assert Reachable(b.state);
    ClockOf(s, n);
    var k := Due(s.intents, Clock(s, n));
    var intent := IntentAt(s.intents, |s.intents|, Clock(s, n + 1));
    ScriptPosition(s, n);
    if n + 1 < |s.spot| {
      if intent.Some? {
        DecisionTimesDiffer(s, k);
        OneFill(s, n + 1, k, b);
        assert intent.value.quantity > 0.0;
        if b.state.lifecycle == HedgedOpen {
          HedgedHasEntries(b.state);
        }
        if FillAccepted(s, k, n + 1) {
          var after := FillPair(s, n + 1, intent.value, b).value;
          assert DecideAndFill(s, n, b) == Outcomes.Ok(after);
        }
      }
    } else {
      assert Core(s, k, b.(unexecuted := b.unexecuted + Unfilled(s, n + 1)));
    }
  }

  lemma DecisionTimesDiffer(s: Setup, k: nat)
    requires ValidSetup(s) && k < |s.intents|
    ensures forall i :: 0 <= i < |s.intents| && s.intents[i].decisionTime == s.intents[k].decisionTime ==> i == k
  {
    assert LawfulScript(s.intents);
  }

  // ----- whole runs

  ghost predicate DueIn(s: Setup, n: nat, j: nat)
    requires s.spot != [] && Uniform(s.spot) && j < |s.events|
  {
    EventTime(s.events[j]) <= Clock(s, n + 1) && (n > 0 ==> EventTime(s.events[j]) > Clock(s, n))
  }

  /** A zero record is only accepted with a zero charge. */
  predicate Chargeable(s: Setup, j: nat)
    requires j < |s.events|
  {
    RecordOf(s, j).applied || RecordOf(s, j).cost == 0.0
  }

  ghost predicate CandleAccepted(s: Setup, n: nat)
    requires n < |s.spot| == |s.perpetual| && Uniform(s.spot)
  {
    && (forall j :: 0 <= j < |s.events| && DueIn(s, n, j) ==> Chargeable(s, j))
    && s.spot[n].close > 0.0 && s.perpetual[n].close > 0.0
    && DecisionAccepted(s, n)
  }

  ghost predicate CursorExact(s: Setup, n: nat, b: Book)
    requires s.spot != [] && Uniform(s.spot)
  {
    forall j :: 0 <= j < |s.events| ==> (j < b.cursor <==> n > 0 && EventTime(s.events[j]) <= Clock(s, n))
  }

  ghost predicate MarksHold(s: Setup, n: nat, b: Book)
    requires s.spot != [] && Uniform(s.spot)
  {
    |b.marks| == n && forall i :: 0 <= i < n ==> b.marks[i].time == Clock(s, i + 1)
  }

  ghost predicate RunHolds(s: Setup, n: nat, b: Book)
    requires s.spot != [] && Uniform(s.spot) && |s.spot| == |s.perpetual|
  {
    && Core(s, Executed(s, n), b)
    && NothingAfter(s, Clock(s, n), b.state)
    && CursorExact(s, n, b)
    && MarksHold(s, n, b)
    && b.unexecuted == Unfilled(s, n)
  }

  lemma StepHolds(s: Setup, n: nat, b: Book)
    requires ValidSetup(s) && n < |s.spot| && RunHolds(s, n, b) && Reachable(b.state)
    ensures Step(s, n, b).Ok? <==> CandleAccepted(s, n)
    ensures Step(s, n, b).Err? ==> External(Step(s, n, b).error)
    ensures Step(s, n, b).Ok? ==> RunHolds(s, n + 1, Step(s, n, b).value)
  {
    hide Adjoins, Availability, CanonicalKey, Chronology, Clock, CostSum, DecideAndFill, DecisionAccepted,
      DecisionApplied, Due, HistoryHolds, Identity;
    assert |s.spot| == |s.perpetual| && Uniform(s.spot);
    ClockOf(s, n);
    var k := Due(s.intents, Clock(s, n));
    assert Core(s, k, b) && CursorExact(s, n, b);
    assert OrderFree(s, n, b);
    SweepHolds(s, n, b);
    assert forall j :: 0 <= j < |s.events| ==> (DueIn(s, n, j) <==> b.cursor <= j && EventTime(s.events[j]) <= Clock(s, n + 1));
    var t := Clock(s, n + 1);
    if Sweep(s, b, t).Ok? {
      var swept := Sweep(s, b, t).value;
      assert Reachable(swept.state);
      assert Supported(s.spot[n].timeframe);
      MarkHolds(s, n, swept);
      if MarkBook(s, n, swept).Ok? {
        var marked := MarkBook(s, n, swept).value;
        var m :| marked == swept.(marks := swept.marks + [m]) && m.time == t;
        MarkedCore(s, n, k, swept, m);
        DecisionHolds(s, n, marked);
        if DecideAndFill(s, n, marked).Ok? {
          NextRunHolds(s, n, b, swept, m, DecideAndFill(s, n, marked).value);
        }
      }
    }
  }

  lemma MarkedCore(s: Setup, n: nat, k: nat, b: Book, m: PortfolioMark)
    requires s.spot != [] && Uniform(s.spot) && |s.spot| == |s.perpetual|
    requires Core(s, k, b) && OrderFree(s, n, b)
    ensures Core(s, k, b.(marks := b.marks + [m])) && OrderFree(s, n, b.(marks := b.marks + [m]))
  {
  }

  lemma NextRunHolds(s: Setup, n: nat, b: Book, swept: Book, m: PortfolioMark, after: Book)
    requires ValidSetup(s) && n < |s.spot| && RunHolds(s, n, b)
    requires Core(s, Due(s.intents, Clock(s, n)), swept)
    requires swept.marks == b.marks && swept.unexecuted == b.unexecuted && swept.cursor >= b.cursor
    requires OrderFree(s, n, swept)
    requires forall j :: b.cursor <= j < swept.cursor <= |s.events| ==> EventTime(s.events[j]) <= Clock(s, n + 1)
    requires forall j :: swept.cursor <= j < |s.events| ==> EventTime(s.events[j]) > Clock(s, n + 1)
    requires m.time == Clock(s, n + 1)
    requires DecisionApplied(s, n, swept.(marks := swept.marks + [m]), after)
    ensures RunHolds(s, n + 1, after)
  {
    hide Core;
    assert |s.spot| == |s.perpetual| && Uniform(s.spot);
    ClockOf(s, n);
    assert CursorExact(s, n + 1, after);
  }

  /** Every run keeps its books: lifecycle, ledgers, records, cursor, marks and unexecuted intents
      are functions of the inputs, and the only failures are external ones.  A run reaches candle n
      if and only if every earlier candle's inputs are acceptable. */
  lemma {:induction false} RunAlwaysHolds(s: Setup, n: nat)
    requires ValidSetup(s) && n <= |s.spot|
    ensures RunAt(s, n).Ok? <==> forall i :: 0 <= i < n ==> CandleAccepted(s, i)
    ensures RunAt(s, n).Ok? ==> RunHolds(s, n, RunAt(s, n).value) && Reachable(RunAt(s, n).value.state)
    ensures RunAt(s, n).Err? ==> External(RunAt(s, n).error)
  {
    hide Reachable, RunHolds, Step;
    assert |s.spot| == |s.perpetual| > 0 && Uniform(s.spot);
    if n == 0 {
      NewBookReachable(s);
      NewBookHolds(s);
    } else {
      RunAlwaysHolds(s, n - 1);
      if RunAt(s, n - 1).Ok? {
        StepHolds(s, n - 1, RunAt(s, n - 1).value);
      }
    }
  }

  lemma NewBookHolds(s: Setup)
    requires ValidSetup(s)
    ensures RunHolds(s, 0, NewBook(s))
  {
    assert |s.spot| == |s.perpetual| > 0 && Uniform(s.spot);
    assert Due(s.intents, Clock(s, 0)) == 0 by {
      assert forall i :: 0 <= i < |s.intents| ==> s.intents[i].decisionTime > Clock(s, 0) by {
        forall i | 0 <= i < |s.intents|
          ensures s.intents[i].decisionTime > Clock(s, 0)
        {
          DecisionOnGrid(s, i, 0);
          ClockOf(s, 0);
        }
      }
    }
    NewBookReachable(s);
  }

  // ----- main results

  /** What the caller's prices and models must offer for a whole run to finish. */
  ghost predicate InputsBehave(s: Setup)
    requires |s.spot| == |s.perpetual|
  {
    && (forall j :: 0 <= j < |s.events| ==> Chargeable(s, j))
    && (forall i :: 0 <= i < |s.spot| ==> s.spot[i].close > 0.0 && s.perpetual[i].close > 0.0)
    && (forall k, i :: 0 <= k < |s.intents| && 0 < i < |s.spot| && s.intents[k].decisionTime == s.spot[i].openTime
          ==> FillAccepted(s, k, i))
  }

  lemma {:induction false} EventDueSomewhere(s: Setup, j: nat, n: nat) returns (i: nat)
    requires s.spot != [] && Uniform(s.spot)
    requires j < |s.events| && n < |s.spot| && EventTime(s.events[j]) <= Clock(s, n + 1)
    ensures i <= n && DueIn(s, i, j)
    decreases n
  {
    hide Uniform, Clock, EventTime;
    if n > 0 && EventTime(s.events[j]) <= Clock(s, n) {
      i := EventDueSomewhere(s, j, n - 1);
    } else {
      i := n;
    }
  }

  /** A validated run finishes if and only if its prices, costs and flat funding charges are
      acceptable and the open is affordable; nothing else can stop it. */
  lemma RunFinishesIff(s: Setup)
    requires ValidSetup(s)
    ensures RunAt(s, |s.spot|).Ok? <==> InputsBehave(s)
    ensures RunAt(s, |s.spot|).Err? ==> External(RunAt(s, |s.spot|).error)
  {
    RunAlwaysHolds(s, |s.spot|);
    assert |s.spot| == |s.perpetual| > 0 && Uniform(s.spot);
    if forall i :: 0 <= i < |s.spot| ==> CandleAccepted(s, i) {
      AcceptedBehave(s);
    }
    if InputsBehave(s) {
      forall i | 0 <= i < |s.spot|
        ensures CandleAccepted(s, i)
      {
        BehaveAccepted(s, i);
      }
    }
  }

  lemma AcceptedBehave(s: Setup)
    requires ValidSetup(s) && forall i :: 0 <= i < |s.spot| ==> CandleAccepted(s, i)
    ensures InputsBehave(s)
  {
    assert |s.spot| == |s.perpetual| > 0 && Uniform(s.spot);
    forall j | 0 <= j < |s.events|
      ensures Chargeable(s, j)
    {
      EventsBeforeEnd(s, j);
      var i := EventDueSomewhere(s, j, |s.spot| - 1);
      assert CandleAccepted(s, i);
    }
    forall i | 0 <= i < |s.spot|
      ensures s.spot[i].close > 0.0 && s.perpetual[i].close > 0.0
    {
      assert CandleAccepted(s, i);
    }
    forall k, i | 0 <= k < |s.intents| && 0 < i < |s.spot| && s.intents[k].decisionTime == s.spot[i].openTime
      ensures FillAccepted(s, k, i)
    {
      ClockOf(s, i);
      assert CandleAccepted(s, i - 1);
    }
  }

  lemma EventsBeforeEnd(s: Setup, j: nat)
    requires ValidSetup(s) && j < |s.events|
    ensures EventTime(s.events[j]) <= Clock(s, |s.spot|)
  {
    ClockOf(s, |s.spot| - 1);
  }

  lemma BehaveAccepted(s: Setup, i: nat)
    requires ValidSetup(s) && InputsBehave(s) && i < |s.spot|
    ensures CandleAccepted(s, i)
  {
    assert |s.spot| == |s.perpetual| > 0 && Uniform(s.spot);
    if i + 1 < |s.spot| {
      ClockOf(s, i + 1);
    }
  }

  /** With positive prices, costs that are never negative and funding that is zero when flat, the
      one remaining failure is an open the spot cash cannot pay for. */
  lemma OnlyShortageRemains(s: Setup)
    requires ValidSetup(s)
    requires forall i :: 0 <= i < |s.spot| ==> s.spot[i].close > 0.0 && s.perpetual[i].close > 0.0
                                               && s.spot[i].open > 0.0 && s.perpetual[i].open > 0.0
    requires forall q, p :: q > 0.0 && p > 0.0 ==> s.spotCosts(q, p) >= 0.0 && s.perpetualCosts(q, p) >= 0.0
    requires forall p, r :: s.fundingModel(0.0, p, r) == 0.0
    ensures RunAt(s, |s.spot|).Err? <==>
            exists i :: 0 < i < |s.spot| && |s.intents| > 0 && s.intents[0].decisionTime == s.spot[i].openTime
                        && s.spotCash - s.intents[0].quantity * s.spot[i].open
                           - s.spotCosts(s.intents[0].quantity, s.spot[i].open) < 0.0
  {
    hide Reachable, RunAt;
    RunFinishesIff(s);
    assert |s.spot| == |s.perpetual| && LawfulScript(s.intents);
    forall j | 0 <= j < |s.events|
      ensures Chargeable(s, j)
    {
      var e := s.events[j].funding;
      assert s.fundingModel(0.0, e.referencePrice, e.rate) == 0.0;
    }
    assert forall k :: 0 <= k < |s.intents| ==> s.intents[k].quantity > 0.0;
  }

  ghost predicate RunsTo(s: Setup, n: nat, b: Book)
    requires ValidSetup(s) && n <= |s.spot|
  {
    RunAt(s, n) == Outcomes.Ok(b)
  }

  /** A finished run has settled every event by the declarative rule, paid exactly the recorded
      charges, and keeps a strictly increasing history whose maximum is the code's cursor. */
  lemma FinishedRun(s: Setup, b: Book)
    requires ValidSetup(s) && RunsTo(s, |s.spot|, b)
    ensures b.cursor == |s.events| == |b.records|
    ensures forall j :: 0 <= j < |s.events| ==> b.records[j] == RecordOf(s, j)
    ensures b.state.perpetual.fundingPaid == CostSum(b.records, |b.records|)
    ensures Reachable(b.state)
    ensures |b.state.fills| == Executed(s, |s.spot|) && FillsFollow(s, b.state.fills)
    ensures Increasing(Chronology(b.state))
    ensures b.state.fills != [] ==> EventCursor(b.state) == Some(Latest(b.state))
    ensures b.unexecuted == Unfilled(s, |s.spot|)
    ensures MarkPortfolio(b.state, Clock(s, |s.spot|), s.spot[|s.spot| - 1].close, s.perpetual[|s.spot| - 1].close).Ok?
    ensures b.state.lifecycle == FlatClosed ==> SummarizeClosed(b.state).Ok?
  {
    hide FillsFollow, RecordOf, RecordedKeys, RunAt, ValidFundingPrefix, ValidIntents;
    var n := |s.spot|;
    RunAlwaysHolds(s, n);
    RunFinishesIff(s);
    assert n == |s.perpetual| > 0 && Uniform(s.spot);
    forall j | 0 <= j < |s.events|
      ensures EventTime(s.events[j]) <= Clock(s, n)
    {
      EventsBeforeEnd(s, j);
    }
    assert b.cursor == |s.events| by {
      assert s.events != [] ==> EventTime(s.events[|s.events| - 1]) <= Clock(s, n);
    }
    assert HistoryHolds(b.state);
    CursorIsLatestEvent(b.state);
    assert |b.state.fills| == Executed(s, n) && Increasing(Chronology(b.state))
           && (b.state.fills != [] ==> EventCursor(b.state) == Some(Latest(b.state)));
    MarkNeverMismatches(b.state, Clock(s, n), s.spot[n - 1].close, s.perpetual[n - 1].close);
    assert b.state.lastEvent.Some? ==> Clock(s, n) >= b.state.lastEvent.value;
    SummaryAlwaysBalances(b.state, 0.0, 0.0);
  }

  /** A validated run can be stopped by its prices alone: one candle per leg, all prices zero. */
  lemma NonPositivePriceExample() returns (s: Setup)
    ensures ValidSetup(s) && s.events == [] && s.intents == []
    ensures RunAt(s, |s.spot|) == Outcomes.Err(Hedge(NonPositiveMark))
  {
    var spot := Instrument("binance", "spot", "BTCUSDT", "USDT");
    var perpetual := Instrument("binance", "usdm_perpetual", "BTCUSDT", "USDT");
    var candle := Candle("BTCUSDT", OneHour, 0, 0.0, 0.0, 0.0, 0.0, 0.0);
    s := Setup(HedgedPair("btc", spot, perpetual), [candle], [candle], [], [], 0.0, 0.0,
               (q: real, p: real) => 0.0, (q: real, p: real) => 0.0, LinearFunding);
    assert Uniform(s.spot) && ValidSetup(s);
    assert RunAt(s, 0) == Outcomes.Ok(NewBook(s));
    assert Sweep(s, NewBook(s), Availability(candle)) == Outcomes.Ok(NewBook(s));
    assert Step(s, 0, NewBook(s)) == Outcomes.Err(Hedge(NonPositiveMark));
  }

  lemma SameFillCandle(s: Setup, i: nat, j: nat)
    requires ValidSetup(s) && i < |s.spot| && j < |s.spot| && s.spot[i].openTime == s.spot[j].openTime
    ensures i == j
  {
    if i < j {
      OpensAscend(s.spot, i, j);
    } else if j < i {
      OpensAscend(s.spot, j, i);
    }
  }

  /** Basis earned per unit since the open at candle i, less all costs and all recorded charges. */
  function HedgedValue(s: Setup, b: Book, i: nat, basis: real): real
    requires 0 < i < |s.spot| == |s.perpetual| && s.intents != []
  {
    s.spotCash + s.collateral
    + s.intents[0].quantity * (basis - Basis(s.spot[i].open, s.perpetual[i].open))
    - TotalCosts(b.state) - CostSum(b.records, |b.records|)
  }

  /** A run that ends hedged is worth its capital plus the basis move since the open, less what it
      paid: neither price level enters. */
  lemma FinalEquityHedged(s: Setup, b: Book, i: nat, spotMark: real, perpetualMark: real)
    requires ValidSetup(s) && RunsTo(s, |s.spot|, b)
    requires Executed(s, |s.spot|) == 1 && 0 < i < |s.spot| && s.spot[i].openTime == s.intents[0].decisionTime
    ensures PortfolioEquity(b.state, spotMark, perpetualMark)
            == HedgedValue(s, b, i, Basis(spotMark, perpetualMark))
  {
    hide RunAt, Supported;
    RunAlwaysHolds(s, |s.spot|);
    assert |s.spot| == |s.perpetual| > 0 && Uniform(s.spot);
    assert Reachable(b.state) && b.state.lifecycle == HedgedOpen && Identity(s, b.state)
           && FillsFollow(s, b.state.fills) && b.state.perpetual.quantity == -s.intents[0].quantity
           && b.state.perpetual.fundingPaid == CostSum(b.records, |b.records|);
    assert |b.state.fills| == 1;
    HedgedEquity(b.state, spotMark, perpetualMark);
    var m := FillPrices(s, b.state.fills, 0);
    SameFillCandle(s, m, i);
  }

  /** A closed run keeps exactly the basis move between its two fills, less what it paid. */
  lemma FinalEquityClosed(s: Setup, b: Book, i: nat, j: nat, spotMark: real, perpetualMark: real)
    requires ValidSetup(s) && RunsTo(s, |s.spot|, b)
    requires Executed(s, |s.spot|) == 2 && 0 < i < |s.spot| && s.spot[i].openTime == s.intents[0].decisionTime
    requires 0 < j < |s.spot| && s.spot[j].openTime == s.intents[1].decisionTime
    ensures PortfolioEquity(b.state, spotMark, perpetualMark)
            == HedgedValue(s, b, i, Basis(s.spot[j].open, s.perpetual[j].open))
  {
    hide FillsDescribe, FillsFollow, ForPair, Increasing, RunAt, ShortAt, SoundOutcome, Supported,
      TextLess, TotalCosts, Unfilled, Uniform, UniformPrefix, ValidFunding, ValidFundingPrefix, ValidIntents;
    RunAlwaysHolds(s, |s.spot|);
    assert |s.spot| == |s.perpetual| > 0 && Uniform(s.spot);
    assert Reachable(b.state) && b.state.lifecycle == FlatClosed && Identity(s, b.state)
           && FillsFollow(s, b.state.fills)
           && b.state.perpetual.fundingPaid == CostSum(b.records, |b.records|);
    assert |b.state.fills| == 2;
    ClosedEquity(b.state, spotMark, perpetualMark);
    var m := FillPrices(s, b.state.fills, 0);
    SameFillCandle(s, m, i);
    var l := FillPrices(s, b.state.fills, 1);
    SameFillCandle(s, l, j);
  }

  lemma FillPrices(s: Setup, fills: seq<PairedFill>, k: nat) returns (i: nat)
    requires |s.spot| == |s.perpetual| && FillsFollow(s, fills) && k < |fills|
    ensures k < |s.intents| && 0 < i < |s.spot| && s.spot[i].openTime == s.intents[k].decisionTime
    ensures fills[k].spot.execution.price == s.spot[i].open
    ensures fills[k].perpetual.execution.price == s.perpetual[i].open
    ensures fills[k].spot.execution.quantity == s.intents[k].quantity
  {
    i :| 0 < i < |s.spot| && FilledAt(s, fills[k], k, i);
  }

  /** Fill k of a run executes intent k at the opens of the candle that opens at its decision: spot and
      perpetual on opposite sides, bought and sold to open, sold and bought back to close. */
  lemma FillsExecuteIntents(s: Setup, b: Book, k: nat) returns (i: nat)
    requires ValidSetup(s) && RunsTo(s, |s.spot|, b) && k < |b.state.fills|
    ensures k < |s.intents| && |s.spot| == |s.perpetual| && 0 < i < |s.spot|
    ensures var fill, q := b.state.fills[k], s.intents[k].quantity;
            var opening := k == 0;
            && fill.action == (if opening then OpenAction else CloseAction)
            && fill.time == s.intents[k].decisionTime == s.spot[i].openTime
            && fill.spot.execution
               == LegExecution(s.pair.spot, if opening then Buy else Sell, q, s.spot[i].open, fill.time)
            && fill.perpetual.execution
               == LegExecution(s.pair.perpetual, if opening then Sell else Buy, q, s.perpetual[i].open, fill.time)
            && fill.spot.cost == s.spotCosts(q, s.spot[i].open)
            && fill.perpetual.cost == s.perpetualCosts(q, s.perpetual[i].open)
  {
    FinishedRun(s, b);
    assert LawfulScript(s.intents);
    i :| 0 < i < |s.spot| && FilledAt(s, b.state.fills[k], k, i);
    FilledLegs(s, b.state.fills[k], k, i);
    hide *;
  }

  lemma FilledLegs(s: Setup, f: PairedFill, k: nat, i: nat)
    requires k < |s.intents| && i < |s.spot| == |s.perpetual| && LawfulScript(s.intents) && FilledAt(s, f, k, i)
    ensures var q := s.intents[k].quantity;
            && f.action == (if k == 0 then OpenAction else CloseAction)
            && f.time == s.intents[k].decisionTime == s.spot[i].openTime
            && f.spot.execution
               == LegExecution(s.pair.spot, if k == 0 then Buy else Sell, q, s.spot[i].open, f.time)
            && f.perpetual.execution
               == LegExecution(s.pair.perpetual, if k == 0 then Sell else Buy, q, s.perpetual[i].open, f.time)
            && f.spot.cost == s.spotCosts(q, s.spot[i].open)
            && f.perpetual.cost == s.perpetualCosts(q, s.perpetual[i].open)
  {
  }

  /** Event j of a finished run, from the inputs: it is charged on the short position exactly when the
      open was decided, and the close was not, strictly before the event; on nothing otherwise. */
  lemma FundingOfRun(s: Setup, b: Book, j: nat)
    requires ValidSetup(s) && RunsTo(s, |s.spot|, b) && j < |s.events|
    ensures j < |b.records|
    ensures var record, funding := b.records[j], s.events[j].funding;
            var entered := |s.intents| >= 1 && s.intents[0].decisionTime < funding.eventTime;
            var left := |s.intents| == 2 && s.intents[1].decisionTime < funding.eventTime;
            && record.event == s.events[j]
            && record.applied == (entered && !left)
            && record.lifecycleBefore == (if left then FlatClosed else if entered then HedgedOpen else Flat)
            && record.quantity == (if record.applied then -s.intents[0].quantity else 0.0)
            && record.cost == s.fundingModel(record.quantity, funding.referencePrice, funding.rate)
  {
    FinishedRun(s, b);
    assert LawfulScript(s.intents);
    hide ValidIntents, Reachable, RunsTo;
  }

  /** The equity point of candle n values the position held before that candle's fill. */
  lemma MarksArePreFill(s: Setup, n: nat, b: Book, after: Book)
    requires ValidSetup(s) && n < |s.spot| && RunsTo(s, n, b) && RunsTo(s, n + 1, after)
    ensures var swept := Sweep(s, b, Clock(s, n + 1));
            && swept.Ok?
            && swept.value.state.fills == b.state.fills
            && exists m :: after.marks == b.marks + [m] && m.time == Clock(s, n + 1)
                           && MarkPortfolio(swept.value.state, m.time, s.spot[n].close, s.perpetual[n].close) == Outcomes.Ok(m)
  {
    assert |s.spot| == |s.perpetual| > 0 && Uniform(s.spot);
    RunAlwaysHolds(s, n);
    assert Step(s, n, b) == Outcomes.Ok(after);
    assert RunHolds(s, n, b);
    StepMark(s, n, b);
  }

  lemma StepMark(s: Setup, n: nat, b: Book)
    requires ValidSetup(s) && n < |s.spot| && RunHolds(s, n, b) && Reachable(b.state) && Step(s, n, b).Ok?
    ensures var swept := Sweep(s, b, Clock(s, n + 1));
            && swept.Ok?
            && swept.value.state.fills == b.state.fills
            && exists m :: Step(s, n, b).value.marks == b.marks + [m] && m.time == Clock(s, n + 1)
                           && MarkPortfolio(swept.value.state, m.time, s.spot[n].close, s.perpetual[n].close) == Outcomes.Ok(m)
  {
    hide Chronology, Clock, CostSum, Due, FillsFollow, ForPair, FundingEventKey, HistoryHolds;
    assert |s.spot| == |s.perpetual| && Uniform(s.spot);
    ClockOf(s, n);
    var k := Due(s.intents, Clock(s, n));
    assert Core(s, k, b) && CursorExact(s, n, b);
    assert OrderFree(s, n, b);
    SweepHolds(s, n, b);
    var swept := Sweep(s, b, Clock(s, n + 1)).value;
    assert Reachable(swept.state);
    assert Supported(s.spot[n].timeframe);
    MarkHolds(s, n, swept);
    hide MarkPortfolio;
    var m :| MarkBook(s, n, swept).value == swept.(marks := swept.marks + [m]) && m.time == Clock(s, n + 1)
             && MarkPortfolio(swept.state, m.time, s.spot[n].close, s.perpetual[n].close) == Outcomes.Ok(m);
  }
}
