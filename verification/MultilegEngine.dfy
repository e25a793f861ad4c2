/** The multi-leg replay loop with its input validation, proved against `MultilegReplay.RunAt`. */
module MultilegEngine {
  import opened Outcomes
  import opened Market
  import opened Multileg
  import opened MultilegReplay
  import opened MultilegRuns

  datatype LegCandles = LegCandles(dataset: CandleDataset, candles: seq<Candle>)

  datatype IntentError = NotACandleClose | NotLater | UnlawfulActions | UnequalQuantities

  datatype ReplayError =
    | NotTheInstrument
    | InvalidCandles(why: DatasetError)
    | CandlesNotOfDataset
    | TimeframesDiffer
    | GridsDiffer
    | ForeignEvent
    | DuplicateEvent
    | InvalidFunding(whyFunding: FundingError)
    | InvalidIntents(whyIntents: IntentError)
    | InvalidWallets
    | RunFailed(failure: Failure)

  datatype ReplayResult = ReplayResult(
    finalState: State, records: seq<FundingRecord>, marks: seq<PortfolioMark>,
    unexecuted: seq<HedgeIntent>, finalMark: PortfolioMark, closedSummary: Option<Summary>)

  // ----- validation

  predicate Tradable(dataset: CandleDataset) {
    || (dataset.marketType == "spot" && dataset.priceKind == "spot_trade")
    || (dataset.marketType == "usdm_perpetual" && dataset.priceKind == "contract_trade")
  }

  ghost predicate LegAccepted(leg: LegCandles, instrument: Instrument, asOf: int) {
    && (leg.dataset.marketType, leg.dataset.priceKind)
       in {("spot", "spot_trade"), ("usdm_perpetual", "contract_trade")}
    && instrument == Instrument(leg.dataset.exchange, leg.dataset.marketType, leg.dataset.symbol, instrument.quoteAsset)
    && ValidDataset(leg.candles, asOf)
    && leg.candles[0].symbol == leg.dataset.symbol && leg.candles[0].timeframe == leg.dataset.timeframe
  }

  method ValidateLeg(leg: LegCandles, instrument: Instrument, asOf: int) returns (r: Option<ReplayError>)
    ensures r.None? <==> LegAccepted(leg, instrument, asOf)
  {
    if !Tradable(leg.dataset)
       || instrument != Instrument(leg.dataset.exchange, leg.dataset.marketType, leg.dataset.symbol, instrument.quoteAsset) {
      return Some(NotTheInstrument);
    }
    var invalid := ValidateDataset(leg.candles, asOf);
    if invalid.Some? {
      return Some(InvalidCandles(invalid.value));
    }
    var first := leg.candles[0];
    if first.symbol != leg.dataset.symbol || first.timeframe != leg.dataset.timeframe {
      return Some(CandlesNotOfDataset);
    }
    return None;
  }

  ghost predicate IdentityAccepted(events: seq<HistoricalFundingEvent>, pair: HedgedPair, n: nat)
    requires n <= |events|
  {
    && (forall j :: 0 <= j < n ==>
          && events[j].exchange == pair.perpetual.exchange && events[j].marketType == pair.perpetual.marketType
          && events[j].symbol == pair.perpetual.symbol)
    && (forall i, j :: 0 <= i < j < n ==> CanonicalKey(events[i]) != CanonicalKey(events[j]))
  }

  method ValidateFundingIdentity(events: seq<HistoricalFundingEvent>, pair: HedgedPair) returns (r: Option<ReplayError>)
    ensures r.None? <==> IdentityAccepted(events, pair, |events|)
  {
    hide CanonicalKey;
    var seen: set<FundingKey> := {};
    for i := 0 to |events|
      invariant IdentityAccepted(events, pair, i)
      invariant forall j :: 0 <= j < i ==> CanonicalKey(events[j]) in seen
      invariant forall k :: k in seen ==> exists j :: 0 <= j < i && CanonicalKey(events[j]) == k
    {
      var event := events[i];
      if !ForPair(pair, event) {
        return Some(ForeignEvent);
      }
      var key := CanonicalKey(event);
      if key in seen {
        return Some(DuplicateEvent);
      }
      seen := seen + {key};
    }
    return None;
  }

  ghost predicate ByTimeHolds(byTime: map<int, HedgeIntent>, intents: seq<HedgeIntent>, n: nat)
    requires n <= |intents|
  {
    && (forall i :: 0 <= i < n ==> intents[i].decisionTime in byTime && byTime[intents[i].decisionTime] == intents[i])
    && (forall t :: t in byTime ==> exists i :: 0 <= i < n && intents[i].decisionTime == t)
  }

  ghost predicate LaterThanPrevious(intents: seq<HedgeIntent>, i: int)
    requires 0 < i < |intents|
  {
    intents[i - 1].decisionTime < intents[i].decisionTime
  }

  method AvailabilityInstants(candles: seq<Candle>) returns (availability: set<int>)
    requires Uniform(candles)
    ensures forall t :: t in availability <==> OnAvailability(candles, t)
  {
    
    availability := {};
    for m := 0 to |candles|
      invariant forall t :: t in availability <==> exists k :: 0 <= k < m && Availability(candles[k]) == t
    {
      assert Supported(candles[m].timeframe);
      availability := availability + {Availability(candles[m])};
    }
  }

  lemma TableGrows(byTime: map<int, HedgeIntent>, intents: seq<HedgeIntent>, i: nat)
    requires i < |intents| && ByTimeHolds(byTime, intents, i)
    requires forall j :: 0 <= j < i ==> intents[j].decisionTime != intents[i].decisionTime
    ensures ByTimeHolds(byTime[intents[i].decisionTime := intents[i]], intents, i + 1)
  {
  }

  /** The script as a table by decision instant; refused unless it is lawful. */
  method ValidateIntents(intents: seq<HedgeIntent>, candles: seq<Candle>)
    returns (r: Result<map<int, HedgeIntent>, IntentError>)
    requires candles != [] && Uniform(candles) && forall i :: 0 <= i < |intents| ==> intents[i].quantity > 0.0
    ensures r.Ok? <==> ValidIntents(intents, candles)
    ensures r.Ok? ==> ByTimeHolds(r.value, intents, |intents|)
  {
    var availability := AvailabilityInstants(candles);
    assert ByTimeHolds(map[], intents, 0);
    var byTime: map<int, HedgeIntent> := map[];
    var previous: Option<int> := None;
    for i := 0 to |intents|
      invariant previous == if i == 0 then None else Some(intents[i - 1].decisionTime)
      invariant forall j :: 0 <= j < i ==> OnAvailability(candles, intents[j].decisionTime)
      invariant forall j :: 0 <= j < i ==> previous.Some? && intents[j].decisionTime <= previous.value
      invariant forall j {:trigger LaterThanPrevious(intents, j)} :: 0 < j < i ==> LaterThanPrevious(intents, j)
      invariant ByTimeHolds(byTime, intents, i)
    {
      var intent := intents[i];
      if intent.decisionTime !in availability {
        return Err(NotACandleClose);
      }
      if previous.Some? && intent.decisionTime <= previous.value {
        return Err(NotLater);
      }
      TableGrows(byTime, intents, i);
      previous := Some(intent.decisionTime);
      byTime := byTime[intent.decisionTime := intent];
      assert i > 0 ==> LaterThanPrevious(intents, i);
    }
    assert |intents| >= 2 ==> LaterThanPrevious(intents, 1);
    var lawful := |intents| == 0
                  || (|intents| == 1 && intents[0].action == OpenAction)
                  || (|intents| == 2 && intents[0].action == OpenAction && intents[1].action == CloseAction);
    if !lawful {
      return Err(UnlawfulActions);
    }
    if |intents| == 2 && intents[0].quantity != intents[1].quantity {
      return Err(UnequalQuantities);
    }
    return Ok(byTime);
  }

  lemma TableIsScript(byTime: map<int, HedgeIntent>, intents: seq<HedgeIntent>, t: int)
    requires ByTimeHolds(byTime, intents, |intents|)
    ensures IntentAt(intents, |intents|, t) == if t in byTime then Some(byTime[t]) else None
  {
  }

  // ----- the loop

  /** The funding sweep over the mutable state of the run. */
  method SettleDueFunding(ghost s: Setup, events: seq<HistoricalFundingEvent>, model: FundingModel, b: Book, t: int)
    returns (r: Result<Book, Failure>)
    requires s.events == events && s.fundingModel == model
    ensures r == Sweep(s, b, t)
  {
    hide ApplyFunding, FundingCost;
    var state, cursor, records := b.state, b.cursor, b.records;
    while cursor < |events|
      invariant Sweep(s, b, t) == Sweep(s, b.(state := state, cursor := cursor, records := records), t)
      decreases |events| - cursor
    {
      var event := events[cursor];
      if EventTime(event) > t {
        break;
      }
      ghost var before := b.(state := state, cursor := cursor, records := records);
      var lifecycle, quantity := state.lifecycle, state.perpetual.quantity;
      var cost: real;
      if lifecycle == HedgedOpen {
        var paid := state.perpetual.fundingPaid;
        var applied := ApplyFunding(state, event, model);
        if applied.Err? {
          return Err(Hedge(applied.error));
        }
        state := applied.value;
        cost := state.perpetual.fundingPaid - paid;
      } else {
        cost := FundingCost(model, quantity, event);
        if cost != 0.0 {
          return Err(FlatFundingNotZero);
        }
      }
      cursor := cursor + 1;
      records := records + [FundingRecord(event, lifecycle, quantity, cost, lifecycle == HedgedOpen)];
      assert SettleOne(s, before) == Outcomes.Ok(b.(state := state, cursor := cursor, records := records));
    }
    return Ok(b.(state := state, cursor := cursor, records := records));
  }

  /** The candle loop. */
  method ReplayCandles(
    ghost s: Setup, pair: HedgedPair, spot: seq<Candle>, perpetual: seq<Candle>,
    events: seq<HistoricalFundingEvent>, byTime: map<int, HedgeIntent>, initial: State,
    spotCosts: CostModel, perpetualCosts: CostModel, model: FundingModel)
    returns (r: Result<Book, Failure>)
    requires ValidSetup(s) && s.pair == pair && s.spot == spot && s.perpetual == perpetual && s.events == events
    requires s.spotCosts == spotCosts && s.perpetualCosts == perpetualCosts && s.fundingModel == model
    requires ByTimeHolds(byTime, s.intents, |s.intents|) && initial == NewBook(s).state
    ensures r == RunAt(s, |spot|)
  {
    hide MarkPortfolio, Reachable, RunHolds, Sweep;
    assert |spot| == |perpetual| > 0 && Uniform(spot);
    var book := Book(initial, 0, [], [], []);
    assert RunAt(s, 0) == Outcomes.Ok(book);
    for i := 0 to |spot|
      invariant RunAt(s, i) == Outcomes.Ok(book)
    {
      assert Supported(spot[i].timeframe);
      RunAlwaysHolds(s, i);
      ErrorPersists(s, i + 1, |spot|);
      assert RunAt(s, i + 1) == Step(s, i, book);
      var t := Availability(spot[i]);
      var swept := SettleDueFunding(s, events, model, book, t);
      if swept.Err? {
        return Err(swept.error);
      }
      var mark := MarkPortfolio(swept.value.state, t, spot[i].close, perpetual[i].close);
      if mark.Err? {
        assert MarkBook(s, i, swept.value) == Err(Hedge(mark.error));
        return Err(Hedge(mark.error));
      }
      ghost var before := book;
      book := swept.value.(marks := swept.value.marks + [mark.value]);
      assert MarkBook(s, i, swept.value) == Outcomes.Ok(book);
      assert Reachable(book.state) by { SweepKeepsReachable(s, before, t); }
      var decided := DecideCandle(s, i, pair, spot, perpetual, byTime, spotCosts, perpetualCosts, book);
      if decided.Err? {
        return Err(decided.error);
      }
      book := decided.value;
    }
    return Ok(book);
  }

  /** The intent of candle i, filled at the next candles' opens or reported as unexecuted. */
  method DecideCandle(
    ghost s: Setup, i: nat, pair: HedgedPair, spot: seq<Candle>, perpetual: seq<Candle>,
    byTime: map<int, HedgeIntent>, spotCosts: CostModel, perpetualCosts: CostModel, book: Book)
    returns (r: Result<Book, Failure>)
    requires ValidSetup(s) && s.pair == pair && s.spot == spot && s.perpetual == perpetual && i < |spot|
    requires s.spotCosts == spotCosts && s.perpetualCosts == perpetualCosts
    requires ByTimeHolds(byTime, s.intents, |s.intents|) && Reachable(book.state)
    ensures r == DecideAndFill(s, i, book)
  {
    assert |spot| == |perpetual| && Uniform(spot);
    assert forall k :: 0 <= k < |s.intents| ==> s.intents[k].quantity > 0.0;
    assert Supported(spot[i].timeframe);
    var t := Availability(spot[i]);
    TableIsScript(byTime, s.intents, t);
    if t !in byTime {
      return Ok(book);
    }
    var intent := byTime[t];
    if i + 1 == |spot| {
      return Ok(book.(unexecuted := book.unexecuted + [intent]));
    }
    if book.state.lifecycle == HedgedOpen {
      HedgedHasEntries(book.state);
    }
    var filled := FillPaired(s, i + 1, pair, spot[i + 1], perpetual[i + 1], intent, book.state, spotCosts, perpetualCosts, book);
    if filled.Err? {
      return Err(filled.error);
    }
    return Ok(book.(state := filled.value));
  }

  lemma {:induction false} ErrorPersists(s: Setup, i: nat, n: nat)
    requires ValidSetup(s) && i <= n <= |s.spot|
    ensures RunAt(s, i).Err? ==> RunAt(s, n) == RunAt(s, i)
  {
    hide Reachable, Step, ValidSetup;
    if i < n {
      ErrorPersists(s, i, n - 1);
    }
  }

  /** Both legs at the next candles' opens. */
  method FillPaired(
    ghost s: Setup, ghost n: nat, pair: HedgedPair, nextSpot: Candle, nextPerpetual: Candle, intent: HedgeIntent,
    state: State, spotCosts: CostModel, perpetualCosts: CostModel, ghost b: Book)
    returns (r: Result<State, Failure>)
    requires n < |s.spot| == |s.perpetual| && intent.quantity > 0.0 && b.state == state
    requires s.pair == pair && s.spot[n] == nextSpot && s.perpetual[n] == nextPerpetual
    requires s.spotCosts == spotCosts && s.perpetualCosts == perpetualCosts
    requires state.lifecycle == HedgedOpen ==> state.spot.entry.Some? && state.perpetual.entry.Some?
    ensures r.Ok? ==> FillPair(s, n, intent, b) == Outcomes.Ok(b.(state := r.value))
    ensures r.Err? ==> FillPair(s, n, intent, b) == Outcomes.Err(r.error)
  {
    hide ApplyOpen, ApplyClose;
    if nextSpot.open <= 0.0 || nextPerpetual.open <= 0.0 {
      return Err(NonPositiveOpen);
    }
    var opening := intent.action == OpenAction;
    var spotLeg := LegExecution(pair.spot, if opening then Buy else Sell, intent.quantity, nextSpot.open, nextSpot.openTime);
    var perpetualLeg :=
      LegExecution(pair.perpetual, if opening then Sell else Buy, intent.quantity, nextPerpetual.open, nextSpot.openTime);
    var applied :=
      if opening then ApplyOpen(state, Some(spotLeg), Some(perpetualLeg), spotCosts, perpetualCosts)
      else ApplyClose(state, Some(spotLeg), Some(perpetualLeg), spotCosts, perpetualCosts);
    match applied
    case Err(error) => return Err(Hedge(error));
    case Ok(after) => return Ok(after);
  }

  // ----- the replay

  ghost predicate InputsAccepted(
    spot: LegCandles, perpetual: LegCandles, asOf: int, s: Setup)
  {
    && LegAccepted(spot, s.pair.spot, asOf) && LegAccepted(perpetual, s.pair.perpetual, asOf)
    && spot.dataset.timeframe == perpetual.dataset.timeframe
    && s.spot == spot.candles && s.perpetual == perpetual.candles
    && ValidSetup(s)
  }

  ghost predicate IsResultOf(s: Setup, result: ReplayResult)
    requires ValidSetup(s)
  {
    exists b ::
      && RunsTo(s, |s.spot|, b)
      && result.finalState == b.state && result.records == b.records && result.marks == b.marks
      && result.unexecuted == b.unexecuted
      && MarkPortfolio(b.state, Clock(s, |s.spot|), s.spot[|s.spot| - 1].close, s.perpetual[|s.spot| - 1].close)
         == Outcomes.Ok(result.finalMark)
      && (result.closedSummary.Some? <==> b.state.lifecycle == FlatClosed)
      && (result.closedSummary.Some? ==>
            && SummarizeClosed(b.state) == Outcomes.Ok(result.closedSummary.value)
            && result.closedSummary.value.finalEquity == result.finalMark.equity)
  }

  /** Every check the replay makes before its first candle. */
  method ValidateInputs(
    pair: HedgedPair, spot: LegCandles, perpetual: LegCandles, events: seq<HistoricalFundingEvent>,
    intents: seq<HedgeIntent>, spotCash: real, collateral: real, asOf: int, ghost s: Setup)
    returns (r: Result<(map<int, HedgeIntent>, State), ReplayError>)
    requires forall i :: 0 <= i < |intents| ==> intents[i].quantity > 0.0
    requires s.pair == pair && s.spot == spot.candles && s.perpetual == perpetual.candles && s.events == events
    requires s.intents == intents && s.spotCash == spotCash && s.collateral == collateral
    ensures r.Ok? <==> InputsAccepted(spot, perpetual, asOf, s)
    ensures r.Ok? ==> ByTimeHolds(r.value.0, intents, |intents|) && r.value.1 == NewBook(s).state
  {
    var invalidSpot := ValidateLeg(spot, pair.spot, asOf);
    if invalidSpot.Some? {
      return Err(invalidSpot.value);
    }
    var invalidPerpetual := ValidateLeg(perpetual, pair.perpetual, asOf);
    if invalidPerpetual.Some? {
      return Err(invalidPerpetual.value);
    }
    var spotCandles, perpetualCandles := spot.candles, perpetual.candles;
    if spot.dataset.timeframe != perpetual.dataset.timeframe {
      return Err(TimeframesDiffer);
    }
    if |spotCandles| != |perpetualCandles|
       || exists i :: 0 <= i < |spotCandles| && spotCandles[i].openTime != perpetualCandles[i].openTime {
      assert !SameGrid(spotCandles, perpetualCandles);
      return Err(GridsDiffer);
    }
    assert SameGrid(spotCandles, perpetualCandles);
    assert spotCandles != [] && Uniform(spotCandles);
    assert Supported(spotCandles[|spotCandles| - 1].timeframe);
    var runEnd := Availability(spotCandles[|spotCandles| - 1]);
    var identity := ValidateFundingIdentity(events, pair);
    if identity.Some? {
      assert !ValidSetup(s);
      return Err(identity.value);
    }
    assert forall j :: 0 <= j < |events| ==> ForPair(pair, events[j]);
    var invalidFunding := ValidateFundingEvents(events, pair.perpetual.symbol, spotCandles[0].openTime, runEnd);
    if invalidFunding.Some? {
      return Err(InvalidFunding(invalidFunding.value));
    }
    var byTime := ValidateIntents(intents, spotCandles);
    if byTime.Err? {
      return Err(InvalidIntents(byTime.error));
    }
    var created := NewPortfolio(pair, spotCash, collateral, FundingBeforeFill);
    assert created.Ok? <==> spotCash >= 0.0 && collateral >= 0.0;
    if created.Err? {
      return Err(InvalidWallets);
    }
    assert created.value == NewBook(s).state;
    return Ok((byTime.value, created.value));
  }

  /** Accepts exactly the validated inputs whose run meets no external failure; every check that
      guards the accounting's own consistency is dead (`assert false`). */
  method RunMultilegReplay(
    pair: HedgedPair, spot: LegCandles, perpetual: LegCandles, events: seq<HistoricalFundingEvent>,
    intents: seq<HedgeIntent>, spotCash: real, collateral: real,
    spotCosts: CostModel, perpetualCosts: CostModel, model: FundingModel, asOf: int)
    returns (r: Result<ReplayResult, ReplayError>)
    requires forall i :: 0 <= i < |intents| ==> intents[i].quantity > 0.0
    ensures var s := Setup(pair, spot.candles, perpetual.candles, events, intents, spotCash, collateral,
                           spotCosts, perpetualCosts, model);
            && (r.Ok? <==> InputsAccepted(spot, perpetual, asOf, s) && InputsBehave(s))
            && (r.Ok? ==> IsResultOf(s, r.value))
            && (InputsAccepted(spot, perpetual, asOf, s) && r.Err? ==>
                  r.error.RunFailed? && External(r.error.failure))
  {
    hide Reachable, RecordOf, RecordedKeys, RunAt, SoundOutcome, SpotUnrealized, Tradable, Unfilled,
      ValidDataset, ValidFunding, ValidFundingPrefix, ValidIntents;
    ghost var s := Setup(pair, spot.candles, perpetual.candles, events, intents, spotCash, collateral,
                         spotCosts, perpetualCosts, model);
    var inputs := ValidateInputs(pair, spot, perpetual, events, intents, spotCash, collateral, asOf, s);
    if inputs.Err? {
      return Err(inputs.error);
    }
    assert ValidSetup(s);
    assert |s.spot| == |s.perpetual| > 0 && Uniform(s.spot);
    var spotCandles, perpetualCandles := spot.candles, perpetual.candles;
    assert Supported(spotCandles[|spotCandles| - 1].timeframe);
    var runEnd := Availability(spotCandles[|spotCandles| - 1]);
    RunFinishesIff(s);
    var run := ReplayCandles(s, pair, spotCandles, perpetualCandles, events, inputs.value.0, inputs.value.1,
                             spotCosts, perpetualCosts, model);
    if run.Err? {
      return Err(RunFailed(run.error));
    }
    var book := run.value;
    assert RunsTo(s, |s.spot|, book);
    FinishedRun(s, book);
    if book.cursor != |events| {
      assert false;
    }
    var last := |spotCandles| - 1;
    assert Clock(s, |s.spot|) == runEnd by { ClockOf(s, last); }
    var finalMark := MarkPortfolio(book.state, runEnd, spotCandles[last].close, perpetualCandles[last].close);
    if finalMark.Err? {
      assert false;
    }
    assert finalMark.value.equity == PortfolioEquity(book.state, spotCandles[last].close, perpetualCandles[last].close);
    var summary: Option<Summary> := None;
    if book.state.lifecycle == FlatClosed {
      var closed := SummarizeClosed(book.state);
      if closed.Err? {
        assert false;
      }
      SummaryAlwaysBalances(book.state, spotCandles[last].close, perpetualCandles[last].close);
      summary := Some(closed.value);
    }
    r := Ok(ReplayResult(book.state, book.records, book.marks, book.unexecuted, finalMark.value, summary));
    assert IsResultOf(s, r.value);
  }
}
