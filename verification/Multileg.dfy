/** Two-ledger accounting of one hedged pair: spot long against perpetual short, with the event
    order derived from the recorded history. */
module Multileg {
  import opened Outcomes
  import opened ProductFacts
  import opened TextOrder
  import opened Market

  // ----- entities

  datatype Instrument = Instrument(exchange: string, marketType: string, symbol: string, quoteAsset: string)

  datatype HedgedPair = HedgedPair(pairId: string, spot: Instrument, perpetual: Instrument)

  datatype LegSide = Buy | Sell

  datatype LegExecution = LegExecution(instrument: Instrument, side: LegSide, quantity: real, price: real, time: int)

  datatype LegFill = LegFill(execution: LegExecution, cost: real)

  datatype FillAction = OpenAction | CloseAction

  datatype PairedFill = PairedFill(action: FillAction, time: int, spot: LegFill, perpetual: LegFill)

  datatype SpotLedger =
    SpotLedger(cash: real, quantity: real, entry: Option<real>, realizedPnl: real, costsPaid: real)

  datatype PerpetualLedger =
    PerpetualLedger(collateral: real, quantity: real, entry: Option<real>, realizedPnl: real,
                    costsPaid: real, fundingPaid: real)

  datatype Lifecycle = Flat | HedgedOpen | FlatClosed

  datatype EventOrdering = StrictTime | FundingBeforeFill

  datatype State = State(
    pair: HedgedPair, lifecycle: Lifecycle, initialSpotCash: real, initialCollateral: real,
    spot: SpotLedger, perpetual: PerpetualLedger, fills: seq<PairedFill>,
    fundingKeys: seq<FundingKey>, lastEvent: Option<int>, ordering: EventOrdering)

  datatype HedgeError =
    | NegativeWallet
    | WrongLifecycle
    | MissingLeg
    | ForeignLeg
    | WrongSide
    | LegTimesDiffer
    | QuantitiesDiffer
    | PartialClose
    | NotAfterLastEvent
    | InconsistentHistory
    | OutOfOrder
    | InvalidCost
    | InsufficientSpotCash
    | ForeignFunding
    | FundingAlreadyApplied
    | NegativeSpot
    | PositivePerpetual
    | CollateralMismatch
    | NonPositiveMark
    | MarkBeforeLastEvent
    | EquityMismatch

  function NewPortfolio(pair: HedgedPair, spotCash: real, collateral: real, ordering: EventOrdering)
    : Result<State, HedgeError>
  {
    if spotCash < 0.0 || collateral < 0.0 then Err(NegativeWallet)
    else Ok(State(pair, Flat, spotCash, collateral,
                  SpotLedger(spotCash, 0.0, None, 0.0, 0.0),
                  PerpetualLedger(collateral, 0.0, None, 0.0, 0.0, 0.0),
                  [], [], None, ordering))
  }

  // ----- event order

  datatype EventKey = EventKey(time: int, phase: nat, rateType: string)

  const FUNDING_PHASE: nat := 0
  const FILL_PHASE: nat := 1

  predicate Precedes(a: EventKey, b: EventKey) {
    || a.time < b.time
    || (a.time == b.time && a.phase < b.phase)
    || (a.time == b.time && a.phase == b.phase && TextLess(a.rateType, b.rateType))
  }

  lemma PrecedesTransitive(a: EventKey, b: EventKey, c: EventKey)
    requires Precedes(a, b) && Precedes(b, c)
    ensures Precedes(a, c)
  {
    if a.time == b.time == c.time && a.phase == b.phase == c.phase {
      TextLessTransitive(a.rateType, b.rateType, c.rateType);
    }
  }

  lemma PrecedesTotal(a: EventKey, b: EventKey)
    ensures Precedes(a, b) || a == b || Precedes(b, a)
    ensures !(Precedes(a, b) && Precedes(b, a)) && !Precedes(a, a)
  {
    TextLessTotal(a.rateType, b.rateType);
    TextLessIrreflexive(a.rateType);
    if TextLess(a.rateType, b.rateType) && TextLess(b.rateType, a.rateType) {
      TextLessTransitive(a.rateType, b.rateType, a.rateType);
    }
  }

  function FillKey(f: PairedFill): EventKey {
    EventKey(f.time, FILL_PHASE, "")
  }

  function FundingEventKey(k: FundingKey): EventKey {
    EventKey(k.eventTime, FUNDING_PHASE, k.rateType)
  }

  /** Every recorded event, fills first, as the source lists them. */
  function RecordedKeys(s: State): (keys: seq<EventKey>)
    ensures |keys| == |s.fills| + |s.fundingKeys|
  {
    seq(|s.fills|, i requires 0 <= i < |s.fills| => FillKey(s.fills[i]))
    + seq(|s.fundingKeys|, i requires 0 <= i < |s.fundingKeys| => FundingEventKey(s.fundingKeys[i]))
  }

  function MaxKey(keys: seq<EventKey>, n: nat): (m: EventKey)
    requires 0 < n <= |keys|
    ensures m in keys
    decreases n
  {
    if n == 1 then keys[0]
    else
      var before := MaxKey(keys, n - 1);
      if Precedes(before, keys[n - 1]) then keys[n - 1] else before
  }

  lemma {:induction false} MaxKeyIsMax(keys: seq<EventKey>, n: nat, i: nat)
    requires i < n <= |keys|
    ensures !Precedes(MaxKey(keys, n), keys[i])
  {
    if n == 1 {
      PrecedesTotal(keys[0], keys[0]);
    } else {
      var before := MaxKey(keys, n - 1);
      PrecedesTotal(before, keys[n - 1]);
      PrecedesTotal(keys[n - 1], keys[n - 1]);
      if i < n - 1 {
        MaxKeyIsMax(keys, n - 1, i);
        if Precedes(before, keys[n - 1]) && Precedes(keys[n - 1], keys[i]) {
          PrecedesTransitive(before, keys[n - 1], keys[i]);
        }
      }
    }
  }

  function EventCursor(s: State): Option<EventKey> {
    var keys := RecordedKeys(s);
    if keys == [] then None else Some(MaxKey(keys, |keys|))
  }

  function OrderError(s: State, key: EventKey): Option<HedgeError> {
    if s.ordering.StrictTime? then
      if s.lastEvent.Some? && key.time <= s.lastEvent.value then Some(NotAfterLastEvent) else None
    else
      var cursor := EventCursor(s);
      if cursor.None? != s.lastEvent.None? || (cursor.Some? && cursor.value.time != s.lastEvent.value)
      then Some(InconsistentHistory)
      else if cursor.Some? && !Precedes(cursor.value, key) then Some(OutOfOrder)
      else None
  }

  // ----- transitions

  type CostModel = (real, real) -> real

  predicate ValidLeg(leg: LegExecution) {
    leg.quantity > 0.0 && leg.price > 0.0
  }

  predicate ValidLegs(spot: Option<LegExecution>, perpetual: Option<LegExecution>) {
    (spot.Some? ==> ValidLeg(spot.value)) && (perpetual.Some? ==> ValidLeg(perpetual.value))
  }

  function PairError(s: State, spot: Option<LegExecution>, perpetual: Option<LegExecution>,
                     spotSide: LegSide, perpetualSide: LegSide): Option<HedgeError>
  {
    if spot.None? || perpetual.None? then Some(MissingLeg)
    else if spot.value.instrument != s.pair.spot then Some(ForeignLeg)
    else if spot.value.side != spotSide then Some(WrongSide)
    else if perpetual.value.instrument != s.pair.perpetual then Some(ForeignLeg)
    else if perpetual.value.side != perpetualSide then Some(WrongSide)
    else if spot.value.time != perpetual.value.time then Some(LegTimesDiffer)
    else if spot.value.quantity != perpetual.value.quantity then Some(QuantitiesDiffer)
    else None
  }

  /** The two legs fill one pair: its two instruments on opposite sides, in equal quantity, at one instant. */
  ghost predicate LegsMatch(
    pair: HedgedPair, spot: LegExecution, perpetual: LegExecution, spotSide: LegSide, perpetualSide: LegSide)
  {
    && spot.instrument == pair.spot && spot.side == spotSide
    && perpetual.instrument == pair.perpetual && perpetual.side == perpetualSide
    && spot.quantity == perpetual.quantity && spot.time == perpetual.time
  }

  lemma PairErrorMeaning(s: State, spot: Option<LegExecution>, perpetual: Option<LegExecution>,
                         spotSide: LegSide, perpetualSide: LegSide)
    ensures PairError(s, spot, perpetual, spotSide, perpetualSide).None? <==>
            spot.Some? && perpetual.Some? && LegsMatch(s.pair, spot.value, perpetual.value, spotSide, perpetualSide)
  {
  }

  /** Ledger balances, independent of any mark. */
  function Checked(s: State): Result<State, HedgeError> {
    if s.spot.quantity < 0.0 then Err(NegativeSpot)
    else if s.perpetual.quantity > 0.0 then Err(PositivePerpetual)
    else if s.perpetual.collateral
            != s.initialCollateral + s.perpetual.realizedPnl - s.perpetual.costsPaid - s.perpetual.fundingPaid
    then Err(CollateralMismatch)
    else Ok(s)
  }

  function OpenState(s: State, spot: LegExecution, perpetual: LegExecution, spotCost: real, perpetualCost: real): State {
    s.(lifecycle := HedgedOpen,
       spot := s.spot.(cash := s.spot.cash - spot.quantity * spot.price - spotCost,
                       quantity := s.spot.quantity + spot.quantity,
                       entry := Some(spot.price),
                       costsPaid := s.spot.costsPaid + spotCost),
       perpetual := s.perpetual.(collateral := s.perpetual.collateral - perpetualCost,
                                 quantity := s.perpetual.quantity - perpetual.quantity,
                                 entry := Some(perpetual.price),
                                 costsPaid := s.perpetual.costsPaid + perpetualCost),
       fills := s.fills + [PairedFill(OpenAction, spot.time, LegFill(spot, spotCost), LegFill(perpetual, perpetualCost))],
       lastEvent := Some(spot.time))
  }

  function ApplyOpen(s: State, spot: Option<LegExecution>, perpetual: Option<LegExecution>,
                     spotCosts: CostModel, perpetualCosts: CostModel): Result<State, HedgeError>
    requires ValidLegs(spot, perpetual)
  {
    if s.lifecycle != Flat then Err(WrongLifecycle)
    else
      var pairError := PairError(s, spot, perpetual, Buy, Sell);
      if pairError.Some? then Err(pairError.value)
      else
        var orderError := OrderError(s, EventKey(spot.value.time, FILL_PHASE, ""));
        if orderError.Some? then Err(orderError.value)
        else
          var spotCost := spotCosts(spot.value.quantity, spot.value.price);
          var perpetualCost := perpetualCosts(perpetual.value.quantity, perpetual.value.price);
          if spotCost < 0.0 || perpetualCost < 0.0 then Err(InvalidCost)
          else
            var bought := OpenState(s, spot.value, perpetual.value, spotCost, perpetualCost);
            if bought.spot.cash < 0.0 then Err(InsufficientSpotCash) else Checked(bought)
  }

  function CloseState(s: State, spot: LegExecution, perpetual: LegExecution, spotCost: real, perpetualCost: real): State
    requires s.spot.entry.Some? && s.perpetual.entry.Some?
  {
    var spotRealized := spot.quantity * (spot.price - s.spot.entry.value);
    var perpetualRealized := perpetual.quantity * (s.perpetual.entry.value - perpetual.price);
    s.(lifecycle := FlatClosed,
       spot := s.spot.(cash := s.spot.cash + spot.quantity * spot.price - spotCost,
                       quantity := 0.0,
                       entry := None,
                       realizedPnl := s.spot.realizedPnl + spotRealized,
                       costsPaid := s.spot.costsPaid + spotCost),
       perpetual := s.perpetual.(collateral := s.perpetual.collateral + perpetualRealized - perpetualCost,
                                 quantity := 0.0,
                                 entry := None,
                                 realizedPnl := s.perpetual.realizedPnl + perpetualRealized,
                                 costsPaid := s.perpetual.costsPaid + perpetualCost),
       fills := s.fills + [PairedFill(CloseAction, spot.time, LegFill(spot, spotCost), LegFill(perpetual, perpetualCost))],
       lastEvent := Some(spot.time))
  }

  function ApplyClose(s: State, spot: Option<LegExecution>, perpetual: Option<LegExecution>,
                      spotCosts: CostModel, perpetualCosts: CostModel): Result<State, HedgeError>
    requires ValidLegs(spot, perpetual)
    requires s.lifecycle == HedgedOpen ==> s.spot.entry.Some? && s.perpetual.entry.Some?
  {
    if s.lifecycle != HedgedOpen then Err(WrongLifecycle)
    else
      var pairError := PairError(s, spot, perpetual, Sell, Buy);
      if pairError.Some? then Err(pairError.value)
      else if spot.value.quantity != s.spot.quantity || perpetual.value.quantity != -s.perpetual.quantity
      then Err(PartialClose)
      else
        var orderError := OrderError(s, EventKey(spot.value.time, FILL_PHASE, ""));
        if orderError.Some? then Err(orderError.value)
        else
          var spotCost := spotCosts(spot.value.quantity, spot.value.price);
          var perpetualCost := perpetualCosts(perpetual.value.quantity, perpetual.value.price);
          if spotCost < 0.0 || perpetualCost < 0.0 then Err(InvalidCost)
          else Checked(CloseState(s, spot.value, perpetual.value, spotCost, perpetualCost))
  }

  type FundingModel = (real, real, real) -> real

  function FundingCost(model: FundingModel, quantity: real, e: HistoricalFundingEvent): real {
    model(quantity, e.funding.referencePrice, e.funding.rate)
  }

  function FundedState(s: State, e: HistoricalFundingEvent, cost: real): State {
    s.(perpetual := s.perpetual.(collateral := s.perpetual.collateral - cost,
                                 fundingPaid := s.perpetual.fundingPaid + cost),
       fundingKeys := s.fundingKeys + [CanonicalKey(e)],
       lastEvent := Some(EventTime(e)))
  }

  predicate ForPair(pair: HedgedPair, e: HistoricalFundingEvent) {
    e.exchange == pair.perpetual.exchange && e.marketType == pair.perpetual.marketType
    && e.symbol == pair.perpetual.symbol
  }

  function ApplyFunding(s: State, e: HistoricalFundingEvent, model: FundingModel): Result<State, HedgeError> {
    if s.lifecycle != HedgedOpen then Err(WrongLifecycle)
    else if !ForPair(s.pair, e) then Err(ForeignFunding)
    else if CanonicalKey(e) in s.fundingKeys then Err(FundingAlreadyApplied)
    else
      var orderError := OrderError(s, FundingEventKey(CanonicalKey(e)));
      if orderError.Some? then Err(orderError.value)
      else Checked(FundedState(s, e, FundingCost(model, s.perpetual.quantity, e)))
  }

  // ----- what every reachable state keeps

  /** The recorded events in the order they happened: the open, the fundings, the close. */
  function Chronology(s: State): (c: seq<EventKey>)
    requires |s.fills| <= 2
  {
    if s.fills == [] then []
    else
      [FillKey(s.fills[0])]
      + seq(|s.fundingKeys|, i requires 0 <= i < |s.fundingKeys| => FundingEventKey(s.fundingKeys[i]))
      + if |s.fills| == 2 then [FillKey(s.fills[1])] else []
  }

  ghost predicate Increasing(keys: seq<EventKey>) {
    forall i, j :: 0 <= i < j < |keys| ==> Precedes(keys[i], keys[j])
  }

  ghost predicate HistoryHolds(s: State) {
    && |s.fills| == (match s.lifecycle case Flat => 0 case HedgedOpen => 1 case FlatClosed => 2)
    && (s.lifecycle == Flat ==> s.fundingKeys == [] && s.lastEvent.None?)
    && Increasing(Chronology(s))
    && (s.lifecycle != Flat ==>
          s.lastEvent == Some(Chronology(s)[|Chronology(s)| - 1].time))
  }

  ghost predicate LedgersHold(s: State) {
    match s.lifecycle
    case Flat =>
      && s.spot == SpotLedger(s.initialSpotCash, 0.0, None, 0.0, 0.0)
      && s.perpetual == PerpetualLedger(s.initialCollateral, 0.0, None, 0.0, 0.0, 0.0)
    case HedgedOpen =>
      && s.spot.quantity > 0.0 && s.perpetual.quantity == -s.spot.quantity
      && s.spot.entry.Some? && s.perpetual.entry.Some?
      && s.spot.realizedPnl == 0.0 && s.perpetual.realizedPnl == 0.0
      && s.spot.cash == s.initialSpotCash - s.spot.quantity * s.spot.entry.value - s.spot.costsPaid
      && s.perpetual.collateral == s.initialCollateral - s.perpetual.costsPaid - s.perpetual.fundingPaid
    case FlatClosed =>
      && s.spot.quantity == 0.0 && s.perpetual.quantity == 0.0
      && s.spot.entry.None? && s.perpetual.entry.None?
      && s.spot.cash == s.initialSpotCash + s.spot.realizedPnl - s.spot.costsPaid
      && s.perpetual.collateral
         == s.initialCollateral + s.perpetual.realizedPnl - s.perpetual.costsPaid - s.perpetual.fundingPaid
  }

  /** The ledgers describe exactly the recorded fills. */
  ghost predicate FillsDescribe(s: State) {
    && (s.lifecycle != Flat && s.fills != [] ==>
          var entryFill := s.fills[0];
          && entryFill.action == OpenAction && entryFill.time == entryFill.spot.execution.time
          && LegsMatch(s.pair, entryFill.spot.execution, entryFill.perpetual.execution, Buy, Sell)
          && (s.lifecycle == HedgedOpen ==>
                && s.spot.quantity == entryFill.spot.execution.quantity
                && s.spot.entry == Some(entryFill.spot.execution.price)
                && s.perpetual.entry == Some(entryFill.perpetual.execution.price)
                && s.spot.costsPaid == entryFill.spot.cost && s.perpetual.costsPaid == entryFill.perpetual.cost))
    && (s.lifecycle == FlatClosed && |s.fills| == 2 ==>
          var entryFill, exitFill := s.fills[0], s.fills[1];
          var q := entryFill.spot.execution.quantity;
          && exitFill.action == CloseAction && exitFill.time == exitFill.spot.execution.time
          && LegsMatch(s.pair, exitFill.spot.execution, exitFill.perpetual.execution, Sell, Buy)
          && exitFill.spot.execution.quantity == q
          && s.spot.realizedPnl == q * (exitFill.spot.execution.price - entryFill.spot.execution.price)
          && s.perpetual.realizedPnl == q * (entryFill.perpetual.execution.price - exitFill.perpetual.execution.price)
          && s.spot.costsPaid == entryFill.spot.cost + exitFill.spot.cost
          && s.perpetual.costsPaid == entryFill.perpetual.cost + exitFill.perpetual.cost)
  }

  ghost predicate Reachable(s: State) {
    HistoryHolds(s) && LedgersHold(s) && FillsDescribe(s)
  }

  lemma NewPortfolioReachable(pair: HedgedPair, spotCash: real, collateral: real, ordering: EventOrdering)
    requires NewPortfolio(pair, spotCash, collateral, ordering).Ok?
    ensures Reachable(NewPortfolio(pair, spotCash, collateral, ordering).value)
  {
  }

  /** The cursor the code recomputes from its records is the latest event of the history. */
  lemma CursorIsLatestEvent(s: State)
    requires HistoryHolds(s)
    ensures s.lifecycle == Flat ==> EventCursor(s).None?
    ensures s.lifecycle != Flat ==> EventCursor(s) == Some(Chronology(s)[|Chronology(s)| - 1])
  {
    if s.lifecycle != Flat {
      var keys, c := RecordedKeys(s), Chronology(s);
      var latest := c[|c| - 1];
      var m := MaxKey(keys, |keys|);
      var at := RecordedPosition(s, |c| - 1);
      MaxKeyIsMax(keys, |keys|, at);
      var i :| 0 <= i < |keys| && keys[i] == m;
      var j := ChronologyPosition(s, i);
      PrecedesTotal(m, latest);
      LatestIsLast(c, j);
    }
  }

  lemma LatestIsLast(c: seq<EventKey>, j: nat)
    requires Increasing(c) && j < |c|
    ensures Precedes(c[j], c[|c| - 1]) || c[j] == c[|c| - 1]
  {
  }

  /** The recorded list and the chronology hold the same keys. */
  lemma RecordedPosition(s: State, j: nat) returns (i: nat)
    requires HistoryHolds(s) && s.lifecycle != Flat && j < |Chronology(s)|
    ensures i < |RecordedKeys(s)| && RecordedKeys(s)[i] == Chronology(s)[j]
  {
    var n := |s.fundingKeys|;
    i := if j == 0 then 0 else if j <= n then |s.fills| + j - 1 else 1;
  }

  lemma ChronologyPosition(s: State, i: nat) returns (j: nat)
    requires HistoryHolds(s) && s.lifecycle != Flat && i < |RecordedKeys(s)|
    ensures j < |Chronology(s)| && RecordedKeys(s)[i] == Chronology(s)[j]
  {
    var f := |s.fills|;
    j := if i == 0 then 0 else if i < f then |Chronology(s)| - 1 else i - f + 1;
  }

  /** What the order check means on a reachable state: the key follows the latest event. */
  lemma OrderErrorMeaning(s: State, key: EventKey)
    requires HistoryHolds(s)
    ensures s.lifecycle == Flat ==> OrderError(s, key).None?
    ensures s.lifecycle != Flat && s.ordering.FundingBeforeFill? ==>
              (OrderError(s, key).None? <==> Precedes(Chronology(s)[|Chronology(s)| - 1], key))
    ensures s.lifecycle != Flat && s.ordering.StrictTime? ==>
              (OrderError(s, key).None? <==> Chronology(s)[|Chronology(s)| - 1].time < key.time)
    ensures s.lifecycle != Flat && OrderError(s, key).None? ==> Precedes(Chronology(s)[|Chronology(s)| - 1], key)
    ensures OrderError(s, key) != Some(InconsistentHistory)
  {
    CursorIsLatestEvent(s);
  }

  lemma IncreasingAppend(keys: seq<EventKey>, key: EventKey)
    requires Increasing(keys) && (keys != [] ==> Precedes(keys[|keys| - 1], key))
    ensures Increasing(keys + [key])
  {
    forall i | 0 <= i < |keys|
      ensures Precedes(keys[i], key)
    {
      if i < |keys| - 1 {
        PrecedesTransitive(keys[i], keys[|keys| - 1], key);
      }
    }
  }

  // ----- every transition keeps reachability, and only the stated guards can refuse

  predicate CostsAccepted(leg: LegExecution, other: LegExecution, a: CostModel, b: CostModel) {
    a(leg.quantity, leg.price) >= 0.0 && b(other.quantity, other.price) >= 0.0
  }

  lemma OpenKeepsReachable(s: State, spot: Option<LegExecution>, perpetual: Option<LegExecution>, a: CostModel, b: CostModel)
    requires Reachable(s) && ValidLegs(spot, perpetual)
    ensures ApplyOpen(s, spot, perpetual, a, b).Ok? <==>
            && s.lifecycle == Flat && spot.Some? && perpetual.Some?
            && LegsMatch(s.pair, spot.value, perpetual.value, Buy, Sell)
            && CostsAccepted(spot.value, perpetual.value, a, b)
            && s.spot.cash - spot.value.quantity * spot.value.price - a(spot.value.quantity, spot.value.price) >= 0.0
    ensures ApplyOpen(s, spot, perpetual, a, b).Ok? ==>
              var after := ApplyOpen(s, spot, perpetual, a, b).value;
              && Reachable(after)
              && after == OpenState(s, spot.value, perpetual.value, a(spot.value.quantity, spot.value.price),
                                    b(perpetual.value.quantity, perpetual.value.price))
  {
    if s.lifecycle == Flat && PairError(s, spot, perpetual, Buy, Sell).None? {
      OrderErrorMeaning(s, EventKey(spot.value.time, FILL_PHASE, ""));
      hide OrderError, Precedes;
      var bought := OpenState(s, spot.value, perpetual.value, a(spot.value.quantity, spot.value.price),
                              b(perpetual.value.quantity, perpetual.value.price));
      assert Chronology(bought) == [FillKey(bought.fills[0])];
    }
  }

  lemma FundingKeepsReachable(s: State, e: HistoricalFundingEvent, model: FundingModel)
    requires Reachable(s)
    ensures ApplyFunding(s, e, model).Ok? <==>
            && s.lifecycle == HedgedOpen && ForPair(s.pair, e) && CanonicalKey(e) !in s.fundingKeys
            && OrderError(s, FundingEventKey(CanonicalKey(e))).None?
    ensures ApplyFunding(s, e, model).Ok? ==>
              var after := ApplyFunding(s, e, model).value;
              Reachable(after) && after == FundedState(s, e, FundingCost(model, s.perpetual.quantity, e))
  {
    if s.lifecycle == HedgedOpen {
      var key := FundingEventKey(CanonicalKey(e));
      OrderErrorMeaning(s, key);
      hide OrderError, Precedes, Increasing;
      if OrderError(s, key).None? {
        var after := FundedState(s, e, FundingCost(model, s.perpetual.quantity, e));
        IncreasingAppend(Chronology(s), key);
        assert Chronology(after) == Chronology(s) + [key];
      }
    }
  }

  lemma CloseKeepsReachable(s: State, spot: Option<LegExecution>, perpetual: Option<LegExecution>, a: CostModel, b: CostModel)
    requires Reachable(s) && ValidLegs(spot, perpetual)
    ensures ApplyClose(s, spot, perpetual, a, b).Ok? <==>
            && s.lifecycle == HedgedOpen && spot.Some? && perpetual.Some?
            && LegsMatch(s.pair, spot.value, perpetual.value, Sell, Buy)
            && spot.value.quantity == s.spot.quantity
            && OrderError(s, EventKey(spot.value.time, FILL_PHASE, "")).None?
            && CostsAccepted(spot.value, perpetual.value, a, b)
    ensures ApplyClose(s, spot, perpetual, a, b).Ok? ==>
              var after := ApplyClose(s, spot, perpetual, a, b).value;
              && Reachable(after)
              && after == CloseState(s, spot.value, perpetual.value, a(spot.value.quantity, spot.value.price),
                                     b(perpetual.value.quantity, perpetual.value.price))
  {
    if s.lifecycle == HedgedOpen && PairError(s, spot, perpetual, Sell, Buy).None? {
      assert spot.Some? && perpetual.Some? && spot.value.quantity == perpetual.value.quantity;
      assert s.perpetual.quantity == -s.spot.quantity && s.spot.entry.Some? && s.perpetual.entry.Some?;
      if spot.value.quantity == s.spot.quantity && OrderError(s, EventKey(spot.value.time, FILL_PHASE, "")).None? {
        var spotCost, perpetualCost :=
          a(spot.value.quantity, spot.value.price), b(perpetual.value.quantity, perpetual.value.price);
        ClosedReachable(s, spot.value, perpetual.value, spotCost, perpetualCost);
        assert Checked(CloseState(s, spot.value, perpetual.value, spotCost, perpetualCost)).Ok?;
      }
    }
  }

  lemma ClosedReachable(s: State, spot: LegExecution, perpetual: LegExecution, spotCost: real, perpetualCost: real)
    requires Reachable(s) && s.lifecycle == HedgedOpen && s.spot.entry.Some? && s.perpetual.entry.Some?
    requires spot.quantity == s.spot.quantity && LegsMatch(s.pair, spot, perpetual, Sell, Buy)
    requires OrderError(s, EventKey(spot.time, FILL_PHASE, "")).None?
    ensures Reachable(CloseState(s, spot, perpetual, spotCost, perpetualCost))
  {
    var key := EventKey(spot.time, FILL_PHASE, "");
    var closed := CloseState(s, spot, perpetual, spotCost, perpetualCost);
    OrderErrorMeaning(s, key);
    assert |s.fills| == 1;
    assert Increasing(Chronology(s)) && Chronology(s) != [];
    IncreasingAppend(Chronology(s), key);
    assert HistoryHolds(closed) by {
      assert Chronology(closed) == Chronology(s) + [key];
    }
    CloseLedgers(s, spot, perpetual, spotCost, perpetualCost);
  }

  lemma CloseLedgers(s: State, spot: LegExecution, perpetual: LegExecution, spotCost: real, perpetualCost: real)
    requires LedgersHold(s) && FillsDescribe(s) && s.lifecycle == HedgedOpen && |s.fills| == 1
    requires spot.quantity == s.spot.quantity && LegsMatch(s.pair, spot, perpetual, Sell, Buy)
    ensures var closed := CloseState(s, spot, perpetual, spotCost, perpetualCost);
            LedgersHold(closed) && FillsDescribe(closed)
  {
    var q, p, e := spot.quantity, spot.price, s.spot.entry.value;
    assert q * (p - e) == q * p - q * e;
  }

  // ----- valuation

  datatype PortfolioMark = PortfolioMark(
    time: int, lifecycle: Lifecycle, spotEquity: real, unrealized: real, marginEquity: real,
    equity: real, totalPnl: real)

  function InitialCapital(s: State): real {
    s.initialSpotCash + s.initialCollateral
  }

  function SpotUnrealized(s: State, spotMark: real): real {
    if s.spot.entry.None? then 0.0 else s.spot.quantity * (spotMark - s.spot.entry.value)
  }

  function PerpetualUnrealized(s: State, perpetualMark: real): real {
    if s.perpetual.entry.None? then 0.0 else (perpetualMark - s.perpetual.entry.value) * s.perpetual.quantity
  }

  /** Equity from ledger balances. */
  function PortfolioEquity(s: State, spotMark: real, perpetualMark: real): real {
    (s.spot.cash + s.spot.quantity * spotMark) + (s.perpetual.collateral + PerpetualUnrealized(s, perpetualMark))
  }

  /** Profit from the attribution records. */
  function AttributedPnl(s: State, spotMark: real, perpetualMark: real): real {
    s.spot.realizedPnl + SpotUnrealized(s, spotMark) - s.spot.costsPaid
    + s.perpetual.realizedPnl + PerpetualUnrealized(s, perpetualMark) - s.perpetual.costsPaid - s.perpetual.fundingPaid
  }

  function MarkPortfolio(s: State, time: int, spotMark: real, perpetualMark: real): Result<PortfolioMark, HedgeError> {
    if spotMark <= 0.0 || perpetualMark <= 0.0 then Err(NonPositiveMark)
    else if s.lastEvent.Some? && time < s.lastEvent.value then Err(MarkBeforeLastEvent)
    else
      var equity := PortfolioEquity(s, spotMark, perpetualMark);
      if AttributedPnl(s, spotMark, perpetualMark) != equity - InitialCapital(s) then Err(EquityMismatch)
      else
        Ok(PortfolioMark(time, s.lifecycle, s.spot.cash + s.spot.quantity * spotMark,
                         PerpetualUnrealized(s, perpetualMark),
                         s.perpetual.collateral + PerpetualUnrealized(s, perpetualMark),
                         equity, equity - InitialCapital(s)))
  }

  function TotalCosts(s: State): real {
    s.spot.costsPaid + s.perpetual.costsPaid
  }

  /** Spot minus perpetual, the only price the hedged pair is exposed to. */
  function Basis(spot: real, perpetual: real): real {
    spot - perpetual
  }

  /** In every reachable open state the two legs offset and equity moves only with the basis. */
  lemma HedgedEquity(s: State, spotMark: real, perpetualMark: real)
    requires Reachable(s) && s.lifecycle == HedgedOpen
    ensures s.spot.quantity == -s.perpetual.quantity
    ensures var entryFill := s.fills[0];
            var atOpen := Basis(entryFill.spot.execution.price, entryFill.perpetual.execution.price);
            PortfolioEquity(s, spotMark, perpetualMark)
            == InitialCapital(s) + s.spot.quantity * (Basis(spotMark, perpetualMark) - atOpen)
               - TotalCosts(s) - s.perpetual.fundingPaid
  {
    var q, se, pe := s.spot.quantity, s.spot.entry.value, s.perpetual.entry.value;
    assert (perpetualMark - pe) * (-q) == q * pe - q * perpetualMark;
    assert q * ((spotMark - perpetualMark) - (se - pe)) == q * spotMark - q * perpetualMark - q * se + q * pe;
  }

  /** Adding one amount to both marks leaves a reachable portfolio's equity unchanged. */
  lemma CommonShiftIsNeutral(s: State, spotMark: real, perpetualMark: real, shift: real)
    requires Reachable(s)
    ensures PortfolioEquity(s, spotMark + shift, perpetualMark + shift) == PortfolioEquity(s, spotMark, perpetualMark)
  {
    if s.lifecycle == HedgedOpen {
      HedgedEquity(s, spotMark, perpetualMark);
      HedgedEquity(s, spotMark + shift, perpetualMark + shift);
      assert Basis(spotMark + shift, perpetualMark + shift) == Basis(spotMark, perpetualMark);
      hide PortfolioEquity, Basis, Reachable;
    }
  }

  /** After the close equity is the two wallets, fixed by the two basis values and the charges. */
  lemma ClosedEquity(s: State, spotMark: real, perpetualMark: real)
    requires Reachable(s) && s.lifecycle == FlatClosed
    ensures PortfolioEquity(s, spotMark, perpetualMark) == s.spot.cash + s.perpetual.collateral
    ensures var entryFill, exitFill := s.fills[0], s.fills[1];
            s.spot.cash + s.perpetual.collateral
            == InitialCapital(s)
               + entryFill.spot.execution.quantity
                 * (Basis(exitFill.spot.execution.price, exitFill.perpetual.execution.price)
                    - Basis(entryFill.spot.execution.price, entryFill.perpetual.execution.price))
               - TotalCosts(s) - s.perpetual.fundingPaid
  {
    var entryFill, exitFill := s.fills[0], s.fills[1];
    BasisProfit(entryFill.spot.execution.quantity, entryFill.spot.execution.price, entryFill.perpetual.execution.price,
                exitFill.spot.execution.price, exitFill.perpetual.execution.price);
    hide HistoryHolds;
  }

  lemma BasisProfit(q: real, se: real, pe: real, sx: real, px: real)
    ensures q * (sx - se) + q * (pe - px) == q * (Basis(sx, px) - Basis(se, pe))
  {
    assert Basis(sx, px) - Basis(se, pe) == (sx - se) + (pe - px);
    Distribute(q, sx - se, pe - px);
  }

  /** The mark's accounting invariant can never fire on a reachable state: a mark fails only for
      a non-positive price or a time before the last event. */
  lemma MarkNeverMismatches(s: State, time: int, spotMark: real, perpetualMark: real)
    requires Reachable(s)
    ensures AttributedPnl(s, spotMark, perpetualMark) == PortfolioEquity(s, spotMark, perpetualMark) - InitialCapital(s)
    ensures MarkPortfolio(s, time, spotMark, perpetualMark).Ok? <==>
            spotMark > 0.0 && perpetualMark > 0.0 && (s.lastEvent.Some? ==> time >= s.lastEvent.value)
  {
    if s.lifecycle == HedgedOpen {
      var q, e := s.spot.quantity, s.spot.entry.value;
      assert q * (spotMark - e) == q * spotMark - q * e;
      hide HistoryHolds, FillsDescribe;
    }
  }

  /** A mark in terms of the recorded fills: the cash and the coin of the spot wallet, the open profit of
      the short, and the collateral it adds to; before the open and after the close prices are void. */
  lemma MarkMeaning(s: State, time: int, spotMark: real, perpetualMark: real)
    requires Reachable(s) && MarkPortfolio(s, time, spotMark, perpetualMark).Ok?
    ensures var m := MarkPortfolio(s, time, spotMark, perpetualMark).value;
            && m.time == time && m.lifecycle == s.lifecycle
            && m.equity == m.spotEquity + m.marginEquity
            && m.totalPnl == m.equity - s.initialSpotCash - s.initialCollateral
            && m.marginEquity == s.initialCollateral + Realized(s).1 + m.unrealized - s.perpetual.costsPaid - s.perpetual.fundingPaid
            && (s.lifecycle != HedgedOpen ==>
                  m.unrealized == 0.0 && m.spotEquity == s.initialSpotCash + Realized(s).0 - s.spot.costsPaid)
            && (s.lifecycle == HedgedOpen ==>
                  var entryFill := s.fills[0];
                  var q := entryFill.spot.execution.quantity;
                  && m.unrealized == q * (entryFill.perpetual.execution.price - perpetualMark)
                  && m.spotEquity == s.initialSpotCash + q * (spotMark - entryFill.spot.execution.price) - s.spot.costsPaid)
  {
    if s.lifecycle == HedgedOpen {
      var q, se, pe := s.spot.quantity, s.spot.entry.value, s.perpetual.entry.value;
      assert (perpetualMark - pe) * (-q) == q * (pe - perpetualMark);
      assert q * (spotMark - se) == q * spotMark - q * se;
    }
  }

  /** What the two legs earned between the two recorded fills, spot then perpetual. */
  ghost function Realized(s: State): (real, real) {
    if |s.fills| != 2 then (0.0, 0.0)
    else
      var entryFill, exitFill := s.fills[0], s.fills[1];
      var q := entryFill.spot.execution.quantity;
      (q * (exitFill.spot.execution.price - entryFill.spot.execution.price),
       q * (entryFill.perpetual.execution.price - exitFill.perpetual.execution.price))
  }

  datatype Summary = Summary(finalSpotCash: real, finalCollateral: real, finalEquity: real, totalPnl: real)

  function SummarizeClosed(s: State): Result<Summary, HedgeError> {
    if s.lifecycle != FlatClosed then Err(WrongLifecycle)
    else
      var finalEquity := s.spot.cash + s.perpetual.collateral;
      var attributed := s.spot.realizedPnl - s.spot.costsPaid + s.perpetual.realizedPnl
                        - s.perpetual.costsPaid - s.perpetual.fundingPaid;
      if attributed != finalEquity - InitialCapital(s) then Err(EquityMismatch)
      else Ok(Summary(s.spot.cash, s.perpetual.collateral, finalEquity, finalEquity - InitialCapital(s)))
  }

  /** A closed reachable portfolio always has a summary, and its final equity is every mark's. */
  lemma SummaryAlwaysBalances(s: State, spotMark: real, perpetualMark: real)
    requires Reachable(s)
    ensures SummarizeClosed(s).Ok? <==> s.lifecycle == FlatClosed
    ensures SummarizeClosed(s).Ok? ==> SummarizeClosed(s).value.finalEquity == PortfolioEquity(s, spotMark, perpetualMark)
    ensures SummarizeClosed(s).Ok? ==>
              var o, fills := SummarizeClosed(s).value, s.fills;
              && |fills| == 2
              && o.finalSpotCash == s.initialSpotCash + Realized(s).0 - fills[0].spot.cost - fills[1].spot.cost
              && o.finalCollateral == s.initialCollateral + Realized(s).1 - fills[0].perpetual.cost - fills[1].perpetual.cost
                                      - s.perpetual.fundingPaid
              && o.finalEquity == o.finalSpotCash + o.finalCollateral
              && o.totalPnl == o.finalEquity - s.initialSpotCash - s.initialCollateral
  {
    if s.lifecycle == FlatClosed {
      ClosedEquity(s, spotMark, perpetualMark);
    }
  }

  // ----- whole sequences of operations, under either ordering

  datatype Op =
    | OpenOp(spot: Option<LegExecution>, perpetual: Option<LegExecution>)
    | FundingOp(event: HistoricalFundingEvent)
    | CloseOp(spot: Option<LegExecution>, perpetual: Option<LegExecution>)

  ghost predicate ValidOp(op: Op) {
    op.FundingOp? || ValidLegs(op.spot, op.perpetual)
  }

  function Apply(s: State, op: Op, a: CostModel, b: CostModel, f: FundingModel): Result<State, HedgeError>
    requires op.FundingOp? || ValidLegs(op.spot, op.perpetual)
    requires s.lifecycle == HedgedOpen ==> s.spot.entry.Some? && s.perpetual.entry.Some?
  {
    match op
    case OpenOp(spot, perpetual) => ApplyOpen(s, spot, perpetual, a, b)
    case FundingOp(e) => ApplyFunding(s, e, f)
    case CloseOp(spot, perpetual) => ApplyClose(s, spot, perpetual, a, b)
  }

  lemma ApplyKeepsReachable(s: State, op: Op, a: CostModel, b: CostModel, f: FundingModel)
    requires Reachable(s) && ValidOp(op)
    ensures Apply(s, op, a, b, f).Ok? ==> Reachable(Apply(s, op, a, b, f).value)
  {
    hide Reachable;
    match op
    case OpenOp(spot, perpetual) => OpenKeepsReachable(s, spot, perpetual, a, b);
    case FundingOp(e) => FundingKeepsReachable(s, e, f);
    case CloseOp(spot, perpetual) => CloseKeepsReachable(s, spot, perpetual, a, b);
  }

  /** The first n operations of a script, stopping at the first refusal. */
  ghost function ApplyAll(s: State, ops: seq<Op>, n: nat, a: CostModel, b: CostModel, f: FundingModel)
    : (r: Result<State, HedgeError>)
    requires Reachable(s) && n <= |ops| && forall i :: 0 <= i < |ops| ==> ValidOp(ops[i])
    ensures r.Ok? ==> Reachable(r.value)
  {
    if n == 0 then Ok(s)
    else
      match ApplyAll(s, ops, n - 1, a, b, f)
      case Err(e) => Err(e)
      case Ok(before) =>
        ApplyKeepsReachable(before, ops[n - 1], a, b, f);
        Apply(before, ops[n - 1], a, b, f)
  }

  function Relaxed(s: State): State {
    s.(ordering := FundingBeforeFill)
  }

  /** Wherever strict times accept an event, the relaxed order accepts it too. */
  lemma RelaxedOrder(s: State, key: EventKey)
    requires Reachable(s) && s.ordering.StrictTime? && OrderError(s, key).None?
    ensures OrderError(Relaxed(s), key).None?
  {
    assert Chronology(Relaxed(s)) == Chronology(s);
    OrderErrorMeaning(s, key);
    OrderErrorMeaning(Relaxed(s), key);
  }

  lemma RelaxedOpen(s: State, spot: Option<LegExecution>, perpetual: Option<LegExecution>, a: CostModel, b: CostModel)
    requires Reachable(s) && s.ordering.StrictTime? && ValidLegs(spot, perpetual)
    requires ApplyOpen(s, spot, perpetual, a, b).Ok?
    ensures ApplyOpen(Relaxed(s), spot, perpetual, a, b)
            == Outcomes.Ok(Relaxed(ApplyOpen(s, spot, perpetual, a, b).value))
    ensures ApplyOpen(s, spot, perpetual, a, b).value.ordering.StrictTime?
  {
    RelaxedOrder(s, EventKey(spot.value.time, FILL_PHASE, ""));
    hide OrderError, Reachable;
  }

  lemma RelaxedFunding(s: State, e: HistoricalFundingEvent, f: FundingModel)
    requires Reachable(s) && s.ordering.StrictTime? && ApplyFunding(s, e, f).Ok?
    ensures ApplyFunding(Relaxed(s), e, f) == Outcomes.Ok(Relaxed(ApplyFunding(s, e, f).value))
    ensures ApplyFunding(s, e, f).value.ordering.StrictTime?
  {
    RelaxedOrder(s, FundingEventKey(CanonicalKey(e)));
    hide OrderError, Reachable, FundingCost;
  }

  lemma RelaxedClose(s: State, spot: Option<LegExecution>, perpetual: Option<LegExecution>, a: CostModel, b: CostModel)
    requires Reachable(s) && s.ordering.StrictTime? && ValidLegs(spot, perpetual)
    requires ApplyClose(s, spot, perpetual, a, b).Ok?
    ensures ApplyClose(Relaxed(s), spot, perpetual, a, b)
            == Outcomes.Ok(Relaxed(ApplyClose(s, spot, perpetual, a, b).value))
    ensures ApplyClose(s, spot, perpetual, a, b).value.ordering.StrictTime?
  {
    hide EventCursor;
    assert spot.Some? && perpetual.Some?;
    assert s.spot.entry.Some? && s.perpetual.entry.Some?;
    RelaxedOrder(s, EventKey(spot.value.time, FILL_PHASE, ""));
    var spotCost := a(spot.value.quantity, spot.value.price);
    var perpetualCost := b(perpetual.value.quantity, perpetual.value.price);
    var after := CloseState(s, spot.value, perpetual.value, spotCost, perpetualCost);
    assert Relaxed(s) == s.(ordering := FundingBeforeFill);
    assert PairError(Relaxed(s), spot, perpetual, Sell, Buy) == PairError(s, spot, perpetual, Sell, Buy);
    assert CloseState(Relaxed(s), spot.value, perpetual.value, spotCost, perpetualCost) == Relaxed(after)
           && after.ordering == s.ordering;
    assert Checked(after) == Outcomes.Ok(after) && Checked(Relaxed(after)) == Outcomes.Ok(Relaxed(after));
  }

  lemma RelaxedStep(s: State, op: Op, a: CostModel, b: CostModel, f: FundingModel)
    requires Reachable(s) && s.ordering.StrictTime? && ValidOp(op)
    requires Reachable(Relaxed(s)) && Apply(s, op, a, b, f).Ok?
    ensures Apply(Relaxed(s), op, a, b, f) == Outcomes.Ok(Relaxed(Apply(s, op, a, b, f).value))
    ensures Apply(s, op, a, b, f).value.ordering.StrictTime?
  {
    hide ApplyOpen, ApplyFunding, ApplyClose;
    match op
    case OpenOp(spot, perpetual) => RelaxedOpen(s, spot, perpetual, a, b);
    case FundingOp(e) => RelaxedFunding(s, e, f);
    case CloseOp(spot, perpetual) => RelaxedClose(s, spot, perpetual, a, b);
  }

  lemma RelaxedReachable(s: State)
    requires Reachable(s)
    ensures Reachable(Relaxed(s))
  {
    assert Chronology(Relaxed(s)) == Chronology(s);
  }

  /** Every script accepted under strict times is accepted with fundings before fills, with the
      same ledgers, fills and funding records. */
  lemma {:induction false} StrictScriptsStayAccepted(s: State, ops: seq<Op>, n: nat, a: CostModel, b: CostModel, f: FundingModel)
    requires Reachable(s) && s.ordering.StrictTime? && Reachable(Relaxed(s))
    requires n <= |ops| && forall i :: 0 <= i < |ops| ==> ValidOp(ops[i])
    requires ApplyAll(s, ops, n, a, b, f).Ok?
    ensures ApplyAll(Relaxed(s), ops, n, a, b, f) == Outcomes.Ok(Relaxed(ApplyAll(s, ops, n, a, b, f).value))
    ensures ApplyAll(s, ops, n, a, b, f).value.ordering.StrictTime?
  {
    hide Reachable, Apply;
    if n > 0 {
      StrictScriptsStayAccepted(s, ops, n - 1, a, b, f);
      var before := ApplyAll(s, ops, n - 1, a, b, f).value;
      RelaxedReachable(before);
      RelaxedStep(before, ops[n - 1], a, b, f);
    }
  }

  /** The converse fails: two fundings at one instant need the relaxed order. */
  lemma SameInstantFundingsNeedRelaxedOrder(s: State, e: HistoricalFundingEvent, g: HistoricalFundingEvent, f: FundingModel)
    requires Reachable(s) && s.lifecycle == HedgedOpen && s.ordering.StrictTime?
    requires ForPair(s.pair, e) && ForPair(s.pair, g)
    requires s.lastEvent.value < EventTime(e) == EventTime(g) && TextLess(e.funding.rateType, g.funding.rateType)
    requires CanonicalKey(e) !in s.fundingKeys && CanonicalKey(g) !in s.fundingKeys
    ensures ApplyFunding(s, e, f).Ok? && ApplyFunding(ApplyFunding(s, e, f).value, g, f) == Outcomes.Err(NotAfterLastEvent)
    ensures ApplyFunding(Relaxed(s), e, f).Ok? && ApplyFunding(ApplyFunding(Relaxed(s), e, f).value, g, f).Ok?
  {
    TextLessIrreflexive(e.funding.rateType);
    var key := FundingEventKey(CanonicalKey(e));
    OrderErrorMeaning(s, key);
    assert OrderError(s, key).None?;
    FundingKeepsReachable(s, e, f);
    var strict := ApplyFunding(s, e, f).value;
    assert ApplyFunding(strict, g, f) == Outcomes.Err(NotAfterLastEvent);
    RelaxedReachable(s);
    RelaxedFunding(s, e, f);
    var after := Relaxed(strict);
    RelaxedReachable(strict);
    SecondFundingFollows(s, e, g, f, after);
  }

  lemma SecondFundingFollows(s: State, e: HistoricalFundingEvent, g: HistoricalFundingEvent, f: FundingModel, after: State)
    requires Reachable(s) && s.lifecycle == HedgedOpen && Reachable(after)
    requires ForPair(s.pair, g) && CanonicalKey(g) !in s.fundingKeys
    requires EventTime(e) == EventTime(g) && TextLess(e.funding.rateType, g.funding.rateType)
    requires after == Relaxed(FundedState(s, e, FundingCost(f, s.perpetual.quantity, e)))
    ensures ApplyFunding(after, g, f).Ok?
  {
    TextLessIrreflexive(e.funding.rateType);
    var ke, kg := FundingEventKey(CanonicalKey(e)), FundingEventKey(CanonicalKey(g));
    assert after.pair == s.pair && after.lifecycle == HedgedOpen && after.ordering == FundingBeforeFill
           && after.fundingKeys == s.fundingKeys + [CanonicalKey(e)] && after.fills == s.fills;
    assert |s.fills| == 1 && HistoryHolds(after);
    assert Chronology(after)[|Chronology(after)| - 1] == ke;
    assert Precedes(ke, kg) && CanonicalKey(e) != CanonicalKey(g);
    OrderErrorMeaning(after, kg);
    FundingKeepsReachable(after, g, f);
  }

  // ----- exactly when strict times accept a script

  function Strict(s: State): State {
    s.(ordering := StrictTime)
  }

  ghost predicate TimesIncrease(keys: seq<EventKey>) {
    forall i, j :: 0 <= i < j < |keys| ==> keys[i].time < keys[j].time
  }

  function KeyOfOp(op: Op): EventKey {
    match op
    case FundingOp(e) => FundingEventKey(CanonicalKey(e))
    case OpenOp(spot, _) => EventKey(if spot.Some? then spot.value.time else 0, FILL_PHASE, "")
    case CloseOp(spot, _) => EventKey(if spot.Some? then spot.value.time else 0, FILL_PHASE, "")
  }

  /** The event may follow strictly in time. */
  ghost predicate LaterThanAll(s: State, key: EventKey)
    requires |s.fills| <= 2
  {
    s.lifecycle != Flat && Chronology(s) != [] ==> Chronology(s)[|Chronology(s)| - 1].time < key.time
  }

  lemma StrictOrder(s: State, key: EventKey)
    requires Reachable(s)
    ensures OrderError(Strict(s), key).None? <==> LaterThanAll(s, key)
  {
    assert Chronology(Strict(s)) == Chronology(s);
    hide LedgersHold, FillsDescribe, Increasing;
    OrderErrorMeaning(Strict(s), key);
  }

  /** What one relaxed step appends, and when the strict step agrees with it. */
  ghost predicate StrictAgrees(s: State, op: Op, after: State, strict: Result<State, HedgeError>)
    requires |s.fills| <= 2
  {
    && |after.fills| <= 2
    && Chronology(after) == Chronology(s) + [KeyOfOp(op)]
    && (strict.Ok? <==> LaterThanAll(s, KeyOfOp(op)))
    && (strict.Ok? ==> strict.value == Strict(after))
  }

  lemma StrictOpen(s: State, spot: Option<LegExecution>, perpetual: Option<LegExecution>, a: CostModel, b: CostModel)
    requires Reachable(s) && ValidLegs(spot, perpetual) && ApplyOpen(s, spot, perpetual, a, b).Ok?
    ensures |s.fills| == 0
    ensures StrictAgrees(s, OpenOp(spot, perpetual), ApplyOpen(s, spot, perpetual, a, b).value,
                         ApplyOpen(Strict(s), spot, perpetual, a, b))
  {
    assert |s.fills| == 0 && s.lifecycle == Flat && s.fundingKeys == [];
    StrictOrder(s, EventKey(spot.value.time, FILL_PHASE, ""));
    hide Reachable, OrderError;
    var after := ApplyOpen(s, spot, perpetual, a, b).value;
    assert Chronology(after) == [FillKey(after.fills[0])];
  }

  lemma FundingAppends(s: State, e: HistoricalFundingEvent, cost: real)
    requires Reachable(s) && s.lifecycle == HedgedOpen
    ensures |s.fills| == 1 && |FundedState(s, e, cost).fills| == 1
    ensures Chronology(FundedState(s, e, cost)) == Chronology(s) + [FundingEventKey(CanonicalKey(e))]
  {
    hide LedgersHold, FillsDescribe, Increasing;
  }

  lemma StrictFunding(s: State, e: HistoricalFundingEvent, f: FundingModel)
    requires Reachable(s) && Reachable(Strict(s)) && ApplyFunding(s, e, f).Ok?
    ensures |s.fills| == 1
    ensures StrictAgrees(s, FundingOp(e), ApplyFunding(s, e, f).value, ApplyFunding(Strict(s), e, f))
  {
    var key := FundingEventKey(CanonicalKey(e));
    FundingKeepsReachable(s, e, f);
    FundingKeepsReachable(Strict(s), e, f);
    StrictOrder(s, key);
    hide Reachable, OrderError, ApplyFunding, Precedes, Chronology, FundingCost, LaterThanAll;
    FundingAppends(s, e, FundingCost(f, s.perpetual.quantity, e));
  }

  lemma CloseAppends(s: State, spot: LegExecution, perpetual: LegExecution, spotCost: real, perpetualCost: real)
    requires Reachable(s) && s.lifecycle == HedgedOpen && s.spot.entry.Some? && s.perpetual.entry.Some?
    ensures |s.fills| == 1 && |CloseState(s, spot, perpetual, spotCost, perpetualCost).fills| == 2
    ensures Chronology(CloseState(s, spot, perpetual, spotCost, perpetualCost))
            == Chronology(s) + [EventKey(spot.time, FILL_PHASE, "")]
    ensures CloseState(Strict(s), spot, perpetual, spotCost, perpetualCost)
            == Strict(CloseState(s, spot, perpetual, spotCost, perpetualCost))
  {
    hide LedgersHold, FillsDescribe, Increasing;
  }

  lemma StrictClose(s: State, spot: Option<LegExecution>, perpetual: Option<LegExecution>, a: CostModel, b: CostModel)
    requires Reachable(s) && Reachable(Strict(s)) && ValidLegs(spot, perpetual)
    requires s.lifecycle == HedgedOpen ==> s.spot.entry.Some? && s.perpetual.entry.Some?
    requires ApplyClose(s, spot, perpetual, a, b).Ok?
    ensures |s.fills| == 1
    ensures StrictAgrees(s, CloseOp(spot, perpetual), ApplyClose(s, spot, perpetual, a, b).value,
                         ApplyClose(Strict(s), spot, perpetual, a, b))
  {
    CloseKeepsReachable(s, spot, perpetual, a, b);
    CloseKeepsReachable(Strict(s), spot, perpetual, a, b);
    StrictOrder(s, EventKey(spot.value.time, FILL_PHASE, ""));
    hide Reachable, OrderError, ApplyClose, Precedes, Chronology, CloseState, LaterThanAll, CostsAccepted;
    CloseAppends(s, spot.value, perpetual.value, a(spot.value.quantity, spot.value.price),
                 b(perpetual.value.quantity, perpetual.value.price));
  }

  lemma StrictStep(s: State, op: Op, a: CostModel, b: CostModel, f: FundingModel)
    requires Reachable(s) && Reachable(Strict(s)) && ValidOp(op) && Apply(s, op, a, b, f).Ok?
    ensures |s.fills| <= 2
    ensures StrictAgrees(s, op, Apply(s, op, a, b, f).value, Apply(Strict(s), op, a, b, f))
  {
    assert s.lifecycle == HedgedOpen ==> s.spot.entry.Some? && s.perpetual.entry.Some?;
    hide ApplyOpen, ApplyFunding, ApplyClose, StrictAgrees, Reachable;
    match op
    case OpenOp(spot, perpetual) => StrictOpen(s, spot, perpetual, a, b);
    case FundingOp(e) => StrictFunding(s, e, f);
    case CloseOp(spot, perpetual) => StrictClose(s, spot, perpetual, a, b);
  }

  lemma StrictReachable(s: State)
    requires Reachable(s)
    ensures Reachable(Strict(s))
  {
    assert Chronology(Strict(s)) == Chronology(s);
  }

  lemma TimesIncreaseAppend(keys: seq<EventKey>, key: EventKey)
    ensures TimesIncrease(keys + [key]) <==>
            TimesIncrease(keys) && (keys != [] ==> keys[|keys| - 1].time < key.time)
  {
    var after := keys + [key];
    if TimesIncrease(after) {
      forall i, j | 0 <= i < j < |keys|
        ensures keys[i].time < keys[j].time
      {
        assert after[i] == keys[i] && after[j] == keys[j];
      }
      assert keys != [] ==> after[|keys| - 1] == keys[|keys| - 1] && after[|keys|] == key;
    }
  }

  /** The strict outcome of a script, given the relaxed one. */
  ghost predicate StrictOutcome(relaxed: Result<State, HedgeError>, strict: Result<State, HedgeError>) {
    relaxed.Ok? ==>
      && |relaxed.value.fills| <= 2
      && (strict.Ok? <==> TimesIncrease(Chronology(relaxed.value)))
      && (strict.Ok? ==> strict.value == Strict(relaxed.value))
  }

  lemma OutcomeStep(
    before: State, after: State, applied: Result<State, HedgeError>,
    strictBefore: Result<State, HedgeError>, strictAfter: Result<State, HedgeError>)
    requires StrictOutcome(Outcomes.Ok(before), strictBefore) && |before.fills| <= 2 && |after.fills| <= 2
    requires TimesIncrease(Chronology(after)) <==> TimesIncrease(Chronology(before)) && applied.Ok?
    requires applied.Ok? ==> applied.value == Strict(after)
    requires strictBefore.Err? ==> strictAfter.Err?
    requires strictBefore == Outcomes.Ok(Strict(before)) ==> strictAfter == applied
    ensures StrictOutcome(Outcomes.Ok(after), strictAfter)
  {
    hide Chronology, TimesIncrease, Strict;
  }

  lemma LastOp(s: State, ops: seq<Op>, n: nat, a: CostModel, b: CostModel, f: FundingModel)
    requires Reachable(s) && 0 < n <= |ops| && forall i :: 0 <= i < |ops| ==> ValidOp(ops[i])
    ensures ops[n - 1].FundingOp? || ValidLegs(ops[n - 1].spot, ops[n - 1].perpetual)
    ensures ApplyAll(s, ops, n - 1, a, b, f).Err? ==> ApplyAll(s, ops, n, a, b, f).Err?
    ensures ApplyAll(s, ops, n - 1, a, b, f).Ok? ==>
              var before := ApplyAll(s, ops, n - 1, a, b, f).value;
              && Reachable(before) && ApplyAll(s, ops, n, a, b, f) == Apply(before, ops[n - 1], a, b, f)
  {
    hide Apply, Chronology, LedgersHold, FillsDescribe;
  }

  lemma {:induction false} StrictRun(s: State, ops: seq<Op>, n: nat, a: CostModel, b: CostModel, f: FundingModel)
    requires Reachable(s) && Reachable(Strict(s)) && s.lifecycle == Flat
    requires n <= |ops| && forall i :: 0 <= i < |ops| ==> ValidOp(ops[i])
    ensures StrictOutcome(ApplyAll(s, ops, n, a, b, f), ApplyAll(Strict(s), ops, n, a, b, f))
  {
    hide *;
    if n == 0 {
      NothingApplied(s, ops, a, b, f);
    } else {
      LastOp(s, ops, n, a, b, f);
      LastOp(Strict(s), ops, n, a, b, f);
      StrictRun(s, ops, n - 1, a, b, f);
      var relaxed := ApplyAll(s, ops, n, a, b, f);
      if relaxed.Ok? {
        var before := ApplyAll(s, ops, n - 1, a, b, f).value;
        StrictReachable(before);
        HedgedHasEntries(Strict(before));
        StepKeepsIff(before, ops[n - 1], a, b, f);
        OutcomeStep(before, relaxed.value, Apply(Strict(before), ops[n - 1], a, b, f),
                    ApplyAll(Strict(s), ops, n - 1, a, b, f), ApplyAll(Strict(s), ops, n, a, b, f));
      } else {
        NoOutcome(relaxed, ApplyAll(Strict(s), ops, n, a, b, f));
      }
    }
  }

  lemma HedgedHasEntries(s: State)
    requires Reachable(s)
    ensures s.lifecycle == HedgedOpen ==> s.spot.entry.Some? && s.perpetual.entry.Some?
  {
    hide HistoryHolds, FillsDescribe;
  }

  lemma NothingApplied(s: State, ops: seq<Op>, a: CostModel, b: CostModel, f: FundingModel)
    requires Reachable(s) && Reachable(Strict(s)) && s.lifecycle == Flat
    requires forall i :: 0 <= i < |ops| ==> ValidOp(ops[i])
    ensures StrictOutcome(ApplyAll(s, ops, 0, a, b, f), ApplyAll(Strict(s), ops, 0, a, b, f))
  {
    assert Chronology(s) == [];
  }

  lemma NoOutcome(relaxed: Result<State, HedgeError>, strict: Result<State, HedgeError>)
    requires relaxed.Err?
    ensures StrictOutcome(relaxed, strict)
  {
  }

  /** From a new portfolio, a script accepted with fundings before fills is accepted under strict
      times if and only if its recorded event times strictly increase, and then with the same
      ledgers. */
  lemma StrictIffTimesIncrease(
    pair: HedgedPair, spotCash: real, collateral: real, ops: seq<Op>, a: CostModel, b: CostModel, f: FundingModel)
    requires spotCash >= 0.0 && collateral >= 0.0 && forall i :: 0 <= i < |ops| ==> ValidOp(ops[i])
    ensures NewPortfolio(pair, spotCash, collateral, FundingBeforeFill).Ok?
    ensures NewPortfolio(pair, spotCash, collateral, StrictTime).Ok?
    ensures var r0 := NewPortfolio(pair, spotCash, collateral, FundingBeforeFill).value;
            var s0 := NewPortfolio(pair, spotCash, collateral, StrictTime).value;
            && Reachable(r0) && Reachable(s0)
            && StrictOutcome(ApplyAll(r0, ops, |ops|, a, b, f), ApplyAll(s0, ops, |ops|, a, b, f))
  {
    NewPortfolioReachable(pair, spotCash, collateral, FundingBeforeFill);
    NewPortfolioReachable(pair, spotCash, collateral, StrictTime);
    var r0 := NewPortfolio(pair, spotCash, collateral, FundingBeforeFill).value;
    assert NewPortfolio(pair, spotCash, collateral, StrictTime).value == Strict(r0) && r0.lifecycle == Flat;
    hide ApplyAll, Reachable, StrictOutcome, NewPortfolio;
    StrictRun(r0, ops, |ops|, a, b, f);
  }

  /** One relaxed step keeps the equivalence; a strict script that has failed stays failed. */
  lemma StepKeepsIff(s: State, op: Op, a: CostModel, b: CostModel, f: FundingModel)
    requires Reachable(s) && Reachable(Strict(s)) && ValidOp(op) && Apply(s, op, a, b, f).Ok?
    ensures |s.fills| <= 2 && |Apply(s, op, a, b, f).value.fills| <= 2
    ensures TimesIncrease(Chronology(Apply(s, op, a, b, f).value)) <==>
            TimesIncrease(Chronology(s)) && Apply(Strict(s), op, a, b, f).Ok?
    ensures Apply(Strict(s), op, a, b, f).Ok? ==>
              Apply(Strict(s), op, a, b, f).value == Strict(Apply(s, op, a, b, f).value)
  {
    StrictStep(s, op, a, b, f);
    NoHistoryWhenFlat(s);
    TimesIncreaseAppend(Chronology(s), KeyOfOp(op));
    hide Reachable, Apply, Chronology, TimesIncrease;
  }

  lemma NoHistoryWhenFlat(s: State)
    requires Reachable(s)
    ensures |s.fills| <= 2 && (Chronology(s) == [] <==> s.lifecycle == Flat)
  {
    hide LedgersHold, FillsDescribe, Increasing;
  }
}
