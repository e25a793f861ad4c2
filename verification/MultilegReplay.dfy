/** The two-ledger replay: `RunAt` is the run after n candles, with every check of the accounting
    kept as a possible failure; the theorems say which failures a validated run can meet. */
module MultilegReplay {
  import opened Outcomes
  import opened TextOrder
  import opened Market
  import opened Multileg

  datatype HedgeIntent = HedgeIntent(action: FillAction, decisionTime: int, quantity: real)

  datatype FundingRecord = FundingRecord(
    event: HistoricalFundingEvent, lifecycleBefore: Lifecycle, quantity: real, cost: real, applied: bool)

  datatype Setup = Setup(
    pair: HedgedPair, spot: seq<Candle>, perpetual: seq<Candle>, events: seq<HistoricalFundingEvent>,
    intents: seq<HedgeIntent>, spotCash: real, collateral: real,
    spotCosts: CostModel, perpetualCosts: CostModel, fundingModel: FundingModel)

  datatype Book = Book(
    state: State, cursor: nat, records: seq<FundingRecord>, marks: seq<PortfolioMark>,
    unexecuted: seq<HedgeIntent>)

  datatype Failure =
    | Hedge(error: HedgeError)
    | FlatFundingNotZero
    | NonPositiveOpen

  // ----- validated input

  ghost predicate ValidIntents(intents: seq<HedgeIntent>, candles: seq<Candle>)
    requires Uniform(candles)
  {
    && (forall i :: 0 <= i < |intents| ==> OnAvailability(candles, intents[i].decisionTime))
    && LawfulScript(intents)
  }

  ghost predicate OnAvailability(candles: seq<Candle>, t: int)
    requires Uniform(candles)
  {
    exists m :: 0 <= m < |candles| && Availability(candles[m]) == t
  }

  /** Nothing, one open, or an open and a strictly later close of the same quantity. */
  ghost predicate LawfulScript(intents: seq<HedgeIntent>) {
    && |intents| <= 2
    && (|intents| >= 1 ==> intents[0].action == OpenAction && intents[0].quantity > 0.0)
    && (|intents| == 2 ==>
          && intents[1].action == CloseAction
          && intents[0].decisionTime < intents[1].decisionTime
          && intents[1].quantity == intents[0].quantity)
  }

  ghost predicate SameGrid(spot: seq<Candle>, perpetual: seq<Candle>) {
    && |spot| == |perpetual|
    && forall i :: 0 <= i < |spot| ==> spot[i].openTime == perpetual[i].openTime
  }

  ghost predicate ValidSetup(s: Setup) {
    && s.spot != [] && Uniform(s.spot) && SameGrid(s.spot, s.perpetual)
    && ValidFunding(s.events, s.pair.perpetual.symbol, s.spot[0].openTime, Availability(s.spot[|s.spot| - 1]))
    && (forall j :: 0 <= j < |s.events| ==> ForPair(s.pair, s.events[j]))
    && ValidIntents(s.intents, s.spot)
    && s.spotCash >= 0.0 && s.collateral >= 0.0
  }

  // ----- one candle

  function SettleOne(s: Setup, b: Book): Result<Book, Failure>
    requires b.cursor < |s.events|
  {
    var e := s.events[b.cursor];
    var quantity := b.state.perpetual.quantity;
    if b.state.lifecycle == HedgedOpen then
      match ApplyFunding(b.state, e, s.fundingModel)
      case Err(error) => Err(Hedge(error))
      case Ok(after) =>
        var cost := after.perpetual.fundingPaid - b.state.perpetual.fundingPaid;
        Ok(b.(state := after, cursor := b.cursor + 1,
              records := b.records + [FundingRecord(e, HedgedOpen, quantity, cost, true)]))
    else
      var cost := FundingCost(s.fundingModel, quantity, e);
      if cost != 0.0 then Err(FlatFundingNotZero)
      else Ok(b.(cursor := b.cursor + 1,
                 records := b.records + [FundingRecord(e, b.state.lifecycle, quantity, cost, false)]))
  }

  /** Settle every event that is due by instant t. */
  function Sweep(s: Setup, b: Book, t: int): Result<Book, Failure>
    decreases |s.events| - b.cursor
  {
    if b.cursor < |s.events| && EventTime(s.events[b.cursor]) <= t then
      match SettleOne(s, b)
      case Err(error) => Err(error)
      case Ok(after) => Sweep(s, after, t)
    else Ok(b)
  }

  function MarkBook(s: Setup, n: nat, b: Book): Result<Book, Failure>
    requires n < |s.spot| == |s.perpetual| && Supported(s.spot[n].timeframe)
  {
    match MarkPortfolio(b.state, Availability(s.spot[n]), s.spot[n].close, s.perpetual[n].close)
    case Err(error) => Err(Hedge(error))
    case Ok(mark) => Ok(b.(marks := b.marks + [mark]))
  }

  /** The scripted intent whose decision instant is t. */
  function IntentAt(intents: seq<HedgeIntent>, n: nat, t: int): (r: Option<HedgeIntent>)
    requires n <= |intents|
    ensures r.Some? ==> exists i :: 0 <= i < n && intents[i].decisionTime == t && r.value == intents[i]
    ensures r.None? ==> forall i :: 0 <= i < n ==> intents[i].decisionTime != t
  {
    if n == 0 then None
    else if intents[n - 1].decisionTime == t then Some(intents[n - 1])
    else IntentAt(intents, n - 1, t)
  }

  function SpotLeg(s: Setup, n: nat, intent: HedgeIntent): LegExecution
    requires n < |s.spot|
  {
    LegExecution(s.pair.spot, if intent.action == OpenAction then Buy else Sell,
                 intent.quantity, s.spot[n].open, s.spot[n].openTime)
  }

  function PerpetualLeg(s: Setup, n: nat, intent: HedgeIntent): LegExecution
    requires n < |s.spot| == |s.perpetual|
  {
    LegExecution(s.pair.perpetual, if intent.action == OpenAction then Sell else Buy,
                 intent.quantity, s.perpetual[n].open, s.spot[n].openTime)
  }

  /** The paired fill of an intent at candle n's opens. */
  function FillPair(s: Setup, n: nat, intent: HedgeIntent, b: Book): Result<Book, Failure>
    requires n < |s.spot| == |s.perpetual| && intent.quantity > 0.0
    requires b.state.lifecycle == HedgedOpen ==> b.state.spot.entry.Some? && b.state.perpetual.entry.Some?
  {
    if s.spot[n].open <= 0.0 || s.perpetual[n].open <= 0.0 then Err(NonPositiveOpen)
    else
      var spot, perpetual := Some(SpotLeg(s, n, intent)), Some(PerpetualLeg(s, n, intent));
      var applied :=
        if intent.action == OpenAction then ApplyOpen(b.state, spot, perpetual, s.spotCosts, s.perpetualCosts)
        else ApplyClose(b.state, spot, perpetual, s.spotCosts, s.perpetualCosts);
      match applied
      case Err(error) => Err(Hedge(error))
      case Ok(after) => Ok(b.(state := after))
  }

  /** Candle n's intent, filled at the next opens; the last candle's intent is only reported. */
  ghost function DecideAndFill(s: Setup, n: nat, b: Book): Result<Book, Failure>
    requires ValidSetup(s) && n < |s.spot| && Reachable(b.state)
  {
    match IntentAt(s.intents, |s.intents|, Availability(s.spot[n]))
    case None => Ok(b)
    case Some(intent) =>
      if n + 1 == |s.spot| then Ok(b.(unexecuted := b.unexecuted + [intent]))
      else FillPair(s, n + 1, intent, b)
  }

  /** Funding due by the close, the pre-fill mark, then the intent. */
  ghost function Step(s: Setup, n: nat, b: Book): Result<Book, Failure>
    requires ValidSetup(s) && n < |s.spot| && Reachable(b.state)
  {
    match Sweep(s, b, Availability(s.spot[n]))
    case Err(error) => Err(error)
    case Ok(swept) =>
      match MarkBook(s, n, swept)
      case Err(error) => Err(error)
      case Ok(marked) =>
        SweepKeepsReachable(s, b, Availability(s.spot[n]));
        DecideAndFill(s, n, marked)
  }

  lemma {:induction false} SweepKeepsReachable(s: Setup, b: Book, t: int)
    requires Reachable(b.state)
    ensures Sweep(s, b, t).Ok? ==> Reachable(Sweep(s, b, t).value.state)
    decreases |s.events| - b.cursor
  {
    hide Reachable, ApplyFunding;
    if b.cursor < |s.events| && EventTime(s.events[b.cursor]) <= t && SettleOne(s, b).Ok? {
      FundingKeepsReachable(b.state, s.events[b.cursor], s.fundingModel);
      SweepKeepsReachable(s, SettleOne(s, b).value, t);
    }
  }

  lemma FillKeepsReachable(s: Setup, n: nat, intent: HedgeIntent, b: Book)
    requires n < |s.spot| == |s.perpetual| && intent.quantity > 0.0 && Reachable(b.state)
    ensures FillPair(s, n, intent, b).Ok? ==> Reachable(FillPair(s, n, intent, b).value.state)
  {
    if s.spot[n].open > 0.0 && s.perpetual[n].open > 0.0 {
      var spot, perpetual := Some(SpotLeg(s, n, intent)), Some(PerpetualLeg(s, n, intent));
      assert ValidLegs(spot, perpetual);
      OpenKeepsReachable(b.state, spot, perpetual, s.spotCosts, s.perpetualCosts);
      CloseKeepsReachable(b.state, spot, perpetual, s.spotCosts, s.perpetualCosts);
      hide Reachable, ApplyOpen, ApplyClose;
    }
  }

  lemma StepKeepsReachable(s: Setup, n: nat, b: Book)
    requires ValidSetup(s) && n < |s.spot| && Reachable(b.state)
    ensures Step(s, n, b).Ok? ==> Reachable(Step(s, n, b).value.state)
  {
    assert |s.spot| == |s.perpetual| && Uniform(s.spot) && LawfulScript(s.intents);
    assert Supported(s.spot[n].timeframe);
    assert forall i :: 0 <= i < |s.intents| ==> s.intents[i].quantity > 0.0;
    var t := Availability(s.spot[n]);
    SweepKeepsReachable(s, b, t);
    hide ValidSetup, Reachable, Sweep, FillPair, MarkPortfolio, Uniform, LawfulScript;
    var intent := IntentAt(s.intents, |s.intents|, t);
    if Step(s, n, b).Ok? && intent.Some? && n + 1 < |s.spot| {
      FillKeepsReachable(s, n + 1, intent.value, MarkBook(s, n, Sweep(s, b, t).value).value);
    }
  }

  lemma NewBookReachable(s: Setup)
    ensures Reachable(NewBook(s).state)
  {
  }

  function NewBook(s: Setup): Book {
    Book(State(s.pair, Flat, s.spotCash, s.collateral, SpotLedger(s.spotCash, 0.0, None, 0.0, 0.0),
               PerpetualLedger(s.collateral, 0.0, None, 0.0, 0.0, 0.0), [], [], None, FundingBeforeFill),
         0, [], [], [])
  }

  /** The run after n candles, or the first failure. */
  ghost function RunAt(s: Setup, n: nat): (r: Result<Book, Failure>)
    requires ValidSetup(s) && n <= |s.spot|
    ensures SoundOutcome(r)
  {
    if n == 0 then NewBookReachable(s); Ok(NewBook(s))
    else
      match RunAt(s, n - 1)
      case Err(error) => Err(error)
      case Ok(b) =>
        StepKeepsReachable(s, n - 1, b);
        Step(s, n - 1, b)
  }

  ghost predicate SoundOutcome(r: Result<Book, Failure>) {
    r.Ok? ==> Reachable(r.value.state)
  }

  // ----- the grid of instants

  function Clock(s: Setup, n: nat): int
    requires s.spot != [] && Uniform(s.spot)
  {
    s.spot[0].openTime + n * Duration(s.spot[0].timeframe)
  }

  lemma ClockOf(s: Setup, n: nat)
    requires n < |s.spot| && Uniform(s.spot)
    ensures s.spot[n].openTime == Clock(s, n)
    ensures Availability(s.spot[n]) == Clock(s, n + 1)
    ensures Clock(s, n) < Clock(s, n + 1)
  {
    OpenTimes(s.spot, n);
  }

  lemma {:induction false} ClockAscends(s: Setup, a: nat, b: nat)
    requires s.spot != [] && Uniform(s.spot) && a < b
    ensures Clock(s, a) < Clock(s, b)
  {
    if a + 1 < b {
      ClockAscends(s, a, b - 1);
    }
  }

  /** How many scripted decisions fall at or before t. */
  function Due(intents: seq<HedgeIntent>, t: int): (k: nat)
    ensures k <= 2 && k <= |intents|
  {
    if |intents| == 0 || intents[0].decisionTime > t then 0
    else if |intents| == 1 || intents[1].decisionTime > t then 1
    else 2
  }

  function Stage(k: nat): Lifecycle {
    if k == 0 then Flat else if k == 1 then HedgedOpen else FlatClosed
  }

  function ShortAt(s: Setup, k: nat): real
    requires k <= |s.intents|
  {
    if k == 1 then -s.intents[0].quantity else 0.0
  }

  /** Decisions fall on candle closes, so none lies strictly between two neighbouring instants. */
  lemma GridSeparates(s: Setup, n: nat, t: int)
    requires ValidSetup(s) && n < |s.spot|
    requires ((n == 0 && Clock(s, 0) <= t) || Clock(s, n) < t) && t <= Clock(s, n + 1)
    ensures Due(s.intents, t - 1) == Due(s.intents, Clock(s, n))
    ensures n == 0 ==> Due(s.intents, Clock(s, n)) == 0
  {
    forall i | 0 <= i < |s.intents|
      ensures s.intents[i].decisionTime <= t - 1 <==> s.intents[i].decisionTime <= Clock(s, n)
      ensures n == 0 ==> s.intents[i].decisionTime > Clock(s, n)
    {
      DecisionOnGrid(s, i, n);
    }
  }

  lemma DecisionOnGrid(s: Setup, i: nat, n: nat)
    requires ValidSetup(s) && i < |s.intents|
    ensures s.intents[i].decisionTime <= Clock(s, n) || s.intents[i].decisionTime >= Clock(s, n + 1)
    ensures n == 0 ==> s.intents[i].decisionTime >= Clock(s, n + 1)
  {
    assert OnAvailability(s.spot, s.intents[i].decisionTime);
    var m :| 0 <= m < |s.spot| && Availability(s.spot[m]) == s.intents[i].decisionTime;
    ClockOf(s, m);
    if m < n {
      if m + 1 < n {
        ClockAscends(s, m + 1, n);
      }
    } else if n < m {
      ClockAscends(s, n + 1, m + 1);
    }
  }

  // ----- what every run keeps

  /** The declarative rule for event j: charged on the position of the fills stamped strictly
      before its event time, a zero record when there is none. */
  function RecordOf(s: Setup, j: nat): FundingRecord
    requires j < |s.events|
  {
    var k := Due(s.intents, EventTime(s.events[j]) - 1);
    FundingRecord(s.events[j], Stage(k), ShortAt(s, k),
                  FundingCost(s.fundingModel, ShortAt(s, k), s.events[j]), k == 1)
  }

  function CostSum(records: seq<FundingRecord>, n: nat): real
    requires n <= |records|
  {
    if n == 0 then 0.0 else CostSum(records, n - 1) + records[n - 1].cost
  }

  lemma {:induction false} CostSumPrefix(records: seq<FundingRecord>, r: FundingRecord, n: nat)
    requires n <= |records|
    ensures CostSum(records + [r], n) == CostSum(records, n)
  {
    if n > 0 {
      CostSumPrefix(records, r, n - 1);
    }
  }

  ghost predicate RecordsHold(s: Setup, b: Book) {
    && |b.records| == b.cursor <= |s.events|
    && (forall j :: 0 <= j < b.cursor ==> b.records[j] == RecordOf(s, j))
    && b.state.perpetual.fundingPaid == CostSum(b.records, |b.records|)
  }

  /** Fill k executes intent k at the opens of the candle that follows its decision. */
  ghost predicate FilledAt(s: Setup, f: PairedFill, k: nat, i: nat)
    requires k < |s.intents| && i < |s.spot| == |s.perpetual|
  {
    var intent := s.intents[k];
    && f.action == intent.action
    && f.time == intent.decisionTime == s.spot[i].openTime
    && f.spot.execution == SpotLeg(s, i, intent)
    && f.perpetual.execution == PerpetualLeg(s, i, intent)
    && f.spot.cost == s.spotCosts(intent.quantity, s.spot[i].open)
    && f.perpetual.cost == s.perpetualCosts(intent.quantity, s.perpetual[i].open)
  }

  ghost predicate FillsFollow(s: Setup, fills: seq<PairedFill>)
    requires |s.spot| == |s.perpetual|
  {
    && |fills| <= |s.intents|
    && forall k :: 0 <= k < |fills| ==> exists i :: 0 < i < |s.spot| && FilledAt(s, fills[k], k, i)
  }

  ghost predicate Identity(s: Setup, x: State) {
    && x.pair == s.pair && x.ordering == FundingBeforeFill
    && x.initialSpotCash == s.spotCash && x.initialCollateral == s.collateral
  }

  ghost predicate Core(s: Setup, k: nat, b: Book)
    requires |s.spot| == |s.perpetual|
  {
    && k <= |s.intents|
    && Reachable(b.state) && Identity(s, b.state)
    && b.state.lifecycle == Stage(k)
    && b.state.perpetual.quantity == ShortAt(s, k)
    && RecordsHold(s, b)
    && FillsFollow(s, b.state.fills)
  }

  function Latest(x: State): EventKey
    requires |x.fills| <= 2 && x.fills != []
  {
    Chronology(x)[|Chronology(x)| - 1]
  }

  /** Everything recorded precedes everything still to come in candle n. */
  ghost predicate OrderFree(s: Setup, n: nat, b: Book)
    requires s.spot != [] && Uniform(s.spot)
  {
    && b.cursor <= |s.events|
    && (n > 0 ==> forall j :: b.cursor <= j < |s.events| ==> EventTime(s.events[j]) > Clock(s, n))
    && (b.state.lifecycle != Flat && 0 < |b.state.fills| <= 2 ==>
          || Latest(b.state).time <= Clock(s, n)
          || (&& b.state.lifecycle == HedgedOpen && b.cursor > 0 && EventTime(s.events[b.cursor - 1]) <= Clock(s, n + 1)
              && Latest(b.state) == FundingEventKey(CanonicalKey(s.events[b.cursor - 1]))))
  }

  lemma NewKeyIsUnrecorded(x: State, key: FundingKey)
    requires Reachable(x) && x.lifecycle == HedgedOpen && Precedes(Latest(x), FundingEventKey(key))
    ensures key !in x.fundingKeys
  {
    var c := Chronology(x);
    PrecedesTotal(Latest(x), FundingEventKey(key));
    forall i | 0 <= i < |x.fundingKeys|
      ensures x.fundingKeys[i] != key
    {
      assert c[i + 1] == FundingEventKey(x.fundingKeys[i]);
      LatestIsLast(c, i + 1);
    }
    hide Precedes, Chronology, Reachable;
  }

  /** Events still to come follow the whole recorded history. */
  lemma NextEventFollows(s: Setup, n: nat, b: Book)
    requires ValidSetup(s) && n < |s.spot| && Reachable(b.state) && OrderFree(s, n, b)
    requires b.state.lifecycle == HedgedOpen && n > 0 && b.cursor < |s.events|
    ensures Precedes(Latest(b.state), FundingEventKey(CanonicalKey(s.events[b.cursor])))
  {
    if Latest(b.state).time > Clock(s, n) {
      FundingStrictlyIncreasing(s.events, s.pair.perpetual.symbol, s.spot[0].openTime,
                                Availability(s.spot[|s.spot| - 1]), b.cursor - 1, b.cursor);
    }
  }

  ghost predicate SettledInto(s: Setup, b: Book, after: Book) {
    && b.cursor < |s.events|
    && after.cursor == b.cursor + 1 && after.marks == b.marks && after.unexecuted == b.unexecuted
    && after.state.fills == b.state.fills && after.state.lifecycle == b.state.lifecycle
    && after.records == b.records + [RecordOf(s, b.cursor)]
  }

  /** One due event: no ordering, lifecycle, identity or collateral check can refuse it, and the
      record it leaves is the declarative one. */
  lemma SettleOneHolds(s: Setup, n: nat, b: Book)
    requires ValidSetup(s) && n < |s.spot| && Core(s, Due(s.intents, Clock(s, n)), b) && OrderFree(s, n, b)
    requires b.cursor < |s.events| && EventTime(s.events[b.cursor]) <= Clock(s, n + 1)
    ensures SettleOne(s, b).Ok? <==> RecordOf(s, b.cursor).applied || RecordOf(s, b.cursor).cost == 0.0
    ensures SettleOne(s, b).Err? ==> SettleOne(s, b).error == FlatFundingNotZero
    ensures SettleOne(s, b).Ok? ==>
              var after := SettleOne(s, b).value;
              && Core(s, Due(s.intents, Clock(s, n)), after) && OrderFree(s, n, after)
              && SettledInto(s, b, after)
  {
    var e, k := s.events[b.cursor], Due(s.intents, Clock(s, n));
    assert EventTime(e) >= Clock(s, 0);
    GridSeparates(s, n, EventTime(e));
    if b.state.lifecycle == HedgedOpen {
      SettleOpenPosition(s, n, b);
      hide Core, OrderFree, SettleOne, Clock, Due, ValidSetup, SettledInto;
    } else {
      SettleFlatPosition(s, n, b);
      hide Core, OrderFree, SettleOne, Clock, Due, ValidSetup, SettledInto;
    }
  }

  lemma SettleFlatPosition(s: Setup, n: nat, b: Book)
    requires ValidSetup(s) && n < |s.spot| && OrderFree(s, n, b)
    requires Core(s, Due(s.intents, Clock(s, n)), b) && b.state.lifecycle != HedgedOpen
    requires b.cursor < |s.events|
    requires Due(s.intents, EventTime(s.events[b.cursor]) - 1) == Due(s.intents, Clock(s, n))
    ensures !RecordOf(s, b.cursor).applied
    ensures SettleOne(s, b).Ok? <==> RecordOf(s, b.cursor).cost == 0.0
    ensures SettleOne(s, b).Err? ==> SettleOne(s, b).error == FlatFundingNotZero
    ensures SettleOne(s, b).Ok? ==>
              var after := SettleOne(s, b).value;
              && Core(s, Due(s.intents, Clock(s, n)), after) && OrderFree(s, n, after)
              && SettledInto(s, b, after)
  {
    assert |s.spot| == |s.perpetual| && Uniform(s.spot);
    assert Reachable(b.state);
    var k := Due(s.intents, Clock(s, n));
    var after := b.(cursor := b.cursor + 1, records := b.records + [RecordOf(s, b.cursor)]);
    RecordDescribes(s, k, b);
    assert SettleOne(s, b) == if RecordOf(s, b.cursor).cost == 0.0 then Ok(after) else Err(FlatFundingNotZero);
    if RecordOf(s, b.cursor).cost == 0.0 {
      UnfundedCore(s, k, b);
      OrderAfter(s, n, b, after);
    }
  }

  lemma UnfundedCore(s: Setup, k: nat, b: Book)
    requires |s.spot| == |s.perpetual| && Core(s, k, b) && b.cursor < |s.events|
    requires RecordOf(s, b.cursor).cost == 0.0
    ensures var after := b.(cursor := b.cursor + 1, records := b.records + [RecordOf(s, b.cursor)]);
            Core(s, k, after) && SettledInto(s, b, after)
  {
    var after := b.(cursor := b.cursor + 1, records := b.records + [RecordOf(s, b.cursor)]);
    hide Reachable, FillsFollow, RecordsHold, RecordOf, ShortAt;
    AppendRecord(s, b, after);
  }

  lemma AppendRecord(s: Setup, b: Book, after: Book)
    requires RecordsHold(s, b) && SettledInto(s, b, after)
    requires after.state.perpetual.fundingPaid == b.state.perpetual.fundingPaid + RecordOf(s, b.cursor).cost
    ensures RecordsHold(s, after)
  {
    CostSumPrefix(b.records, RecordOf(s, b.cursor), |b.records|);
    hide RecordOf;
  }

  lemma OrderAfter(s: Setup, n: nat, b: Book, after: Book)
    requires s.spot != [] && Uniform(s.spot) && OrderFree(s, n, b) && SettledInto(s, b, after)
    requires Reachable(b.state)
    requires b.state.lifecycle != HedgedOpen ==> after.state == b.state
    requires b.state.lifecycle == HedgedOpen ==>
               && Reachable(after.state) && EventTime(s.events[b.cursor]) <= Clock(s, n + 1)
               && Latest(after.state) == FundingEventKey(CanonicalKey(s.events[b.cursor]))
    ensures OrderFree(s, n, after)
  {
    hide LedgersHold, FillsDescribe, Increasing, Uniform, Clock, Latest, RecordOf;
  }

  lemma FundedLatest(x: State, e: HistoricalFundingEvent, cost: real)
    requires Reachable(x) && x.lifecycle == HedgedOpen
    ensures |FundedState(x, e, cost).fills| == 1
    ensures Latest(FundedState(x, e, cost)) == FundingEventKey(CanonicalKey(e))
  {
    hide LedgersHold, FillsDescribe, Increasing;
  }

  /** The accounting accepts the event: it follows the whole recorded history. */
  lemma FundingAccepted(s: Setup, n: nat, b: Book)
    requires ValidSetup(s) && 0 < n < |s.spot| && OrderFree(s, n, b)
    requires Core(s, Due(s.intents, Clock(s, n)), b) && b.state.lifecycle == HedgedOpen && b.cursor < |s.events|
    ensures var e := s.events[b.cursor];
            var after := FundedState(b.state, e, FundingCost(s.fundingModel, b.state.perpetual.quantity, e));
            Reachable(after) && ApplyFunding(b.state, e, s.fundingModel) == Outcomes.Ok(after)
  {
    var e := s.events[b.cursor];
    NextEventFollows(s, n, b);
    NewKeyIsUnrecorded(b.state, CanonicalKey(e));
    OrderErrorMeaning(b.state, FundingEventKey(CanonicalKey(e)));
    FundingKeepsReachable(b.state, e, s.fundingModel);
    assert ForPair(s.pair, e) && b.state.pair == s.pair && b.state.ordering == FundingBeforeFill;
    hide ValidSetup, OrderFree, Core, Reachable, ApplyFunding, OrderError, Precedes, Due, Clock, FundingCost;
  }

  lemma SettleOpenPosition(s: Setup, n: nat, b: Book)
    requires ValidSetup(s) && 0 < n < |s.spot| && OrderFree(s, n, b)
    requires Core(s, Due(s.intents, Clock(s, n)), b) && b.state.lifecycle == HedgedOpen
    requires b.cursor < |s.events| && EventTime(s.events[b.cursor]) <= Clock(s, n + 1)
    requires Due(s.intents, EventTime(s.events[b.cursor]) - 1) == Due(s.intents, Clock(s, n))
    ensures RecordOf(s, b.cursor).applied && SettleOne(s, b).Ok?
    ensures var after := SettleOne(s, b).value;
            && Core(s, Due(s.intents, Clock(s, n)), after) && OrderFree(s, n, after)
            && SettledInto(s, b, after)
  {
    hide ApplyFunding, Chronology;
    assert |s.spot| == |s.perpetual| && Uniform(s.spot);
    assert Reachable(b.state);
    var k := Due(s.intents, Clock(s, n));
    var e := s.events[b.cursor];
    var cost := FundingCost(s.fundingModel, b.state.perpetual.quantity, e);
    var x := FundedState(b.state, e, cost);
    var after := b.(state := x, cursor := b.cursor + 1, records := b.records + [RecordOf(s, b.cursor)]);
    FundingAccepted(s, n, b);
    RecordDescribes(s, k, b);
    FundedLatest(b.state, e, cost);
    assert SettleOne(s, b) == Outcomes.Ok(after);
    FundedCore(s, k, b, cost);
    OrderAfter(s, n, b, after);
  }

  /** The record a settlement leaves is the declarative one. */
  lemma RecordDescribes(s: Setup, k: nat, b: Book)
    requires |s.spot| == |s.perpetual| && Core(s, k, b) && b.cursor < |s.events| && k <= 2
    requires k == Due(s.intents, EventTime(s.events[b.cursor]) - 1)
    ensures var e, quantity := s.events[b.cursor], b.state.perpetual.quantity;
            RecordOf(s, b.cursor)
            == FundingRecord(e, b.state.lifecycle, quantity, FundingCost(s.fundingModel, quantity, e),
                             b.state.lifecycle == HedgedOpen)
  {
    hide Reachable, FillsFollow, RecordsHold, Identity, FundingCost, ShortAt;
  }

  lemma FundedCore(s: Setup, k: nat, b: Book, cost: real)
    requires |s.spot| == |s.perpetual| && Core(s, k, b) && b.cursor < |s.events|
    requires cost == RecordOf(s, b.cursor).cost
    requires Reachable(FundedState(b.state, s.events[b.cursor], cost))
    ensures var after := b.(state := FundedState(b.state, s.events[b.cursor], cost),
                            cursor := b.cursor + 1, records := b.records + [RecordOf(s, b.cursor)]);
            Core(s, k, after) && SettledInto(s, b, after)
  {
    var after := b.(state := FundedState(b.state, s.events[b.cursor], cost),
                    cursor := b.cursor + 1, records := b.records + [RecordOf(s, b.cursor)]);
    hide Reachable, FillsFollow, RecordsHold, RecordOf, ShortAt;
    AppendRecord(s, b, after);
  }

  /** A whole sweep fails only on a flat-funding charge, and otherwise consumes exactly what is due. */
  lemma {:induction false} SweepHolds(s: Setup, n: nat, b: Book)
    requires ValidSetup(s) && n < |s.spot| && Core(s, Due(s.intents, Clock(s, n)), b) && OrderFree(s, n, b)
    ensures var r := Sweep(s, b, Clock(s, n + 1));
            && (r.Err? ==> r.error == FlatFundingNotZero)
            && (r.Ok? <==> forall j :: b.cursor <= j < |s.events| && EventTime(s.events[j]) <= Clock(s, n + 1)
                             ==> RecordOf(s, j).applied || RecordOf(s, j).cost == 0.0)
            && (r.Ok? ==>
                  && Core(s, Due(s.intents, Clock(s, n)), r.value) && OrderFree(s, n, r.value)
                  && r.value.marks == b.marks && r.value.unexecuted == b.unexecuted
                  && r.value.state.fills == b.state.fills
                  && b.cursor <= r.value.cursor <= |s.events|
                  && (forall j :: b.cursor <= j < r.value.cursor ==> EventTime(s.events[j]) <= Clock(s, n + 1))
                  && (forall j :: r.value.cursor <= j < |s.events| ==> EventTime(s.events[j]) > Clock(s, n + 1)))
    decreases |s.events| - b.cursor
  {
    hide Core, SettleOne, Clock, Due, RecordOf;
    assert b.cursor <= |s.events|;
    if b.cursor < |s.events| && EventTime(s.events[b.cursor]) <= Clock(s, n + 1) {
      SettleOneHolds(s, n, b);
      if SettleOne(s, b).Ok? {
        SweepHolds(s, n, SettleOne(s, b).value);
      }
      hide ValidSetup;
    } else {
      forall j | b.cursor <= j < |s.events|
        ensures EventTime(s.events[j]) > Clock(s, n + 1)
      {
        LaterEvents(s, b.cursor, j);
      }
      hide ValidSetup;
    }
  }

  lemma LaterEvents(s: Setup, i: nat, j: nat)
    requires ValidSetup(s) && i <= j < |s.events|
    ensures EventTime(s.events[i]) <= EventTime(s.events[j])
  {
    if i < j {
      FundingStrictlyIncreasing(s.events, s.pair.perpetual.symbol, s.spot[0].openTime,
                                Availability(s.spot[|s.spot| - 1]), i, j);
    }
  }
}
