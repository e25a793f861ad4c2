/** Candles, funding events and the input validation shared by the single-leg and the
    multi-leg replay.  Instants are integer microseconds, prices and rates exact reals. */
module Market {
  import opened Outcomes
  import opened TextOrder

  datatype Timeframe = OneHour | FourHours | Unsupported(name: string)

  predicate Supported(t: Timeframe) {
    !t.Unsupported?
  }

  /** Only the two supported timeframes have a duration. */
  function Duration(t: Timeframe): (d: int)
    requires Supported(t)
    ensures d > 0 && d == (if t.OneHour? then 1 else 4) * 60 * 60 * 1000 * 1000
  {
    if t.OneHour? then 3_600_000_000 else 14_400_000_000
  }

  datatype Candle = Candle(
    symbol: string, timeframe: Timeframe, openTime: int,
    open: real, high: real, low: real, close: real, volume: real)

  /** The first instant at which any field of the candle may be used. */
  function Availability(c: Candle): int
    requires Supported(c.timeframe)
  {
    c.openTime + Duration(c.timeframe)
  }

  datatype FundingEvent = FundingEvent(eventTime: int, rate: real, referencePrice: real, rateType: string)

  datatype HistoricalFundingEvent =
    HistoricalFundingEvent(exchange: string, marketType: string, symbol: string, funding: FundingEvent)

  datatype FundingKey =
    FundingKey(exchange: string, marketType: string, symbol: string, eventTime: int, rateType: string)

  function CanonicalKey(e: HistoricalFundingEvent): FundingKey {
    FundingKey(e.exchange, e.marketType, e.symbol, e.funding.eventTime, e.funding.rateType)
  }

  function EventTime(e: HistoricalFundingEvent): int {
    e.funding.eventTime
  }

  /** The provenance bound to one candle namespace. */
  datatype CandleDataset = CandleDataset(
    exchange: string, marketType: string, symbol: string, timeframe: Timeframe, priceKind: string, source: string)

  // ----- candle datasets

  datatype DatasetError =
    | EmptyDataset
    | MixedSymbol
    | MixedTimeframe
    | NotAscending
    | UnsupportedTimeframe
    | NotYetAvailable
    | NotContiguous

  ghost predicate ValidDataset(candles: seq<Candle>, asOf: int) {
    && candles != []
    && Uniform(candles)
    && (forall i :: 0 <= i < |candles| ==> Availability(candles[i]) <= asOf)
  }

  /** One symbol, one supported timeframe, and every candle opens when the previous one closes. */
  ghost predicate Uniform(candles: seq<Candle>) {
    UniformPrefix(candles, |candles|)
  }

  ghost predicate UniformPrefix(candles: seq<Candle>, n: nat)
    requires n <= |candles|
  {
    && (forall i :: 0 <= i < n ==>
          && candles[i].symbol == candles[0].symbol
          && candles[i].timeframe == candles[0].timeframe
          && Supported(candles[i].timeframe))
    && (forall i {:trigger Adjoins(candles, i)} :: 0 < i < n ==> Adjoins(candles, i))
  }

  ghost predicate Adjoins(candles: seq<Candle>, i: int)
    requires 0 < i < |candles|
  {
    Supported(candles[i - 1].timeframe) && Availability(candles[i - 1]) == candles[i].openTime
  }

  method ValidateDataset(candles: seq<Candle>, asOf: int) returns (r: Option<DatasetError>)
    ensures r.None? <==> ValidDataset(candles, asOf)
  {
    if candles == [] {
      return Some(EmptyDataset);
    }
    var previousOpen: Option<int> := None;
    var previousAvailability: Option<int> := None;
    for i := 0 to |candles|
      invariant previousOpen.None? <==> i == 0
      invariant previousAvailability.None? <==> i == 0
      invariant UniformPrefix(candles, i)
      invariant forall j :: 0 <= j < i ==> Availability(candles[j]) <= asOf
      invariant i > 0 ==> previousOpen.value == candles[i - 1].openTime
      invariant i > 0 ==> previousAvailability.value == Availability(candles[i - 1])
    {
      var candle := candles[i];
      if candle.symbol != candles[0].symbol {
        return Some(MixedSymbol);
      }
      if candle.timeframe != candles[0].timeframe {
        return Some(MixedTimeframe);
      }
      if previousOpen.Some? && candle.openTime <= previousOpen.value {
        assert Uniform(candles) ==> Adjoins(candles, i);
        return Some(NotAscending);
      }
      if !Supported(candle.timeframe) {
        return Some(UnsupportedTimeframe);
      }
      var availability := Availability(candle);
      if availability > asOf {
        return Some(NotYetAvailable);
      }
      if previousAvailability.Some? && previousAvailability.value != candle.openTime {
        assert Uniform(candles) ==> Adjoins(candles, i);
        return Some(NotContiguous);
      }
      previousOpen, previousAvailability := Some(candle.openTime), Some(availability);
    }
    return None;
  }

  /** Candle i of a contiguous dataset opens i durations after the first. */
  lemma {:induction false} OpenTimes(candles: seq<Candle>, i: nat)
    requires Uniform(candles) && i < |candles|
    ensures candles[i].openTime == candles[0].openTime + i * Duration(candles[0].timeframe)
  {
    if i > 0 {
      OpenTimes(candles, i - 1);
      assert Adjoins(candles, i);
    }
  }

  lemma OpensAscend(candles: seq<Candle>, i: nat, j: nat)
    requires Uniform(candles) && i < j < |candles|
    ensures Availability(candles[i]) <= candles[j].openTime
    ensures candles[i].openTime < candles[j].openTime
  {
    OpenTimes(candles, i);
    OpenTimes(candles, j);
    var d := Duration(candles[0].timeframe);
    assert j * d >= (i + 1) * d;
  }

  // ----- funding events

  datatype FundingError =
    | ForeignSymbol
    | MixedPartition
    | OutOfRange
    | Unordered
    | DuplicateKey

  predicate KeyLess(a: HistoricalFundingEvent, b: HistoricalFundingEvent) {
    || a.funding.eventTime < b.funding.eventTime
    || (a.funding.eventTime == b.funding.eventTime && TextLess(a.funding.rateType, b.funding.rateType))
  }

  /** What the validation loop accepts: one partition, inside the run, (time, rate type)
      non-decreasing and no canonical key twice. */
  ghost predicate ValidFunding(events: seq<HistoricalFundingEvent>, symbol: string, start: int, end: int) {
    ValidFundingPrefix(events, symbol, start, end, |events|)
  }

  ghost predicate ValidFundingPrefix(
    events: seq<HistoricalFundingEvent>, symbol: string, start: int, end: int, n: nat)
    requires n <= |events|
  {
    && (forall i :: 0 <= i < n ==> InRun(events[0], events[i], symbol, start, end))
    && (forall i {:trigger InOrder(events, i)} :: 0 < i < n ==> InOrder(events, i))
    && KeysDistinct(events, n)
  }

  /** The event belongs to the run's partition and range. */
  predicate InRun(first: HistoricalFundingEvent, e: HistoricalFundingEvent, symbol: string, start: int, end: int) {
    && e.symbol == symbol && e.exchange == first.exchange && e.marketType == first.marketType
    && start <= EventTime(e) < end
  }

  ghost predicate KeysDistinct(events: seq<HistoricalFundingEvent>, n: nat)
    requires n <= |events|
  {
    forall i, j :: 0 <= i < j < n ==> CanonicalKey(events[i]) != CanonicalKey(events[j])
  }

  ghost predicate InOrder(events: seq<HistoricalFundingEvent>, i: int)
    requires 0 < i < |events|
  {
    !KeyLess(events[i], events[i - 1])
  }

  method ValidateFundingEvents(events: seq<HistoricalFundingEvent>, symbol: string, start: int, end: int)
    returns (r: Option<FundingError>)
    ensures r.None? <==> ValidFunding(events, symbol, start, end)
  {
    hide CanonicalKey;
    assert ValidFundingPrefix(events, symbol, start, end, 0);
    assert ValidFunding(events, symbol, start, end) == ValidFundingPrefix(events, symbol, start, end, |events|);
    if events == [] {
      return None;
    }
    var first := events[0];
    if first.symbol != symbol {
      assert !ValidFunding(events, symbol, start, end);
      return Some(ForeignSymbol);
    }
    var seen: set<FundingKey> := {};
    var previous: Option<HistoricalFundingEvent> := None;
    assert KeysSeen(events, 0, seen);
    for i := 0 to |events|
      invariant previous == if i == 0 then None else Some(events[i - 1])
      invariant ValidFundingPrefix(events, symbol, start, end, i)
      invariant KeysSeen(events, i, seen)
    {
      var event := events[i];
      var key := CanonicalKey(event);
      OneMoreEvent(events, symbol, start, end, i, seen);
      if event.exchange != first.exchange || event.marketType != first.marketType || event.symbol != symbol {
        return Some(MixedPartition);
      }
      if !(start <= EventTime(event) < end) {
        return Some(OutOfRange);
      }
      if previous.Some? && KeyLess(event, previous.value) {
        return Some(Unordered);
      }
      previous := Some(event);
      if key in seen {
        return Some(DuplicateKey);
      }
      seen := seen + {key};
    }
    return None;
  }

  ghost predicate KeysSeen(events: seq<HistoricalFundingEvent>, n: nat, seen: set<FundingKey>)
    requires n <= |events|
  {
    && (forall j :: 0 <= j < n ==> CanonicalKey(events[j]) in seen)
    && (forall k :: k in seen ==> exists j :: 0 <= j < n && CanonicalKey(events[j]) == k)
  }

  /** The loop's tests decide whether the prefix stays valid, and a bad event spoils the whole. */
  lemma OneMoreEvent(events: seq<HistoricalFundingEvent>, symbol: string, start: int, end: int, i: nat, seen: set<FundingKey>)
    requires i < |events| && ValidFundingPrefix(events, symbol, start, end, i) && KeysSeen(events, i, seen)
    ensures var e := events[i];
            var good := && InRun(events[0], e, symbol, start, end)
                        && !(i > 0 && KeyLess(e, events[i - 1])) && CanonicalKey(e) !in seen;
            && (ValidFundingPrefix(events, symbol, start, end, i + 1) <==> good)
            && (!good ==> !ValidFundingPrefix(events, symbol, start, end, |events|))
    ensures KeysSeen(events, i + 1, seen + {CanonicalKey(events[i])})
  {
    assert i > 0 ==> (InOrder(events, i) <==> !KeyLess(events[i], events[i - 1]));
    KeyIsNew(events, i, seen);
    if KeysDistinct(events, |events|) {
    }
  }

  lemma KeyIsNew(events: seq<HistoricalFundingEvent>, i: nat, seen: set<FundingKey>)
    requires i < |events| && KeysSeen(events, i, seen)
    ensures KeysDistinct(events, i) ==> (KeysDistinct(events, i + 1) <==> CanonicalKey(events[i]) !in seen)
    ensures KeysDistinct(events, |events|) ==> KeysDistinct(events, i + 1)
    ensures KeysSeen(events, i + 1, seen + {CanonicalKey(events[i])})
  {
    hide CanonicalKey;
  }

  lemma KeyLessTransitive(a: HistoricalFundingEvent, b: HistoricalFundingEvent, c: HistoricalFundingEvent)
    requires KeyLess(a, b) && KeyLess(b, c)
    ensures KeyLess(a, c)
  {
    if EventTime(a) == EventTime(b) == EventTime(c) {
      TextLessTransitive(a.funding.rateType, b.funding.rateType, c.funding.rateType);
    }
  }

  /** Accepted events are strictly increasing in (time, rate type). */
  lemma {:induction false} FundingStrictlyIncreasing(
    events: seq<HistoricalFundingEvent>, symbol: string, start: int, end: int, i: nat, j: nat)
    requires ValidFunding(events, symbol, start, end) && i < j < |events|
    ensures KeyLess(events[i], events[j])
  {
    var a, b := events[j - 1], events[j];
    assert InOrder(events, j) && CanonicalKey(a) != CanonicalKey(b);
    TextLessTotal(a.funding.rateType, b.funding.rateType);
    assert KeyLess(a, b);
    if i < j - 1 {
      FundingStrictlyIncreasing(events, symbol, start, end, i, j - 1);
      KeyLessTransitive(events[i], a, b);
    }
  }

  /** The locked linear funding formula. */
  function LinearFunding(quantity: real, referencePrice: real, rate: real): real {
    quantity * referencePrice * rate
  }

  /** The charge is linear in the position, the price and the rate, and one for units; this fixes it. */
  lemma FundingIsLinear(q: real, p: real, f: real, k: real, x: real)
    ensures LinearFunding(k * q + x, p, f) == k * LinearFunding(q, p, f) + LinearFunding(x, p, f)
    ensures LinearFunding(q, k * p + x, f) == k * LinearFunding(q, p, f) + LinearFunding(q, x, f)
    ensures LinearFunding(q, p, k * f + x) == k * LinearFunding(q, p, f) + LinearFunding(q, p, x)
    ensures LinearFunding(1.0, 1.0, 1.0) == 1.0
  {
    calc {
      LinearFunding(k * q + x, p, f);
      ((k * q) * p + x * p) * f;
      k * (q * p * f) + x * p * f;
    }
    calc {
      LinearFunding(q, k * p + x, f);
      (k * (q * p) + q * x) * f;
      k * (q * p * f) + q * x * f;
    }
    calc {
      LinearFunding(q, p, k * f + x);
      q * p * (k * f) + q * p * x;
      k * (q * p * f) + q * p * x;
    }
  }
}
