/** The settled funding history readable only up to a knowledge cutoff, and the funding-carry
    decision rule shared by the policy and the diagnostics. */
module FundingSignal {
  import opened Outcomes
  import opened Market
  import opened Accounting
  import opened ProductFacts

  datatype History = History(
    coverageStart: int, coverageEnd: int, publicationLag: nat,
    events: seq<FundingEvent>, eventTimes: seq<int>)

  datatype HistoryError = EmptyCoverage | NegativeLag | OutsideCoverage | NotStrictlyAscending

  ghost predicate ValidHistory(h: History) {
    && h.coverageStart < h.coverageEnd
    && |h.eventTimes| == |h.events|
    && (forall i :: 0 <= i < |h.events| ==> h.eventTimes[i] == h.events[i].eventTime)
    && (forall i :: 0 <= i < |h.events| ==> h.coverageStart <= h.eventTimes[i] < h.coverageEnd)
    && (forall i, j :: 0 <= i < j < |h.events| ==> h.eventTimes[i] < h.eventTimes[j])
  }

  ghost predicate AcceptableEvents(events: seq<FundingEvent>, start: int, end: int) {
    && (forall i :: 0 <= i < |events| ==> start <= events[i].eventTime < end)
    && (forall i, j :: 0 <= i < j < |events| ==> events[i].eventTime < events[j].eventTime)
  }

  method NewHistory(start: int, end: int, lag: int, events: seq<FundingEvent>)
    returns (r: Result<History, HistoryError>)
    ensures r.Ok? <==> start < end && lag >= 0 && AcceptableEvents(events, start, end)
    ensures r.Ok? ==>
              && ValidHistory(r.value)
              && r.value.coverageStart == start && r.value.coverageEnd == end
              && r.value.publicationLag == lag && r.value.events == events
  {
    if start >= end {
      return Err(EmptyCoverage);
    }
    if lag < 0 {
      return Err(NegativeLag);
    }
    var times: seq<int> := [];
    for i := 0 to |events|
      invariant |times| == i
      invariant forall k :: 0 <= k < i ==> times[k] == events[k].eventTime && start <= times[k] < end
      invariant forall j, k :: 0 <= j < k < i ==> times[j] < times[k]
    {
      var t := events[i].eventTime;
      if !(start <= t < end) {
        return Err(OutsideCoverage);
      }
      if times != [] && t <= times[|times| - 1] {
        assert events[i - 1].eventTime >= events[i].eventTime;
        return Err(NotStrictlyAscending);
      }
      times := times + [t];
    }
    return Ok(History(start, end, lag, events, times));
  }

  /** Python's bisect_right on an ascending sequence: how many entries are at most x. */
  function BisectRight(times: seq<int>, x: int, n: nat): (p: nat)
    requires n <= |times|
    ensures p <= n
    ensures p > 0 ==> times[p - 1] <= x
    ensures forall k :: p <= k < n ==> times[k] > x
  {
    if n == 0 then 0 else if times[n - 1] <= x then n else BisectRight(times, x, n - 1)
  }

  datatype CutoffError = BeforeCoverage | NotBeforeCoverageEnd

  function Cutoff(h: History, asOf: int): int {
    asOf - h.publicationLag
  }

  predicate Knowable(h: History, asOf: int) {
    h.coverageStart <= Cutoff(h, asOf) < h.coverageEnd
  }

  function LatestSettledAt(h: History, asOf: int): (r: Result<Option<FundingEvent>, CutoffError>)
    requires |h.eventTimes| == |h.events|
    ensures r.Ok? <==> Knowable(h, asOf)
  {
    var cutoff := Cutoff(h, asOf);
    if cutoff < h.coverageStart then Err(BeforeCoverage)
    else if cutoff >= h.coverageEnd then Err(NotBeforeCoverageEnd)
    else
      var position := BisectRight(h.eventTimes, cutoff, |h.eventTimes|);
      Ok(if position > 0 then Some(h.events[position - 1]) else None)
  }

  ghost predicate Settled(h: History, e: FundingEvent, asOf: int) {
    e.eventTime + h.publicationLag <= asOf
  }

  /** The event read is the last one settled by the decision instant; none is read exactly when
      none is settled. */
  lemma LatestSettledMeaning(h: History, asOf: int)
    requires ValidHistory(h) && Knowable(h, asOf)
    ensures match LatestSettledAt(h, asOf).value
            case None => forall i :: 0 <= i < |h.events| ==> !Settled(h, h.events[i], asOf)
            case Some(e) =>
              && e in h.events && Settled(h, e, asOf)
              && forall i :: 0 <= i < |h.events| && Settled(h, h.events[i], asOf) ==> h.events[i].eventTime <= e.eventTime
  {
    var cutoff := Cutoff(h, asOf);
    var p := BisectRight(h.eventTimes, cutoff, |h.eventTimes|);
    forall i | 0 <= i < |h.events|
      ensures Settled(h, h.events[i], asOf) <==> i < p
    {
      assert h.eventTimes[i] == h.events[i].eventTime;
      assert p > 0 && i + 1 < p ==> h.eventTimes[i] < h.eventTimes[p - 1];
    }
  }

  // ----- the decision rule

  datatype Reason = NoSettledSignal | StaleSignal | NeutralBand | ShortThresholdMet | LongThresholdMet | AlwaysFlat

  datatype Decision = Decision(target: Target, reason: Reason, event: Option<FundingEvent>)

  datatype CarryRule = CarryRule(shortEntryRate: real, longEntryRate: real, maxFundingAge: int)

  function DecideOn(event: Option<FundingEvent>, asOf: int, rule: CarryRule): Decision {
    match event
    case None => Decision(Flat, NoSettledSignal, None)
    case Some(e) =>
      if asOf - e.eventTime > rule.maxFundingAge then Decision(Flat, StaleSignal, event)
      else if e.rate >= rule.shortEntryRate then Decision(Short, ShortThresholdMet, event)
      else if e.rate <= rule.longEntryRate then Decision(Long, LongThresholdMet, event)
      else Decision(Flat, NeutralBand, event)
  }

  function DecideFundingCarry(h: History, asOf: int, rule: CarryRule): (r: Result<Decision, CutoffError>)
    requires |h.eventTimes| == |h.events|
    ensures r.Ok? <==> h.coverageStart <= asOf - h.publicationLag < h.coverageEnd
  {
    match LatestSettledAt(h, asOf)
    case Err(e) => Err(e)
    case Ok(event) => Ok(DecideOn(event, asOf, rule))
  }

  /** The event is the last one settled by the decision instant. */
  ghost predicate LastSettled(h: History, e: FundingEvent, asOf: int) {
    && e in h.events
    && Settled(h, e, asOf)
    && forall i :: 0 <= i < |h.events| && Settled(h, h.events[i], asOf) ==> h.events[i].eventTime <= e.eventTime
  }

  /** The last settled event exists and is recent enough to be acted on. */
  ghost predicate FreshSignal(h: History, e: FundingEvent, asOf: int, rule: CarryRule) {
    LastSettled(h, e, asOf) && asOf - e.eventTime <= rule.maxFundingAge
  }

  /** What the rule decides, from the events of the history alone: short exactly on a fresh last event at
      or above the short threshold, long exactly on a fresh one below it and at or below the long
      threshold; the reason names the case, and the event is the last settled one. */
  lemma CarryDecisionMeaning(h: History, asOf: int, rule: CarryRule)
    requires ValidHistory(h) && Knowable(h, asOf)
    ensures var d := DecideFundingCarry(h, asOf, rule).value;
            && (d.event.None? <==> forall i :: 0 <= i < |h.events| ==> !Settled(h, h.events[i], asOf))
            && (d.event.Some? ==> LastSettled(h, d.event.value, asOf))
            && (d.target == Short <==>
                  exists e :: FreshSignal(h, e, asOf, rule) && e.rate >= rule.shortEntryRate)
            && (d.target == Long <==>
                  exists e :: FreshSignal(h, e, asOf, rule) && e.rate < rule.shortEntryRate && e.rate <= rule.longEntryRate)
            && (d.reason == ShortThresholdMet <==> d.target == Short)
            && (d.reason == LongThresholdMet <==> d.target == Long)
            && (d.reason == NoSettledSignal <==> forall i :: 0 <= i < |h.events| ==> !Settled(h, h.events[i], asOf))
            && (d.reason == StaleSignal <==>
                  exists e :: LastSettled(h, e, asOf) && asOf - e.eventTime > rule.maxFundingAge)
            && (d.reason == NeutralBand <==>
                  exists e :: FreshSignal(h, e, asOf, rule) && rule.longEntryRate < e.rate < rule.shortEntryRate)
  {
    LatestSettledMeaning(h, asOf);
    var event := LatestSettledAt(h, asOf).value;
    if event.Some? {
      assert LastSettled(h, event.value, asOf);
      forall e | LastSettled(h, e, asOf)
        ensures e == event.value
      {
        LastSettledIsUnique(h, e, event.value, asOf);
      }
    } else {
      forall e
        ensures !LastSettled(h, e, asOf)
      {
        if e in h.events {
          var i :| 0 <= i < |h.events| && h.events[i] == e;
        }
      }
    }
    hide LatestSettledAt, LastSettled, ValidHistory, Settled;
  }

  lemma LastSettledIsUnique(h: History, a: FundingEvent, b: FundingEvent, asOf: int)
    requires ValidHistory(h) && LastSettled(h, a, asOf) && LastSettled(h, b, asOf)
    ensures a == b
  {
    var i :| 0 <= i < |h.events| && h.events[i] == a;
    var j :| 0 <= j < |h.events| && h.events[j] == b;
    assert h.eventTimes[i] == h.eventTimes[j];
    assert i == j;
  }

  /** Whatever the history, the decided position never pays the funding of the event it acts on. */
  ghost predicate NeverPays(rule: CarryRule) {
    forall h: History, asOf: int, quantity: real, price: real ::
      ValidHistory(h) && Knowable(h, asOf) && quantity > 0.0 && price > 0.0 ==>
        var d := DecideFundingCarry(h, asOf, rule).value;
        d.event.Some? ==>
          LinearFunding(TargetQuantity(d.target, quantity), price, d.event.value.rate) <= 0.0
  }

  /** The rule never pays exactly when its thresholds lie on either side of zero. */
  lemma NeverPaysIff(rule: CarryRule)
    requires rule.longEntryRate < rule.shortEntryRate && rule.maxFundingAge > 0
    ensures NeverPays(rule) <==> rule.longEntryRate <= 0.0 <= rule.shortEntryRate
  {
    if rule.longEntryRate <= 0.0 <= rule.shortEntryRate {
      forall h: History, asOf: int, quantity: real, price: real
        | ValidHistory(h) && Knowable(h, asOf) && quantity > 0.0 && price > 0.0
          && DecideFundingCarry(h, asOf, rule).value.event.Some?
        ensures var d := DecideFundingCarry(h, asOf, rule).value;
                LinearFunding(TargetQuantity(d.target, quantity), price, d.event.value.rate) <= 0.0
      {
        var d := DecideFundingCarry(h, asOf, rule).value;
        DecidedRate(h, asOf, rule);
        ChargeSign(d.target, quantity, price, d.event.value.rate);
      }
    } else {
      var rate := if rule.shortEntryRate < 0.0 then rule.shortEntryRate else rule.longEntryRate;
      var e := FundingEvent(0, rate, 1.0, "");
      var h := History(0, 1, 0, [e], [0]);
      var d := DecideFundingCarry(h, 0, rule).value;
      assert LatestSettledAt(h, 0).value == Some(e);
      assert d.target == (if rule.shortEntryRate < 0.0 then Short else Long);
      assert LinearFunding(TargetQuantity(d.target, 1.0), 1.0, rate) > 0.0;
    }
  }

  /** With thresholds on either side of zero a position is only taken against the sign it pays for. */
  lemma DecidedRate(h: History, asOf: int, rule: CarryRule)
    requires ValidHistory(h) && Knowable(h, asOf)
    requires DecideFundingCarry(h, asOf, rule).value.event.Some?
    ensures var d := DecideFundingCarry(h, asOf, rule).value;
            && (d.target == Short ==> d.event.value.rate >= rule.shortEntryRate)
            && (d.target == Long ==> d.event.value.rate <= rule.longEntryRate)
  {
  }

  lemma ChargeSign(target: Target, quantity: real, price: real, rate: real)
    requires quantity > 0.0 && price > 0.0
    requires target == Short ==> rate >= 0.0
    requires target == Long ==> rate <= 0.0
    ensures LinearFunding(TargetQuantity(target, quantity), price, rate) <= 0.0
  {
    ProductPositive(quantity, price);
    if target == Short {
      ProductNonNegative(quantity * price, rate);
      assert LinearFunding(-quantity, price, rate) == -((quantity * price) * rate);
    } else if target == Long {
      ProductNonNegative(quantity * price, -rate);
      assert LinearFunding(quantity, price, rate) == -((quantity * price) * (-rate));
    }
  }

  /** Events settled after the cutoff never change a decision: two histories with the same
      coverage that agree on the events settled by asOf decide alike. */
  lemma DecisionIgnoresUnsettledEvents(h: History, g: History, n: nat, asOf: int, rule: CarryRule)
    requires ValidHistory(h) && ValidHistory(g)
    requires h.coverageStart == g.coverageStart && h.coverageEnd == g.coverageEnd
    requires h.publicationLag == g.publicationLag
    requires n <= |h.events| && n <= |g.events| && h.events[..n] == g.events[..n]
    requires forall i :: n <= i < |h.events| ==> !Settled(h, h.events[i], asOf)
    requires forall i :: n <= i < |g.events| ==> !Settled(g, g.events[i], asOf)
    ensures DecideFundingCarry(h, asOf, rule) == DecideFundingCarry(g, asOf, rule)
  {
    forall i | 0 <= i < n
      ensures h.events[i] == g.events[i] && h.eventTimes[i] == g.eventTimes[i]
    {
      assert h.events[i] == h.events[..n][i] == g.events[..n][i];
    }
    forall i | n <= i < |h.events|
      ensures h.eventTimes[i] > Cutoff(h, asOf)
    {
      assert !Settled(h, h.events[i], asOf);
    }
    forall i | n <= i < |g.events|
      ensures g.eventTimes[i] > Cutoff(h, asOf)
    {
      assert !Settled(g, g.events[i], asOf);
    }
    hide DecideOn, Settled;
    BisectAgrees(h.eventTimes, g.eventTimes, Cutoff(h, asOf), n);
  }

  lemma BisectAgrees(a: seq<int>, b: seq<int>, x: int, n: nat)
    requires n <= |a| && n <= |b| && forall i :: 0 <= i < n ==> a[i] == b[i]
    requires forall i :: n <= i < |a| ==> a[i] > x
    requires forall i :: n <= i < |b| ==> b[i] > x
    ensures BisectRight(a, x, |a|) == BisectRight(b, x, |b|) <= n
  {
  }
}
