/** One evaluation window read twice from the store: by the engine up to the effective end, and by
    the diagnostics up to the window's own end. */
module WindowDiagnosis {
  import opened Outcomes
  import opened Market
  import opened Accounting
  import opened FundingSignal
  import opened Replay
  import opened Diagnostics
  import CandleStore
  import ReplayEngine
  import ReplayTheorems

  datatype EndError = Unordered | UnalignedStart | UnalignedEnd | NothingFinalized

  /** The last grid boundary at or before the as-of instant. */
  function ClosedBoundary(asOf: int, duration: int): (boundary: int)
    requires duration > 0
    ensures boundary <= asOf < boundary + duration
  {
    asOf - asOf % duration
  }

  /** The finalized part of a requested range. */
  function EffectiveEnd(start: int, end: int, asOf: int, duration: int): Result<int, EndError>
    requires duration > 0
  {
    if start >= end then Err(EndError.Unordered)
    else if start % duration != 0 then Err(UnalignedStart)
    else if end % duration != 0 then Err(UnalignedEnd)
    else
      var boundary := ClosedBoundary(asOf, duration);
      var effective := if end < boundary then end else boundary;
      if effective <= start then Err(NothingFinalized) else Ok(effective)
  }

  /** The effective end is the latest grid instant up to both the end and the as-of instant; there is one
      exactly for an ordered, aligned range of which some candle is closed. */
  lemma EffectiveEndMeaning(start: int, end: int, asOf: int, duration: int, e: int)
    requires duration > 0
    ensures EffectiveEnd(start, end, asOf, duration) == Outcomes.Ok(e) <==>
            && start < end && start % duration == 0 && end % duration == 0
            && start < e <= end && e <= asOf && e % duration == 0 && (e == end || asOf < e + duration)
  {
    var boundary, q := ClosedBoundary(asOf, duration), asOf / duration;
    assert asOf == q * duration + asOf % duration;
    ReplayEngine.QuotientUnique(q, 0, duration);
    if end % duration == 0 {
      BoundaryReachesEnd(end, asOf, duration);
    }
    if e % duration == 0 && e <= asOf < e + duration {
      SameCell(e, boundary, asOf, duration);
    }
  }

  lemma SameCell(a: int, b: int, t: int, duration: int)
    requires duration > 0 && a % duration == 0 && b % duration == 0 && a <= t < a + duration && b <= t < b + duration
    ensures a == b
  {
    var p, q := a / duration, b / duration;
    assert a == p * duration && b == q * duration;
    ReplayEngine.SameGridCell(p, q, duration);
    ReplayEngine.SameGridCell(q, p, duration);
  }

  lemma BoundaryReachesEnd(end: int, asOf: int, duration: int)
    requires duration > 0 && end % duration == 0
    ensures end <= asOf <==> end <= ClosedBoundary(asOf, duration)
  {
    var q, p := end / duration, asOf / duration;
    assert end == q * duration && asOf == p * duration + asOf % duration;
    if end <= asOf {
      ReplayEngine.SameGridCell(q, p, duration);
    }
  }

  /** A window is closed as of an instant exactly when its effective end is its end. */
  lemma ClosedIffWholeWindow(start: int, end: int, asOf: int, duration: int)
    requires duration > 0 && EffectiveEnd(start, end, asOf, duration).Ok?
    ensures end <= asOf <==> EffectiveEnd(start, end, asOf, duration) == Outcomes.Ok(end)
    ensures start < EffectiveEnd(start, end, asOf, duration).value <= end
  {
    BoundaryReachesEnd(end, asOf, duration);
  }

  function CandlesOf(records: seq<CandleStore.HistoricalCandle>): (candles: seq<Candle>)
    ensures |candles| == |records|
  {
    seq(|records|, i requires 0 <= i < |records| => records[i].candle)
  }

  function Read(stored: CandleStore.Candles, ns: CandleStore.Namespace, start: int, end: int): seq<Candle> {
    CandlesOf(CandleStore.SelectRange(stored, ns, start, end))
  }

  lemma {:induction false} ReadSplits(stored: CandleStore.Candles, ns: CandleStore.Namespace, start: int, mid: int, end: int)
    requires start <= mid <= end
    ensures Read(stored, ns, start, end) == Read(stored, ns, start, mid) + Read(stored, ns, mid, end)
    decreases mid - start
  {
    if start < mid {
      hide Read;
      ReadSplits(stored, ns, start + 1, mid, end);
      var head := ReadStep(stored, ns, start, end);
      var same := ReadStep(stored, ns, start, mid);
      assert head == same;
    } else {
      assert Read(stored, ns, start, mid) == [];
    }
  }

  lemma ReadStep(stored: CandleStore.Candles, ns: CandleStore.Namespace, start: int, end: int) returns (head: seq<Candle>)
    requires start < end
    ensures head == if CandleStore.Key(ns, start) in stored
                    then [CandleStore.RecordAt(stored, CandleStore.Key(ns, start)).candle] else []
    ensures Read(stored, ns, start, end) == head + Read(stored, ns, start + 1, end)
  {
    head := if CandleStore.Key(ns, start) in stored
            then [CandleStore.RecordAt(stored, CandleStore.Key(ns, start)).candle] else [];
  }

  lemma ReadStartsInside(stored: CandleStore.Candles, ns: CandleStore.Namespace, start: int, end: int)
    ensures forall i :: 0 <= i < |Read(stored, ns, start, end)| ==> Read(stored, ns, start, end)[i].openTime >= start
  {
    CandleStore.SelectionMeaning(stored, ns, start, end);
    var rs := CandleStore.SelectRange(stored, ns, start, end);
    forall i | 0 <= i < |rs|
      ensures rs[i].candle.openTime >= start
    {
      assert rs[i] in rs;
    }
  }

  /** The engine evaluates every candle of its read: the window start is the evaluation start. */
  ghost predicate EngineReads(
    s: Setup, stored: CandleStore.Candles, ns: CandleStore.Namespace, start: int, effective: int)
  {
    s.candles == Read(stored, ns, start, effective) && s.start == start && s.candles != [] && Uniform(s.candles)
  }

  ghost predicate Drives(s: Setup, strategy: Strategy) {
    && (strategy.Carry? ==> ValidHistory(strategy.history))
    && match strategy
       case NoTradeControl => forall c :: s.policy(c) == Flat
       case Carry(h, rule) => s.policy == CarryPolicy(h, rule)
  }

  lemma EvaluatesAll(s: Setup, stored: CandleStore.Candles, ns: CandleStore.Namespace, start: int, effective: int)
    requires EngineReads(s, stored, ns, start, effective)
    ensures ReplayTheorems.FirstEvaluated(s, 0)
  {
    ReadStartsInside(stored, ns, start, effective);
  }

  /** For a window that is closed as of the run's instant, the diagnosis of the stored candles of the
      whole window always reproduces the engine's fill count. */
  lemma ClosedWindowIsConsistent(
    s: Setup, stored: CandleStore.Candles, ns: CandleStore.Namespace, start: int, end: int, asOf: int, duration: int,
    strategy: Strategy, decisions: seq<Decision>)
    requires duration > 0 && EffectiveEnd(start, end, asOf, duration).Ok? && end <= asOf
    requires EngineReads(s, stored, ns, start, EffectiveEnd(start, end, asOf, duration).value)
    requires ValidConfig(s.config) && Drives(s, strategy)
    requires DecidedBy(strategy, Read(stored, ns, start, end), decisions)
    ensures Executable(Targets(decisions)) == |RunAt(s, |s.candles|).fills|
  {
    ClosedIffWholeWindow(start, end, asOf, duration);
    EvaluatesAll(s, stored, ns, start, end);
    assert s.candles[0..] == s.candles;
    hide RunAt, Read, EffectiveEnd;
    DiagnosticsConsistentWithEngine(s, 0, strategy, decisions);
  }

  /** While the window is open the engine's decisions are the first of the diagnosed ones, and the
      counts agree exactly when no later diagnosed target but the last changes. */
  lemma OpenWindowIsConsistentIff(
    s: Setup, stored: CandleStore.Candles, ns: CandleStore.Namespace, start: int, end: int, asOf: int, duration: int,
    strategy: Strategy, decisions: seq<Decision>)
    requires duration > 0 && EffectiveEnd(start, end, asOf, duration).Ok?
    requires EngineReads(s, stored, ns, start, EffectiveEnd(start, end, asOf, duration).value)
    requires ValidConfig(s.config) && Drives(s, strategy)
    requires DecidedBy(strategy, Read(stored, ns, start, end), decisions)
    requires |s.candles| < |decisions|
    ensures Executable(Targets(decisions)) == |RunAt(s, |s.candles|).fills| <==>
            forall j :: |s.candles| - 1 <= j < |decisions| - 1 ==> !Changes(Targets(decisions), j)
  {
    var effective := EffectiveEnd(start, end, asOf, duration).value;
    ClosedIffWholeWindow(start, end, asOf, duration);
    ReadSplits(stored, ns, start, effective, end);
    EvaluatesAll(s, stored, ns, start, effective);
    var n := |s.candles|;
    var first := decisions[..n];
    hide EffectiveEnd;
    assert Read(stored, ns, start, end)[..n] == s.candles && s.candles[0..] == s.candles;
    FirstDecisions(strategy, Read(stored, ns, start, end), decisions, n);
    hide Read, RunAt, DecidedBy;
    EnginePolicyIsDiagnosed(s, 0, strategy, first);
    assert Targets(first) < Targets(decisions) by {
      assert Targets(decisions)[..n] == Targets(first);
    }
    OpenWindowAgreement(s, 0, Targets(first), Targets(decisions));
  }

  lemma FirstDecisions(strategy: Strategy, records: seq<Candle>, decisions: seq<Decision>, n: nat)
    requires strategy.Carry? ==> ValidHistory(strategy.history)
    requires DecidedBy(strategy, records, decisions) && n <= |decisions| == |records|
    ensures DecidedBy(strategy, records[..n], decisions[..n])
  {
  }
}
