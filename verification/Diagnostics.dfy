/** The read-only replay of decisions beside the engine: its counters, and the simulation that
    makes its executable changes equal the engine's fills. */
module Diagnostics {
  import opened Outcomes
  import opened Sums
  import opened Market
  import opened Accounting
  import opened FundingSignal
  import opened Replay
  import ReplayTheorems
  import PositionLog

  datatype Strategy = Carry(history: History, rule: CarryRule) | NoTradeControl

  function DecisionAt(strategy: Strategy, asOf: int): (r: Result<Decision, CutoffError>)
    requires strategy.Carry? ==> |strategy.history.eventTimes| == |strategy.history.events|
  {
    match strategy
    case NoTradeControl => Ok(Decision(Flat, AlwaysFlat, None))
    case Carry(h, rule) => DecideFundingCarry(h, asOf, rule)
  }

  // ----- the counters, as functions of the decisions

  /** The position held when decision n is taken; the last decision is never executed. */
  function Held(targets: seq<Target>, n: nat): Target
    requires n <= |targets|
  {
    if n == 0 then Flat
    else if n == |targets| then Held(targets, n - 1)
    else targets[n - 1]
  }

  predicate Changes(targets: seq<Target>, k: nat)
    requires k < |targets|
  {
    targets[k] != Held(targets, k)
  }

  function ChangeCount(targets: seq<Target>, n: nat): nat
    requires n <= |targets|
  {
    if n == 0 then 0 else ChangeCount(targets, n - 1) + if Changes(targets, n - 1) then 1 else 0
  }

  /** Changes that have a next candle to fill at. */
  function Executable(targets: seq<Target>): nat {
    if targets == [] then 0 else ChangeCount(targets, |targets| - 1)
  }

  function ReasonCount(decisions: seq<Decision>, reason: Reason, n: nat): nat
    requires n <= |decisions|
  {
    if n == 0 then 0 else ReasonCount(decisions, reason, n - 1) + if decisions[n - 1].reason == reason then 1 else 0
  }

  function Targets(decisions: seq<Decision>): (t: seq<Target>)
    ensures |t| == |decisions|
  {
    seq(|decisions|, k requires 0 <= k < |decisions| => decisions[k].target)
  }

  datatype Report = Report(
    decisions: nat, visible: nat, recent: nat, thresholdMet: nat, reasons: map<Reason, nat>,
    targetChanges: nat, executableChanges: nat, finalUnexecuted: bool)

  function CountOf(reasons: map<Reason, nat>, reason: Reason): nat {
    if reason in reasons then reasons[reason] else 0
  }

  ghost predicate DecidedBy(strategy: Strategy, records: seq<Candle>, decisions: seq<Decision>)
    requires strategy.Carry? ==> |strategy.history.eventTimes| == |strategy.history.events|
  {
    && |decisions| == |records|
    && forall k :: 0 <= k < |records| ==>
         Supported(records[k].timeframe)
         && DecisionAt(strategy, Availability(records[k])) == Outcomes.Ok(decisions[k])
  }

  ghost predicate ReasonsMatch(reasons: map<Reason, nat>, decisions: seq<Decision>) {
    forall reason :: CountOf(reasons, reason) == ReasonCount(decisions, reason, |decisions|)
  }

  /** Each signal counter is a combination of reason counts; the control arm reads no signal. */
  ghost predicate SignalsMatch(strategy: Strategy, decisions: seq<Decision>, visible: nat, recent: nat, met: nat) {
    var n := |decisions|;
    if strategy.Carry? then
      && visible + ReasonCount(decisions, NoSettledSignal, n) == n
      && recent + ReasonCount(decisions, StaleSignal, n) == visible
      && met == ReasonCount(decisions, ShortThresholdMet, n) + ReasonCount(decisions, LongThresholdMet, n)
    else
      visible == recent == met == 0 && ReasonCount(decisions, AlwaysFlat, n) == n
  }

  ghost predicate CountersMatch(strategy: Strategy, decisions: seq<Decision>, report: Report) {
    && ReasonsMatch(report.reasons, decisions)
    && SignalsMatch(strategy, decisions, report.visible, report.recent, report.thresholdMet)
  }

  lemma ReasonsStep(reasons: map<Reason, nat>, decisions: seq<Decision>, d: Decision)
    requires ReasonsMatch(reasons, decisions)
    ensures ReasonsMatch(reasons[d.reason := CountOf(reasons, d.reason) + 1], decisions + [d])
  {
    var updated, all := reasons[d.reason := CountOf(reasons, d.reason) + 1], decisions + [d];
    forall reason
      ensures CountOf(updated, reason) == ReasonCount(all, reason, |all|)
    {
      ReasonCountPrefix(decisions, d, reason, |decisions|);
    }
  }

  lemma SignalsStep(strategy: Strategy, asOf: int, decisions: seq<Decision>, d: Decision,
                    visible: nat, recent: nat, met: nat)
    requires strategy.Carry? ==> |strategy.history.eventTimes| == |strategy.history.events|
    requires DecisionAt(strategy, asOf) == Outcomes.Ok(d)
    requires SignalsMatch(strategy, decisions, visible, recent, met)
    ensures SignalsMatch(strategy, decisions + [d],
              visible + (if strategy.Carry? && d.event.Some? then 1 else 0),
              recent + (if strategy.Carry? && d.event.Some? && d.reason != StaleSignal then 1 else 0),
              met + (if strategy.Carry? && (d.reason == ShortThresholdMet || d.reason == LongThresholdMet) then 1 else 0))
  {
    ReasonCountPrefix(decisions, d, NoSettledSignal, |decisions|);
    ReasonCountPrefix(decisions, d, StaleSignal, |decisions|);
    ReasonCountPrefix(decisions, d, ShortThresholdMet, |decisions|);
    ReasonCountPrefix(decisions, d, LongThresholdMet, |decisions|);
    ReasonCountPrefix(decisions, d, AlwaysFlat, |decisions|);
  }

  method DiagnoseWindow(strategy: Strategy, records: seq<Candle>)
    returns (r: Result<Report, CutoffError>, ghost decisions: seq<Decision>)
    requires strategy.Carry? ==> ValidHistory(strategy.history)
    requires forall k :: 0 <= k < |records| ==> Supported(records[k].timeframe)
    ensures r.Ok? <==>
            strategy.Carry? ==>
              forall k :: 0 <= k < |records| ==> Knowable(strategy.history, Availability(records[k]))
    ensures r.Ok? ==>
              && DecidedBy(strategy, records, decisions)
              && CountersMatch(strategy, decisions, r.value)
              && r.value.decisions == |records|
              && r.value.targetChanges == ChangeCount(Targets(decisions), |decisions|)
              && r.value.executableChanges == Executable(Targets(decisions))
              && (r.value.finalUnexecuted <==> records != [] && Changes(Targets(decisions), |decisions| - 1))
              && r.value.targetChanges == r.value.executableChanges + (if r.value.finalUnexecuted then 1 else 0)
              && (strategy.NoTradeControl? ==> r.value.targetChanges == 0)
  {
    hide SignalsMatch, ReasonsMatch, DecideFundingCarry, Progress, ChangeCount, CountOf;
    var made: seq<Decision> := [];
    var reasons: map<Reason, nat> := map[];
    var visible, recent, met, changes, executable := 0, 0, 0, 0, 0;
    var finalUnexecuted := false;
    var held := Flat;
    decisions := [];
    ProgressStart(|records|);
    SignalsStart(strategy);
    for index := 0 to |records|
      invariant |made| == index
      invariant forall k :: 0 <= k < index ==>
                  DecisionAt(strategy, Availability(records[k])) == Outcomes.Ok(made[k])
      invariant ReasonsMatch(reasons, made)
      invariant SignalsMatch(strategy, made, visible, recent, met)
      invariant Progress(Targets(made), index, |records|, held, changes, executable, finalUnexecuted)
      invariant finalUnexecuted ==> index == |records|
    {
      var decided := DecisionAt(strategy, Availability(records[index]));
      if decided.Err? {
        r := Err(decided.error);
        return;
      }
      var decision := decided.value;
      SignalsStep(strategy, Availability(records[index]), made, decision, visible, recent, met);
      ReasonsStep(reasons, made, decision);
      ProgressStep(Targets(made), decision.target, index, |records|, held, changes, executable);
      ghost var before := made;
      made := made + [decision];
      if strategy.Carry? && decision.event.Some? {
        visible := visible + 1;
        if decision.reason != StaleSignal {
          recent := recent + 1;
        }
      }
      if strategy.Carry? && (decision.reason == ShortThresholdMet || decision.reason == LongThresholdMet) {
        met := met + 1;
      }
      reasons := reasons[decision.reason := CountOf(reasons, decision.reason) + 1];
      if decision.target != held {
        changes := changes + 1;
        if index == |records| - 1 {
          finalUnexecuted := true;
        } else {
          executable := executable + 1;
          held := decision.target;
        }
      }
      assert Targets(made) == Targets(before) + [decision.target];
    }
    decisions := made;
    ControlNeverChanges(strategy, records, made, |made|);
    ProgressDone(Targets(made), held, changes, executable, finalUnexecuted);
    r := Ok(Report(|records|, visible, recent, met, reasons, changes, executable, finalUnexecuted));
  }

  lemma {:induction false} ControlNeverChanges(
    strategy: Strategy, records: seq<Candle>, decisions: seq<Decision>, n: nat)
    requires strategy.Carry? ==> |strategy.history.eventTimes| == |strategy.history.events|
    requires DecidedBy(strategy, records, decisions) && n <= |decisions|
    ensures strategy.NoTradeControl? ==> ChangeCount(Targets(decisions), n) == 0
  {
    if n > 0 && strategy.NoTradeControl? {
      ControlNeverChanges(strategy, records, decisions, n - 1);
      assert DecisionAt(strategy, Availability(records[n - 1])) == Outcomes.Ok(decisions[n - 1]);
      assert n > 1 ==> DecisionAt(strategy, Availability(records[n - 2])) == Outcomes.Ok(decisions[n - 2]);
    }
  }

  lemma SignalsStart(strategy: Strategy)
    ensures SignalsMatch(strategy, [], 0, 0, 0)
    ensures ReasonsMatch(map[], [])
  {
  }

  lemma {:induction false} ReasonCountPrefix(decisions: seq<Decision>, d: Decision, reason: Reason, n: nat)
    requires n <= |decisions|
    ensures ReasonCount(decisions + [d], reason, n) == ReasonCount(decisions, reason, n)
  {
    if n > 0 {
      ReasonCountPrefix(decisions, d, reason, n - 1);
    }
  }

  /** The change counters before all decisions are known: held follows the latest target. */
  function ChangesSoFar(targets: seq<Target>, n: nat): nat
    requires n <= |targets|
  {
    if n == 0 then 0
    else ChangesSoFar(targets, n - 1) + if targets[n - 1] != LatestTarget(targets, n - 1) then 1 else 0
  }

  function LatestTarget(targets: seq<Target>, n: nat): Target
    requires n <= |targets|
  {
    if n == 0 then Flat else targets[n - 1]
  }

  ghost predicate Progress(targets: seq<Target>, n: nat, total: nat, held: Target,
                           changes: nat, executable: nat, finalUnexecuted: bool)
    requires |targets| == n <= total
  {
    && changes == ChangesSoFar(targets, n)
    && (n < total || n == 0 ==> held == LatestTarget(targets, n) && executable == changes && !finalUnexecuted)
    && (n == total && n > 0 ==>
          && executable == ChangesSoFar(targets, n - 1)
          && (finalUnexecuted <==> targets[n - 1] != LatestTarget(targets, n - 1)))
  }

  lemma ProgressStart(total: nat)
    ensures Progress([], 0, total, Flat, 0, 0, false)
    ensures Targets([]) == []
  {
  }

  lemma {:induction false} SoFarPrefix(targets: seq<Target>, t: Target, n: nat)
    requires n <= |targets|
    ensures ChangesSoFar(targets + [t], n) == ChangesSoFar(targets, n)
  {
    if n > 0 {
      SoFarPrefix(targets, t, n - 1);
    }
  }

  /** One iteration of the loop on its change counters. */
  lemma ProgressStep(targets: seq<Target>, t: Target, n: nat, total: nat, held: Target, changes: nat, executable: nat)
    requires |targets| == n < total && Progress(targets, n, total, held, changes, executable, false)
    ensures t == held ==> Progress(targets + [t], n + 1, total, held, changes, executable, false)
    ensures t != held && n == total - 1 ==> Progress(targets + [t], n + 1, total, held, changes + 1, executable, true)
    ensures t != held && n < total - 1 ==> Progress(targets + [t], n + 1, total, t, changes + 1, executable + 1, false)
  {
    SoFarPrefix(targets, t, n);
  }

  lemma {:induction false} SoFarIsCount(targets: seq<Target>, n: nat)
    requires n <= |targets|
    ensures ChangesSoFar(targets, n) == ChangeCount(targets, n)
  {
    if n > 0 {
      SoFarIsCount(targets, n - 1);
      assert Held(targets, n - 1) == LatestTarget(targets, n - 1);
    }
  }

  lemma ProgressDone(targets: seq<Target>, held: Target, changes: nat, executable: nat, finalUnexecuted: bool)
    requires Progress(targets, |targets|, |targets|, held, changes, executable, finalUnexecuted)
    ensures changes == ChangeCount(targets, |targets|)
    ensures executable == Executable(targets)
    ensures finalUnexecuted <==> targets != [] && Changes(targets, |targets| - 1)
    ensures changes == executable + if finalUnexecuted then 1 else 0
  {
    SoFarIsCount(targets, |targets|);
    if targets != [] {
      SoFarIsCount(targets, |targets| - 1);
      assert Held(targets, |targets| - 1) == LatestTarget(targets, |targets| - 1);
    }
  }

  // ----- agreement with the engine

  /** The engine's policy takes the diagnosed decisions at the evaluated candles. */
  ghost predicate PolicyTakes(s: Setup, e: nat, targets: seq<Target>)
    requires Uniform(s.candles) && e <= |s.candles|
  {
    && |targets| == |s.candles| - e
    && forall k :: 0 <= k < |targets| ==> s.policy(ReplayTheorems.ContextAt(s, e + k)) == targets[k]
  }

  /** The simulation invariant: before decision k the engine holds the diagnosed position and has
      made one fill per executable change. */
  lemma {:induction false} EngineSimulated(s: Setup, e: nat, targets: seq<Target>, k: nat)
    requires Uniform(s.candles) && ValidConfig(s.config)
    requires ReplayTheorems.FirstEvaluated(s, e) && PolicyTakes(s, e, targets) && k < |targets|
    ensures var r := RunAt(s, e + k);
            && r.account.quantity == TargetQuantity(Held(targets, k), s.config.positionQuantity)
            && |r.fills| == ChangeCount(targets, k)
  {
    hide RunAt, Mark, Settle;
    if k == 0 {
      ReplayTheorems.NothingBeforeFirst(s, e, e);
    } else {
      EngineSimulated(s, e, targets, k - 1);
      var i := e + k - 1;
      EvaluatedOnward(s, e, i);
      LastContext(s, e, i);
      assert s.policy(ReplayTheorems.ContextAt(s, e + (k - 1))) == targets[k - 1];
      StepFollowsTarget(s, i, targets[k - 1]);
      SameQuantityIffSameTarget(targets[k - 1], Held(targets, k - 1), s.config.positionQuantity);
    }
  }

  lemma LastContext(s: Setup, e: nat, i: nat)
    requires Uniform(s.candles) && ReplayTheorems.FirstEvaluated(s, e) && e <= i < |s.candles|
    ensures var m := MarkedAt(s, i);
            m.contexts[|m.contexts| - 1] == ReplayTheorems.ContextAt(s, i)
  {
  }

  lemma SameQuantityIffSameTarget(a: Target, b: Target, quantity: real)
    requires quantity > 0.0
    ensures TargetQuantity(a, quantity) == TargetQuantity(b, quantity) <==> a == b
  {
  }

  lemma StepFollowsTarget(s: Setup, i: nat, target: Target)
    requires Uniform(s.candles) && ValidConfig(s.config) && i + 1 < |s.candles| && Evaluated(s, i)
    requires var m := MarkedAt(s, i); s.policy(m.contexts[|m.contexts| - 1]) == target
    ensures var r, next, q := RunAt(s, i), RunAt(s, i + 1), TargetQuantity(target, s.config.positionQuantity);
            && next.account.quantity == q
            && |next.fills| == |r.fills| + if q != r.account.quantity then 1 else 0
  {
    LedgerAlwaysHolds(s, i);
    RunStep(s, i);
    DecisionNeverFails(s, i, MarkedAt(s, i));
    hide RunAt, Balanced, Total, LegalFill, ApplyFill, Equity;
  }

  /** With the records of a closed window, i.e. exactly the engine's evaluated candles, the
      executable changes are the engine's fills. */
  lemma ExecutableChangesAreFills(s: Setup, e: nat, targets: seq<Target>)
    requires Uniform(s.candles) && ValidConfig(s.config)
    requires ReplayTheorems.FirstEvaluated(s, e) && PolicyTakes(s, e, targets)
    ensures Executable(targets) == |RunAt(s, |s.candles|).fills|
  {
    var last := |s.candles| - 1;
    EngineSimulated(s, e, targets, last - e);
    EvaluatedOnward(s, e, last);
    LastStepKeepsFills(s);
  }

  lemma LastStepKeepsFills(s: Setup)
    requires s.candles != [] && Uniform(s.candles) && Evaluated(s, |s.candles| - 1)
    ensures RunAt(s, |s.candles|).fills == RunAt(s, |s.candles| - 1).fills
  {
  }

  /** While the window is still open the records run past the engine's candles; the counts then
      agree exactly when no target changes from the engine's last decision on, before the last
      record. */
  lemma OpenWindowAgreement(s: Setup, e: nat, targets: seq<Target>, records: seq<Target>)
    requires Uniform(s.candles) && ValidConfig(s.config)
    requires ReplayTheorems.FirstEvaluated(s, e) && PolicyTakes(s, e, targets)
    requires targets < records
    ensures Executable(records) >= |RunAt(s, |s.candles|).fills|
    ensures Executable(records) == |RunAt(s, |s.candles|).fills| <==>
            forall j :: |targets| - 1 <= j < |records| - 1 ==> !Changes(records, j)
  {
    ExecutableChangesAreFills(s, e, targets);
    CountsAgree(targets, records, |targets| - 1);
    CountGrows(records, |targets| - 1, |records| - 1);
  }

  lemma {:induction false} CountsAgree(targets: seq<Target>, records: seq<Target>, n: nat)
    requires targets < records && n < |targets|
    ensures ChangeCount(targets, n) == ChangeCount(records, n)
  {
    if n > 0 {
      CountsAgree(targets, records, n - 1);
      assert Held(targets, n - 1) == Held(records, n - 1);
    }
  }

  lemma {:induction false} CountGrows(targets: seq<Target>, a: nat, b: nat)
    requires a <= b <= |targets|
    ensures ChangeCount(targets, a) <= ChangeCount(targets, b)
    ensures ChangeCount(targets, a) == ChangeCount(targets, b) <==> forall j :: a <= j < b ==> !Changes(targets, j)
  {
    if a < b {
      CountGrows(targets, a, b - 1);
    }
  }

  /** The carry policy of the engine; a raising decision ends the source's run. */
  function CarryPolicy(h: History, rule: CarryRule): PolicyContext -> Target
    requires |h.eventTimes| == |h.events|
  {
    (context: PolicyContext) =>
      if |h.eventTimes| == |h.events| && DecideFundingCarry(h, context.asOf, rule).Ok?
      then DecideFundingCarry(h, context.asOf, rule).value.target
      else Flat
  }

  /** The diagnosed decisions of the evaluated candles are the ones the carry policy, or the
      no-trade control, takes in the engine. */
  lemma EnginePolicyIsDiagnosed(s: Setup, e: nat, strategy: Strategy, decisions: seq<Decision>)
    requires Uniform(s.candles) && e <= |s.candles|
    requires strategy.Carry? ==> ValidHistory(strategy.history)
    requires match strategy
             case NoTradeControl => forall c :: s.policy(c) == Flat
             case Carry(h, rule) => s.policy == CarryPolicy(h, rule)
    requires DecidedBy(strategy, s.candles[e..], decisions)
    ensures PolicyTakes(s, e, Targets(decisions))
  {
    forall k | 0 <= k < |decisions|
      ensures s.policy(ReplayTheorems.ContextAt(s, e + k)) == decisions[k].target
    {
      assert s.candles[e..][k] == s.candles[e + k];
    }
  }

  /** Diagnosing exactly the evaluated candles of a run reproduces the engine's fill count. */
  lemma DiagnosticsConsistentWithEngine(s: Setup, e: nat, strategy: Strategy, decisions: seq<Decision>)
    requires Uniform(s.candles) && ValidConfig(s.config) && ReplayTheorems.FirstEvaluated(s, e)
    requires strategy.Carry? ==> ValidHistory(strategy.history)
    requires match strategy
             case NoTradeControl => forall c :: s.policy(c) == Flat
             case Carry(h, rule) => s.policy == CarryPolicy(h, rule)
    requires DecidedBy(strategy, s.candles[e..], decisions)
    ensures Executable(Targets(decisions)) == |RunAt(s, |s.candles|).fills|
    ensures strategy.NoTradeControl? ==> RunAt(s, |s.candles|).fills == []
  {
    EnginePolicyIsDiagnosed(s, e, strategy, decisions);
    ExecutableChangesAreFills(s, e, Targets(decisions));
    if strategy.NoTradeControl? {
      FlatNeverChanges(Targets(decisions), |decisions| - 1);
    }
  }

  lemma {:induction false} FlatNeverChanges(targets: seq<Target>, n: nat)
    requires n <= |targets| && forall k :: 0 <= k < |targets| ==> targets[k] == Flat
    ensures ChangeCount(targets, n) == 0
  {
    if n > 0 {
      FlatNeverChanges(targets, n - 1);
      HeldFlat(targets, n - 1);
    }
  }

  lemma {:induction false} HeldFlat(targets: seq<Target>, n: nat)
    requires n <= |targets| && forall k :: 0 <= k < |targets| ==> targets[k] == Flat
    ensures Held(targets, n) == Flat
  {
    if n > 0 && n == |targets| {
      HeldFlat(targets, n - 1);
    }
  }
}
