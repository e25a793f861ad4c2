/** The equity points of a multi-leg run, each given by the inputs alone. */
module MultilegMarks {
  import opened Outcomes
  import opened Market
  import opened Multileg
  import opened MultilegReplay
  import opened MultilegRuns

  /** The mark of candle n: the swept state of the run after n candles, valued at the closes. */
  ghost predicate IsMark(s: Setup, n: nat, m: PortfolioMark)
    requires ValidSetup(s) && n < |s.spot|
  {
    exists b :: RunsTo(s, n, b) && Marks(s, n, b, m)
  }

  ghost predicate Marks(s: Setup, n: nat, b: Book, m: PortfolioMark)
    requires ValidSetup(s) && n < |s.spot|
  {
    && m.time == Clock(s, n + 1)
    && Sweep(s, b, m.time).Ok?
    && MarkPortfolio(Sweep(s, b, m.time).value.state, m.time, s.spot[n].close, PerpetualClose(s, n)) == Outcomes.Ok(m)
  }

  function PerpetualClose(s: Setup, n: nat): real
    requires ValidSetup(s) && n < |s.spot|
  {
    s.perpetual[n].close
  }

  /** Every run that gets past n candles has recorded exactly their marks. */
  lemma {:induction false} MarksAreDetermined(s: Setup, n: nat, b: Book, i: nat)
    requires ValidSetup(s) && i < n <= |s.spot| && RunsTo(s, n, b)
    ensures |b.marks| == n && IsMark(s, i, b.marks[i])
  {
    hide *;
    var before := RunBefore(s, n, b);
    LastMark(s, n - 1, before, b);
    if i < n - 1 {
      MarksAreDetermined(s, n - 1, before, i);
    } else if 0 < i {
      MarksAreDetermined(s, n - 1, before, i - 1);
    } else {
      NoMarksAtStart(s, before);
    }
  }

  lemma NoMarksAtStart(s: Setup, b: Book)
    requires ValidSetup(s) && RunsTo(s, 0, b)
    ensures b.marks == []
  {
    assert RunAt(s, 0) == Outcomes.Ok(NewBook(s));
  }

  lemma LastMark(s: Setup, n: nat, before: Book, b: Book)
    requires ValidSetup(s) && n < |s.spot| && RunsTo(s, n, before) && RunsTo(s, n + 1, b)
    ensures |b.marks| == |before.marks| + 1
    ensures forall i :: 0 <= i < |before.marks| ==> b.marks[i] == before.marks[i]
    ensures IsMark(s, n, b.marks[|before.marks|])
  {
    hide ValidSetup, RunsTo, Sweep, MarkPortfolio, Clock;
    MarksArePreFill(s, n, before, b);
    var m :| b.marks == before.marks + [m] && Marks(s, n, before, m);
  }

  lemma RunBefore(s: Setup, n: nat, b: Book) returns (before: Book)
    requires ValidSetup(s) && 0 < n <= |s.spot| && RunsTo(s, n, b)
    ensures RunsTo(s, n - 1, before)
  {
    before := RunAt(s, n - 1).value;
  }

  // ----- the value of a position, from the inputs

  /** The charges of the first n events by the declarative rule. */
  function RuleCost(s: Setup, n: nat): real
    requires n <= |s.events|
  {
    if n == 0 then 0.0 else RuleCost(s, n - 1) + RecordOf(s, n - 1).cost
  }

  lemma {:induction false} RecordsCostRule(s: Setup, records: seq<FundingRecord>, n: nat)
    requires n <= |records| <= |s.events| && forall j :: 0 <= j < |records| ==> records[j] == RecordOf(s, j)
    ensures CostSum(records, n) == RuleCost(s, n)
  {
    hide RecordOf;
    if n > 0 {
      RecordsCostRule(s, records, n - 1);
    }
  }

  /** The two costs of intent k filled at candle i. */
  function FillCosts(s: Setup, k: nat, i: nat): real
    requires k < |s.intents| && i < |s.spot| == |s.perpetual|
  {
    var q := s.intents[k].quantity;
    s.spotCosts(q, s.spot[i].open) + s.perpetualCosts(q, s.perpetual[i].open)
  }

  /** Capital, plus the basis earned since the opens of candle i, less fill costs and paid charges. */
  function NetValue(s: Setup, i: nat, basis: real, fillCosts: real, paid: nat): real
    requires i < |s.spot| == |s.perpetual| && s.intents != [] && paid <= |s.events|
  {
    s.spotCash + s.collateral
    + s.intents[0].quantity * (basis - Basis(s.spot[i].open, s.perpetual[i].open))
    - fillCosts - RuleCost(s, paid)
  }

  /** Fill k of a run happened at the candle that opens at intent k's decision. */
  lemma FillOf(s: Setup, fills: seq<PairedFill>, k: nat, i: nat)
    requires ValidSetup(s) && FillsFollow(s, fills) && k < |fills| && 0 < i < |s.spot|
    requires s.spot[i].openTime == s.intents[k].decisionTime
    ensures FilledAt(s, fills[k], k, i)
  {
    hide FilledAt, Uniform, ValidFunding, ValidIntents;
    var j :| 0 < j < |s.spot| && FilledAt(s, fills[k], k, j);
    FilledTime(s, fills[k], k, j);
    SameFillCandle(s, i, j);
  }

  lemma FilledTime(s: Setup, f: PairedFill, k: nat, j: nat)
    requires k < |s.intents| && j < |s.spot| == |s.perpetual| && FilledAt(s, f, k, j)
    ensures s.spot[j].openTime == s.intents[k].decisionTime
  {
  }

  lemma FlatValue(s: Setup, b: Book, spotMark: real, perpetualMark: real)
    requires |s.spot| == |s.perpetual| && Core(s, 0, b)
    ensures PortfolioEquity(b.state, spotMark, perpetualMark) == s.spotCash + s.collateral
  {
    hide HistoryHolds, FillsDescribe, RecordsHold, FillsFollow;
  }

  lemma CoreFacts(s: Setup, k: nat, b: Book)
    requires |s.spot| == |s.perpetual| && Core(s, k, b) && 1 <= k <= 2
    ensures Reachable(b.state) && b.state.lifecycle == (if k == 1 then HedgedOpen else FlatClosed)
    ensures |b.state.fills| == k <= |s.intents| && FillsFollow(s, b.state.fills)
    ensures |b.records| == b.cursor <= |s.events| && forall j :: 0 <= j < |b.records| ==> b.records[j] == RecordOf(s, j)
  {
    hide FillsFollow, RecordOf, LedgersHold, FillsDescribe, Increasing, Chronology, Identity, ShortAt, CostSum;
  }

  lemma NetValueIs(s: Setup, i: nat, basis: real, fillCosts: real, paid: nat, capital: real, q: real, start: real, cost: real)
    requires i < |s.spot| == |s.perpetual| && s.intents != [] && paid <= |s.events|
    requires capital == s.spotCash + s.collateral && q == s.intents[0].quantity && cost == RuleCost(s, paid)
    requires start == Basis(s.spot[i].open, s.perpetual[i].open)
    ensures NetValue(s, i, basis, fillCosts, paid) == capital + q * (basis - start) - fillCosts - cost
  {
  }

  lemma HedgedNetValue(s: Setup, b: Book, i: nat, spotMark: real, perpetualMark: real)
    requires ValidSetup(s) && Core(s, 1, b) && 0 < i < |s.spot| && s.spot[i].openTime == s.intents[0].decisionTime
    ensures b.cursor <= |s.events|
    ensures PortfolioEquity(b.state, spotMark, perpetualMark)
            == NetValue(s, i, Basis(spotMark, perpetualMark), FillCosts(s, 0, i), b.cursor)
  {
    assert |s.spot| == |s.perpetual|;
    hide *;
    CoreFacts(s, 1, b);
    FillOf(s, b.state.fills, 0, i);
    FirstFill(s, b, i);
    RecordsCostRule(s, b.records, |b.records|);
    HedgedEquity(b.state, spotMark, perpetualMark);
    NetValueIs(s, i, Basis(spotMark, perpetualMark), FillCosts(s, 0, i), b.cursor, InitialCapital(b.state),
               b.state.spot.quantity, Basis(s.spot[i].open, s.perpetual[i].open), CostSum(b.records, |b.records|));
  }

  lemma FirstFill(s: Setup, b: Book, i: nat)
    requires |s.spot| == |s.perpetual| && Core(s, 1, b) && |b.state.fills| == 1 && i < |s.spot|
    requires FilledAt(s, b.state.fills[0], 0, i)
    ensures b.state.spot.quantity == s.intents[0].quantity
    ensures b.state.fills[0].spot.execution.price == s.spot[i].open
    ensures b.state.fills[0].perpetual.execution.price == s.perpetual[i].open
    ensures TotalCosts(b.state) == FillCosts(s, 0, i)
    ensures b.state.perpetual.fundingPaid == CostSum(b.records, |b.records|) && |b.records| == b.cursor
    ensures InitialCapital(b.state) == s.spotCash + s.collateral
  {
    hide HistoryHolds, RecordOf, FillsFollow;
  }

  lemma ClosedNetValue(s: Setup, b: Book, i: nat, j: nat, spotMark: real, perpetualMark: real)
    requires ValidSetup(s) && Core(s, 2, b) && 0 < i < |s.spot| && 0 < j < |s.spot|
    requires s.spot[i].openTime == s.intents[0].decisionTime && s.spot[j].openTime == s.intents[1].decisionTime
    ensures b.cursor <= |s.events|
    ensures PortfolioEquity(b.state, spotMark, perpetualMark)
            == NetValue(s, i, Basis(s.spot[j].open, s.perpetual[j].open), FillCosts(s, 0, i) + FillCosts(s, 1, j), b.cursor)
  {
    assert |s.spot| == |s.perpetual|;
    hide *;
    CoreFacts(s, 2, b);
    FillOf(s, b.state.fills, 0, i);
    FillOf(s, b.state.fills, 1, j);
    BothFills(s, b, i, j);
    RecordsCostRule(s, b.records, |b.records|);
    var q, start, end :=
      s.intents[0].quantity, Basis(s.spot[i].open, s.perpetual[i].open), Basis(s.spot[j].open, s.perpetual[j].open);
    ClosedEquityIs(b.state, spotMark, perpetualMark, q, start, end);
    NetValueIs(s, i, end, FillCosts(s, 0, i) + FillCosts(s, 1, j), b.cursor, InitialCapital(b.state), q, start,
               CostSum(b.records, |b.records|));
  }

  lemma ClosedEquityIs(x: State, spotMark: real, perpetualMark: real, q: real, start: real, end: real)
    requires Reachable(x) && x.lifecycle == FlatClosed && |x.fills| == 2
    requires q == x.fills[0].spot.execution.quantity
    requires start == Basis(x.fills[0].spot.execution.price, x.fills[0].perpetual.execution.price)
    requires end == Basis(x.fills[1].spot.execution.price, x.fills[1].perpetual.execution.price)
    ensures PortfolioEquity(x, spotMark, perpetualMark)
            == InitialCapital(x) + q * (end - start) - TotalCosts(x) - x.perpetual.fundingPaid
  {
    hide *;
    ClosedEquity(x, spotMark, perpetualMark);
  }

  lemma BothFills(s: Setup, b: Book, i: nat, j: nat)
    requires |s.spot| == |s.perpetual| && Core(s, 2, b) && |b.state.fills| == 2 && i < |s.spot| && j < |s.spot|
    requires FilledAt(s, b.state.fills[0], 0, i) && FilledAt(s, b.state.fills[1], 1, j)
    ensures b.state.fills[0].spot.execution.quantity == s.intents[0].quantity
    ensures b.state.fills[0].spot.execution.price == s.spot[i].open
    ensures b.state.fills[0].perpetual.execution.price == s.perpetual[i].open
    ensures b.state.fills[1].spot.execution.price == s.spot[j].open
    ensures b.state.fills[1].perpetual.execution.price == s.perpetual[j].open
    ensures TotalCosts(b.state) == FillCosts(s, 0, i) + FillCosts(s, 1, j)
    ensures b.state.perpetual.fundingPaid == CostSum(b.records, |b.records|) && |b.records| == b.cursor
    ensures InitialCapital(b.state) == s.spotCash + s.collateral
  {
    hide HistoryHolds, LedgersHold, RecordOf, FillsFollow;
  }

  // ----- every equity point

  lemma SweptCore(s: Setup, n: nat, b: Book)
    requires ValidSetup(s) && n < |s.spot| && RunsTo(s, n, b) && Sweep(s, b, Clock(s, n + 1)).Ok?
    ensures var swept := Sweep(s, b, Clock(s, n + 1)).value;
            && Core(s, Due(s.intents, Clock(s, n)), swept) && swept.cursor <= |s.events|
            && forall j :: 0 <= j < |s.events| ==> (j < swept.cursor <==> EventTime(s.events[j]) <= Clock(s, n + 1))
  {
    assert |s.spot| == |s.perpetual| && Uniform(s.spot);
    RunAlwaysHolds(s, n);
    ClockOf(s, n);
    hide Reachable, FillsFollow, Identity, Due, RunAt;
    var k := Due(s.intents, Clock(s, n));
    assert Core(s, k, b) && CursorExact(s, n, b) && NothingAfter(s, Clock(s, n), b.state);
    assert OrderFree(s, n, b);
    SweepHolds(s, n, b);
    hide Core, ValidSetup, Sweep;
  }

  /** `paid` counts the events due by the mark of candle n. */
  ghost predicate PaidBy(s: Setup, n: nat, paid: nat)
    requires s.spot != [] && Uniform(s.spot)
  {
    paid <= |s.events|
    && forall j :: 0 <= j < |s.events| ==> (j < paid <==> EventTime(s.events[j]) <= Clock(s, n + 1))
  }

  lemma PaidIsUnique(s: Setup, n: nat, p: nat, q: nat)
    requires s.spot != [] && Uniform(s.spot) && PaidBy(s, n, p) && PaidBy(s, n, q)
    ensures p == q
  {
    hide EventTime, Clock, Uniform;
    var least := if p < q then p else q;
    if least < |s.events| {
      assert least < p <==> EventTime(s.events[least]) <= Clock(s, n + 1);
      assert least < q <==> EventTime(s.events[least]) <= Clock(s, n + 1);
    }
  }

  /** Behind a mark stands a swept book of the declared stage that has paid exactly the due events. */
  lemma MarkedBook(s: Setup, n: nat, m: PortfolioMark, paid: nat) returns (x: Book)
    requires ValidSetup(s) && n < |s.spot| && IsMark(s, n, m) && PaidBy(s, n, paid)
    ensures |s.spot| == |s.perpetual| && Core(s, Due(s.intents, Clock(s, n)), x) && x.cursor == paid
    ensures m.equity == PortfolioEquity(x.state, s.spot[n].close, s.perpetual[n].close)
  {
    assert |s.spot| == |s.perpetual| && s.spot != [] && Uniform(s.spot);
    hide ValidSetup, Core, Sweep, RunsTo, MarkPortfolio, Uniform, Clock, Due, PortfolioEquity;
    var b :| RunsTo(s, n, b) && Marks(s, n, b, m);
    SweptCore(s, n, b);
    x := Sweep(s, b, Clock(s, n + 1)).value;
    assert PaidBy(s, n, x.cursor);
    PaidIsUnique(s, n, paid, x.cursor);
    MarkIsEquity(x.state, m, s.spot[n].close, PerpetualClose(s, n));
  }

  /** Before the open every mark is the capital. */
  lemma FlatMarkEquity(s: Setup, n: nat, m: PortfolioMark, paid: nat)
    requires ValidSetup(s) && n < |s.spot| && IsMark(s, n, m) && PaidBy(s, n, paid)
    requires Due(s.intents, Clock(s, n)) == 0
    ensures m.equity == s.spotCash + s.collateral
  {
    var x := MarkedBook(s, n, m, paid);
    FlatValue(s, x, s.spot[n].close, s.perpetual[n].close);
  }

  /** While hedged the mark moves with the basis of the closes, from the opens of the fill candle i. */
  lemma HedgedMarkEquity(s: Setup, n: nat, m: PortfolioMark, paid: nat, i: nat)
    requires ValidSetup(s) && n < |s.spot| && IsMark(s, n, m) && PaidBy(s, n, paid)
    requires Due(s.intents, Clock(s, n)) == 1 && 0 < i < |s.spot| && s.spot[i].openTime == s.intents[0].decisionTime
    ensures |s.spot| == |s.perpetual|
    ensures m.equity == NetValue(s, i, Basis(s.spot[n].close, s.perpetual[n].close), FillCosts(s, 0, i), paid)
  {
    var x := MarkedBook(s, n, m, paid);
    HedgedNetValue(s, x, i, s.spot[n].close, s.perpetual[n].close);
  }

  /** After the close every mark is fixed by the basis of the two fill candles i and j. */
  lemma ClosedMarkEquity(s: Setup, n: nat, m: PortfolioMark, paid: nat, i: nat, j: nat)
    requires ValidSetup(s) && n < |s.spot| && IsMark(s, n, m) && PaidBy(s, n, paid)
    requires Due(s.intents, Clock(s, n)) == 2 && 0 < i < |s.spot| && s.spot[i].openTime == s.intents[0].decisionTime
    requires 0 < j < |s.spot| && s.spot[j].openTime == s.intents[1].decisionTime
    ensures |s.spot| == |s.perpetual|
    ensures m.equity == NetValue(s, i, Basis(s.spot[j].open, s.perpetual[j].open),
                                 FillCosts(s, 0, i) + FillCosts(s, 1, j), paid)
  {
    var x := MarkedBook(s, n, m, paid);
    ClosedNetValue(s, x, i, j, s.spot[n].close, s.perpetual[n].close);
  }

  lemma MarkIsEquity(x: State, m: PortfolioMark, spotMark: real, perpetualMark: real)
    requires MarkPortfolio(x, m.time, spotMark, perpetualMark) == Outcomes.Ok(m)
    ensures m.equity == PortfolioEquity(x, spotMark, perpetualMark)
  {
  }
}
