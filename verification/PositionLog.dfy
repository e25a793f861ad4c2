/** Position intervals reconstructed from the fills of a replay, and the equity marks that
    carry the return of an interval. */
module PositionLog {
  import opened Outcomes
  import opened ProductFacts

  datatype Side = LongSide | ShortSide

  datatype PositionInterval = PositionInterval(side: Side, quantity: real, entry: int, exit: Option<int>)

  datatype OpenPosition = OpenPosition(side: Side, quantity: real, entry: int)

  datatype Fill = Fill(time: int, before: real, after: real)

  datatype Log = Log(closed: seq<PositionInterval>, open: Option<OpenPosition>)

  datatype RecorderError = NoPositionChange | Resize | NeverOpened | AlreadyOpen | ExitNotAfterEntry

  const EmptyLog := Log([], None)

  function Opened(f: Fill): Option<OpenPosition> {
    if f.after == 0.0 then None
    else Some(OpenPosition(if f.after > 0.0 then LongSide else ShortSide, Abs(f.after), f.time))
  }

  function Close(p: OpenPosition, time: int): PositionInterval {
    PositionInterval(p.side, p.quantity, p.entry, Some(time))
  }

  predicate IsResize(f: Fill) {
    f.before != 0.0 && f.after != 0.0 && (f.before > 0.0) == (f.after > 0.0)
  }

  function LogFill(log: Log, f: Fill): Result<Log, RecorderError> {
    if f.before == f.after then Err(NoPositionChange)
    else if IsResize(f) then Err(Resize)
    else if f.before != 0.0 then
      if log.open.None? then Err(NeverOpened)
      else if f.time <= log.open.value.entry then Err(ExitNotAfterEntry)
      else Ok(Log(log.closed + [Close(log.open.value, f.time)], Opened(f)))
    else if log.open.Some? then Err(AlreadyOpen)
    else Ok(Log(log.closed, Opened(f)))
  }

  function Intervals(log: Log): seq<PositionInterval> {
    log.closed +
    match log.open
    case None => []
    case Some(p) => [PositionInterval(p.side, p.quantity, p.entry, None)]
  }

  function TransitionCount(intervals: seq<PositionInterval>): nat {
    if intervals == [] then 0
    else TransitionCount(intervals[..|intervals| - 1])
         + if intervals[|intervals| - 1].exit.None? then 1 else 2
  }

  class PositionIntervalRecorder {
    var closed: seq<PositionInterval>
    var open: Option<OpenPosition>

    function Contents(): Log
      reads this
    {
      Log(closed, open)
    }

    constructor ()
      ensures Contents() == EmptyLog
    {
      closed, open := [], None;
    }

    /** A refused fill leaves the record untouched. */
    method OnFill(time: int, before: real, after: real) returns (error: Option<RecorderError>)
      modifies this
      ensures match LogFill(old(Contents()), Fill(time, before, after))
              case Ok(log) => error.None? && Contents() == log
              case Err(e) => error == Some(e) && Contents() == old(Contents())
    {
      var f := Fill(time, before, after);
      if before == after {
        return Some(NoPositionChange);
      }
      if IsResize(f) {
        return Some(Resize);
      }
      if before != 0.0 {
        if open.None? {
          return Some(NeverOpened);
        }
        if time <= open.value.entry {
          return Some(ExitNotAfterEntry);
        }
        closed := closed + [Close(open.value, time)];
        open := None;
      } else if open.Some? {
        return Some(AlreadyOpen);
      }
      if after != 0.0 {
        open := Some(OpenPosition(if after > 0.0 then LongSide else ShortSide, Abs(after), time));
      }
      return None;
    }
  }

  // ----- the record of a whole run

  /** Fills that follow one another: each starts where the previous one ended, strictly later. */
  ghost predicate LegalFills(fills: seq<Fill>) {
    && (forall k :: 0 <= k < |fills| ==> fills[k].before != fills[k].after && !IsResize(fills[k]))
    && (forall k {:trigger Linked(fills, k)} :: 0 <= k < |fills| ==> Linked(fills, k))
    && (forall j, k :: 0 <= j < k < |fills| ==> fills[j].time < fills[k].time)
  }

  ghost predicate Linked(fills: seq<Fill>, k: nat)
    requires k < |fills|
  {
    fills[k].before == PositionAfter(fills, k)
  }

  function PositionAfter(fills: seq<Fill>, k: nat): real
    requires k <= |fills|
  {
    if k == 0 then 0.0 else fills[k - 1].after
  }

  function LogOf(fills: seq<Fill>, k: nat): Log
    requires k <= |fills|
  {
    if k == 0 then EmptyLog
    else
      var before := LogOf(fills, k - 1);
      match LogFill(before, fills[k - 1])
      case Ok(log) => log
      case Err(_) => before
  }

  /** The recorder never refuses a fill of a legal run, and its open position is the one held. */
  lemma {:induction false} RecorderNeverRaises(fills: seq<Fill>, k: nat)
    requires LegalFills(fills) && k <= |fills|
    ensures LogOf(fills, k).open == if k == 0 then None else Opened(fills[k - 1])
    ensures k < |fills| ==> LogFill(LogOf(fills, k), fills[k]) == Ok(LogOf(fills, k + 1))
  {
    if k > 0 {
      RecorderNeverRaises(fills, k - 1);
    }
    if k < |fills| {
      assert Linked(fills, k);
    }
  }

  /** What one fill of a legal run does to the record. */
  lemma LogStep(fills: seq<Fill>, k: nat)
    requires LegalFills(fills) && k < |fills|
    ensures var log, next := LogOf(fills, k), LogOf(fills, k + 1);
            && next.open == Opened(fills[k])
            && (fills[k].before == 0.0 ==> log.open.None? && next.closed == log.closed)
            && (fills[k].before != 0.0 ==>
                  && log.open.Some? && log.open.value.entry < fills[k].time
                  && next.closed == log.closed + [Close(log.open.value, fills[k].time)])
  {
    RecorderNeverRaises(fills, k);
    assert Linked(fills, k);
    assert k > 0 ==> fills[k - 1].time < fills[k].time;
  }

  lemma OpenedAt(f: Fill)
    ensures Opened(f).Some? <==> f.after != 0.0
    ensures Opened(f).Some? ==> Opened(f).value.entry == f.time
  {
  }

  lemma OpenedHolds(f: Fill)
    ensures Opened(f).Some? ==>
              var p := Opened(f).value;
              p.quantity > 0.0 && f.after == if p.side == LongSide then p.quantity else -p.quantity
  {
  }

  ghost predicate Chronological(log: Log) {
    && (forall a :: 0 <= a < |log.closed| ==>
          log.closed[a].exit.Some? && log.closed[a].entry < log.closed[a].exit.value)
    && (forall a, b :: 0 <= a < b < |log.closed| ==> log.closed[a].exit.value <= log.closed[b].entry)
    && (log.open.Some? ==>
          forall a :: 0 <= a < |log.closed| ==> log.closed[a].exit.value <= log.open.value.entry)
  }

  /** Recorded intervals are non-empty and chronological, and closed no later than the last fill. */
  lemma {:induction false} RecordChronological(fills: seq<Fill>, k: nat)
    requires LegalFills(fills) && k <= |fills|
    ensures Chronological(LogOf(fills, k))
    ensures k > 0 ==> forall a :: 0 <= a < |LogOf(fills, k).closed| ==>
                        LogOf(fills, k).closed[a].exit.value <= fills[k - 1].time
    ensures k == 0 ==> LogOf(fills, k) == EmptyLog
  {
    if k > 0 {
      RecordChronological(fills, k - 1);
      LogStep(fills, k - 1);
      OpenedAt(fills[k - 1]);
      assert k > 1 ==> fills[k - 2].time < fills[k - 1].time;
      hide LegalFills, LogOf, Opened;
    }
  }

  lemma IntervalsOrdered(fills: seq<Fill>, a: nat, b: nat)
    requires LegalFills(fills)
    requires a < b < |Intervals(LogOf(fills, |fills|))|
    ensures var intervals := Intervals(LogOf(fills, |fills|));
            intervals[a].exit.Some? && intervals[a].entry < intervals[a].exit.value <= intervals[b].entry
  {
    RecordChronological(fills, |fills|);
  }

  /** Each interval accounts for the transition that opened it and, once closed, the one that
      closed it: the recorder and the engine count the same transitions. */
  function Transitions(fills: seq<Fill>, k: nat): nat
    requires k <= |fills|
  {
    if k == 0 then 0
    else Transitions(fills, k - 1) + if fills[k - 1].before == 0.0 || fills[k - 1].after == 0.0 then 1 else 2
  }

  lemma {:induction false} AllClosedCount(intervals: seq<PositionInterval>)
    requires forall a :: 0 <= a < |intervals| ==> intervals[a].exit.Some?
    ensures TransitionCount(intervals) == 2 * |intervals|
  {
    if intervals != [] {
      AllClosedCount(intervals[..|intervals| - 1]);
    }
  }

  lemma TransitionCountOf(log: Log)
    requires forall a :: 0 <= a < |log.closed| ==> log.closed[a].exit.Some?
    ensures TransitionCount(Intervals(log)) == 2 * |log.closed| + if log.open.Some? then 1 else 0
  {
    AllClosedCount(log.closed);
    if log.open.Some? {
      assert Intervals(log)[..|Intervals(log)| - 1] == log.closed;
    } else {
      assert Intervals(log) == log.closed;
    }
  }

  lemma {:induction false} TransitionsAreRecorded(fills: seq<Fill>, k: nat)
    requires LegalFills(fills) && k <= |fills|
    ensures Transitions(fills, k) == TransitionCount(Intervals(LogOf(fills, k)))
  {
    RecordChronological(fills, k);
    TransitionCountOf(LogOf(fills, k));
    if k > 0 {
      TransitionsAreRecorded(fills, k - 1);
      RecordChronological(fills, k - 1);
      TransitionCountOf(LogOf(fills, k - 1));
      LogStep(fills, k - 1);
      OpenedAt(fills[k - 1]);
      assert fills[k - 1].before != fills[k - 1].after;
      hide LegalFills, LogOf, Opened, TransitionCount, Intervals, Chronological;
    }
  }

  /** The interval records the position that fill j left: long or short by its sign, of its size, from
      fill j to the next of the first n fills, or still open when j is the last of them. */
  ghost predicate RecordsHolding(fills: seq<Fill>, n: nat, j: nat, i: PositionInterval)
    requires j < n <= |fills|
  {
    && fills[j].after == (if i.side == LongSide then i.quantity else -i.quantity)
    && i.quantity > 0.0
    && i.entry == fills[j].time
    && i.exit == if j + 1 < n then Some(fills[j + 1].time) else None
  }

  /** Every position a fill left is on record, with its side, size, entry and exit. */
  lemma {:induction false} OpenPersists(fills: seq<Fill>, k: nat, n: nat)
    returns (a: nat)
    requires LegalFills(fills) && 0 < k <= n <= |fills| && fills[k - 1].after != 0.0
    ensures var intervals := Intervals(LogOf(fills, n));
            a < |intervals| && RecordsHolding(fills, n, k - 1, intervals[a])
  {
    LogStep(fills, n - 1);
    OpenedAt(fills[n - 1]);
    OpenedHolds(fills[n - 1]);
    hide LegalFills, LogOf, Opened;
    if n == k {
      a := |LogOf(fills, n).closed|;
    } else {
      a := OpenPersists(fills, k, n - 1);
      var before := LogOf(fills, n - 1);
      LaterFill(fills, k, n);
      RecordChronological(fills, n - 1);
      if a < |before.closed| || fills[n - 1].before == 0.0 {
        assert Intervals(LogOf(fills, n))[a] == Intervals(before)[a];
      } else {
        assert Intervals(LogOf(fills, n))[a] == Close(before.open.value, fills[n - 1].time);
      }
    }
  }

  lemma LaterFill(fills: seq<Fill>, k: nat, n: nat)
    requires LegalFills(fills) && k < n <= |fills|
    ensures fills[k].before == PositionAfter(fills, k)
  {
    assert Linked(fills, k);
  }

  /** Every interval on record is a position some fill left. */
  lemma {:induction false} IntervalIsHolding(fills: seq<Fill>, n: nat, a: nat)
    returns (j: nat)
    requires LegalFills(fills) && n <= |fills| && a < |Intervals(LogOf(fills, n))|
    ensures j < n && RecordsHolding(fills, n, j, Intervals(LogOf(fills, n))[a])
  {
    RecordChronological(fills, n);
    LogStep(fills, n - 1);
    OpenedAt(fills[n - 1]);
    OpenedHolds(fills[n - 1]);
    RecordChronological(fills, n - 1);
    var log, before := LogOf(fills, n), LogOf(fills, n - 1);
    hide LegalFills, LogOf, Opened;
    if a < |log.closed| {
      j := IntervalIsHolding(fills, n - 1, a);
      assert a < |before.closed| ==> Intervals(before)[a] == log.closed[a];
    } else {
      j := n - 1;
    }
  }

  /** A fill that leaves a position closes an interval ending at that fill, for good. */
  lemma {:induction false} ClosePersists(fills: seq<Fill>, k: nat, n: nat)
    returns (a: nat)
    requires LegalFills(fills) && k < n <= |fills| && fills[k].before != 0.0
    ensures var intervals := Intervals(LogOf(fills, n));
            && a < |LogOf(fills, n).closed| <= |intervals|
            && intervals[a].exit == Some(fills[k].time)
            && intervals[a].entry < fills[k].time
  {
    LogStep(fills, n - 1);
    hide LegalFills, LogOf, Opened;
    if n == k + 1 {
      a := |LogOf(fills, k).closed|;
    } else {
      a := ClosePersists(fills, k, n - 1);
      assert LogOf(fills, n).closed[a] == LogOf(fills, n - 1).closed[a];
    }
  }

  // ----- the marks that carry an interval's return

  function FirstAfter(marks: seq<int>, t: int): (m: Option<int>)
    ensures m.None? <==> forall k :: 0 <= k < |marks| ==> marks[k] <= t
    ensures m.Some? ==> m.value > t && m.value in marks
  {
    if marks == [] then None
    else if marks[0] > t then Some(marks[0])
    else FirstAfter(marks[1..], t)
  }

  function Between(marks: seq<int>, after: int, last: Option<int>): (r: seq<int>)
    ensures forall m :: m in r <==> m in marks && after < m && (last.Some? ==> m <= last.value)
  {
    if marks == [] then []
    else
      (if after < marks[0] && (last.Some? ==> marks[0] <= last.value) then [marks[0]] else [])
      + Between(marks[1..], after, last)
  }

  function ReturnMarks(i: PositionInterval, marks: seq<int>): seq<int> {
    match i.exit
    case None => Between(marks, i.entry, None)
    case Some(exit) =>
      match FirstAfter(marks, exit)
      case None => Between(marks, i.entry, Some(exit))
      case Some(m) => Between(marks, i.entry, Some(m))
  }

  ghost predicate StrictlyAscending(marks: seq<int>) {
    forall a, b :: 0 <= a < b < |marks| ==> marks[a] < marks[b]
  }

  lemma {:induction false} FirstAfterIsFirst(marks: seq<int>, t: int, m: int)
    requires StrictlyAscending(marks) && m in marks && m > t
    ensures FirstAfter(marks, t).Some? && FirstAfter(marks, t).value <= m
  {
    if marks[0] <= t {
      assert m in marks[1..];
      FirstAfterIsFirst(marks[1..], t, m);
    }
  }

  /** Return marks: later than the entry, and with no other mark strictly between exit and them. */
  lemma ReturnMarksMeaning(i: PositionInterval, marks: seq<int>, m: int)
    requires StrictlyAscending(marks)
    ensures m in ReturnMarks(i, marks) <==>
            && m in marks && i.entry < m
            && (i.exit.Some? ==> forall k :: 0 <= k < |marks| && i.exit.value < marks[k] ==> m <= marks[k])
  {
    if i.exit.Some? {
      var first := FirstAfter(marks, i.exit.value);
      if first.Some? {
        forall k | 0 <= k < |marks| && i.exit.value < marks[k]
          ensures first.value <= marks[k]
        {
          FirstAfterIsFirst(marks, i.exit.value, marks[k]);
        }
        var k :| 0 <= k < |marks| && marks[k] == first.value;
      } else if m in marks {
        var k :| 0 <= k < |marks| && marks[k] == m;
        assert m <= i.exit.value;
      }
    }
  }

  /** Consecutive intervals share no mark, except at a reversal, where the one mark that carries
      both the exit of the first and the entry of the second is shared. */
  lemma SharedMark(a: PositionInterval, b: PositionInterval, marks: seq<int>, m: int)
    requires StrictlyAscending(marks)
    requires a.exit.Some? && a.entry < a.exit.value <= b.entry && b.entry in marks
    requires m in ReturnMarks(a, marks) && m in ReturnMarks(b, marks)
    ensures a.exit.value == b.entry && FirstAfter(marks, b.entry) == Some(m)
  {
    ReturnMarksMeaning(a, marks, m);
    ReturnMarksMeaning(b, marks, m);
    var k :| 0 <= k < |marks| && marks[k] == b.entry;
    FirstAfterIsFirst(marks, b.entry, m);
    var first := FirstAfter(marks, b.entry).value;
    var j :| 0 <= j < |marks| && marks[j] == first;
    assert m <= marks[j];
  }
}
