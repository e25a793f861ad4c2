/** Three interval-union walks over half-open intervals, each proved to decide point coverage, and
    the funding quality report built on the gaps of the union. */
module Coverage {
  import opened Outcomes
  import opened Market

  /** The half-open interval [start, end). */
  datatype Interval = Interval(start: int, end: int)

  const MAX_SAMPLES: nat := 20

  ghost predicate Contains(i: Interval, t: int) {
    i.start <= t < i.end
  }

  ghost predicate CoveredBy(intervals: seq<Interval>, n: nat, t: int)
    requires n <= |intervals|
  {
    exists k :: 0 <= k < n && Contains(intervals[k], t)
  }

  /** Every instant of [start, end) lies in some interval. */
  ghost predicate CoversRange(intervals: seq<Interval>, start: int, end: int) {
    forall t :: start <= t < end ==> CoveredBy(intervals, |intervals|, t)
  }

  predicate PairLess(a: Interval, b: Interval) {
    a.start < b.start || (a.start == b.start && a.end < b.end)
  }

  ghost predicate SortedUpTo(intervals: seq<Interval>, n: nat)
    requires n <= |intervals|
  {
    forall i, j :: 0 <= i < j < n ==> !PairLess(intervals[j], intervals[i])
  }

  // ----- gaps of the union

  datatype GapError = NoOverlap | Unordered

  ghost predicate GapsAccepted(intervals: seq<Interval>, start: int, end: int) {
    && SortedUpTo(intervals, |intervals|)
    && forall i :: 0 <= i < |intervals| ==> intervals[i].end > start && intervals[i].start < end
  }

  ghost predicate InSomeGap(gaps: seq<Interval>, t: int) {
    exists k :: 0 <= k < |gaps| && Contains(gaps[k], t)
  }

  /** Non-empty, inside [start, end), ascending and pairwise apart (so no two could be joined). */
  ghost predicate Apart(gaps: seq<Interval>, start: int, end: int) {
    && (forall k :: 0 <= k < |gaps| ==> start <= gaps[k].start < gaps[k].end <= end)
    && (forall j, k :: 0 <= j < k < |gaps| ==> gaps[j].end < gaps[k].start)
  }

  /** The maximal uncovered intervals of the range. */
  ghost predicate AreGaps(gaps: seq<Interval>, intervals: seq<Interval>, start: int, end: int) {
    && Apart(gaps, start, end)
    && forall t :: start <= t < end ==> (InSomeGap(gaps, t) <==> !CoveredBy(intervals, |intervals|, t))
  }

  /** The walk's own state: exact up to the cursor, nothing decided after it. */
  ghost predicate Walked(
    gaps: seq<Interval>, intervals: seq<Interval>, n: nat, start: int, end: int, cursor: int)
    requires n <= |intervals|
  {
    && start <= cursor <= end
    && Apart(gaps, start, cursor)
    && (forall k :: 0 <= k < |gaps| ==> gaps[k].end < cursor && n > 0 && gaps[k].end <= intervals[n - 1].start)
    && (forall t :: start <= t < cursor ==> (InSomeGap(gaps, t) <==> !CoveredBy(intervals, n, t)))
    && (forall t :: cursor <= t < end ==> !CoveredBy(intervals, n, t))
  }

  method ComputeCoverageGaps(intervals: seq<Interval>, start: int, end: int)
    returns (r: Result<seq<Interval>, GapError>)
    requires start < end && forall i :: 0 <= i < |intervals| ==> intervals[i].start < intervals[i].end
    ensures r.Ok? <==> GapsAccepted(intervals, start, end)
    ensures r.Ok? ==> AreGaps(r.value, intervals, start, end)
  {
    var gaps: seq<Interval> := [];
    var cursor := start;
    var previous: Option<Interval> := None;
    assert Walked(gaps, intervals, 0, start, end, cursor);
    assert SortedUpTo(intervals, 0);
    for i := 0 to |intervals|
      invariant Walked(gaps, intervals, i, start, end, cursor)
      invariant previous == if i == 0 then None else Some(intervals[i - 1])
      invariant SortedUpTo(intervals, i)
      invariant forall j :: 0 <= j < i ==> intervals[j].end > start && intervals[j].start < end
    {
      var interval := intervals[i];
      if !(interval.end > start && interval.start < end) {
        assert !GapsAccepted(intervals, start, end);
        return Err(NoOverlap);
      }
      if previous.Some? && PairLess(interval, previous.value) {
        assert !GapsAccepted(intervals, start, end);
        return Err(GapError.Unordered);
      }
      SortedGrows(intervals, i);
      previous := Some(interval);
      var clippedStart := if interval.start > start then interval.start else start;
      var clippedEnd := if interval.end < end then interval.end else end;
      ghost var before := gaps;
      WalkOn(gaps, intervals, i, start, end, cursor);
      if clippedStart > cursor {
        gaps := gaps + [Interval(cursor, clippedStart)];
      }
      cursor := if clippedEnd > cursor then clippedEnd else cursor;
    }
    assert GapsAccepted(intervals, start, end);
    WalkEnds(gaps, intervals, start, end, cursor);
    if cursor < end {
      gaps := gaps + [Interval(cursor, end)];
    }
    return Ok(gaps);
  }

  lemma SortedGrows(intervals: seq<Interval>, i: nat)
    requires i < |intervals| && SortedUpTo(intervals, i)
    requires i > 0 ==> !PairLess(intervals[i], intervals[i - 1])
    ensures SortedUpTo(intervals, i + 1)
  {
    if i > 0 {
      forall j | 0 <= j < i
        ensures !PairLess(intervals[i], intervals[j])
      {
      }
    }
  }

  lemma OneMoreInterval(intervals: seq<Interval>, n: nat, t: int)
    requires n < |intervals|
    ensures CoveredBy(intervals, n + 1, t) <==> CoveredBy(intervals, n, t) || Contains(intervals[n], t)
  {
    hide Contains;
  }

  lemma OneMoreGap(gaps: seq<Interval>, g: Interval, t: int)
    ensures InSomeGap(gaps + [g], t) <==> InSomeGap(gaps, t) || Contains(g, t)
  {
    hide Contains;
    var after := gaps + [g];
    assert after[|gaps|] == g;
    if k :| 0 <= k < |gaps| && Contains(gaps[k], t) {
      assert after[k] == gaps[k];
    }
  }

  function WalkedGaps(gaps: seq<Interval>, cursor: int, next: int): seq<Interval> {
    if next > cursor then gaps + [Interval(cursor, next)] else gaps
  }

  lemma WalkedGapPoint(gaps: seq<Interval>, cursor: int, next: int, t: int)
    ensures InSomeGap(WalkedGaps(gaps, cursor, next), t) <==> InSomeGap(gaps, t) || cursor <= t < next
  {
    if next > cursor {
      OneMoreGap(gaps, Interval(cursor, next), t);
    }
    hide InSomeGap;
  }

  lemma WalkOn(gaps: seq<Interval>, intervals: seq<Interval>, i: nat, start: int, end: int, cursor: int)
    requires i < |intervals| && Walked(gaps, intervals, i, start, end, cursor) && SortedUpTo(intervals, i + 1)
    requires intervals[i].start < intervals[i].end && intervals[i].end > start && intervals[i].start < end
    ensures var interval := intervals[i];
            var clippedStart := if interval.start > start then interval.start else start;
            var clippedEnd := if interval.end < end then interval.end else end;
            Walked(WalkedGaps(gaps, cursor, clippedStart),
                   intervals, i + 1, start, end, if clippedEnd > cursor then clippedEnd else cursor)
  {
    hide Apart, WalkedGaps;
    var interval, m := intervals[i], i + 1;
    var clippedStart := if interval.start > start then interval.start else start;
    var clippedEnd := if interval.end < end then interval.end else end;
    var next := if clippedEnd > cursor then clippedEnd else cursor;
    var after := WalkedGaps(gaps, cursor, clippedStart);
    assert i > 0 ==> intervals[i - 1].start <= interval.start;
    assert start <= cursor <= end;
    forall t | start <= t < end
      ensures t < next ==> (InSomeGap(after, t) <==> !CoveredBy(intervals, m, t))
      ensures next <= t ==> !CoveredBy(intervals, m, t)
    {
      PointWalked(gaps, intervals, i, start, end, cursor, t);
    }
    GapsStayApart(gaps, intervals, i, start, end, cursor);
    assert Walked(after, intervals, m, start, end, next) by {
      hide Apart, WalkedGaps, CoveredBy, InSomeGap;
    }
  }

  lemma GapsStayApart(gaps: seq<Interval>, intervals: seq<Interval>, i: nat, start: int, end: int, cursor: int)
    requires i < |intervals| && Walked(gaps, intervals, i, start, end, cursor)
    requires i > 0 ==> intervals[i - 1].start <= intervals[i].start
    requires intervals[i].start < intervals[i].end && intervals[i].end > start && intervals[i].start < end
    ensures var interval := intervals[i];
            var clippedStart := if interval.start > start then interval.start else start;
            var clippedEnd := if interval.end < end then interval.end else end;
            var next := if clippedEnd > cursor then clippedEnd else cursor;
            var after := WalkedGaps(gaps, cursor, clippedStart);
            && cursor <= next <= end
            && Apart(after, start, next)
            && forall k :: 0 <= k < |after| ==> after[k].end < next && after[k].end <= interval.start
  {
    hide InSomeGap, CoveredBy;
  }

  lemma PointWalked(
    gaps: seq<Interval>, intervals: seq<Interval>, i: nat, start: int, end: int, cursor: int, t: int)
    requires i < |intervals| && Walked(gaps, intervals, i, start, end, cursor)
    requires i > 0 ==> intervals[i - 1].start <= intervals[i].start
    requires start <= t < end
    ensures var interval := intervals[i];
            var clippedStart := if interval.start > start then interval.start else start;
            var clippedEnd := if interval.end < end then interval.end else end;
            var next := if clippedEnd > cursor then clippedEnd else cursor;
            && (t < next ==>
                  (InSomeGap(WalkedGaps(gaps, cursor, clippedStart), t) <==> !CoveredBy(intervals, i + 1, t)))
            && (next <= t ==> !CoveredBy(intervals, i + 1, t))
  {
    var clippedStart := if intervals[i].start > start then intervals[i].start else start;
    OneMoreInterval(intervals, i, t);
    WalkedGapPoint(gaps, cursor, clippedStart, t);
    GapsBefore(gaps, intervals[i].start, t);
    hide InSomeGap, CoveredBy, WalkedGaps, Apart;
  }

  /** A point of a gap that ends by s lies before s. */
  lemma GapsBefore(gaps: seq<Interval>, s: int, t: int)
    requires forall k :: 0 <= k < |gaps| ==> gaps[k].end <= s
    ensures InSomeGap(gaps, t) ==> t < s
  {
  }

  lemma WalkEnds(gaps: seq<Interval>, intervals: seq<Interval>, start: int, end: int, cursor: int)
    requires Walked(gaps, intervals, |intervals|, start, end, cursor)
    ensures AreGaps(WalkedGaps(gaps, cursor, end), intervals, start, end)
  {
    hide InSomeGap, CoveredBy;
    forall t | start <= t < end
      ensures InSomeGap(WalkedGaps(gaps, cursor, end), t) <==> !CoveredBy(intervals, |intervals|, t)
    {
      WalkedGapPoint(gaps, cursor, end, t);
      GapsBefore(gaps, cursor, t);
    }
  }

  // ----- the gaps are unique, so the walk computes the only maximal decomposition

  lemma {:induction false} GapsAreUnique(a: seq<Interval>, b: seq<Interval>, start: int, end: int)
    requires Apart(a, start, end) && Apart(b, start, end)
    requires forall t :: start <= t < end ==> (InSomeGap(a, t) <==> InSomeGap(b, t))
    ensures a == b
    decreases |a|
  {
    if a == [] && b == [] {
    } else if a == [] {
      assert Contains(b[0], b[0].start);
      assert InSomeGap(b, b[0].start);
    } else {
      FirstGapAgrees(a, b, start, end);
      FirstGapAgrees(b, a, start, end);
      var from := a[0].end;
      forall t | from <= t < end
        ensures InSomeGap(a[1..], t) <==> InSomeGap(b[1..], t)
      {
        OneMoreGap([], a[0], t);
        TailGap(a, t);
        TailGap(b, t);
      }
      GapsAreUnique(a[1..], b[1..], from, end);
      assert a == [a[0]] + a[1..] && b == [b[0]] + b[1..];
    }
  }

  lemma TailGap(gaps: seq<Interval>, t: int)
    requires gaps != [] && t >= gaps[0].end
    ensures InSomeGap(gaps, t) <==> InSomeGap(gaps[1..], t)
  {
    if k :| 0 <= k < |gaps| && Contains(gaps[k], t) {
      assert gaps[1..][k - 1] == gaps[k];
    }
    if k :| 0 <= k < |gaps[1..]| && Contains(gaps[1..][k], t) {
      assert gaps[k + 1] == gaps[1..][k];
    }
  }

  /** The other list's first gap starts no later and, starting there, ends no earlier. */
  lemma FirstGapAgrees(a: seq<Interval>, b: seq<Interval>, start: int, end: int)
    requires Apart(a, start, end) && Apart(b, start, end) && a != []
    requires forall t :: start <= t < end ==> (InSomeGap(a, t) <==> InSomeGap(b, t))
    ensures b != [] && b[0].start <= a[0].start
    ensures b[0].start == a[0].start ==> b[0].end >= a[0].end
  {
    assert Contains(a[0], a[0].start);
    assert InSomeGap(a, a[0].start);
    var k :| 0 <= k < |b| && Contains(b[k], a[0].start);
    HeadGap(a, b[0].end);
    PastHeadGap(b, start, end);
  }

  lemma HeadGap(gaps: seq<Interval>, t: int)
    requires gaps != []
    ensures InSomeGap(gaps, t) || t < gaps[0].start || gaps[0].end <= t
  {
    if gaps[0].start <= t < gaps[0].end {
      assert Contains(gaps[0], t);
    }
  }

  lemma PastHeadGap(gaps: seq<Interval>, start: int, end: int)
    requires Apart(gaps, start, end) && gaps != []
    ensures !InSomeGap(gaps, gaps[0].end)
  {
  }

  // ----- the quality report

  datatype Status = Pass | Fail

  datatype Report = Report(
    exchange: string, marketType: string, symbol: string, start: int, end: int,
    eventCount: nat, gapCount: nat, gapSamples: seq<Interval>, status: Status)

  datatype ReportError =
    | EmptyRange
    | ForeignPartition
    | Events(why: FundingError)
    | Gaps(whyGaps: GapError)

  ghost predicate ReportAccepted(
    exchange: string, marketType: string, symbol: string, start: int, end: int,
    events: seq<HistoricalFundingEvent>, intervals: seq<Interval>)
  {
    && start < end
    && ValidFunding(events, symbol, start, end)
    && (events != [] ==> events[0].exchange == exchange && events[0].marketType == marketType)
    && GapsAccepted(intervals, start, end)
  }

  /** PASS means that every instant of the range is covered; the samples are the first gaps. */
  method BuildReport(
    exchange: string, marketType: string, symbol: string, start: int, end: int,
    events: seq<HistoricalFundingEvent>, intervals: seq<Interval>)
    returns (r: Result<Report, ReportError>)
    requires forall i :: 0 <= i < |intervals| ==> intervals[i].start < intervals[i].end
    ensures r.Ok? <==> ReportAccepted(exchange, marketType, symbol, start, end, events, intervals)
    ensures r.Ok? ==>
              && (r.value.status == Pass <==> CoversRange(intervals, start, end))
              && r.value.eventCount == |events|
              && exists gaps ::
                   && AreGaps(gaps, intervals, start, end)
                   && r.value.gapCount == |gaps|
                   && |r.value.gapSamples| == (if |gaps| < MAX_SAMPLES then |gaps| else MAX_SAMPLES)
                   && r.value.gapSamples <= gaps
  {
    if start >= end {
      return Err(EmptyRange);
    }
    if events != [] && (events[0].exchange != exchange || events[0].marketType != marketType) {
      return Err(ForeignPartition);
    }
    var invalid := ValidateFundingEvents(events, symbol, start, end);
    if invalid.Some? {
      return Err(Events(invalid.value));
    }
    var gaps := ComputeCoverageGaps(intervals, start, end);
    if gaps.Err? {
      return Err(Gaps(gaps.error));
    }
    NoGapsIffCovered(gaps.value, intervals, start, end);
    var samples := if |gaps.value| < MAX_SAMPLES then gaps.value else gaps.value[..MAX_SAMPLES];
    return Ok(Report(exchange, marketType, symbol, start, end, |events|, |gaps.value|, samples,
                     if |gaps.value| == 0 then Pass else Fail));
  }

  lemma NoGapsIffCovered(gaps: seq<Interval>, intervals: seq<Interval>, start: int, end: int)
    requires AreGaps(gaps, intervals, start, end)
    ensures gaps == [] <==> CoversRange(intervals, start, end)
  {
    if gaps != [] {
      var t := gaps[0].start;
      assert Contains(gaps[0], t);
      assert InSomeGap(gaps, t);
    }
    hide CoveredBy;
  }

  // ----- the two walks over sorted intervals

  function Insert(x: Interval, sorted: seq<Interval>): seq<Interval> {
    if sorted == [] || !PairLess(sorted[0], x) then [x] + sorted
    else [sorted[0]] + Insert(x, sorted[1..])
  }

  /** The intervals ordered by (start, end). */
  function Sort(intervals: seq<Interval>): seq<Interval> {
    if intervals == [] then [] else Insert(intervals[0], Sort(intervals[1..]))
  }

  ghost predicate Ascends(s: seq<Interval>) {
    SortedUpTo(s, |s|)
  }

  lemma {:induction false} InsertKeeps(x: Interval, s: seq<Interval>)
    requires Ascends(s)
    ensures Ascends(Insert(x, s))
    ensures multiset(Insert(x, s)) == multiset(s) + multiset{x}
  {
    if s != [] && PairLess(s[0], x) {
      var rest := Insert(x, s[1..]);
      assert s == [s[0]] + s[1..] && !PairLess(x, s[0]);
      assert Insert(x, s) == [s[0]] + rest;
      FirstIsLeast(s);
      InsertKeeps(x, s[1..]);
      hide Insert, PairLess;
      forall r | r in rest
        ensures !PairLess(r, s[0])
      {
        assert r in multiset(rest);
      }
      PrependAscends(s[0], rest);
    } else if s != [] {
      FirstIsLeast(s);
      forall r | r in s
        ensures !PairLess(r, x)
      {
      }
      PrependAscends(x, s);
    }
  }

  lemma FirstIsLeast(s: seq<Interval>)
    requires Ascends(s) && s != []
    ensures forall r :: r in s ==> !PairLess(r, s[0])
  {
  }

  lemma PrependAscends(x: Interval, s: seq<Interval>)
    requires Ascends(s) && forall r :: r in s ==> !PairLess(r, x)
    ensures Ascends([x] + s)
  {
  }

  lemma {:induction false} SortKeeps(intervals: seq<Interval>)
    ensures Ascends(Sort(intervals))
    ensures multiset(Sort(intervals)) == multiset(intervals)
  {
    if intervals != [] {
      SortKeeps(intervals[1..]);
      InsertKeeps(intervals[0], Sort(intervals[1..]));
      assert intervals == [intervals[0]] + intervals[1..];
    }
  }

  /** Point coverage does not depend on the order of the intervals. */
  lemma CoverageIgnoresOrder(a: seq<Interval>, b: seq<Interval>, start: int, end: int)
    requires multiset(a) == multiset(b) && CoversRange(a, start, end)
    ensures CoversRange(b, start, end)
  {
    forall t | start <= t < end
      ensures CoveredBy(b, |b|, t)
    {
      assert CoveredBy(a, |a|, t);
      var k :| 0 <= k < |a| && Contains(a[k], t);
      assert a[k] in multiset(b);
    }
  }

  /** Everything from start to the cursor is covered and no earlier interval reaches beyond it. */
  ghost predicate Reached(ordered: seq<Interval>, n: nat, start: int, cursor: int)
    requires n <= |ordered|
  {
    && start <= cursor
    && (forall t :: start <= t < cursor ==> CoveredBy(ordered, |ordered|, t))
    && (forall k :: 0 <= k < n ==> ordered[k].end <= cursor)
  }

  lemma ReachFurther(ordered: seq<Interval>, n: nat, start: int, cursor: int)
    requires n < |ordered| && Reached(ordered, n, start, cursor) && ordered[n].start <= cursor
    ensures Reached(ordered, n + 1, start, if ordered[n].end > cursor then ordered[n].end else cursor)
  {
    forall t | cursor <= t < ordered[n].end
      ensures CoveredBy(ordered, |ordered|, t)
    {
      assert Contains(ordered[n], t);
    }
  }

  /** A later interval that starts beyond the cursor leaves the cursor itself uncovered. */
  lemma Stranded(ordered: seq<Interval>, n: nat, start: int, cursor: int)
    requires n <= |ordered| && Ascends(ordered) && Reached(ordered, n, start, cursor)
    requires n < |ordered| ==> ordered[n].start > cursor
    ensures !CoveredBy(ordered, |ordered|, cursor)
  {
  }

  /** The union contains the range exactly when every instant of it is covered. */
  method CoverageContains(intervals: seq<Interval>, start: int, end: int) returns (r: bool)
    ensures r <==> CoversRange(intervals, start, end)
  {
    var cursor := start;
    var ordered := Sort(intervals);
    SortedAgrees(intervals, start, end);
    assert Reached(ordered, 0, start, cursor);
    var i := 0;
    while i < |ordered|
      invariant i <= |ordered| && Reached(ordered, i, start, cursor)
    {
      if cursor >= end {
        break;
      }
      if ordered[i].start > cursor {
        Stranded(ordered, i, start, cursor);
        assert start <= cursor;
        return false;
      }
      ReachFurther(ordered, i, start, cursor);
      cursor := if ordered[i].end > cursor then ordered[i].end else cursor;
      i := i + 1;
    }
    if cursor < end {
      Stranded(ordered, i, start, cursor);
    }
    return cursor >= end;
  }

  lemma SortedAgrees(intervals: seq<Interval>, start: int, end: int)
    ensures Ascends(Sort(intervals))
    ensures CoversRange(intervals, start, end) <==> CoversRange(Sort(intervals), start, end)
  {
    SortKeeps(intervals);
    hide Sort, CoversRange, Ascends;
    if CoversRange(intervals, start, end) {
      CoverageIgnoresOrder(intervals, Sort(intervals), start, end);
    } else if CoversRange(Sort(intervals), start, end) {
      CoverageIgnoresOrder(Sort(intervals), intervals, start, end);
    }
  }

  /** The research window's own walk: same answer, reached by stopping early. */
  method Covered(intervals: seq<Interval>, start: int, end: int) returns (r: bool)
    ensures r <==> CoversRange(intervals, start, end)
  {
    var cursor := start;
    var ordered := Sort(intervals);
    SortedAgrees(intervals, start, end);
    assert Reached(ordered, 0, start, cursor);
    var i := 0;
    while i < |ordered|
      invariant i <= |ordered| && Reached(ordered, i, start, cursor)
    {
      if ordered[i].start > cursor {
        break;
      }
      ReachFurther(ordered, i, start, cursor);
      cursor := if ordered[i].end > cursor then ordered[i].end else cursor;
      i := i + 1;
      if cursor >= end {
        assert CoversRange(ordered, start, end);
        return true;
      }
    }
    if cursor < end {
      Stranded(ordered, i, start, cursor);
    }
    return cursor >= end;
  }
}
