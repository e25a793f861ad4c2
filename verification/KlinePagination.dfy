/** Candle pagination over the half-open range [requestedStart, effectiveEnd): the request bounds
    are widened to milliseconds, the result is filtered at microsecond precision. */
module KlinePagination {
  import opened Outcomes
  import opened ProductFacts
  import opened Market

  datatype Kline = Kline(candle: Candle, closeTime: int)

  /** An oracle over the call number and the inclusive millisecond bounds of the request. */
  type Server = (nat, int, int) -> seq<Kline>

  datatype PageError =
    | EmptyRange
    | UnsupportedTimeframe
    | BehindCursor
    | NotAscending

  function Open(k: Kline): int {
    k.candle.openTime
  }

  // ----- transport bounds

  /** The widened bounds never cut the range off, and never widen it by a whole millisecond. */
  function TransportStart(us: int): (ms: int)
    ensures ms * 1000 <= us < ms * 1000 + 1000
  {
    us / 1000
  }

  function TransportEnd(us: int): (ms: int)
    ensures us <= ms * 1000 < us + 1000
  {
    if us % 1000 == 0 then us / 1000 else us / 1000 + 1
  }

  // ----- one page

  ghost predicate Ascending(ks: seq<Kline>) {
    forall i, j :: 0 <= i < j < |ks| ==> Open(ks[i]) < Open(ks[j])
  }

  ghost predicate AtLeast(ks: seq<Kline>, cursor: int) {
    forall i :: 0 <= i < |ks| ==> cursor <= Open(ks[i])
  }

  method ValidatePage(page: seq<Kline>, cursor: int) returns (r: Result<seq<int>, PageError>)
    ensures r.Ok? <==> AtLeast(page, cursor) && Ascending(page)
    ensures r.Err? && Ascending(page) ==> r.error == BehindCursor
    ensures r.Ok? ==> |r.value| == |page| && forall i :: 0 <= i < |page| ==> r.value[i] == Open(page[i])
  {
    var opens: seq<int> := [];
    var previous: Option<int> := None;
    for i := 0 to |page|
      invariant |opens| == i && forall j :: 0 <= j < i ==> opens[j] == Open(page[j]) >= cursor
      invariant previous == if i == 0 then None else Some(Open(page[i - 1]))
      invariant Ascending(page[..i])
      invariant forall j :: 0 <= j < i ==> previous.Some? && Open(page[j]) <= previous.value
    {
      var open := Open(page[i]);
      if open < cursor {
        return Err(BehindCursor);
      }
      if previous.Some? && open <= previous.value {
        return Err(PageError.NotAscending);
      }
      opens := opens + [open];
      previous := Some(open);
    }
    assert page[..|page|] == page;
    return Ok(opens);
  }

  predicate IsInRange(k: Kline, start: int, end: int) {
    start <= Open(k) < end
  }

  function Kept(page: seq<Kline>, start: int, end: int, n: nat): seq<Kline>
    requires n <= |page|
  {
    if n == 0 then []
    else Kept(page, start, end, n - 1) + if IsInRange(page[n - 1], start, end) then [page[n - 1]] else []
  }

  method FilterPage(result: seq<Kline>, page: seq<Kline>, start: int, end: int) returns (after: seq<Kline>)
    ensures after == result + Kept(page, start, end, |page|)
  {
    after := result;
    for i := 0 to |page|
      invariant after == result + Kept(page, start, end, i)
    {
      if IsInRange(page[i], start, end) {
        after := after + [page[i]];
      }
    }
  }

  ghost predicate AllInRange(ks: seq<Kline>, start: int, end: int) {
    forall i :: 0 <= i < |ks| ==> IsInRange(ks[i], start, end)
  }

  ghost predicate AllBefore(ks: seq<Kline>, t: int) {
    forall i :: 0 <= i < |ks| ==> Open(ks[i]) < t
  }

  ghost predicate Served(server: Server, ks: seq<Kline>) {
    forall i :: 0 <= i < |ks| ==> OnSomePage(server, ks[i])
  }

  ghost predicate OnSomePage(server: Server, k: Kline) {
    exists call: nat, from, to :: k in server(call, from, to)
  }

  /** Filtering a validated page onto the result keeps it ascending and in range. */
  lemma {:induction false} FilterKeeps(result: seq<Kline>, page: seq<Kline>, start: int, end: int, cursor: int, n: nat)
    requires n <= |page| && Ascending(page) && AtLeast(page, cursor)
    requires Ascending(result) && AllInRange(result, start, end) && AllBefore(result, cursor)
    ensures var after := result + Kept(page, start, end, n);
            && Ascending(after) && AllInRange(after, start, end)
            && forall i :: 0 <= i < |after| ==> Open(after[i]) < cursor || exists j :: 0 <= j < n && after[i] == page[j]
  {
    hide Open;
    if n == 0 {
      assert result + Kept(page, start, end, 0) == result;
    } else {
      FilterKeeps(result, page, start, end, cursor, n - 1);
      var before := result + Kept(page, start, end, n - 1);
      assert IsInRange(page[n - 1], start, end) ==>
          result + Kept(page, start, end, n) == before + [page[n - 1]];
      assert !IsInRange(page[n - 1], start, end) ==> result + Kept(page, start, end, n) == before;
    }
  }

  lemma {:induction false} KeptServed(server: Server, call: nat, from: int, to: int, start: int, end: int, n: nat)
    requires n <= |server(call, from, to)|
    ensures Served(server, Kept(server(call, from, to), start, end, n))
  {
    if n > 0 {
      KeptServed(server, call, from, to, start, end, n - 1);
      assert server(call, from, to)[n - 1] in server(call, from, to);
    }
  }

  // ----- the honest server: non-empty prefixes of a grid-aligned series

  ghost predicate GridAligned(db: seq<Kline>, duration: int)
    requires duration > 0
  {
    Ascending(db) && forall i :: 0 <= i < |db| ==> Open(db[i]) % duration == 0
  }

  /** How many of the first n candles open before t, when they ascend. */
  function Below(db: seq<Kline>, t: int, n: nat): (k: nat)
    requires n <= |db|
    ensures k <= n
    ensures k > 0 ==> Open(db[k - 1]) < t
    ensures forall i :: k <= i < n ==> Open(db[i]) >= t
  {
    if n == 0 || Open(db[n - 1]) < t then n else Below(db, t, n - 1)
  }

  lemma BelowSplits(db: seq<Kline>, t: int, i: nat)
    requires Ascending(db) && i < |db|
    ensures i < Below(db, t, |db|) <==> Open(db[i]) < t
  {
  }

  lemma BelowMonotone(db: seq<Kline>, t: int, u: int)
    requires Ascending(db) && t <= u
    ensures Below(db, t, |db|) <= Below(db, u, |db|)
  {
    hide Open;
  }

  ghost predicate HonestPage(db: seq<Kline>, from: int, to: int, page: seq<Kline>)
    requires Ascending(db)
  {
    var lo, hi := Below(db, from * 1000, |db|), Below(db, to * 1000 + 1, |db|);
    && |page| <= hi - lo
    && page == db[lo..lo + |page|]
    && (page == [] ==> lo == hi)
  }

  ghost predicate Honest(server: Server, db: seq<Kline>)
    requires Ascending(db)
  {
    forall call: nat, from, to :: from <= to ==> HonestPage(db, from, to, server(call, from, to))
  }

  /** A candle inside the widening of the first request: it opens before the requested start but in
      the same millisecond. */
  ghost predicate StraddlesStart(db: seq<Kline>, start: int) {
    exists i :: 0 <= i < |db| && TransportStart(start) * 1000 <= Open(db[i]) < start
  }

  function InRange(db: seq<Kline>, start: int, end: int): seq<Kline>
    requires Ascending(db) && start <= end
  {
    BelowMonotone(db, start, end);
    db[Below(db, start, |db|)..Below(db, end, |db|)]
  }

  lemma InRangeIsTheRange(db: seq<Kline>, start: int, end: int, k: Kline)
    requires Ascending(db) && start <= end
    ensures k in InRange(db, start, end) <==> k in db && start <= Open(k) < end
  {
    var lo, hi := Below(db, start, |db|), Below(db, end, |db|);
    BelowMonotone(db, start, end);
    SliceMember(db, lo, hi, k);
    assert InRange(db, start, end) == db[lo..hi];
    forall i | 0 <= i < |db|
      ensures lo <= i < hi <==> start <= Open(db[i]) < end
    {
      BelowSplits(db, start, i);
      BelowSplits(db, end, i);
    }
  }

  lemma SliceMember(db: seq<Kline>, lo: nat, hi: nat, k: Kline)
    requires lo <= hi <= |db|
    ensures k in db[lo..hi] <==> exists i :: lo <= i < hi && db[i] == k
  {
    if i :| lo <= i < hi && db[i] == k {
      assert db[lo..hi][i - lo] == k;
    }
  }

  /** What has been returned when the cursor stands at `cursor`. */
  ghost predicate CaughtUp(db: seq<Kline>, start: int, end: int, cursor: int, result: seq<Kline>)
    requires Ascending(db) && start <= end
  {
    && start <= cursor
    && result == InRange(db, start, if cursor < end then cursor else end)
    && Below(db, TransportStart(cursor) * 1000, |db|) == Below(db, cursor, |db|)
  }

  lemma StartCaughtUp(db: seq<Kline>, start: int, end: int)
    requires Ascending(db) && start < end
    ensures CaughtUp(db, start, end, start, []) <==> !StraddlesStart(db, start)
  {
    var t := TransportStart(start) * 1000;
    BelowMonotone(db, t, start);
    if StraddlesStart(db, start) {
      var i :| 0 <= i < |db| && t <= Open(db[i]) < start;
      BelowSplits(db, t, i);
      BelowSplits(db, start, i);
    }
  }

  /** The straddling candle heads the first page, and the page is refused. */
  lemma StraddlingPageIsRefused(db: seq<Kline>, start: int, to: int, page: seq<Kline>)
    requires Ascending(db) && StraddlesStart(db, start) && start <= to * 1000
    requires HonestPage(db, TransportStart(start), to, page)
    ensures page != [] && !AtLeast(page, start)
  {
    var t := TransportStart(start) * 1000;
    var i :| 0 <= i < |db| && t <= Open(db[i]) < start;
    BelowSplits(db, t, i);
    BelowSplits(db, to * 1000 + 1, i);
    assert page[0] == db[Below(db, t, |db|)];
  }

  lemma {:induction false} KeptSlice(db: seq<Kline>, start: int, end: int, lo: nat, h: nat, n: nat)
    requires Ascending(db) && start <= end && lo <= h <= |db| && n <= h - lo
    requires Below(db, start, |db|) <= lo <= Below(db, end, |db|)
    ensures var e := Below(db, end, |db|);
            Kept(db[lo..h], start, end, n) == db[lo..if lo + n < e then lo + n else e]
  {
    hide Ascending;
    if n > 0 {
      KeptSlice(db, start, end, lo, h, n - 1);
      var k := db[lo + n - 1];
      assert db[lo..h][n - 1] == k;
      BelowSplits(db, start, lo + n - 1);
      BelowSplits(db, end, lo + n - 1);
      assert IsInRange(k, start, end) <==> lo + n - 1 < Below(db, end, |db|);
    }
  }

  /** Nothing opens strictly between a grid candle and the next grid instant. */
  lemma NextGridCursor(db: seq<Kline>, duration: int, h: nat)
    requires duration > 0 && duration % 1000 == 0 && GridAligned(db, duration) && 0 < h <= |db|
    ensures var next := Open(db[h - 1]) + duration;
            Below(db, next, |db|) == h && Below(db, TransportStart(next) * 1000, |db|) == h
  {
    var last := Open(db[h - 1]);
    var next := last + duration;
    MillisecondGrid(last, duration);
    assert TransportStart(next) * 1000 == next;
    BelowSplits(db, next, h - 1);
    if h < |db| {
      GridStep(last, Open(db[h]), duration);
      BelowSplits(db, next, h);
    }
  }

  lemma MillisecondGrid(t: int, duration: int)
    requires duration > 0 && duration % 1000 == 0 && t % duration == 0
    ensures (t + duration) % 1000 == 0
  {
    var a, b := t / duration, duration / 1000;
    assert t == a * duration && duration == 1000 * b;
    assert a * duration == 1000 * (a * b) by { Regroup(a, b); }
    var k := a * b;
    assert t + duration == 1000 * k + 1000 * b;
    ThousandDivides(k + b);
  }

  lemma Regroup(a: int, b: int)
    ensures a * (1000 * b) == 1000 * (a * b)
  {
  }

  lemma ThousandDivides(m: int)
    ensures (1000 * m) % 1000 == 0
  {
  }

  lemma StrictMultiples(x: int, y: int, d: int)
    requires d > 0 && x * d < y * d
    ensures x * d + d <= y * d
  {
    if y <= x {
      IntegerProductMonotone(y, x, d);
    } else {
      IntegerProductMonotone(x + 1, y, d);
      assert (x + 1) * d == x * d + d;
    }
  }

  lemma GridStep(a: int, b: int, d: int)
    requires d > 0 && a % d == 0 && b % d == 0 && a < b
    ensures a + d <= b
  {
    var x, y := a / d, b / d;
    assert a == x * d && b == y * d;
    StrictMultiples(x, y, d);
  }

  /** One honest page: nothing is lost and nothing repeated; an empty page means the range is done. */
  lemma HonestStep(db: seq<Kline>, duration: int, start: int, end: int, cursor: int, result: seq<Kline>, page: seq<Kline>)
    requires duration > 0 && duration % 1000 == 0 && GridAligned(db, duration) && start < end && cursor < end
    requires Ascending(db) && CaughtUp(db, start, end, cursor, result)
    requires HonestPage(db, TransportStart(cursor), TransportEnd(end), page)
    ensures AtLeast(page, cursor) && Ascending(page)
    ensures page == [] ==> result == InRange(db, start, end)
    ensures page != [] ==>
              CaughtUp(db, start, end, Open(page[|page| - 1]) + duration, result + Kept(page, start, end, |page|))
  {
    hide *;
    var h := CaughtUpPage(db, start, end, cursor, result, page);
    SliceFollows(db, cursor, Below(db, cursor, |db|), h);
    if page != [] {
      Advances(db, duration, start, end, cursor, result, h);
    }
  }

  lemma Advances(db: seq<Kline>, duration: int, start: int, end: int, cursor: int, result: seq<Kline>, h: nat)
    requires duration > 0 && duration % 1000 == 0 && GridAligned(db, duration) && start <= cursor < end
    requires Ascending(db) && result == InRange(db, start, cursor)
    requires Below(db, start, |db|) <= Below(db, cursor, |db|) <= Below(db, end, |db|)
    requires Below(db, cursor, |db|) < h <= |db|
    ensures var page := db[Below(db, cursor, |db|)..h];
            CaughtUp(db, start, end, Open(page[|page| - 1]) + duration, result + Kept(page, start, end, |page|))
  {
    hide Ascending, Below, GridAligned, InRange, Kept, Open, TransportStart;
    var lo := Below(db, cursor, |db|);
    var next := Open(db[h - 1]) + duration;
    NextGridCursor(db, duration, h);
    BelowSplits(db, cursor, h - 1);
    KeptSlice(db, start, end, lo, h, h - lo);
    NextRange(db, start, end, cursor, next, lo, h);
    var page := db[lo..h];
    assert |page| == h - lo && page[|page| - 1] == db[h - 1];
    assert CaughtUp(db, start, end, next, result + Kept(page, start, end, h - lo));
  }

  lemma CaughtUpPage(db: seq<Kline>, start: int, end: int, cursor: int, result: seq<Kline>, page: seq<Kline>)
    returns (h: nat)
    requires Ascending(db) && start < end && cursor < end
    requires CaughtUp(db, start, end, cursor, result)
    requires HonestPage(db, TransportStart(cursor), TransportEnd(end), page)
    ensures var a, lo, e := Below(db, start, |db|), Below(db, cursor, |db|), Below(db, end, |db|);
            && start <= cursor && result == InRange(db, start, cursor)
            && a <= lo <= e && lo <= h <= |db| && page == db[lo..h]
            && (page == [] ==> result == InRange(db, start, end))
  {
    hide Ascending;
    BelowMonotone(db, start, cursor);
    BelowMonotone(db, cursor, end);
    BelowMonotone(db, end, TransportEnd(end) * 1000 + 1);
    h := Below(db, cursor, |db|) + |page|;
  }

  lemma SliceFollows(db: seq<Kline>, cursor: int, lo: nat, h: nat)
    requires Ascending(db) && lo <= h <= |db| && lo == Below(db, cursor, |db|)
    ensures AtLeast(db[lo..h], cursor) && Ascending(db[lo..h])
  {
    hide Open, Below;
  }

  lemma NextRange(db: seq<Kline>, start: int, end: int, cursor: int, next: int, lo: nat, h: nat)
    requires Ascending(db) && start <= cursor < end && lo <= h <= |db|
    requires Below(db, start, |db|) <= lo == Below(db, cursor, |db|) <= Below(db, end, |db|)
    requires h == Below(db, next, |db|) && lo < h && next > cursor
    ensures var e := Below(db, end, |db|);
            InRange(db, start, if next < end then next else end)
            == InRange(db, start, cursor) + db[lo..if h < e then h else e]
  {
    hide Ascending, Below;
    BelowMonotone(db, start, next);
    BelowMonotone(db, start, cursor);
    if next < end {
      BelowMonotone(db, next, end);
    } else {
      BelowMonotone(db, end, next);
      BelowMonotone(db, start, end);
    }
  }

  // ----- the paginator

  ghost predicate HonestServer(server: Server, db: seq<Kline>, duration: int)
    requires duration > 0
  {
    GridAligned(db, duration) && Honest(server, db)
  }

  /** Terminates against every server, because the cursor always advances; an accepted result is
      strictly ascending, in range and made of served candles.  Against an honest server it is
      exactly the candles of the range, unless a candle straddles the start inside its millisecond. */
  method PaginateHistoricalKlines(server: Server, start: int, end: int, timeframe: Timeframe, ghost db: seq<Kline>)
    returns (r: Result<seq<Kline>, PageError>)
    ensures r.Ok? ==> start < end && Supported(timeframe)
    ensures r.Ok? ==> Ascending(r.value) && AllInRange(r.value, start, end) && Served(server, r.value)
    ensures start < end && Supported(timeframe) && HonestServer(server, db, Duration(timeframe)) ==>
              && (r.Ok? <==> !StraddlesStart(db, start))
              && (r.Ok? ==> r.value == InRange(db, start, end))
              && (r.Err? ==> r.error == BehindCursor)
  {
    hide Below, Honest, InRange, IsInRange;
    if start >= end {
      return Err(EmptyRange);
    }
    if !Supported(timeframe) {
      return Err(PageError.UnsupportedTimeframe);
    }
    var duration := Duration(timeframe);
    var result: seq<Kline> := [];
    var cursor, call: nat := start, 0;
    ghost var honest := HonestServer(server, db, duration);
    assert honest ==> Ascending(db);
    if honest {
      StartCaughtUp(db, start, end);
    }
    EmptyHolds(server, start, end);
    while cursor < end
      invariant start <= cursor
      invariant Ascending(result) && AllInRange(result, start, end) && AllBefore(result, cursor)
      invariant Served(server, result)
      invariant honest && StraddlesStart(db, start) ==> cursor == start
      invariant honest && !StraddlesStart(db, start) ==> CaughtUp(db, start, end, cursor, result)
      decreases end - cursor
    {
      var page := server(call, TransportStart(cursor), TransportEnd(end));
      if honest {
        HonestPageReply(server, db, duration, call, start, end, cursor, result);
      }
      if page == [] {
        break;
      }
      var opens := ValidatePage(page, cursor);
      if opens.Err? {
        return Err(opens.error);
      }
      FilterKeeps(result, page, start, end, cursor, |page|);
      KeptServed(server, call, TransportStart(cursor), TransportEnd(end), start, end, |page|);
      ServedConcat(server, result, Kept(page, start, end, |page|));
      var last := opens.value[|opens.value| - 1];
      FilterBefore(result, page, start, end, cursor, last + duration);
      result := FilterPage(result, page, start, end);
      var next := last + duration;
      assert cursor <= last;
      if next <= cursor {
        assert false;
      }
      cursor := next;
      call := call + 1;
    }
    assert honest && !StraddlesStart(db, start) && cursor >= end ==> result == InRange(db, start, end);
    return Ok(result);
  }

  /** The reply of an honest server at a caught-up cursor, or at a straddled start. */
  lemma HonestPageReply(
    server: Server, db: seq<Kline>, duration: int, call: nat, start: int, end: int, cursor: int, result: seq<Kline>)
    requires duration > 0 && duration % 1000 == 0 && HonestServer(server, db, duration)
    requires start <= cursor < end && Ascending(db)
    requires StraddlesStart(db, start) ==> cursor == start
    requires !StraddlesStart(db, start) ==> CaughtUp(db, start, end, cursor, result)
    ensures var page := server(call, TransportStart(cursor), TransportEnd(end));
            && Ascending(page)
            && (AtLeast(page, cursor) <==> !StraddlesStart(db, start))
            && (StraddlesStart(db, start) ==> page != [])
            && (!StraddlesStart(db, start) && page == [] ==> result == InRange(db, start, end))
            && (!StraddlesStart(db, start) && page != [] ==>
                  CaughtUp(db, start, end, Open(page[|page| - 1]) + duration, result + Kept(page, start, end, |page|)))
  {
    hide CaughtUp;
    var from, to := TransportStart(cursor), TransportEnd(end);
    var page := server(call, from, to);
    assert from * 1000 <= cursor < end <= to * 1000;
    assert HonestPage(db, from, to, page);
    assert GridAligned(db, duration);
    if StraddlesStart(db, start) {
      StraddlingPageIsRefused(db, start, to, page);
      assert Ascending(page);
    } else {
      HonestStep(db, duration, start, end, cursor, result, page);
    }
  }

  lemma EmptyHolds(server: Server, start: int, end: int)
    ensures Ascending([]) && AllInRange([], start, end) && AllBefore([], start) && Served(server, [])
  {
  }

  lemma ServedConcat(server: Server, a: seq<Kline>, b: seq<Kline>)
    requires Served(server, a) && Served(server, b)
    ensures Served(server, a + b)
  {
    hide OnSomePage;
  }

  lemma FilterBefore(result: seq<Kline>, page: seq<Kline>, start: int, end: int, cursor: int, next: int)
    requires Ascending(page) && AtLeast(page, cursor) && page != []
    requires Ascending(result) && AllInRange(result, start, end) && AllBefore(result, cursor)
    requires Open(page[|page| - 1]) < next
    ensures AllBefore(result + Kept(page, start, end, |page|), next)
  {
    FilterKeeps(result, page, start, end, cursor, |page|);
    hide AllInRange;
    var after := result + Kept(page, start, end, |page|);
    assert cursor <= Open(page[|page| - 1]);
    forall j | 0 <= j < |page|
      ensures Open(page[j]) < next
    {
    }
    assert forall i :: 0 <= i < |after| ==> Open(after[i]) < next;
  }

  /** A start on a whole millisecond, in particular one on the grid, is never straddled: the
      paginator is then exact without exception. */
  lemma WholeMillisecondStart(db: seq<Kline>, start: int)
    ensures start % 1000 == 0 ==> !StraddlesStart(db, start)
    ensures forall d :: d > 0 && d % 1000 == 0 && start % d == 0 ==> !StraddlesStart(db, start)
  {
    assert start % 1000 == 0 ==> TransportStart(start) * 1000 == start;
    forall d | d > 0 && d % 1000 == 0 && start % d == 0
      ensures start % 1000 == 0
    {
      var k, q := d / 1000, start / d;
      Regroup(q, k);
      ThousandDivides(q * k);
    }
  }

  /** A candle that opens 0.5 ms before the start is served first and refused, although no candle lies
      in the requested range: the paginator raises where nothing is wrong. */
  method StraddlingExample() returns (r: Result<seq<Kline>, PageError>, ghost db: seq<Kline>)
    ensures GridAligned(db, Duration(OneHour)) && StraddlesStart(db, 500)
    ensures InRange(db, 500, 1_000_000) == []
    ensures r == Outcomes.Err(BehindCursor)
  {
    var series := [Kline(Candle("BTCUSDT", OneHour, 0, 1.0, 1.0, 1.0, 1.0, 0.0), 3_599_999_000)];
    var server := (call: nat, from: int, to: int) => if from <= 0 <= to then series else [];
    db := series;
    OneCandle(db, 500);
    OneCandle(db, 1_000_000);
    assert Open(db[0]) == 0;
    OneCandleServer(server, db);
    r := PaginateHistoricalKlines(server, 500, 1_000_000, OneHour, db);
  }

  lemma OneCandle(db: seq<Kline>, t: int)
    requires |db| == 1
    ensures Ascending(db) && Below(db, t, |db|) == if Open(db[0]) < t then 1 else 0
  {
  }

  lemma OneCandleServer(server: Server, db: seq<Kline>)
    requires |db| == 1 && Open(db[0]) == 0
    requires forall call: nat, from, to :: server(call, from, to) == if from <= 0 <= to then db else []
    ensures HonestServer(server, db, Duration(OneHour))
  {
    forall call: nat, from, to | from <= to
      ensures HonestPage(db, from, to, server(call, from, to))
    {
      OneCandle(db, from * 1000);
      OneCandle(db, to * 1000 + 1);
    }
  }
}
