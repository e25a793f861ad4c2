/** Tie-safe pagination of funding records over an inclusive millisecond range.  The page server
    is an oracle: any function of the call number and the requested bounds. */
module FundingPagination {
  import opened Outcomes
  import opened SetFacts

  const PAGE_LIMIT: nat := 1000

  /** `time` is in microseconds, as the record carries it. */
  datatype Record = Record(symbol: string, time: int, rate: real, markPrice: real, rateType: string)

  datatype SourceKey = SourceKey(ms: int, rateType: string)

  type Server = (nat, int, int) -> seq<Record>

  datatype PageError =
    | EmptySymbol
    | NegativeBound
    | InvertedRange
    | OversizedPage
    | ForeignSymbol
    | BeforeEpoch
    | Misaligned
    | BehindCursor
    | BeyondEnd
    | Decreasing
    | DuplicateKey
    | ConflictingPayload
    | NoProgress

  predicate Aligned(r: Record) {
    r.time >= 0 && r.time % 1000 == 0
  }

  function Ms(r: Record): int {
    r.time / 1000
  }

  function KeyOf(r: Record): SourceKey {
    SourceKey(Ms(r), r.rateType)
  }

  function SamePayload(a: Record, b: Record): bool {
    a.rate == b.rate && a.markPrice == b.markPrice
  }

  // ----- one page

  ghost predicate Ordered(rs: seq<Record>) {
    forall i, j :: 0 <= i < j < |rs| ==> Ms(rs[i]) <= Ms(rs[j])
  }

  ghost predicate DistinctKeys(rs: seq<Record>) {
    forall i, j :: 0 <= i < j < |rs| ==> KeyOf(rs[i]) != KeyOf(rs[j])
  }

  ghost predicate InBounds(rs: seq<Record>, symbol: string, lower: int, upper: int) {
    forall i :: 0 <= i < |rs| ==> rs[i].symbol == symbol && Aligned(rs[i]) && lower <= Ms(rs[i]) <= upper
  }

  /** What a page, and the result itself, must look like. */
  ghost predicate WellFormed(rs: seq<Record>, symbol: string, lower: int, upper: int) {
    InBounds(rs, symbol, lower, upper) && Ordered(rs) && DistinctKeys(rs)
  }

  method ValidatePage(page: seq<Record>, symbol: string, lower: int, upper: int) returns (r: Option<PageError>)
    ensures r.None? <==> WellFormed(page, symbol, lower, upper)
    ensures r != Some(NoProgress)
  {
    hide Ms, KeyOf;
    var pageKeys: set<SourceKey> := {};
    var previous: Option<int> := None;
    for i := 0 to |page|
      invariant InBounds(page[..i], symbol, lower, upper)
      invariant previous == if i == 0 then None else Some(Ms(page[i - 1]))
      invariant forall j :: 0 <= j < i ==> previous.Some? && Ms(page[j]) <= previous.value
      invariant Ordered(page[..i]) && DistinctKeys(page[..i])
      invariant forall j :: 0 <= j < i ==> KeyOf(page[j]) in pageKeys
      invariant forall k :: k in pageKeys ==> exists j :: 0 <= j < i && KeyOf(page[j]) == k
    {
      var record := page[i];
      if record.symbol != symbol {
        return Some(ForeignSymbol);
      }
      if record.time < 0 {
        return Some(BeforeEpoch);
      }
      if record.time % 1000 != 0 {
        return Some(Misaligned);
      }
      var ms := Ms(record);
      if ms < lower {
        return Some(BehindCursor);
      }
      if ms > upper {
        return Some(BeyondEnd);
      }
      if previous.Some? && ms < previous.value {
        return Some(Decreasing);
      }
      previous := Some(ms);
      var key := KeyOf(record);
      if key in pageKeys {
        return Some(DuplicateKey);
      }
      pageKeys := pageKeys + {key};
    }
    assert page[..|page|] == page;
    return None;
  }

  /** Well formed means: of the symbol, on whole milliseconds inside the inclusive bounds, in time order,
      and no two records of one instant with one rate type. */
  lemma WellFormedMeaning(rs: seq<Record>, symbol: string, lower: int, upper: int)
    ensures WellFormed(rs, symbol, lower, upper) <==>
            && (forall i :: 0 <= i < |rs| ==>
                  && rs[i].symbol == symbol && 0 <= rs[i].time && rs[i].time % 1000 == 0
                  && lower * 1000 <= rs[i].time <= upper * 1000)
            && (forall i, j :: 0 <= i < j < |rs| ==>
                  rs[i].time < rs[j].time || (rs[i].time == rs[j].time && rs[i].rateType != rs[j].rateType))
  {
    forall i | 0 <= i < |rs|
      ensures Aligned(rs[i]) ==> rs[i].time == Ms(rs[i]) * 1000
    {
    }
    hide Ms;
    if WellFormed(rs, symbol, lower, upper) {
      forall i, j | 0 <= i < j < |rs|
        ensures rs[i].time < rs[j].time || (rs[i].time == rs[j].time && rs[i].rateType != rs[j].rateType)
      {
        assert KeyOf(rs[i]) != KeyOf(rs[j]);
      }
    }
  }

  /** Two records conflict when they disagree about one instant and rate type. */
  lemma ConflictMeaning(a: Record, b: Record)
    requires Aligned(a) && Aligned(b)
    ensures KeyOf(a) == KeyOf(b) && !SamePayload(a, b) <==>
            a.time == b.time && a.rateType == b.rateType && (a.rate, a.markPrice) != (b.rate, b.markPrice)
  {
  }

  // ----- merging a page into the output

  ghost predicate Holds(rs: seq<Record>, key: SourceKey) {
    exists i :: 0 <= i < |rs| && KeyOf(rs[i]) == key
  }

  /** `seen` is the index of the output by key. */
  ghost predicate Indexes(seen: map<SourceKey, Record>, output: seq<Record>) {
    && (forall i :: 0 <= i < |output| ==> KeyOf(output[i]) in seen && seen[KeyOf(output[i])] == output[i])
    && (forall k :: k in seen ==> Holds(output, k))
  }

  ghost predicate Conflicts(output: seq<Record>, page: seq<Record>) {
    exists i, j :: 0 <= i < |output| && 0 <= j < |page| && KeyOf(output[i]) == KeyOf(page[j]) && !SamePayload(output[i], page[j])
  }

  ghost predicate Brings(output: seq<Record>, page: seq<Record>) {
    exists j :: 0 <= j < |page| && !Holds(output, KeyOf(page[j]))
  }

  method CountUnseen(seen: map<SourceKey, Record>, page: seq<Record>, ghost output: seq<Record>)
    returns (r: Result<nat, PageError>)
    requires Indexes(seen, output)
    ensures r.Ok? <==> !Conflicts(output, page)
    ensures r.Ok? ==> (r.value == 0 <==> !Brings(output, page))
    ensures r.Err? ==> r.error == ConflictingPayload
  {
    hide KeyOf, SamePayload;
    var unseen := 0;
    for j := 0 to |page|
      invariant !Conflicts(output, page[..j])
      invariant unseen == 0 <==> !Brings(output, page[..j])
    {
      assert page[..j + 1] == page[..j] + [page[j]];
      var key := KeyOf(page[j]);
      if key !in seen {
        assert page[..j + 1][j] == page[j];
        assert Brings(output, page[..j + 1]);
        unseen := unseen + 1;
      } else if !SamePayload(seen[key], page[j]) {
        return Err(ConflictingPayload);
      } else {
        SeenAddsNothing(seen, output, page, j);
      }
    }
    assert page[..|page|] == page;
    return Ok(unseen);
  }

  lemma SeenAddsNothing(seen: map<SourceKey, Record>, output: seq<Record>, page: seq<Record>, j: nat)
    requires Indexes(seen, output) && j < |page| && KeyOf(page[j]) in seen
    ensures Brings(output, page[..j + 1]) <==> Brings(output, page[..j])
  {
    hide KeyOf;
    if Brings(output, page[..j]) {
      var i :| 0 <= i < j && !Holds(output, KeyOf(page[..j][i]));
      assert page[..j + 1][i] == page[i];
    }
  }

  /** The output after the first n records of a page: those with a new key are appended. */
  ghost function Merge(output: seq<Record>, page: seq<Record>, n: nat): seq<Record>
    requires n <= |page|
  {
    if n == 0 then output
    else
      var before := Merge(output, page, n - 1);
      if Holds(before, KeyOf(page[n - 1])) then before else before + [page[n - 1]]
  }

  method Absorb(seen: map<SourceKey, Record>, output: seq<Record>, page: seq<Record>)
    returns (seenAfter: map<SourceKey, Record>, outputAfter: seq<Record>)
    requires Indexes(seen, output)
    ensures outputAfter == Merge(output, page, |page|) && Indexes(seenAfter, outputAfter)
  {
    hide KeyOf;
    seenAfter, outputAfter := seen, output;
    for j := 0 to |page|
      invariant outputAfter == Merge(output, page, j)
      invariant Indexes(seenAfter, outputAfter)
    {
      var key := KeyOf(page[j]);
      if key !in seenAfter {
        IndexGrows(seenAfter, outputAfter, page[j]);
        seenAfter := seenAfter[key := page[j]];
        outputAfter := outputAfter + [page[j]];
      }
    }
  }

  lemma IndexGrows(seen: map<SourceKey, Record>, output: seq<Record>, r: Record)
    requires Indexes(seen, output) && KeyOf(r) !in seen
    ensures Indexes(seen[KeyOf(r) := r], output + [r])
  {
    hide KeyOf;
    var after := output + [r];
    forall k | k in seen || k == KeyOf(r)
      ensures Holds(after, k)
    {
      if k == KeyOf(r) {
        assert after[|output|] == r;
      } else {
        var i :| 0 <= i < |output| && KeyOf(output[i]) == k;
        assert after[i] == output[i];
      }
    }
  }

  /** Merging keeps the result well formed whenever the page starts at or after the last record. */
  lemma {:induction false} MergeWellFormed(
    output: seq<Record>, page: seq<Record>, n: nat, symbol: string, start: int, cursor: int, end: int)
    requires n <= |page| && start <= cursor
    requires WellFormed(output, symbol, start, cursor) && WellFormed(page, symbol, cursor, end)
    ensures WellFormed(Merge(output, page, n), symbol, start, if n == 0 then cursor else Ms(page[n - 1]))
    ensures |Merge(output, page, n)| >= |output|
  {
    hide Aligned, Ms, KeyOf;
    if n > 0 {
      MergeWellFormed(output, page, n - 1, symbol, start, cursor, end);
    }
  }

  lemma {:induction false} MergeKeeps(output: seq<Record>, page: seq<Record>, n: nat, key: SourceKey)
    requires n <= |page|
    ensures Holds(output, key) ==> Holds(Merge(output, page, n), key)
    ensures (exists j :: 0 <= j < n && KeyOf(page[j]) == key) ==> Holds(Merge(output, page, n), key)
    ensures Holds(Merge(output, page, n), key) ==> Holds(output, key) || exists j :: 0 <= j < n && KeyOf(page[j]) == key
    ensures |Merge(output, page, n)| >= |output|
  {
    hide KeyOf;
    if n > 0 {
      MergeKeeps(output, page, n - 1, key);
      var before := Merge(output, page, n - 1);
      var grown := before + [page[n - 1]];
      assert grown[|before|] == page[n - 1];
      if Holds(before, key) {
        var i :| 0 <= i < |before| && KeyOf(before[i]) == key;
        assert grown[i] == before[i];
      }
    }
  }

  // ----- the termination measure: keys of the range not yet seen

  ghost function AllKeys(start: int, end: int, types: set<string>): set<SourceKey> {
    set t, y | start <= t <= end && y in types :: SourceKey(t, y)
  }

  ghost predicate UsesTypes(rs: seq<Record>, types: set<string>) {
    forall i :: 0 <= i < |rs| ==> rs[i].rateType in types
  }

  ghost function Unseen(output: seq<Record>, start: int, end: int, types: set<string>): set<SourceKey> {
    set k | k in AllKeys(start, end, types) && !Holds(output, k)
  }

  lemma MergeShrinksUnseen(
    output: seq<Record>, page: seq<Record>, symbol: string, start: int, cursor: int, end: int, types: set<string>)
    requires start <= cursor && WellFormed(page, symbol, cursor, end) && UsesTypes(page, types) && Brings(output, page)
    ensures |Unseen(Merge(output, page, |page|), start, end, types)| < |Unseen(output, start, end, types)|
  {
    hide Merge;
    var after := Merge(output, page, |page|);
    var j :| 0 <= j < |page| && !Holds(output, KeyOf(page[j]));
    var key := KeyOf(page[j]);
    assert key in AllKeys(start, end, types);
    MergeKeeps(output, page, |page|, key);
    forall k
      ensures Holds(output, k) ==> Holds(after, k)
    {
      MergeKeeps(output, page, |page|, k);
    }
    hide Holds, AllKeys, KeyOf;
    SmallerSet(Unseen(after, start, end, types), Unseen(output, start, end, types), key);
  }

  // ----- the honest server: the first `limit` records of a sorted database inside the bounds

  ghost predicate Database(db: seq<Record>, symbol: string) {
    && Ordered(db) && DistinctKeys(db)
    && forall i :: 0 <= i < |db| ==> db[i].symbol == symbol && Aligned(db[i])
  }

  /** How many of the first n records lie strictly before t, when they are ordered. */
  function Below(db: seq<Record>, t: int, n: nat): (k: nat)
    requires n <= |db|
    ensures k <= n
    ensures k > 0 ==> Ms(db[k - 1]) < t
    ensures forall i :: k <= i < n ==> Ms(db[i]) >= t
  {
    if n == 0 || Ms(db[n - 1]) < t then n else Below(db, t, n - 1)
  }

  lemma BelowSplits(db: seq<Record>, t: int, i: nat)
    requires Ordered(db) && i < |db|
    ensures i < Below(db, t, |db|) <==> Ms(db[i]) < t
  {
  }

  lemma BelowMonotone(db: seq<Record>, t: int, u: int)
    requires Ordered(db) && t <= u
    ensures Below(db, t, |db|) <= Below(db, u, |db|)
  {
    hide Ms;
  }

  function PageEnd(db: seq<Record>, cursor: int, end: int, limit: nat): (h: nat)
  {
    var lo, hi := Below(db, cursor, |db|), Below(db, end + 1, |db|);
    if hi < lo + limit then hi else lo + limit
  }

  function FirstPage(db: seq<Record>, cursor: int, end: int, limit: nat): seq<Record>
    requires Ordered(db) && cursor <= end
  {
    BelowMonotone(db, cursor, end + 1);
    db[Below(db, cursor, |db|)..PageEnd(db, cursor, end, limit)]
  }

  ghost predicate Honest(server: Server, db: seq<Record>, limit: nat)
    requires Ordered(db)
  {
    forall call: nat, cursor, end :: cursor <= end ==> server(call, cursor, end) == FirstPage(db, cursor, end, limit)
  }

  /** `limit` records from position i on share one timestamp. */
  ghost predicate CrowdAt(db: seq<Record>, i: nat, limit: nat) {
    limit > 0 && i + limit <= |db| && Ms(db[i]) == Ms(db[i + limit - 1])
  }

  ghost predicate Crowded(db: seq<Record>, from: int, before: int, limit: nat) {
    exists i :: 0 <= i < |db| && CrowdAt(db, i, limit) && from <= Ms(db[i]) < before
  }

  lemma {:induction false} MergeSlices(db: seq<Record>, a: nat, lo: nat, p: nat, h: nat, n: nat)
    requires DistinctKeys(db) && a <= lo <= p <= |db| && lo <= h <= |db| && n <= h - lo
    ensures Merge(db[a..p], db[lo..h], n) == db[a..if lo + n < p then p else lo + n]
  {
    hide KeyOf, Holds, DistinctKeys;
    if n > 0 {
      MergeSlices(db, a, lo, p, h, n - 1);
      var y := lo + n - 1;
      var x := if y < p then p else y;
      var output, page := db[a..p], db[lo..h];
      assert page[n - 1] == db[y];
      SliceHolds(db, a, x, y);
      assert Merge(output, page, n) == if y < x then db[a..x] else db[a..x] + [db[y]];
      if x == y {
        assert db[a..x] + [db[x]] == db[a..x + 1];
      }
      hide Merge;
    }
  }

  lemma SliceHolds(db: seq<Record>, a: nat, x: nat, y: nat)
    requires DistinctKeys(db) && a <= x <= |db| && a <= y < |db|
    ensures Holds(db[a..x], KeyOf(db[y])) <==> y < x
  {
    hide KeyOf;
    if y < x {
      assert db[a..x][y - a] == db[y];
    }
  }

  lemma SliceWellFormed(db: seq<Record>, symbol: string, a: nat, b: nat, lower: int, upper: int)
    requires Database(db, symbol) && a <= b <= |db|
    requires a < b ==> lower <= Ms(db[a]) && Ms(db[b - 1]) <= upper
    ensures WellFormed(db[a..b], symbol, lower, upper)
  {
    hide Ms, KeyOf, Aligned;
  }

  lemma SlicesAgree(db: seq<Record>, a: nat, b: nat, c: nat, d: nat)
    requires DistinctKeys(db) && a <= b <= |db| && c <= d <= |db|
    ensures !Conflicts(db[a..b], db[c..d])
  {
    hide KeyOf;
    forall i, j | 0 <= i < b - a && 0 <= j < d - c && KeyOf(db[a..b][i]) == KeyOf(db[c..d][j])
      ensures SamePayload(db[a..b][i], db[c..d][j])
    {
      assert db[a..b][i] == db[a + i] && db[c..d][j] == db[c + j];
      assert a + i == c + j;
    }
  }

  /** The cursor state against an honest server: a contiguous run from the start has been returned. */
  ghost predicate CaughtUp(db: seq<Record>, start: int, end: int, limit: nat, cursor: int, output: seq<Record>)
    requires Ordered(db)
  {
    var a := Below(db, start, |db|);
    var p := a + |output|;
    && p <= Below(db, end + 1, |db|)
    && output == db[a..p]
    && cursor == (if p == a then start else Ms(db[p - 1]))
    && !Crowded(db, start, cursor, limit)
  }

  /** Everything the database holds in the range. */
  function InRange(db: seq<Record>, start: int, end: int): seq<Record>
    requires Ordered(db) && start <= end
  {
    BelowMonotone(db, start, end + 1);
    db[Below(db, start, |db|)..Below(db, end + 1, |db|)]
  }

  lemma InRangeIsTheRange(db: seq<Record>, start: int, end: int, r: Record)
    requires Ordered(db) && start <= end
    ensures r in InRange(db, start, end) <==> r in db && start <= Ms(r) <= end
  {
    var lo, hi := Below(db, start, |db|), Below(db, end + 1, |db|);
    BelowMonotone(db, start, end + 1);
    SliceMember(db, lo, hi, r);
    assert InRange(db, start, end) == db[lo..hi];
    forall i | 0 <= i < |db|
      ensures lo <= i < hi <==> start <= Ms(db[i]) <= end
    {
      BelowSplits(db, start, i);
      BelowSplits(db, end + 1, i);
    }
  }

  lemma SliceMember(db: seq<Record>, lo: nat, hi: nat, r: Record)
    requires lo <= hi <= |db|
    ensures r in db[lo..hi] <==> exists i :: lo <= i < hi && db[i] == r
  {
    if i :| lo <= i < hi && db[i] == r {
      assert db[lo..hi][i - lo] == r;
    }
  }

  /** What one honest page leads to: the end, a proof of a crowded timestamp, or the next cursor. */
  ghost predicate NextPage(
    db: seq<Record>, start: int, end: int, limit: nat, output: seq<Record>, page: seq<Record>)
    requires Ordered(db) && start <= end
  {
    && !Conflicts(output, page)
    && |page| <= limit
    && (|page| < limit ==>
          Merge(output, page, |page|) == InRange(db, start, end) && !Crowded(db, start, end + 1, limit))
    && (|page| == limit && !Brings(output, page) ==> Crowded(db, start, end + 1, limit))
    && (|page| == limit > 0 && Brings(output, page) ==>
          CaughtUp(db, start, end, limit, Ms(page[|page| - 1]), Merge(output, page, |page|)))
  }

  lemma HonestPageValid(db: seq<Record>, symbol: string, cursor: int, end: int, limit: nat)
    requires Database(db, symbol) && cursor <= end
    ensures var lo, h := Below(db, cursor, |db|), PageEnd(db, cursor, end, limit);
            lo <= h <= Below(db, end + 1, |db|) && FirstPage(db, cursor, end, limit) == db[lo..h]
    ensures WellFormed(FirstPage(db, cursor, end, limit), symbol, cursor, end)
  {
    hide WellFormed, Ms;
    var lo, h := Below(db, cursor, |db|), PageEnd(db, cursor, end, limit);
    BelowMonotone(db, cursor, end + 1);
    if lo < h {
      BelowSplits(db, cursor, lo);
      BelowSplits(db, end + 1, h - 1);
    }
    SliceWellFormed(db, symbol, lo, h, cursor, end);
  }

  lemma CaughtUpPosition(db: seq<Record>, start: int, end: int, limit: nat, cursor: int, output: seq<Record>)
    requires Ordered(db) && start <= cursor && CaughtUp(db, start, end, limit, cursor, output)
    ensures Below(db, start, |db|) <= Below(db, cursor, |db|) <= Below(db, start, |db|) + |output|
  {
    BelowMonotone(db, start, cursor);
    var p := Below(db, start, |db|) + |output|;
    if output != [] {
      BelowSplits(db, cursor, p - 1);
    }
  }

  /** One honest page is valid, never conflicts, and leaves the loop caught up at its own end;
      a full page that brings nothing new proves a crowded timestamp. */
  lemma HonestPage(
    db: seq<Record>, symbol: string, start: int, end: int, limit: nat, cursor: int, output: seq<Record>)
    requires Database(db, symbol) && limit > 0 && start <= cursor <= end
    requires CaughtUp(db, start, end, limit, cursor, output)
    ensures WellFormed(FirstPage(db, cursor, end, limit), symbol, cursor, end)
    ensures NextPage(db, start, end, limit, output, FirstPage(db, cursor, end, limit))
  {
    var a, lo, h := Below(db, start, |db|), Below(db, cursor, |db|), PageEnd(db, cursor, end, limit);
    var p := a + |output|;
    assert Ordered(db) && DistinctKeys(db);
    CaughtUpPosition(db, start, end, limit, cursor, output);
    HonestPageValid(db, symbol, cursor, end, limit);
    assert p <= |db| && output == db[a..p] && FirstPage(db, cursor, end, limit) == db[lo..h];
    MergePage(db, a, lo, p, h, output, FirstPage(db, cursor, end, limit));
    hide *;
    ReachesNext(db, start, end, limit, cursor, output, FirstPage(db, cursor, end, limit), a, lo, p, h);
  }

  /** Merging the slice from lo to h into the one from a to p, where they overlap or meet. */
  lemma MergePage(db: seq<Record>, a: nat, lo: nat, p: nat, h: nat, output: seq<Record>, page: seq<Record>)
    requires DistinctKeys(db) && a <= lo <= p <= |db| && lo <= h <= |db| && output == db[a..p] && page == db[lo..h]
    ensures Merge(output, page, |page|) == db[a..if h < p then p else h]
    ensures Brings(output, page) <==> h > p
    ensures !Conflicts(output, page)
  {
    hide *;
    SlicesAgree(db, a, p, lo, h);
    MergeSlices(db, a, lo, p, h, h - lo);
    BringsIffBeyond(db, a, lo, p, h);
  }

  lemma ReachesNext(
    db: seq<Record>, start: int, end: int, limit: nat, cursor: int, output: seq<Record>, page: seq<Record>,
    a: nat, lo: nat, p: nat, h: nat)
    requires Ordered(db) && limit > 0 && start <= cursor <= end && CaughtUp(db, start, end, limit, cursor, output)
    requires a == Below(db, start, |db|) && lo == Below(db, cursor, |db|) && h == PageEnd(db, cursor, end, limit)
    requires a <= lo <= h <= Below(db, end + 1, |db|) && lo <= p && p == a + |output|
    requires page == db[lo..h] && Merge(output, page, |page|) == db[a..if h < p then p else h]
    requires (Brings(output, page) <==> h > p) && !Conflicts(output, page)
    ensures NextPage(db, start, end, limit, output, page)
  {
    hide *;
    var hi := Below(db, end + 1, |db|);
    CaughtUpFacts(db, start, end, limit, cursor, output, a, lo, p, h);
    if h < lo + limit {
      NotFullMeansRoomy(db, start, cursor, end, limit);
      ShortPage(db, start, end, limit, output, page, a, hi);
    } else if h <= p {
      StuckMeansCrowded(db, start, end, limit, cursor, lo, p);
      StuckPage(db, start, end, limit, output, page);
    } else {
      FullPageSkipsNoCrowd(db, start, cursor, limit, lo);
      RunCaughtUp(db, start, end, limit, a, h);
      FullPage(db, start, end, limit, output, page, db[a..h], Ms(db[h - 1]));
    }
  }

  lemma CaughtUpFacts(
    db: seq<Record>, start: int, end: int, limit: nat, cursor: int, output: seq<Record>, a: nat, lo: nat, p: nat, h: nat)
    requires Ordered(db) && start <= end && CaughtUp(db, start, end, limit, cursor, output)
    requires a == Below(db, start, |db|) && lo == Below(db, cursor, |db|) && p == a + |output|
    requires h == PageEnd(db, cursor, end, limit)
    ensures var hi := Below(db, end + 1, |db|);
            && a <= p <= hi && h == (if hi < lo + limit then hi else lo + limit)
            && cursor == (if p == a then start else Ms(db[p - 1])) && !Crowded(db, start, cursor, limit)
  {
    hide Below, Ms, Crowded, Ordered;
  }

  lemma ShortPage(
    db: seq<Record>, start: int, end: int, limit: nat, output: seq<Record>, page: seq<Record>, a: nat, hi: nat)
    requires Ordered(db) && start <= end && a == Below(db, start, |db|) <= hi == Below(db, end + 1, |db|)
    requires |page| < limit && !Conflicts(output, page) && !Crowded(db, start, end + 1, limit)
    requires Merge(output, page, |page|) == db[a..hi]
    ensures NextPage(db, start, end, limit, output, page)
  {
    hide Below, Brings, Conflicts, Crowded, Merge, Ordered;
  }

  lemma StuckPage(db: seq<Record>, start: int, end: int, limit: nat, output: seq<Record>, page: seq<Record>)
    requires Ordered(db) && start <= end && |page| == limit && !Conflicts(output, page) && !Brings(output, page)
    requires Crowded(db, start, end + 1, limit)
    ensures NextPage(db, start, end, limit, output, page)
  {
    hide Brings, Conflicts, Crowded, Merge, Ordered;
  }

  lemma FullPage(
    db: seq<Record>, start: int, end: int, limit: nat, output: seq<Record>, page: seq<Record>,
    merged: seq<Record>, last: int)
    requires Ordered(db) && start <= end && |page| == limit > 0 && !Conflicts(output, page) && Brings(output, page)
    requires merged == Merge(output, page, |page|) && last == Ms(page[|page| - 1])
    requires CaughtUp(db, start, end, limit, last, merged)
    ensures NextPage(db, start, end, limit, output, page)
  {
    hide Brings, Conflicts, Crowded, Merge, Ordered, CaughtUp;
  }

  /** A contiguous run from the start is caught up at its last record. */
  lemma RunCaughtUp(db: seq<Record>, start: int, end: int, limit: nat, a: nat, h: nat)
    requires Ordered(db) && a == Below(db, start, |db|) && a < h <= Below(db, end + 1, |db|)
    requires !Crowded(db, start, Ms(db[h - 1]), limit)
    ensures CaughtUp(db, start, end, limit, Ms(db[h - 1]), db[a..h])
  {
    hide Below, Crowded, Ms, Ordered;
  }

  lemma BringsIffBeyond(db: seq<Record>, a: nat, lo: nat, p: nat, h: nat)
    requires DistinctKeys(db) && a <= lo <= p <= |db| && lo <= h <= |db|
    ensures Brings(db[a..p], db[lo..h]) <==> h > p
  {
    hide KeyOf;
    if h > p {
      assert db[lo..h][p - lo] == db[p];
      SliceHolds(db, a, p, p);
    }
    if Brings(db[a..p], db[lo..h]) {
      var j :| 0 <= j < h - lo && !Holds(db[a..p], KeyOf(db[lo..h][j]));
      SliceHolds(db, a, p, lo + j);
    }
  }

  lemma NotFullMeansRoomy(db: seq<Record>, start: int, cursor: int, end: int, limit: nat)
    requires Ordered(db) && limit > 0 && start <= cursor <= end && !Crowded(db, start, cursor, limit)
    requires Below(db, end + 1, |db|) < Below(db, cursor, |db|) + limit
    ensures !Crowded(db, start, end + 1, limit)
  {
    forall i | 0 <= i < |db| && CrowdAt(db, i, limit) && start <= Ms(db[i])
      ensures Ms(db[i]) >= end + 1
    {
      BelowSplits(db, cursor, i);
      BelowSplits(db, end + 1, i + limit - 1);
    }
  }

  lemma StuckMeansCrowded(db: seq<Record>, start: int, end: int, limit: nat, cursor: int, lo: nat, p: nat)
    requires Ordered(db) && limit > 0 && start <= cursor <= end
    requires lo == Below(db, cursor, |db|) && lo + limit <= p <= Below(db, end + 1, |db|) && Ms(db[p - 1]) == cursor
    ensures Crowded(db, start, end + 1, limit)
  {
    BelowSplits(db, cursor, lo);
    BelowSplits(db, cursor, lo + limit - 1);
    assert Ms(db[lo]) <= Ms(db[lo + limit - 1]) <= Ms(db[p - 1]) by { hide Ms; }
    assert CrowdAt(db, lo, limit);
  }

  lemma FullPageSkipsNoCrowd(db: seq<Record>, start: int, cursor: int, limit: nat, lo: nat)
    requires Ordered(db) && limit > 0 && !Crowded(db, start, cursor, limit)
    requires lo == Below(db, cursor, |db|) && lo + limit <= |db|
    ensures !Crowded(db, start, Ms(db[lo + limit - 1]), limit)
  {
    var last := lo + limit - 1;
    hide Ms;
    forall i | 0 <= i < |db| && CrowdAt(db, i, limit) && start <= Ms(db[i])
      ensures Ms(db[i]) >= Ms(db[last])
    {
      BelowSplits(db, cursor, i);
    }
  }

  // ----- the paginator

  predicate Blank(symbol: string) {
    forall i :: 0 <= i < |symbol| ==> symbol[i] in " \t\n\r"
  }

  /** A symbol is blank when it is empty or only white space. */
  lemma BlankMeaning(symbol: string, c: char)
    ensures Blank("")
    ensures Blank(symbol + [c]) <==> Blank(symbol) && (c == ' ' || c == '\t' || c == '\n' || c == '\r')
  {
    var longer := symbol + [c];
    assert longer[|symbol|] == c && forall i :: 0 <= i < |symbol| ==> longer[i] == symbol[i];
  }

  predicate ValidRequest(symbol: string, start: int, end: int) {
    !Blank(symbol) && 0 <= start <= end
  }

  /** Every record was on some page of the server for this range. */
  ghost predicate Served(server: Server, end: int, rs: seq<Record>) {
    forall i :: 0 <= i < |rs| ==> exists call: nat, cursor :: rs[i] in server(call, cursor, end)
  }

  lemma {:induction false} MergeServed(server: Server, end: int, output: seq<Record>, call: nat, cursor: int, n: nat)
    requires Served(server, end, output) && n <= |server(call, cursor, end)|
    ensures Served(server, end, Merge(output, server(call, cursor, end), n))
  {
    hide KeyOf;
    if n > 0 {
      MergeServed(server, end, output, call, cursor, n - 1);
      assert server(call, cursor, end)[n - 1] in server(call, cursor, end);
    }
  }

  ghost predicate HonestServer(server: Server, db: seq<Record>, symbol: string, limit: nat) {
    Database(db, symbol) && Honest(server, db, limit)
  }

  lemma FullPageAdvances(page: seq<Record>, symbol: string, cursor: int, end: int)
    requires page != [] && WellFormed(page, symbol, cursor, end)
    ensures cursor <= Ms(page[|page| - 1]) <= end
  {
  }

  /** Against any server: terminates, and an accepted result is ordered, in range, free of repeats
      and made of served records.  Against an honest server: returns every record of the range
      exactly when fewer than `limit` records share any timestamp, and otherwise raises. */
  method FetchFundingHistory(
    server: Server, symbol: string, start: int, end: int, limit: nat, ghost types: set<string>, ghost db: seq<Record>)
    returns (r: Result<seq<Record>, PageError>)
    requires limit > 0
    requires forall call: nat, cursor, upper :: UsesTypes(server(call, cursor, upper), types)
    ensures r.Ok? ==> ValidRequest(symbol, start, end)
    ensures r.Ok? ==> WellFormed(r.value, symbol, start, end) && Served(server, end, r.value)
    ensures ValidRequest(symbol, start, end) && HonestServer(server, db, symbol, limit) ==>
              && (r.Ok? <==> !Crowded(db, start, end + 1, limit))
              && (r.Ok? ==> r.value == InRange(db, start, end))
              && (r.Err? ==> r.error == NoProgress)
  {
    hide CaughtUp, FirstPage, InBounds;
    if Blank(symbol) {
      return Err(EmptySymbol);
    }
    if start < 0 || end < 0 {
      return Err(NegativeBound);
    }
    if start > end {
      return Err(InvertedRange);
    }
    var seen: map<SourceKey, Record> := map[];
    var output: seq<Record> := [];
    var cursor, call: nat := start, 0;
    ghost var honest := HonestServer(server, db, symbol, limit);
    assert honest ==> Ordered(db);
    StartHolds(symbol, start, end, limit, server, db);
    while true
      invariant start <= cursor <= end
      invariant Indexes(seen, output) && Served(server, end, output)
      invariant WellFormed(output, symbol, start, cursor)
      invariant honest ==> CaughtUp(db, start, end, limit, cursor, output)
      decreases |Unseen(output, start, end, types)|
    {
      var page := server(call, cursor, end);
      if honest {
        HonestPage(db, symbol, start, end, limit, cursor, output);
        assert page == FirstPage(db, cursor, end, limit);
      }
      if |page| > limit {
        return Err(OversizedPage);
      }
      var invalid := ValidatePage(page, symbol, cursor, end);
      if invalid.Some? {
        return Err(invalid.value);
      }
      var unseen := CountUnseen(seen, page, output);
      if unseen.Err? {
        return Err(unseen.error);
      }
      var full := |page| == limit;
      if full && unseen.value == 0 {
        return Err(NoProgress);
      }
      MergeWellFormed(output, page, |page|, symbol, start, cursor, end);
      MergeServed(server, end, output, call, cursor, |page|);
      if full {
        MergeShrinksUnseen(output, page, symbol, start, cursor, end, types);
        FullPageAdvances(page, symbol, cursor, end);
      }
      seen, output := Absorb(seen, output, page);
      if !full {
        PageWithin(output, page, symbol, start, cursor, end);
        return Ok(output);
      }
      cursor := Ms(page[|page| - 1]);
      call := call + 1;
    }
  }

  lemma StartHolds(symbol: string, start: int, end: int, limit: nat, server: Server, db: seq<Record>)
    requires start <= end
    ensures Indexes(map[], []) && Served(server, end, []) && WellFormed([], symbol, start, start)
    ensures HonestServer(server, db, symbol, limit) ==> CaughtUp(db, start, end, limit, start, [])
  {
    if HonestServer(server, db, symbol, limit) {
      BelowMonotone(db, start, end + 1);
    }
  }

  lemma PageWithin(output: seq<Record>, page: seq<Record>, symbol: string, start: int, cursor: int, end: int)
    requires WellFormed(page, symbol, cursor, end) && cursor <= end
    requires WellFormed(output, symbol, start, if |page| == 0 then cursor else Ms(page[|page| - 1]))
    ensures WellFormed(output, symbol, start, end)
  {
    hide Ordered, DistinctKeys, Aligned, Ms;
  }

  /** With the two rate types of the source no timestamp can hold a full page, so an honest server
      is always read to the end: the raise is reachable only through a limit of at most two. */
  lemma TwoRateTypesNeverCrowd(db: seq<Record>, symbol: string, from: int, before: int, limit: nat)
    requires Database(db, symbol) && UsesTypes(db, {"Regular", "Special"}) && limit > 2
    ensures !Crowded(db, from, before, limit)
  {
    forall i | 0 <= i < |db| && i + limit <= |db|
      ensures !CrowdAt(db, i, limit)
    {
      assert KeyOf(db[i]) != KeyOf(db[i + 1]) && KeyOf(db[i + 1]) != KeyOf(db[i + 2]) && KeyOf(db[i]) != KeyOf(db[i + 2]);
      assert Ms(db[i]) <= Ms(db[i + 1]) <= Ms(db[i + 2]) <= Ms(db[i + limit - 1]) by { hide Ms; }
    }
  }

  /** At the real page limit an honest server of the source's records is always read completely. */
  method FetchEverything(server: Server, symbol: string, start: int, end: int, ghost db: seq<Record>)
    returns (r: Result<seq<Record>, PageError>)
    requires ValidRequest(symbol, start, end) && HonestServer(server, db, symbol, PAGE_LIMIT)
    requires UsesTypes(db, {"Regular", "Special"})
    requires forall call: nat, cursor, upper :: UsesTypes(server(call, cursor, upper), {"Regular", "Special"})
    ensures r == Ok(InRange(db, start, end))
  {
    TwoRateTypesNeverCrowd(db, symbol, start, end + 1, PAGE_LIMIT);
    r := FetchFundingHistory(server, symbol, start, end, PAGE_LIMIT, {"Regular", "Special"}, db);
  }
}
