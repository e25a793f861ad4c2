/** CPCV paths: in every split the best candidates on the training rows are selected, and each
    path reads the selections on the rows they were not trained on. */
module Cpcv {
  import opened Outcomes
  import opened Sums
  import opened ProductFacts
  import opened Combinations
  import opened FoldModel
  import PositionLog

  type PositionInterval = PositionLog.PositionInterval

  /** Recorded intervals of every candidate, one sequence per window block. */
  type PositionBook = map<string, seq<seq<PositionInterval>>>

  /** The Sharpe ratio of a sample, undefined (None) without deviation. */
  type Sharpe = seq<real> -> Option<real>

  datatype Matrix = Matrix(ids: seq<string>, times: seq<int>, windows: seq<nat>, cells: seq<seq<real>>)

  ghost predicate ValidMatrix(m: Matrix) {
    && m.ids != [] && (forall i, j :: 0 <= i < j < |m.ids| ==> m.ids[i] != m.ids[j])
    && m.times != [] && PositionLog.StrictlyAscending(m.times)
    && |m.windows| == |m.times| == |m.cells|
    && Rectangular(m.cells, |m.times|, |m.ids|)
    && (forall r :: 0 <= r < |m.windows| ==> m.windows[r] <= m.windows[|m.windows| - 1])
  }

  ghost predicate Rectangular(cells: seq<seq<real>>, rows: nat, width: nat) {
    |cells| == rows && forall r :: 0 <= r < rows ==> |cells[r]| == width
  }

  datatype CpcvError =
    | TooFewCandidates
    | RowOutsideGroups(row: nat)
    | GroupWithoutRows(group: nat)
    | WrongCandidates
    | WrongBlockCount
    | NotAnEquityMark
    | TooExpensive
    | TooFewTrainingRows(split: nat)
    | UndefinedTrainingSharpe(split: nat)
    | UndefinedPathSharpe(path: nat)

  const MAX_CELL_EVALUATIONS := 20_000_000

  // ----- rows and groups

  predicate Owns(w: Window, t: int) {
    w.start < t <= w.end
  }

  ghost predicate IsOwner(groups: seq<Window>, t: int, g: nat) {
    && g < |groups| && groups[g].start < t <= groups[g].end
    && forall h :: 0 <= h < g ==> !(groups[h].start < t <= groups[h].end)
  }

  ghost predicate AreOwners(m: Matrix, groups: seq<Window>, owners: seq<nat>) {
    && |owners| == |m.times|
    && (forall r :: 0 <= r < |owners| ==> IsOwner(groups, m.times[r], owners[r]))
    && (forall g :: 0 <= g < |groups| ==> g in owners)
  }

  ghost predicate HasOwner(groups: seq<Window>, t: int) {
    exists g :: 0 <= g < |groups| && groups[g].start < t <= groups[g].end
  }

  ghost predicate OwnersExist(m: Matrix, groups: seq<Window>) {
    && (forall r :: 0 <= r < |m.times| ==> HasOwner(groups, m.times[r]))
    && (forall g :: 0 <= g < |groups| ==> OwnsSomeRow(m, groups, g))
  }

  ghost predicate OwnsSomeRow(m: Matrix, groups: seq<Window>, g: nat) {
    exists r :: 0 <= r < |m.times| && IsOwner(groups, m.times[r], g)
  }

  method OwnerOf(groups: seq<Window>, t: int) returns (g: nat)
    ensures g <= |groups|
    ensures g < |groups| ==> IsOwner(groups, t, g)
    ensures g == |groups| ==> !HasOwner(groups, t)
  {
    g := 0;
    while g < |groups| && !Owns(groups[g], t)
      invariant g <= |groups| && forall h :: 0 <= h < g ==> !Owns(groups[h], t)
    {
      g := g + 1;
    }
  }

  method RowGroups(m: Matrix, groups: seq<Window>) returns (r: Result<seq<nat>, CpcvError>)
    ensures r.Ok? <==> OwnersExist(m, groups)
    ensures r.Ok? ==> AreOwners(m, groups, r.value)
  {
    var owners: seq<nat> := [];
    for row := 0 to |m.times|
      invariant |owners| == row
      invariant forall i :: 0 <= i < row ==> IsOwner(groups, m.times[i], owners[i])
    {
      var owner := OwnerOf(groups, m.times[row]);
      assert HasOwner(groups, m.times[row]) <==> owner < |groups|;
      if owner == |groups| {
        return Err(RowOutsideGroups(row));
      }
      owners := owners + [owner];
    }
    for group := 0 to |groups|
      invariant forall g :: 0 <= g < group ==> g in owners
    {
      if group !in owners {
        NoOwnerMeansNoRow(m, groups, owners, group);
        return Err(GroupWithoutRows(group));
      }
    }
    forall r | 0 <= r < |m.times|
      ensures HasOwner(groups, m.times[r])
    {
      assert IsOwner(groups, m.times[r], owners[r]);
    }
    forall g | 0 <= g < |groups|
      ensures OwnsSomeRow(m, groups, g)
    {
      assert g in owners;
      var row :| 0 <= row < |owners| && owners[row] == g;
      assert IsOwner(groups, m.times[row], g);
    }
    return Ok(owners);
  }

  lemma NoOwnerMeansNoRow(m: Matrix, groups: seq<Window>, owners: seq<nat>, g: nat)
    requires |owners| == |m.times| && g < |groups| && g !in owners
    requires forall r :: 0 <= r < |owners| ==> IsOwner(groups, m.times[r], owners[r])
    ensures !OwnersExist(m, groups)
  {
    forall r | 0 <= r < |m.times|
      ensures !IsOwner(groups, m.times[r], g)
    {
      assert owners[r] != g && IsOwner(groups, m.times[r], owners[r]);
    }
    assert !OwnsSomeRow(m, groups, g);
  }

  // ----- rows produced by recorded intervals

  function BlockCount(m: Matrix): nat {
    if m.windows == [] then 0 else m.windows[|m.windows| - 1] + 1
  }

  function BlockRows(m: Matrix, b: nat): seq<nat> {
    Select(|m.windows|, (r: nat) => r < |m.windows| && m.windows[r] == b)
  }

  function BlockMarks(m: Matrix, b: nat): (marks: seq<int>)
    requires |m.windows| == |m.times|
    ensures |marks| == |BlockRows(m, b)|
  {
    var rows := BlockRows(m, b);
    seq(|rows|, i requires 0 <= i < |rows| => m.times[rows[i]])
  }

  /** Interval of block b produces the return of row r. */
  predicate Produces(m: Matrix, b: nat, i: PositionInterval, r: nat)
    requires |m.windows| == |m.times|
  {
    r < |m.times| && m.windows[r] == b && m.times[r] in PositionLog.ReturnMarks(i, BlockMarks(m, b))
  }

  predicate IntervalAccepted(m: Matrix, b: nat, i: PositionInterval)
    requires |m.windows| == |m.times|
  {
    i.entry in BlockMarks(m, b) && (i.exit.Some? ==> i.exit.value in BlockMarks(m, b))
  }

  /** The rows whose return interval i of block b produces, ascending. */
  function Produced(m: Matrix, b: nat, i: PositionInterval): (rows: seq<nat>)
    requires |m.windows| == |m.times|
    ensures forall r: nat :: r in rows <==> Produces(m, b, i, r)
  {
    Select(|m.times|, (r: nat) => Produces(m, b, i, r))
  }

  ghost predicate BlockAccepted(m: Matrix, b: nat, intervals: seq<PositionInterval>)
    requires |m.windows| == |m.times|
  {
    forall k :: 0 <= k < |intervals| ==> IntervalAccepted(m, b, intervals[k])
  }

  ghost predicate CandidateAccepted(m: Matrix, perBlock: seq<seq<PositionInterval>>)
    requires |m.windows| == |m.times|
  {
    |perBlock| == BlockCount(m) && forall b :: 0 <= b < |perBlock| ==> BlockAccepted(m, b, perBlock[b])
  }

  ghost predicate PositionsAccepted(m: Matrix, book: PositionBook)
    requires |m.windows| == |m.times|
  {
    && book.Keys == (set id | id in m.ids)
    && (forall id :: id in book ==> CandidateAccepted(m, book[id]))
  }

  ghost predicate FromBlock(m: Matrix, b: nat, intervals: seq<PositionInterval>, n: nat, rows: seq<nat>)
    requires |m.windows| == |m.times| && n <= |intervals|
  {
    exists k :: 0 <= k < n && rows == Produced(m, b, intervals[k])
  }

  ghost predicate FromCandidate(m: Matrix, perBlock: seq<seq<PositionInterval>>, n: nat, rows: seq<nat>)
    requires |m.windows| == |m.times| && n <= |perBlock|
  {
    exists b :: 0 <= b < n && FromBlock(m, b, perBlock[b], |perBlock[b]|, rows)
  }

  ghost predicate FromBook(m: Matrix, book: PositionBook, n: nat, rows: seq<nat>)
    requires |m.windows| == |m.times| && n <= |m.ids|
  {
    exists c :: 0 <= c < n && m.ids[c] in book && FromCandidate(m, book[m.ids[c]], |book[m.ids[c]]|, rows)
  }

  /** Exactly the non-empty row sets produced by the recorded intervals. */
  ghost predicate AreProduced(m: Matrix, book: PositionBook, produced: seq<seq<nat>>)
    requires |m.windows| == |m.times|
  {
    forall rows :: rows in produced <==> rows != [] && FromBook(m, book, |m.ids|, rows)
  }

  method BlockIntervalRows(m: Matrix, b: nat, intervals: seq<PositionInterval>)
    returns (r: Result<seq<seq<nat>>, CpcvError>)
    requires |m.windows| == |m.times|
    ensures r.Ok? <==> BlockAccepted(m, b, intervals)
    ensures r.Ok? ==> forall rows :: rows in r.value <==> rows != [] && FromBlock(m, b, intervals, |intervals|, rows)
  {
    hide IntervalAccepted, Produced;
    var found: seq<seq<nat>> := [];
    for k := 0 to |intervals|
      invariant forall j :: 0 <= j < k ==> IntervalAccepted(m, b, intervals[j])
      invariant forall rows :: rows in found <==> rows != [] && FromBlock(m, b, intervals, k, rows)
    {
      if !IntervalAccepted(m, b, intervals[k]) {
        return Err(NotAnEquityMark);
      }
      var produced := Produced(m, b, intervals[k]);
      if produced != [] {
        found := found + [produced];
      }
    }
    return Ok(found);
  }

  method CandidateIntervalRows(m: Matrix, perBlock: seq<seq<PositionInterval>>)
    returns (r: Result<seq<seq<nat>>, CpcvError>)
    requires |m.windows| == |m.times|
    ensures r.Ok? <==> CandidateAccepted(m, perBlock)
    ensures r.Ok? ==> forall rows :: rows in r.value <==> rows != [] && FromCandidate(m, perBlock, |perBlock|, rows)
  {
    hide BlockAccepted, FromBlock;
    if |perBlock| != BlockCount(m) {
      return Err(WrongBlockCount);
    }
    var found: seq<seq<nat>> := [];
    for b := 0 to |perBlock|
      invariant forall j :: 0 <= j < b ==> BlockAccepted(m, j, perBlock[j])
      invariant forall rows :: rows in found <==> rows != [] && FromCandidate(m, perBlock, b, rows)
    {
      var block := BlockIntervalRows(m, b, perBlock[b]);
      if block.Err? {
        return block;
      }
      found := found + block.value;
    }
    return Ok(found);
  }

  method IntervalRows(m: Matrix, book: PositionBook) returns (r: Result<seq<seq<nat>>, CpcvError>)
    requires |m.windows| == |m.times|
    ensures r.Ok? <==> PositionsAccepted(m, book)
    ensures r.Ok? ==> AreProduced(m, book, r.value)
  {
    hide CandidateAccepted, FromCandidate;
    if book.Keys != (set id | id in m.ids) {
      return Err(WrongCandidates);
    }
    var found: seq<seq<nat>> := [];
    for c := 0 to |m.ids|
      invariant forall j :: 0 <= j < c ==> CandidateAccepted(m, book[m.ids[j]])
      invariant forall rows :: rows in found <==> rows != [] && FromBook(m, book, c, rows)
    {
      assert m.ids[c] in m.ids;
      var candidate := CandidateIntervalRows(m, book[m.ids[c]]);
      if candidate.Err? {
        return candidate;
      }
      found := found + candidate.value;
    }
    return Ok(found);
  }

  // ----- training rows of a split

  /** Everything that decides the training rows: no return value is among it. */
  datatype Frame = Frame(owners: seq<nat>, windows: seq<nat>, purgeWindows: bool, produced: Option<seq<seq<nat>>>)

  predicate InTest(f: Frame, split: Split, r: nat) {
    r < |f.owners| && f.owners[r] in split.test
  }

  predicate TouchesTest(f: Frame, split: Split, rows: seq<nat>) {
    exists k :: 0 <= k < |rows| && InTest(f, split, rows[k])
  }

  /** Some recorded position produces both this row's return and a test row's. */
  predicate Touched(f: Frame, split: Split, r: nat) {
    f.produced.Some? && exists rows :: rows in f.produced.value && r in rows && TouchesTest(f, split, rows)
  }

  predicate SharesTestWindow(f: Frame, split: Split, r: nat)
    requires |f.owners| == |f.windows| && r < |f.windows|
  {
    exists u :: 0 <= u < |f.windows| && InTest(f, split, u) && f.windows[u] == f.windows[r]
  }

  predicate InGroupTrain(f: Frame, split: Split, r: nat) {
    r < |f.owners| && f.owners[r] in split.train
  }

  predicate Trains(f: Frame, split: Split, r: nat)
    requires |f.owners| == |f.windows|
  {
    && InGroupTrain(f, split, r)
    && (f.purgeWindows ==> !SharesTestWindow(f, split, r))
    && !Touched(f, split, r)
  }

  function TrainRows(f: Frame, split: Split): (rows: seq<nat>)
    requires |f.owners| == |f.windows|
    ensures forall r: nat :: r in rows <==> Trains(f, split, r)
    ensures Below(rows, |f.owners|)
  {
    Select(|f.owners|, (r: nat) => Trains(f, split, r))
  }

  /** The rows that satisfy keep, in order. */
  function Filter(rows: seq<nat>, keep: nat -> bool): (kept: seq<nat>)
    requires Ascending(rows)
    ensures Ascending(kept)
    ensures forall r: nat :: r in kept <==> r in rows && keep(r)
  {
    if rows == [] then []
    else
      var n := |rows| - 1;
      var front := Filter(rows[..n], keep);
      assert forall a :: 0 <= a < |front| ==> front[a] in rows[..n];
      if keep(rows[n]) then front + [rows[n]] else front
  }

  lemma {:induction false} AscendingSame(a: seq<nat>, b: seq<nat>)
    requires Ascending(a) && Ascending(b) && forall r: nat :: r in a <==> r in b
    ensures a == b
  {
    if a != [] {
      assert a[0] in a;
    }
    if b != [] {
      assert b[0] in b;
      assert a != [];
      var x, y := |a| - 1, |b| - 1;
      LastIsLargest(a, b[y]);
      LastIsLargest(b, a[x]);
      forall r: nat
        ensures r in a[..x] <==> r in b[..y]
      {
        DropLast(a, r);
        DropLast(b, r);
      }
      AscendingSame(a[..x], b[..y]);
      assert a == a[..x] + [a[x]] && b == b[..y] + [b[y]];
    }
  }

  lemma LastIsLargest(a: seq<nat>, r: nat)
    requires Ascending(a) && r in a
    ensures r <= a[|a| - 1]
  {
  }

  lemma DropLast(a: seq<nat>, r: nat)
    requires Ascending(a) && a != []
    ensures r in a[..|a| - 1] <==> r in a && r != a[|a| - 1]
  {
    var x := |a| - 1;
    if r in a && r != a[x] {
      var k :| 0 <= k < |a| && a[k] == r;
      assert a[..x][k] == r;
    }
  }

  /** The rows of the training groups, before any purging. */
  function GroupTrainRows(f: Frame, split: Split): (rows: seq<nat>)
    ensures forall r: nat :: r in rows <==> InGroupTrain(f, split, r)
    ensures Ascending(rows)
  {
    Select(|f.owners|, (r: nat) => InGroupTrain(f, split, r))
  }

  method SplitTrainRows(f: Frame, split: Split) returns (groupRows: seq<nat>, rows: seq<nat>)
    requires |f.owners| == |f.windows|
    ensures rows == TrainRows(f, split) && groupRows == GroupTrainRows(f, split)
    ensures |rows| <= |groupRows|
  {
    groupRows := GroupTrainRows(f, split);
    rows := groupRows;
    if f.purgeWindows {
      var testWindows := set u | 0 <= u < |f.windows| && InTest(f, split, u) :: f.windows[u];
      rows := Filter(rows, (r: nat) => r < |f.windows| && f.windows[r] !in testWindows);
    }
    assert forall r: nat :: r in rows <==>
        InGroupTrain(f, split, r) && (f.purgeWindows ==> !SharesTestWindow(f, split, r));
    if f.produced.Some? {
      var touched := TouchedRows(f, split);
      rows := Filter(rows, (r: nat) => r !in touched);
    }
    assert f.produced.None? ==> forall r: nat :: !Touched(f, split, r);
    AscendingSame(rows, TrainRows(f, split));
    FewerRows(rows, groupRows);
  }

  method TouchedRows(f: Frame, split: Split) returns (touched: set<nat>)
    requires f.produced.Some?
    ensures forall r: nat :: r in touched <==> Touched(f, split, r)
  {
    hide TouchesTest;
    var produced := f.produced.value;
    touched := {};
    for k := 0 to |produced|
      invariant forall r: nat :: r in touched <==> exists j :: 0 <= j < k && r in produced[j] && TouchesTest(f, split, produced[j])
    {
      if TouchesTest(f, split, produced[k]) {
        touched := touched + (set r | r in produced[k]);
      }
    }
    forall r: nat
      ensures r in touched <==> Touched(f, split, r)
    {
      if r in touched {
        var j :| 0 <= j < |produced| && r in produced[j] && TouchesTest(f, split, produced[j]);
        assert produced[j] in produced;
      }
    }
  }

  lemma {:induction false} FewerRows(a: seq<nat>, b: seq<nat>)
    requires Ascending(a) && Ascending(b) && forall r: nat :: r in a ==> r in b
    ensures |a| <= |b|
  {
    if a != [] {
      var x, y := |a| - 1, |b| - 1;
      assert a[x] in b;
      LastIsLargest(b, a[x]);
      forall r: nat | r in a[..x]
        ensures r in b[..y]
      {
        DropLast(a, r);
        DropLast(b, r);
        LastIsLargest(a, r);
      }
      FewerRows(a[..x], b[..y]);
    }
  }

  // ----- selection on the training rows

  function Column(cells: seq<seq<real>>, width: nat, rows: seq<nat>, c: nat): seq<real>
    requires Below(rows, |cells|) && Rectangular(cells, |cells|, width) && c < width
  {
    seq(|rows|, k requires 0 <= k < |rows| => cells[rows[k]][c])
  }

  function Score(cells: seq<seq<real>>, width: nat, sharpe: Sharpe, rows: seq<nat>, c: nat): Option<real>
    requires Below(rows, |cells|) && Rectangular(cells, |cells|, width) && c < width
  {
    sharpe(Column(cells, width, rows, c))
  }

  ghost predicate ScoresDefined(cells: seq<seq<real>>, width: nat, sharpe: Sharpe, rows: seq<nat>)
    requires Below(rows, |cells|) && Rectangular(cells, |cells|, width)
  {
    forall c :: 0 <= c < width ==> Score(cells, width, sharpe, rows, c).Some?
  }

  /** The selected columns, ascending: exactly those no other column beats on these rows. */
  ghost predicate AreSelected(
    cells: seq<seq<real>>, width: nat, sharpe: Sharpe, rows: seq<nat>, columns: seq<nat>)
    requires Below(rows, |cells|) && Rectangular(cells, |cells|, width)
    requires ScoresDefined(cells, width, sharpe, rows)
  {
    && Ascending(columns) && Below(columns, width) && columns != []
    && forall c :: 0 <= c < width ==>
         (c in columns <==>
          forall d :: 0 <= d < width ==>
            Score(cells, width, sharpe, rows, d).value <= Score(cells, width, sharpe, rows, c).value)
  }

  method SelectColumns(cells: seq<seq<real>>, width: nat, sharpe: Sharpe, rows: seq<nat>, split: nat)
    returns (r: Result<(seq<real>, seq<nat>), CpcvError>)
    requires Below(rows, |cells|) && Rectangular(cells, |cells|, width) && width > 0
    ensures r.Ok? <==> ScoresDefined(cells, width, sharpe, rows)
    ensures r.Ok? ==> AreSelected(cells, width, sharpe, rows, r.value.1)
    ensures r.Ok? ==> |r.value.0| == width
                      && forall c :: 0 <= c < width ==> Score(cells, width, sharpe, rows, c) == Some(r.value.0[c])
    ensures r.Err? ==> r.error == UndefinedTrainingSharpe(split)
  {
    var sharpes: seq<real> := [];
    for c := 0 to width
      invariant |sharpes| == c
      invariant forall d :: 0 <= d < c ==> Score(cells, width, sharpe, rows, d) == Some(sharpes[d])
    {
      var score := Score(cells, width, sharpe, rows, c);
      if score.None? {
        return Err(UndefinedTrainingSharpe(split));
      }
      sharpes := sharpes + [score.value];
    }
    var best, at := sharpes[0], 0;
    for c := 1 to width
      invariant 0 <= at < width && best == sharpes[at]
      invariant forall d :: 0 <= d < c ==> sharpes[d] <= best
    {
      if sharpes[c] > best {
        best, at := sharpes[c], c;
      }
    }
    var selected := Select(width, (c: nat) => c < |sharpes| && sharpes[c] == best);
    assert at in selected;
    assert Below(selected, width);
    return Ok((sharpes, selected));
  }

  /** The training score reads nothing but the training rows. */
  lemma ScoreReadsTrainRows(
    a: seq<seq<real>>, b: seq<seq<real>>, width: nat, sharpe: Sharpe, rows: seq<nat>, c: nat)
    requires |a| == |b| && Below(rows, |a|) && Rectangular(a, |a|, width) && Rectangular(b, |b|, width) && c < width
    requires forall r :: r in rows ==> a[r] == b[r]
    ensures Score(a, width, sharpe, rows, c) == Score(b, width, sharpe, rows, c)
  {
    assert Column(a, width, rows, c) == Column(b, width, rows, c);
  }

  // ----- paths

  function Picked(row: seq<real>, columns: seq<nat>): (values: seq<real>)
    requires Below(columns, |row|)
    ensures |values| == |columns| && forall k :: 0 <= k < |columns| ==> values[k] == row[columns[k]]
  {
    seq(|columns|, k requires 0 <= k < |columns| => row[columns[k]])
  }

  /** The mean of the selected candidates' returns; one candidate contributes its own return. */
  function Blend(row: seq<real>, columns: seq<nat>): (mean: real)
    requires columns != [] && Below(columns, |row|)
  {
    Total(Picked(row, columns)) / |columns| as real
  }

  lemma SingleBlend(row: seq<real>, c: nat)
    requires c < |row|
    ensures Blend(row, [c]) == row[c]
  {
    assert Total(Picked(row, [c])) == Sum(Picked(row, [c]), 0) + row[c];
  }

  /** Times the number of columns, the blend is the sum of their returns. */
  lemma BlendIsMean(row: seq<real>, columns: seq<nat>, value: real)
    requires columns != [] && Below(columns, |row|)
    ensures Times(value, |columns| as real) == Total(Picked(row, columns)) <==> value == Blend(row, columns)
  {
    QuotientProduct(Total(Picked(row, columns)), |columns| as real);
    QuotientProduct(value, |columns| as real);
  }

  ghost predicate Within(values: seq<real>, low: real, high: real) {
    forall k :: 0 <= k < |values| ==> low <= values[k] <= high
  }

  /** A mean lies between the smallest and the largest of its values. */
  lemma {:induction false} SumWithin(values: seq<real>, n: nat, low: real, high: real)
    requires n <= |values| && Within(values, low, high)
    ensures low * n as real <= Sum(values, n) <= high * n as real
  {
    if n > 0 {
      SumWithin(values, n - 1, low, high);
      assert n as real == (n - 1) as real + 1.0;
      Distribute(low, (n - 1) as real, 1.0);
      Distribute(high, (n - 1) as real, 1.0);
    }
  }

  lemma MeanWithin(values: seq<real>, mean: real, low: real, high: real)
    requires values != [] && Within(values, low, high) && Times(mean, |values| as real) == Total(values)
    ensures low <= mean <= high
  {
    SumWithin(values, |values|, low, high);
    hide Sum, Within;
    QuotientWithin(mean, |values| as real, Total(values), low, high);
  }

  lemma QuotientWithin(mean: real, n: real, sum: real, low: real, high: real)
    requires n > 0.0 && Times(mean, n) == sum && low * n <= sum <= high * n
    ensures low <= mean <= high
  {
    ProductSign(n, mean - low);
    ProductSign(n, high - mean);
    assert n * (mean - low) == mean * n - low * n && n * (high - mean) == high * n - mean * n;
  }

  datatype SplitResult = SplitResult(
    index: nat, test: seq<nat>, train: seq<nat>, trainRowCount: nat, sharpes: seq<real>,
    selectedIds: seq<string>, purgedCount: nat)

  datatype PathResult = PathResult(
    index: nat, splitIndices: seq<nat>, cells: seq<real>, tieAveraged: seq<nat>, sharpe: real)

  datatype CpcvResult = CpcvResult(
    ids: seq<string>, rowGroups: seq<nat>, splits: seq<SplitResult>, paths: seq<PathResult>)

  /** A split, its training rows and the columns selected on them. */
  ghost predicate SplitHolds(f: Frame, m: Matrix, sharpe: Sharpe, split: Split, columns: seq<nat>)
    requires ValidMatrix(m) && |f.owners| == |f.windows| == |m.times|
  {
    var rows := TrainRows(f, split);
    && |rows| >= 2
    && ScoresDefined(m.cells, |m.ids|, sharpe, rows)
    && AreSelected(m.cells, |m.ids|, sharpe, rows, columns)
  }

  ghost predicate SplitReported(f: Frame, m: Matrix, sharpe: Sharpe, split: Split, columns: seq<nat>, s: SplitResult)
    requires ValidMatrix(m) && |f.owners| == |f.windows| == |m.times|
  {
    var rows := TrainRows(f, split);
    && s.index == split.index && s.test == split.test && s.train == split.train
    && s.trainRowCount == |rows|
    && s.trainRowCount + s.purgedCount == |GroupTrainRows(f, split)|
    && |s.sharpes| == |m.ids|
    && (forall c :: 0 <= c < |m.ids| ==> Score(m.cells, |m.ids|, sharpe, rows, c) == Some(s.sharpes[c]))
    && |s.selectedIds| == |columns|
    && (forall k :: 0 <= k < |columns| && columns[k] < |m.ids| ==> s.selectedIds[k] == m.ids[columns[k]])
  }

  ghost predicate PathHolds(
    f: Frame, m: Matrix, sharpe: Sharpe, selected: seq<seq<nat>>, indices: seq<nat>, p: PathResult)
    requires ValidMatrix(m) && |f.owners| == |m.times|
  {
    && p.splitIndices == indices
    && |p.cells| == |m.times|
    && (forall r :: 0 <= r < |m.times| ==>
          && f.owners[r] < |indices| && indices[f.owners[r]] < |selected|
          && selected[indices[f.owners[r]]] != [] && Below(selected[indices[f.owners[r]]], |m.ids|)
          && var columns := selected[indices[f.owners[r]]];
          Times(p.cells[r], |columns| as real) == Total(Picked(m.cells[r], columns)))
    && sharpe(p.cells) == Some(p.sharpe)
    && (forall g: nat :: g in p.tieAveraged <==>
          g < |indices| && indices[g] < |selected| && |selected[indices[g]]| > 1)
  }

  ghost predicate SplitDefined(f: Frame, m: Matrix, sharpe: Sharpe, split: Split)
    requires ValidMatrix(m) && |f.owners| == |f.windows| == |m.times|
  {
    |TrainRows(f, split)| >= 2 && ScoresDefined(m.cells, |m.ids|, sharpe, TrainRows(f, split))
  }

  method ComputeSplit(f: Frame, m: Matrix, sharpe: Sharpe, split: Split)
    returns (r: Result<(SplitResult, seq<nat>), CpcvError>)
    requires ValidMatrix(m) && |f.owners| == |f.windows| == |m.times|
    ensures r.Ok? <==> SplitDefined(f, m, sharpe, split)
    ensures r.Ok? ==> SplitHolds(f, m, sharpe, split, r.value.1) && SplitReported(f, m, sharpe, split, r.value.1, r.value.0)
    ensures r.Err? ==> r.error in {TooFewTrainingRows(split.index), UndefinedTrainingSharpe(split.index)}
  {
    var groupRows, rows := SplitTrainRows(f, split);
    if |rows| < 2 {
      return Err(TooFewTrainingRows(split.index));
    }
    var best := SelectColumns(m.cells, |m.ids|, sharpe, rows, split.index);
    if best.Err? {
      return Err(best.error);
    }
    var columns := best.value.1;
    assert Below(columns, |m.ids|);
    var selectedIds := seq(|columns|, k requires 0 <= k < |columns| => m.ids[columns[k]]);
    return Ok((SplitResult(split.index, split.test, split.train, |rows|, best.value.0, selectedIds, |groupRows| - |rows|),
               columns));
  }

  ghost predicate SplitsHold(f: Frame, m: Matrix, sharpe: Sharpe, splits: seq<Split>, selected: seq<seq<nat>>)
    requires ValidMatrix(m) && |f.owners| == |f.windows| == |m.times|
  {
    |selected| == |splits| && forall i :: 0 <= i < |splits| ==> SplitHolds(f, m, sharpe, splits[i], selected[i])
  }

  method ComputeSplits(f: Frame, m: Matrix, sharpe: Sharpe, splits: seq<Split>)
    returns (r: Result<(seq<SplitResult>, seq<seq<nat>>), CpcvError>)
    requires ValidMatrix(m) && |f.owners| == |f.windows| == |m.times|
    ensures r.Ok? <==> forall i :: 0 <= i < |splits| ==> SplitDefined(f, m, sharpe, splits[i])
    ensures r.Ok? ==> SplitsHold(f, m, sharpe, splits, r.value.1) && |r.value.0| == |splits|
    ensures r.Ok? ==> forall i :: 0 <= i < |splits| ==>
                        SplitReported(f, m, sharpe, splits[i], r.value.1[i], r.value.0[i])
  {
    hide ValidMatrix, SplitHolds, SplitReported, SplitDefined;
    var results: seq<SplitResult> := [];
    var selected: seq<seq<nat>> := [];
    for i := 0 to |splits|
      invariant |results| == |selected| == i
      invariant forall j :: 0 <= j < i ==> SplitDefined(f, m, sharpe, splits[j])
      invariant forall j :: 0 <= j < i ==> SplitHolds(f, m, sharpe, splits[j], selected[j])
                                           && SplitReported(f, m, sharpe, splits[j], selected[j], results[j])
    {
      var split := ComputeSplit(f, m, sharpe, splits[i]);
      if split.Err? {
        return Err(split.error);
      }
      results, selected := results + [split.value.0], selected + [split.value.1];
    }
    return Ok((results, selected));
  }

  /** Every lookup of a path is in bounds. */
  ghost predicate LookupsHold(f: Frame, m: Matrix, selected: seq<seq<nat>>, indices: seq<nat>)
  {
    forall r :: 0 <= r < |f.owners| ==>
      && f.owners[r] < |indices| && indices[f.owners[r]] < |selected|
      && selected[indices[f.owners[r]]] != [] && Below(selected[indices[f.owners[r]]], |m.ids|)
  }

  ghost function PathCells(f: Frame, m: Matrix, selected: seq<seq<nat>>, indices: seq<nat>): seq<real>
    requires ValidMatrix(m) && |f.owners| == |m.times| && LookupsHold(f, m, selected, indices)
  {
    seq(|m.times|, r requires 0 <= r < |m.times| => Blend(m.cells[r], selected[indices[f.owners[r]]]))
  }

  method ComputePath(f: Frame, m: Matrix, sharpe: Sharpe, selected: seq<seq<nat>>, indices: seq<nat>, index: nat)
    returns (r: Result<PathResult, CpcvError>)
    requires ValidMatrix(m) && |f.owners| == |m.times| && LookupsHold(f, m, selected, indices)
    requires Below(indices, |selected|)
    ensures r.Ok? <==> sharpe(PathCells(f, m, selected, indices)).Some?
    ensures r.Ok? ==> PathHolds(f, m, sharpe, selected, indices, r.value) && r.value.index == index
    ensures r.Err? ==> r.error == UndefinedPathSharpe(index)
  {
    var cells: seq<real> := [];
    for row := 0 to |m.times|
      invariant |cells| == row
      invariant forall i :: 0 <= i < row ==> cells[i] == PathCells(f, m, selected, indices)[i]
    {
      var columns := selected[indices[f.owners[row]]];
      assert |m.cells[row]| == |m.ids|;
      if |columns| == 1 {
        assert columns[0] < |m.ids|;
        SingleBlend(m.cells[row], columns[0]);
        assert columns == [columns[0]];
        cells := cells + [m.cells[row][columns[0]]];
      } else {
        cells := cells + [Blend(m.cells[row], columns)];
      }
    }
    assert cells == PathCells(f, m, selected, indices);
    forall row | 0 <= row < |m.times|
      ensures var columns := selected[indices[f.owners[row]]];
              && columns != [] && Below(columns, |m.cells[row]|)
              && Times(cells[row], |columns| as real) == Total(Picked(m.cells[row], columns))
    {
      assert |m.cells[row]| == |m.ids|;
      BlendIsMean(m.cells[row], selected[indices[f.owners[row]]], cells[row]);
    }
    hide Times, Total, Picked, Blend;
    var ratio := sharpe(cells);
    if ratio.None? {
      return Err(UndefinedPathSharpe(index));
    }
    var tied := Select(|indices|, (g: nat) => g < |indices| && indices[g] < |selected| && |selected[indices[g]]| > 1);
    return Ok(PathResult(index, indices, cells, tied, ratio.value));
  }

  // ----- the whole computation

  ghost predicate IsFrame(m: Matrix, fold: Model, purgeWindows: bool, book: Option<PositionBook>, f: Frame)
    requires |m.windows| == |m.times|
  {
    && AreOwners(m, fold.groups, f.owners)
    && f.windows == m.windows && f.purgeWindows == purgeWindows
    && (book.None? <==> f.produced.None?)
    && (book.Some? ==> AreProduced(m, book.value, f.produced.value))
  }

  ghost predicate InputsAccepted(m: Matrix, fold: Model, book: Option<PositionBook>)
    requires |m.windows| == |m.times|
  {
    && |m.ids| >= 2
    && OwnersExist(m, fold.groups)
    && (book.Some? ==> PositionsAccepted(m, book.value))
    && |fold.splits| * |m.times| * |m.ids| <= MAX_CELL_EVALUATIONS
  }

  /** The result of a study: its frame, the columns selected per split, and every path read from them. */
  ghost predicate IsResult(
    m: Matrix, fold: Model, sharpe: Sharpe, f: Frame, selected: seq<seq<nat>>, result: CpcvResult)
    requires ValidMatrix(m) && |f.owners| == |f.windows| == |m.times|
  {
    && result.ids == m.ids && result.rowGroups == f.owners
    && SplitsHold(f, m, sharpe, fold.splits, selected)
    && |result.splits| == |fold.splits|
    && (forall i :: 0 <= i < |fold.splits| ==>
          SplitReported(f, m, sharpe, fold.splits[i], selected[i], result.splits[i]))
    && |result.paths| == |fold.paths|
    && (forall p :: 0 <= p < |fold.paths| ==>
          PathHolds(f, m, sharpe, selected, fold.paths[p], result.paths[p]) && result.paths[p].index == p)
  }

  /** In a built model every path lookup names a split that tests the group. */
  lemma PathLookup(fold: Model, p: nat, g: nat)
    requires BuiltModel(fold) && p < |fold.paths| && g < |fold.groups|
    ensures |fold.paths[p]| == |fold.groups| && fold.paths[p][g] < |fold.splits|
    ensures var split := fold.splits[fold.paths[p][g]];
            g in split.test && g !in split.train
  {
    hide TrainGroups, EmbargoedGroups, WindowsOf, Contiguous, ValidWindows;
    var cs := Combos(0, |fold.groups|, fold.testGroupCount);
    PathSplitNeverTrainsItsGroup(fold.groups, fold.embargo, cs, |fold.paths|, fold.paths, p, g);
    PathsAreInjective(cs, |fold.groups|, |fold.paths|, fold.paths, p, p, g);
    var i := fold.paths[p][g];
    assert TestSets(fold.splits)[i] == cs[i];
    hide IsPathTable, Combos;
  }

  lemma AllLookups(f: Frame, m: Matrix, sharpe: Sharpe, fold: Model, selected: seq<seq<nat>>, p: nat)
    requires BuiltModel(fold) && ValidMatrix(m) && |f.owners| == |f.windows| == |m.times|
    requires AreOwners(m, fold.groups, f.owners) && SplitsHold(f, m, sharpe, fold.splits, selected) && p < |fold.paths|
    ensures LookupsHold(f, m, selected, fold.paths[p]) && Below(fold.paths[p], |selected|)
  {
    hide BuiltModel, ScoresDefined;
    forall g | 0 <= g < |fold.paths[p]|
      ensures fold.paths[p][g] < |selected|
    {
      PathWidth(fold, p);
      PathLookup(fold, p, g);
    }
    forall r | 0 <= r < |f.owners|
      ensures f.owners[r] < |fold.paths[p]|
      ensures fold.paths[p][f.owners[r]] < |selected|
      ensures selected[fold.paths[p][f.owners[r]]] != [] && Below(selected[fold.paths[p][f.owners[r]]], |m.ids|)
    {
      assert IsOwner(fold.groups, m.times[r], f.owners[r]);
      PathLookup(fold, p, f.owners[r]);
      assert SplitHolds(f, m, sharpe, fold.splits[fold.paths[p][f.owners[r]]], selected[fold.paths[p][f.owners[r]]]);
    }
  }

  lemma PathWidth(fold: Model, p: nat)
    requires BuiltModel(fold) && p < |fold.paths|
    ensures |fold.paths[p]| == |fold.groups|
  {
  }

  ghost predicate IsStudy(
    m: Matrix, fold: Model, sharpe: Sharpe, purgeWindows: bool, book: Option<PositionBook>,
    f: Frame, selected: seq<seq<nat>>, result: CpcvResult)
    requires ValidMatrix(m)
  {
    && IsFrame(m, fold, purgeWindows, book, f)
    && |f.owners| == |f.windows| == |m.times|
    && IsResult(m, fold, sharpe, f, selected, result)
  }

  /** Some split has too few training rows or an undefined training Sharpe ratio. */
  ghost predicate UndefinedSplit(m: Matrix, fold: Model, sharpe: Sharpe, f: Frame)
    requires ValidMatrix(m)
  {
    && |f.owners| == |f.windows| == |m.times|
    && exists i :: 0 <= i < |fold.splits| && !SplitDefined(f, m, sharpe, fold.splits[i])
  }

  /** Every split has its selection, and some path has no Sharpe ratio. */
  ghost predicate UndefinedPath(m: Matrix, fold: Model, sharpe: Sharpe, f: Frame, selected: seq<seq<nat>>)
    requires ValidMatrix(m)
  {
    && |f.owners| == |f.windows| == |m.times|
    && SplitsHold(f, m, sharpe, fold.splits, selected)
    && exists p :: 0 <= p < |fold.paths| && LookupsHold(f, m, selected, fold.paths[p])
                   && sharpe(PathCells(f, m, selected, fold.paths[p])).None?
  }

  /** No split and no path of the study is undefined. */
  ghost predicate StudyDefined(
    m: Matrix, fold: Model, sharpe: Sharpe, purgeWindows: bool, book: Option<PositionBook>)
    requires ValidMatrix(m)
  {
    forall f :: IsFrame(m, fold, purgeWindows, book, f) ==>
      !UndefinedSplit(m, fold, sharpe, f) && forall selected :: !UndefinedPath(m, fold, sharpe, f, selected)
  }

  // ----- one input has one frame, up to the order of its produced rows

  ghost predicate SameFrame(f: Frame, g: Frame) {
    && f.owners == g.owners && f.windows == g.windows && f.purgeWindows == g.purgeWindows
    && (f.produced.Some? <==> g.produced.Some?)
    && (f.produced.Some? ==> forall rows :: rows in f.produced.value <==> rows in g.produced.value)
  }

  lemma SameTrainRows(f: Frame, g: Frame, split: Split)
    requires SameFrame(f, g) && |f.owners| == |f.windows|
    ensures TrainRows(f, split) == TrainRows(g, split)
  {
    forall r: nat
      ensures Trains(f, split, r) <==> Trains(g, split, r)
    {
      assert forall rows :: TouchesTest(f, split, rows) == TouchesTest(g, split, rows);
    }
    hide Trains;
    AscendingSame(TrainRows(f, split), TrainRows(g, split));
  }

  lemma SameProduced(a: Matrix, b: Matrix, block: nat, i: PositionInterval)
    requires |a.windows| == |a.times| && a.windows == b.windows && a.times == b.times
    ensures Produced(a, block, i) == Produced(b, block, i)
  {
    AscendingSame(BlockRows(a, block), BlockRows(b, block));
    assert BlockMarks(a, block) == BlockMarks(b, block);
    AscendingSame(Produced(a, block, i), Produced(b, block, i));
  }

  lemma SameFromBook(a: Matrix, b: Matrix, book: PositionBook, rows: seq<nat>)
    requires |a.windows| == |a.times| && a.windows == b.windows && a.times == b.times && a.ids == b.ids
    ensures FromBook(a, book, |a.ids|, rows) ==> FromBook(b, book, |b.ids|, rows)
  {
    if FromBook(a, book, |a.ids|, rows) {
      var c :| 0 <= c < |a.ids| && a.ids[c] in book
               && FromCandidate(a, book[a.ids[c]], |book[a.ids[c]]|, rows);
      var perBlock := book[a.ids[c]];
      var n :| 0 <= n < |perBlock| && FromBlock(a, n, perBlock[n], |perBlock[n]|, rows);
      var k :| 0 <= k < |perBlock[n]| && rows == Produced(a, n, perBlock[n][k]);
      SameProduced(a, b, n, perBlock[n][k]);
      assert FromBlock(b, n, perBlock[n], |perBlock[n]|, rows);
      assert FromCandidate(b, perBlock, |perBlock|, rows);
    }
  }

  lemma OwnerIsUnique(groups: seq<Window>, t: int, g: nat, h: nat)
    requires IsOwner(groups, t, g) && IsOwner(groups, t, h)
    ensures g == h
  {
  }

  /** The frame depends on the identities, times, windows and intervals alone: no return enters it. */
  lemma FramesAgree(
    a: Matrix, b: Matrix, fold: Model, purgeWindows: bool, book: Option<PositionBook>, f: Frame, g: Frame)
    requires |a.windows| == |a.times| && a.windows == b.windows && a.times == b.times && a.ids == b.ids
    requires IsFrame(a, fold, purgeWindows, book, f) && IsFrame(b, fold, purgeWindows, book, g)
    ensures SameFrame(f, g) && |f.owners| == |f.windows| == |a.times|
  {
    hide IsOwner, FromBook;
    forall r | 0 <= r < |f.owners|
      ensures f.owners[r] == g.owners[r]
    {
      OwnerIsUnique(fold.groups, a.times[r], f.owners[r], g.owners[r]);
    }
    if book.Some? {
      forall rows
        ensures rows in f.produced.value <==> rows in g.produced.value
      {
        SameFromBook(a, b, book.value, rows);
        SameFromBook(b, a, book.value, rows);
      }
    }
  }

  lemma SameSplits(
    f: Frame, g: Frame, m: Matrix, sharpe: Sharpe, splits: seq<Split>, x: seq<seq<nat>>, y: seq<seq<nat>>)
    requires ValidMatrix(m) && |f.owners| == |f.windows| == |m.times| && SameFrame(f, g)
    requires SplitsHold(f, m, sharpe, splits, x)
    ensures SplitsHold(g, m, sharpe, splits, x)
    ensures SplitsHold(g, m, sharpe, splits, y) ==> x == y
  {
    hide AreSelected, ScoresDefined, ValidMatrix;
    forall i | 0 <= i < |splits|
      ensures SplitHolds(g, m, sharpe, splits[i], x[i])
    {
      assert SplitHolds(f, m, sharpe, splits[i], x[i]);
      SameTrainRows(f, g, splits[i]);
    }
    if SplitsHold(g, m, sharpe, splits, y) {
      forall i | 0 <= i < |splits|
        ensures x[i] == y[i]
      {
        OneSelection(g, m, sharpe, splits[i], x[i], y[i]);
      }
    }
  }

  lemma OneSelection(f: Frame, m: Matrix, sharpe: Sharpe, split: Split, x: seq<nat>, y: seq<nat>)
    requires ValidMatrix(m) && |f.owners| == |f.windows| == |m.times|
    requires SplitHolds(f, m, sharpe, split, x) && SplitHolds(f, m, sharpe, split, y)
    ensures x == y
  {
    SelectionIsUnique(m.cells, m.cells, |m.ids|, sharpe, TrainRows(f, split), x, y);
  }

  /** A finished study excludes every undefined split and path. */
  lemma StudyIsDefined(
    m: Matrix, fold: Model, sharpe: Sharpe, purgeWindows: bool, book: Option<PositionBook>,
    f: Frame, selected: seq<seq<nat>>, result: CpcvResult)
    requires ValidMatrix(m) && IsStudy(m, fold, sharpe, purgeWindows, book, f, selected, result)
    ensures StudyDefined(m, fold, sharpe, purgeWindows, book)
  {
    assert |m.windows| == |m.times|;
    hide ValidMatrix, IsFrame;
    forall g | IsFrame(m, fold, purgeWindows, book, g)
      ensures !UndefinedSplit(m, fold, sharpe, g)
      ensures forall y :: !UndefinedPath(m, fold, sharpe, g, y)
    {
      FramesAgree(m, m, fold, purgeWindows, book, f, g);
      DefinedSplits(m, fold, sharpe, f, g, selected);
      forall y
        ensures !UndefinedPath(m, fold, sharpe, g, y)
      {
        DefinedPaths(m, fold, sharpe, f, g, selected, y, result);
      }
    }
  }

  lemma MeansAreCells(f: Frame, m: Matrix, sharpe: Sharpe, selected: seq<seq<nat>>, indices: seq<nat>, p: PathResult)
    requires ValidMatrix(m) && |f.owners| == |m.times| && PathHolds(f, m, sharpe, selected, indices, p)
    ensures LookupsHold(f, m, selected, indices) && p.cells == PathCells(f, m, selected, indices)
  {
    forall r | 0 <= r < |m.times|
      ensures p.cells[r] == PathCells(f, m, selected, indices)[r]
    {
      assert |m.cells[r]| == |m.ids|;
      BlendIsMean(m.cells[r], selected[indices[f.owners[r]]], p.cells[r]);
      hide Total, Picked, Times, Blend;
    }
  }

  lemma DefinedSplits(m: Matrix, fold: Model, sharpe: Sharpe, f: Frame, g: Frame, selected: seq<seq<nat>>)
    requires ValidMatrix(m) && |f.owners| == |f.windows| == |m.times| && SameFrame(f, g)
    requires SplitsHold(f, m, sharpe, fold.splits, selected)
    ensures !UndefinedSplit(m, fold, sharpe, g)
  {
    hide AreSelected, ScoresDefined, ValidMatrix;
    SameSplits(f, g, m, sharpe, fold.splits, selected, selected);
    forall i | 0 <= i < |fold.splits|
      ensures SplitDefined(g, m, sharpe, fold.splits[i])
    {
      assert SplitHolds(g, m, sharpe, fold.splits[i], selected[i]);
    }
  }

  lemma DefinedPaths(
    m: Matrix, fold: Model, sharpe: Sharpe, f: Frame, g: Frame, x: seq<seq<nat>>, y: seq<seq<nat>>, result: CpcvResult)
    requires ValidMatrix(m) && |f.owners| == |f.windows| == |m.times| && SameFrame(f, g)
    requires IsResult(m, fold, sharpe, f, x, result)
    ensures !UndefinedPath(m, fold, sharpe, g, y)
  {
    hide SplitHolds, SplitReported, Total, Picked, Times, Below;
    assert f.owners == g.owners && |g.windows| == |f.windows|;
    hide SameFrame;
    SameSplits(f, g, m, sharpe, fold.splits, x, y);
    if SplitsHold(g, m, sharpe, fold.splits, y) {
      hide SplitsHold;
      forall p | 0 <= p < |fold.paths| && LookupsHold(g, m, y, fold.paths[p])
        ensures sharpe(PathCells(g, m, y, fold.paths[p])).Some?
      {
        assert PathHolds(f, m, sharpe, x, fold.paths[p], result.paths[p]);
        MeansAreCells(f, m, sharpe, x, fold.paths[p], result.paths[p]);
        assert PathCells(g, m, y, fold.paths[p]) == result.paths[p].cells;
      }
    }
  }

  /** The checks before the first split, and what decides the training rows. */
  method PrepareFrame(m: Matrix, fold: Model, purgeWindows: bool, book: Option<PositionBook>)
    returns (r: Result<Frame, CpcvError>)
    requires ValidMatrix(m)
    ensures r.Ok? <==> InputsAccepted(m, fold, book)
    ensures r.Ok? ==> IsFrame(m, fold, purgeWindows, book, r.value) && |r.value.owners| == |r.value.windows| == |m.times|
  {
    hide OwnersExist, PositionsAccepted, AreProduced;
    if |m.ids| < 2 {
      return Err(TooFewCandidates);
    }
    var owners := RowGroups(m, fold.groups);
    if owners.Err? {
      return Err(owners.error);
    }
    var produced: Option<seq<seq<nat>>> := None;
    if book.Some? {
      var rows := IntervalRows(m, book.value);
      if rows.Err? {
        return Err(rows.error);
      }
      produced := Some(rows.value);
    }
    if |fold.splits| * |m.times| * |m.ids| > MAX_CELL_EVALUATIONS {
      return Err(TooExpensive);
    }
    return Ok(Frame(owners.value, m.windows, purgeWindows, produced));
  }

  method ComputePaths(f: Frame, m: Matrix, sharpe: Sharpe, fold: Model, selected: seq<seq<nat>>)
    returns (r: Result<seq<PathResult>, CpcvError>)
    requires ValidMatrix(m) && BuiltModel(fold) && |f.owners| == |f.windows| == |m.times|
    requires AreOwners(m, fold.groups, f.owners) && SplitsHold(f, m, sharpe, fold.splits, selected)
    ensures r.Ok? ==> |r.value| == |fold.paths|
    ensures r.Ok? ==> forall p :: 0 <= p < |fold.paths| ==>
                        PathHolds(f, m, sharpe, selected, fold.paths[p], r.value[p]) && r.value[p].index == p
    ensures r.Err? <==> UndefinedPath(m, fold, sharpe, f, selected)
  {
    hide PathHolds, BuiltModel, ValidMatrix, SplitsHold, AreOwners, PathCells, LookupsHold;
    var paths: seq<PathResult> := [];
    for p := 0 to |fold.paths|
      invariant |paths| == p
      invariant forall q :: 0 <= q < p ==>
                  PathHolds(f, m, sharpe, selected, fold.paths[q], paths[q]) && paths[q].index == q
      invariant forall q :: 0 <= q < p && LookupsHold(f, m, selected, fold.paths[q]) ==>
                  sharpe(PathCells(f, m, selected, fold.paths[q])).Some?
    {
      AllLookups(f, m, sharpe, fold, selected, p);
      var path := ComputePath(f, m, sharpe, selected, fold.paths[p], p);
      if path.Err? {
        return Err(path.error);
      }
      paths := paths + [path.value];
    }
    return Ok(paths);
  }

  method ComputeCpcvPaths(
    m: Matrix, fold: Model, sharpe: Sharpe, purgeWindows: bool, book: Option<PositionBook>)
    returns (r: Result<CpcvResult, CpcvError>)
    requires ValidMatrix(m) && BuiltModel(fold)
    ensures r.Ok? <==> InputsAccepted(m, fold, book) && StudyDefined(m, fold, sharpe, purgeWindows, book)
    ensures r.Ok? ==> exists f, selected :: IsStudy(m, fold, sharpe, purgeWindows, book, f, selected, r.value)
  {
    hide ValidMatrix, BuiltModel, AreOwners, SplitDefined, SplitReported, PathHolds, InputsAccepted;
    hide UndefinedPath;
    var frame := PrepareFrame(m, fold, purgeWindows, book);
    if frame.Err? {
      return Err(frame.error);
    }
    var f := frame.value;
    var splits := ComputeSplits(f, m, sharpe, fold.splits);
    if splits.Err? {
      assert UndefinedSplit(m, fold, sharpe, f);
      return Err(splits.error);
    }
    var selected := splits.value.1;
    var paths := ComputePaths(f, m, sharpe, fold, selected);
    if paths.Err? {
      return Err(paths.error);
    }
    r := Ok(CpcvResult(m.ids, f.owners, splits.value.0, paths.value));
    assert IsStudy(m, fold, sharpe, purgeWindows, book, f, selected, r.value);
    StudyIsDefined(m, fold, sharpe, purgeWindows, book, f, selected, r.value);
  }

  // ----- out of sample

  /** No training row of the split that supplies group g on a path lies in group g. */
  lemma TrainingIsOutOfSample(f: Frame, fold: Model, p: nat, g: nat, r: nat)
    requires BuiltModel(fold) && p < |fold.paths| && g < |fold.groups| && |f.owners| == |f.windows|
    requires fold.paths[p][g] < |fold.splits| && r in TrainRows(f, fold.splits[fold.paths[p][g]])
    ensures r < |f.owners| && f.owners[r] != g
  {
    PathLookup(fold, p, g);
    hide BuiltModel, Touched, SharesTestWindow;
  }

  ghost predicate SameOutside(a: Matrix, b: Matrix, owners: seq<nat>, g: nat)
    requires ValidMatrix(a) && ValidMatrix(b)
  {
    && a.ids == b.ids && a.times == b.times && a.windows == b.windows && |owners| == |a.times|
    && forall r :: 0 <= r < |owners| && owners[r] != g ==> a.cells[r] == b.cells[r]
  }

  /** Changing any returns inside group g changes neither whether the split that supplies g has a
      selection nor which columns it selects: the path is out of sample. */
  lemma SelectionIgnoresItsGroup(
    f: Frame, fold: Model, sharpe: Sharpe, a: Matrix, b: Matrix, p: nat, g: nat, x: seq<nat>, y: seq<nat>)
    requires BuiltModel(fold) && p < |fold.paths| && g < |fold.groups| && fold.paths[p][g] < |fold.splits|
    requires ValidMatrix(a) && ValidMatrix(b) && SameOutside(a, b, f.owners, g) && |f.owners| == |f.windows|
    requires SplitHolds(f, a, sharpe, fold.splits[fold.paths[p][g]], x)
    ensures SplitDefined(f, b, sharpe, fold.splits[fold.paths[p][g]])
    ensures SplitHolds(f, b, sharpe, fold.splits[fold.paths[p][g]], y) ==> x == y
  {
    PathLookup(fold, p, g);
    var split := fold.splits[fold.paths[p][g]];
    var rows := TrainRows(f, split);
    assert |a.cells| == |b.cells| == |f.owners| && Rectangular(a.cells, |a.cells|, |a.ids|)
           && Rectangular(b.cells, |b.cells|, |a.ids|) && a.ids == b.ids;
    forall r | r in rows
      ensures r < |a.cells| && a.cells[r] == b.cells[r]
    {
      TrainingIsOutOfSample(f, fold, p, g, r);
    }
    forall c | 0 <= c < |a.ids|
      ensures Score(a.cells, |a.ids|, sharpe, rows, c) == Score(b.cells, |a.ids|, sharpe, rows, c)
    {
      ScoreReadsTrainRows(a.cells, b.cells, |a.ids|, sharpe, rows, c);
    }
    assert ScoresDefined(b.cells, |a.ids|, sharpe, rows);
    if SplitHolds(f, b, sharpe, split, y) {
      SelectionIsUnique(a.cells, b.cells, |a.ids|, sharpe, rows, x, y);
    }
  }

  lemma SelectionIsUnique(
    a: seq<seq<real>>, b: seq<seq<real>>, width: nat, sharpe: Sharpe, rows: seq<nat>, x: seq<nat>, y: seq<nat>)
    requires Below(rows, |a|) && Rectangular(a, |a|, width) && Below(rows, |b|) && Rectangular(b, |b|, width)
    requires ScoresDefined(a, width, sharpe, rows) && ScoresDefined(b, width, sharpe, rows)
    requires forall c :: 0 <= c < width ==> Score(a, width, sharpe, rows, c) == Score(b, width, sharpe, rows, c)
    requires AreSelected(a, width, sharpe, rows, x) && AreSelected(b, width, sharpe, rows, y)
    ensures x == y
  {
    hide Score;
    forall c: nat
      ensures c in x <==> c in y
    {
    }
    AscendingSame(x, y);
  }

  /** Two finished studies of one design that differ only in the returns inside a group select the
      same candidates in the split that supplies the group, and read the group through them. */
  lemma PathReadsTheSameColumns(
    fold: Model, sharpe: Sharpe, purgeWindows: bool, book: Option<PositionBook>, a: Matrix, b: Matrix,
    f: Frame, g: Frame, x: seq<seq<nat>>, y: seq<seq<nat>>, ra: CpcvResult, rb: CpcvResult, p: nat, r: nat)
    requires BuiltModel(fold) && p < |fold.paths| && ValidMatrix(a) && ValidMatrix(b)
    requires IsStudy(a, fold, sharpe, purgeWindows, book, f, x, ra)
    requires IsStudy(b, fold, sharpe, purgeWindows, book, g, y, rb)
    requires r < |ra.rowGroups| && SameOutside(a, b, ra.rowGroups, ra.rowGroups[r])
    ensures ra.rowGroups == rb.rowGroups && ra.rowGroups[r] < |fold.paths[p]|
    ensures var i := fold.paths[p][ra.rowGroups[r]];
            && i < |x| && i < |y| && x[i] == y[i]
            && i < |ra.splits| && i < |rb.splits| && ra.splits[i].selectedIds == rb.splits[i].selectedIds
            && p < |ra.paths| && p < |rb.paths| && r < |ra.paths[p].cells| && r < |rb.paths[p].cells|
            && x[i] != [] && Below(x[i], |a.cells[r]|) && Below(x[i], |b.cells[r]|)
            && Times(ra.paths[p].cells[r], |x[i]| as real) == Total(Picked(a.cells[r], x[i]))
            && Times(rb.paths[p].cells[r], |x[i]| as real) == Total(Picked(b.cells[r], x[i]))
  {
    var group := f.owners[r];
    assert |a.windows| == |a.times| && a.ids == b.ids && a.times == b.times && a.windows == b.windows;
    FramesAgree(a, b, fold, purgeWindows, book, f, g);
    assert group < |fold.groups| by {
      assert IsOwner(fold.groups, a.times[r], f.owners[r]);
    }
    SplitAgrees(fold, sharpe, a, b, f, g, x, y, p, group);
    var i := fold.paths[p][group];
    SplitIdsAgree(fold, sharpe, a, b, f, g, x, y, ra, rb, i);
    CellIsMean(fold, sharpe, a, f, x, ra, p, r);
    CellIsMean(fold, sharpe, b, g, y, rb, p, r);
    hide IsFrame, SameFrame, SameOutside, Total, Picked, Times, BuiltModel;
  }

  lemma SplitAgrees(
    fold: Model, sharpe: Sharpe, a: Matrix, b: Matrix, f: Frame, g: Frame, x: seq<seq<nat>>, y: seq<seq<nat>>,
    p: nat, group: nat)
    requires BuiltModel(fold) && p < |fold.paths| && ValidMatrix(a) && ValidMatrix(b) && group < |fold.groups|
    requires SameFrame(f, g) && SameOutside(a, b, f.owners, group) && |f.owners| == |f.windows| == |a.times|
    requires SplitsHold(f, a, sharpe, fold.splits, x) && SplitsHold(g, b, sharpe, fold.splits, y)
    ensures |fold.paths[p]| == |fold.groups| && fold.paths[p][group] < |fold.splits|
    ensures x[fold.paths[p][group]] == y[fold.paths[p][group]]
  {
    PathLookup(fold, p, group);
    var i := fold.paths[p][group];
    hide BuiltModel, ScoresDefined, AreSelected;
    SameSplits(g, f, b, sharpe, fold.splits, y, y);
    hide SameFrame;
    assert SplitHolds(f, a, sharpe, fold.splits[i], x[i]) && SplitHolds(f, b, sharpe, fold.splits[i], y[i]);
    hide SplitHolds;
    SelectionIgnoresItsGroup(f, fold, sharpe, a, b, p, group, x[i], y[i]);
  }

  lemma SplitIdsAgree(
    fold: Model, sharpe: Sharpe, a: Matrix, b: Matrix, f: Frame, g: Frame, x: seq<seq<nat>>, y: seq<seq<nat>>,
    ra: CpcvResult, rb: CpcvResult, i: nat)
    requires ValidMatrix(a) && ValidMatrix(b) && a.ids == b.ids && i < |fold.splits|
    requires |f.owners| == |f.windows| == |a.times| && |g.owners| == |g.windows| == |b.times|
    requires IsResult(a, fold, sharpe, f, x, ra) && IsResult(b, fold, sharpe, g, y, rb) && x[i] == y[i]
    ensures ra.splits[i].selectedIds == rb.splits[i].selectedIds
  {
    hide TrainRows, Score, ScoresDefined;
    assert SplitReported(f, a, sharpe, fold.splits[i], x[i], ra.splits[i]);
    assert SplitReported(g, b, sharpe, fold.splits[i], y[i], rb.splits[i]);
    assert SplitHolds(f, a, sharpe, fold.splits[i], x[i]);
  }

  lemma CellIsMean(fold: Model, sharpe: Sharpe, m: Matrix, f: Frame, x: seq<seq<nat>>, result: CpcvResult, p: nat, r: nat)
    requires ValidMatrix(m) && |f.owners| == |f.windows| == |m.times| && IsResult(m, fold, sharpe, f, x, result)
    requires p < |fold.paths| && r < |f.owners|
    ensures f.owners[r] < |fold.paths[p]| && fold.paths[p][f.owners[r]] < |x|
    ensures p < |result.paths| && r < |result.paths[p].cells|
    ensures var i := fold.paths[p][f.owners[r]];
            && x[i] != [] && Below(x[i], |m.cells[r]|)
            && Times(result.paths[p].cells[r], |x[i]| as real) == Total(Picked(m.cells[r], x[i]))
  {
    hide SplitsHold, SplitReported, Total, Picked, Times;
    assert PathHolds(f, m, sharpe, x, fold.paths[p], result.paths[p]);
    assert |m.cells[r]| == |m.ids|;
  }

  /** The returns of a path: in every row the mean of the returns there of the candidates reported as
      selected by the split that supplies the row's group, so between the least and the largest. */
  lemma PathReturnsAreMeans(
    m: Matrix, fold: Model, sharpe: Sharpe, purgeWindows: bool, book: Option<PositionBook>,
    f: Frame, selected: seq<seq<nat>>, result: CpcvResult, p: nat, r: nat)
    returns (values: seq<real>)
    requires BuiltModel(fold) && ValidMatrix(m) && IsStudy(m, fold, sharpe, purgeWindows, book, f, selected, result)
    requires p < |result.paths| && r < |m.times|
    ensures |result.paths[p].cells| == |m.times| == |result.rowGroups|
    ensures result.rowGroups[r] < |result.paths[p].splitIndices|
    ensures var i := result.paths[p].splitIndices[result.rowGroups[r]];
            && i < |selected| && i < |result.splits| && result.rowGroups[r] in result.splits[i].test
            && var row, columns, cell := m.cells[r], selected[i], result.paths[p].cells[r];
            && columns != [] && |result.splits[i].selectedIds| == |columns| == |values|
            && (forall k :: 0 <= k < |columns| ==>
                  && columns[k] < |row| && values[k] == row[columns[k]]
                  && result.splits[i].selectedIds[k] == m.ids[columns[k]])
            && Times(cell, |values| as real) == Total(values)
            && (forall low, high :: Within(values, low, high) ==> low <= cell <= high)
  {
    var g := f.owners[r];
    assert IsOwner(fold.groups, m.times[r], g) && result.rowGroups == f.owners;
    CellIsMean(fold, sharpe, m, f, selected, result, p, r);
    PathLookup(fold, p, g);
    PathIsReported(m, fold, sharpe, f, selected, result, p, fold.paths[p][g]);
    var i := fold.paths[p][g];
    var cell := result.paths[p].cells[r];
    values := Picked(m.cells[r], selected[i]);
    hide *;
    forall low, high | Within(values, low, high)
      ensures low <= cell <= high
    {
      MeanWithin(values, cell, low, high);
    }
  }

  lemma PathIsReported(
    m: Matrix, fold: Model, sharpe: Sharpe, f: Frame, selected: seq<seq<nat>>, result: CpcvResult, p: nat, i: nat)
    requires ValidMatrix(m) && |f.owners| == |f.windows| == |m.times| && IsResult(m, fold, sharpe, f, selected, result)
    requires p < |result.paths| && i < |fold.splits|
    ensures result.paths[p].splitIndices == fold.paths[p] && |result.paths[p].cells| == |m.times|
    ensures i < |result.splits| && i < |selected| && result.splits[i].test == fold.splits[i].test
    ensures |result.splits[i].selectedIds| == |selected[i]| && Below(selected[i], |m.ids|)
    ensures forall k :: 0 <= k < |selected[i]| ==> result.splits[i].selectedIds[k] == m.ids[selected[i][k]]
  {
    assert PathHolds(f, m, sharpe, selected, fold.paths[p], result.paths[p]);
    assert SplitReported(f, m, sharpe, fold.splits[i], selected[i], result.splits[i]);
    assert SplitHolds(f, m, sharpe, fold.splits[i], selected[i]);
    hide SplitsHold, ScoresDefined, Score, Total, Picked, TrainRows;
  }

  /** A reported split, in terms of the matrix alone: every Sharpe ratio is that of the candidate's
      returns on the training rows, and the selected candidates are exactly those no other one beats. */
  lemma ReportedSplitMeaning(
    m: Matrix, fold: Model, sharpe: Sharpe, purgeWindows: bool, book: Option<PositionBook>,
    f: Frame, selected: seq<seq<nat>>, result: CpcvResult, i: nat, c: nat)
    returns (sample: seq<real>)
    requires ValidMatrix(m) && IsStudy(m, fold, sharpe, purgeWindows, book, f, selected, result)
    requires i < |fold.splits| && c < |m.ids|
    ensures i < |result.splits| && |result.splits[i].sharpes| == |m.ids| && |f.owners| == |f.windows|
    ensures var rows := TrainRows(f, fold.splits[i]);
            && |sample| == |rows| == result.splits[i].trainRowCount
            && (forall k :: 0 <= k < |rows| ==> rows[k] < |m.cells| && c < |m.cells[rows[k]]| && sample[k] == m.cells[rows[k]][c])
            && sharpe(sample) == Some(result.splits[i].sharpes[c])
    ensures m.ids[c] in result.splits[i].selectedIds <==>
            forall d :: 0 <= d < |m.ids| ==> result.splits[i].sharpes[d] <= result.splits[i].sharpes[c]
  {
    var s, columns, rows := result.splits[i], selected[i], TrainRows(f, fold.splits[i]);
    assert SplitReported(f, m, sharpe, fold.splits[i], columns, s);
    assert SplitHolds(f, m, sharpe, fold.splits[i], columns);
    sample := Column(m.cells, |m.ids|, rows, c);
    assert Score(m.cells, |m.ids|, sharpe, rows, c) == sharpe(sample);
    hide TrainRows, IsResult, IsFrame, Score, Column;
    if m.ids[c] in s.selectedIds {
      var k :| 0 <= k < |s.selectedIds| && s.selectedIds[k] == m.ids[c];
      assert columns[k] == c;
    }
    if c in columns {
      var k :| 0 <= k < |columns| && columns[k] == c;
      assert s.selectedIds[k] == m.ids[c];
    }
  }

  // ----- what the rows of a frame mean

  /** Window blocks are counted by their largest index. */
  lemma BlocksOfRows(m: Matrix, r: nat)
    requires ValidMatrix(m) && r < |m.windows|
    ensures m.windows[r] < BlockCount(m)
    ensures exists u :: 0 <= u < |m.windows| && m.windows[u] + 1 == BlockCount(m)
  {
    assert m.windows[|m.windows| - 1] + 1 == BlockCount(m);
  }

  /** On contiguous groups the owner of a row is the one group whose half-open range (start, end]
      holds its time. */
  lemma OwnerOfContiguousGroups(m: Matrix, fold: Model, owners: seq<nat>, r: nat, g: nat)
    requires BuiltModel(fold) && AreOwners(m, fold.groups, owners) && r < |m.times| && g < |fold.groups|
    ensures owners[r] == g <==> fold.groups[g].start < m.times[r] <= fold.groups[g].end
  {
    var h := owners[r];
    assert IsOwner(fold.groups, m.times[r], h);
    if h < g {
      ContiguousChronological(fold.groups, h, g);
    } else if g < h {
      ContiguousChronological(fold.groups, g, h);
    }
    hide IsSplit, IsPathTable, Combos;
  }

  /** An interval produces the return of a row of its block after its entry, unless the block has an
      earlier row after its exit. */
  lemma ProducesMeaning(m: Matrix, b: nat, i: PositionInterval, r: nat)
    requires ValidMatrix(m) && r < |m.times|
    ensures Produces(m, b, i, r) <==>
            && m.windows[r] == b && i.entry < m.times[r]
            && (i.exit.Some? ==>
                  forall u :: 0 <= u < |m.times| && m.windows[u] == b && i.exit.value < m.times[u] ==> m.times[r] <= m.times[u])
  {
    var rows, marks := BlockRows(m, b), BlockMarks(m, b);
    assert Ascending(rows);
    PositionLog.ReturnMarksMeaning(i, marks, m.times[r]);
    BlockMarksOf(m, b, m.times[r]);
    hide PositionLog.ReturnMarks, BlockMarks, BlockRows, PositionLog.StrictlyAscending, ValidMatrix;
    if i.exit.Some? {
      NoMarkBetween(m, b, i.exit.value, m.times[r]);
    }
  }

  lemma MarkOfRow(m: Matrix, b: nat, u: nat) returns (k: nat)
    requires |m.windows| == |m.times| && u < |m.times| && m.windows[u] == b
    ensures k < |BlockMarks(m, b)| && BlockMarks(m, b)[k] == m.times[u]
  {
    var rows := BlockRows(m, b);
    assert u in rows;
    k :| 0 <= k < |rows| && rows[k] == u;
  }

  lemma RowOfMark(m: Matrix, b: nat, k: nat) returns (u: nat)
    requires |m.windows| == |m.times| && k < |BlockMarks(m, b)|
    ensures u < |m.times| && m.windows[u] == b && m.times[u] == BlockMarks(m, b)[k]
  {
    u := BlockRows(m, b)[k];
    assert u in BlockRows(m, b);
  }

  /** No mark of the block lies between two instants exactly when no row of it does. */
  lemma NoMarkBetween(m: Matrix, b: nat, from: int, to: int)
    requires |m.windows| == |m.times|
    ensures var marks := BlockMarks(m, b);
            (forall k :: 0 <= k < |marks| && from < marks[k] ==> to <= marks[k]) <==>
            (forall u :: 0 <= u < |m.times| && m.windows[u] == b && from < m.times[u] ==> to <= m.times[u])
  {
    hide *;
    var marks := BlockMarks(m, b);
    if forall k :: 0 <= k < |marks| && from < marks[k] ==> to <= marks[k] {
      forall u | 0 <= u < |m.times| && m.windows[u] == b && from < m.times[u]
        ensures to <= m.times[u]
      {
        var k := MarkOfRow(m, b, u);
      }
    }
    if forall u :: 0 <= u < |m.times| && m.windows[u] == b && from < m.times[u] ==> to <= m.times[u] {
      forall k | 0 <= k < |marks| && from < marks[k]
        ensures to <= marks[k]
      {
        var u := RowOfMark(m, b, k);
      }
    }
  }

  lemma BlockMarksOf(m: Matrix, b: nat, t: int)
    requires |m.windows| == |m.times|
    ensures t in BlockMarks(m, b) <==> exists u :: 0 <= u < |m.times| && m.windows[u] == b && m.times[u] == t
  {
    hide *;
    if t in BlockMarks(m, b) {
      var k :| 0 <= k < |BlockMarks(m, b)| && BlockMarks(m, b)[k] == t;
      var u := RowOfMark(m, b, k);
    }
    if u :| 0 <= u < |m.times| && m.windows[u] == b && m.times[u] == t {
      var k := MarkOfRow(m, b, u);
    }
  }

  /** An interval is accepted exactly when its entry, and its exit if it has one, is the time of a row of its block. */
  lemma IntervalAcceptedMeaning(m: Matrix, b: nat, i: PositionInterval)
    requires ValidMatrix(m)
    ensures IntervalAccepted(m, b, i) <==>
            && (exists u :: 0 <= u < |m.times| && m.windows[u] == b && m.times[u] == i.entry)
            && (i.exit.Some? ==> exists u :: 0 <= u < |m.times| && m.windows[u] == b && m.times[u] == i.exit.value)
  {
    BlockMarksOf(m, b, i.entry);
    if i.exit.Some? {
      BlockMarksOf(m, b, i.exit.value);
    }
  }

  // ----- purging

  /** With recorded intervals no training row shares a position interval with a test row. */
  lemma NoSharedInterval(
    m: Matrix, fold: Model, purgeWindows: bool, book: PositionBook, f: Frame, split: Split,
    c: nat, b: nat, k: nat, t: nat, u: nat)
    requires |m.windows| == |m.times| && |f.owners| == |f.windows|
    requires IsFrame(m, fold, purgeWindows, Some(book), f)
    requires c < |m.ids| && m.ids[c] in book && b < |book[m.ids[c]]| && k < |book[m.ids[c]][b]|
    requires t in TrainRows(f, split) && u < |f.owners| && f.owners[u] in split.test
    ensures !(Produces(m, b, book[m.ids[c]][b][k], t) && Produces(m, b, book[m.ids[c]][b][k], u))
  {
    assert InTest(f, split, u);
    hide AreOwners, InGroupTrain, SharesTestWindow, Produces, InTest;
    var perBlock := book[m.ids[c]];
    var i := perBlock[b][k];
    var rows := Produced(m, b, i);
    if u in rows {
      var at :| 0 <= at < |rows| && rows[at] == u;
      assert TouchesTest(f, split, rows);
      assert FromBlock(m, b, perBlock[b], |perBlock[b]|, rows);
      assert FromCandidate(m, perBlock, |perBlock|, rows);
      assert FromBook(m, book, |m.ids|, rows);
      assert rows in f.produced.value;
      assert Trains(f, split, t);
    }
  }

  /** Some recorded interval produces the returns of both rows. */
  ghost predicate ShareInterval(m: Matrix, book: PositionBook, t: nat, u: nat)
    requires |m.windows| == |m.times|
  {
    exists c, b, k ::
      && 0 <= c < |m.ids| && m.ids[c] in book
      && 0 <= b < |book[m.ids[c]]| && 0 <= k < |book[m.ids[c]][b]|
      && Produces(m, b, book[m.ids[c]][b][k], t) && Produces(m, b, book[m.ids[c]][b][k], u)
  }

  lemma TouchedMeansShared(
    m: Matrix, fold: Model, purgeWindows: bool, book: PositionBook, f: Frame, split: Split, t: nat) returns (u: nat)
    requires |m.windows| == |m.times| && IsFrame(m, fold, purgeWindows, Some(book), f) && Touched(f, split, t)
    ensures InTest(f, split, u) && ShareInterval(m, book, t, u)
  {
    hide AreOwners, Produces, InTest;
    var rows :| rows in f.produced.value && t in rows && TouchesTest(f, split, rows);
    var at :| 0 <= at < |rows| && InTest(f, split, rows[at]);
    u := rows[at];
    var c :| 0 <= c < |m.ids| && m.ids[c] in book
             && FromCandidate(m, book[m.ids[c]], |book[m.ids[c]]|, rows);
    var perBlock := book[m.ids[c]];
    var b :| 0 <= b < |perBlock| && FromBlock(m, b, perBlock[b], |perBlock[b]|, rows);
    var k :| 0 <= k < |perBlock[b]| && rows == Produced(m, b, perBlock[b][k]);
    assert Produces(m, b, perBlock[b][k], t) && Produces(m, b, perBlock[b][k], u);
  }

  lemma SharedMeansTouched(
    m: Matrix, fold: Model, purgeWindows: bool, book: PositionBook, f: Frame, split: Split, t: nat, u: nat)
    requires |m.windows| == |m.times| && IsFrame(m, fold, purgeWindows, Some(book), f)
    requires InTest(f, split, u) && ShareInterval(m, book, t, u)
    ensures Touched(f, split, t)
  {
    hide AreOwners, Produces, InTest;
    var c, b, k :|
      && 0 <= c < |m.ids| && m.ids[c] in book
      && 0 <= b < |book[m.ids[c]]| && 0 <= k < |book[m.ids[c]][b]|
      && Produces(m, b, book[m.ids[c]][b][k], t) && Produces(m, b, book[m.ids[c]][b][k], u);
    var perBlock := book[m.ids[c]];
    var rows := Produced(m, b, perBlock[b][k]);
    var at :| 0 <= at < |rows| && rows[at] == u;
    assert TouchesTest(f, split, rows);
    assert FromBlock(m, b, perBlock[b], |perBlock[b]|, rows);
    assert FromCandidate(m, perBlock, |perBlock|, rows);
    assert FromBook(m, book, |m.ids|, rows);
  }

  /** Purging is exact in terms of the matrix and the recorded intervals: a training-group row stays
      if and only if it shares no backtest window (when windows are purged) and no recorded position
      interval (when intervals are given) with any test row. */
  lemma PurgingIsExact(
    m: Matrix, fold: Model, purgeWindows: bool, book: Option<PositionBook>, f: Frame, split: Split, t: nat)
    requires |m.windows| == |m.times| && IsFrame(m, fold, purgeWindows, book, f) && t < |m.windows|
    ensures |f.owners| == |f.windows|
    ensures t in TrainRows(f, split) <==>
            && f.owners[t] in split.train
            && !(purgeWindows && exists u ::
                   0 <= u < |m.windows| && f.owners[u] in split.test && m.windows[u] == m.windows[t])
            && !(book.Some? && exists u ::
                   0 <= u < |m.windows| && f.owners[u] in split.test && ShareInterval(m, book.value, t, u))
  {
    assert |f.owners| == |f.windows| == |m.windows|;
    assert t in TrainRows(f, split) <==> Trains(f, split, t);
    assert forall u: nat :: InTest(f, split, u) <==> u < |f.owners| && f.owners[u] in split.test;
    if book.Some? {
      if Touched(f, split, t) {
        var u := TouchedMeansShared(m, fold, purgeWindows, book.value, f, split, t);
      } else {
        forall u | InTest(f, split, u)
          ensures !ShareInterval(m, book.value, t, u)
        {
          if ShareInterval(m, book.value, t, u) {
            SharedMeansTouched(m, fold, purgeWindows, book.value, f, split, t, u);
          }
        }
      }
    }
    hide ShareInterval, AreProduced;
    assert book.None? ==> !Touched(f, split, t);
  }
}
