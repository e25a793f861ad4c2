/** The combinatorial train/test fold model: window purging, post-test embargo, all C(N, k)
    splits and the C(N-1, k-1) backtest paths assembled from them. */
module FoldModel {
  import opened Outcomes
  import opened Combinations

  // ----- half-open windows and purging

  datatype Window = Window(start: int, end: int)

  ghost predicate ValidWindow(w: Window) {
    w.start < w.end
  }

  ghost predicate ValidWindows(ws: seq<Window>) {
    forall i :: 0 <= i < |ws| ==> ValidWindow(ws[i])
  }

  predicate Contains(w: Window, t: int) {
    w.start <= t < w.end
  }

  predicate WindowsOverlap(first: Window, second: Window) {
    first.start < second.end && second.start < first.end
  }

  /** Overlap means a shared instant, so touching windows do not overlap. */
  lemma OverlapIsSharedInstant(first: Window, second: Window)
    requires ValidWindow(first) && ValidWindow(second)
    ensures WindowsOverlap(first, second) <==>
            exists t :: Contains(first, t) && Contains(second, t)
  {
    if WindowsOverlap(first, second) {
      var t := if first.start < second.start then second.start else first.start;
      assert Contains(first, t) && Contains(second, t);
    }
  }

  function EmbargoBoundary(outOfSample: Window, embargo: nat): int {
    outOfSample.end + embargo
  }

  predicate Rejected(inSample: Window, outOfSample: Window, embargo: nat) {
    || WindowsOverlap(inSample, outOfSample)
    || (embargo > 0 && WindowsOverlap(inSample, Window(outOfSample.end, EmbargoBoundary(outOfSample, embargo))))
  }

  function Purged(ws: seq<Window>, outOfSample: Window, embargo: nat): seq<Window> {
    if ws == [] then []
    else
      Purged(ws[..|ws| - 1], outOfSample, embargo)
      + if Rejected(ws[|ws| - 1], outOfSample, embargo) then [] else [ws[|ws| - 1]]
  }

  datatype PurgeError = NegativeEmbargo

  method PurgeInSampleWindows(ws: seq<Window>, outOfSample: Window, embargo: int)
    returns (r: Result<seq<Window>, PurgeError>)
    ensures r.Err? <==> embargo < 0
    ensures r.Ok? ==> r.value == Purged(ws, outOfSample, embargo)
  {
    if embargo < 0 {
      return Err(NegativeEmbargo);
    }
    var purged: seq<Window> := [];
    for i := 0 to |ws|
      invariant purged == Purged(ws[..i], outOfSample, embargo)
    {
      var reject := WindowsOverlap(ws[i], outOfSample);
      if !reject && embargo > 0 {
        var zone := Window(outOfSample.end, EmbargoBoundary(outOfSample, embargo));
        reject := WindowsOverlap(ws[i], zone);
      }
      if !reject {
        purged := purged + [ws[i]];
      }
      assert ws[..i + 1][..i] == ws[..i];
    }
    assert ws[..|ws|] == ws;
    return Ok(purged);
  }

  /** Purging leaves no window that shares an instant with the test window or its embargo zone,
      and drops no other. */
  lemma {:induction false} PurgedMembers(ws: seq<Window>, outOfSample: Window, embargo: nat, w: Window)
    ensures w in Purged(ws, outOfSample, embargo) <==> w in ws && !Rejected(w, outOfSample, embargo)
  {
    if ws != [] {
      PurgedMembers(ws[..|ws| - 1], outOfSample, embargo, w);
      assert ws == ws[..|ws| - 1] + [ws[|ws| - 1]];
    }
  }

  /** Purging decides every window alone and keeps the order. */
  lemma {:induction false} PurgedConcat(a: seq<Window>, b: seq<Window>, outOfSample: Window, embargo: nat)
    ensures Purged(a + b, outOfSample, embargo) == Purged(a, outOfSample, embargo) + Purged(b, outOfSample, embargo)
  {
    if b == [] {
      assert a + b == a;
    } else {
      var n := |b| - 1;
      PurgedConcat(a, b[..n], outOfSample, embargo);
      assert (a + b)[..|a| + n] == a + b[..n];
    }
  }

  // ----- contiguous groups

  ghost predicate Contiguous(groups: seq<Window>) {
    forall i :: 1 <= i < |groups| ==> groups[i].start == groups[i - 1].end
  }

  lemma {:induction false} ContiguousChronological(groups: seq<Window>, a: nat, b: nat)
    requires ValidWindows(groups) && Contiguous(groups) && a < b < |groups|
    ensures groups[a].end <= groups[b].start
  {
    assert groups[b].start == groups[b - 1].end;
    if a < b - 1 {
      ContiguousChronological(groups, a, b - 1);
      assert ValidWindow(groups[b - 1]);
    }
  }

  /** The training group g lies in the embargo zone of the test group t. */
  predicate Embargoed(groups: seq<Window>, g: nat, t: nat, embargo: nat)
    requires g < |groups| && t < |groups|
  {
    t < g && groups[g].start < groups[t].end + embargo
  }

  /** For a contiguous partition the purge test of the code reduces to the embargo alone. */
  lemma PurgeIsEmbargo(groups: seq<Window>, g: nat, t: nat, embargo: nat)
    requires ValidWindows(groups) && Contiguous(groups) && g < |groups| && t < |groups| && g != t
    ensures Purged([groups[g]], groups[t], embargo) == [] <==> Embargoed(groups, g, t, embargo)
  {
    PurgedMembers([groups[g]], groups[t], embargo, groups[g]);
    assert Purged([groups[g]], groups[t], embargo)
           == if Rejected(groups[g], groups[t], embargo) then [] else [groups[g]];
    assert ValidWindow(groups[g]) && ValidWindow(groups[t]);
    if t < g {
      ContiguousChronological(groups, t, g);
    } else {
      ContiguousChronological(groups, g, t);
    }
  }

  // ----- splits and paths

  datatype Split = Split(
    index: nat, test: seq<nat>, train: seq<nat>, embargoed: seq<nat>,
    testWindows: seq<Window>, trainWindows: seq<Window>)

  datatype Model = Model(
    groups: seq<Window>, testGroupCount: nat, embargo: nat,
    splits: seq<Split>, paths: seq<seq<nat>>)

  datatype FoldError =
    | BadEmbargo
    | TooFewGroups
    | NotContiguous
    | BadTestGroupCount
    | TooManySplits
    | EmptyTraining(split: nat)

  const MAX_SPLITS := 100_000

  /** The indices below n that satisfy keep, ascending. */
  function Select(n: nat, keep: nat -> bool): (r: seq<nat>)
    ensures Ascending(r)
    ensures forall i: nat :: i in r <==> i < n && keep(i)
    ensures forall a :: 0 <= a < |r| ==> r[a] < n
  {
    if n == 0 then []
    else
      var front := Select(n - 1, keep);
      assert forall a :: 0 <= a < |front| ==> front[a] in front;
      if keep(n - 1) then front + [n - 1] else front
  }

  /** The candidates that every test group leaves after purging and embargo. */
  predicate Survives(groups: seq<Window>, test: seq<nat>, embargo: nat, g: nat) {
    && g < |groups|
    && forall i :: 0 <= i < |test| && test[i] < |groups| ==> Purged([groups[g]], groups[test[i]], embargo) != []
  }

  function TrainGroups(groups: seq<Window>, test: seq<nat>, embargo: nat): (r: seq<nat>)
    ensures Below(r, |groups|)
  {
    Select(|groups|, (g: nat) => g !in test && Survives(groups, test, embargo, g))
  }

  function EmbargoedGroups(groups: seq<Window>, test: seq<nat>, train: seq<nat>): seq<nat> {
    Select(|groups|, (g: nat) => g !in test && g !in train)
  }

  predicate Below(s: seq<nat>, n: nat) {
    forall a :: 0 <= a < |s| ==> s[a] < n
  }

  function WindowsOf(groups: seq<Window>, indices: seq<nat>): seq<Window>
    requires Below(indices, |groups|)
  {
    seq(|indices|, a requires 0 <= a < |indices| => groups[indices[a]])
  }

  ghost predicate IsSplit(groups: seq<Window>, embargo: nat, s: Split, index: nat, test: seq<nat>)
    requires Below(test, |groups|)
  {
    && s.index == index
    && s.test == test
    && s.train == TrainGroups(groups, test, embargo)
    && s.embargoed == EmbargoedGroups(groups, test, s.train)
    && s.testWindows == WindowsOf(groups, test)
    && s.trainWindows == WindowsOf(groups, s.train)
  }

  /** The three index lists of a split partition the groups; a candidate group is embargoed
      exactly when it starts inside the embargo zone of an earlier test group. */
  lemma SplitPartitions(groups: seq<Window>, embargo: nat, test: seq<nat>, g: nat)
    requires ValidWindows(groups) && Contiguous(groups) && g < |groups|
    requires Below(test, |groups|)
    ensures var train := TrainGroups(groups, test, embargo);
            var embargoed := EmbargoedGroups(groups, test, train);
            && (g in train <==> g !in test && forall t :: t in test ==> !Embargoed(groups, g, t, embargo))
            && (g in embargoed <==> g !in test && exists t :: t in test && Embargoed(groups, g, t, embargo))
  {
    if g !in test {
      forall i | 0 <= i < |test|
        ensures Purged([groups[g]], groups[test[i]], embargo) == [] <==> Embargoed(groups, g, test[i], embargo)
      {
        PurgeIsEmbargo(groups, g, test[i], embargo);
      }
    }
  }

  /** A split of a built model, from its test set alone: a group trains exactly when it is not tested and
      starts in the embargo zone of no earlier test group, is embargoed exactly when it does neither,
      and the windows are those of the listed groups. */
  lemma BuiltSplitMeaning(m: Model, i: nat, g: nat)
    requires BuiltModel(m) && i < |m.splits| && g < |m.groups|
    ensures var s := m.splits[i];
            && s.index == i && Ascending(s.train) && Ascending(s.embargoed)
            && (g in s.train <==>
                  g !in s.test && forall t :: t in s.test && t < g ==> m.groups[t].end + m.embargo <= m.groups[g].start)
            && (g in s.embargoed <==> g !in s.test && g !in s.train)
    ensures var s := m.splits[i];
            && |s.testWindows| == |s.test| && |s.trainWindows| == |s.train|
            && (forall a :: 0 <= a < |s.test| ==> s.test[a] < |m.groups| && s.testWindows[a] == m.groups[s.test[a]])
            && (forall a :: 0 <= a < |s.train| ==> s.train[a] < |m.groups| && s.trainWindows[a] == m.groups[s.train[a]])
  {
    var s := m.splits[i];
    assert IsSplit(m.groups, m.embargo, s, i, s.test);
    SplitPartitions(m.groups, m.embargo, s.test, g);
    hide IsPathTable, Survives;
  }

  /** Without an embargo every group outside the test set trains. */
  lemma NoEmbargoKeepsAll(groups: seq<Window>, test: seq<nat>, g: nat)
    requires ValidWindows(groups) && Contiguous(groups) && g < |groups| && g !in test
    requires Below(test, |groups|)
    ensures g in TrainGroups(groups, test, 0)
  {
    SplitPartitions(groups, 0, test, g);
    forall t | t in test
      ensures !Embargoed(groups, g, t, 0)
    {
      if t < g {
        ContiguousChronological(groups, t, g);
      }
    }
  }

  function TestSets(splits: seq<Split>): (r: seq<seq<nat>>)
    ensures |r| == |splits|
  {
    seq(|splits|, i requires 0 <= i < |splits| => splits[i].test)
  }

  ghost predicate IsPathTable(cs: seq<seq<nat>>, n: nat, pathCount: nat, paths: seq<seq<nat>>) {
    && |paths| == pathCount
    && (forall p :: 0 <= p < pathCount ==> |paths[p]| == n)
    && (forall g :: 0 <= g < n ==> |Occurrences(cs, g, |cs|)| == pathCount)
    && (forall p, g :: 0 <= p < pathCount && 0 <= g < n ==> paths[p][g] == Occurrences(cs, g, |cs|)[p])
  }

  ghost predicate ValidInputs(groups: seq<Window>, k: int, embargo: int) {
    && embargo >= 0
    && |groups| >= 2
    && Contiguous(groups)
    && 1 <= k <= |groups| - 1
    && Choose(|groups|, k) <= MAX_SPLITS
  }

  ghost predicate EveryTrainingSetSurvives(groups: seq<Window>, k: nat, embargo: nat) {
    forall i :: 0 <= i < |Combos(0, |groups|, k)| ==>
      TrainGroups(groups, Combos(0, |groups|, k)[i], embargo) != []
  }

  /** What the builder promises of its model. */
  ghost predicate BuiltModel(m: Model) {
    && ValidWindows(m.groups) && ValidInputs(m.groups, m.testGroupCount, m.embargo)
    && TestSets(m.splits) == Combos(0, |m.groups|, m.testGroupCount)
    && (forall i :: 0 <= i < |m.splits| ==>
         && Below(m.splits[i].test, |m.groups|)
         && m.splits[i].train != []
         && IsSplit(m.groups, m.embargo, m.splits[i], i, m.splits[i].test))
    && IsPathTable(Combos(0, |m.groups|, m.testGroupCount), |m.groups|,
                   Choose(|m.groups| - 1, m.testGroupCount - 1), m.paths)
  }

  /** No test set is used by two splits. */
  lemma SplitsAreDistinct(m: Model, i: nat, j: nat)
    requires BuiltModel(m) && i < j < |m.splits|
    ensures m.splits[i].test != m.splits[j].test
  {
    CombosDistinct(0, |m.groups|, m.testGroupCount);
    assert TestSets(m.splits)[i] == m.splits[i].test && TestSets(m.splits)[j] == m.splits[j].test;
    hide Combos, IsSplit, IsPathTable;
  }

  method BuildSplits(groups: seq<Window>, k: nat, embargo: nat)
    returns (r: Result<seq<Split>, FoldError>)
    requires ValidWindows(groups)
    ensures r.Ok? <==> EveryTrainingSetSurvives(groups, k, embargo)
    ensures r.Ok? ==>
              && TestSets(r.value) == Combos(0, |groups|, k)
              && forall i :: 0 <= i < |r.value| ==>
                   && Below(r.value[i].test, |groups|)
                   && r.value[i].train != []
                   && IsSplit(groups, embargo, r.value[i], i, r.value[i].test)
    ensures r.Err? ==> r.error.EmptyTraining?
  {
    hide TrainGroups, EmbargoedGroups, WindowsOf, Combos;
    var cs := Combos(0, |groups|, k);
    var splits: seq<Split> := [];
    for i := 0 to |cs|
      invariant |splits| == i
      invariant forall j :: 0 <= j < i ==> TrainGroups(groups, cs[j], embargo) != []
      invariant forall j :: 0 <= j < i ==>
                  && splits[j].test == cs[j]
                  && Below(cs[j], |groups|)
                  && IsSplit(groups, embargo, splits[j], j, cs[j])
    {
      var test := cs[i];
      CombosSound(0, |groups|, k, i);
      var train := TrainGroups(groups, test, embargo);
      if train == [] {
        return Err(EmptyTraining(i));
      }
      splits := splits + [Split(i, test, train, EmbargoedGroups(groups, test, train),
                                WindowsOf(groups, test), WindowsOf(groups, train))];
    }
    assert TestSets(splits) == cs;
    return Ok(splits);
  }

  method BuildCombinatorialFoldModel(groups: seq<Window>, k: int, embargo: int)
    returns (r: Result<Model, FoldError>)
    requires ValidWindows(groups)
    ensures r.Ok? <==> ValidInputs(groups, k, embargo) && EveryTrainingSetSurvives(groups, k, embargo)
    ensures r.Ok? ==>
              && r.value.groups == groups && r.value.testGroupCount == k && r.value.embargo == embargo
              && BuiltModel(r.value)
  {
    if embargo < 0 {
      return Err(BadEmbargo);
    }
    var n := |groups|;
    if n < 2 {
      return Err(TooFewGroups);
    }
    for index := 1 to n
      invariant forall i :: 1 <= i < index ==> groups[i].start == groups[i - 1].end
    {
      if groups[index].start != groups[index - 1].end {
        return Err(NotContiguous);
      }
    }
    if !(1 <= k <= n - 1) {
      return Err(BadTestGroupCount);
    }
    if Choose(n, k) > MAX_SPLITS {
      return Err(TooManySplits);
    }
    var built := BuildSplits(groups, k, embargo);
    if built.Err? {
      return Err(built.error);
    }
    var splits := built.value;
    var cs := TestSets(splits);
    OccurrencesFillPaths(n, k);
    var pathCount := Choose(n - 1, k - 1);
    var testedIn := seq(n, g requires 0 <= g < n => Occurrences(cs, g, |cs|));
    var paths :=
      seq(pathCount, p requires 0 <= p < pathCount =>
        seq(n, g requires 0 <= g < n && |testedIn[g]| == pathCount => testedIn[g][p]));
    return Ok(Model(groups, k, embargo, splits, paths));
  }

  lemma OccurrencesFillPaths(n: nat, k: nat)
    requires 1 <= k <= n - 1
    ensures forall g: nat :: g < n ==>
              |Occurrences(Combos(0, n, k), g, |Combos(0, n, k)|)| == Choose(n - 1, k - 1)
  {
    var cs := Combos(0, n, k);
    forall g: nat | g < n
      ensures |Occurrences(cs, g, |cs|)| == Choose(n - 1, k - 1)
    {
      OccurrencesCount(cs, g, |cs|);
      EachIndexOccurs(0, n, k, g);
    }
  }

  // ----- the path table is a bijection onto the test slots

  /** The split that supplies group g on path p tests g, and different paths use different splits. */
  lemma PathsAreInjective(cs: seq<seq<nat>>, n: nat, pathCount: nat, paths: seq<seq<nat>>, p: nat, q: nat, g: nat)
    requires IsPathTable(cs, n, pathCount, paths) && p < pathCount && q < pathCount && g < n
    ensures paths[p][g] < |cs| && g in cs[paths[p][g]]
    ensures paths[p][g] == paths[q][g] ==> p == q
  {
    var occ := Occurrences(cs, g, |cs|);
    assert paths[p][g] == occ[p] && paths[q][g] == occ[q];
    assert occ[p] in occ;
    if occ[p] == occ[q] {
      AscendingInjective(occ, p, q);
    }
  }

  /** Every test slot (split s, tested group g) is used by some path, hence by exactly one. */
  lemma PathsAreSurjective(cs: seq<seq<nat>>, n: nat, pathCount: nat, paths: seq<seq<nat>>, s: nat, g: nat)
    returns (p: nat)
    requires IsPathTable(cs, n, pathCount, paths) && s < |cs| && g < n && g in cs[s]
    ensures p < pathCount && paths[p][g] == s
  {
    var occ := Occurrences(cs, g, |cs|);
    assert s in occ;
    p :| 0 <= p < |occ| && occ[p] == s;
  }

  /** Along a path every group is taken from a later split the later the path. */
  lemma PathsAscend(cs: seq<seq<nat>>, n: nat, pathCount: nat, paths: seq<seq<nat>>, p: nat, q: nat, g: nat)
    requires IsPathTable(cs, n, pathCount, paths) && p < q < pathCount && g < n
    ensures paths[p][g] < paths[q][g]
  {
    var occ := Occurrences(cs, g, |cs|);
    assert paths[p][g] == occ[p] && paths[q][g] == occ[q];
  }

  /** A group never trains in the split that supplies its returns on a path. */
  lemma PathSplitNeverTrainsItsGroup(groups: seq<Window>, embargo: nat, cs: seq<seq<nat>>,
                                     pathCount: nat, paths: seq<seq<nat>>, p: nat, g: nat)
    requires IsPathTable(cs, |groups|, pathCount, paths) && p < pathCount && g < |groups|
    ensures paths[p][g] < |cs| && g !in TrainGroups(groups, cs[paths[p][g]], embargo)
  {
    PathsAreInjective(cs, |groups|, pathCount, paths, p, p, g);
  }
}
