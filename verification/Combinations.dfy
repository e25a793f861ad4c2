/** The k-element combinations of an index range in the order Python's `itertools.combinations`
    lists them, and how often each index occurs. */
module Combinations {

  function Choose(n: nat, k: nat): nat {
    if k == 0 then 1 else if n == 0 then 0 else Choose(n - 1, k - 1) + Choose(n - 1, k)
  }

  function Prepend(x: nat, cs: seq<seq<nat>>): (r: seq<seq<nat>>)
    ensures |r| == |cs|
    ensures forall i :: 0 <= i < |cs| ==> r[i] == [x] + cs[i]
  {
    seq(|cs|, i requires 0 <= i < |cs| => [x] + cs[i])
  }

  /** The ascending k-tuples over lo .. n-1: first those that start with lo. */
  function Combos(lo: nat, n: nat, k: nat): seq<seq<nat>>
    requires lo <= n
    decreases n - lo
  {
    if k == 0 then [[]]
    else if lo == n then []
    else Prepend(lo, Combos(lo + 1, n, k - 1)) + Combos(lo + 1, n, k)
  }

  predicate Ascending(s: seq<nat>) {
    forall a, b :: 0 <= a < b < |s| ==> s[a] < s[b]
  }

  predicate IsCombination(c: seq<nat>, lo: nat, n: nat, k: nat) {
    |c| == k && Ascending(c) && forall a :: 0 <= a < |c| ==> lo <= c[a] < n
  }

  /** Strict lexicographic order on tuples of one length. */
  predicate LexLess(c: seq<nat>, d: seq<nat>) {
    && c != [] && d != []
    && (c[0] < d[0] || (c[0] == d[0] && LexLess(c[1..], d[1..])))
  }

  lemma {:induction false} CombosCount(lo: nat, n: nat, k: nat)
    requires lo <= n
    ensures |Combos(lo, n, k)| == Choose(n - lo, k)
    decreases n - lo
  {
    if k != 0 && lo != n {
      CombosCount(lo + 1, n, k - 1);
      CombosCount(lo + 1, n, k);
    }
  }

  lemma {:induction false} CombosSound(lo: nat, n: nat, k: nat, i: nat)
    requires lo <= n && i < |Combos(lo, n, k)|
    ensures IsCombination(Combos(lo, n, k)[i], lo, n, k)
    decreases n - lo
  {
    if k != 0 {
      var first := Combos(lo + 1, n, k - 1);
      if i < |first| {
        CombosSound(lo + 1, n, k - 1, i);
      } else {
        CombosSound(lo + 1, n, k, i - |first|);
      }
    }
  }

  lemma {:induction false} CombosComplete(lo: nat, n: nat, k: nat, c: seq<nat>) returns (i: nat)
    requires lo <= n && IsCombination(c, lo, n, k)
    ensures i < |Combos(lo, n, k)| && Combos(lo, n, k)[i] == c
    decreases n - lo
  {
    if k == 0 {
      i := 0;
    } else {
      assert lo <= c[0] < n;
      var first := Combos(lo + 1, n, k - 1);
      if c[0] == lo {
        assert forall a :: 0 <= a < |c[1..]| ==> c[1..][a] > c[0];
        i := CombosComplete(lo + 1, n, k - 1, c[1..]);
        assert Prepend(lo, first)[i] == [lo] + c[1..];
      } else {
        i := CombosComplete(lo + 1, n, k, c);
        i := i + |first|;
      }
    }
  }

  /** The list is strictly lexicographic, so no combination is repeated. */
  lemma {:induction false} CombosLexicographic(lo: nat, n: nat, k: nat, i: nat, j: nat)
    requires lo <= n && i < j < |Combos(lo, n, k)|
    ensures LexLess(Combos(lo, n, k)[i], Combos(lo, n, k)[j])
    decreases n - lo
  {
    hide Combos;
    TwoMeansBranching(lo, n, k);
    var first := Combos(lo + 1, n, k - 1);
    CombosAt(lo, n, k, i);
    CombosAt(lo, n, k, j);
    if j < |first| {
      CombosLexicographic(lo + 1, n, k - 1, i, j);
      SameHead(lo, first[i], first[j]);
    } else if i >= |first| {
      CombosLexicographic(lo + 1, n, k, i - |first|, j - |first|);
    } else {
      CombosSound(lo + 1, n, k, j - |first|);
      assert Combos(lo, n, k)[i][0] == lo;
    }
  }

  lemma TwoMeansBranching(lo: nat, n: nat, k: nat)
    requires lo <= n && |Combos(lo, n, k)| >= 2
    ensures k > 0 && lo < n
  {
  }

  lemma CombosAt(lo: nat, n: nat, k: nat, i: nat)
    requires lo < n && k > 0 && i < |Combos(lo, n, k)|
    ensures var first, rest := Combos(lo + 1, n, k - 1), Combos(lo + 1, n, k);
            && |Combos(lo, n, k)| == |first| + |rest|
            && Combos(lo, n, k)[i] == if i < |first| then [lo] + first[i] else rest[i - |first|]
  {
  }

  lemma SameHead(x: nat, c: seq<nat>, d: seq<nat>)
    requires LexLess(c, d)
    ensures LexLess([x] + c, [x] + d)
  {
    assert ([x] + c)[1..] == c && ([x] + d)[1..] == d;
  }

  lemma {:induction false} LexLessIrreflexive(c: seq<nat>)
    ensures !LexLess(c, c)
  {
    if c != [] {
      LexLessIrreflexive(c[1..]);
    }
  }

  lemma CombosDistinct(lo: nat, n: nat, k: nat)
    requires lo <= n
    ensures forall i, j :: 0 <= i < j < |Combos(lo, n, k)| ==> Combos(lo, n, k)[i] != Combos(lo, n, k)[j]
  {
    forall i, j | 0 <= i < j < |Combos(lo, n, k)|
      ensures Combos(lo, n, k)[i] != Combos(lo, n, k)[j]
    {
      CombosLexicographic(lo, n, k, i, j);
      LexLessIrreflexive(Combos(lo, n, k)[i]);
    }
  }

  // ----- where an index occurs

  /** The positions below n, ascending, whose tuple contains g. */
  function Occurrences(cs: seq<seq<nat>>, g: nat, n: nat): (r: seq<nat>)
    requires n <= |cs|
    ensures Ascending(r)
    ensures forall i: nat :: i in r <==> i < n && g in cs[i]
  {
    if n == 0 then []
    else
      var front := Occurrences(cs, g, n - 1);
      assert forall a :: 0 <= a < |front| ==> front[a] in front;
      if g in cs[n - 1] then front + [n - 1] else front
  }

  function Count(cs: seq<seq<nat>>, g: nat, n: nat): nat
    requires n <= |cs|
  {
    if n == 0 then 0 else Count(cs, g, n - 1) + if g in cs[n - 1] then 1 else 0
  }

  lemma {:induction false} OccurrencesCount(cs: seq<seq<nat>>, g: nat, n: nat)
    requires n <= |cs|
    ensures |Occurrences(cs, g, n)| == Count(cs, g, n)
  {
    if n != 0 {
      OccurrencesCount(cs, g, n - 1);
    }
  }

  lemma {:induction false} CountConcat(a: seq<seq<nat>>, b: seq<seq<nat>>, g: nat, n: nat)
    requires n <= |b|
    ensures Count(a + b, g, |a| + n) == Count(a, g, |a|) + Count(b, g, n)
  {
    if n == 0 {
      CountPrefix(a, b, g, |a|);
    } else {
      CountConcat(a, b, g, n - 1);
      assert (a + b)[|a| + n - 1] == b[n - 1];
    }
  }

  lemma {:induction false} CountPrefix(a: seq<seq<nat>>, b: seq<seq<nat>>, g: nat, n: nat)
    requires n <= |a|
    ensures Count(a + b, g, n) == Count(a, g, n)
  {
    if n != 0 {
      CountPrefix(a, b, g, n - 1);
    }
  }

  lemma {:induction false} CountPrepend(x: nat, cs: seq<seq<nat>>, g: nat, n: nat)
    requires n <= |cs|
    ensures Count(Prepend(x, cs), g, n) == if g == x then n else Count(cs, g, n)
  {
    if n != 0 {
      CountPrepend(x, cs, g, n - 1);
      assert Prepend(x, cs)[n - 1] == [x] + cs[n - 1];
      assert g in [x] + cs[n - 1] <==> g == x || g in cs[n - 1];
    }
  }

  lemma {:induction false} CountAbsent(cs: seq<seq<nat>>, g: nat, n: nat)
    requires n <= |cs| && forall i :: 0 <= i < n ==> g !in cs[i]
    ensures Count(cs, g, n) == 0
  {
    if n != 0 {
      CountAbsent(cs, g, n - 1);
    }
  }

  /** The number of combinations that contain g. */
  function Containing(lo: nat, n: nat, k: nat, g: nat): nat
    requires lo <= n
  {
    Count(Combos(lo, n, k), g, |Combos(lo, n, k)|)
  }

  /** Every index of the range occurs in exactly C(n-lo-1, k-1) of the C(n-lo, k) combinations. */
  lemma {:induction false} EachIndexOccurs(lo: nat, n: nat, k: nat, g: nat)
    requires lo <= g < n && k >= 1
    ensures Containing(lo, n, k, g) == Choose(n - lo - 1, k - 1)
    decreases n - lo
  {
    hide *;
    ContainingSplits(lo, n, k, g);
    Pascal(n - lo - 1, k - 1);
    if g == lo {
      CombosCount(lo + 1, n, k - 1);
      StartsAbove(lo + 1, n, k, g);
    } else {
      EachIndexOccurs(lo + 1, n, k, g);
      if k >= 2 {
        EachIndexOccurs(lo + 1, n, k - 1, g);
      } else {
        EmptyTupleOnly(lo + 1, n, g);
      }
    }
  }

  lemma ContainingSplits(lo: nat, n: nat, k: nat, g: nat)
    requires lo < n && k >= 1
    ensures Containing(lo, n, k, g)
            == (if g == lo then |Combos(lo + 1, n, k - 1)| else Containing(lo + 1, n, k - 1, g))
               + Containing(lo + 1, n, k, g)
  {
    var first, rest := Combos(lo + 1, n, k - 1), Combos(lo + 1, n, k);
    assert Combos(lo, n, k) == Prepend(lo, first) + rest;
    CountConcat(Prepend(lo, first), rest, g, |rest|);
    CountPrepend(lo, first, g, |first|);
  }

  lemma StartsAbove(lo: nat, n: nat, k: nat, g: nat)
    requires g < lo <= n && k >= 1
    ensures Containing(lo, n, k, g) == 0
  {
    forall i | 0 <= i < |Combos(lo, n, k)|
      ensures g !in Combos(lo, n, k)[i]
    {
      CombosSound(lo, n, k, i);
    }
    CountAbsent(Combos(lo, n, k), g, |Combos(lo, n, k)|);
  }

  lemma EmptyTupleOnly(lo: nat, n: nat, g: nat)
    requires lo <= n
    ensures Containing(lo, n, 0, g) == 0
  {
    CombosCount(lo, n, 0);
    CombosSound(lo, n, 0, 0);
    CountAbsent(Combos(lo, n, 0), g, 1);
  }

  lemma Pascal(n: nat, k: nat)
    ensures k == 0 ==> Choose(n, k) == 1
    ensures n > 0 && k > 0 ==> Choose(n, k) == Choose(n - 1, k - 1) + Choose(n - 1, k)
    ensures n > 0 && k == 0 ==> Choose(n - 1, k) == 1
  {
  }

  /** An ascending sequence has at most one position per value. */
  lemma AscendingInjective(s: seq<nat>, a: nat, b: nat)
    requires Ascending(s) && a < |s| && b < |s| && s[a] == s[b]
    ensures a == b
  {
  }
}
