/** Holm's step-down correction of a declared family of p-values.

    The step-down loop is proved to be exactly the closed Bonferroni test, whatever the family
    and whatever the level, and its adjusted values are given a closed form that mentions
    neither the sorted order nor the input order. */
module HolmCorrection {
  import opened Outcomes
  import opened SetFacts
  import opened ProductFacts

  // ----- exact decimals: a non-negative coefficient, as digits, and an exponent

  datatype Decimal = Decimal(digits: seq<nat>, exponent: int)

  function Coefficient(digits: seq<nat>): nat {
    if digits == [] then 0 else 10 * Coefficient(digits[..|digits| - 1]) + digits[|digits| - 1]
  }

  function Digits(n: nat): seq<nat> {
    if n < 10 then [n] else Digits(n / 10) + [n % 10]
  }

  function Power10(e: int): (r: real)
    ensures r > 0.0
    decreases if e < 0 then -e else e
  {
    if e == 0 then 1.0 else if e > 0 then 10.0 * Power10(e - 1) else Power10(e + 1) / 10.0
  }

  function Value(d: Decimal): (v: real)
    ensures v >= 0.0
  {
    ProductNonNegative(Coefficient(d.digits) as real, Power10(d.exponent));
    Coefficient(d.digits) as real * Power10(d.exponent)
  }

  /** Power10 is the exponential with base ten: the one with this value at 1 and this law. */
  lemma {:induction false} PowersMultiply(a: int, b: int)
    ensures Power10(1) == 10.0
    ensures Power10(a + b) == Times(Power10(a), Power10(b))
    decreases if b < 0 then -b else b
  {
    PowerStep(0);
    if b > 0 {
      PowersMultiply(a, b - 1);
      PowerStep(a + b - 1);
      PowerStep(b - 1);
      hide Power10;
      TimesTen(Power10(a), Power10(b - 1));
    } else if b < 0 {
      PowersMultiply(a, b + 1);
      PowerStep(a + b);
      PowerStep(b);
      hide Power10;
      TimesTen(Power10(a), Power10(b));
    }
  }

  lemma PowerStep(e: int)
    ensures Power10(e + 1) == 10.0 * Power10(e)
  {
  }

  lemma TimesTen(x: real, y: real)
    ensures Times(x, 10.0 * y) == 10.0 * Times(x, y)
  {
  }

  /** Positional notation: one more digit and a shifted exponent mean what they do on paper. */
  lemma DecimalNotation(digits: seq<nat>, d: nat, e: int)
    ensures Value(Decimal(digits + [d], e)) == 10.0 * Value(Decimal(digits, e)) + d as real * Power10(e)
    ensures Value(Decimal(digits, e + 1)) == 10.0 * Value(Decimal(digits, e))
    ensures Value(Decimal([], e)) == 0.0 && Value(Decimal([1], 0)) == 1.0
  {
    var all, c, p := digits + [d], Coefficient(digits), Power10(e);
    assert all[..|all| - 1] == digits;
    assert Coefficient(all) == 10 * c + d;
    PowerStep(e);
    OneIsOne();
    hide Power10, Coefficient;
    assert (10 * c + d) as real == 10.0 * c as real + d as real;
    assert (10.0 * c as real + d as real) * p == 10.0 * (c as real * p) + d as real * p;
    assert c as real * (10.0 * p) == 10.0 * (c as real * p);
  }

  const One := Decimal([1], 0)

  function ExactMultiple(p: Decimal, multiplier: nat): Decimal {
    Decimal(Digits(Coefficient(p.digits) * multiplier), p.exponent)
  }

  /** Reading back the digits written for a number gives the number. */
  lemma {:induction false} DigitsRoundTrip(n: nat)
    ensures Coefficient(Digits(n)) == n
    ensures forall k :: 0 <= k < |Digits(n)| ==> Digits(n)[k] < 10
  {
    if n >= 10 {
      DigitsRoundTrip(n / 10);
      assert Digits(n)[..|Digits(n)| - 1] == Digits(n / 10);
    } else {
      assert Coefficient([n][..0]) == 0;
    }
  }

  lemma ExactMultipleIsExact(p: Decimal, multiplier: nat)
    ensures Value(ExactMultiple(p, multiplier)) == Multiple(multiplier, Value(p))
  {
    hide Value, Multiple, Power10, Digits, Coefficient;
    var c := Coefficient(p.digits);
    var n := c * multiplier;
    DigitsRoundTrip(n);
    CastProduct(c, multiplier);
    ValueOf(p, c);
    ValueOf(ExactMultiple(p, multiplier), n);
    Reassociate(c as real, multiplier, n as real, Power10(p.exponent),
                Value(p), Value(ExactMultiple(p, multiplier)));
  }

  lemma ValueOf(d: Decimal, c: nat)
    requires Coefficient(d.digits) == c
    ensures Value(d) == c as real * Power10(d.exponent)
  {
  }

  lemma Reassociate(c: real, m: nat, n: real, power: real, vp: real, vq: real)
    requires n == c * m as real && vp == c * power && vq == n * power
    ensures vq == Multiple(m, vp)
  {
    assert (c * m as real) * power == m as real * (c * power);
  }

  // ----- the stable ascending order of the family

  ghost predicate Before(ps: seq<real>, i: nat, j: nat)
    requires i < |ps| && j < |ps|
  {
    ps[i] < ps[j] || (ps[i] == ps[j] && i < j)
  }

  ghost predicate Ascending(ps: seq<real>, order: seq<nat>)
    requires forall k :: 0 <= k < |order| ==> order[k] < |ps|
  {
    forall a, b :: 0 <= a < b < |order| ==> Before(ps, order[a], order[b])
  }

  ghost predicate IsOrder(ps: seq<real>, order: seq<nat>, n: nat)
    requires n <= |ps|
  {
    && |order| == n
    && (forall k :: 0 <= k < n ==> order[k] < n)
    && Ascending(ps, order)
  }

  function Insert(ps: seq<real>, order: seq<nat>, i: nat): (r: seq<nat>)
    requires i < |ps| && forall k :: 0 <= k < |order| ==> order[k] < i
    ensures |r| == |order| + 1
    ensures forall k :: 0 <= k < |r| ==> r[k] <= i
  {
    if order == [] then [i]
    else
      var last := order[|order| - 1];
      if ps[last] <= ps[i] then order + [i]
      else Insert(ps, order[..|order| - 1], i) + [last]
  }

  /** The first n indices, ascending by (p-value, index). */
  function SortedOrder(ps: seq<real>, n: nat): (order: seq<nat>)
    requires n <= |ps|
    ensures |order| == n && forall k :: 0 <= k < n ==> order[k] < n
  {
    if n == 0 then [] else Insert(ps, SortedOrder(ps, n - 1), n - 1)
  }

  lemma {:induction false} InsertKeepsOrder(ps: seq<real>, order: seq<nat>, i: nat)
    requires i < |ps| && forall k :: 0 <= k < |order| ==> order[k] < i
    requires Ascending(ps, order)
    ensures Ascending(ps, Insert(ps, order, i))
    ensures var r := Insert(ps, order, i);
            r[|r| - 1] == i || (order != [] && r[|r| - 1] == order[|order| - 1])
  {
    if order != [] {
      var last, front := order[|order| - 1], order[..|order| - 1];
      if ps[last] <= ps[i] {
        forall a | 0 <= a < |order|
          ensures Before(ps, order[a], i)
        {
          assert a < |order| - 1 ==> Before(ps, order[a], last);
        }
      } else {
        InsertKeepsOrder(ps, front, i);
        var r := Insert(ps, front, i);
        forall a | 0 <= a < |r|
          ensures Before(ps, r[a], last)
        {
          var top := r[|r| - 1];
          assert top == i || Before(ps, top, last);
          assert a < |r| - 1 ==> Before(ps, r[a], top);
        }
      }
    }
  }

  lemma {:induction false} SortedOrderIsOrder(ps: seq<real>, n: nat)
    requires n <= |ps|
    ensures IsOrder(ps, SortedOrder(ps, n), n)
  {
    if n != 0 {
      SortedOrderIsOrder(ps, n - 1);
      InsertKeepsOrder(ps, SortedOrder(ps, n - 1), n - 1);
    }
  }

  lemma OrderIsDistinct(ps: seq<real>, order: seq<nat>)
    requires IsOrder(ps, order, |ps|)
    ensures Distinct(order)
  {
    forall a, b | 0 <= a < b < |order|
      ensures order[a] != order[b]
    {
      assert Before(ps, order[a], order[b]);
    }
  }

  // ----- finite sets of hypotheses

  ghost predicate Distinct(s: seq<nat>) {
    forall a, b :: 0 <= a < b < |s| ==> s[a] != s[b]
  }

  ghost function Members(s: seq<nat>): set<nat> {
    set x | x in s
  }

  lemma {:induction false} MembersSize(s: seq<nat>)
    requires Distinct(s)
    ensures |Members(s)| == |s|
  {
    if s != [] {
      var last := s[|s| - 1];
      MembersSize(s[..|s| - 1]);
      assert Members(s) == Members(s[..|s| - 1]) + {last};
    }
  }

  ghost function Below(n: nat): (s: set<nat>)
    ensures forall i: nat :: i in s <==> i < n
    ensures |s| == n
  {
    if n == 0 then {}
    else
      var top: nat := n - 1;
      Below(top) + {top}
  }

  lemma {:induction false} EqualSizeSubset(s: set<nat>, t: set<nat>)
    requires s <= t && |s| == |t|
    ensures s == t
  {
    if s != {} {
      var x :| x in s;
      EqualSizeSubset(s - {x}, t - {x});
    }
  }

  /** Every hypothesis has a position in the order. */
  lemma PositionExists(ps: seq<real>, order: seq<nat>, i: nat)
    requires IsOrder(ps, order, |ps|) && i < |ps|
    ensures exists k :: 0 <= k < |ps| && order[k] == i
  {
    OrderIsDistinct(ps, order);
    MembersSize(order);
    EqualSizeSubset(Members(order), Below(|ps|));
    assert i in Members(order);
  }

  /** n p, the Bonferroni bound of a p-value among n hypotheses. */
  function Multiple(n: nat, p: real): real {
    n as real * p
  }

  lemma MultipleMonotone(n: nat, m: nat, p: real, q: real)
    requires n <= m && 0.0 <= p <= q
    ensures Multiple(n, p) <= Multiple(m, q)
  {
    ProductMonotone(n as real, p, q);
    ProductMonotone(q, n as real, m as real);
  }

  // ----- the running maximum of the step-down products

  function Product(ps: seq<real>, order: seq<nat>, j: nat): real
    requires j < |order| == |ps| && order[j] < |ps|
  {
    Multiple(|ps| - j, ps[order[j]])
  }

  function RunningMax(ps: seq<real>, order: seq<nat>, k: nat): real
    requires k < |order| == |ps| && forall j :: 0 <= j < |order| ==> order[j] < |ps|
  {
    if k == 0 then Product(ps, order, 0)
    else
      var before, here := RunningMax(ps, order, k - 1), Product(ps, order, k);
      if here > before then here else before
  }

  lemma {:induction false} RunningMaxIsMax(ps: seq<real>, order: seq<nat>, k: nat)
    requires k < |order| == |ps| && forall j :: 0 <= j < |order| ==> order[j] < |ps|
    ensures forall j :: 0 <= j <= k ==> Product(ps, order, j) <= RunningMax(ps, order, k)
    ensures exists j :: 0 <= j <= k && Product(ps, order, j) == RunningMax(ps, order, k)
  {
    if k == 0 {
      assert Product(ps, order, 0) == RunningMax(ps, order, k);
    } else {
      RunningMaxIsMax(ps, order, k - 1);
      assert Product(ps, order, k) <= RunningMax(ps, order, k);
    }
  }

  function Min1(x: real): real {
    if x < 1.0 then x else 1.0
  }

  /** The adjusted p-value of hypothesis i: what the loop writes at its position. */
  ghost predicate IsAdjusted(ps: seq<real>, i: nat, adjusted: real)
    requires i < |ps|
  {
    var order := SortedOrder(ps, |ps|);
    exists k :: 0 <= k < |ps| && order[k] == i && adjusted == Min1(RunningMax(ps, order, k))
  }

  // ----- Holm is the closed Bonferroni test

  ghost predicate Probabilities(ps: seq<real>) {
    forall i :: 0 <= i < |ps| ==> 0.0 <= ps[i] <= 1.0
  }

  /** Bonferroni rejects the intersection hypothesis of s at level a. */
  ghost predicate BonferroniRejects(ps: seq<real>, s: set<nat>, a: real)
    requires forall i :: i in s ==> i < |ps|
  {
    exists j :: j in s && Multiple(|s|, ps[j]) <= a
  }

  /** Bonferroni rejects every intersection hypothesis that implies hypothesis i. */
  ghost predicate ClosedTestRejects(ps: seq<real>, i: nat, a: real)
    requires i < |ps|
  {
    forall s: set<nat> :: i in s && (forall j :: j in s ==> j < |ps|) ==> BonferroniRejects(ps, s, a)
  }

  /** An adjusted value is a probability, and never below the p-value. */
  lemma AdjustedInRange(ps: seq<real>, i: nat, adjusted: real)
    requires Probabilities(ps) && i < |ps| && IsAdjusted(ps, i, adjusted)
    ensures ps[i] <= adjusted <= 1.0
  {
    var order := SortedOrder(ps, |ps|);
    var k :| 0 <= k < |ps| && order[k] == i && adjusted == Min1(RunningMax(ps, order, k));
    RunningMaxIsMax(ps, order, k);
    assert Product(ps, order, k) <= RunningMax(ps, order, k);
    MultipleMonotone(1, |ps| - k, ps[i], ps[i]);
    assert Multiple(1, ps[i]) == ps[i];
  }

  lemma StepDownRejectsSubset(ps: seq<real>, order: seq<nat>, k: nat, a: real, s: set<nat>)
    requires Probabilities(ps) && IsOrder(ps, order, |ps|) && k < |ps|
    requires forall j :: 0 <= j <= k ==> Product(ps, order, j) <= a
    requires order[k] in s && forall j :: j in s ==> j < |ps|
    ensures BonferroniRejects(ps, s, a)
  {
    hide Multiple;
    var first := FirstIn(order, k, s);
    var rest := order[first..];
    OrderIsDistinct(ps, order);
    MembersSize(rest);
    forall x | x in s
      ensures x in rest
    {
      PositionExists(ps, order, x);
      var l :| 0 <= l < |ps| && order[l] == x;
      assert rest[l - first] == x;
    }
    SubsetSize(s, Members(rest));
    assert Product(ps, order, first) <= a;
    MultipleMonotone(|s|, |ps| - first, ps[order[first]], ps[order[first]]);
  }

  /** The first position of the order, at or before k, that lies in s. */
  lemma FirstIn(order: seq<nat>, k: nat, s: set<nat>) returns (first: nat)
    requires k < |order| && order[k] in s
    ensures first <= k && order[first] in s
    ensures forall j :: 0 <= j < first ==> order[j] !in s
  {
    first := 0;
    while order[first] !in s
      invariant first <= k
      invariant forall j :: 0 <= j < first ==> order[j] !in s
      decreases k - first
    {
      first := first + 1;
    }
  }

  lemma ClosedTestBoundsProduct(ps: seq<real>, order: seq<nat>, k: nat, a: real, j: nat)
    requires Probabilities(ps) && IsOrder(ps, order, |ps|) && j <= k < |ps|
    requires ClosedTestRejects(ps, order[k], a)
    ensures Product(ps, order, j) <= a
  {
    hide Multiple;
    var rest := order[j..];
    var s := Members(rest);
    OrderIsDistinct(ps, order);
    MembersSize(rest);
    assert rest[k - j] == order[k];
    assert BonferroniRejects(ps, s, a);
    var x :| x in s && Multiple(|s|, ps[x]) <= a;
    var l :| 0 <= l < |rest| && rest[l] == x;
    assert l > 0 ==> Before(ps, order[j], order[j + l]);
    MultipleMonotone(|ps| - j, |ps| - j, ps[order[j]], ps[x]);
  }

  /** At every level below 1, the adjusted value is within the level exactly when the closed
      Bonferroni test rejects. */
  lemma HolmIsClosedBonferroni(ps: seq<real>, i: nat, adjusted: real, a: real)
    requires Probabilities(ps) && i < |ps| && IsAdjusted(ps, i, adjusted) && a < 1.0
    ensures adjusted <= a <==> ClosedTestRejects(ps, i, a)
  {
    var order := SortedOrder(ps, |ps|);
    SortedOrderIsOrder(ps, |ps|);
    var k :| 0 <= k < |ps| && order[k] == i && adjusted == Min1(RunningMax(ps, order, k));
    RunningMaxIsMax(ps, order, k);
    if adjusted <= a {
      forall s: set<nat> | i in s && (forall j :: j in s ==> j < |ps|)
        ensures BonferroniRejects(ps, s, a)
      {
        StepDownRejectsSubset(ps, order, k, a, s);
      }
    }
    if ClosedTestRejects(ps, i, a) {
      forall j | 0 <= j <= k
        ensures Product(ps, order, j) <= a
      {
        ClosedTestBoundsProduct(ps, order, k, a, j);
      }
    }
  }

  /** Family-wise control, deterministically: a set containing a rejected hypothesis has a
      member whose Bonferroni-adjusted p-value is within the level. */
  lemma RejectedMemberImpliesSmallP(ps: seq<real>, i: nat, adjusted: real, a: real, truths: set<nat>)
    requires Probabilities(ps) && i < |ps| && IsAdjusted(ps, i, adjusted) && adjusted <= a < 1.0
    requires i in truths && forall j :: j in truths ==> j < |ps|
    ensures exists j :: j in truths && Multiple(|truths|, ps[j]) <= a
  {
    HolmIsClosedBonferroni(ps, i, adjusted, a);
    assert BonferroniRejects(ps, truths, a);
  }

  // ----- a closed form free of any order

  function CountAtLeast(ps: seq<real>, x: real): nat {
    if ps == [] then 0
    else CountAtLeast(ps[..|ps| - 1], x) + if ps[|ps| - 1] >= x then 1 else 0
  }

  /** The step-down product of the value x: its p-value times the number of p-values not below. */
  function StepDown(ps: seq<real>, x: real): real {
    Multiple(CountAtLeast(ps, x), x)
  }

  ghost predicate HasClosedForm(ps: seq<real>, i: nat, adjusted: real)
    requires i < |ps|
  {
    && (forall j :: 0 <= j < |ps| && ps[j] <= ps[i] ==> Min1(StepDown(ps, ps[j])) <= adjusted)
    && (exists j :: 0 <= j < |ps| && ps[j] <= ps[i] && Min1(StepDown(ps, ps[j])) == adjusted)
  }

  lemma {:induction false} CountSplits(ps: seq<real>, k: nat, x: real)
    requires k < |ps|
    ensures CountAtLeast(ps, x) == CountAtLeast(ps[..k] + ps[k + 1..], x) + if ps[k] >= x then 1 else 0
  {
    var rest := ps[..k] + ps[k + 1..];
    if k == |ps| - 1 {
      assert rest == ps[..|ps| - 1];
    } else {
      CountSplits(ps[..|ps| - 1], k, x);
      assert rest[..|rest| - 1] == ps[..|ps| - 1][..k] + ps[..|ps| - 1][k + 1..];
    }
  }

  lemma {:induction false} CountOfMultiset(ps: seq<real>, qs: seq<real>, x: real)
    requires multiset(ps) == multiset(qs)
    ensures CountAtLeast(ps, x) == CountAtLeast(qs, x)
  {
    SameLength(ps, qs);
    if ps != [] {
      var last := ps[|ps| - 1];
      assert ps == ps[..|ps| - 1] + [last];
      assert last in multiset(qs);
      var k :| 0 <= k < |qs| && qs[k] == last;
      assert qs == qs[..k] + [last] + qs[k + 1..];
      assert multiset(qs[..k] + qs[k + 1..]) == multiset(qs) - multiset{last};
      assert multiset(ps[..|ps| - 1]) == multiset(ps) - multiset{last};
      CountOfMultiset(ps[..|ps| - 1], qs[..k] + qs[k + 1..], x);
      CountSplits(qs, k, x);
    }
  }

  lemma SameLength(ps: seq<real>, qs: seq<real>)
    requires multiset(ps) == multiset(qs)
    ensures |ps| == |qs|
  {
    assert |multiset(ps)| == |ps| && |multiset(qs)| == |qs|;
  }

  ghost function IndicesAtLeast(ps: seq<real>, x: real): set<nat> {
    set i: nat | i < |ps| && ps[i] >= x
  }

  lemma {:induction false} CountIsSize(ps: seq<real>, x: real)
    ensures CountAtLeast(ps, x) == |IndicesAtLeast(ps, x)|
  {
    if ps != [] {
      var front, last := ps[..|ps| - 1], |ps| - 1;
      CountIsSize(front, x);
      if ps[last] >= x {
        assert IndicesAtLeast(ps, x) == IndicesAtLeast(front, x) + {last};
      } else {
        assert IndicesAtLeast(ps, x) == IndicesAtLeast(front, x);
      }
    }
  }

  lemma CountFromFirst(ps: seq<real>, order: seq<nat>, l: nat)
    requires IsOrder(ps, order, |ps|) && l < |ps|
    requires forall k :: 0 <= k < l ==> ps[order[k]] < ps[order[l]]
    ensures StepDown(ps, ps[order[l]]) == Product(ps, order, l)
  {
    var x, rest := ps[order[l]], order[l..];
    OrderIsDistinct(ps, order);
    MembersSize(rest);
    CountIsSize(ps, x);
    forall i | i in IndicesAtLeast(ps, x)
      ensures i in rest
    {
      PositionExists(ps, order, i);
      var pos :| 0 <= pos < |ps| && order[pos] == i;
      assert rest[pos - l] == i;
    }
    forall i | i in rest
      ensures ps[i] >= x
    {
      var k :| 0 <= k < |rest| && rest[k] == i;
      assert k > 0 ==> Before(ps, order[l], order[l + k]);
    }
    assert IndicesAtLeast(ps, x) == Members(rest);
  }

  /** The first position, at or before k, that holds the same value as position k. */
  lemma FirstOfTies(ps: seq<real>, order: seq<nat>, k: nat) returns (l: nat)
    requires IsOrder(ps, order, |ps|) && k < |ps|
    ensures l <= k && ps[order[l]] == ps[order[k]]
    ensures forall j :: 0 <= j < l ==> ps[order[j]] < ps[order[k]]
  {
    l := k;
    while l > 0 && ps[order[l - 1]] == ps[order[k]]
      invariant l <= k && ps[order[l]] == ps[order[k]]
    {
      l := l - 1;
    }
    forall j | 0 <= j < l
      ensures ps[order[j]] < ps[order[k]]
    {
      assert Before(ps, order[l - 1], order[l]);
      assert j < l - 1 ==> Before(ps, order[j], order[l - 1]);
    }
  }

  /** The adjusted value is the largest step-down product of the p-values not above its own. */
  lemma AdjustedClosedForm(ps: seq<real>, i: nat, adjusted: real)
    requires Probabilities(ps) && i < |ps| && IsAdjusted(ps, i, adjusted)
    ensures HasClosedForm(ps, i, adjusted)
  {
    var order := SortedOrder(ps, |ps|);
    SortedOrderIsOrder(ps, |ps|);
    var k :| 0 <= k < |ps| && order[k] == i && adjusted == Min1(RunningMax(ps, order, k));
    forall j | 0 <= j < |ps| && ps[j] <= ps[i]
      ensures Min1(StepDown(ps, ps[j])) <= adjusted
    {
      StepDownBelowMax(ps, order, k, j);
    }
    var j := MaxIsStepDown(ps, order, k);
    assert Min1(StepDown(ps, ps[j])) == adjusted;
  }

  lemma StepDownBelowMax(ps: seq<real>, order: seq<nat>, k: nat, j: nat)
    requires IsOrder(ps, order, |ps|) && k < |ps| && j < |ps| && ps[j] <= ps[order[k]]
    ensures StepDown(ps, ps[j]) <= RunningMax(ps, order, k)
  {
    hide Multiple;
    PositionExists(ps, order, j);
    var pos :| 0 <= pos < |ps| && order[pos] == j;
    var l := FirstOfTies(ps, order, pos);
    CountFromFirst(ps, order, l);
    NotAfter(ps, order, k, l);
    RunningMaxIsMax(ps, order, k);
  }

  /** A first-of-ties position whose value is not above that of k is not after k. */
  lemma NotAfter(ps: seq<real>, order: seq<nat>, k: nat, l: nat)
    requires IsOrder(ps, order, |ps|) && k < |ps| && l < |ps| && ps[order[l]] <= ps[order[k]]
    requires forall j :: 0 <= j < l ==> ps[order[j]] < ps[order[l]]
    ensures l <= k
  {
  }

  lemma MaxIsStepDown(ps: seq<real>, order: seq<nat>, k: nat) returns (j: nat)
    requires Probabilities(ps) && IsOrder(ps, order, |ps|) && k < |ps|
    ensures j < |ps| && ps[j] <= ps[order[k]] && StepDown(ps, ps[j]) == RunningMax(ps, order, k)
  {
    hide Multiple;
    RunningMaxIsMax(ps, order, k);
    var best :| 0 <= best <= k && Product(ps, order, best) == RunningMax(ps, order, k);
    var l := FirstOfTies(ps, order, best);
    CountFromFirst(ps, order, l);
    j := order[l];
    assert l < k ==> Before(ps, order[l], order[k]);
    assert Product(ps, order, l) <= RunningMax(ps, order, k);
    MultipleMonotone(|ps| - best, |ps| - l, ps[j], ps[j]);
  }

  /** Adjusted values follow the p-values: monotone, hence equal on ties. */
  lemma AdjustedMonotone(ps: seq<real>, i: nat, j: nat, adjustedI: real, adjustedJ: real)
    requires Probabilities(ps) && i < |ps| && j < |ps| && ps[i] <= ps[j]
    requires IsAdjusted(ps, i, adjustedI) && IsAdjusted(ps, j, adjustedJ)
    ensures adjustedI <= adjustedJ
    ensures ps[i] == ps[j] ==> adjustedI == adjustedJ
  {
    AdjustedClosedForm(ps, i, adjustedI);
    AdjustedClosedForm(ps, j, adjustedJ);
  }

  /** Reordering the family changes no adjusted value. */
  lemma AdjustedIgnoresOrder(ps: seq<real>, qs: seq<real>, i: nat, j: nat, adjustedI: real, adjustedJ: real)
    requires Probabilities(ps) && multiset(ps) == multiset(qs)
    requires i < |ps| && j < |qs| && ps[i] == qs[j]
    requires IsAdjusted(ps, i, adjustedI) && IsAdjusted(qs, j, adjustedJ)
    ensures adjustedI == adjustedJ
  {
    AdjustedClosedForm(ps, i, adjustedI);
    SameMembers(ps, qs);
    AdjustedClosedForm(qs, j, adjustedJ);
    ClosedFormBounded(ps, qs, i, j, adjustedI, adjustedJ);
    ClosedFormBounded(qs, ps, j, i, adjustedJ, adjustedI);
  }

  lemma ClosedFormBounded(ps: seq<real>, qs: seq<real>, i: nat, j: nat, adjustedI: real, adjustedJ: real)
    requires multiset(ps) == multiset(qs) && i < |ps| && j < |qs| && ps[i] == qs[j]
    requires HasClosedForm(ps, i, adjustedI) && HasClosedForm(qs, j, adjustedJ)
    ensures adjustedI <= adjustedJ
  {
    hide Multiple;
    var a :| 0 <= a < |ps| && ps[a] <= ps[i] && Min1(StepDown(ps, ps[a])) == adjustedI;
    CountOfMultiset(ps, qs, ps[a]);
    SameMembers(ps, qs);
    assert ps[a] in qs;
    var b :| 0 <= b < |qs| && qs[b] == ps[a];
    assert Min1(StepDown(qs, qs[b])) <= adjustedJ;
  }

  lemma SameMembers(ps: seq<real>, qs: seq<real>)
    requires multiset(ps) == multiset(qs)
    ensures forall x :: x in ps <==> x in qs
    ensures Probabilities(ps) ==> Probabilities(qs)
  {
    forall x
      ensures x in ps <==> x in qs
    {
      assert x in ps <==> x in multiset(ps);
      assert x in qs <==> x in multiset(qs);
    }
    if Probabilities(ps) {
      forall k | 0 <= k < |qs|
        ensures 0.0 <= qs[k] <= 1.0
      {
        assert qs[k] in ps;
      }
    }
  }

  // ----- the correction itself

  datatype Hypothesis = Hypothesis(id: string, pValue: Decimal)

  datatype AdjustedHypothesis =
    AdjustedHypothesis(id: string, pValue: Decimal, adjusted: Decimal, rejected: bool)

  datatype HolmError = EmptyFamily | DuplicateHypothesis | BadSignificanceLevel

  function PValues(hypotheses: seq<Hypothesis>): (ps: seq<real>)
    ensures |ps| == |hypotheses|
  {
    seq(|hypotheses|, i requires 0 <= i < |hypotheses| => Value(hypotheses[i].pValue))
  }

  ghost predicate HasDuplicateId(hypotheses: seq<Hypothesis>) {
    exists i, j :: 0 <= i < j < |hypotheses| && hypotheses[i].id == hypotheses[j].id
  }

  function MaxDecimal(x: Decimal, y: Decimal): Decimal {
    if Value(y) > Value(x) then y else x
  }

  function MinDecimal(x: Decimal, y: Decimal): Decimal {
    if Value(y) < Value(x) then y else x
  }

  lemma OneIsOne()
    ensures Value(One) == 1.0
  {
    assert [1][..0] == [];
  }

  /** The loop state after `position` iterations. */
  ghost predicate Written(ps: seq<real>, order: seq<nat>, adjusted: seq<Decimal>, position: nat)
    requires |adjusted| == |order| == |ps| && position <= |ps|
    requires forall k :: 0 <= k < |order| ==> order[k] < |ps|
  {
    forall k :: 0 <= k < position ==> Value(adjusted[order[k]]) == Min1(RunningMax(ps, order, k))
  }

  method StepDownLoop(hypotheses: seq<Hypothesis>) returns (adjusted: seq<Decimal>)
    requires hypotheses != []
    ensures |adjusted| == |hypotheses|
    ensures forall i :: 0 <= i < |hypotheses| ==> IsAdjusted(PValues(hypotheses), i, Value(adjusted[i]))
  {
    hide Multiple, Value, Power10, SortedOrder, ExactMultiple, Ascending;
    var m := |hypotheses|;
    ghost var ps := PValues(hypotheses);
    var order := SortedOrder(PValues(hypotheses), m);
    SortedOrderIsOrder(ps, m);
    OrderIsDistinct(ps, order);
    var slots := new Decimal[m](i => Decimal([0], 0));
    var runningMax: Option<Decimal> := None;
    OneIsOne();
    for position := 0 to m
      invariant runningMax.None? <==> position == 0
      invariant runningMax.Some? ==> Value(runningMax.value) == RunningMax(ps, order, position - 1)
      invariant Written(ps, order, slots[..], position)
    {
      var index := order[position];
      var product := ExactMultiple(hypotheses[index].pValue, m - position);
      ExactMultipleIsExact(hypotheses[index].pValue, m - position);
      assert Value(product) == Product(ps, order, position);
      runningMax := Some(if runningMax.None? then product else MaxDecimal(runningMax.value, product));
      assert Value(runningMax.value) == RunningMax(ps, order, position);
      slots[index] := MinDecimal(runningMax.value, One);
    }
    adjusted := slots[..];
    forall i | 0 <= i < m
      ensures IsAdjusted(ps, i, Value(adjusted[i]))
    {
      PositionExists(ps, order, i);
      var k :| 0 <= k < m && order[k] == i;
    }
  }

  method ApplyHolmCorrection(hypotheses: seq<Hypothesis>, level: real)
    returns (r: Result<seq<AdjustedHypothesis>, HolmError>)
    requires Probabilities(PValues(hypotheses))
    ensures r.Ok? <==> hypotheses != [] && !HasDuplicateId(hypotheses) && 0.0 < level < 1.0
    ensures r.Ok? ==> |r.value| == |hypotheses|
    ensures r.Ok? ==> forall i :: 0 <= i < |hypotheses| ==>
              && r.value[i].id == hypotheses[i].id
              && r.value[i].pValue == hypotheses[i].pValue
              && IsAdjusted(PValues(hypotheses), i, Value(r.value[i].adjusted))
              && Value(hypotheses[i].pValue) <= Value(r.value[i].adjusted) <= 1.0
              && (r.value[i].rejected <==> ClosedTestRejects(PValues(hypotheses), i, level))
  {
    hide Multiple, Value, ClosedTestRejects, IsAdjusted;
    if hypotheses == [] {
      return Err(EmptyFamily);
    }
    var firstIndex: map<string, nat> := map[];
    for index := 0 to |hypotheses|
      invariant forall id :: id in firstIndex ==> firstIndex[id] < index && hypotheses[firstIndex[id]].id == id
      invariant forall i :: 0 <= i < index ==> hypotheses[i].id in firstIndex
      invariant forall i, j :: 0 <= i < j < index ==> hypotheses[i].id != hypotheses[j].id
    {
      if hypotheses[index].id in firstIndex {
        return Err(DuplicateHypothesis);
      }
      firstIndex := firstIndex[hypotheses[index].id := index];
    }
    if !(0.0 < level < 1.0) {
      return Err(BadSignificanceLevel);
    }
    var adjusted := StepDownLoop(hypotheses);
    var out: seq<AdjustedHypothesis> := [];
    for i := 0 to |hypotheses|
      invariant |out| == i
      invariant forall k :: 0 <= k < i ==>
                  && out[k].id == hypotheses[k].id
                  && out[k].pValue == hypotheses[k].pValue
                  && out[k].adjusted == adjusted[k]
                  && Value(hypotheses[k].pValue) <= Value(adjusted[k]) <= 1.0
                  && (out[k].rejected <==> ClosedTestRejects(PValues(hypotheses), k, level))
    {
      var a := adjusted[i];
      HolmIsClosedBonferroni(PValues(hypotheses), i, Value(a), level);
      AdjustedInRange(PValues(hypotheses), i, Value(a));
      out := out + [AdjustedHypothesis(hypotheses[i].id, hypotheses[i].pValue, a, Value(a) <= level)];
    }
    return Ok(out);
  }
}
