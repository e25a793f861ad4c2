/** Finite sums of reals by prefix. */
module Sums {

  function Sum(xs: seq<real>, n: nat): real
    requires n <= |xs|
  {
    if n == 0 then 0.0 else Sum(xs, n - 1) + xs[n - 1]
  }

  function Total(xs: seq<real>): real {
    Sum(xs, |xs|)
  }

  lemma {:induction false} SumPrefix(xs: seq<real>, ys: seq<real>, n: nat)
    requires n <= |xs|
    ensures Sum(xs + ys, n) == Sum(xs, n)
  {
    if n != 0 {
      SumPrefix(xs, ys, n - 1);
    }
  }

  lemma {:induction false} SumConcat(xs: seq<real>, ys: seq<real>, n: nat)
    requires n <= |ys|
    ensures Sum(xs + ys, |xs| + n) == Total(xs) + Sum(ys, n)
  {
    if n == 0 {
      SumPrefix(xs, ys, |xs|);
    } else {
      SumConcat(xs, ys, n - 1);
    }
  }

  lemma TotalConcat(xs: seq<real>, ys: seq<real>)
    ensures Total(xs + ys) == Total(xs) + Total(ys)
  {
    SumConcat(xs, ys, |ys|);
  }
}
