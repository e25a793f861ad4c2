/** Named real operations, and product and quotient facts, each stated once so that larger
    proofs stay linear. */
module ProductFacts {

  /** A product under a name, so that a proof can keep it uninterpreted. */
  function Times(x: real, y: real): real {
    x * y
  }

  function Abs(x: real): real {
    if x < 0.0 then -x else x
  }

  function Square(x: real): (r: real)
    ensures r >= 0.0
  {
    SquareNonNegative(x);
    x * x
  }

  lemma ProductPositive(x: real, y: real)
    requires x > 0.0 && y > 0.0
    ensures x * y > 0.0
  {
  }

  lemma ProductNonNegative(x: real, y: real)
    requires x >= 0.0 && y >= 0.0
    ensures x * y >= 0.0
  {
  }

  lemma ProductMonotone(k: real, x: real, y: real)
    requires k >= 0.0 && x <= y
    ensures k * x <= k * y
  {
    ProductNonNegative(k, y - x);
    assert k * (y - x) == k * y - k * x;
  }

  /** A product keeps the sign of one factor when the other is positive. */
  lemma ProductSign(k: real, x: real)
    requires k > 0.0
    ensures k * x > 0.0 <==> x > 0.0
    ensures k * x < 0.0 <==> x < 0.0
    ensures k * x == 0.0 <==> x == 0.0
  {
    if x > 0.0 {
      ProductPositive(k, x);
    } else if x < 0.0 {
      ProductPositive(k, -x);
      assert k * (-x) == -(k * x);
    }
  }

  lemma ProductNonZero(x: real, y: real)
    ensures x * y == 0.0 <==> x == 0.0 || y == 0.0
  {
    if x > 0.0 {
      ProductSign(x, y);
    } else if x < 0.0 {
      ProductSign(-x, y);
      assert (-x) * y == -(x * y);
    }
  }

  lemma SquareNonNegative(x: real)
    ensures x * x >= 0.0
    ensures x * x == 0.0 <==> x == 0.0
  {
    ProductNonZero(x, x);
    if x < 0.0 {
      ProductPositive(-x, -x);
      assert (-x) * (-x) == x * x;
    } else {
      ProductNonNegative(x, x);
    }
  }

  lemma Distribute(k: real, x: real, y: real)
    ensures k * (x + y) == k * x + k * y
  {
  }

  lemma QuotientProduct(x: real, n: real)
    requires n != 0.0
    ensures x / n * n == x
    ensures x * n / n == x
  {
  }

  lemma {:induction false} CastProduct(a: nat, b: nat)
    ensures (a * b) as real == a as real * b as real
  {
    if b != 0 {
      CastProduct(a, b - 1);
      assert a * b == a * (b - 1) + a;
      assert a as real * b as real == a as real * (b - 1) as real + a as real;
    }
  }

  lemma IntegerProductMonotone(x: int, y: int, d: int)
    requires x <= y && d >= 0
    ensures x * d <= y * d
  {
    assert (y - x) * d >= 0;
    assert (y - x) * d == y * d - x * d;
  }
}
