// Small facts of arithmetic that several proofs share.

module Arithmetic {
  lemma ProductsAreMonotone(a: int, b: int, c: int)
    requires a <= b && 0 <= c
    ensures c * a <= c * b
  {
  }

  lemma QuotientsAreMonotone(x: int, y: int, d: int)
    requires x <= y && d > 0
    ensures x / d <= y / d
  {
    var q, p := x / d, y / d;
    assert d * q <= x && y < d * p + d;
    if p < q {
      ProductsAreMonotone(p + 1, q, d);
      assert false;
    }
  }

  lemma PositiveScale(x: real, y: real, c: real)
    requires c > 0.0
    ensures x >= y <==> x * c >= y * c
  {
    assert x >= y ==> (x - y) * c >= 0.0;
    assert x < y ==> (y - x) * c > 0.0;
  }

  /** `x` added up `n` times. */
  function Times(n: nat, x: real): real {
    if n == 0 then 0.0 else Times(n - 1, x) + x
  }

  lemma {:induction false} TimesIsProduct(n: nat, x: real)
    ensures Times(n, x) == n as real * x
  {
    if n > 0 {
      TimesIsProduct(n - 1, x);
      assert n as real * x == (n - 1) as real * x + x;
    }
  }

  lemma {:induction false} TimesAdds(n: nat, x: real, y: real)
    ensures Times(n, x + y) == Times(n, x) + Times(n, y)
  {
    if n > 0 {
      TimesAdds(n - 1, x, y);
    }
  }
}
