/** Exact real arithmetic standing for `f32`: bounds, distances and the signs of products. */
module Reals {
  function Abs(x: real): real { if x < 0.0 then -x else x }

  function Distance(x: real, y: real): real { Abs(x - y) }

  function Clamp(x: real, lo: real, hi: real): real {
    if x < lo then lo else if x > hi then hi else x
  }

  function Max(x: real, y: real): real { if x < y then y else x }

  /** A product as one term, so that sign arguments need not expand it. */
  function Product(a: real, b: real): real { a * b }

  lemma ProductSign(a: real, b: real)
    ensures (a > 0.0 && b > 0.0) || (a < 0.0 && b < 0.0) ==> Product(a, b) > 0.0
    ensures (a >= 0.0 && b >= 0.0) || (a <= 0.0 && b <= 0.0) ==> Product(a, b) >= 0.0
    ensures Product(a, b) == 0.0 <==> a == 0.0 || b == 0.0
  {
  }

  lemma Quotient(a: real, h: real)
    requires h != 0.0
    ensures h * (a / h) == a
  {
  }

  lemma Cancel(k: real, a: real, b: real)
    requires k != 0.0 && k * a == k * b
    ensures a == b
  {
  }

  lemma ProductGrows(k: real, x: real, y: real)
    requires k >= 0.0 && x <= y
    ensures Product(k, x) <= Product(k, y)
  {
    assert Product(k, y - x) == Product(k, y) - Product(k, x);
    hide Product;
    ProductSign(k, y - x);
  }

  lemma ProductNegates(a: real, b: real)
    ensures Product(a, -b) == -Product(a, b) && Product(-a, b) == -Product(a, b)
  {
  }

  /** At any rate, a short enough time stays below a gap. */
  lemma SmallTime(gap: real, rate: real, most: real) returns (m: real)
    requires gap > 0.0 && most > 0.0
    ensures 0.0 < m <= most && Product(rate, m) < gap
  {
    if rate <= 0.0 {
      m := most;
      hide Product;
      ProductSign(-rate, m);
      ProductNegates(rate, m);
    } else {
      var q := gap / (2.0 * rate);
      Quotient(gap, 2.0 * rate);
      assert Product(rate, q) == gap / 2.0;
      m := if q < most then q else most;
      hide Product;
      ProductSign(rate, q);
      ProductSign(rate, -q);
      ProductNegates(rate, q);
      ProductGrows(rate, m, q);
    }
  }
}
