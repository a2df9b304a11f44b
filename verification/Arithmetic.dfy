/** Facts about products and quotients of integers that the solver needs one at a time. */
module Arithmetic {

  lemma MulKeepsOrder(x: int, y: int, b: int)
    requires x <= y && 0 <= b
    ensures x * b <= y * b
  {
  }

  lemma CancelFactor(x: int, y: int, b: int)
    requires 0 < b && x * b <= y * b
    ensures x <= y
  {
  }

  lemma CancelStrictly(x: int, y: int, b: int)
    requires 0 < b && x * b < y * b
    ensures x < y
  {
  }

  /** The quotient of `a` by `b` is the one `q` with `q * b <= a < (q + 1) * b`. */
  lemma QuotientIs(a: int, b: int, q: int)
    requires 0 < b && q * b <= a < (q + 1) * b
    ensures a / b == q
  {
    var d := a / b;
    assert d * b <= a < (d + 1) * b;
    CancelStrictly(q, d + 1, b);
    CancelStrictly(d, q + 1, b);
  }

  lemma QuotientKeepsOrder(x: int, y: int, b: int)
    requires 0 < b && x <= y
    ensures x / b <= y / b
  {
    assert (x / b) * b <= x && y < (y / b + 1) * b;
    CancelStrictly(x / b, y / b + 1, b);
  }

  lemma Rearranged(v: int, r: int, b': int, r': int, b: int)
    requires r * b' == r' * b
    ensures (v * r) * b' == (v * r') * b
  {
  }

  lemma Swapped(x: int, y: int, z: int)
    ensures (x * y) * z == (x * z) * y
  {
  }

  /** One rate written as two fractions gives the same rounded-down share of `v`. */
  lemma SameRateSamePrice(v: nat, r: nat, b: nat, r': nat, b': nat)
    requires 0 < b && 0 < b' && r * b' == r' * b
    ensures (v * r) / b == (v * r') / b'
  {
    var q := (v * r) / b;
    Rearranged(v, r, b', r', b);
    MulKeepsOrder(q * b, v * r, b');
    Swapped(q, b, b');
    CancelFactor(q * b', v * r', b);
    assert v * r < (q + 1) * b;
    ScaledStrictly(v * r, (q + 1) * b, b');
    Swapped(q + 1, b, b');
    CancelStrictly(v * r', (q + 1) * b', b);
    QuotientIs(v * r', b', q);
  }

  lemma ScaledStrictly(x: int, y: int, b: int)
    requires x < y && 0 < b
    ensures x * b < y * b
  {
  }

  /** Taking a whole multiple of the divisor off the dividend takes the factor off the quotient. */
  lemma QuotientLess(a: int, b: int, r: int)
    requires 0 < b
    ensures (a - r * b) / b == a / b - r
  {
    var q := a / b;
    assert (q - r) * b == q * b - r * b;
    assert (q - r + 1) * b == (q + 1) * b - r * b;
    QuotientIs(a - r * b, b, q - r);
  }

  lemma DivisionSplits(a: nat, b: nat)
    requires 0 < b
    ensures 0 <= a / b && a == (a / b) * b + a % b && 0 <= a % b < b
  {
  }

  lemma TenTimes(v: int, k: int)
    ensures v * (10 * k) == (v * k) * 10
  {
  }
}
