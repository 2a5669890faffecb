/**
  Integer division facts the time arithmetic relies on. Dafny's `/` and `%`
  are Euclidean, which for the positive divisors used here is the same as
  JavaScript's `Math.floor(x / k)` and, for non-negative `x`, `x % k`.
 */
module Arith {

  /** A multiple of a positive number by a non-zero whole number is at least that number away from zero. */
  lemma MulSign(d: int, k: int)
    requires d > 0
    ensures k >= 1 ==> d * k >= d
    ensures k <= -1 ==> d * k <= -d
  {
    assert d * k == d * (k - 1) + d;
    assert d * k == d * (k + 1) - d;
  }

  /** Quotient and remainder are the `q` and `r` of any decomposition `x = q * k + r` with `0 <= r < k`. */
  lemma DivModUnique(x: int, q: int, k: int, r: int)
    requires k > 0 && 0 <= r < k && x == q * k + r
    ensures x / k == q && x % k == r
  {
    var q', r' := x / k, x % k;
    assert k * (q - q') == r' - r;
    MulSign(k, q - q');
  }

  /** `Math.floor(Math.floor(x / a) / b)` is `Math.floor(x / (a * b))` for positive divisors. */
  lemma NestedFloor(x: int, a: int, b: int)
    requires a > 0 && b > 0
    ensures (x / a) / b == x / (a * b)
  {
    var q, r := x / a, x % a;
    var h, s := q / b, q % b;
    assert x == a * q + r;
    assert q == b * h + s;
    Regroup(a, b, h, s);
    assert x == h * (a * b) + (a * s + r);
    Below(a, b, s);
    DivModUnique(x, h, a * b, a * s + r);
  }

  lemma Regroup(a: int, b: int, h: int, s: int)
    ensures a * (b * h + s) == h * (a * b) + a * s
  {
  }

  lemma Below(a: int, b: int, s: int)
    requires a > 0 && 0 <= s < b
    ensures 0 <= a * s <= a * b - a
  {
    MulNonneg(a, s);
    MulNonneg(a, b - 1 - s);
    assert a * (b - 1 - s) == a * b - a - a * s;
  }

  lemma {:induction false} MulNonneg(x: int, y: int)
    requires x >= 0 && y >= 0
    ensures x * y >= 0
    decreases y
  {
    if y > 0 {
      MulNonneg(x, y - 1);
      assert x * y == x * (y - 1) + x;
    }
  }
}
