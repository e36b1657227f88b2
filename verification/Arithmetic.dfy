/** Division with remainder by a variable divisor. */
module Arithmetic {

  /** A nonzero multiple of `k` is at least as large as `k`. */
  lemma MultipleIsLarge(k: int, d: int)
    requires k > 0 && d != 0
    ensures k * d >= k || k * d <= -k
  {
  }

  lemma Quotient(n: int, k: int, q: int, r: int)
    requires k > 0 && n == k * q + r && 0 <= r < k
    ensures n / k == q && n % k == r
  {
    assert k * (n / k - q) == r - n % k;
    if n / k != q {
      MultipleIsLarge(k, n / k - q);
    }
  }

  lemma FloorStep(n: int, k: int)
    requires k > 0
    ensures (n + 1) / k == n / k + if (n + 1) % k == 0 then 1 else 0
    ensures (n + 1) % k == if n % k == k - 1 then 0 else n % k + 1
  {
    var q, r := n / k, n % k;
    assert n == k * q + r;
    if r + 1 == k {
      assert n + 1 == k * (q + 1);
      Quotient(n + 1, k, q + 1, 0);
    } else {
      Quotient(n + 1, k, q, r + 1);
    }
  }
}
