/** Facts about Euclidean division by a positive number, used by the
    models of wrapping cursors and periodic loops.
 */
module Arith {
  lemma MulAtLeast(n: int, d: int)
    requires n > 0 && d >= 1
    ensures n * d >= n
  {
    assert n * d == n * (d - 1) + n;
    if d > 1 {
      MulAtLeast(n, d - 1);
    }
  }

  /** A quotient and remainder with `0 <= r < n` are the ones of `x`. */
  lemma ModUnique(x: int, n: int, q: int, r: int)
    requires n > 0 && 0 <= r < n && x == n * q + r
    ensures x % n == r && x / n == q
  {
    var q', r' := x / n, x % n;
    assert n * (q - q') == r' - r;
    if q > q' {
      MulAtLeast(n, q - q');
    } else if q < q' {
      MulAtLeast(n, q' - q);
    }
  }

  /** Counting on by one wraps to 0 at `n`. */
  lemma ModNext(k: nat, n: nat)
    requires n > 0
    ensures (k + 1) % n == if k % n + 1 == n then 0 else k % n + 1
  {
    var q, r := k / n, k % n;
    if r + 1 < n {
      ModUnique(k + 1, n, q, r + 1);
    } else {
      ModUnique(k + 1, n, q + 1, 0);
    }
  }

  /** Taking away one period leaves the remainder as it is. */
  lemma ModSub(m: nat, c: nat)
    requires 0 < c <= m
    ensures (m - c) % c == m % c
  {
    ModUnique(m - c, c, m / c - 1, m % c);
  }
}
