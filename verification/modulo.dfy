/** Remainders by a number that is not a constant. */
module Modulo {

  /** Between -n and n there is one multiple of n. */
  lemma SmallMultiple(q: int, n: int)
    requires n > 0 && -n < q * n < n
    ensures q == 0
  {
  }

  lemma ModIs(a: int, n: int, k: int, r: int)
    requires n > 0 && a == k * n + r && 0 <= r < n
    ensures a % n == r
  {
    var q, s := a / n, a % n;
    assert a == q * n + s;
    assert (q - k) * n == q * n - k * n == r - s;
    SmallMultiple(q - k, n);
  }

  lemma SameRemainder(a: int, b: int, n: int)
    requires n > 0 && a % n == b % n
    ensures exists e :: a - b == e * n
  {
    var q, s := a / n, b / n;
    assert a == q * n + a % n && b == s * n + b % n;
    assert a - b == (q - s) * n;
  }
}
