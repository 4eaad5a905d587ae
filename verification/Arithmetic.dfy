/** Facts about remainders that the solver does not find on its own. */
module Arithmetic {
  lemma ProductAtLeast(d: int, n: int)
    requires n > 0 && d >= 1
    ensures d * n >= n
  {
    assert d * n == (d - 1) * n + n;
    assert (d - 1) * n >= 0;
  }

  /** A quotient and a remainder determine each other. */
  lemma RemainderUnique(a: int, q: int, r: int, n: int)
    requires n > 0 && a == q * n + r && 0 <= r < n
    ensures a % n == r
  {
    var d := q - a / n;
    assert a == n * (a / n) + a % n;
    assert d * n == q * n - (a / n) * n;
    if d >= 1 { ProductAtLeast(d, n); }
    if d <= -1 { ProductAtLeast(-d, n); }
  }

  lemma SmallRemainder(a: nat, n: nat)
    requires a < n
    ensures a % n == a
  {
    RemainderUnique(a, 0, a, n);
  }

  /** Going down by no more than the remainder goes down by as much in the remainder. */
  lemma RemainderBelow(a: nat, k: nat, n: nat)
    requires n > 0 && k <= a % n
    ensures a >= k && (a - k) % n == a % n - k
  {
    assert a == n * (a / n) + a % n;
    assert n * (a / n) >= 0;
    RemainderUnique(a - k, a / n, a % n - k, n);
  }

  lemma NoMultipleBetween(d: int, n: int)
    requires n > 0
    ensures d * n <= 0 || d * n >= n
  {
    if d >= 1 { ProductAtLeast(d, n); } else { ProductAtLeast(1 - d, n); }
  }

  /** Positions less than `n` apart have different remainders. */
  lemma RemaindersDiffer(a: nat, b: nat, n: nat)
    requires a < b < a + n
    ensures a % n != b % n
  {
    var d := b / n - a / n;
    assert a == n * (a / n) + a % n && b == n * (b / n) + b % n;
    assert b - a == d * n + (b % n - a % n);
    NoMultipleBetween(d, n);
  }

  lemma MultipleShift(a: nat, m: nat, n: nat)
    requires n > 0 && m % n == 0
    ensures (a + m) % n == a % n
  {
    assert m == n * (m / n) && a == n * (a / n) + a % n;
    assert a + m == (a / n + m / n) * n + a % n;
    RemainderUnique(a + m, a / n + m / n, a % n, n);
  }
}
