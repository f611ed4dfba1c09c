/** Quotients and remainders by a variable divisor. */
module Arithmetic {

  /** Division with remainder is unique. */
  lemma QuotientIs(i: int, n: nat, q: int, r: nat)
    requires n > 0 && r < n && i == q * n + r
    ensures i / n == q && i % n == r
  {
    var q', r' := i / n, i % n;
    assert i == q' * n + r';
    if q > q' {
      Scale(q' + 1, q, n);
    } else if q < q' {
      Scale(q + 1, q', n);
    }
  }

  lemma Scale(a: int, b: int, n: nat)
    requires a <= b
    ensures a * n <= b * n
  {
    assert (b - a) * n >= 0;
  }

  /** Counting on by one either stays in the block of n or starts the next. */
  lemma NextInBlock(i: nat, n: nat)
    requires n > 0
    ensures if i % n + 1 == n then (i + 1) / n == i / n + 1 && (i + 1) % n == 0
            else (i + 1) / n == i / n && (i + 1) % n == i % n + 1
  {
    var q, r := i / n, i % n;
    assert i == q * n + r;
    if r + 1 == n {
      assert i + 1 == (q + 1) * n;
      QuotientIs(i + 1, n, q + 1, 0);
    } else {
      QuotientIs(i + 1, n, q, r + 1);
    }
  }
}
