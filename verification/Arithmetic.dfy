/** Facts about products and rounded-up quotients. */
module Arithmetic {

  lemma Distribute(n: int, c: int)
    ensures (n + 1) * c == n * c + c
  {
  }

  lemma TimesMonotone(a: int, b: int, c: int)
    requires a <= b && 0 <= c
    ensures a * c <= b * c
  {
  }

  /** `n` pieces of size `c` reach `total` and `n - 1` do not: `n` is the rounded-up quotient. */
  lemma CeilingIs(total: int, c: int, n: int)
    requires c > 0 && total <= n * c < total + c
    ensures n == (total + c - 1) / c
  {
    var q := (total + c - 1) / c;
    if n < q {
      TimesMonotone(n + 1, q, c);
    } else if n > q {
      TimesMonotone(q + 1, n, c);
    }
  }

  lemma CeilingReaches(total: int, c: int, n: int)
    requires c > 0 && total >= 0 && n == (total + c - 1) / c
    ensures 0 <= n && total <= n * c
  {
  }

  lemma BelowCeiling(total: int, c: int, i: int)
    requires c > 0 && total >= 0 && 0 <= i < (total + c - 1) / c
    ensures i * c < total
  {
    TimesMonotone(i + 1, (total + c - 1) / c, c);
    Distribute(i, c);
  }

  lemma CeilingAtMostOne(total: int, c: int)
    requires c > 0 && total >= 0
    ensures (total + c - 1) / c <= 1 <==> total <= c
  {
    var q := (total + c - 1) / c;
    CeilingReaches(total, c, q);
    if q <= 1 {
      TimesMonotone(q, 1, c);
    } else {
      BelowCeiling(total, c, 1);
    }
  }

  lemma RemainderIs(q: int, c: int, r: int)
    requires 0 <= r < c
    ensures (q * c + r) % c == r
  {
    var x := q * c + r;
    if x / c < q {
      TimesMonotone(x / c + 1, q, c);
    } else if x / c > q {
      TimesMonotone(q + 1, x / c, c);
    }
    assert x / c == q;
  }
}
