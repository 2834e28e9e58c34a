/** The little division arithmetic the models need. */
module Arith {

  lemma MulAtLeast(k: int, m: int)
    requires 1 <= k && 0 < m
    ensures m <= k * m
  {
    assert k * m == m + (k - 1) * m;
    assert 0 <= (k - 1) * m;
  }

  /** Quotient and remainder are unique. */
  lemma DivModUnique(x: int, q: int, r: int, m: int)
    requires 0 < m && 0 <= r < m && x == q * m + r
    ensures x / m == q && x % m == r
  {
    var q', r' := x / m, x % m;
    assert x == q' * m + r';
    assert (q' - q) * m == r - r';
    if q' > q {
      MulAtLeast(q' - q, m);
    } else if q > q' {
      assert (q - q') * m == r' - r;
      MulAtLeast(q - q', m);
    }
  }

  lemma ModAddMultiple(x: int, k: int, m: int)
    requires 0 < m
    ensures (x + k * m) % m == x % m
    ensures (x + k * m) / m == x / m + k
  {
    assert x + k * m == (x / m + k) * m + x % m by {
      assert (x / m + k) * m == x / m * m + k * m;
    }
    DivModUnique(x + k * m, x / m + k, x % m, m);
  }

  /** Reducing one addend first does not change a sum modulo m. */
  lemma ModShift(a: int, b: int, m: int)
    requires 0 < m
    ensures (a % m + b) % m == (a + b) % m
  {
    ModAddMultiple(a % m + b, a / m, m);
    assert a % m + b + a / m * m == a + b;
  }

  /** Numbers less than m apart have different remainders. */
  lemma ModDiffer(a: int, b: int, m: int)
    requires 0 < m && 0 < b - a < m
    ensures a % m != b % m
  {
    var q := b / m - a / m;
    if a % m == b % m {
      assert q * m == b - a;
      if q >= 1 { MulAtLeast(q, m); }
    }
  }

  lemma PositiveFactor(x: int, n: int)
    requires 0 < n && 0 < x * n
    ensures 1 <= x
  {
  }
}
