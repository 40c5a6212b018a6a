/** Facts about multiples, quotients and remainders that the solver does not find by itself. */
module Arithmetic {

  function Min(a: int, b: int): int { if a < b then a else b }

  /** A multiple of n that is not zero is at least n away from zero. */
  lemma Multiple(d: int, n: nat)
    ensures d >= 1 ==> d * n >= n
    ensures d <= -1 ==> d * n <= 0 - n
  {
    if d >= 1 {
      assert (d - 1) * n >= 0;
    } else if d <= -1 {
      assert (d + 1) * n <= 0;
    }
  }

  /** Quotient and remainder are unique. */
  lemma ModUnique(q: int, r: int, n: int)
    requires n > 0 && 0 <= r < n
    ensures (q * n + r) % n == r && (q * n + r) / n == q
  {
    var x := q * n + r;
    var d := x / n - q;
    assert d * n == r - x % n by {
      assert x == (x / n) * n + x % n;
    }
    Multiple(d, n);
  }

  lemma ModFacts(x: nat, n: int)
    requires n > 0
    ensures 0 <= x % n < n && x % n <= x
    ensures x < n ==> x % n == x && x / n == 0
  {
    if x < n {
      ModUnique(0, x, n);
    }
  }

  lemma HalfModOf(x: int, k: int, e: int, r: int, n: int)
    requires n > 0 && 0 <= r < n && 0 <= e <= 1 && x == (2 * k + e) * n + r
    ensures x % (2 * n) == if e == 0 then r else n + r
  {
    assert x == k * (2 * n) + (e * n + r) by {
      assert (2 * k + e) * n == k * (2 * n) + e * n;
    }
    ModUnique(k, if e == 0 then r else n + r, 2 * n);
  }

  lemma HalfMod(x: nat, n: int)
    requires n > 0
    ensures x % (2 * n) == if (x / n) % 2 == 0 then x % n else n + x % n
  {
    var q := x / n;
    HalfModOf(x, q / 2, q % 2, x % n, n);
  }

  lemma ModShift(k: int, y: int, n: int)
    requires n > 0
    ensures (k * n + y) % n == y % n
  {
    assert y == (y / n) * n + y % n;
    assert k * n + y == (k + y / n) * n + y % n by {
      assert (k + y / n) * n == k * n + (y / n) * n;
    }
    ModUnique(k + y / n, y % n, n);
  }
}
