/** The arithmetic behind the Lehmer generator (random.h): powers of 16807 modulo 2^31 - 1. */
module Lehmer {
  import opened Arithmetic

  const M: nat := 2147483647
  const A: nat := 16807

  /** M - 1 is 2 * 3 * 3 * 7 * 11 * 31 * 151 * 331. */
  const N: nat := 2147483646

  const Factors: set<nat> := {2, 3, 7, 11, 31, 151, 331}

  function Times(x: nat, y: nat): (z: nat)
    ensures z < M
  {
    (x * y) % M
  }

  /** A to the k-th, modulo M. */
  function Power(k: nat): (p: nat)
    ensures p < M
  {
    if k == 0 then 1 else Times(Power(k - 1), A)
  }

  lemma TimesReduced(x: nat, y: nat)
    ensures Times(x % M, y) == Times(x, y)
  {
    var q, r := x / M, x % M;
    assert x == q * M + r;
    assert x * y == (q * y) * M + r * y by { assert (q * M + r) * y == (q * y) * M + r * y; }
    ModShift(q * y, r * y, M);
  }

  lemma Associative(x: nat, y: nat, z: nat)
    ensures Times(Times(x, y), z) == Times(x, Times(y, z))
  {
    TimesReduced(x * y, z);
    TimesReduced(y * z, x);
    assert (x * y) * z == (y * z) * x;
    assert x * Times(y, z) == Times(y, z) * x;
  }

  lemma Commutative(x: nat, y: nat)
    ensures Times(x, y) == Times(y, x)
  {
    assert x * y == y * x;
  }

  lemma Unit(x: nat)
    requires x < M
    ensures Times(x, 1) == x && Times(1, x) == x
  {
  }

  lemma {:induction false} PowerSum(i: nat, j: nat)
    ensures Power(i + j) == Times(Power(i), Power(j))
  {
    if j == 0 {
      Unit(Power(i));
    } else {
      var k := j - 1;
      PowerSum(i, k);
      assert i + j - 1 == i + k;
      Associative(Power(i), Power(k), A);
    }
  }
}
