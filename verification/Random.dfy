/** The Lehmer generator (random.h): one step is a multiplication by 16807 modulo 2^31 - 1, and from any
    seed the generator goes through every number from 1 to 2^31 - 2 before it returns. */
module RandomNumbers {
  import opened Arithmetic
  import opened Counting
  import opened Divisibility
  import opened Lehmer
  import LehmerCertificate

  // ---------- The order of 16807 ----------

  lemma {:induction false} PowerMultiple(a: nat, k: nat)
    requires Power(a) == 1
    ensures Power(a * k) == 1
  {
    if k == 0 {
      assert a * 0 == 0;
    } else {
      var j := k - 1;
      PowerMultiple(a, j);
      PowerSum(a * j, a);
      assert a * k == a * j + a;
    }
  }

  lemma RemainderOf(b: nat, q: nat, r: nat)
    requires Power(b) == 1 && Power(b * q + r) == 1
    ensures Power(r) == 1
  {
    hide Power, Times;
    PowerMultiple(b, q);
    PowerSum(b * q, r);
    Unit(Power(r));
  }

  lemma PowerRemainder(a: nat, b: nat)
    requires b > 0 && Power(a) == 1 && Power(b) == 1
    ensures Power(a % b) == 1
  {
    hide Power;
    assert a == b * (a / b) + a % b;
    RemainderOf(b, a / b, a % b);
  }

  lemma {:induction false} PowerGcd(a: nat, b: nat)
    requires Power(a) == 1 && Power(b) == 1
    ensures Power(Gcd(a, b)) == 1
    decreases b
  {
    if b > 0 {
      PowerRemainder(a, b);
      PowerGcd(b, a % b);
    }
  }

  const PRIMES: seq<nat> := [2, 3, 3, 7, 11, 31, 151, 331]

  lemma NoProduct(d: nat, e: nat)
    requires 2 <= d <= e
    ensures d * e !in PRIMES
  {
    if d >= 19 {
      assert d * e >= 19 * e;
    } else {
      assert d == 2 || d == 3 || d == 4 || d == 5 || d == 6 || d == 7 || d == 8 || d == 9 || d == 10
             || d == 11 || d == 12 || d == 13 || d == 14 || d == 15 || d == 16 || d == 17 || d == 18;
    }
  }

  lemma PrimesArePrime(q: nat)
    requires q in PRIMES
    ensures Prime(q)
  {
    forall d: nat | Divides(d, q) && d != 1 ensures d == q {
      var k :| q == d * k;
      Multiple(k, d);
      if k >= 2 && d >= 2 {
        assert d * k == k * d;
        if d <= k {
          NoProduct(d, k);
        } else {
          NoProduct(k, d);
        }
      }
    }
  }

  lemma ProductOfPrimes()
    ensures Product(PRIMES) == N
  {
    assert PRIMES[1..] == [3, 3, 7, 11, 31, 151, 331];
    assert PRIMES[1..][1..] == [3, 7, 11, 31, 151, 331];
    assert Product([331]) == 331;
    assert [151, 331][1..] == [331];
    assert Product([151, 331]) == 49981;
    assert [31, 151, 331][1..] == [151, 331];
    assert Product([31, 151, 331]) == 1549411;
    assert [11, 31, 151, 331][1..] == [31, 151, 331];
    assert Product([11, 31, 151, 331]) == 17043521;
    assert [7, 11, 31, 151, 331][1..] == [11, 31, 151, 331];
    assert Product([7, 11, 31, 151, 331]) == 119304647;
    assert [3, 7, 11, 31, 151, 331][1..] == [7, 11, 31, 151, 331];
  }

  /** The powers of 16807 that are one are those whose exponent is a multiple of N. */
  lemma Order(d: nat)
    ensures Power(d) == 1 <==> Divides(N, d)
  {
    LehmerCertificate.Generator();
    if Power(d) == 1 {
      var g := Gcd(d, N);
      PowerGcd(d, N);
      GcdDivides(d, N);
      ProductOfPrimes();
      forall q | q in PRIMES ensures Prime(q) { PrimesArePrime(q); }
      ProperDivisor(1, g, PRIMES);
      if g != N {
        var q :| q in PRIMES && DividesWithout(1 * g, 1 * Product(PRIMES), q);
        NotWithout(g, q);
      }
    } else if Divides(N, d) {
      var k :| d == N * k;
      Multiple(k, N);
      PowerMultiple(N, if k < 0 then 0 else k);
    }
  }

  lemma PowerDivides(g: nat, m: nat)
    requires Power(g) == 1 && Divides(g, m)
    ensures Power(m) == 1
  {
    var k :| m == g * k;
    Multiple(k, g);
    PowerMultiple(g, if k < 0 then 0 else k);
  }

  lemma NotWithout(g: nat, q: nat)
    requires Power(g) == 1 && q in PRIMES
    ensures !DividesWithout(g, N, q)
  {
    hide Power, Divides;
    LehmerCertificate.Generator();
    if DividesWithout(g, N, q) {
      var m: nat :| N == q * m && Divides(g, m);
      Quotient(N, q, m);
      PowerDivides(g, m);
    }
  }

  // ---------- The sequence of numbers ----------

  /** The generator's state after k calls of Next. */
  function After(seed: nat, k: nat): nat {
    if k == 0 then seed else Times(After(seed, k - 1), A)
  }

  lemma {:induction false} AfterIs(seed: nat, k: nat)
    requires seed < M
    ensures After(seed, k) == Times(seed, Power(k))
  {
    if k == 0 {
      Unit(seed);
    } else {
      AfterIs(seed, k - 1);
      Associative(seed, Power(k - 1), A);
    }
  }

  /** The inverse of 16807. */
  const INVERSE: nat := 1407677000

  lemma InverseOfA()
    ensures Times(A, INVERSE) == 1 && Times(INVERSE, A) == 1
  {
    ModUnique(11016, 1, M);
  }

  lemma StepBack(seed: nat)
    requires seed < M
    ensures Times(Times(seed, A), INVERSE) == seed && Times(Times(seed, INVERSE), A) == seed
  {
    InverseOfA();
    Associative(seed, A, INVERSE);
    Associative(seed, INVERSE, A);
    Unit(seed);
  }

  /** The step is a bijection on the numbers from 1 to M - 1: every one has exactly one predecessor. */
  lemma StepIsBijection(x: nat, y: nat)
    requires 0 < x < M && 0 < y < M
    ensures 0 < Times(x, A) < M
    ensures 0 < Times(y, INVERSE) < M && Times(Times(y, INVERSE), A) == y
    ensures Times(x, A) == y <==> x == Times(y, INVERSE)
  {
    StepBack(x);
    StepBack(y);
    assert Times(0, INVERSE) == 0 && Times(0, A) == 0;
  }

  lemma {:induction false} PowerNotZero(k: nat)
    ensures Power(k) > 0
  {
    if k > 0 {
      PowerNotZero(k - 1);
      StepIsBijection(Power(k - 1), 1);
    }
  }

  /** Powers can be cancelled. */
  lemma {:induction false} Cancel(i: nat, x: nat, y: nat)
    requires x < M && y < M && Times(x, Power(i)) == Times(y, Power(i))
    ensures x == y
  {
    if i == 0 {
      Unit(x);
      Unit(y);
    } else {
      Associative(x, Power(i - 1), A);
      Associative(y, Power(i - 1), A);
      StepBack(Times(x, Power(i - 1)));
      StepBack(Times(y, Power(i - 1)));
      Cancel(i - 1, x, y);
    }
  }

  /** Different exponents below N give different powers. */
  lemma PowersDiffer(i: nat, j: nat)
    requires i < j < N
    ensures Power(i) != Power(j)
  {
    if Power(i) == Power(j) {
      PowerSum(i, j - i);
      Commutative(Power(i), Power(j - i));
      Unit(Power(i));
      Cancel(i, 1, Power(j - i));
      Order(j - i);
      TooSmall(j - i);
    }
  }

  lemma TooSmall(d: nat)
    requires 0 < d < N
    ensures !Divides(N, d)
  {
    if Divides(N, d) {
      var k :| d == N * k;
      Multiple(k, N);
    }
  }

  predicate AmongPowers(x: nat, k: nat) {
    exists i: nat :: i < k && Power(i) == x
  }

  /** The first k powers of 16807 are k different numbers. */
  lemma {:induction false} FirstPowers(k: nat) returns (seen: set<nat>)
    requires k <= N
    ensures |seen| == k && forall x :: x in seen ==> 0 < x < M && AmongPowers(x, k)
  {
    if k == 0 {
      seen := {};
    } else {
      var last := k - 1;
      var before := FirstPowers(last);
      PowerNotZero(last);
      forall i: nat | i < last ensures Power(i) != Power(last) {
        PowersDiffer(i, last);
      }
      hide Power;
      assert !AmongPowers(Power(last), last);
      seen := before + {Power(last)};
      forall x | x in seen ensures AmongPowers(x, k) {
        if x != Power(last) {
          assert AmongPowers(x, last);
        }
      }
    }
  }

  /** Every number from 1 to M - 1 is a power of 16807. */
  lemma EveryNumberIsAPower(x: nat) returns (k: nat)
    requires 0 < x < M
    ensures k < N && Power(k) == x
  {
    var seen := FirstPowers(N);
    var all := OneTo(N);
    SubsetSize(seen, all);
    assert AmongPowers(x, N);
    k :| k < N && Power(k) == x;
  }

  /** From any seed the generator reaches every number from 1 to M - 1 within N calls. */
  lemma CyclesThroughEveryNumber(seed: nat, y: nat) returns (k: nat)
    requires 0 < seed < M && 0 < y < M
    ensures k < N && After(seed, k) == y
  {
    var i := EveryNumberIsAPower(seed);
    var j := EveryNumberIsAPower(y);
    k := if j >= i then j - i else j - i + N;
    PowerSum(i, k);
    if j < i {
      LehmerCertificate.Generator();
      PowerSum(j, N);
      Unit(Power(j));
    }
    AfterIs(seed, k);
  }

  /** And it comes back to its seed after N calls, and not before. */
  lemma ReturnsToSeed(seed: nat, k: nat)
    requires 0 < seed < M
    ensures After(seed, k) == seed <==> Divides(N, k)
  {
    AfterIs(seed, k);
    Order(k);
    Unit(seed);
    var i := EveryNumberIsAPower(seed);
    if After(seed, k) == seed {
      Commutative(Power(i), Power(k));
      Cancel(i, Power(k), 1);
    }
  }

  // ---------- The fast reduction ----------

  /** The two halves of the product, added up: at most one subtraction short of the remainder. */
  lemma Fold(seed: nat)
    requires 0 < seed < M
    ensures var p := seed * A; var x := p / 0x8000_0000 + p % 0x8000_0000;
            && p <= 0xFFFF_FFFF_FFFF_FFFF && x <= 0xFFFF_FFFF && x != M
            && Times(seed, A) == if x > M then x - M else x
  {
    var p := seed * A;
    var h, l := p / 0x8000_0000, p % 0x8000_0000;
    assert p == h * M + (h + l);
    ModShift(h, h + l, M);
    StepIsBijection(seed, 1);
    if h + l > M {
      ModUnique(1, h + l - M, M);
    }
  }

  class Random {
    var seed: nat

    ghost predicate Valid()
      reads this
    {
      0 < seed < M
    }

    /** Seeds are words; those that would never change are replaced. */
    constructor (s: nat)
      requires s <= 0xFFFF_FFFF
      ensures Valid()
      ensures seed == if s % 0x8000_0000 == 0 || s % 0x8000_0000 == M then 1 else s % 0x8000_0000
    {
      seed := s % 0x8000_0000;
      if s % 0x8000_0000 == 0 || s % 0x8000_0000 == M {
        seed := 1;
      }
    }

    /** One step. The product fits into 64 bits, and its two halves together into 32. */
    method Next() returns (r: nat)
      requires Valid()
      modifies this
      ensures Valid() && r == seed == After(old(seed), 1)
    {
      Fold(seed);
      StepIsBijection(seed, 1);
      var product := seed * A;
      assert product <= 0xFFFF_FFFF_FFFF_FFFF;
      var folded := product / 0x8000_0000 + product % 0x8000_0000;
      assert folded <= 0xFFFF_FFFF;
      seed := folded;
      if seed > M {
        seed := seed - M;
      }
      r := seed;
    }
  }
}
