/** Divisors, greatest common divisors, and the prime factors of 2^31 - 2. */
module Divisibility {
  import opened Arithmetic

  ghost predicate Divides(d: nat, n: int) {
    exists k: int :: n == d * k
  }

  lemma DividesSum(d: nat, m: int, n: int)
    requires Divides(d, m) && Divides(d, n)
    ensures Divides(d, m + n)
  {
    var i, k :| m == d * i && n == d * k;
    assert m + n == d * (i + k);
  }

  lemma DividesMultiple(d: nat, m: int, x: int)
    requires Divides(d, m)
    ensures Divides(d, x * m)
  {
    var i :| m == d * i;
    assert x * m == d * (x * i);
  }

  function Gcd(a: nat, b: nat): nat
    decreases b
  {
    if b == 0 then a else Gcd(b, a % b)
  }

  lemma {:induction false} GcdDivides(a: nat, b: nat)
    ensures Divides(Gcd(a, b), a) && Divides(Gcd(a, b), b)
    decreases b
  {
    if b == 0 {
      assert a == a * 1 && b == a * 0;
    } else {
      GcdDivides(b, a % b);
      DividesMultiple(Gcd(a, b), b, a / b);
      DividesSum(Gcd(a, b), (a / b) * b, a % b);
    }
  }

  lemma Combined(q: int, b: int, r: int, u: int, v: int)
    ensures v * (q * b + r) + (u - v * q) * b == u * b + v * r
  {
    var x := q * b;
    assert v * (x + r) == v * x + v * r;
    assert (u - v * q) * b == u * b - (v * q) * b;
    assert (v * q) * b == v * x;
  }

  /** The greatest common divisor is a combination of the two numbers. */
  lemma {:induction false} Bezout(a: nat, b: nat) returns (u: int, v: int)
    ensures u * a + v * b == Gcd(a, b)
    decreases b
  {
    if b == 0 {
      u, v := 1, 0;
    } else {
      var u', v' := Bezout(b, a % b);
      u, v := v', u' - v' * (a / b);
      Combined(a / b, b, a % b, u', v');
    }
  }

  ghost predicate Prime(q: nat) {
    q > 1 && forall d: nat :: Divides(d, q) ==> d == 1 || d == q
  }

  /** A number that divides q * n, but is not divisible by the prime q, divides n. */
  lemma Gauss(a: nat, q: nat, n: nat)
    requires Prime(q) && Divides(a, q * n) && !Divides(q, a)
    ensures Divides(a, n)
  {
    GcdDivides(a, q);
    var u, v := Bezout(a, q);
    assert Gcd(a, q) == 1;
    var k :| q * n == a * k;
    assert n == (u * a + v * q) * n == a * (u * n) + v * (q * n);
    assert n == a * (u * n + v * k);
  }

  function Product(ps: seq<nat>): nat {
    if ps == [] then 1 else ps[0] * Product(ps[1..])
  }

  lemma Quotient(n: nat, q: nat, m: nat)
    requires q > 0 && n == q * m
    ensures n / q == m
  {
    assert m * q + 0 == n;
    ModUnique(m, 0, q);
  }

  /** d divides n / q, where q divides n. */
  ghost predicate DividesWithout(d: nat, n: nat, q: nat) {
    exists m: nat :: n == q * m && Divides(d, m)
  }

  lemma Associate(x: int, y: int, z: int)
    ensures (x * y) * z == x * (y * z) && y * (x * z) == x * (y * z)
  {
  }

  lemma WithoutThis(taken: nat, a: nat, q: nat, n: nat)
    requires Divides(a, n)
    ensures DividesWithout(taken * a, taken * (q * n), q)
  {
    DividesScaled(taken, a, n);
    Associate(taken, q, n);
    assert taken * (q * n) == q * (taken * n);
  }

  /** What divides a product of primes is that product itself, or divides it without one of the primes.
      `taken` is the product of the primes that have been found in the divisor already. */
  lemma {:induction false} ProperDivisor(taken: nat, a: nat, ps: seq<nat>)
    requires forall q :: q in ps ==> Prime(q)
    requires Divides(a, Product(ps))
    ensures a == Product(ps) || exists q :: q in ps && DividesWithout(taken * a, taken * Product(ps), q)
    decreases ps
  {
    if ps == [] {
      UnitDivisor(a);
    } else {
      var q, rest := ps[0], ps[1..];
      assert q in ps && q > 0 && forall p :: p in rest ==> p in ps;
      hide Prime, Divides, DividesWithout;
      if Divides(q, a) {
        var a' := CancelPrime(q, a, Product(rest));
        ProperDivisor(taken * q, a', rest);
        Associate(taken, q, a');
        Associate(taken, q, Product(rest));
      } else {
        Gauss(a, q, Product(rest));
        WithoutThis(taken, a, q, Product(rest));
      }
    }
  }

  lemma UnitDivisor(a: nat)
    requires Divides(a, 1)
    ensures a == 1
  {
    var k :| 1 == a * k;
    Multiple(k, a);
  }

  lemma CancelPrime(q: nat, a: nat, n: nat) returns (a': nat)
    requires q > 0 && Divides(q, a) && Divides(a, q * n)
    ensures a == q * a' && Divides(a', n)
  {
    var i :| a == q * i;
    var k :| q * n == a * k;
    if i < 0 {
      Multiple(i, q);
    }
    a' := i;
    assert q * n == q * (a' * k);
    Quotient(q * n, q, n);
    ModUnique(a' * k, 0, q);
    assert n == a' * k;
  }

  lemma DividesScaled(c: nat, d: nat, n: int)
    requires Divides(d, n)
    ensures Divides(c * d, c * n)
  {
    var k :| n == d * k;
    assert c * n == (c * d) * k;
  }
}
