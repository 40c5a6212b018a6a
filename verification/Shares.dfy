/** Dividing the numbers below a total among weights: share i is as many consecutive numbers as weight i. */
module Shares {

  function Total(w: seq<nat>): nat {
    if w == [] then 0 else Total(w[..|w| - 1]) + w[|w| - 1]
  }

  function Before(w: seq<nat>, i: nat): nat
    requires i <= |w|
  {
    Total(w[..i])
  }

  /** The number `x` is in share `i`. */
  predicate Falls(w: seq<nat>, i: nat, x: int) {
    i < |w| && Before(w, i) <= x < Before(w, i) + w[i]
  }

  lemma TotalAppend(w: seq<nat>, x: nat)
    ensures Total(w + [x]) == Total(w) + x
  {
    assert (w + [x])[..|w|] == w;
  }

  lemma BeforeNext(w: seq<nat>, i: nat)
    requires i < |w|
    ensures Before(w, i + 1) == Before(w, i) + w[i]
  {
    assert w[..i + 1] == w[..i] + [w[i]];
    TotalAppend(w[..i], w[i]);
  }

  lemma {:induction false} BeforeMonotone(w: seq<nat>, i: nat, j: nat)
    requires i <= j <= |w|
    ensures Before(w, i) <= Before(w, j)
    decreases j
  {
    if i < j {
      BeforeMonotone(w, i, j - 1);
      BeforeNext(w, j - 1);
    }
  }

  lemma BeforeEnd(w: seq<nat>)
    ensures Before(w, |w|) == Total(w)
  {
    assert w[..|w|] == w;
  }

  lemma OneShareEach(w: seq<nat>, i: nat, j: nat, x: int)
    requires Falls(w, i, x) && Falls(w, j, x)
    ensures i == j
  {
    var a, b := if i < j then i else j, if i < j then j else i;
    if a < b {
      BeforeNext(w, a);
      BeforeMonotone(w, a + 1, b);
    }
  }

  /** The n numbers from `first` on. */
  function Interval(first: int, n: nat): (all: set<int>)
    ensures |all| == n && forall x :: x in all <==> first <= x < first + n
  {
    if n == 0 then {} else Interval(first, n - 1) + {first + n - 1}
  }

  /** Exactly as many numbers below the total fall to a share as its weight says. */
  lemma ShareSize(w: seq<nat>, i: nat)
    requires i < |w|
    ensures |set x | x in Interval(0, Total(w)) && Falls(w, i, x)| == w[i]
  {
    BeforeNext(w, i);
    BeforeMonotone(w, i + 1, |w|);
    BeforeEnd(w);
    assert Before(w, 0) == 0;
    BeforeMonotone(w, 0, i);
    assert (set x | x in Interval(0, Total(w)) && Falls(w, i, x)) == Interval(Before(w, i), w[i]);
  }

  lemma {:induction false} TotalCut(w: seq<nat>, p: nat)
    requires p < |w|
    ensures Total(w[..p] + w[p + 1..]) + w[p] == Total(w)
  {
    var n := |w| - 1;
    var rest := w[..p] + w[p + 1..];
    if p == n {
      assert rest == w[..n];
    } else {
      assert rest[..n - 1] == w[..n][..p] + w[..n][p + 1..];
      TotalCut(w[..n], p);
    }
  }

  /** The total does not depend on the order. */
  lemma {:induction false} TotalPermuted(a: seq<nat>, b: seq<nat>)
    requires multiset(a) == multiset(b)
    ensures Total(a) == Total(b)
  {
    assert |multiset(a)| == |a| && |multiset(b)| == |b|;
    if a != [] {
      var last := a[|a| - 1];
      assert a == a[..|a| - 1] + [last];
      assert last in multiset(b);
      var p :| 0 <= p < |b| && b[p] == last;
      var rest := b[..p] + b[p + 1..];
      assert b == b[..p] + [last] + b[p + 1..];
      assert multiset(rest) == multiset(b) - multiset{last};
      TotalPermuted(a[..|a| - 1], rest);
      TotalCut(b, p);
    }
  }
}
