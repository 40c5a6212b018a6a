/** Finite sets of numbers, compared by size. */
module Counting {

  /** The numbers from 1 to k. */
  lemma {:induction false} OneTo(k: nat) returns (all: set<nat>)
    ensures |all| == k && forall n: nat :: n in all <==> 0 < n <= k
  {
    if k == 0 {
      all := {};
    } else {
      var before := OneTo(k - 1);
      all := before + {k};
    }
  }

  lemma SubsetSize(a: set<nat>, b: set<nat>)
    requires a <= b
    ensures |a| <= |b|
    ensures |a| == |b| ==> a == b
  {
    assert b == a + (b - a);
  }

  /** The elements of a sequence without repetition. */
  lemma {:induction false} ElementsOf(s: seq<nat>) returns (all: set<nat>)
    requires forall i, j :: 0 <= i < j < |s| ==> s[i] != s[j]
    ensures |all| == |s| && forall n :: n in all <==> n in s
  {
    if s == [] {
      all := {};
    } else {
      var last := s[|s| - 1];
      var before := ElementsOf(s[..|s| - 1]);
      assert s == s[..|s| - 1] + [last];
      assert last !in before;
      all := before + {last};
    }
  }
}
