/** Strict weak orders and binary heaps laid out in a sequence, largest element first. */
module Heaps {

  ghost predicate StrictWeakOrder<T(!new)>(less: (T, T) -> bool) {
    && (forall a :: !less(a, a))
    && (forall a, b, c :: less(a, b) && less(b, c) ==> less(a, c))
    && (forall a, b, c :: !less(a, b) && !less(b, a) && !less(b, c) && !less(c, b) ==> !less(a, c))
  }

  /** Not being less is transitive. */
  lemma NotLessTransitive<T(!new)>(less: (T, T) -> bool, a: T, b: T, c: T)
    requires StrictWeakOrder(less)
    requires !less(a, b) && !less(b, c)
    ensures !less(a, c)
  {
    if less(b, a) || less(c, b) {
      assert less(a, c) ==> less(b, c) || less(a, b);
    }
  }

  lemma LessNotLess<T(!new)>(less: (T, T) -> bool, a: T, b: T, c: T)
    requires StrictWeakOrder(less)
    requires less(a, b) && !less(a, c)
    ensures !less(b, c)
  {
  }

  function Parent(i: nat): nat
    requires i > 0
  {
    (i - 1) / 2
  }

  /** No element of the first n is larger than its parent. */
  ghost predicate IsHeap<T(!new)>(less: (T, T) -> bool, s: seq<T>, n: nat) {
    n <= |s| && forall i {:trigger Parent(i)} :: 0 < i < n ==> !less(s[Parent(i)], s[i])
  }

  /** The root of a heap is larger than or equivalent to everything in it. */
  lemma {:induction false} RootIsLargest<T(!new)>(less: (T, T) -> bool, s: seq<T>, n: nat, i: nat)
    requires StrictWeakOrder(less) && IsHeap(less, s, n) && i < n
    ensures !less(s[0], s[i])
  {
    if i > 0 {
      RootIsLargest(less, s, n, Parent(i));
      NotLessTransitive(less, s[0], s[Parent(i)], s[i]);
    }
  }

  /** Moving the element at j into position i and putting x at j leaves the same elements as putting
      x at i. */
  lemma MoveHole<T>(s: seq<T>, i: nat, j: nat, x: T)
    requires i < |s| && j < |s| && i != j
    ensures multiset(s[i := s[j]][j := x]) == multiset(s[i := x])
  {
    var a := s[i := s[j]];
    assert multiset(a[j := x]) == multiset(a) - multiset{a[j]} + multiset{x};
    assert multiset(a) == multiset(s) - multiset{s[i]} + multiset{s[j]};
    assert multiset(s[i := x]) == multiset(s) - multiset{s[i]} + multiset{x};
  }

  // ---------- Sifting: an element x on its way, a hole at position cur ----------

  ghost predicate HeapButHole<T(!new)>(less: (T, T) -> bool, s: seq<T>, n: nat, cur: nat) {
    && cur < n <= |s|
    && (forall i {:trigger Parent(i)} :: 0 < i < n && i != cur && Parent(i) != cur ==> !less(s[Parent(i)], s[i]))
    && (forall i {:trigger Parent(i)} :: 0 < i < n && Parent(i) == cur && cur > 0 ==> !less(s[Parent(cur)], s[i]))
  }

  /** On the way up, x is larger than what is below the hole. */
  ghost predicate RisingHole<T(!new)>(less: (T, T) -> bool, s: seq<T>, n: nat, cur: nat, x: T) {
    && HeapButHole(less, s, n, cur)
    && (forall i {:trigger Parent(i)} :: 0 < i < n && Parent(i) == cur ==> !less(x, s[i]))
  }

  /** On the way down, x is not larger than what is above the hole. */
  ghost predicate SinkingHole<T(!new)>(less: (T, T) -> bool, s: seq<T>, n: nat, cur: nat, x: T) {
    && HeapButHole(less, s, n, cur)
    && (cur > 0 ==> !less(s[Parent(cur)], x))
  }

  lemma Rise<T(!new)>(less: (T, T) -> bool, s: seq<T>, n: nat, cur: nat, x: T)
    requires StrictWeakOrder(less)
    requires RisingHole(less, s, n, cur, x) && cur > 0 && less(s[Parent(cur)], x)
    ensures RisingHole(less, s[cur := s[Parent(cur)]], n, Parent(cur), x)
  {
    var up := Parent(cur);
    var s' := s[cur := s[up]];
    forall i {:trigger Parent(i)} | 0 < i < n && Parent(i) == up
      ensures !less(x, s'[i]) && (up > 0 ==> !less(s'[Parent(up)], s'[i]))
    {
      if i != cur {
        NotLessTransitive(less, x, s[up], s[i]);
      }
      if up > 0 && i != cur {
        NotLessTransitive(less, s[Parent(up)], s[up], s[i]);
      }
    }
  }

  /** x may be placed: nothing above the hole is smaller, nothing below it is larger. */
  lemma FillHole<T(!new)>(less: (T, T) -> bool, s: seq<T>, n: nat, cur: nat, x: T)
    requires HeapButHole(less, s, n, cur)
    requires cur > 0 ==> !less(s[Parent(cur)], x)
    requires forall i {:trigger Parent(i)} :: 0 < i < n && Parent(i) == cur ==> !less(x, s[i])
    ensures IsHeap(less, s[cur := x], n)
  {
  }

  lemma Sink<T(!new)>(less: (T, T) -> bool, s: seq<T>, n: nat, cur: nat, x: T, target: nat)
    requires SinkingHole(less, s, n, cur, x)
    requires 0 < target < n && Parent(target) == cur && !less(s[target], x)
    requires forall i {:trigger Parent(i)} :: 0 < i < n && Parent(i) == cur ==> !less(s[target], s[i])
    ensures SinkingHole(less, s[cur := s[target]], n, target, x)
  {
    var s' := s[cur := s[target]];
    forall i {:trigger Parent(i)} | 0 < i < n && i != target && Parent(i) != target
      ensures !less(s'[Parent(i)], s'[i])
    {
    }
  }
}
