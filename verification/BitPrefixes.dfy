/** Hash codes cut to their low bits, and the tree these cuts form: the parent of a bucket number is
    the number without its topmost bit. */
module BitPrefixes {
  import opened Arithmetic

  function Pow2(k: nat): (p: nat)
    ensures p >= 1
  {
    if k == 0 then 1 else 2 * Pow2(k - 1)
  }

  /** The position of the topmost bit (__TBB_Log2). */
  function Log2(n: nat): nat
    requires n > 0
  {
    if n == 1 then 0 else 1 + Log2(n / 2)
  }

  lemma {:induction false} Log2Bounds(n: nat)
    requires n > 0
    ensures Pow2(Log2(n)) <= n < Pow2(Log2(n) + 1)
  {
    if n > 1 {
      Log2Bounds(n / 2);
    }
  }

  lemma {:induction false} Pow2Monotone(i: nat, j: nat)
    requires i <= j
    ensures Pow2(i) <= Pow2(j)
  {
    if i < j {
      Pow2Monotone(i, j - 1);
    }
  }

  lemma {:induction false} Log2Below(n: nat, k: nat)
    requires 0 < n < Pow2(k)
    ensures Log2(n) < k
  {
    Log2Bounds(n);
    if Log2(n) >= k {
      Pow2Monotone(k, Log2(n));
    }
  }

  /** The low k bits: h & (2^k - 1). */
  function Cut(h: nat, k: nat): (c: nat)
  {
    h % Pow2(k)
  }

  lemma CutBelow(h: nat, k: nat)
    ensures Cut(h, k) < Pow2(k) && Cut(h, k) <= h
    ensures h < Pow2(k) ==> Cut(h, k) == h
  {
    ModFacts(h, Pow2(k));
  }

  /** One more bit: either it is clear, or it is added. */
  lemma CutNext(h: nat, k: nat)
    ensures Cut(h, k + 1) == Cut(h, k) || Cut(h, k + 1) == Cut(h, k) + Pow2(k)
  {
    var n, c := Pow2(k), Cut(h, k + 1);
    var q := h / (2 * n);
    assert h == q * (2 * n) + c by { assert h == (h / (2 * n)) * (2 * n) + h % (2 * n); }
    CutBelow(h, k + 1);
    if c < n {
      assert h == (2 * q) * n + c;
      ModUnique(2 * q, c, n);
    } else {
      assert h == (2 * q + 1) * n + (c - n);
      ModUnique(2 * q + 1, c - n, n);
    }
  }

  lemma {:induction false} CutCut(h: nat, j: nat, i: nat)
    requires i <= j
    ensures Cut(Cut(h, j), i) == Cut(h, i)
    decreases j - i
  {
    CutBelow(h, i);
    if i < j {
      CutCut(h, j, i + 1);
      var c := Cut(h, j);
      CutBelow(c, i);
      CutNext(c, i);
      CutNext(h, i);
    } else {
      CutBelow(Cut(h, j), j);
    }
  }

  // ---------- The tree of bucket numbers ----------

  /** h & ((1 << log2(h)) - 1) */
  function Parent(b: nat): (p: nat)
    requires b > 1
    ensures p < b
  {
    Log2Bounds(b);
    CutBelow(b, Log2(b));
    Cut(b, Log2(b))
  }

  /** The number of bits that tell a bucket from its parent. */
  function Width(b: nat): (w: nat)
    ensures w >= 1
  {
    if b <= 1 then 1 else Log2(b) + 1
  }

  /** b is x cut to b's width: b is x itself or an ancestor of x. */
  predicate Prefix(b: nat, x: nat) {
    Cut(x, Width(b)) == b
  }

  lemma PrefixSelf(b: nat)
    ensures Prefix(b, b)
  {
    if b > 0 {
      Log2Bounds(b);
    }
    CutBelow(b, Width(b));
  }

  lemma ParentIs(b: nat)
    requires b > 1
    ensures b == Parent(b) + Pow2(Log2(b)) && Parent(b) < Pow2(Log2(b))
  {
    Log2Bounds(b);
    CutBelow(b, Log2(b));
    CutBelow(b, Log2(b) + 1);
    CutNext(b, Log2(b));
  }

  /** The ancestors of x are x and the ancestors of its parent. */
  lemma PrefixOfParent(b: nat, x: nat)
    requires x > 1 && x != b
    ensures Prefix(b, Parent(x)) <==> Prefix(b, x)
  {
    if Width(b) <= Log2(x) {
      CutCut(x, Log2(x), Width(b));
    } else {
      NotShorter(b, x);
    }
  }

  /** b has at least as many bits as x. */
  lemma NotShorter(b: nat, x: nat)
    requires x > 1 && x != b && Width(b) > Log2(x)
    ensures Cut(x, Width(b)) == x && Cut(Parent(x), Width(b)) == Parent(x) && b != Parent(x)
  {
    var k := Log2(x);
    Log2Bounds(x);
    Pow2Monotone(k + 1, Width(b));
    CutBelow(x, Width(b));
    CutBelow(Parent(x), Width(b));
    ParentIs(x);
    if b > 1 && b == Parent(x) {
      Log2Below(b, k);
    }
  }

  /** Cutting a hash code one bit shorter gives the same bucket or its parent. */
  lemma CutIsParent(h: nat, k: nat)
    requires Cut(h, k + 1) != Cut(h, k) && k >= 1
    ensures Cut(h, k + 1) > 1 && Log2(Cut(h, k + 1)) == k && Parent(Cut(h, k + 1)) == Cut(h, k)
  {
    var c := Cut(h, k + 1);
    CutNext(h, k);
    CutBelow(h, k);
    Pow2Monotone(1, k);
    Log2Bounds(c);
    CutBelow(h, k + 1);
    Log2Below(c, k + 1);
    if Log2(c) < k {
      Pow2Monotone(Log2(c) + 1, k);
    }
    CutCut(h, k + 1, k);
  }

  lemma CutOfSum(h: nat, s: nat)
    requires h < Pow2(s)
    ensures Cut(h + Pow2(s), s) == h
  {
    ModUnique(1, h, Pow2(s));
  }

  /** The child of h with topmost bit s. */
  lemma ChildOf(h: nat, s: nat)
    requires h < Pow2(s) && s >= 1
    ensures h + Pow2(s) > 1 && Width(h + Pow2(s)) == s + 1 && Parent(h + Pow2(s)) == h
    ensures Cut(h + Pow2(s), s) == h
  {
    hide Cut, Log2;
    var c := h + Pow2(s);
    CutOfSum(h, s);
    Pow2Monotone(1, s);
    Log2Bounds(c);
    Log2Below(c, s + 1);
    if Log2(c) < s {
      Pow2Monotone(Log2(c) + 1, s);
    }
  }

  /** Bit k of h is clear exactly if the cut to one bit more is the same. */
  lemma BitOfCut(h: nat, k: nat)
    ensures (h / Pow2(k)) % 2 == 0 <==> Cut(h, k + 1) == Cut(h, k)
  {
    HalfMod(h, Pow2(k));
    ModFacts(h, Pow2(k));
  }
}
