/** Numbers, slots and portions of blocks: block number n holds the elements from n * size on, and a
    circular index has it in slot (n + shift) % capacity. Block sizes and capacities are powers of two,
    so the source's `x & (size - 1)` is a remainder. */
module BlockNumbers {
  import Arithmetic

  function Blocks(size: nat, index: nat): nat
    requires size > 0
  {
    (index + size - 1) / size
  }

  function Offsets(lo: nat, hi: nat): (all: set<nat>)
    ensures forall o: nat :: o in all <==> lo <= o < hi
    decreases if lo < hi then hi - lo else 0
  {
    if lo >= hi then {} else {lo} + Offsets(lo + 1, hi)
  }

  lemma {:induction false} CountOffsets(lo: nat, hi: nat)
    requires lo <= hi
    ensures |Offsets(lo, hi)| == hi - lo
    decreases hi - lo
  {
    if lo < hi {
      CountOffsets(lo + 1, hi);
    }
  }

  function Slot(n: int, shift: int, size: nat): nat
    requires size > 0
  {
    (n + shift) % size
  }

  /** The first index of block number k. */
  function Base(size: nat, k: nat): nat { k * size }

  function NumberOf(size: nat, i: nat): nat
    requires size > 0
  {
    i / size
  }

  /** How many of the indices from i to end are in i's block. */
  function Portion(size: nat, i: nat, end: nat): nat
    requires size > 0 && i <= end
  {
    Arithmetic.Min(end - i, size - i % size)
  }

  lemma PortionInBlock(size: nat, i: nat, end: nat)
    requires size > 0 && i < end
    ensures 0 < Portion(size, i, end) && i % size + Portion(size, i, end) <= size && i + Portion(size, i, end) <= end
  {
  }

  /** Going on from a slot is the same as going on from its number. */
  lemma SlotFrom(n: int, d: int, shift: int, size: nat)
    requires size > 0
    ensures Slot(Slot(n, shift, size), d, size) == Slot(n + d, shift, size)
  {
    var q := (n + shift) / size;
    assert n + d + shift == q * size + (Slot(n, shift, size) + d);
    Arithmetic.ModShift(q, Slot(n, shift, size) + d, size);
  }

  /** Numbers less than the size apart have different slots. */
  lemma SlotsDiffer(m: int, n: int, shift: int, size: nat)
    requires m < n < m + size
    ensures Slot(m, shift, size) != Slot(n, shift, size)
  {
    var q, r, d := (m + shift) / size, (m + shift) % size, n - m;
    assert n + shift == q * size + (r + d);
    if r + d < size {
      Arithmetic.ModUnique(q, r + d, size);
    } else {
      assert n + shift == (q + 1) * size + (r + d - size) by { assert (q + 1) * size == q * size + size; }
      Arithmetic.ModUnique(q + 1, r + d - size, size);
    }
  }

  lemma SlotBelow(n: int, shift: int, size: nat)
    requires size > 0
    ensures Slot(n, shift, size) < size
  {
  }

  lemma SmallSlot(j: nat, size: nat)
    requires j < size
    ensures Slot(j, 0, size) == j
  {
    Arithmetic.ModFacts(j, size);
  }

  lemma NumberBounds(size: nat, i: nat)
    requires size > 0
    ensures (i / size) * size <= i < (i / size) * size + size
    ensures i < Blocks(size, i + 1) * size && i / size + 1 == Blocks(size, i + 1)
  {
    assert i == (i / size) * size + i % size;
    assert i + size == (i / size + 1) * size + i % size by { assert (i / size + 1) * size == (i / size) * size + size; }
    Arithmetic.ModUnique(i / size + 1, i % size, size);
  }

  /** Larger indices are in later blocks. */
  lemma BlocksMonotone(size: nat, i: nat, j: nat)
    requires size > 0 && i <= j
    ensures Blocks(size, i) <= Blocks(size, j)
  {
    DivMonotone(size, i + size - 1, j + size - 1);
  }

  lemma BelowBlocks(size: nat, i: nat, j: nat)
    requires size > 0 && i < j
    ensures i / size < Blocks(size, j)
  {
    NumberBounds(size, i);
    BlocksMonotone(size, i + 1, j);
  }

  /** The blocks for the first i indices hold them. */
  lemma BlocksSuffice(size: nat, i: nat)
    requires size > 0
    ensures i <= Base(size, Blocks(size, i))
  {
    if i > 0 {
      NumberBounds(size, i - 1);
    }
  }

  lemma BaseMonotone(size: nat, j: nat, k: nat)
    requires j <= k
    ensures Base(size, j) <= Base(size, k)
  {
    assert (k - j) * size >= 0;
    assert k * size == j * size + (k - j) * size;
  }

  lemma DivMonotone(size: nat, i: nat, j: nat)
    requires size > 0 && i <= j
    ensures i / size <= j / size
  {
    var d := j / size - i / size;
    assert i == (i / size) * size + i % size && j == (j / size) * size + j % size;
    assert d * size == (j / size) * size - (i / size) * size;
    Arithmetic.Multiple(d, size);
  }

  /** A block with a claimed index in it: that index is the claim's first or the block's first. */
  lemma ClaimedIndexIn(size: nat, i: nat, end: nat, k: nat) returns (x: nat)
    requires size > 0 && i < end && i / size <= k && Base(size, k) < end
    ensures i <= x < end && x / size == k
  {
    Arithmetic.ModUnique(k, 0, size);
    if Base(size, k) < i {
      x := i;
      DivMonotone(size, Base(size, k), i);
    } else {
      x := Base(size, k);
    }
  }

  /** The indices that are emptied together are those with the same offsets in their block. */
  lemma SamePortion(size: nat, i: nat, end: nat, k: nat, o: nat)
    requires size > 0 && i < end && o < size
    ensures var stop := i + Portion(size, i, end);
            i <= Base(size, k) + o < stop <==> k == i / size && i % size <= o < i % size + (stop - i)
  {
    NumberBounds(size, i);
    assert i == Base(size, i / size) + i % size;
    if k < i / size {
      BaseMonotone(size, k + 1, i / size);
      assert Base(size, k + 1) == Base(size, k) + size;
    } else if k > i / size {
      BaseMonotone(size, i / size + 1, k);
      assert Base(size, i / size + 1) == Base(size, i / size) + size;
    }
  }

  lemma NextStop(size: nat, i: nat, end: nat)
    requires size > 0 && i < end && i + Portion(size, i, end) < end
    ensures (i + Portion(size, i, end)) / size == i / size + 1
  {
    NumberBounds(size, i);
    assert i + Portion(size, i, end) == Base(size, i / size + 1);
    Arithmetic.ModUnique(i / size + 1, 0, size);
  }
}
