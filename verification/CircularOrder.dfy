/** Unsigned index words that wrap around (concurrentqueue.h: circular_less_than).
    A word holds a counter modulo 2 * half, where half is the word's top bit. */
module CircularOrder {
  import opened Arithmetic

  function Word(x: int, half: nat): (w: nat)
    requires half > 0
    ensures w < 2 * half
  {
    x % (2 * half)
  }

  /** The subtraction wraps to a word, which is then compared with the top bit. */
  predicate CircularLess(a: nat, b: nat, half: nat)
    requires half > 0
  {
    Word(a - b, half) > half
  }

  lemma WordInRange(x: nat, half: nat)
    requires x < 2 * half
    ensures Word(x, half) == x
  {
    ModFacts(x, 2 * half);
  }

  /** Whole turns of the counter do not change the word. */
  lemma WordShift(x: int, y: int, q: int, half: nat)
    requires half > 0
    requires x == y + q * (2 * half)
    ensures Word(x, half) == Word(y, half)
  {
    var n := 2 * half;
    var d := x / n - y / n - q;
    assert Word(y, half) - Word(x, half) == d * n by {
      assert x % n == x - (x / n) * n && y % n == y - (y / n) * n;
      assert d * n == (x / n) * n - (y / n) * n - q * n;
    }
    Multiple(d, n);
  }

  /** Subtracting words is subtracting the counters they stand for. */
  lemma WordOfDifference(a: int, b: int, half: nat)
    requires half > 0
    ensures Word(Word(a, half) - Word(b, half), half) == Word(a - b, half)
  {
    var n := 2 * half;
    var q := b / n - a / n;
    assert Word(a, half) - Word(b, half) == a - b + q * n by {
      assert q * n == (b / n) * n - (a / n) * n;
    }
    WordShift(Word(a, half) - Word(b, half), a - b, q, half);
  }

  /** The wrapped comparison decides the order of the unbounded counters whenever these are at
      most half the word range apart, except for the single distance b - a == half. */
  lemma CircularLessAgrees(a: int, b: int, half: nat)
    requires half > 0
    requires 0 - half <= a - b <= half
    ensures (CircularLess(Word(a, half), Word(b, half), half) <==> a < b) <==> b - a != half
  {
    WordOfDifference(a, b, half);
    var d := a - b;
    if d < 0 {
      WordShift(d, d + 2 * half, -1, half);
      WordInRange(d + 2 * half, half);
    } else {
      WordInRange(d, half);
    }
  }

  /** Outside that window no comparison of two words can be right for both of these pairs, which
      have equal words: the window is a limit of the representation, not of the formula. */
  lemma CircularLessIsPeriodic(a: int, b: int, turns: int, half: nat)
    requires half > 0
    ensures Word(a + turns * (2 * half), half) == Word(a, half)
    ensures CircularLess(Word(a + turns * (2 * half), half), Word(b, half), half)
            == CircularLess(Word(a, half), Word(b, half), half)
  {
    WordShift(a + turns * (2 * half), a, turns, half);
  }
}
