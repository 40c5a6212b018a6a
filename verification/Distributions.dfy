/** distributions.cc: the key ranges of GenerateTwoTermExpKeys, from integer weights on, and
    QueryDecider's table of query types. */
module Distributions {
  import opened Arithmetic
  import opened Shares

  /** Integer division and remainder as C++ has them, rounding toward zero. */
  function Quotient(a: int, n: int): int
    requires n > 0
  {
    if a >= 0 then a / n else -(-a / n)
  }

  function Remainder(a: int, n: int): int
    requires n > 0
  {
    if a >= 0 then a % n else -(-a % n)
  }

  datatype KeyRange = KeyRange(start: int, access: nat, keys: int)

  function Weights(ranges: seq<KeyRange>): seq<nat> {
    seq(|ranges|, i requires 0 <= i < |ranges| => ranges[i].access)
  }

  /** Every range starts where the ranges before it end. */
  ghost predicate Laid(ranges: seq<KeyRange>) {
    forall i {:trigger ranges[i]} :: 0 <= i < |ranges| ==> ranges[i].start == Before(Weights(ranges), i)
  }

  ghost predicate EachHolds(ranges: seq<KeyRange>, keys: int) {
    forall r :: r in ranges ==> r.keys == keys
  }

  /** Where the range at position p has come to after i swaps: swap number j exchanges j with the position drawn. */
  function Place(draws: seq<nat>, n: nat, i: nat, p: nat): (q: nat)
    requires i <= n && i <= |draws|
    ensures q < n <==> p < n
    ensures p >= n ==> q == p
  {
    if i == 0 then p
    else
      var q, drawn := Place(draws, n, i - 1, p), draws[i - 1] % n;
      if q == i - 1 then drawn else if q == drawn then i - 1 else q
  }

  /** Different ranges come to different positions. */
  lemma {:induction false} PlacesDiffer(draws: seq<nat>, n: nat, i: nat, p: nat, q: nat)
    requires i <= n && i <= |draws| && p != q
    ensures Place(draws, n, i, p) != Place(draws, n, i, q)
  {
    if i > 0 {
      PlacesDiffer(draws, n, i - 1, p, q);
    } else {
    }
  }

  /** The range at position p before is where i swaps bring it. */
  predicate CameTo(before: seq<KeyRange>, after: seq<KeyRange>, draws: seq<nat>, n: nat, i: nat, p: nat)
    requires i <= n && i <= |draws| && p < |before|
  {
    Place(draws, n, i, p) < |after| && after[Place(draws, n, i, p)] == before[p]
  }

  ghost predicate Moved(before: seq<KeyRange>, after: seq<KeyRange>, draws: seq<nat>, n: nat, i: nat)
    requires i <= n && i <= |draws|
  {
    |after| == |before| && forall p: nat :: p < |before| ==> CameTo(before, after, draws, n, i, p)
  }

  lemma NotMoved(ranges: seq<KeyRange>, draws: seq<nat>, n: nat)
    ensures Moved(ranges, ranges, draws, n, 0)
  {
  }

  lemma MovedOn(before: seq<KeyRange>, ranges: seq<KeyRange>, draws: seq<nat>, n: nat, i: nat)
    requires i < n <= |before| && i < |draws| && Moved(before, ranges, draws, n, i)
    ensures Moved(before, ranges[i := ranges[draws[i] % n]][draws[i] % n := ranges[i]], draws, n, i + 1)
  {
    var after := ranges[i := ranges[draws[i] % n]][draws[i] % n := ranges[i]];
    var k: nat := i + 1;
    forall p: nat | p < |before| ensures CameTo(before, after, draws, n, k, p) {
      assert CameTo(before, ranges, draws, n, i, p);
    }
  }

  /** What laying out changes is not what was moved. */
  lemma MovedWeights(before: seq<KeyRange>, shuffled: seq<KeyRange>, after: seq<KeyRange>, draws: seq<nat>, n: nat, p: nat)
    requires n <= |draws| && Moved(before, shuffled, draws, n, n) && Weights(after) == Weights(shuffled) && p < |before|
    ensures |after| == |before| && Place(draws, n, n, p) < |after|
    ensures after[Place(draws, n, n, p)].access == Weights(before)[p]
  {
    hide Place;
    var q := Place(draws, n, n, p);
    assert CameTo(before, shuffled, draws, n, n, p);
    assert |after| == |Weights(after)| == |Weights(shuffled)| == |shuffled|;
    assert Weights(after)[q] == Weights(shuffled)[q];
  }

  /** GenerateTwoTermExpKeys. */
  class KeyGenerator {
    var randMax: int
    var size: int
    var num: int
    var initiated: bool
    var ranges: seq<KeyRange>

    ghost predicate Valid()
      reads this
    {
      && |ranges| == num > 0 && Laid(ranges) && randMax == Total(Weights(ranges))
      && EachHolds(ranges, size)
    }

    constructor ()
      ensures !initiated && ranges == []
    {
      initiated, ranges := false, [];
    }

    /** InitiateExpDistribution, given the access counts it computes and the draws of its shuffle. The new ranges come
        behind those of earlier calls, but keyrange_rand_max_ and the shuffle take the new ones alone for all there
        are: only a first call leaves a valid generator. */
    method Initiate(weights: seq<nat>, rangesWanted: int, totalKeys: int, draws: seq<nat>)
      requires |weights| == (if rangesWanted <= 0 then 1 else rangesWanted)
      requires |draws| >= rangesWanted
      modifies this
      ensures initiated && Laid(ranges) && randMax == Total(weights)
      ensures multiset(Weights(ranges)) == multiset(Weights(old(ranges))) + multiset(weights)
      ensures num == |weights| && size == Quotient(totalKeys, |weights|) && |ranges| == |old(ranges)| + num
      ensures var all, n := Weights(old(ranges)) + weights, if rangesWanted > 0 then rangesWanted else 0;
        forall p: nat {:trigger Place(draws, n, n, p)} :: p < |all| ==>
          Place(draws, n, n, p) < |ranges| && ranges[Place(draws, n, n, p)].access == all[p]
      ensures Valid() <==> old(ranges) == []
    {
      hide Laid, Total, Place, Moved;
      initiated := true;
      var n := if rangesWanted <= 0 then 1 else rangesWanted;
      num, size := n, Quotient(totalKeys, n);
      Accumulate(weights, n);
      ghost var all := ranges;
      Shuffle(rangesWanted, draws);
      ghost var shuffled := ranges;
      LayOut();
      ghost var m: nat := if rangesWanted > 0 then rangesWanted else 0;
      forall p: nat {:trigger Place(draws, m, m, p)} | p < |all|
        ensures Place(draws, m, m, p) < |ranges| && ranges[Place(draws, m, m, p)].access == Weights(all)[p]
      {
        MovedWeights(all, shuffled, ranges, draws, m, p);
      }
      assert multiset(Weights(ranges)) == multiset(Weights(old(ranges)) + weights);
      if old(ranges) == [] {
        assert Weights(old(ranges)) + weights == weights;
        TotalPermuted(Weights(ranges), weights);
      }
    }

    /** Steps 1 to 3: a range for each weight. */
    method Accumulate(weights: seq<nat>, n: int)
      requires n == |weights|
      modifies this`ranges, this`randMax
      ensures |ranges| == |old(ranges)| + n
      ensures Weights(ranges) == Weights(old(ranges)) + weights && randMax == Total(weights)
      ensures EachHolds(old(ranges), size) ==> EachHolds(ranges, size)
    {
      var start := 0;
      for pfx := 0 to n
        invariant |ranges| == |old(ranges)| + pfx && start == Total(weights[..pfx])
        invariant Weights(ranges) == Weights(old(ranges)) + weights[..pfx]
        invariant EachHolds(old(ranges), size) ==> EachHolds(ranges, size)
      {
        assert weights[..pfx + 1] == weights[..pfx] + [weights[pfx]];
        TotalAppend(weights[..pfx], weights[pfx]);
        ghost var before := ranges;
        ranges := ranges + [KeyRange(start, weights[pfx], size)];
        assert Weights(ranges) == Weights(before) + [weights[pfx]];
        start := start + weights[pfx];
      }
      assert weights[..n] == weights;
      randMax := start;
    }

    /** Step 4: every position is swapped with a drawn one. */
    method Shuffle(rangesWanted: int, draws: seq<nat>)
      requires rangesWanted > 0 ==> rangesWanted <= |ranges| && rangesWanted <= |draws|
      modifies this`ranges
      ensures |ranges| == old(|ranges|)
      ensures multiset(Weights(ranges)) == multiset(Weights(old(ranges)))
      ensures var n := if rangesWanted > 0 then rangesWanted else 0; Moved(old(ranges), ranges, draws, n, n)
      ensures EachHolds(old(ranges), size) ==> EachHolds(ranges, size)
    {
      ghost var n: nat := if rangesWanted > 0 then rangesWanted else 0;
      hide Place, Moved, Weights, EachHolds;
      NotMoved(ranges, draws, n);
      var i := 0;
      while i < rangesWanted
        invariant 0 <= i <= n && |ranges| == old(|ranges|)
        invariant multiset(Weights(ranges)) == multiset(Weights(old(ranges)))
        invariant Moved(old(ranges), ranges, draws, n, i)
        invariant EachHolds(old(ranges), size) ==> EachHolds(ranges, size)
      {
        var pos := draws[i] % rangesWanted;
        Swapped(ranges, i, pos, size);
        MovedOn(old(ranges), ranges, draws, n, i);
        ranges := ranges[i := ranges[pos]][pos := ranges[i]];
        i := i + 1;
      }
    }

    /** Step 5: the starts again, for the new order. */
    method LayOut()
      modifies this`ranges
      ensures |ranges| == old(|ranges|) && Weights(ranges) == Weights(old(ranges)) && Laid(ranges)
      ensures EachHolds(old(ranges), size) ==> EachHolds(ranges, size)
    {
      var offset := 0;
      ghost var w := Weights(ranges);
      var i := 0;
      while i < |ranges|
        invariant 0 <= i <= |ranges| == old(|ranges|) && Weights(ranges) == w
        invariant offset == Before(w, i)
        invariant forall j {:trigger ranges[j]} :: 0 <= j < i ==> ranges[j].start == Before(w, j)
        invariant EachHolds(old(ranges), size) ==> EachHolds(ranges, size)
      {
        BeforeNext(w, i);
        assert w[i] == ranges[i].access;
        ranges := ranges[i := ranges[i].(start := offset)];
        offset := offset + ranges[i].access;
        i := i + 1;
      }
    }

    /** The binary search: the range a number below randMax falls to; negative numbers go to range 0. */
    method FindRange(x: int) returns (id: nat)
      requires Valid() && x < randMax
      ensures id < |ranges|
      ensures if x >= 0 then Falls(Weights(ranges), id, x) else id == 0
    {
      var w := Weights(ranges);
      id := 0;
      var end := |ranges|;
      BeforeEnd(w);
      while id + 1 < end
        invariant 0 <= id < end <= |ranges|
        invariant x < Before(w, end)
        invariant if x >= 0 then Before(w, id) <= x else id == 0
        decreases end - id
      {
        var mid := id + (end - id) / 2;
        if x < ranges[mid].start {
          end := mid;
        } else {
          BeforeMonotone(w, 0, mid);
          id := mid;
        }
      }
      BeforeNext(w, id);
    }

    /** DistGetKeyID with both key_dist parameters zero. Range id owns the keys from size * id on. */
    method KeyId(iniRand: int) returns (key: int)
      requires Valid() && randMax > 0 && size > 0
      ensures iniRand >= 0 ==>
        && 0 <= key / size < num && Falls(Weights(ranges), key / size, iniRand % randMax)
        && key % size == iniRand % size
      ensures iniRand < 0 && iniRand % randMax != 0 ==> key == Remainder(iniRand, size) <= 0
      ensures iniRand < 0 && iniRand % randMax == 0 ==>
        exists id :: Falls(Weights(ranges), id, 0) && key == size * id + Remainder(iniRand, size)
      ensures LiesInItsRange(iniRand, key) <==> iniRand >= 0 || (iniRand % randMax == 0 && iniRand % size == 0)
    {
      var x, offset := Remainder(iniRand, randMax), Remainder(iniRand, size);
      var id := FindRange(x);
      key := size * id + offset;
      if iniRand >= 0 {
        Digits(size, id, offset);
      } else {
        NegativeRemainder(iniRand, randMax);
        NegativeRemainder(iniRand, size);
        if x == 0 {
          OwnDigits(size, id, offset);
          forall other: nat | Falls(Weights(ranges), other, x) ensures other == id {
            OneShareEach(Weights(ranges), other, id, x);
          }
        }
      }
    }

    /** The key is one of the keys of the range that iniRand's remainder falls to. */
    ghost predicate LiesInItsRange(iniRand: int, key: int)
      requires randMax > 0 && size > 0
      reads this
    {
      exists id: nat :: Falls(Weights(ranges), id, Remainder(iniRand, randMax)) && key / size == id
    }
  }

  lemma Swapped(ranges: seq<KeyRange>, i: nat, j: nat, keys: int)
    requires i < |ranges| && j < |ranges|
    ensures var swapped := ranges[i := ranges[j]][j := ranges[i]];
      multiset(Weights(swapped)) == multiset(Weights(ranges)) && (EachHolds(ranges, keys) ==> EachHolds(swapped, keys))
  {
    var w, swapped := Weights(ranges), ranges[i := ranges[j]][j := ranges[i]];
    assert Weights(swapped) == w[i := w[j]][j := w[i]];
  }

  lemma Digits(size: int, id: nat, offset: int)
    requires 0 <= offset < size
    ensures (size * id + offset) / size == id && (size * id + offset) % size == offset
  {
    ModUnique(id, offset, size);
  }

  /** An offset of zero or less stays in the range of id only if it is zero. */
  lemma OwnDigits(size: int, id: nat, offset: int)
    requires 0 < size && -size < offset <= 0
    ensures (size * id + offset) / size == id <==> offset == 0
  {
    if offset == 0 {
      ModUnique(id, 0, size);
    } else {
      assert size * id + offset == (id - 1) * size + (size + offset);
      ModUnique(id - 1, size + offset, size);
    }
  }

  lemma NegativeRemainder(a: int, n: int)
    requires a < 0 < n
    ensures -n < Remainder(a, n) <= 0 && (Remainder(a, n) == 0 <==> a % n == 0)
  {
    var q, r := -a / n, -a % n;
    assert -a == q * n + r;
    if r == 0 {
      assert a == -q * n;
      ModUnique(-q, 0, n);
    } else {
      assert a == (-q - 1) * n + (n - r);
      ModUnique(-q - 1, n - r, n);
    }
  }

  /** A number below zero whose key is in no range. */
  method NegativeNumber() returns (g: KeyGenerator, key: int)
    ensures g.Valid() && g.randMax > 0 && g.size > 0
    ensures !g.LiesInItsRange(-1, key) && key == -1
  {
    g := new KeyGenerator();
    g.Initiate([0, 2], 2, 20, [0, 1]);
    key := g.KeyId(-1);
  }

  /** QueryDecider. */
  class QueryDecider {
    var types: seq<int>
    var range: int

    constructor ()
      ensures types == []
    {
      types := [];
    }

    /** The thresholds are the sums of the shares so far. */
    ghost predicate Decides(shares: seq<nat>)
      reads this
    {
      && |types| == |shares| && range == Total(shares)
      && forall i {:trigger types[i]} :: 0 <= i < |types| ==> types[i] == Before(shares, i + 1)
    }

    /** Initiate, given the shares of the thousand it computes for the ratios. The thresholds start anew behind those of
        earlier calls: only a first call leaves a table that decides. */
    method Initiate(shares: seq<nat>)
      modifies this
      ensures range == Total(shares) && |types| == |old(types)| + |shares| && types[..|old(types)|] == old(types)
      ensures forall i {:trigger types[i]} :: |old(types)| <= i < |types| ==>
                types[i] == Before(shares, i - |old(types)| + 1)
      ensures Decides(shares) <==> old(types) == []
    {
      ghost var n := |types|;
      range := 0;
      for i := 0 to |shares|
        invariant |types| == n + i && range == Before(shares, i) && types[..n] == old(types)
        invariant forall j {:trigger types[j]} :: n <= j < |types| ==> types[j] == Before(shares, j - n + 1)
      {
        BeforeNext(shares, i);
        range := range + shares[i];
        types := types + [range];
      }
      BeforeEnd(shares);
    }

    /** GetType: each type answers to its share of the remainders, and a type without a share to none. */
    method GetType(random: int, ghost shares: seq<nat>) returns (t: nat)
      requires Decides(shares) && range != 0
      ensures Falls(shares, t, (if random < 0 then -random else random) % range)
    {
      var positive := if random < 0 then random * -1 else random;
      var pos := positive % range;
      BeforeEnd(shares);
      t := 0;
      var i := 0;
      while i < |types|
        invariant 0 <= i <= |types| && Before(shares, i) <= pos
      {
        BeforeNext(shares, i);
        if pos < types[i] { t := i; break; }
        i := i + 1;
      }
    }
  }
}
