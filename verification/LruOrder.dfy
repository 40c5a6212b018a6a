/** What the LRU cache holds after any history of retrieves and releases. */
module LruOrder {
  datatype Op<K> = Retrieve(key: K) | Release(key: K)

  /** References per cached key, and the idle keys, the one released last in front. */
  datatype State<K> = State(references: map<K, nat>, recent: seq<K>)

  function Without<K(==)>(keys: seq<K>, k: K): seq<K> {
    if keys == [] then [] else if keys[0] == k then keys[1..] else [keys[0]] + Without(keys[1..], k)
  }

  function Retrieved<K(==)>(s: State<K>, k: K): State<K> {
    if k in s.references
    then State(s.references[k := s.references[k] + 1], Without(s.recent, k))
    else State(s.references[k := 1], s.recent)
  }

  /** The idle keys that stay when one more key becomes idle. */
  function Kept<K>(recent: seq<K>, capacity: nat): seq<K> {
    if |recent| < capacity then recent else if capacity > 0 then recent[..capacity - 1] else []
  }

  function Released<K(==)>(s: State<K>, k: K, capacity: nat): State<K> {
    if k !in s.references || s.references[k] == 0 then s
    else if s.references[k] > 1 then s.(references := s.references[k := s.references[k] - 1])
    else
      var kept := Kept(s.recent, capacity);
      var evicted := set x | x in s.recent && x !in kept;
      State((s.references - evicted)[k := 0], [k] + kept)
  }

  function Step<K(==)>(s: State<K>, op: Op<K>, capacity: nat): State<K> {
    match op
    case Retrieve(k) => Retrieved(s, k)
    case Release(k) => Released(s, k, capacity)
  }

  function After<K(==)>(s: State<K>, ops: seq<Op<K>>, capacity: nat): State<K> {
    if ops == [] then s else Step(After(s, ops[..|ops| - 1], capacity), ops[|ops| - 1], capacity)
  }

  /** A key with one reference is released. */
  predicate LosesLast<K(==)>(s: State<K>, op: Op<K>) {
    op.Release? && op.key in s.references && s.references[op.key] == 1
  }

  /** No operation asks for an element of an empty list: there is room for one, or no key loses its last reference. */
  ghost predicate Defined<K>(s: State<K>, ops: seq<Op<K>>, capacity: nat) {
    capacity > 0 || forall i :: 0 <= i < |ops| ==> !LosesLast(After(s, ops[..i], capacity), ops[i])
  }

  // ---- the same story told from the history alone ----

  /** Handles on `k` that the history created and did not give back. */
  function Live<K(==)>(ops: seq<Op<K>>, k: K): int {
    if ops == [] then 0
    else
      var before, last := Live(ops[..|ops| - 1], k), ops[|ops| - 1];
      if last.key != k then before else if last.Retrieve? then before + 1 else before - 1
  }

  /** Only handles that exist are given back. */
  ghost predicate Sound<K>(ops: seq<Op<K>>) {
    ops != [] ==>
      var before, last := ops[..|ops| - 1], ops[|ops| - 1];
      Sound(before) && (last.Release? ==> Live(before, last.key) > 0)
  }

  ghost predicate EverReleased<K>(ops: seq<Op<K>>, k: K) {
    exists i :: 0 <= i < |ops| && ops[i] == Release(k)
  }

  /** The keys whose last handle was given back after the most recent release of `k`. */
  function IdleSince<K(==)>(ops: seq<Op<K>>, k: K): set<K> {
    if ops == [] then {}
    else
      var before, last := IdleSince(ops[..|ops| - 1], k), ops[|ops| - 1];
      if last.Retrieve? then before
      else if last.key == k then {}
      else if Live(ops, last.key) == 0 then before + {last.key}
      else before
  }

  ghost predicate Distinct<K>(keys: seq<K>) {
    forall i, j :: 0 <= i < j < |keys| ==> keys[i] != keys[j]
  }

  // ---- invariants tying the two together ----

  /** Counters are the live handles, and a key is listed once exactly when it is cached and idle. */
  ghost predicate Counted<K(!new)>(ops: seq<Op<K>>, s: State<K>) {
    && (forall k :: k in s.references ==> s.references[k] == Live(ops, k))
    && (forall k :: Live(ops, k) >= 0)
    && (forall k :: Live(ops, k) > 0 ==> k in s.references)
    && (forall k :: k in s.recent <==> k in s.references && s.references[k] == 0)
    && Distinct(s.recent)
  }

  ghost predicate Ordered<K>(ops: seq<Op<K>>, recent: seq<K>) {
    forall i, j :: 0 <= i < j < |recent| ==> recent[i] in IdleSince(ops, recent[j])
  }

  /** A key that is idle and no longer cached. */
  ghost predicate Forgotten<K>(ops: seq<Op<K>>, s: State<K>, k: K) {
    EverReleased(ops, k) && Live(ops, k) == 0 && k !in s.references
  }

  ghost predicate ForgottenLast<K(!new)>(ops: seq<Op<K>>, s: State<K>, capacity: nat) {
    forall y :: Forgotten(ops, s, y) ==>
      && |IdleSince(ops, y)| >= capacity
      && forall x :: x in s.recent ==> x in IdleSince(ops, y)
  }

  ghost predicate Inv<K(!new)>(ops: seq<Op<K>>, s: State<K>, capacity: nat) {
    Counted(ops, s) && |s.recent| <= capacity && Ordered(ops, s.recent) && ForgottenLast(ops, s, capacity)
  }

  // ---- lists ----

  lemma {:induction false} WithoutAt<K>(keys: seq<K>, i: nat)
    requires Distinct(keys) && i < |keys|
    ensures Without(keys, keys[i]) == keys[..i] + keys[i + 1..]
  {
    if i == 0 {
      assert keys[..0] == [];
    } else {
      assert keys[0] != keys[i];
      assert Distinct(keys[1..]);
      WithoutAt(keys[1..], i - 1);
      assert keys[1..][..i - 1] == keys[1..i];
      assert keys[1..][i..] == keys[i + 1..];
      assert [keys[0]] + (keys[1..i] + keys[i + 1..]) == keys[..i] + keys[i + 1..];
    }
  }

  lemma {:induction false} WithoutMissing<K>(keys: seq<K>, k: K)
    requires k !in keys
    ensures Without(keys, k) == keys
  {
    if keys != [] { WithoutMissing(keys[1..], k); }
  }

  /** Taking the key at `p` out leaves the other keys. */
  lemma CutOut<K>(keys: seq<K>, p: nat, rest: seq<K>)
    requires Distinct(keys) && p < |keys| && rest == keys[..p] + keys[p + 1..]
    ensures Distinct(rest) && forall x :: x in rest <==> x in keys && x != keys[p]
  {
    forall x ensures x in rest <==> x in keys && x != keys[p] {
      if x in keys {
        var i :| 0 <= i < |keys| && keys[i] == x;
        if i < p { assert rest[i] == x; } else if i > p { assert rest[i - 1] == x; }
      }
    }
  }

  lemma WithoutKeeps<K>(keys: seq<K>, k: K)
    requires Distinct(keys)
    ensures var rest := Without(keys, k);
      Distinct(rest) && |rest| <= |keys| && forall x :: x in rest <==> x in keys && x != k
  {
    if k !in keys {
      WithoutMissing(keys, k);
    } else {
      var p :| 0 <= p < |keys| && keys[p] == k;
      WithoutAt(keys, p);
      CutOut(keys, p, Without(keys, k));
    }
  }

  lemma WithoutOrdered<K>(ops: seq<Op<K>>, keys: seq<K>, k: K)
    requires Distinct(keys) && Ordered(ops, keys)
    ensures Ordered(ops, Without(keys, k))
  {
    if k !in keys {
      WithoutMissing(keys, k);
    } else {
      var p :| 0 <= p < |keys| && keys[p] == k;
      WithoutAt(keys, p);
    }
  }

  lemma {:induction false} DistinctCount<K>(keys: seq<K>)
    requires Distinct(keys)
    ensures |set x | x in keys| == |keys|
  {
    var all := set x | x in keys;
    if keys == [] {
      assert all == {};
    } else {
      var rest := keys[1..];
      DistinctCount(rest);
      assert all == (set x | x in rest) + {keys[0]};
      assert keys[0] !in rest;
    }
  }

  // ---- steps ----

  lemma Extended<K>(ops: seq<Op<K>>, op: Op<K>)
    ensures (ops + [op])[..|ops|] == ops && (ops + [op])[|ops|] == op
  {
  }

  /** What one more operation does to the history functions. */
  lemma LiveStep<K>(ops: seq<Op<K>>, op: Op<K>, k: K)
    ensures Live(ops + [op], k) == Live(ops, k) + (if op.key != k then 0 else if op.Retrieve? then 1 else -1)
  {
    Extended(ops, op);
  }

  lemma IdleSinceStep<K>(ops: seq<Op<K>>, op: Op<K>, k: K)
    ensures op.Retrieve? ==> IdleSince(ops + [op], k) == IdleSince(ops, k)
    ensures op.Release? && op.key == k ==> IdleSince(ops + [op], k) == {}
    ensures op.Release? && op.key != k ==>
      IdleSince(ops + [op], k) == IdleSince(ops, k) + (if Live(ops, op.key) == 1 then {op.key} else {})
  {
    Extended(ops, op);
    LiveStep(ops, op, op.key);
  }

  lemma EverReleasedStep<K>(ops: seq<Op<K>>, op: Op<K>, k: K)
    ensures EverReleased(ops + [op], k) <==> EverReleased(ops, k) || op == Release(k)
  {
    var now := ops + [op];
    if EverReleased(ops, k) {
      var i :| 0 <= i < |ops| && ops[i] == Release(k);
      assert now[i] == Release(k);
    }
    if op == Release(k) { assert now[|ops|] == Release(k); }
  }

  lemma RetrieveCounted<K(!new)>(ops: seq<Op<K>>, s: State<K>, k: K)
    requires Counted(ops, s)
    ensures Counted(ops + [Retrieve(k)], Retrieved(s, k))
  {
    hide Live;
    var now := ops + [Retrieve(k)];
    forall x ensures Live(now, x) == Live(ops, x) + (if x == k then 1 else 0) { LiveStep(ops, Retrieve(k), x); }
    WithoutKeeps(s.recent, k);
  }

  lemma RetrieveKeeps<K(!new)>(ops: seq<Op<K>>, s: State<K>, k: K, capacity: nat)
    requires Inv(ops, s, capacity)
    ensures Inv(ops + [Retrieve(k)], Retrieved(s, k), capacity)
  {
    hide Live, IdleSince, EverReleased, Without;
    var now, s' := ops + [Retrieve(k)], Retrieved(s, k);
    RetrieveCounted(ops, s, k);
    WithoutKeeps(s.recent, k);
    WithoutOrdered(ops, s.recent, k);
    forall x ensures IdleSince(now, x) == IdleSince(ops, x) { IdleSinceStep(ops, Retrieve(k), x); }
    forall y | Forgotten(now, s', y)
      ensures Forgotten(ops, s, y)
    {
      EverReleasedStep(ops, Retrieve(k), y);
      LiveStep(ops, Retrieve(k), y);
    }
  }

  lemma NotLastRelease<K(!new)>(ops: seq<Op<K>>, s: State<K>, k: K, capacity: nat)
    requires Inv(ops, s, capacity)
    requires Live(ops, k) > 1
    ensures Inv(ops + [Release(k)], Released(s, k, capacity), capacity)
  {
    hide Live, IdleSince, EverReleased;
    var now, s' := ops + [Release(k)], Released(s, k, capacity);
    forall x ensures Live(now, x) == Live(ops, x) - (if x == k then 1 else 0) { LiveStep(ops, Release(k), x); }
    forall x | x != k ensures IdleSince(now, x) == IdleSince(ops, x) { IdleSinceStep(ops, Release(k), x); }
    forall y | Forgotten(now, s', y)
      ensures Forgotten(ops, s, y)
    {
      EverReleasedStep(ops, Release(k), y);
    }
  }

  lemma LastReleaseCounted<K(!new)>(ops: seq<Op<K>>, s: State<K>, k: K, capacity: nat)
    requires Counted(ops, s) && capacity > 0
    requires Live(ops, k) == 1
    ensures Counted(ops + [Release(k)], Released(s, k, capacity))
  {
    hide Live;
    var now := ops + [Release(k)];
    forall x ensures Live(now, x) == Live(ops, x) - (if x == k then 1 else 0) { LiveStep(ops, Release(k), x); }
  }

  /** An evicted key saw every remaining idle key become idle after it. */
  lemma EvictedIsOldest<K(!new)>(ops: seq<Op<K>>, s: State<K>, k: K, capacity: nat, y: K)
    requires Inv(ops, s, capacity) && capacity > 0
    requires Live(ops, k) == 1 && y in s.recent && y !in Kept(s.recent, capacity)
    ensures var since := IdleSince(ops + [Release(k)], y);
      |since| >= capacity && k in since && forall x :: x in Kept(s.recent, capacity) ==> x in since
  {
    hide Live, IdleSince;
    var since := IdleSince(ops + [Release(k)], y);
    var kept := Kept(s.recent, capacity);
    IdleSinceStep(ops, Release(k), y);
    assert |s.recent| == capacity && y == s.recent[capacity - 1];
    forall x | x in kept ensures x in since {
      var i :| 0 <= i < |kept| && kept[i] == x;
      assert s.recent[i] in IdleSince(ops, s.recent[capacity - 1]);
    }
    DistinctCount(kept);
    var all := (set x | x in kept) + {k};
    assert k !in s.recent;
    assert |all| == capacity;
    assert since == all + (since - all);
  }

  lemma LastReleaseOrdered<K(!new)>(ops: seq<Op<K>>, s: State<K>, k: K, capacity: nat)
    requires Inv(ops, s, capacity) && capacity > 0
    requires Live(ops, k) == 1
    ensures var s' := Released(s, k, capacity);
      |s'.recent| <= capacity && Ordered(ops + [Release(k)], s'.recent)
  {
    hide Live, IdleSince;
    var now := ops + [Release(k)];
    var kept := Kept(s.recent, capacity);
    forall x | x != k ensures IdleSince(now, x) == IdleSince(ops, x) + {k} { IdleSinceStep(ops, Release(k), x); }
    assert k !in s.recent;
    forall j | 0 <= j < |kept| ensures kept[j] == s.recent[j] {}
  }

  lemma LastReleaseForgotten<K(!new)>(ops: seq<Op<K>>, s: State<K>, k: K, capacity: nat, y: K)
    requires Inv(ops, s, capacity) && capacity > 0
    requires Live(ops, k) == 1
    requires Forgotten(ops + [Release(k)], Released(s, k, capacity), y)
    ensures var since := IdleSince(ops + [Release(k)], y);
      |since| >= capacity && forall x :: x in Released(s, k, capacity).recent ==> x in since
  {
    hide Live, IdleSince, EverReleased;
    var now := ops + [Release(k)];
    assert y != k;
    LiveStep(ops, Release(k), y);
    IdleSinceStep(ops, Release(k), y);
    EverReleasedStep(ops, Release(k), y);
    if y in s.references {
      EvictedIsOldest(ops, s, k, capacity, y);
    } else {
      assert Forgotten(ops, s, y);
      var since := IdleSince(ops, y);
      assert IdleSince(now, y) == since + ({k} - since);
    }
  }

  lemma CountedKey<K(!new)>(ops: seq<Op<K>>, s: State<K>, k: K)
    requires Counted(ops, s) && Live(ops, k) > 0
    ensures k in s.references && s.references[k] == Live(ops, k)
  {
  }

  lemma ReleaseKeeps<K(!new)>(ops: seq<Op<K>>, s: State<K>, k: K, capacity: nat)
    requires Inv(ops, s, capacity)
    requires Live(ops, k) > 0 && (capacity > 0 || !LosesLast(s, Release(k)))
    ensures Inv(ops + [Release(k)], Released(s, k, capacity), capacity)
  {
    hide Live, IdleSince, EverReleased, Counted, Ordered, Forgotten, Released;
    CountedKey(ops, s, k);
    if Live(ops, k) > 1 {
      NotLastRelease(ops, s, k, capacity);
    } else {
      LastReleaseOrdered(ops, s, k, capacity);
      LastReleaseCounted(ops, s, k, capacity);
      var now, s' := ops + [Release(k)], Released(s, k, capacity);
      forall y | Forgotten(now, s', y)
        ensures |IdleSince(now, y)| >= capacity && forall x :: x in s'.recent ==> x in IdleSince(now, y)
      {
        LastReleaseForgotten(ops, s, k, capacity, y);
      }
    }
  }

  lemma DefinedBefore<K>(s: State<K>, ops: seq<Op<K>>, op: Op<K>, capacity: nat)
    ensures Defined(s, ops + [op], capacity) <==>
              Defined(s, ops, capacity) && (capacity > 0 || !LosesLast(After(s, ops, capacity), op))
  {
    var all := ops + [op];
    assert forall i :: 0 <= i < |ops| ==> all[..i] == ops[..i] && all[i] == ops[i];
    assert all[..|ops|] == ops && all[|ops|] == op;
  }

  /** On every sound history the counters, the list and the evictions are as the invariant says. */
  lemma {:induction false} Always<K(!new)>(ops: seq<Op<K>>, capacity: nat)
    requires Sound(ops) && Defined(State(map[], []), ops, capacity)
    ensures Inv(ops, After(State(map[], []), ops, capacity), capacity)
  {
    hide IdleSince, Retrieved, Released;
    if ops != [] {
      var before, op := ops[..|ops| - 1], ops[|ops| - 1];
      assert before + [op] == ops;
      DefinedBefore(State(map[], []), before, op, capacity);
      Always(before, capacity);
      var s := After(State(map[], []), before, capacity);
      if op.Retrieve? {
        RetrieveKeeps(before, s, op.key, capacity);
      } else {
        ReleaseKeeps(before, s, op.key, capacity);
      }
    }
  }

  /** An idle key is still cached if fewer keys than the capacity have become idle since its last release. */
  lemma RecentKeysAreHits<K(!new)>(ops: seq<Op<K>>, capacity: nat, k: K)
    requires Sound(ops) && Defined(State(map[], []), ops, capacity)
    requires EverReleased(ops, k) && |IdleSince(ops, k)| < capacity
    ensures k in After(State(map[], []), ops, capacity).references
  {
    hide EverReleased, IdleSince;
    Always(ops, capacity);
    var s := After(State(map[], []), ops, capacity);
    assert Live(ops, k) >= 0;
    assert !Forgotten(ops, s, k);
  }

  /** Every idle key in the cache became idle after every key the cache has dropped. */
  lemma DroppedKeysAreOlder<K(!new)>(ops: seq<Op<K>>, capacity: nat, kept: K, dropped: K)
    requires Sound(ops) && Defined(State(map[], []), ops, capacity)
    requires var s := After(State(map[], []), ops, capacity);
      kept in s.recent && Forgotten(ops, s, dropped)
    ensures kept in IdleSince(ops, dropped)
  {
    hide IdleSince, EverReleased, Live;
    Always(ops, capacity);
  }
}
