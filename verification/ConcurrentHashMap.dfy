/** tbb::concurrent_hash_map with one thread at a time: whatever buckets have been split, the table is
    a finite map. */
module ConcurrentHashMap {
  import opened BitPrefixes
  import opened Options
  import opened SplitTable

  /** The first allocation makes room for 2^FIRST_BLOCK buckets. */
  const FIRST_BLOCK: nat := 8

  function Get<K, V>(m: map<K, V>, key: K): Option<V> {
    if key in m then Some(m[key]) else None
  }

  /** The number of bits of the mask after the next segment has been enabled. */
  function NextLog(log: nat): nat {
    if log >= FIRST_BLOCK then log + 1 else FIRST_BLOCK
  }

  class HashMap<K(==), V> {
    const hash: K -> nat
    var buckets: seq<Bucket<K, V>>
    var log: nat
    var size: nat
    ghost var model: map<K, V>

    /** my_mask is 2^log - 1. */
    ghost function State(): Table<K, V>
      reads this
    {
      Table(buckets, log, {})
    }

    ghost predicate Valid()
      reads this
    {
      && Holds(State(), hash, model)
      && size == |model|
      && (log == 1 || log >= FIRST_BLOCK)
    }

    constructor (hash: K -> nat)
      ensures Valid() && model == map[] && this.hash == hash && Closed(State())
      ensures log == 1 && AllSplit(State())
    {
      this.hash := hash;
      buckets := [Chain([]), Chain([])];
      log := 1;
      size := 0;
      model := map[];
    }

    // ---------- Splitting ----------

    /** The scan of rehash_bucket: every node of p that belongs to b moves to the front of b. */
    method TakeFromParent(p: nat, b: nat, ghost busy: set<nat>)
      requires p < |buckets| && Active(Table(buckets, log, busy), p)
      requires Moving(Table(buckets, log, busy), hash, model, p, 0, b)
      modifies `buckets
      ensures Holds(Table(buckets, log, busy), hash, model)
      ensures forall x: nat :: Active(Table(buckets, log, busy), x) == old(Active(Table(buckets, log, busy), x))
    {
      ghost var t := Table(buckets, log, busy);
      var i := 0;
      while i < |buckets[p].nodes|
        invariant forall x: nat :: Active(Table(buckets, log, busy), x) == Active(t, x)
        invariant Active(Table(buckets, log, busy), p) && i <= |buckets[p].nodes|
        invariant Moving(Table(buckets, log, busy), hash, model, p, i, b)
        decreases |buckets[p].nodes| - i
      {
        hide Moving;
        ghost var now := Table(buckets, log, busy);
        var nodes := buckets[p].nodes;
        if Cut(hash(nodes[i].key), Width(b)) == b {
          MoveOne(now, hash, model, p, i, b);
          assert p != b;
          buckets := buckets[p := Chain(nodes[..i] + nodes[i + 1..])];
          buckets := buckets[b := Chain([nodes[i]] + buckets[b].nodes)];
          assert Table(buckets, log, busy) == MoveNode(now, p, i, b);
        } else {
          KeepOne(now, hash, model, p, i, b);
          i := i + 1;
        }
      }
      NothingLeft(Table(buckets, log, busy), hash, model, p);
    }

    /** rehash_bucket: split b from its parent, which is split first if it has to be. The buckets in
        `busy` are being split by the callers. */
    method RehashBucket(b: nat, ghost busy: set<nat>)
      requires 1 < b < |buckets| && buckets[b] == RehashRequired
      requires Holds(Table(buckets, log, busy), hash, model)
      requires forall x :: x in busy ==> x > b
      modifies `buckets
      ensures Holds(Table(buckets, log, busy), hash, model)
      ensures SplitUpTo(old(Table(buckets, log, busy)), Table(buckets, log, busy), b)
      decreases b
    {
      ghost var t := Table(buckets, log, busy);
      buckets := buckets[b := Chain([])];
      ghost var t1 := Table(buckets, log, busy + {b});
      MarkedBusy(t, hash, model, b);
      assert t1 == t.(buckets := t.buckets[b := Chain([])], busy := t.busy + {b});
      var p := Parent(b);
      if buckets[p] == RehashRequired {
        RehashBucket(p, busy + {b});
        SplitFromSame(t, t1, Table(buckets, log, busy + {b}), p);
      } else {
        assert Active(t, p);
        NothingToSplit(t, t1, p);
      }
      ghost var t2 := Table(buckets, log, busy + {b});
      SplitReaches(t, t2, p);
      hide Holds, SplitUpTo, Root, Moving, Parent;
      StartMoving(t2, hash, model, b);
      assert t2.(busy := t2.busy - {b}) == Table(buckets, log, busy);
      assert Moving(Table(buckets, log, busy), hash, model, p, 0, b);
      TakeFromParent(p, b, busy);
      SplitAfterParent(t, t2, Table(buckets, log, busy), b);
    }

    /** The bucket for this hash code, split if it was not. */
    method Acquire(h: nat) returns (b: nat)
      requires Valid()
      modifies `buckets
      ensures Valid() && b == Cut(h, log) == Home(State(), h) && Active(State(), b)
      ensures SplitUpTo(old(State()), State(), b)
      ensures old(Closed(State())) ==> Closed(State())
    {
      ghost var t := State();
      b := Cut(h, log);
      CutBelow(h, log);
      if buckets[b] == RehashRequired {
        RehashBucket(b, {});
      } else {
        NothingToSplit(t, t, b);
      }
      SplitReaches(t, State(), b);
      if Closed(t) {
        SplitKeepsClosed(t, State(), b, 0);
      }
    }

    // ---------- One key ----------

    /** search_bucket */
    method SearchBucket(key: K, nodes: seq<Node<K, V>>) returns (i: nat)
      ensures i <= |nodes| && (i < |nodes| ==> nodes[i].key == key)
      ensures !HasKey(nodes[..i], 0, key)
      ensures i == |nodes| <==> !HasKey(nodes, 0, key)
    {
      i := 0;
      while i < |nodes| && nodes[i].key != key
        invariant i <= |nodes| && !HasKey(nodes[..i], 0, key)
      {
        i := i + 1;
      }
    }

    /** How lookup and erase begin: the key's bucket, and where in it the key is. */
    method Locate(key: K) returns (b: nat, i: nat)
      requires Valid()
      modifies `buckets
      ensures Valid() && b == Home(State(), hash(key)) && Active(State(), b)
      ensures i <= |buckets[b].nodes| && (i < |buckets[b].nodes| <==> key in model)
      ensures key in model ==> buckets[b].nodes[i] == Node(key, model[key])
      ensures SplitUpTo(old(State()), State(), Cut(hash(key), log))
      ensures old(Closed(State())) ==> Closed(State())
    {
      hide Loose, Cut, Home, SplitUpTo, Closed;
      b := Acquire(hash(key));
      i := SearchBucket(key, buckets[b].nodes);
      FoundAtHome(State(), hash, model, key);
    }

    method Find(key: K) returns (found: Option<V>)
      requires Valid()
      modifies `buckets
      ensures Valid() && found == Get(model, key)
      ensures SplitUpTo(old(State()), State(), Cut(hash(key), log))
      ensures old(Closed(State())) ==> Closed(State())
    {
      hide Loose, Cut, Home, SplitUpTo, Closed;
      var b, i := Locate(key);
      found := if i < |buckets[b].nodes| then Some(buckets[b].nodes[i].value) else None;
    }

    /** enable_segment */
    method EnableSegment(initial: bool)
      requires Valid() && (initial ==> size == 0)
      modifies `buckets, `log
      ensures Valid() && log == NextLog(old(log))
      ensures |buckets| == if |old(buckets)| == 2 then 256 else 2 * |old(buckets)|
      ensures |old(buckets)| <= Pow2(log)
      ensures State() == if initial then GrownEmpty(old(State()), log) else Grown(old(State()), log)
      ensures forall x: nat :: Active(State(), x) ==
                (old(Active(State(), x)) || (initial && |old(buckets)| <= x < |buckets|))
    {
      hide Loose, Pow2;
      ghost var t := State();
      SizeOf(t, hash, model);
      LogGrows(log);
      log := NextLog(log);
      if initial {
        assert model == map[];
        EmptyGrowthKeeps(t, hash, log);
        buckets := buckets + seq(Pow2(log) - |buckets|, _ => Chain([]));
        assert State() == GrownEmpty(t, log);
      } else {
        GrowthKeeps(t, hash, model, log);
        buckets := buckets + seq(Pow2(log) - |buckets|, _ => RehashRequired);
        assert State() == Grown(t, log);
      }
    }

    /** insert: an element that is there already stays as it is. */
    method Insert(key: K, value: V) returns (inserted: bool)
      requires Valid()
      modifies this
      ensures Valid()
      ensures inserted <==> key !in old(model)
      ensures model == if inserted then old(model)[key := value] else old(model)
      ensures log == if inserted && size >= |old(buckets)| - 1 then NextLog(old(log)) else old(log)
      ensures |buckets| == if !inserted || size < |old(buckets)| - 1 then |old(buckets)|
                           else if |old(buckets)| == 2 then 256 else 2 * |old(buckets)|
      ensures SplitUpTo(old(State()), State(), Cut(hash(key), old(log)))
      ensures old(Closed(State())) ==> Closed(State())
    {
      hide Loose, Cut, Home, SplitUpTo, Closed, Pow2;
      SizeOf(State(), hash, model);
      var b, i := Locate(key);
      SizeOf(State(), hash, model);
      var nodes := buckets[b].nodes;
      inserted := i == |nodes|;
      if inserted {
        ghost var t := State();
        AddedToBucket(t, hash, model, b, key, value);
        size := size + 1;
        buckets := buckets[b := Chain([Node(key, value)] + nodes)];
        model := model[key := value];
        ghost var t1 := State();
        assert t1 == t.(buckets := t.buckets[b := Chain([Node(key, value)] + nodes)]);
        SameSplits(t, t1, b);
        if size >= Pow2(log) - 1 {
          EnableSegment(false);
          GrownActive(t1, log);
          SameSplits(t1, State(), b);
        }
      }
    }

    method Erase(key: K) returns (erased: bool)
      requires Valid()
      modifies `buckets, `size, `model
      ensures Valid()
      ensures erased <==> key in old(model)
      ensures model == old(model) - {key}
      ensures SplitUpTo(old(State()), State(), Cut(hash(key), log))
      ensures old(Closed(State())) ==> Closed(State())
    {
      hide Loose, Cut, Home, SplitUpTo, Closed, Shape;
      var b, i := Locate(key);
      var nodes := buckets[b].nodes;
      erased := i < |nodes|;
      if erased {
        ghost var t := State();
        RemovedFromBucket(t, hash, model, b, i);
        OneKeyLess(model, key);
        buckets := buckets[b := Chain(nodes[..i] + nodes[i + 1..])];
        size := size - 1;
        model := model - {key};
        SameSplits(t, State(), b);
      } else {
        assert model - {key} == model;
      }
    }

    /** The climb of internal_equal_range and rehash: from b up to the first split bucket. */
    method FirstSplit(b: nat) returns (h: nat)
      requires Valid() && b < |buckets|
      ensures h == Root(State(), b) && Active(State(), h)
    {
      hide Filed, Stored, NotTwice, Cut, Log2, Pow2, Parent;
      h := b;
      while buckets[h] == RehashRequired
        invariant h < |buckets| && Root(State(), h) == Root(State(), b)
        decreases h
      {
        h := Parent(h);
      }
    }

    /** internal_equal_range: finds the key without splitting a bucket. */
    method EqualRange(key: K) returns (found: Option<V>)
      requires Valid()
      ensures found == Get(model, key)
    {
      CutBelow(hash(key), log);
      var h := FirstSplit(Cut(hash(key), log));
      var nodes := buckets[h].nodes;
      FoundAtHome(State(), hash, model, key);
      hide Loose, Cut, Pow2, Root;
      var i := SearchBucket(key, nodes);
      found := if i < |nodes| then Some(nodes[i].value) else None;
    }

    // ---------- rehash ----------

    /** mark_rehashed_levels: every unsplit bucket with h as its root is marked as split. */
    method MarkRehashedLevels(h: nat)
      requires Shape(State()) && Active(State(), h)
      modifies `buckets
      ensures Marked(old(State()), h, buckets, log)
      decreases |buckets| - h
    {
      hide Marked, Root, Cut, Log2;
      ghost var t := State();
      var s := Width(h);
      MarkNothing(t, h);
      while s < log
        invariant Width(h) <= s <= log && h < Pow2(s)
        invariant |buckets| == |t.buckets| && Marked(t, h, buckets, s)
      {
        Pow2Monotone(s + 1, log);
        var c := h + Pow2(s);
        if buckets[c] == RehashRequired {
          ghost var before := buckets;
          buckets := buckets[c := Chain([])];
          MarkedShapeAt(t, h, before, s);
          MarkRehashedLevels(c);
          MarkDescends(t, h, before, buckets, s);
        } else {
          MarkSkips(t, h, buckets, s);
        }
        s := s + 1;
        MarkedLength(t, h, buckets, s);
      }
    }

    /** The scan of rehash: every node of h that belongs to another bucket moves to the front of it. */
    method MoveAllHome(h: nat)
      requires h < |buckets| && Active(State(), h) && Spreading(State(), hash, model, h, 0)
      modifies `buckets
      ensures Holds(State(), hash, model) && |buckets| == |old(buckets)|
      ensures forall x: nat :: Active(State(), x) == old(Active(State(), x))
    {
      ghost var t := State();
      var i := 0;
      while i < |buckets[h].nodes|
        invariant |buckets| == |t.buckets| && forall x: nat :: Active(State(), x) == Active(t, x)
        invariant Active(State(), h) && i <= |buckets[h].nodes|
        invariant Spreading(State(), hash, model, h, i)
        decreases |buckets[h].nodes| - i
      {
        hide Spreading;
        ghost var now := State();
        var nodes := buckets[h].nodes;
        var d := Cut(hash(nodes[i].key), log);
        if d != h {
          SpreadOne(now, hash, model, h, i);
          buckets := buckets[h := Chain(nodes[..i] + nodes[i + 1..])];
          buckets := buckets[d := Chain([nodes[i]] + buckets[d].nodes)];
          assert State() == MoveNode(now, h, i, d);
        } else {
          LeaveOne(now, hash, model, h, i);
          i := i + 1;
        }
      }
      NothingLeft(State(), hash, model, h);
    }

    /** reserve: whether the table is empty is looked at once, before the first new segment. */
    method Reserve(sz: nat)
      requires Valid()
      modifies `buckets, `log
      ensures Valid() && |buckets| >= sz && log >= old(log)
      ensures log > old(log) <==> sz > |old(buckets)|
      ensures if sz <= |old(buckets)| then |buckets| == |old(buckets)|
              else sz > if |buckets| == 256 then 2 else |buckets| / 2
      ensures |old(buckets)| <= Pow2(log) && State() == Reserved(old(State()), size == 0, log)
    {
      hide Holds, Pow2;
      var initial := size == 0;
      ShapeOf(State(), hash, model);
      ReservedSame(State(), initial);
      while sz > Pow2(log)
        invariant Valid() && |buckets| == Pow2(log) && log >= old(log) && (log > old(log) ==> sz > |old(buckets)|)
        invariant if log == old(log) then |buckets| == |old(buckets)| else sz > if |buckets| == 256 then 2 else |buckets| / 2
        invariant |old(buckets)| <= Pow2(log) && State() == Reserved(old(State()), initial, log)
        decreases sz - Pow2(log)
      {
        ghost var before := State();
        LogGrows(log);
        EnableSegment(initial);
        ShapeOf(State(), hash, model);
        ReservedAgain(old(State()), before, initial, log);
      }
    }

    /** Split the last-level bucket b together with every unsplit bucket that has the same root. */
    method SplitLast(b: nat)
      requires Valid() && b < |buckets| && buckets[b] == RehashRequired
      modifies `buckets
      ensures Valid() && RootSplit(old(State()), State(), b)
    {
      hide Loose, Root, Marked, Spreading, RootSplit;
      ghost var t := State();
      var h := FirstSplit(b);
      ShapeOf(t, hash, model);
      assert Active(t, h);
      MarkRehashedLevels(h);
      StartSpreading(t, hash, model, h, buckets);
      MarkedLength(t, h, buckets, log);
      assert State() == Table(buckets, t.log, {});
      RootSplitStart(t, State(), h, b);
      ghost var t1 := State();
      MoveAllHome(h);
      RootSplitSame(t, t1, State(), b);
    }

    /** rehash: only the last segment is looked through, and exactly the unsplit buckets whose root some
        unsplit bucket of that segment has are split. So all are split in the end if and only if every
        unsplit bucket is of that kind, in the table that the scan begins with. */
    method Rehash(sz: nat)
      requires Valid()
      modifies `buckets, `log
      ensures Valid() && |buckets| >= sz && log >= old(log)
      ensures log > old(log) <==> sz > |old(buckets)|
      ensures if sz <= |old(buckets)| then |buckets| == |old(buckets)|
              else sz > if |buckets| == 256 then 2 else |buckets| / 2
      ensures |old(buckets)| <= Pow2(log) && ScannedTo(Reserved(old(State()), size == 0, log), State(), |buckets|)
      ensures var t := Reserved(old(State()), size == 0, log);
              AllSplit(State()) <==> forall x: nat :: x < |t.buckets| && !Active(t, x) ==> Reached(t, x)
      ensures LastSplit(State())
      ensures old(Closed(State())) ==>
                (AllSplit(State()) <==> !(size == 0 && sz > |old(buckets)| && !old(AllSplit(State()))))
      ensures size != 0 && sz > |old(buckets)| ==> AllSplit(State())
      ensures AllSplit(State()) ==> forall h: nat :: Home(State(), h) == Cut(h, log)
    {
      ShapeOf(State(), hash, model);
      hide Holds, Home, Root, Pow2, Cut, RootSplit, AllSplit, Closed, LastSplit, ScannedTo, Reserved, Reached, Shape;
      Reserve(sz);
      ghost var t := State();
      ShapeOf(t, hash, model);
      ScanLastSegment();
      ShapeOf(State(), hash, model);
      ScanEnds(t, State());
      Rehashed(old(State()), t, State(), size == 0);
      if AllSplit(State()) {
        AllSplitHome(State());
      }
    }

    method ScanLastSegment()
      requires Valid()
      modifies `buckets
      ensures Valid() && old(log >= 1) && ScannedTo(old(State()), State(), old(|buckets|))
    {
      hide Holds, Home, Root, Cut, RootSplit, Shape, ScannedTo, ReachedBelow;
      ghost var t := State();
      SizeOf(t, hash, model);
      ScanStarts(t);
      var b := Pow2(log - 1);
      while b < |buckets|
        invariant Valid() && |buckets| == |t.buckets| && log == t.log && Pow2(log - 1) <= b <= |buckets|
        invariant ScannedTo(t, State(), b)
      {
        ghost var before := State();
        if buckets[b] == RehashRequired {
          SplitLast(b);
          RootSplitActive(before, State(), b);
          ScanSplits(t, before, State(), b);
        } else {
          ScanSkips(t, before, b);
        }
        b := b + 1;
      }
    }
  }

  /** An emptied map, in whose first allocated segments no bucket has been split. */
  method Emptied() returns (m: HashMap<nat, nat>)
    ensures fresh(m) && m.Valid() && m.model == map[] && m.hash(7) == 0
    ensures m.log == 8 && |m.buckets| == 256 && !Active(m.State(), 2)
  {
    m := new HashMap<nat, nat>(_ => 0);
    hide Loose, Closed, Home, Cut, Prefix, Pow2, Root, SplitUpTo;
    SizeOf(m.State(), m.hash, m.model);
    ghost var t0 := m.State();
    Powers();
    var inserted := m.Insert(7, 1);
    ghost var t1 := m.State();
    SizeOf(t1, m.hash, m.model);
    OnlyTheFirst(t0, t1, 1);
    var erased := m.Erase(7);
    SizeOf(m.State(), m.hash, m.model);
    OnlyTheFirst(t1, m.State(), 8);
  }

  /** How rehash leaves buckets unsplit: insert, erase, then reserve more buckets. */
  method EmptiedThenRehashed() returns (m: HashMap<nat, nat>)
    ensures fresh(m) && m.Valid() && m.model == map[] && m.hash(7) == 0
    ensures |m.buckets| >= 512 && LastSplit(m.State()) && !Active(m.State(), 2) && !AllSplit(m.State())
  {
    m := Emptied();
    hide Loose, Closed, Home, Pow2, Root, ScannedTo, Reached, LastSplit, Reserved;
    ghost var t := m.State();
    ShapeOf(t, m.hash, m.model);
    m.Rehash(512);
    ShapeOf(m.State(), m.hash, m.model);
    EmptyGrowthSplitsNothing(t, m.State(), 2);
  }

  /** And once that has happened, the same with an element in the map and without growth. */
  method FilledThenRehashed() returns (m: HashMap<nat, nat>)
    ensures m.Valid() && m.model == map[7 := 1] && !AllSplit(m.State())
  {
    m := EmptiedThenRehashed();
    hide Loose, Closed, Home, Pow2, Cut, Prefix, Root, SplitUpTo, ScannedTo, Reached, LastSplit, Reserved;
    ghost var t := m.State();
    SizeOf(t, m.hash, m.model);
    ShapeOf(t, m.hash, m.model);
    var inserted := m.Insert(7, 1);
    ghost var t1 := m.State();
    SizeOf(t1, m.hash, m.model);
    ShapeOf(t1, m.hash, m.model);
    OnlyTheFirst(t, t1, t.log);
    LastStaysSplit(t, t1, Cut(0, t.log), 2);
    m.Rehash(0);
    ReservedSame(t1, false);
    assert 2 < |t1.buckets| && !Active(t1, 2);
  }

  lemma EmptyGrowthSplitsNothing<K, V>(t: Table<K, V>, t': Table<K, V>, x: nat)
    requires Shape(t) && Shape(t') && t'.log > t.log && x < |t.buckets| <= Pow2(t'.log)
    requires ScannedTo(Reserved(t, true, t'.log), t', |t'.buckets|) && !Active(t, x)
    ensures !Active(t', x)
  {
    var r := GrownEmpty(t, t'.log);
    GrownEmptyActive(t, t'.log);
    hide Active, Root, Pow2;
    assert Shape(r);
    EmptyGrowthReachesNothing(t, r);
    hide GrownEmpty;
    assert !Reached(r, x);
  }

  /** Once the last segment is split, rehash has nothing to begin with, whatever else is unsplit. */
  lemma LastStaysSplit<K, V>(t: Table<K, V>, t': Table<K, V>, b: nat, x: nat)
    requires t.log == t'.log >= 1 && |t'.buckets| == |t.buckets| && LastSplit(t) && SplitUpTo(t, t', b)
    ensures LastSplit(t') && !Reached(t', x)
  {
  }

  lemma SizeOf<K, V>(t: Table<K, V>, hash: K -> nat, model: map<K, V>)
    requires Holds(t, hash, model)
    ensures |t.buckets| == Pow2(t.log)
  {
  }

  lemma Powers()
    ensures Pow2(1) == 2 && Pow2(8) == 256
  {
  }

  lemma OnlyTheFirst<K, V>(t: Table<K, V>, t': Table<K, V>, k: nat)
    requires SplitUpTo(t, t', Cut(0, k)) && !Active(t, 2)
    ensures !Active(t', 2)
  {
    NothingBelowZero(t);
  }

  // ---------- Where a bucket is ----------

  /** segment_index_of: index | 1 is index itself or, if that is even, the next number. */
  function SegmentIndexOf(index: nat): nat {
    Log2(if index % 2 == 0 then index + 1 else index)
  }

  /** segment_base: (1 << k) without its lowest bit */
  function SegmentBase(k: nat): nat {
    Pow2(k) - Pow2(k) % 2
  }

  /** The number of buckets in a segment: the first one holds two. */
  function SegmentLength(k: nat): nat {
    if k == 0 then 2 else Pow2(k)
  }

  lemma SegmentBounds(k: nat)
    ensures SegmentBase(k) == if k == 0 then 0 else Pow2(k)
    ensures SegmentBase(k) + SegmentLength(k) == Pow2(k + 1)
  {
  }

  lemma IndexWithin(index: nat, k: nat)
    requires SegmentBase(k) <= index < SegmentBase(k) + SegmentLength(k)
    ensures SegmentIndexOf(index) == k
  {
    var odd := if index % 2 == 0 then index + 1 else index;
    SegmentBounds(k);
    assert odd < Pow2(k + 1) by { assert Pow2(k + 1) % 2 == 0; }
    Log2Below(odd, k + 1);
    Log2Bounds(odd);
    if Log2(odd) < k {
      Pow2Monotone(Log2(odd) + 1, k);
    }
  }

  /** get_bucket: every bucket number has its own place in exactly one segment, and its offset there is
      the number of its parent. */
  lemma AddressOf(index: nat)
    ensures SegmentBase(SegmentIndexOf(index)) <= index
            < SegmentBase(SegmentIndexOf(index)) + SegmentLength(SegmentIndexOf(index))
    ensures forall k: nat :: SegmentBase(k) <= index < SegmentBase(k) + SegmentLength(k) ==> k == SegmentIndexOf(index)
    ensures index > 1 ==> Parent(index) == index - SegmentBase(SegmentIndexOf(index))
  {
    var k := if index <= 1 then 0 else Log2(index);
    SegmentBounds(k);
    if index > 1 {
      Log2Bounds(index);
      ParentIs(index);
    }
    IndexWithin(index, k);
    forall k': nat | SegmentBase(k') <= index < SegmentBase(k') + SegmentLength(k') ensures k' == SegmentIndexOf(index) {
      IndexWithin(index, k');
    }
  }

  // ---------- Growth during a search ----------

  /** check_rehashing_collision: a thread has looked at the bucket of h under a mask of kOld bits, and
      since then the table has grown. It has to start over exactly if h has got another home. What is required
      of the table is what GrowthWhileSearching gives. */
  method CheckRehashingCollision<K, V>(t: Table<K, V>, h: nat, kOld: nat) returns (race: bool)
    requires Shape(t) && ClosedFrom(t, Pow2(kOld)) && 1 <= kOld < t.log && Active(t, Cut(h, kOld))
    ensures !race ==> Home(t, h) == Cut(h, kOld)
    ensures race && t.busy == {} ==> Home(t, h) != Cut(h, kOld)
  {
    race := false;
    if Cut(h, kOld) != Cut(h, t.log) {
      var k := kOld;
      while (h / Pow2(k)) % 2 == 0
        invariant kOld <= k < t.log && Cut(h, k) == Cut(h, kOld)
        decreases t.log - k
      {
        BitOfCut(h, k);
        k := k + 1;
      }
      BitOfCut(h, k);
      CutInTable(t, h, k + 1);
      race := t.buckets[Cut(h, k + 1)] != RehashRequired;
      Pow2Monotone(kOld, k);
      ClosedFromMore(t, Pow2(kOld), Pow2(k));
      ChildDecides(t, h, k);
    }
  }

  /** Without a race, the thread's search is valid for the grown table: the key is in the map exactly
      if it is in that bucket. */
  lemma MissIsFinal<K, V>(t: Table<K, V>, hash: K -> nat, model: map<K, V>, key: K, kOld: nat)
    requires Holds(t, hash, model) && Home(t, hash(key)) == Cut(hash(key), kOld)
    ensures Active(t, Cut(hash(key), kOld))
    ensures key in model <==> HasKey(t.buckets[Cut(hash(key), kOld)].nodes, 0, key)
  {
    FoundAtHome(t, hash, model, key);
  }

  lemma LogGrows(log: nat)
    requires log == 1 || log >= FIRST_BLOCK
    ensures Pow2(NextLog(log)) > Pow2(log) && NextLog(log) > log
    ensures Pow2(NextLog(log)) == if Pow2(log) == 2 then 256 else 2 * Pow2(log)
    ensures Pow2(NextLog(log)) == 256 <==> log == 1
  {
    Powers();
    if log >= FIRST_BLOCK {
      Pow2Monotone(FIRST_BLOCK, log);
    }
  }

  lemma OneKeyLess<K, V>(m: map<K, V>, key: K)
    requires key in m
    ensures |m - {key}| == |m| - 1
  {
    assert (m - {key})[key := m[key]] == m;
  }
}
