/** A hash table whose buckets are split lazily (concurrent_hash_map.h): which bucket a hash code
    belongs to while some buckets still wait to be split from their parents. */
module SplitTable {
  import opened BitPrefixes

  datatype Node<K, V> = Node(key: K, value: V)

  /** node_list: rehash_req, or a chain of nodes (empty_rehashed when empty). */
  datatype Bucket<K, V> = RehashRequired | Chain(nodes: seq<Node<K, V>>)

  /** 2^log buckets (my_mask is 2^log - 1). Those in `busy` are marked as split but their nodes have
      not been moved in yet: they are the ones that rehash_bucket is working on. */
  datatype Table<K, V> = Table(buckets: seq<Bucket<K, V>>, log: nat, busy: set<nat>)

  predicate Active<K, V>(t: Table<K, V>, b: nat) {
    b < |t.buckets| && t.buckets[b].Chain? && b !in t.busy
  }

  /** The nearest split bucket: b or the first split one among its ancestors. */
  function Root<K, V>(t: Table<K, V>, b: nat): (r: nat)
    ensures r <= b
  {
    if b <= 1 || Active(t, b) then b else Root(t, Parent(b))
  }

  /** Where the nodes with this hash code are. */
  function Home<K, V>(t: Table<K, V>, h: nat): nat {
    Root(t, Cut(h, t.log))
  }

  ghost predicate Shape<K, V>(t: Table<K, V>) {
    && t.log >= 1 && |t.buckets| == Pow2(t.log)
    && Active(t, 0) && Active(t, 1)
    && (forall b {:trigger b in t.busy} :: b in t.busy ==> b < |t.buckets| && t.buckets[b] == Chain([]))
  }

  /** The parent of a split bucket is split, for all buckets from number n on. */
  ghost predicate ClosedFrom<K, V>(t: Table<K, V>, n: nat) {
    forall b {:trigger Active(t, b)} :: b > 1 && b >= n && Active(t, b) ==> Active(t, Parent(b))
  }

  ghost predicate Closed<K, V>(t: Table<K, V>) {
    ClosedFrom(t, 0)
  }

  // ---------- Contents ----------

  predicate HasKey<K(==), V>(nodes: seq<Node<K, V>>, from: nat, key: K) {
    exists j :: from <= j < |nodes| && nodes[j].key == key
  }

  ghost predicate Distinct<K, V>(nodes: seq<Node<K, V>>) {
    forall i, j :: 0 <= i < j < |nodes| ==> nodes[i].key != nodes[j].key
  }

  /** Every node of bucket b is one of the model's, and is at home; in bucket p this need not be so
      from position i on. */
  ghost predicate Filed<K, V>(t: Table<K, V>, hash: K -> nat, model: map<K, V>, p: nat, i: nat, b: nat)
    requires b < |t.buckets|
  {
    t.buckets[b].Chain? ==>
      && Distinct(t.buckets[b].nodes)
      && forall j :: 0 <= j < |t.buckets[b].nodes| ==>
           var n := t.buckets[b].nodes[j];
           && n.key in model && model[n.key] == n.value
           && ((b == p && j >= i) || Home(t, hash(n.key)) == b)
  }

  ghost predicate Stored<K, V>(t: Table<K, V>, hash: K -> nat, p: nat, i: nat, key: K) {
    || (Active(t, Home(t, hash(key))) && HasKey(t.buckets[Home(t, hash(key))].nodes, 0, key))
    || (Active(t, p) && HasKey(t.buckets[p].nodes, i, key))
  }

  /** A node that is still to be moved out of p is not at its home already. */
  ghost predicate NotTwice<K, V>(t: Table<K, V>, hash: K -> nat, p: nat, i: nat) {
    Active(t, p) ==>
      forall j {:trigger t.buckets[p].nodes[j]} :: i <= j < |t.buckets[p].nodes| ==>
        var key := t.buckets[p].nodes[j].key;
        Home(t, hash(key)) != p ==>
          Active(t, Home(t, hash(key))) && !HasKey(t.buckets[Home(t, hash(key))].nodes, 0, key)
  }

  /** The table holds the model, but for the nodes of bucket p from position i on, which may still
      have to move to their home. */
  ghost predicate Loose<K, V>(t: Table<K, V>, hash: K -> nat, model: map<K, V>, p: nat, i: nat) {
    && Shape(t)
    && (forall b :: 0 <= b < |t.buckets| ==> Filed(t, hash, model, p, i, b))
    && (forall key :: key in model ==> Stored(t, hash, p, i, key))
    && NotTwice(t, hash, p, i)
  }

  /** The table holds exactly the model, every node at its home. */
  ghost predicate Holds<K, V>(t: Table<K, V>, hash: K -> nat, model: map<K, V>) {
    Loose(t, hash, model, |t.buckets|, 0)
  }

  // ---------- The tree under growth and splits ----------

  lemma {:induction false} RootActive<K, V>(t: Table<K, V>, b: nat)
    requires Shape(t)
    ensures Active(t, Root(t, b))
  {
    if b > 1 && !Active(t, b) {
      RootActive(t, Parent(b));
    }
  }

  lemma HomeActive<K, V>(t: Table<K, V>, h: nat)
    requires Shape(t)
    ensures Active(t, Home(t, h))
  {
    RootActive(t, Cut(h, t.log));
  }

  lemma {:induction false} RootIsPrefix<K, V>(t: Table<K, V>, b: nat)
    ensures Prefix(Root(t, b), b)
  {
    PrefixSelf(b);
    if b > 1 && !Active(t, b) {
      RootIsPrefix(t, Parent(b));
      PrefixOfParent(Root(t, b), b);
    }
  }

  /** The root depends on nothing but which buckets are split. */
  lemma {:induction false} RootSame<K, V>(t: Table<K, V>, t': Table<K, V>, b: nat)
    requires forall x: nat :: x <= b ==> Active(t, x) == Active(t', x)
    ensures Root(t', b) == Root(t, b)
  {
    if b > 1 && !Active(t, b) {
      RootSame(t, t', Parent(b));
    }
  }

  /** Splitting bucket b off its parent: exactly the descendants of b move from the parent to b. */
  lemma {:induction false} RootAfterSplit<K, V>(t: Table<K, V>, t': Table<K, V>, b: nat, x: nat)
    requires b > 1 && !Active(t, b) && Active(t, Parent(b)) && Active(t', b)
    requires forall y: nat :: y != b ==> Active(t, y) == Active(t', y)
    ensures Root(t', x) == if Root(t, x) == Parent(b) && Prefix(b, x) then b else Root(t, x)
  {
    PrefixSelf(b);
    if x <= 1 || Active(t, x) {
      if x == Parent(b) {
        ShorterIsNoPrefix(b, x);
      }
    } else if x != b {
      RootAfterSplit(t, t', b, Parent(x));
      PrefixOfParent(b, x);
    }
  }

  lemma ShorterIsNoPrefix(b: nat, x: nat)
    requires x < b
    ensures !Prefix(b, x)
  {
    CutBelow(x, Width(b));
  }

  /** More buckets, none of them split: nothing moves. */
  lemma {:induction false} HomeAfterGrowth<K, V>(t: Table<K, V>, t': Table<K, V>, h: nat)
    requires Shape(t) && t.log <= t'.log
    requires forall x: nat :: Active(t, x) == Active(t', x)
    ensures Home(t', h) == Home(t, h)
  {
    HomeAtLog(t, t', h, t'.log);
  }

  lemma {:induction false} HomeAtLog<K, V>(t: Table<K, V>, t': Table<K, V>, h: nat, log: nat)
    requires Shape(t) && t.log <= log
    requires forall x: nat :: Active(t, x) == Active(t', x)
    ensures Root(t', Cut(h, log)) == Home(t, h)
  {
    if log == t.log {
      RootSame(t, t', Cut(h, log));
    } else {
      HomeAtLog(t, t', h, log - 1);
      if Cut(h, log) != Cut(h, log - 1) {
        CutIsParent(h, log - 1);
        CutNext(h, log - 1);
        Pow2Monotone(t.log, log - 1);
        assert !Active(t, Cut(h, log));
      }
    }
  }

  // ---------- Moving nodes home ----------

  function MoveNode<K, V>(t: Table<K, V>, p: nat, i: nat, d: nat): Table<K, V>
    requires Active(t, p) && Active(t, d) && i < |t.buckets[p].nodes|
  {
    var nodes := t.buckets[p].nodes;
    var removed := t.buckets[p := Chain(nodes[..i] + nodes[i + 1..])];
    t.(buckets := removed[d := Chain([nodes[i]] + t.buckets[d].nodes)])
  }

  lemma MoveKeepsShape<K, V>(t: Table<K, V>, p: nat, i: nat, d: nat)
    requires Shape(t) && Active(t, p) && Active(t, d) && p != d && i < |t.buckets[p].nodes|
    ensures Shape(MoveNode(t, p, i, d))
    ensures forall x: nat :: Active(MoveNode(t, p, i, d), x) == Active(t, x)
    ensures forall h: nat :: Home(MoveNode(t, p, i, d), h) == Home(t, h)
  {
    var t' := MoveNode(t, p, i, d);
    assert forall x: nat :: Active(t', x) == Active(t, x);
    forall h: nat ensures Home(t', h) == Home(t, h) {
      RootSame(t, t', Cut(h, t.log));
    }
  }

  lemma FiledAtTarget<K, V>(t: Table<K, V>, hash: K -> nat, model: map<K, V>, p: nat, i: nat, d: nat)
    requires Loose(t, hash, model, p, i) && Active(t, p) && i < |t.buckets[p].nodes|
    requires d == Home(t, hash(t.buckets[p].nodes[i].key)) && d != p && Active(t, d)
    ensures Filed(MoveNode(t, p, i, d), hash, model, p, i, d)
  {
    var t' := MoveNode(t, p, i, d);
    MoveKeepsShape(t, p, i, d);
    assert Filed(t, hash, model, p, i, p) && Filed(t, hash, model, p, i, d);
    var nodes, nodes' := t.buckets[d].nodes, t'.buckets[d].nodes;
    assert forall j :: 0 < j < |nodes'| ==> nodes'[j] == nodes[j - 1];
    assert nodes'[0] == t.buckets[p].nodes[i];
    assert !HasKey(nodes, 0, nodes'[0].key);
  }

  lemma FiledAtSource<K, V>(t: Table<K, V>, hash: K -> nat, model: map<K, V>, p: nat, i: nat, d: nat)
    requires Loose(t, hash, model, p, i) && Active(t, p) && i < |t.buckets[p].nodes|
    requires d == Home(t, hash(t.buckets[p].nodes[i].key)) && d != p && Active(t, d)
    ensures Filed(MoveNode(t, p, i, d), hash, model, p, i, p)
  {
    var t' := MoveNode(t, p, i, d);
    MoveKeepsShape(t, p, i, d);
    assert Filed(t, hash, model, p, i, p);
    var nodes, nodes' := t.buckets[p].nodes, t'.buckets[p].nodes;
    assert forall j :: 0 <= j < i ==> nodes'[j] == nodes[j];
    assert forall j :: i <= j < |nodes'| ==> nodes'[j] == nodes[j + 1];
    hide Loose, Home, HasKey;
  }

  lemma MovedFiled<K, V>(t: Table<K, V>, hash: K -> nat, model: map<K, V>, p: nat, i: nat, d: nat, b: nat)
    requires Loose(t, hash, model, p, i) && Active(t, p) && i < |t.buckets[p].nodes|
    requires d == Home(t, hash(t.buckets[p].nodes[i].key)) && d != p && Active(t, d)
    requires b < |t.buckets|
    ensures Filed(MoveNode(t, p, i, d), hash, model, p, i, b)
  {
    if b == d {
      FiledAtTarget(t, hash, model, p, i, d);
    } else if b == p {
      FiledAtSource(t, hash, model, p, i, d);
    } else {
      MoveKeepsShape(t, p, i, d);
      assert MoveNode(t, p, i, d).buckets[b] == t.buckets[b];
      assert Filed(t, hash, model, p, i, b);
    }
  }

  lemma MovedNotTwice<K, V>(t: Table<K, V>, hash: K -> nat, model: map<K, V>, p: nat, i: nat, d: nat)
    requires Loose(t, hash, model, p, i) && Active(t, p) && i < |t.buckets[p].nodes|
    requires d == Home(t, hash(t.buckets[p].nodes[i].key)) && d != p && Active(t, d)
    ensures NotTwice(MoveNode(t, p, i, d), hash, p, i)
  {
    var t' := MoveNode(t, p, i, d);
    MoveKeepsShape(t, p, i, d);
    assert Filed(t, hash, model, p, i, p);
    forall j {:trigger t'.buckets[p].nodes[j]} | i <= j < |t'.buckets[p].nodes|
      ensures var key := t'.buckets[p].nodes[j].key;
              Home(t', hash(key)) != p ==>
                Active(t', Home(t', hash(key))) && !HasKey(t'.buckets[Home(t', hash(key))].nodes, 0, key)
    {
      assert t'.buckets[p].nodes[j] == t.buckets[p].nodes[j + 1];
    }
  }

  /** One node moves home; the others of bucket p wait. */
  lemma NodeMoved<K, V>(t: Table<K, V>, hash: K -> nat, model: map<K, V>, p: nat, i: nat, d: nat)
    requires Loose(t, hash, model, p, i) && Active(t, p) && i < |t.buckets[p].nodes|
    requires d == Home(t, hash(t.buckets[p].nodes[i].key)) && d != p && Active(t, d)
    ensures Loose(MoveNode(t, p, i, d), hash, model, p, i)
  {
    var t' := MoveNode(t, p, i, d);
    MoveKeepsShape(t, p, i, d);
    MovedNotTwice(t, hash, model, p, i, d);
    forall b | 0 <= b < |t'.buckets| ensures Filed(t', hash, model, p, i, b) {
      MovedFiled(t, hash, model, p, i, d, b);
    }
    forall key | key in model ensures Stored(t', hash, p, i, key) {
      StillStored(t, hash, p, i, d, key);
    }
  }

  /** A node of bucket p is at home already. */
  lemma NodeStays<K, V>(t: Table<K, V>, hash: K -> nat, model: map<K, V>, p: nat, i: nat)
    requires Loose(t, hash, model, p, i) && Active(t, p) && i < |t.buckets[p].nodes|
    requires Home(t, hash(t.buckets[p].nodes[i].key)) == p
    ensures Loose(t, hash, model, p, i + 1)
  {
    var i' := i + 1;
    forall b | 0 <= b < |t.buckets| ensures Filed(t, hash, model, p, i', b) {
      assert Filed(t, hash, model, p, i, b);
    }
    forall key | key in model ensures Stored(t, hash, p, i', key) {
      assert Stored(t, hash, p, i, key);
      if t.buckets[p].nodes[i].key == key {
        assert HasKey(t.buckets[p].nodes, 0, key);
      }
    }
  }

  /** All nodes of bucket p have been looked at. */
  lemma NothingLeft<K, V>(t: Table<K, V>, hash: K -> nat, model: map<K, V>, p: nat)
    requires Active(t, p) && Loose(t, hash, model, p, |t.buckets[p].nodes|)
    ensures Holds(t, hash, model)
  {
    forall b | 0 <= b < |t.buckets| ensures Filed(t, hash, model, |t.buckets|, 0, b) {
      assert Filed(t, hash, model, p, |t.buckets[p].nodes|, b);
    }
    forall key | key in model ensures Stored(t, hash, |t.buckets|, 0, key) {
      assert Stored(t, hash, p, |t.buckets[p].nodes|, key);
    }
  }

  lemma StillStored<K, V>(t: Table<K, V>, hash: K -> nat, p: nat, i: nat, d: nat, key: K)
    requires Shape(t) && Active(t, p) && i < |t.buckets[p].nodes|
    requires d == Home(t, hash(t.buckets[p].nodes[i].key)) && d != p && Active(t, d)
    requires Stored(t, hash, p, i, key)
    ensures Stored(MoveNode(t, p, i, d), hash, p, i, key)
  {
    var nodes := t.buckets[p].nodes;
    var t' := MoveNode(t, p, i, d);
    MoveKeepsShape(t, p, i, d);
    var nodes', moved := t'.buckets[p].nodes, t'.buckets[d].nodes;
    if nodes[i].key == key {
      assert moved[0].key == key;
    } else if HasKey(nodes, i, key) {
      var j :| i <= j < |nodes| && nodes[j].key == key;
      assert nodes'[j - 1].key == key;
    } else {
      var h := Home(t, hash(key));
      var j :| 0 <= j < |t.buckets[h].nodes| && t.buckets[h].nodes[j].key == key;
      if h == d {
        assert moved[j + 1].key == key;
      } else if h == p {
        assert nodes'[j].key == key;
      }
    }
  }

  // ---------- Buckets that become active ----------

  /** Some buckets without nodes become active. Hash codes whose home changes had bucket p as their
      home, so only the nodes of p may have to move. */
  lemma BecomesLoose<K, V>(t: Table<K, V>, t': Table<K, V>, hash: K -> nat, model: map<K, V>, p: nat)
    requires Holds(t, hash, model) && Shape(t') && |t'.buckets| == |t.buckets| && Active(t, p)
    requires forall b: nat :: b < |t.buckets| && Active(t, b) ==> Active(t', b) && t'.buckets[b] == t.buckets[b]
    requires forall b: nat :: b < |t.buckets| && !Active(t, b) && t'.buckets[b].Chain? ==> t'.buckets[b].nodes == []
    requires forall h: nat :: Home(t', h) == Home(t, h) || (Home(t, h) == p && !Active(t, Home(t', h)))
    ensures Loose(t', hash, model, p, 0)
  {
    forall b | 0 <= b < |t'.buckets| ensures Filed(t', hash, model, p, 0, b) {
      assert Filed(t, hash, model, |t.buckets|, 0, b);
    }
    forall key | key in model ensures Stored(t', hash, p, 0, key) {
      assert Stored(t, hash, |t.buckets|, 0, key);
    }
    forall j {:trigger t'.buckets[p].nodes[j]} | 0 <= j < |t'.buckets[p].nodes|
      ensures var key := t'.buckets[p].nodes[j].key;
              Home(t', hash(key)) != p ==>
                Active(t', Home(t', hash(key))) && !HasKey(t'.buckets[Home(t', hash(key))].nodes, 0, key)
    {
      assert Filed(t, hash, model, |t.buckets|, 0, p);
      HomeActive(t', hash(t'.buckets[p].nodes[j].key));
    }
  }

  /** A bucket is marked as split, and gets its nodes later. */
  lemma MarkedBusy<K, V>(t: Table<K, V>, hash: K -> nat, model: map<K, V>, b: nat)
    requires Holds(t, hash, model) && b < |t.buckets| && t.buckets[b] == RehashRequired
    ensures Holds(t.(buckets := t.buckets[b := Chain([])], busy := t.busy + {b}), hash, model)
    ensures forall x: nat :: Active(t.(buckets := t.buckets[b := Chain([])], busy := t.busy + {b}), x) == Active(t, x)
  {
    var t' := t.(buckets := t.buckets[b := Chain([])], busy := t.busy + {b});
    assert forall x: nat :: Active(t', x) == Active(t, x);
    forall h: nat ensures Home(t', h) == Home(t, h) {
      RootSame(t, t', Cut(h, t.log));
    }
    forall x | 0 <= x < |t'.buckets| ensures Filed(t', hash, model, |t.buckets|, 0, x) {
      assert Filed(t, hash, model, |t.buckets|, 0, x);
    }
    forall key | key in model ensures Stored(t', hash, |t.buckets|, 0, key) {
      assert Stored(t, hash, |t.buckets|, 0, key);
    }
  }

  /** Bucket b comes to life next to its parent: hash codes whose home was the parent now have b as
      their home exactly when, cut to b's width, they are b. */
  lemma HomeAfterSplit<K, V>(t: Table<K, V>, b: nat, h: nat)
    requires Shape(t) && b in t.busy && b > 1 && Active(t, Parent(b))
    ensures Home(t.(busy := t.busy - {b}), h)
            == if Home(t, h) == Parent(b) && Cut(h, Width(b)) == b then b else Home(t, h)
  {
    var t' := t.(busy := t.busy - {b});
    Log2Below(b, t.log);
    RootAfterSplit(t, t', b, Cut(h, t.log));
    CutCut(h, t.log, Width(b));
  }

  lemma SplitOff<K, V>(t: Table<K, V>, hash: K -> nat, model: map<K, V>, b: nat)
    requires Holds(t, hash, model) && b in t.busy && b > 1 && Active(t, Parent(b))
    ensures Loose(t.(busy := t.busy - {b}), hash, model, Parent(b), 0)
    ensures forall h: nat :: Home(t.(busy := t.busy - {b}), h)
                             == if Home(t, h) == Parent(b) && Cut(h, Width(b)) == b then b else Home(t, h)
  {
    var t' := t.(busy := t.busy - {b});
    assert Shape(t');
    forall h: nat ensures Home(t', h) == if Home(t, h) == Parent(b) && Cut(h, Width(b)) == b then b else Home(t, h) {
      HomeAfterSplit(t, b, h);
    }
    hide Loose, Home, Cut, Width;
    BecomesLoose(t, t', hash, model, Parent(b));
  }

  /** Which of the nodes of p, from position i on, go to bucket b: those whose hash code, cut to b's
      width, is b. */
  ghost predicate Divided<K, V>(t: Table<K, V>, hash: K -> nat, p: nat, i: nat, b: nat) {
    Active(t, p) ==>
      forall j {:trigger t.buckets[p].nodes[j]} :: i <= j < |t.buckets[p].nodes| ==>
        Home(t, hash(t.buckets[p].nodes[j].key))
        == if Cut(hash(t.buckets[p].nodes[j].key), Width(b)) == b then b else p
  }

  lemma DividedAtFirst<K, V>(t: Table<K, V>, hash: K -> nat, model: map<K, V>, b: nat)
    requires Holds(t, hash, model) && b in t.busy && b > 1 && Active(t, Parent(b))
    ensures Divided(t.(busy := t.busy - {b}), hash, Parent(b), 0, b)
  {
    var p := Parent(b);
    assert Filed(t, hash, model, |t.buckets|, 0, p);
    forall j | 0 <= j < |t.buckets[p].nodes|
      ensures Home(t.(busy := t.busy - {b}), hash(t.buckets[p].nodes[j].key))
              == if Cut(hash(t.buckets[p].nodes[j].key), Width(b)) == b then b else p
    {
      HomeAfterSplit(t, b, hash(t.buckets[p].nodes[j].key));
    }
  }

  lemma MoveKeepsDivided<K, V>(t: Table<K, V>, hash: K -> nat, p: nat, i: nat, d: nat, b: nat)
    requires Shape(t) && Active(t, p) && Active(t, d) && p != d && i < |t.buckets[p].nodes|
    requires Divided(t, hash, p, i, b)
    ensures Divided(MoveNode(t, p, i, d), hash, p, i, b)
  {
    var t' := MoveNode(t, p, i, d);
    MoveKeepsShape(t, p, i, d);
    forall j {:trigger t'.buckets[p].nodes[j]} | i <= j < |t'.buckets[p].nodes|
      ensures Home(t', hash(t'.buckets[p].nodes[j].key))
              == if Cut(hash(t'.buckets[p].nodes[j].key), Width(b)) == b then b else p
    {
      assert t'.buckets[p].nodes[j] == t.buckets[p].nodes[j + 1];
    }
  }

  /** Bucket b is getting its nodes from its parent p, which has been looked through up to position i. */
  ghost predicate Moving<K, V>(t: Table<K, V>, hash: K -> nat, model: map<K, V>, p: nat, i: nat, b: nat) {
    Loose(t, hash, model, p, i) && Divided(t, hash, p, i, b) && Active(t, b) && p != b
  }

  lemma MoveOne<K, V>(t: Table<K, V>, hash: K -> nat, model: map<K, V>, p: nat, i: nat, b: nat)
    requires Moving(t, hash, model, p, i, b) && Active(t, p) && i < |t.buckets[p].nodes|
    requires Cut(hash(t.buckets[p].nodes[i].key), Width(b)) == b
    ensures Active(t, b) && Moving(MoveNode(t, p, i, b), hash, model, p, i, b)
    ensures forall x: nat :: Active(MoveNode(t, p, i, b), x) == Active(t, x)
    ensures |MoveNode(t, p, i, b).buckets[p].nodes| == |t.buckets[p].nodes| - 1
  {
    MoveKeepsShape(t, p, i, b);
    NodeMoved(t, hash, model, p, i, b);
    MoveKeepsDivided(t, hash, p, i, b, b);
  }

  lemma KeepOne<K, V>(t: Table<K, V>, hash: K -> nat, model: map<K, V>, p: nat, i: nat, b: nat)
    requires Moving(t, hash, model, p, i, b) && Active(t, p) && i < |t.buckets[p].nodes|
    requires Cut(hash(t.buckets[p].nodes[i].key), Width(b)) != b
    ensures Moving(t, hash, model, p, i + 1, b)
  {
    NodeStays(t, hash, model, p, i);
  }

  lemma StartMoving<K, V>(t: Table<K, V>, hash: K -> nat, model: map<K, V>, b: nat)
    requires Holds(t, hash, model) && b in t.busy && b > 1 && Active(t, Parent(b))
    ensures Moving(t.(busy := t.busy - {b}), hash, model, Parent(b), 0, b)
  {
    SplitOff(t, hash, model, b);
    DividedAtFirst(t, hash, model, b);
  }

  /** More buckets, none of them split yet. */
  function Grown<K, V>(t: Table<K, V>, log: nat): Table<K, V>
    requires |t.buckets| <= Pow2(log)
  {
    t.(buckets := t.buckets + seq(Pow2(log) - |t.buckets|, _ => RehashRequired), log := log)
  }

  lemma GrownActive<K, V>(t: Table<K, V>, log: nat)
    requires |t.buckets| <= Pow2(log)
    ensures forall x: nat :: Active(Grown(t, log), x) == Active(t, x)
  {
  }

  lemma GrowthKeeps<K, V>(t: Table<K, V>, hash: K -> nat, model: map<K, V>, log: nat)
    requires Holds(t, hash, model) && t.log <= log
    ensures |t.buckets| <= Pow2(log) && Holds(Grown(t, log), hash, model)
  {
    Pow2Monotone(t.log, log);
    var t' := Grown(t, log);
    assert forall x: nat :: Active(t', x) == Active(t, x);
    forall h: nat ensures Home(t', h) == Home(t, h) {
      HomeAfterGrowth(t, t', h);
    }
    forall x | 0 <= x < |t'.buckets| ensures Filed(t', hash, model, |t'.buckets|, 0, x) {
      if x < |t.buckets| {
        assert Filed(t, hash, model, |t.buckets|, 0, x);
      }
    }
    forall key | key in model ensures Stored(t', hash, |t'.buckets|, 0, key) {
      assert Stored(t, hash, |t.buckets|, 0, key);
    }
  }

  /** More buckets, all of them empty and split: right only if the table is empty. */
  function GrownEmpty<K, V>(t: Table<K, V>, log: nat): Table<K, V>
    requires |t.buckets| <= Pow2(log)
  {
    t.(buckets := t.buckets + seq(Pow2(log) - |t.buckets|, _ => Chain([])), log := log)
  }

  lemma EmptyGrowthKeeps<K, V>(t: Table<K, V>, hash: K -> nat, log: nat)
    requires Holds(t, hash, map[]) && t.log <= log
    ensures |t.buckets| <= Pow2(log) && Holds(GrownEmpty(t, log), hash, map[])
  {
    Pow2Monotone(t.log, log);
    var t' := GrownEmpty(t, log);
    forall x | 0 <= x < |t'.buckets| ensures Filed(t', hash, map[], |t'.buckets|, 0, x) {
      if x < |t.buckets| {
        assert Filed(t, hash, map[], |t.buckets|, 0, x);
      }
    }
  }

  /** A key is in the model exactly when its home has a node for it, and that node has its value. */
  lemma FoundAtHome<K, V>(t: Table<K, V>, hash: K -> nat, model: map<K, V>, key: K)
    requires Holds(t, hash, model)
    ensures Active(t, Home(t, hash(key)))
    ensures key in model <==> HasKey(t.buckets[Home(t, hash(key))].nodes, 0, key)
    ensures forall j :: 0 <= j < |t.buckets[Home(t, hash(key))].nodes|
                        && t.buckets[Home(t, hash(key))].nodes[j].key == key
                        ==> model[key] == t.buckets[Home(t, hash(key))].nodes[j].value
  {
    HomeActive(t, hash(key));
    assert Filed(t, hash, model, |t.buckets|, 0, Home(t, hash(key)));
    if key in model {
      assert Stored(t, hash, |t.buckets|, 0, key);
    }
  }

  /** The table differs in one active bucket only, and its nodes are those of the new model there. */
  lemma BucketReplaced<K, V>(t: Table<K, V>, hash: K -> nat, model: map<K, V>, model': map<K, V>, b: nat, nodes: seq<Node<K, V>>)
    requires Holds(t, hash, model) && Active(t, b)
    requires forall key :: Home(t, hash(key)) != b ==>
               (key in model <==> key in model') && (key in model ==> model[key] == model'[key])
    requires Distinct(nodes)
    requires forall j :: 0 <= j < |nodes| ==>
               Home(t, hash(nodes[j].key)) == b && nodes[j].key in model' && model'[nodes[j].key] == nodes[j].value
    requires forall key :: key in model' && Home(t, hash(key)) == b ==> HasKey(nodes, 0, key)
    ensures Holds(t.(buckets := t.buckets[b := Chain(nodes)]), hash, model')
  {
    var t' := t.(buckets := t.buckets[b := Chain(nodes)]);
    assert forall x: nat :: Active(t', x) == Active(t, x);
    forall h: nat ensures Home(t', h) == Home(t, h) {
      RootSame(t, t', Cut(h, t.log));
    }
    forall x | 0 <= x < |t'.buckets| ensures Filed(t', hash, model', |t.buckets|, 0, x) {
      assert Filed(t, hash, model, |t.buckets|, 0, x);
    }
    forall key | key in model' ensures Stored(t', hash, |t.buckets|, 0, key) {
      if Home(t, hash(key)) != b {
        assert Stored(t, hash, |t.buckets|, 0, key);
      }
    }
  }

  lemma AddedToBucket<K, V>(t: Table<K, V>, hash: K -> nat, model: map<K, V>, b: nat, key: K, value: V)
    requires Holds(t, hash, model) && b == Home(t, hash(key)) && key !in model
    ensures Active(t, b)
    ensures Holds(t.(buckets := t.buckets[b := Chain([Node(key, value)] + t.buckets[b].nodes)]), hash, model[key := value])
  {
    HomeActive(t, hash(key));
    var nodes := t.buckets[b].nodes;
    var nodes', model' := [Node(key, value)] + nodes, model[key := value];
    assert Filed(t, hash, model, |t.buckets|, 0, b);
    assert forall j :: 0 < j < |nodes'| ==> nodes'[j] == nodes[j - 1];
    assert nodes'[0].key == key;
    forall k | k in model' && Home(t, hash(k)) == b ensures HasKey(nodes', 0, k) {
      if k != key {
        assert Stored(t, hash, |t.buckets|, 0, k);
        var j :| 0 <= j < |nodes| && nodes[j].key == k;
        assert nodes'[j + 1].key == k;
      }
    }
    BucketReplaced(t, hash, model, model', b, nodes');
  }

  lemma WithoutOne<K, V>(nodes: seq<Node<K, V>>, i: nat)
    requires i < |nodes| && Distinct(nodes)
    ensures Distinct(nodes[..i] + nodes[i + 1..])
    ensures forall n :: n in nodes[..i] + nodes[i + 1..] <==> n in nodes && n.key != nodes[i].key
  {
    var nodes' := nodes[..i] + nodes[i + 1..];
    assert forall j :: 0 <= j < i ==> nodes'[j] == nodes[j];
    assert forall j :: i <= j < |nodes'| ==> nodes'[j] == nodes[j + 1];
    forall n | n in nodes && n.key != nodes[i].key ensures n in nodes' {
      var j :| 0 <= j < |nodes| && nodes[j] == n;
      assert nodes'[if j < i then j else j - 1] == n;
    }
  }

  lemma RemovedFromBucket<K, V>(t: Table<K, V>, hash: K -> nat, model: map<K, V>, b: nat, i: nat)
    requires Holds(t, hash, model) && Active(t, b) && i < |t.buckets[b].nodes|
    ensures Holds(t.(buckets := t.buckets[b := Chain(t.buckets[b].nodes[..i] + t.buckets[b].nodes[i + 1..])]),
                  hash, model - {t.buckets[b].nodes[i].key})
  {
    var nodes := t.buckets[b].nodes;
    var nodes', model' := nodes[..i] + nodes[i + 1..], model - {nodes[i].key};
    assert Filed(t, hash, model, |t.buckets|, 0, b);
    WithoutOne(nodes, i);
    forall k | k in model' && Home(t, hash(k)) == b ensures HasKey(nodes', 0, k) {
      assert Stored(t, hash, |t.buckets|, 0, k);
      var j :| 0 <= j < |nodes| && nodes[j].key == k;
      assert nodes[j] in nodes';
    }
    forall j | 0 <= j < |nodes'|
      ensures Home(t, hash(nodes'[j].key)) == b && nodes'[j].key in model' && model'[nodes'[j].key] == nodes'[j].value
    {
      assert nodes'[j] in nodes;
    }
    BucketReplaced(t, hash, model, model', b, nodes');
  }

  // ---------- Splitting a bucket and its unsplit ancestors ----------

  /** From t to t', exactly bucket b and its ancestors up to its root have become active. */
  ghost predicate SplitUpTo<K, V>(t: Table<K, V>, t': Table<K, V>, b: nat) {
    forall x: nat :: Active(t', x) <==> Active(t, x) || (Prefix(x, b) && Root(t, b) < x)
  }

  lemma SplitReaches<K, V>(t: Table<K, V>, t': Table<K, V>, b: nat)
    requires Shape(t) && SplitUpTo(t, t', b)
    ensures Active(t', b)
  {
    PrefixSelf(b);
    RootActive(t, b);
  }

  lemma NothingToSplit<K, V>(t: Table<K, V>, t': Table<K, V>, b: nat)
    requires Active(t, b) && forall x: nat :: Active(t', x) == Active(t, x)
    ensures SplitUpTo(t, t', b)
  {
    forall x: nat ensures !(Prefix(x, b) && Root(t, b) < x) {
      if Prefix(x, b) {
        PrefixSmaller(x, b);
      }
    }
  }

  lemma SplitFromSame<K, V>(t: Table<K, V>, t1: Table<K, V>, t': Table<K, V>, b: nat)
    requires SplitUpTo(t1, t', b) && forall x: nat :: Active(t1, x) == Active(t, x)
    ensures SplitUpTo(t, t', b)
  {
    RootSame(t, t1, b);
  }

  /** Changing the nodes of an active bucket changes none of this. */
  lemma SameSplits<K, V>(t: Table<K, V>, t': Table<K, V>, b: nat)
    requires forall x: nat :: Active(t', x) == Active(t, x)
    ensures Closed(t) ==> Closed(t')
    ensures forall t0: Table<K, V>, c: nat :: SplitUpTo(t0, t, c) ==> SplitUpTo(t0, t', c)
  {
  }

  /** First the parent, if need be, and then b. */
  lemma SplitAfterParent<K, V>(t: Table<K, V>, t1: Table<K, V>, t2: Table<K, V>, b: nat)
    requires b > 1 && !Active(t, b) && SplitUpTo(t, t1, Parent(b))
    requires forall x: nat :: Active(t2, x) <==> Active(t1, x) || x == b
    ensures SplitUpTo(t, t2, b)
  {
    forall x: nat ensures Active(t2, x) <==> Active(t, x) || (Prefix(x, b) && Root(t, b) < x) {
      if x == b {
        PrefixSelf(b);
      } else {
        PrefixOfParent(x, b);
      }
    }
  }

  lemma SplitKeepsClosed<K, V>(t: Table<K, V>, t': Table<K, V>, b: nat, n: nat)
    requires ClosedFrom(t, n) && Shape(t) && SplitUpTo(t, t', b)
    ensures ClosedFrom(t', n)
  {
    forall x {:trigger Active(t', x)} | x > 1 && x >= n && Active(t', x) ensures Active(t', Parent(x)) {
      if Active(t, x) {
        assert Active(t, Parent(x));
      } else {
        BetweenRootAnd(t, b, x);
      }
    }
  }

  /** The parent of an unsplit bucket on the way from b to its root is on that way too, or is the root. */
  lemma {:induction false} BetweenRootAnd<K, V>(t: Table<K, V>, b: nat, x: nat)
    requires Shape(t) && Prefix(x, b) && Root(t, b) < x && x > 1
    ensures (Prefix(Parent(x), b) && Root(t, b) < Parent(x)) || Active(t, Parent(x))
  {
    hide Prefix;
    PrefixSmaller(x, b);
    assert Root(t, b) == Root(t, Parent(b));
    PrefixSelf(Parent(b));
    PrefixOfParent(Parent(b), b);
    if x == b {
      RootActive(t, Parent(b));
    } else {
      PrefixOfParent(x, b);
      PrefixSmaller(x, Parent(b));
      BetweenRootAnd(t, Parent(b), x);
      PrefixOfParent(Parent(x), b);
    }
  }

  lemma PrefixSmaller(x: nat, b: nat)
    requires Prefix(x, b)
    ensures x <= b
  {
    CutBelow(b, Width(x));
  }

  // ---------- Marking all unsplit descendants ----------

  /** The unsplit buckets whose root is h are marked as split, but for those that agree with h in
      their low s bits. */
  ghost predicate Marked<K, V>(t: Table<K, V>, h: nat, buckets: seq<Bucket<K, V>>, s: nat) {
    && |buckets| == |t.buckets|
    && forall d :: 0 <= d < |t.buckets| ==>
         buckets[d] == if d != h && Root(t, d) == h && Cut(d, s) != h then Chain([]) else t.buckets[d]
  }

  /** A marked bucket is its own root, the others keep theirs. */
  lemma {:induction false} RootMarked<K, V>(t: Table<K, V>, h: nat, buckets: seq<Bucket<K, V>>, s: nat, d: nat)
    requires Shape(t) && t.busy == {} && Active(t, h) && h < Pow2(s) && Marked(t, h, buckets, s)
    requires d < |t.buckets|
    ensures Root(Table(buckets, t.log, {}), d) == if Root(t, d) == h && Cut(d, s) != h then d else Root(t, d)
  {
    var t' := Table(buckets, t.log, {});
    if d == h || d <= 1 || Active(t, d) {
      CutBelow(h, s);
    } else if Root(t, d) == h && Cut(d, s) != h {
      assert Active(t', d);
    } else {
      RootMarked(t, h, buckets, s, Parent(d));
      assert Root(t', d) == Root(t', Parent(d));
      if Root(t, d) == h {
        if s <= Log2(d) {
          CutCut(d, Log2(d), s);
        } else {
          Log2Bounds(d);
          Pow2Monotone(Log2(d) + 1, s);
          CutBelow(d, s);
        }
      }
    }
  }

  /** An active bucket hides its ancestors from its descendants. */
  lemma {:induction false} RootPast<K, V>(t: Table<K, V>, c: nat, d: nat)
    requires Active(t, c) && Prefix(c, d)
    ensures Prefix(c, Root(t, d))
  {
    if d > 1 && !Active(t, d) {
      PrefixOfParent(c, d);
      RootPast(t, c, Parent(d));
    }
  }

  lemma CutGrows(d: nat, s: nat, h: nat)
    requires h < Pow2(s)
    ensures Cut(d, s) != h ==> Cut(d, s + 1) != h
    ensures Cut(d, s) == h ==> Cut(d, s + 1) == h || Cut(d, s + 1) == h + Pow2(s)
  {
    CutCut(d, s + 1, s);
    CutBelow(h, s);
    CutNext(d, s);
  }

  /** The child of h in segment s is split already: nothing below it has h as its root. */
  lemma MarkSkips<K, V>(t: Table<K, V>, h: nat, buckets: seq<Bucket<K, V>>, s: nat)
    requires Shape(t) && t.busy == {} && Active(t, h) && 1 <= s < t.log && h < Pow2(s)
    requires Marked(t, h, buckets, s) && h + Pow2(s) < |t.buckets| && buckets[h + Pow2(s)].Chain?
    ensures Marked(t, h, buckets, s + 1)
  {
    var c, s' := h + Pow2(s), s + 1;
    ChildOf(h, s);
    assert Active(t, c);
    forall d | 0 <= d < |t.buckets|
      ensures buckets[d] == if d != h && Root(t, d) == h && Cut(d, s') != h then Chain([]) else t.buckets[d]
    {
      CutGrows(d, s, h);
      if Cut(d, s') == c {
        RootPast(t, c, d);
        CutBelow(h, s');
        Pow2Monotone(s, s');
      }
    }
  }

  /** The child of h in segment s is marked, and then its own descendants are. */
  lemma MarkDescends<K, V>(t: Table<K, V>, h: nat, buckets: seq<Bucket<K, V>>, buckets': seq<Bucket<K, V>>, s: nat)
    requires Shape(t) && t.busy == {} && Active(t, h) && 1 <= s < t.log && h < Pow2(s)
    requires Marked(t, h, buckets, s) && h + Pow2(s) < |t.buckets| && buckets[h + Pow2(s)] == RehashRequired
    requires Marked(Table(buckets[h + Pow2(s) := Chain([])], t.log, {}), h + Pow2(s), buckets', t.log)
    ensures Marked(t, h, buckets', s + 1)
  {
    hide Cut, Pow2, Root;
    var c, s' := h + Pow2(s), s + 1;
    forall d | 0 <= d < |t.buckets|
      ensures buckets'[d] == if d != h && Root(t, d) == h && Cut(d, s') != h then Chain([]) else t.buckets[d]
    {
      MarkDescendsAt(t, h, buckets, buckets', s, d);
    }
  }

  lemma BelowChild<K, V>(t: Table<K, V>, h: nat, buckets: seq<Bucket<K, V>>, s: nat, d: nat)
    requires Shape(t) && t.busy == {} && Active(t, h) && 1 <= s < t.log && h < Pow2(s)
    requires Marked(t, h, buckets, s) && h + Pow2(s) < |t.buckets| && buckets[h + Pow2(s)] == RehashRequired
    requires d < |t.buckets|
    ensures Root(Table(buckets[h + Pow2(s) := Chain([])], t.log, {}), d) == h + Pow2(s)
            <==> Root(t, d) == h && Cut(d, s + 1) == h + Pow2(s)
    ensures Root(t, h + Pow2(s)) == h && Cut(h + Pow2(s), s + 1) == h + Pow2(s)
  {
    hide Cut, Pow2, Log2;
    var c := h + Pow2(s);
    var t0, t1 := Table(buckets, t.log, {}), Table(buckets[c := Chain([])], t.log, {});
    ChildOf(h, s);
    PrefixSelf(c);
    RootMarked(t, h, buckets, s, c);
    RootMarked(t, h, buckets, s, d);
    CutBelow(h, s);
    assert Active(t0, h) && !Active(t0, c) && Root(t0, c) == h;
    RootAfterSplit(t0, t1, c, d);
    CutCut(d, s + 1, s);
    RootActive(t, d);
    RootActive(t0, d);
  }

  lemma MarkDescendsAt<K, V>(t: Table<K, V>, h: nat, buckets: seq<Bucket<K, V>>, buckets': seq<Bucket<K, V>>, s: nat, d: nat)
    requires Shape(t) && t.busy == {} && Active(t, h) && 1 <= s < t.log && h < Pow2(s)
    requires Marked(t, h, buckets, s) && h + Pow2(s) < |t.buckets| && buckets[h + Pow2(s)] == RehashRequired
    requires Marked(Table(buckets[h + Pow2(s) := Chain([])], t.log, {}), h + Pow2(s), buckets', t.log)
    requires d < |t.buckets|
    ensures buckets'[d] == if d != h && Root(t, d) == h && Cut(d, s + 1) != h then Chain([]) else t.buckets[d]
  {
    hide Cut, Pow2, Root;
    BelowChild(t, h, buckets, s, d);
    CutGrows(d, s, h);
    CutBelow(d, t.log);
  }

  lemma MarkNothing<K, V>(t: Table<K, V>, h: nat)
    requires Shape(t) && Active(t, h)
    ensures Marked(t, h, t.buckets, Width(h)) && h < Pow2(Width(h)) && Width(h) <= t.log
  {
    if h > 1 {
      Log2Bounds(h);
      Log2Below(h, t.log);
    }
    forall d: nat | d < |t.buckets| && d != h && Root(t, d) == h ensures Cut(d, Width(h)) == h {
      RootIsPrefix(t, d);
    }
  }

  lemma MarkedLength<K, V>(t: Table<K, V>, h: nat, buckets: seq<Bucket<K, V>>, s: nat)
    requires Marked(t, h, buckets, s)
    ensures |buckets| == |t.buckets|
  {
  }

  /** Marking only ever splits buckets. */
  lemma MarkedShapeAt<K, V>(t: Table<K, V>, h: nat, buckets: seq<Bucket<K, V>>, s: nat)
    requires Shape(t) && t.busy == {} && h + Pow2(s) < |t.buckets| && Marked(t, h, buckets, s)
    ensures Shape(Table(buckets[h + Pow2(s) := Chain([])], t.log, {}))
  {
  }

  /** With all its unsplit descendants marked, exactly the nodes of h have to move. */
  lemma MarkedLoose<K, V>(t: Table<K, V>, hash: K -> nat, model: map<K, V>, h: nat, buckets: seq<Bucket<K, V>>)
    requires Holds(t, hash, model) && t.busy == {} && Active(t, h) && Marked(t, h, buckets, t.log)
    ensures Loose(Table(buckets, t.log, {}), hash, model, h, 0)
    ensures forall x: nat :: Home(Table(buckets, t.log, {}), x)
                             == if Home(t, x) == h then Cut(x, t.log) else Home(t, x)
    ensures Closed(t) ==> Closed(Table(buckets, t.log, {}))
    ensures forall b: nat :: Active(t, b) || (b < |t.buckets| && Root(t, b) == h) <==> Active(Table(buckets, t.log, {}), b)
  {
    var t' := Table(buckets, t.log, {});
    forall x: nat ensures Home(t', x) == if Home(t, x) == h then Cut(x, t.log) else Home(t, x) {
      CutBelow(x, t.log);
      RootMarked(t, h, buckets, t.log, Cut(x, t.log));
      CutBelow(Cut(x, t.log), t.log);
    }
    MarkedActive(t, h, buckets);
    MarkedShape(t, h, buckets);
    forall x: nat ensures Home(t', x) == Home(t, x) || (Home(t, x) == h && !Active(t, Home(t', x))) {
      CutBelow(x, t.log);
    }
    BecomesLoose(t, t', hash, model, h);
  }

  lemma MarkedActive<K, V>(t: Table<K, V>, h: nat, buckets: seq<Bucket<K, V>>)
    requires Shape(t) && t.busy == {} && Active(t, h) && Marked(t, h, buckets, t.log)
    ensures forall b: nat :: Active(t, b) || (b < |t.buckets| && Root(t, b) == h) <==> Active(Table(buckets, t.log, {}), b)
  {
    forall b: nat | b < |t.buckets|
      ensures Active(t, b) || Root(t, b) == h <==> Active(Table(buckets, t.log, {}), b)
    {
      CutBelow(b, t.log);
    }
  }

  lemma MarkedShape<K, V>(t: Table<K, V>, h: nat, buckets: seq<Bucket<K, V>>)
    requires Shape(t) && t.busy == {} && Active(t, h) && Marked(t, h, buckets, t.log)
    ensures Shape(Table(buckets, t.log, {}))
    ensures Closed(t) ==> Closed(Table(buckets, t.log, {}))
  {
    var t' := Table(buckets, t.log, {});
    MarkedActive(t, h, buckets);
    if Closed(t) {
      forall b {:trigger Active(t', b)} | b > 1 && Active(t', b) ensures Active(t', Parent(b)) {
        if Active(t, b) {
          assert Active(t, Parent(b));
        } else {
          assert Root(t, b) == Root(t, Parent(b));
        }
      }
    }
  }

  /** The nodes of h, from position i on, belong to the buckets that their whole masked hash code names. */
  ghost predicate Spreading<K, V>(t: Table<K, V>, hash: K -> nat, model: map<K, V>, h: nat, i: nat) {
    && Loose(t, hash, model, h, i)
    && (Active(t, h) ==>
          forall j {:trigger t.buckets[h].nodes[j]} :: i <= j < |t.buckets[h].nodes| ==>
            Home(t, hash(t.buckets[h].nodes[j].key)) == Cut(hash(t.buckets[h].nodes[j].key), t.log))
  }

  lemma StartSpreading<K, V>(t: Table<K, V>, hash: K -> nat, model: map<K, V>, h: nat, buckets: seq<Bucket<K, V>>)
    requires Holds(t, hash, model) && t.busy == {} && Active(t, h) && Marked(t, h, buckets, t.log)
    ensures Active(Table(buckets, t.log, {}), h) && Spreading(Table(buckets, t.log, {}), hash, model, h, 0)
    ensures Closed(t) ==> Closed(Table(buckets, t.log, {}))
    ensures forall b: nat :: Active(t, b) || (b < |t.buckets| && Root(t, b) == h) <==> Active(Table(buckets, t.log, {}), b)
  {
    MarkedLoose(t, hash, model, h, buckets);
    assert buckets[h] == t.buckets[h];
    assert Filed(t, hash, model, |t.buckets|, 0, h);
  }

  lemma SpreadOne<K, V>(t: Table<K, V>, hash: K -> nat, model: map<K, V>, h: nat, i: nat)
    requires Spreading(t, hash, model, h, i) && Active(t, h) && i < |t.buckets[h].nodes|
    requires Cut(hash(t.buckets[h].nodes[i].key), t.log) != h
    ensures var d := Cut(hash(t.buckets[h].nodes[i].key), t.log);
            && Active(t, d) && Spreading(MoveNode(t, h, i, d), hash, model, h, i)
            && (forall x: nat :: Active(MoveNode(t, h, i, d), x) == Active(t, x))
            && |MoveNode(t, h, i, d).buckets[h].nodes| == |t.buckets[h].nodes| - 1
  {
    var d := Cut(hash(t.buckets[h].nodes[i].key), t.log);
    HomeActive(t, hash(t.buckets[h].nodes[i].key));
    MoveKeepsShape(t, h, i, d);
    NodeMoved(t, hash, model, h, i, d);
    hide Loose, Home, Cut;
    var t' := MoveNode(t, h, i, d);
    assert forall j :: i <= j < |t'.buckets[h].nodes| ==> t'.buckets[h].nodes[j] == t.buckets[h].nodes[j + 1];
  }

  lemma LeaveOne<K, V>(t: Table<K, V>, hash: K -> nat, model: map<K, V>, h: nat, i: nat)
    requires Spreading(t, hash, model, h, i) && Active(t, h) && i < |t.buckets[h].nodes|
    requires Cut(hash(t.buckets[h].nodes[i].key), t.log) == h
    ensures Spreading(t, hash, model, h, i + 1)
  {
    NodeStays(t, hash, model, h, i);
  }

  ghost predicate AllSplit<K, V>(t: Table<K, V>) {
    forall b: nat :: b < |t.buckets| ==> Active(t, b)
  }

  /** No bucket of the last segment is unsplit. */
  ghost predicate LastSplit<K, V>(t: Table<K, V>)
    requires t.log >= 1
  {
    forall b: nat :: Pow2(t.log - 1) <= b < |t.buckets| ==> Active(t, b)
  }

  /** A split bucket of the last segment has a split parent, if the parent ends where that segment starts. */
  ghost predicate Leafy<K, V>(t: Table<K, V>)
    requires t.log >= 1
  {
    forall d: nat :: d < Pow2(t.log - 1) && Active(t, Leaf(d, t.log)) ==> Active(t, d)
  }

  /** The bucket of the last segment whose parent is d. */
  function Leaf(d: nat, log: nat): nat
    requires log >= 1
  {
    d + Pow2(log - 1)
  }

  lemma ShapeOf<K, V>(t: Table<K, V>, hash: K -> nat, model: map<K, V>)
    requires Holds(t, hash, model)
    ensures Shape(t)
  {
  }

  lemma ClosedIsLeafy<K, V>(t: Table<K, V>)
    requires Shape(t) && Closed(t)
    ensures Leafy(t)
  {
    forall d: nat | d < Pow2(t.log - 1) && Active(t, Leaf(d, t.log)) ensures Active(t, d) {
      if t.log > 1 {
        ChildOf(d, t.log - 1);
      }
    }
  }

  /** From t to t', the unsplit buckets with the same root as b have been split. */
  ghost predicate RootSplit<K, V>(t: Table<K, V>, t': Table<K, V>, b: nat) {
    && t'.log == t.log && |t'.buckets| == |t.buckets|
    && forall x: nat :: Active(t', x) <==> Active(t, x) || (x < |t.buckets| && Root(t, x) == Root(t, b))
  }

  lemma RootSplitStart<K, V>(t: Table<K, V>, t': Table<K, V>, h: nat, b: nat)
    requires t'.log == t.log && |t'.buckets| == |t.buckets| && Root(t, b) == h
    requires forall x: nat :: Active(t, x) || (x < |t.buckets| && Root(t, x) == h) <==> Active(t', x)
    ensures RootSplit(t, t', b)
  {
  }

  lemma RootSplitSame<K, V>(t: Table<K, V>, t1: Table<K, V>, t': Table<K, V>, b: nat)
    requires RootSplit(t, t1, b) && t'.log == t1.log && |t'.buckets| == |t1.buckets|
    requires forall x: nat :: Active(t', x) == Active(t1, x)
    ensures RootSplit(t, t', b)
  {
  }

  lemma RootSplitActive<K, V>(t: Table<K, V>, t': Table<K, V>, b: nat)
    requires RootSplit(t, t', b) && b < |t.buckets|
    ensures forall x: nat :: Active(t, x) || x == b ==> Active(t', x)
    ensures |t'.buckets| == |t.buckets|
  {
  }

  lemma LeafInSegment<K, V>(t: Table<K, V>, d: nat)
    requires Shape(t) && d < Pow2(t.log - 1) && !Active(t, d)
    ensures Leaf(d, t.log) < |t.buckets| && Leaf(d, t.log) > 1 && Parent(Leaf(d, t.log)) == d
  {
    if t.log > 1 {
      ChildOf(d, t.log - 1);
    }
  }

  /** Growth with unsplit buckets makes the table leafy. */
  lemma GrowthIsLeafy<K, V>(t0: Table<K, V>, t: Table<K, V>)
    requires Shape(t0) && Shape(t) && t.log > t0.log
    requires forall x: nat :: Active(t, x) == Active(t0, x)
    ensures Leafy(t)
  {
    Pow2Monotone(t0.log, t.log - 1);
  }

  /** Among the buckets from the last segment's first one to before `end`, an unsplit one has x's root. */
  ghost predicate ReachedBelow<K, V>(t: Table<K, V>, end: nat, x: nat)
    requires t.log >= 1
  {
    exists y: nat :: Pow2(t.log - 1) <= y < end && y < |t.buckets| && !Active(t, y) && Root(t, y) == Root(t, x)
  }

  /** rehash's scan comes to an unsplit bucket with x's root. */
  ghost predicate Reached<K, V>(t: Table<K, V>, x: nat)
    requires t.log >= 1
  {
    ReachedBelow(t, |t.buckets|, x)
  }

  /** The scan has come to bucket `end`: exactly the buckets it reached on the way have been split. */
  ghost predicate ScannedTo<K, V>(t: Table<K, V>, t': Table<K, V>, end: nat)
    requires t.log >= 1
  {
    && t'.log == t.log && |t'.buckets| == |t.buckets|
    && forall x: nat :: Active(t', x) <==> Active(t, x) || (x < |t.buckets| && ReachedBelow(t, end, x))
  }

  lemma ScanStarts<K, V>(t: Table<K, V>)
    requires t.log >= 1
    ensures ScannedTo(t, t, Pow2(t.log - 1))
  {
  }

  /** While nothing with x's root has been reached, x keeps its root. */
  lemma UnreachedAbove<K, V>(t: Table<K, V>, t1: Table<K, V>, end: nat, x: nat)
    requires t.log >= 1 && ScannedTo(t, t1, end) && x < |t.buckets| && !ReachedBelow(t, end, x) && x > 1
    ensures Active(t1, x) <==> Active(t, x)
    ensures !Active(t, x) ==> Root(t, x) == Root(t, Parent(x)) && !ReachedBelow(t, end, Parent(x))
  {
    hide Active, Parent;
  }

  lemma {:induction false} UnreachedRoot<K, V>(t: Table<K, V>, t1: Table<K, V>, end: nat, x: nat)
    requires t.log >= 1 && ScannedTo(t, t1, end) && x < |t.buckets|
    requires !ReachedBelow(t, end, x)
    ensures Root(t1, x) == Root(t, x)
  {
    if x > 1 {
      UnreachedAbove(t, t1, end, x);
      hide ScannedTo, ReachedBelow, Active, Parent;
      if !Active(t, x) {
        UnreachedRoot(t, t1, end, Parent(x));
      }
    }
  }

  lemma ReachedMore<K, V>(t: Table<K, V>, b: nat, x: nat)
    requires t.log >= 1 && ReachedBelow(t, b, x)
    ensures ReachedBelow(t, b + 1, x)
  {
    hide Root, Active;
  }

  lemma ReachedNow<K, V>(t: Table<K, V>, b: nat, x: nat)
    requires t.log >= 1 && !ReachedBelow(t, b, x) && Pow2(t.log - 1) <= b < |t.buckets|
    ensures ReachedBelow(t, b + 1, x) <==> !Active(t, b) && Root(t, b) == Root(t, x)
  {
    hide Root, Active;
  }

  lemma ReachedAlike<K, V>(t: Table<K, V>, b: nat, x: nat, y: nat)
    requires t.log >= 1 && ReachedBelow(t, b, x) && Root(t, x) == Root(t, y)
    ensures ReachedBelow(t, b, y)
  {
    hide Root, Active;
  }

  /** Bucket b is split already: nothing new is reached. */
  lemma ScanSkips<K, V>(t: Table<K, V>, t1: Table<K, V>, b: nat)
    requires t.log >= 1 && ScannedTo(t, t1, b) && Active(t1, b) && Pow2(t.log - 1) <= b < |t.buckets|
    ensures ScannedTo(t, t1, b + 1)
  {
    hide Root, Active, ReachedBelow;
    forall x: nat ensures ReachedBelow(t, b + 1, x) == ReachedBelow(t, b, x) {
      if ReachedBelow(t, b, x) {
        ReachedMore(t, b, x);
      } else {
        ReachedNow(t, b, x);
        if !Active(t, b) && Root(t, b) == Root(t, x) {
          ReachedAlike(t, b, b, x);
        }
      }
    }
  }

  /** Bucket b is unsplit: splitting what has its root now splits what had its root at first. */
  lemma ScanSplits<K, V>(t: Table<K, V>, t1: Table<K, V>, t2: Table<K, V>, b: nat)
    requires t.log >= 1 && ScannedTo(t, t1, b) && !Active(t1, b) && Pow2(t.log - 1) <= b < |t.buckets|
    requires RootSplit(t1, t2, b)
    ensures ScannedTo(t, t2, b + 1)
  {
    hide Root, Active, ReachedBelow;
    assert !Active(t, b) && !ReachedBelow(t, b, b);
    UnreachedRoot(t, t1, b, b);
    forall x: nat ensures Active(t2, x) <==> Active(t, x) || (x < |t.buckets| && ReachedBelow(t, b + 1, x)) {
      if Active(t, x) || x >= |t.buckets| {
      } else if ReachedBelow(t, b, x) {
        ReachedMore(t, b, x);
      } else {
        UnreachedRoot(t, t1, b, x);
        ReachedNow(t, b, x);
      }
    }
  }

  /** The scan is over. */
  lemma ScanEnds<K, V>(t: Table<K, V>, t': Table<K, V>)
    requires t.log >= 1 && ScannedTo(t, t', |t.buckets|)
    ensures LastSplit(t')
    ensures AllSplit(t') <==> forall x: nat :: x < |t.buckets| && !Active(t, x) ==> Reached(t, x)
  {
    forall b: nat | Pow2(t'.log - 1) <= b < |t'.buckets| ensures Active(t', b) {
      assert Active(t, b) || ReachedBelow(t, |t.buckets|, b);
    }
  }

  /** The buckets that rehash begins its scan with, when it has grown the table t0 to 2^log buckets. */
  function Reserved<K, V>(t0: Table<K, V>, empty: bool, log: nat): Table<K, V>
    requires |t0.buckets| <= Pow2(log)
  {
    if empty then GrownEmpty(t0, log) else Grown(t0, log)
  }

  lemma ReservedSame<K, V>(t: Table<K, V>, empty: bool)
    requires Shape(t)
    ensures Reserved(t, empty, t.log) == t
  {
  }

  /** Growing twice is growing once. */
  lemma ReservedAgain<K, V>(t0: Table<K, V>, t: Table<K, V>, empty: bool, log: nat)
    requires |t0.buckets| <= Pow2(t.log) <= Pow2(log) && t == Reserved(t0, empty, t.log)
    ensures |t.buckets| <= Pow2(log) && Reserved(t, empty, log) == Reserved(t0, empty, log)
  {
  }

  /** In a leafy table the scan reaches everything. */
  lemma LeafyIsReached<K, V>(t: Table<K, V>)
    requires Shape(t) && Leafy(t)
    ensures forall x: nat :: x < |t.buckets| && !Active(t, x) ==> Reached(t, x)
  {
    forall x: nat | x < |t.buckets| && !Active(t, x) ensures Reached(t, x) {
      if x < Pow2(t.log - 1) {
        LeafInSegment(t, x);
        assert !Active(t, Leaf(x, t.log));
        assert Root(t, Leaf(x, t.log)) == Root(t, x);
      }
    }
  }

  /** Three cases in which the condition is simple: t0 is the table before, t the one with all segments reserved. */
  lemma Rehashed<K, V>(t0: Table<K, V>, t: Table<K, V>, t': Table<K, V>, empty: bool)
    requires Shape(t0) && Shape(t) && t0.log <= t.log && |t0.buckets| <= Pow2(t.log)
    requires t == Reserved(t0, empty, t.log) && ScannedTo(t, t', |t.buckets|)
    ensures Closed(t0) ==> (AllSplit(t') <==> !(empty && t.log > t0.log && !AllSplit(t0)))
    ensures !empty && t.log > t0.log ==> AllSplit(t')
    ensures empty && t.log > t0.log ==> (AllSplit(t') <==> AllSplit(t0))
  {
    ScanEnds(t, t');
    if t.log == t0.log {
      assert t.buckets == t0.buckets;
      if Closed(t0) {
        ClosedIsLeafy(t0);
        LeafyIsReached(t);
      }
    } else if !empty {
      GrownActive(t0, t.log);
      GrowthIsLeafy(t0, t);
      LeafyIsReached(t);
    } else {
      EmptyGrowthReachesNothing(t0, t);
    }
  }

  lemma GrownEmptyActive<K, V>(t: Table<K, V>, log: nat)
    requires Shape(t) && |t.buckets| <= Pow2(log)
    ensures forall x: nat :: Active(GrownEmpty(t, log), x) <==> Active(t, x) || |t.buckets| <= x < Pow2(log)
  {
    hide Pow2;
  }

  lemma EmptyGrowthReachesNothing<K, V>(t0: Table<K, V>, t: Table<K, V>)
    requires Shape(t0) && Shape(t) && t.log > t0.log && |t0.buckets| <= Pow2(t.log) && t == GrownEmpty(t0, t.log)
    ensures forall x: nat :: !Reached(t, x)
    ensures AllSplit(t) <==> AllSplit(t0)
  {
    Pow2Monotone(t0.log, t.log - 1);
    GrownEmptyActive(t0, t.log);
    hide Pow2, Active, Root, GrownEmpty;
    assert forall x: nat :: x < |t0.buckets| ==> (Active(t, x) <==> Active(t0, x));
  }

  lemma AllSplitHome<K, V>(t: Table<K, V>)
    requires Shape(t) && AllSplit(t)
    ensures forall h: nat :: Home(t, h) == Cut(h, t.log)
  {
    forall h: nat ensures Home(t, h) == Cut(h, t.log) {
      CutBelow(h, t.log);
    }
  }

  // ---------- Where a hash code's home moves when the mask grows ----------

  lemma CutInTable<K, V>(t: Table<K, V>, h: nat, k: nat)
    requires Shape(t) && k <= t.log
    ensures Cut(h, k) < |t.buckets|
  {
    CutBelow(h, k);
    Pow2Monotone(k, t.log);
  }

  lemma {:induction false} ActivePrefix<K, V>(t: Table<K, V>, n: nat, c: nat, x: nat)
    requires ClosedFrom(t, n) && Active(t, x) && Prefix(c, x) && c >= n
    ensures Active(t, c) || c > x || x <= 1
  {
    if x > 1 && x != c {
      PrefixSmaller(c, x);
      PrefixOfParent(c, x);
      PrefixSmaller(c, Parent(x));
      ActivePrefix(t, n, c, Parent(x));
    }
  }

  lemma {:induction false} BelowUnsplit<K, V>(t: Table<K, V>, n: nat, c: nat, x: nat)
    requires Shape(t) && ClosedFrom(t, n) && c >= n && c > 1 && !Active(t, c) && Prefix(c, x)
    ensures Root(t, x) == Root(t, c)
  {
    PrefixSmaller(c, x);
    if x != c {
      if Active(t, x) {
        ActivePrefix(t, n, c, x);
      }
      PrefixOfParent(c, x);
      BelowUnsplit(t, n, c, Parent(x));
    }
  }

  /** The next longer cut of h decides whether h has left its home under the shorter mask. */
  lemma ChildDecides<K, V>(t: Table<K, V>, h: nat, k: nat)
    requires Shape(t) && ClosedFrom(t, Pow2(k)) && 1 <= k < t.log && Active(t, Cut(h, k)) && Cut(h, k + 1) != Cut(h, k)
    ensures Home(t, h) == Cut(h, k) <==> !Active(t, Cut(h, k + 1))
  {
    var c := Cut(h, k + 1);
    CutIsParent(h, k);
    CutNext(h, k);
    CutCut(h, t.log, k + 1);
    if Active(t, c) {
      RootPast(t, c, Cut(h, t.log));
      PrefixSmaller(c, Home(t, h));
    } else {
      BelowUnsplit(t, Pow2(k), c, Cut(h, t.log));
    }
  }

  lemma ClosedFromMore<K, V>(t: Table<K, V>, n: nat, m: nat)
    requires ClosedFrom(t, n) && n <= m
    ensures ClosedFrom(t, m)
  {
  }

  /** What other threads do to the table while one searches: they add unsplit buckets, or split some. */
  ghost predicate Moves<K, V>(t: Table<K, V>, t': Table<K, V>) {
    && Shape(t') && t.log <= t'.log
    && ((forall x: nat :: Active(t', x) == Active(t, x)) || exists b: nat :: SplitUpTo(t, t', b))
  }

  /** However the table has grown and been split since a thread read a mask of kOld bits, the buckets beyond
      that mask are closed under parents, and what was split still is. */
  lemma {:induction false} GrowthWhileSearching<K, V>(run: seq<Table<K, V>>, k: nat)
    requires k < |run| && Shape(run[0])
    requires forall i :: 0 <= i < |run| - 1 ==> Moves(run[i], run[i + 1])
    ensures Shape(run[k]) && run[0].log <= run[k].log
    ensures ClosedFrom(run[k], Pow2(run[0].log))
    ensures forall x: nat :: Active(run[0], x) ==> Active(run[k], x)
  {
    if k > 0 {
      GrowthWhileSearching(run, k - 1);
      var t, t' := run[k - 1], run[k - 1 + 1];
      assert Moves(t, t');
      if !forall x: nat :: Active(t', x) == Active(t, x) {
        var b: nat :| SplitUpTo(t, t', b);
        SplitKeepsClosed(t, t', b, Pow2(run[0].log));
      }
    }
  }

  /** Nothing is split on the way to bucket 0. */
  lemma NothingBelowZero<K, V>(t: Table<K, V>)
    ensures forall h: nat, x: nat :: !(Prefix(x, Cut(0, h)) && Root(t, Cut(0, h)) < x)
  {
    forall h: nat, x: nat ensures !(Prefix(x, Cut(0, h)) && Root(t, Cut(0, h)) < x) {
      CutBelow(0, h);
      if Prefix(x, 0) {
        PrefixSmaller(x, 0);
      }
    }
  }
}
