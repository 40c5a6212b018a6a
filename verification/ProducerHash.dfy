/** The hash that gives each thread its implicit producer (concurrentqueue.h:
    get_or_add_implicit_producer): a chain of ever larger linear-probing tables, of which any thread may
    still use an old one. One access to shared memory per step; allocation succeeds, and threads do
    not exit. Capacities are powers of two, so `index & (capacity - 1)` is a remainder. */
module ProducerHash {
  import Arithmetic
  import BitPrefixes
  import opened Counting
  import opened Sums
  import Runs

  /** A key (thread id) with its value, null at first. `probes`, which no step reads, records how far
      from its hash the key came to lie. */
  datatype Slot = Empty | Key(id: nat, value: Value, probes: nat)
  datatype Value = Null | Producer(index: nat)

  type Table = seq<Slot>

  datatype Lock = Free | HeldBy(thread: nat)

  /** Where a thread stands. `main` is the table it takes for the current one, `n` its ticket (newCount). */
  datatype Thread =
    | Idle
    | Lookup(main: nat, table: nat, j: nat)
    | Count(main: nat)
    | Check(main: nat, n: nat)
    | Reload(n: nat)
    | Allocate(main: nat, n: nat)
    | Unlock(main: nat, n: nat)
    | TryAdd(main: nat, n: nat)
    | Add(main: nat, producer: nat, j: nat)
    | AddCas(main: nat, producer: nat, j: nat)
    | Write(main: nat, producer: nat, slot: nat)

  datatype Return = Return(thread: nat, producer: nat)

  /** tables[i].prev is tables[i - 1]; the last one is implicitProducerHash. `producers` lists the owner
      of every producer made. The tickets (0: none yet) and the returns record history. */
  datatype State = State(
    tables: seq<Table>, count: nat, lock: Lock, threads: seq<Thread>, hash: seq<nat>,
    producers: seq<nat>, tickets: seq<nat>, results: seq<Return>)

  /** Three quarters, as the code computes it. */
  function Room(capacity: nat): nat { capacity / 2 + capacity / 4 }

  function Spot(hash: nat, j: nat, capacity: nat): nat
    requires capacity > 0
  {
    (hash + j) % capacity
  }

  function NewCapacity(n: nat, capacity: nat): (c: nat)
    requires capacity >= 2
    ensures c >= capacity && n < c / 2
    decreases n + 1 - capacity / 2
  {
    if n < capacity / 2 then capacity else NewCapacity(n, 2 * capacity)
  }

  // ---------- The steps ----------

  ghost predicate Init(s: State) {
    && |s.tables| == 1 && |s.tables[0]| > 0 && (forall x :: 0 <= x < |s.tables[0]| ==> s.tables[0][x] == Empty)
    && s.count == 0 && s.lock == Free && s.producers == [] && s.results == []
    && |s.hash| == |s.tickets| == |s.threads|
    && (forall t :: 0 <= t < |s.threads| ==> s.threads[t] == Idle && s.tickets[t] == 0)
  }

  function Goto(s: State, t: nat, c: Thread): State
    requires t < |s.threads|
  {
    s.(threads := s.threads[t := c])
  }

  function Last(s: State): nat
    requires |s.tables| > 0
  {
    |s.tables| - 1
  }

  predicate InTables(s: State, i: nat) {
    i < |s.tables| && |s.tables[i]| > 0
  }

  function SlotAt(s: State, t: nat, i: nat, j: nat): Slot
    requires InTables(s, i) && t < |s.hash|
  {
    s.tables[i][Spot(s.hash[t], j, |s.tables[i]|)]
  }

  function Finish(s: State, t: nat, p: nat): State
    requires t < |s.threads|
  {
    Goto(s, t, Idle).(results := s.results + [Return(t, p)])
  }

  /** The thread looks at one slot of one table. */
  function Probe(s: State, t: nat, main: nat, i: nat, j: nat): State
    requires t < |s.threads| == |s.hash| && InTables(s, i)
  {
    match SlotAt(s, t, i, j)
    case Empty => Goto(s, t, if i > 0 then Lookup(main, i - 1, 0) else Count(main))
    case Key(id, value, _) =>
      if id != t then Goto(s, t, Lookup(main, i, j + 1))
      else match value
        case Null => s
        case Producer(p) => if i != main then Goto(s, t, Add(main, p, 0)) else Finish(s, t, p)
  }

  function TakeTicket(s: State, t: nat, main: nat): State
    requires t < |s.threads| == |s.tickets|
  {
    Goto(s, t, Check(main, s.count + 1)).(count := s.count + 1, tickets := s.tickets[t := s.count + 1])
  }

  function EmptyTable(capacity: nat): (table: Table)
    ensures |table| == capacity && forall x :: 0 <= x < capacity ==> table[x] == Empty
  {
    seq(capacity, _ => Empty)
  }

  function Publish(s: State, t: nat, main: nat, n: nat): State
    requires t < |s.threads| && InTables(s, main)
  {
    Goto(s, t, Unlock(|s.tables|, n)).(tables := s.tables + [EmptyTable(NewCapacity(n, 2 * |s.tables[main]|))])
  }

  function NewProducer(s: State, t: nat, main: nat): State
    requires t < |s.threads|
  {
    Goto(s, t, Add(main, |s.producers|, 0)).(producers := s.producers + [t])
  }

  function PutKey(s: State, t: nat, main: nat, p: nat, j: nat): State
    requires t < |s.threads| == |s.hash| && InTables(s, main)
  {
    var x := Spot(s.hash[t], j, |s.tables[main]|);
    Goto(s, t, Write(main, p, x)).(tables := s.tables[main := s.tables[main][x := Key(t, Null, j)]])
  }

  function PutValue(s: State, t: nat, main: nat, p: nat, x: nat): State
    requires t < |s.threads| && InTables(s, main) && x < |s.tables[main]| && s.tables[main][x].Key?
  {
    Finish(s.(tables := s.tables[main := s.tables[main][x := s.tables[main][x].(value := Producer(p))]]), t, p)
  }

  ghost predicate Step(s: State, t: nat, s': State)
    requires t < |s.threads| == |s.hash| == |s.tickets| && |s.tables| > 0
  {
    match s.threads[t]
    case Idle => s' == Goto(s, t, Lookup(Last(s), Last(s), 0))
    case Lookup(main, i, j) => InTables(s, i) && s' == Probe(s, t, main, i, j)
    case Count(main) => s' == TakeTicket(s, t, main)
    case Check(main, n) =>
      && InTables(s, main)
      && s' == if n >= |s.tables[main]| / 2 && s.lock == Free
               then Goto(s, t, Reload(n)).(lock := HeldBy(t))
               else Goto(s, t, TryAdd(main, n))
    case Reload(n) =>
      s' == Goto(s, t, if n >= |s.tables[Last(s)]| / 2 then Allocate(Last(s), n) else Unlock(Last(s), n))
    case Allocate(main, n) => InTables(s, main) && s' == Publish(s, t, main, n)
    case Unlock(main, n) => s' == Goto(s, t, TryAdd(main, n)).(lock := Free)
    case TryAdd(main, n) =>
      && InTables(s, main)
      && s' == if n < Room(|s.tables[main]|) then NewProducer(s, t, main) else Goto(s, t, Check(Last(s), n))
    case Add(main, p, j) =>
      && InTables(s, main)
      && s' == Goto(s, t, if SlotAt(s, t, main, j) == Empty then AddCas(main, p, j) else Add(main, p, j + 1))
    case AddCas(main, p, j) =>
      && InTables(s, main)
      && s' == if SlotAt(s, t, main, j) == Empty then PutKey(s, t, main, p, j) else Goto(s, t, Add(main, p, j + 1))
    case Write(main, p, x) =>
      && InTables(s, main) && x < |s.tables[main]| && s.tables[main][x].Key?
      && s' == PutValue(s, t, main, p, x)
  }

  ghost predicate Next(s: State, s': State) {
    && |s.threads| == |s.hash| == |s.tickets| && |s.tables| > 0
    && exists t: nat :: t < |s.threads| && Step(s, t, s')
  }

  // ---------- The invariant ----------

  predicate Has(table: Table, t: nat) {
    exists x :: 0 <= x < |table| && table[x].Key? && table[x].id == t
  }

  /** The first j slots from the thread's hash on hold other threads' keys. */
  predicate Passed(table: Table, hash: nat, t: nat, j: nat) {
    |table| > 0 &&
    forall e :: 0 <= e < j ==> table[Spot(hash, e, |table|)].Key? && table[Spot(hash, e, |table|)].id != t
  }

  /** The key in slot x of a table lies where probing finds it, its thread's ticket is below three
      quarters of the capacity, and its value is a producer of that thread. */
  predicate KeyOk(table: Table, x: nat, hash: seq<nat>, tickets: seq<nat>, producers: seq<nat>)
    requires x < |table| && |hash| == |tickets|
  {
    match table[x]
    case Empty => true
    case Key(id, value, probes) =>
      && id < |hash| && 0 < tickets[id] < Room(|table|)
      && Spot(hash[id], probes, |table|) == x
      && Passed(table, hash[id], id, probes)
      && (value.Producer? ==> value.index < |producers| && producers[value.index] == id)
  }

  ghost predicate TableOk(table: Table, hash: seq<nat>, tickets: seq<nat>, producers: seq<nat>)
    requires |hash| == |tickets|
  {
    && |table| > 0
    && (forall x :: 0 <= x < |table| ==> KeyOk(table, x, hash, tickets, producers))
    && (forall x, y :: 0 <= x < y < |table| && table[x].Key? && table[y].Key? ==> table[x].id != table[y].id)
  }

  ghost predicate TicketsOk(tickets: seq<nat>, count: nat) {
    && (forall t :: 0 <= t < |tickets| ==> tickets[t] <= count)
    && (forall t, u :: 0 <= t < u < |tickets| && tickets[t] == tickets[u] ==> tickets[t] == 0)
  }

  ghost predicate ProducersOk(producers: seq<nat>) {
    forall p, q :: 0 <= p < q < |producers| ==> producers[p] != producers[q]
  }

  ghost predicate Nowhere(tables: seq<Table>, t: nat, from: nat) {
    forall i :: from <= i < |tables| ==> !Has(tables[i], t)
  }

  /** All keys of t have their values, but for the one that is just being written. */
  ghost predicate ValuedBut(tables: seq<Table>, t: nat, main: nat, slot: nat) {
    forall i, x :: 0 <= i < |tables| && 0 <= x < |tables[i]| && tables[i][x].Key? && tables[i][x].id == t ==>
                     tables[i][x].value.Producer? || (i == main && x == slot)
  }

  ghost predicate Valued(tables: seq<Table>, t: nat) {
    forall i, x :: 0 <= i < |tables| && 0 <= x < |tables[i]| && tables[i][x].Key? && tables[i][x].id == t ==>
                     tables[i][x].value.Producer?
  }

  ghost predicate Somewhere(tables: seq<Table>, t: nat) {
    exists i :: 0 <= i < |tables| && Has(tables[i], t)
  }

  /** Between calls: a thread with a ticket is in some table; one without has neither key nor producer. */
  ghost predicate Settled(s: State, t: nat)
    requires t < |s.tickets|
  {
    && Valued(s.tables, t)
    && if s.tickets[t] == 0 then Nowhere(s.tables, t, 0) && t !in s.producers
       else Somewhere(s.tables, t)
  }

  ghost predicate Waiting(s: State, t: nat, n: nat)
    requires t < |s.tickets|
  {
    n > 0 && s.tickets[t] == n && Nowhere(s.tables, t, 0) && t !in s.producers
  }

  ghost predicate Adding(s: State, t: nat, main: nat, p: nat, j: nat)
    requires t < |s.tickets| == |s.hash|
  {
    && InTables(s, main) && !Has(s.tables[main], t) && Passed(s.tables[main], s.hash[t], t, j)
    && 0 < s.tickets[t] < Room(|s.tables[main]|)
    && p < |s.producers| && s.producers[p] == t
    && Valued(s.tables, t)
  }

  ghost predicate ThreadOk(s: State, t: nat)
    requires t < |s.threads| == |s.hash| == |s.tickets|
  {
    match s.threads[t]
    case Idle => Settled(s, t)
    case Lookup(main, i, j) =>
      InTables(s, main) && i <= main && InTables(s, i)
      && Settled(s, t) && Nowhere(s.tables, t, i + 1) && Passed(s.tables[i], s.hash[t], t, j)
    case Count(main) => InTables(s, main) && s.tickets[t] == 0 && Nowhere(s.tables, t, 0) && t !in s.producers
    case Check(main, n) => InTables(s, main) && Waiting(s, t, n)
    case Reload(n) => Waiting(s, t, n)
    case Allocate(main, n) => main + 1 == |s.tables| && Waiting(s, t, n)
    case Unlock(main, n) => InTables(s, main) && Waiting(s, t, n) && n < |s.tables[main]| / 2
    case TryAdd(main, n) => InTables(s, main) && Waiting(s, t, n)
    case Add(main, p, j) => Adding(s, t, main, p, j)
    case AddCas(main, p, j) => Adding(s, t, main, p, j)
    case Write(main, p, x) =>
      && InTables(s, main) && x < |s.tables[main]| && s.tables[main][x].Key? && s.tables[main][x].id == t
      && s.tickets[t] > 0 && p < |s.producers| && s.producers[p] == t && ValuedBut(s.tables, t, main, x)
  }

  predicate Critical(c: Thread) { c.Reload? || c.Allocate? || c.Unlock? }

  ghost predicate Shape(s: State) {
    && |s.hash| == |s.tickets| == |s.threads| && |s.tables| > 0
    && (forall i, k :: 0 <= i < k < |s.tables| ==> |s.tables[i]| <= |s.tables[k]|)
    && (forall t :: 0 <= t < |s.threads| ==> (Critical(s.threads[t]) <==> s.lock == HeldBy(t)))
  }

  ghost predicate Global(s: State) {
    && Shape(s) && TicketsOk(s.tickets, s.count) && ProducersOk(s.producers)
    && (forall i :: 0 <= i < |s.tables| ==> TableOk(s.tables[i], s.hash, s.tickets, s.producers))
    && (forall k :: 0 <= k < |s.results| ==>
          s.results[k].producer < |s.producers| && s.producers[s.results[k].producer] == s.results[k].thread)
  }

  ghost predicate Inv(s: State) {
    Global(s) && forall t :: 0 <= t < |s.threads| ==> ThreadOk(s, t)
  }

  lemma InitInv(s: State)
    requires Init(s)
    ensures Inv(s)
  {
  }

  // ---------- Every probe ends ----------

  /** The number of keys in the first k slots. */
  function Keys(table: Table, k: nat): nat
    requires k <= |table|
  {
    if k == 0 then 0 else Keys(table, k - 1) + if table[k - 1].Key? then 1 else 0
  }

  ghost predicate DistinctTickets(table: Table, tickets: seq<nat>) {
    && (forall x :: 0 <= x < |table| && table[x].Key? ==> table[x].id < |tickets|)
    && (forall x, y :: 0 <= x < y < |table| && table[x].Key? && table[y].Key? ==>
          tickets[table[x].id] != tickets[table[y].id])
  }

  predicate IsTicketOf(table: Table, tickets: seq<nat>, k: nat, n: nat) {
    exists x :: 0 <= x < k && x < |table| && table[x].Key? && table[x].id < |tickets| && tickets[table[x].id] == n
  }

  /** The tickets of the keys in the first k slots: as many as there are keys. */
  lemma {:induction false} TicketsOfKeys(table: Table, tickets: seq<nat>, k: nat) returns (seen: set<nat>)
    requires k <= |table| && DistinctTickets(table, tickets)
    ensures |seen| == Keys(table, k) && forall n :: n in seen ==> IsTicketOf(table, tickets, k, n)
  {
    if k == 0 {
      seen := {};
    } else {
      var before := TicketsOfKeys(table, tickets, k - 1);
      if table[k - 1].Key? {
        var n := tickets[table[k - 1].id];
        assert !IsTicketOf(table, tickets, k - 1, n);
        assert IsTicketOf(table, tickets, k, n);
        seen := before + {n};
      } else {
        seen := before;
      }
    }
  }

  lemma {:induction false} NoKeys(table: Table, k: nat)
    requires k <= |table| && forall x :: 0 <= x < k ==> table[x] == Empty
    ensures Keys(table, k) == 0
  {
    if k > 0 {
      NoKeys(table, k - 1);
    }
  }

  /** A table holds fewer keys than three quarters of its capacity. */
  lemma FewKeys(table: Table, hash: seq<nat>, tickets: seq<nat>, producers: seq<nat>, count: nat)
    requires |hash| == |tickets| && TableOk(table, hash, tickets, producers) && TicketsOk(tickets, count)
    ensures Keys(table, |table|) < Room(|table|) || Keys(table, |table|) == 0
  {
    if Room(|table|) > 0 {
      forall a | 0 <= a < |table| && table[a].Key?
        ensures table[a].id < |tickets| && 0 < tickets[table[a].id] < Room(|table|)
      {
        assert KeyOk(table, a, hash, tickets, producers);
      }
      var seen := TicketsOfKeys(table, tickets, |table|);
      var all := OneTo(Room(|table|) - 1);
      SubsetSize(seen, all);
    } else {
      forall a | 0 <= a < |table| ensures table[a] == Empty {
        assert KeyOk(table, a, hash, tickets, producers);
      }
      NoKeys(table, |table|);
    }
  }

  lemma {:induction false} AllKeys(table: Table, k: nat)
    requires k <= |table| && forall x :: 0 <= x < k ==> table[x].Key?
    ensures Keys(table, k) == k
  {
    if k > 0 {
      AllKeys(table, k - 1);
    }
  }

  lemma NeverFull(table: Table, hash: seq<nat>, tickets: seq<nat>, producers: seq<nat>, count: nat)
    requires |hash| == |tickets| && TableOk(table, hash, tickets, producers) && TicketsOk(tickets, count)
    ensures exists x :: 0 <= x < |table| && table[x] == Empty
  {
    FewKeys(table, hash, tickets, producers, count);
    if forall x :: 0 <= x < |table| ==> table[x].Key? {
      AllKeys(table, |table|);
    }
  }

  /** Probing from anywhere reaches every slot within as many steps as there are slots. */
  lemma ReachesEverySlot(hash: nat, capacity: nat, x: nat) returns (j: nat)
    requires x < capacity
    ensures j < capacity && Spot(hash, j, capacity) == x
  {
    var r := hash % capacity;
    var q := hash / capacity;
    assert hash == q * capacity + r;
    if x >= r {
      j := x - r;
      assert hash + j == q * capacity + x;
      Arithmetic.ModUnique(q, x, capacity);
    } else {
      j := x + capacity - r;
      assert hash + j == (q + 1) * capacity + x;
      Arithmetic.ModUnique(q + 1, x, capacity);
    }
  }

  /** A thread that has passed j slots has not been around the table. */
  lemma ProbeEnds(table: Table, hash: seq<nat>, tickets: seq<nat>, producers: seq<nat>, count: nat, t: nat, j: nat)
    requires |hash| == |tickets| && TableOk(table, hash, tickets, producers) && TicketsOk(tickets, count)
    requires t < |hash| && Passed(table, hash[t], t, j)
    ensures j < |table|
  {
    NeverFull(table, hash, tickets, producers, count);
    var x: nat :| x < |table| && table[x] == Empty;
    var e := ReachesEverySlot(hash[t], |table|, x);
  }

  // ---------- What a step of one thread does not touch ----------

  predicate SlotGrows(a: Slot, b: Slot, t: nat) {
    || a == b
    || (a == Empty && b.Key? && b.id == t)
    || (a.Key? && b.Key? && a.id == b.id == t && a.probes == b.probes && (b.value == a.value || b.value.Producer?))
  }

  ghost predicate TableGrows(a: Table, b: Table, t: nat) {
    |a| == |b| && forall x :: 0 <= x < |a| ==> SlotGrows(a[x], b[x], t)
  }

  ghost predicate TablesGrow(a: seq<Table>, b: seq<Table>, t: nat) {
    && |a| <= |b|
    && (forall i :: 0 <= i < |a| ==> TableGrows(a[i], b[i], t))
    && (forall i, x :: |a| <= i < |b| && 0 <= x < |b[i]| ==> b[i][x] == Empty)
  }

  ghost predicate OnlyMoves(s: State, s': State, t: nat) {
    && TablesGrow(s.tables, s'.tables, t)
    && s'.hash == s.hash && |s'.threads| == |s.threads| && |s'.tickets| == |s.tickets|
    && (forall u :: 0 <= u < |s.threads| && u != t ==> s'.threads[u] == s.threads[u])
    && (forall u :: 0 <= u < |s.tickets| && u != t ==> s'.tickets[u] == s.tickets[u])
    && |s.producers| <= |s'.producers| && s'.producers[..|s.producers|] == s.producers
    && (forall p :: |s.producers| <= p < |s'.producers| ==> s'.producers[p] == t)
  }

  lemma HasStays(a: Table, b: Table, t: nat, u: nat)
    requires TableGrows(a, b, t) && u != t
    ensures Has(a, u) <==> Has(b, u)
  {
    if Has(a, u) {
      var x :| 0 <= x < |a| && a[x].Key? && a[x].id == u;
      assert b[x].Key? && b[x].id == u;
    }
    if Has(b, u) {
      var x :| 0 <= x < |b| && b[x].Key? && b[x].id == u;
      assert a[x].Key? && a[x].id == u;
    }
  }

  lemma PassedStays(a: Table, b: Table, t: nat, u: nat, hash: nat, j: nat)
    requires TableGrows(a, b, t) && u != t && Passed(a, hash, u, j)
    ensures Passed(b, hash, u, j)
  {
    forall e | 0 <= e < j ensures b[Spot(hash, e, |b|)].Key? && b[Spot(hash, e, |b|)].id != u {
      assert SlotGrows(a[Spot(hash, e, |a|)], b[Spot(hash, e, |a|)], t);
    }
  }

  lemma NowhereStays(a: seq<Table>, b: seq<Table>, t: nat, u: nat, from: nat)
    requires TablesGrow(a, b, t) && u != t && from <= |a|
    ensures Nowhere(a, u, from) <==> Nowhere(b, u, from)
  {
    forall i | from <= i < |a| ensures Has(a[i], u) <==> Has(b[i], u) {
      HasStays(a[i], b[i], t, u);
    }
  }

  lemma ValuedStays(a: seq<Table>, b: seq<Table>, t: nat, u: nat, main: nat, slot: nat)
    requires TablesGrow(a, b, t) && u != t
    ensures Valued(a, u) ==> Valued(b, u)
    ensures ValuedBut(a, u, main, slot) ==> ValuedBut(b, u, main, slot)
  {
    forall i, x | 0 <= i < |b| && 0 <= x < |b[i]| && b[i][x].Key? && b[i][x].id == u
      ensures i < |a| && x < |a[i]| && a[i][x] == b[i][x]
    {
      assert i < |a|;
      assert TableGrows(a[i], b[i], t);
    }
  }

  lemma SettledStays(s: State, s': State, t: nat, u: nat)
    requires OnlyMoves(s, s', t) && u != t && u < |s.tickets| && Settled(s, u)
    ensures Settled(s', u)
  {
    ValuedStays(s.tables, s'.tables, t, u, 0, 0);
    NowhereStays(s.tables, s'.tables, t, u, 0);
    if Somewhere(s.tables, u) {
      var i :| 0 <= i < |s.tables| && Has(s.tables[i], u);
      HasStays(s.tables[i], s'.tables[i], t, u);
    }
    if u !in s.producers {
      NotOwner(s, s', t, u);
    }
  }

  lemma NotOwner(s: State, s': State, t: nat, u: nat)
    requires OnlyMoves(s, s', t) && u != t && u !in s.producers
    ensures u !in s'.producers
  {
    forall p | 0 <= p < |s'.producers| ensures s'.producers[p] != u {
      if p < |s.producers| {
        assert s'.producers[p] == s'.producers[..|s.producers|][p];
      }
    }
  }

  lemma WaitingStays(s: State, s': State, t: nat, u: nat, n: nat)
    requires OnlyMoves(s, s', t) && u != t && u < |s.tickets| && Waiting(s, u, n)
    ensures Waiting(s', u, n)
  {
    NowhereStays(s.tables, s'.tables, t, u, 0);
    NotOwner(s, s', t, u);
  }

  lemma AddingStays(s: State, s': State, t: nat, u: nat, main: nat, p: nat, j: nat)
    requires OnlyMoves(s, s', t) && u != t && u < |s.tickets| == |s.hash| && Adding(s, u, main, p, j)
    ensures Adding(s', u, main, p, j)
  {
    HasStays(s.tables[main], s'.tables[main], t, u);
    PassedStays(s.tables[main], s'.tables[main], t, u, s.hash[u], j);
    ValuedStays(s.tables, s'.tables, t, u, 0, 0);
    assert s'.producers[p] == s'.producers[..|s.producers|][p];
  }

  /** The other threads' invariants do not depend on what t does, but for the one that allocates, which
      relies on the lock. */
  lemma OthersOk(s: State, s': State, t: nat, u: nat)
    requires |s.threads| == |s.hash| == |s.tickets| && u < |s.threads| && u != t
    requires OnlyMoves(s, s', t) && ThreadOk(s, u)
    requires |s'.tables| == |s.tables| || !s.threads[u].Allocate?
    ensures ThreadOk(s', u)
  {
    hide Settled, Waiting, Adding, Passed, Nowhere, Has;
    match s.threads[u]
    case Idle => SettledStays(s, s', t, u);
    case Lookup(main, i, j) =>
      SettledStays(s, s', t, u);
      NowhereStays(s.tables, s'.tables, t, u, i + 1);
      PassedStays(s.tables[i], s'.tables[i], t, u, s.hash[u], j);
    case Count(main) =>
      NowhereStays(s.tables, s'.tables, t, u, 0);
      NotOwner(s, s', t, u);
    case Check(main, n) => WaitingStays(s, s', t, u, n);
    case Reload(n) => WaitingStays(s, s', t, u, n);
    case Allocate(main, n) => WaitingStays(s, s', t, u, n);
    case Unlock(main, n) => WaitingStays(s, s', t, u, n);
    case TryAdd(main, n) => WaitingStays(s, s', t, u, n);
    case Add(main, p, j) => AddingStays(s, s', t, u, main, p, j);
    case AddCas(main, p, j) => AddingStays(s, s', t, u, main, p, j);
    case Write(main, p, x) =>
      ValuedStays(s.tables, s'.tables, t, u, main, x);
      assert s'.producers[p] == s'.producers[..|s.producers|][p];
      assert SlotGrows(s.tables[main][x], s'.tables[main][x], t);
  }

  // ---------- The steps keep the invariant ----------

  lemma Frame(s: State, s': State, t: nat)
    requires Inv(s) && t < |s.threads| && OnlyMoves(s, s', t) && Global(s') && ThreadOk(s', t)
    requires |s'.tables| == |s.tables| || s.lock == HeldBy(t)
    ensures Inv(s')
  {
    hide TableOk, TicketsOk, ProducersOk, TablesGrow, Settled, Waiting, Adding;
    forall u | 0 <= u < |s'.threads| ensures ThreadOk(s', u) {
      if u != t {
        assert Critical(s.threads[u]) <==> s.lock == HeldBy(u);
        hide ThreadOk;
        OthersOk(s, s', t, u);
      }
    }
  }

  /** A thread moves on without touching tables, tickets and producers. */
  lemma LocalInv(s: State, s': State, t: nat)
    requires Inv(s) && t < |s.threads| && |s'.threads| == |s.threads|
    requires s' == Goto(s, t, s'.threads[t]).(lock := s'.lock, results := s'.results)
    requires ThreadOk(s', t)
    requires Critical(s'.threads[t]) <==> s'.lock == HeldBy(t)
    requires s'.lock == s.lock || (s.lock == Free && s'.lock == HeldBy(t)) || (s.lock == HeldBy(t) && s'.lock == Free)
    requires s'.results == s.results
             || exists p: nat :: p < |s.producers| && s.producers[p] == t && s'.results == s.results + [Return(t, p)]
    ensures Inv(s')
  {
    hide ThreadOk, TableOk, TicketsOk, ProducersOk;
    Frame(s, s', t);
  }

  /** An empty slot where the thread would be next: it is not in this table. */
  lemma ProbeMisses(table: Table, hash: seq<nat>, tickets: seq<nat>, producers: seq<nat>, t: nat, j: nat)
    requires |hash| == |tickets| && TableOk(table, hash, tickets, producers) && t < |hash|
    requires Passed(table, hash[t], t, j) && table[Spot(hash[t], j, |table|)] == Empty
    ensures !Has(table, t)
  {
    forall x | 0 <= x < |table| && table[x].Key? ensures table[x].id != t {
      assert KeyOk(table, x, hash, tickets, producers);
    }
  }

  lemma FoundIn(s: State, t: nat, i: nat, j: nat)
    requires Inv(s) && t < |s.threads| && InTables(s, i)
    requires SlotAt(s, t, i, j).Key? && SlotAt(s, t, i, j).id == t && SlotAt(s, t, i, j).value.Producer?
    ensures 0 < s.tickets[t] < Room(|s.tables[i]|)
    ensures var p := SlotAt(s, t, i, j).value.index; p < |s.producers| && s.producers[p] == t
  {
    assert TableOk(s.tables[i], s.hash, s.tickets, s.producers);
    assert KeyOk(s.tables[i], Spot(s.hash[t], j, |s.tables[i]|), s.hash, s.tickets, s.producers);
  }

  lemma ProbeInv(s: State, t: nat, main: nat, i: nat, j: nat)
    requires Inv(s) && t < |s.threads| && s.threads[t] == Lookup(main, i, j)
    ensures InTables(s, i) && Inv(Probe(s, t, main, i, j))
  {
    assert ThreadOk(s, t);
    var s' := Probe(s, t, main, i, j);
    var slot := SlotAt(s, t, i, j);
    assert !Critical(s.threads[t]);
    if slot == Empty {
      assert TableOk(s.tables[i], s.hash, s.tickets, s.producers);
      ProbeMisses(s.tables[i], s.hash, s.tickets, s.producers, t, j);
      assert Nowhere(s.tables, t, i);
      LocalInv(s, s', t);
    } else if slot.id != t {
      LocalInv(s, s', t);
    } else if slot.value.Producer? {
      FoundIn(s, t, i, j);
      assert |s.tables[i]| <= |s.tables[main]|;
      assert i != main ==> !Has(s.tables[main], t);
      LocalInv(s, s', t);
    }
  }

  /** The table stays as it is; of the tickets and producers only those of a thread without a key here
      change. */
  lemma TableKept(table: Table, hash: seq<nat>, tickets: seq<nat>, tickets': seq<nat>,
                  producers: seq<nat>, producers': seq<nat>, t: nat)
    requires |hash| == |tickets| == |tickets'| && TableOk(table, hash, tickets, producers) && !Has(table, t)
    requires forall u :: 0 <= u < |tickets| && u != t ==> tickets'[u] == tickets[u]
    requires |producers| <= |producers'| && forall p :: 0 <= p < |producers| ==> producers'[p] == producers[p]
    ensures TableOk(table, hash, tickets', producers')
  {
    forall x | 0 <= x < |table| ensures KeyOk(table, x, hash, tickets', producers') {
      assert KeyOk(table, x, hash, tickets, producers);
    }
  }

  lemma TablesKept(s: State, tickets': seq<nat>, producers': seq<nat>, t: nat)
    requires Global(s) && |tickets'| == |s.tickets| && Nowhere(s.tables, t, 0)
    requires forall u :: 0 <= u < |tickets'| && u != t ==> tickets'[u] == s.tickets[u]
    requires |s.producers| <= |producers'| && forall p :: 0 <= p < |s.producers| ==> producers'[p] == s.producers[p]
    ensures forall i :: 0 <= i < |s.tables| ==> TableOk(s.tables[i], s.hash, tickets', producers')
  {
    forall i | 0 <= i < |s.tables| ensures TableOk(s.tables[i], s.hash, tickets', producers') {
      TableKept(s.tables[i], s.hash, s.tickets, tickets', s.producers, producers', t);
    }
  }

  lemma TicketInv(s: State, t: nat, main: nat)
    requires Inv(s) && t < |s.threads| && s.threads[t] == Count(main)
    ensures Inv(TakeTicket(s, t, main))
  {
    assert ThreadOk(s, t) && !Critical(s.threads[t]);
    var s' := TakeTicket(s, t, main);
    TablesKept(s, s'.tickets, s.producers, t);
    assert ThreadOk(s', t);
    hide ThreadOk, TableOk;
    Frame(s, s', t);
  }

  lemma ProducerInv(s: State, t: nat, main: nat, n: nat)
    requires Inv(s) && t < |s.threads| && s.threads[t] == TryAdd(main, n)
    requires InTables(s, main) && n < Room(|s.tables[main]|)
    ensures Inv(NewProducer(s, t, main))
  {
    assert ThreadOk(s, t) && !Critical(s.threads[t]);
    var s' := NewProducer(s, t, main);
    TablesKept(s, s.tickets, s'.producers, t);
    assert ProducersOk(s'.producers);
    assert ThreadOk(s', t);
    hide ThreadOk, TableOk, ProducersOk;
    Frame(s, s', t);
  }

  lemma PublishInv(s: State, t: nat, main: nat, n: nat)
    requires Inv(s) && t < |s.threads| && s.threads[t] == Allocate(main, n)
    ensures InTables(s, main) && Inv(Publish(s, t, main, n))
  {
    assert ThreadOk(s, t) && Critical(s.threads[t]);
    assert TableOk(s.tables[main], s.hash, s.tickets, s.producers);
    var s' := Publish(s, t, main, n);
    assert ThreadOk(s', t);
    hide ThreadOk;
    Frame(s, s', t);
  }

  /** The key goes into an empty slot at the end of its probe. */
  lemma PutKeyTable(table: Table, hash: seq<nat>, tickets: seq<nat>, producers: seq<nat>, t: nat, j: nat)
    requires |hash| == |tickets| && TableOk(table, hash, tickets, producers)
    requires t < |hash| && 0 < tickets[t] < Room(|table|) && !Has(table, t) && Passed(table, hash[t], t, j)
    requires table[Spot(hash[t], j, |table|)] == Empty
    ensures TableOk(table[Spot(hash[t], j, |table|) := Key(t, Null, j)], hash, tickets, producers)
  {
    var x := Spot(hash[t], j, |table|);
    var table' := table[x := Key(t, Null, j)];
    forall y | 0 <= y < |table'| ensures KeyOk(table', y, hash, tickets, producers) {
      assert KeyOk(table, y, hash, tickets, producers);
      if y != x && table[y].Key? {
        PassedStays(table, table', t, table[y].id, hash[table[y].id], table[y].probes);
      }
    }
  }

  lemma PutKeyInv(s: State, t: nat, main: nat, p: nat, j: nat)
    requires Inv(s) && t < |s.threads| && s.threads[t] == AddCas(main, p, j)
    requires InTables(s, main) && SlotAt(s, t, main, j) == Empty
    ensures Inv(PutKey(s, t, main, p, j))
  {
    assert ThreadOk(s, t) && !Critical(s.threads[t]);
    var s' := PutKey(s, t, main, p, j);
    PutKeyTable(s.tables[main], s.hash, s.tickets, s.producers, t, j);
    hide TableOk, TicketsOk, ProducersOk, Passed;
    assert ThreadOk(s', t);
    hide ThreadOk;
    Frame(s, s', t);
  }

  lemma PutValueTable(table: Table, hash: seq<nat>, tickets: seq<nat>, producers: seq<nat>, t: nat, x: nat, p: nat)
    requires |hash| == |tickets| && TableOk(table, hash, tickets, producers)
    requires x < |table| && table[x].Key? && table[x].id == t && p < |producers| && producers[p] == t
    ensures TableOk(table[x := table[x].(value := Producer(p))], hash, tickets, producers)
  {
    var table' := table[x := table[x].(value := Producer(p))];
    forall y | 0 <= y < |table'| ensures KeyOk(table', y, hash, tickets, producers) {
      assert KeyOk(table, y, hash, tickets, producers);
    }
  }

  lemma PutValueInv(s: State, t: nat, main: nat, p: nat, x: nat)
    requires Inv(s) && t < |s.threads| && s.threads[t] == Write(main, p, x)
    ensures InTables(s, main) && x < |s.tables[main]| && s.tables[main][x].Key? && Inv(PutValue(s, t, main, p, x))
  {
    assert ThreadOk(s, t) && !Critical(s.threads[t]);
    var s' := PutValue(s, t, main, p, x);
    PutValueTable(s.tables[main], s.hash, s.tickets, s.producers, t, x, p);
    hide TableOk, TicketsOk, ProducersOk, Passed;
    assert Has(s'.tables[main], t) by { assert s'.tables[main][x].id == t; }
    assert ThreadOk(s', t);
    hide ThreadOk;
    Frame(s, s', t);
  }

  /** One probe of the insertion loop: the slot is taken, by another thread. */
  lemma PassOne(s: State, t: nat, main: nat, p: nat, j: nat)
    requires Inv(s) && t < |s.threads| && Adding(s, t, main, p, j) && SlotAt(s, t, main, j).Key?
    ensures Adding(s, t, main, p, j + 1)
  {
  }

  lemma AddInv(s: State, s': State, t: nat)
    requires Inv(s) && t < |s.threads| && (s.threads[t].Add? || s.threads[t].AddCas?) && Step(s, t, s')
    ensures Inv(s')
  {
    assert ThreadOk(s, t) && !Critical(s.threads[t]);
    var c := s.threads[t];
    if c.AddCas? && SlotAt(s, t, c.main, c.j) == Empty {
      PutKeyInv(s, t, c.main, c.producer, c.j);
    } else {
      if SlotAt(s, t, c.main, c.j).Key? {
        PassOne(s, t, c.main, c.producer, c.j);
      }
      hide Adding, Global;
      assert ThreadOk(s', t);
      LocalInv(s, s', t);
    }
  }

  lemma ResizeInv(s: State, s': State, t: nat)
    requires Inv(s) && t < |s.threads| && Step(s, t, s')
    requires var c := s.threads[t]; c.Check? || c.Reload? || c.Unlock? || c.TryAdd?
    ensures Inv(s')
  {
    var c := s.threads[t];
    assert ThreadOk(s, t) && (Critical(c) <==> s.lock == HeldBy(t));
    assert InTables(s, Last(s)) by { assert TableOk(s.tables[Last(s)], s.hash, s.tickets, s.producers); }
    if c.TryAdd? && c.n < Room(|s.tables[c.main]|) {
      ProducerInv(s, t, c.main, c.n);
    } else {
      hide Waiting;
      LocalInv(s, s', t);
    }
  }

  lemma StepInv(s: State, s': State, t: nat)
    requires Inv(s) && t < |s.threads| && Step(s, t, s')
    ensures Inv(s')
  {
    match s.threads[t]
    case Idle =>
      assert ThreadOk(s, t) && !Critical(s.threads[t]);
      assert TableOk(s.tables[Last(s)], s.hash, s.tickets, s.producers);
      LocalInv(s, s', t);
    case Lookup(main, i, j) => ProbeInv(s, t, main, i, j);
    case Count(main) => TicketInv(s, t, main);
    case Allocate(main, n) => PublishInv(s, t, main, n);
    case Write(main, p, x) => PutValueInv(s, t, main, p, x);
    case Add(_, _, _) => AddInv(s, s', t);
    case AddCas(_, _, _) => AddInv(s, s', t);
    case _ => ResizeInv(s, s', t);
  }

  lemma Always(run: seq<State>, k: nat)
    requires Runs.IsRun(Init, Next, run) && k < |run|
    ensures Inv(run[k])
  {
    forall s | Init(s) ensures Inv(s) { InitInv(s); }
    forall s, s' | Inv(s) && Next(s, s') ensures Inv(s') {
      var t: nat :| t < |s.threads| && Step(s, t, s');
      StepInv(s, s', t);
    }
    Runs.InvariantOnRun(Init, Next, Inv, run, k);
  }

  // ---------- What it means for clients ----------

  /** Every probe loop ends: in no run has a thread looked at as many slots as the table has. */
  lemma EveryProbeEnds(run: seq<State>, k: nat, t: nat)
    requires Runs.IsRun(Init, Next, run) && k < |run| && t < |run[k].threads|
    ensures var s, c := run[k], run[k].threads[t];
            && (c.Lookup? ==> c.table < |s.tables| && c.j < |s.tables[c.table]|)
            && (c.Add? || c.AddCas? ==> c.main < |s.tables| && c.j < |s.tables[c.main]|)
  {
    Always(run, k);
    var s, c := run[k], run[k].threads[t];
    assert ThreadOk(s, t);
    if c.Lookup? {
      ProbeEnds(s.tables[c.table], s.hash, s.tickets, s.producers, s.count, t, c.j);
    } else if c.Add? || c.AddCas? {
      ProbeEnds(s.tables[c.main], s.hash, s.tickets, s.producers, s.count, t, c.j);
    }
  }

  lemma ThreeQuarters(run: seq<State>, k: nat, i: nat)
    requires Runs.IsRun(Init, Next, run) && k < |run| && i < |run[k].tables|
    ensures var table := run[k].tables[i]; Keys(table, |table|) < Room(|table|) || Keys(table, |table|) == 0
  {
    Always(run, k);
    var s := run[k];
    FewKeys(s.tables[i], s.hash, s.tickets, s.producers, s.count);
  }

  /** Each thread gets one producer, the same on every call, and shares it with no other thread. */
  lemma OneProducerEach(run: seq<State>, k: nat, a: nat, b: nat)
    requires Runs.IsRun(Init, Next, run) && k < |run| && a < |run[k].results| && b < |run[k].results|
    ensures var ra, rb := run[k].results[a], run[k].results[b];
            ra.thread == rb.thread <==> ra.producer == rb.producer
  {
    Always(run, k);
  }

  /** Once a thread has its producer, all its calls end by finding it: no ticket is drawn again. */
  lemma FindsItAgain(run: seq<State>, k: nat, t: nat)
    requires Runs.IsRun(Init, Next, run) && k < |run| && t < |run[k].threads|
    requires exists a :: 0 <= a < |run[k].producers| && run[k].producers[a] == t
    ensures var c := run[k].threads[t];
            c.Idle? || c.Lookup? || c.Add? || c.AddCas? || c.Write?
  {
    Always(run, k);
    assert ThreadOk(run[k], t);
  }

  /** No step is ever blocked by its guard: the table a thread works on exists. And one that finds its
      key finds a value with it. */
  lemma NeverStuck(run: seq<State>, k: nat, t: nat)
    requires Runs.IsRun(Init, Next, run) && k < |run| && t < |run[k].threads|
    ensures var s, c := run[k], run[k].threads[t];
            && (c.Lookup? ==> InTables(s, c.table))
            && (c.Check? || c.Allocate? || c.TryAdd? || c.Add? || c.AddCas? || c.Write? ==> InTables(s, c.main))
            && (c.Write? ==> c.slot < |s.tables[c.main]| && s.tables[c.main][c.slot].Key?)
    ensures var s, c := run[k], run[k].threads[t];
            |s.hash| == |s.threads| && c.Lookup? && InTables(s, c.table)
            && SlotAt(s, t, c.table, c.j).Key? && SlotAt(s, t, c.table, c.j).id == t
            ==> SlotAt(s, t, c.table, c.j).value.Producer?
  {
    Always(run, k);
    var s, c := run[k], run[k].threads[t];
    assert ThreadOk(s, t);
    if c.Allocate? {
      assert TableOk(s.tables[c.main], s.hash, s.tickets, s.producers);
    }
  }

  // ---------- How large the tables get ----------

  /** The doubling loop: of the capacities it goes through, the new one is the first more than twice the ticket. */
  lemma {:induction false} SmallestCapacity(n: nat, capacity: nat) returns (k: nat)
    requires capacity >= 2
    ensures NewCapacity(n, capacity) == capacity * BitPrefixes.Pow2(k)
    ensures forall j: nat {:trigger BitPrefixes.Pow2(j)} ::
              n < capacity * BitPrefixes.Pow2(j) / 2 ==> NewCapacity(n, capacity) <= capacity * BitPrefixes.Pow2(j)
    decreases n + 1 - capacity / 2
  {
    if n < capacity / 2 {
      k := 0;
      forall j: nat {:trigger BitPrefixes.Pow2(j)} ensures capacity <= capacity * BitPrefixes.Pow2(j) {
        Arithmetic.Multiple(BitPrefixes.Pow2(j), capacity);
      }
    } else {
      var k' := SmallestCapacity(n, 2 * capacity);
      k := k' + 1;
      TwiceAsMany(capacity, k);
      assert NewCapacity(n, capacity) == NewCapacity(n, 2 * capacity);
      forall j: nat {:trigger BitPrefixes.Pow2(j)} | n < capacity * BitPrefixes.Pow2(j) / 2
        ensures NewCapacity(n, capacity) <= capacity * BitPrefixes.Pow2(j)
      {
        assert j > 0;
        TwiceAsMany(capacity, j);
        assert NewCapacity(n, 2 * capacity) <= 2 * capacity * BitPrefixes.Pow2(j - 1);
      }
    }
  }

  lemma TwiceAsMany(capacity: nat, j: nat)
    requires j > 0
    ensures capacity * BitPrefixes.Pow2(j) == 2 * capacity * BitPrefixes.Pow2(j - 1)
  {
  }

  lemma {:induction false} NotTooLarge(n: nat, capacity: nat)
    requires capacity >= 2
    ensures NewCapacity(n, capacity) == capacity || NewCapacity(n, capacity) / 4 <= n
    decreases n + 1 - capacity / 2
  {
    if n >= capacity / 2 {
      NotTooLarge(n, 2 * capacity);
    } else {
    }
  }

  function Drawn(ticket: nat): nat { if ticket > 0 then 1 else 0 }

  /** Tables after the first are as large as the tickets demand; a thread draws one ticket only. */
  ghost predicate SizesOk(s: State) {
    && s.count == Sum(s.tickets, Drawn)
    && forall i :: 0 < i < |s.tables| ==> 2 * |s.tables[i - 1]| <= |s.tables[i]| <= 4 * s.count + 3
  }

  lemma TicketSizes(s: State, t: nat, s': State)
    requires Inv(s) && SizesOk(s) && t < |s.threads| && s.threads[t].Count? && Step(s, t, s')
    ensures SizesOk(s')
  {
    assert ThreadOk(s, t);
    SumUpdate<nat>(s.tickets, t, s.count + 1, Drawn);
    hide Inv, ThreadOk;
  }

  lemma PublishSizes(s: State, t: nat, s': State)
    requires Inv(s) && SizesOk(s) && t < |s.threads| && s.threads[t].Allocate? && Step(s, t, s')
    requires s.threads[t].n >= |s.tables[Last(s)]| / 2
    ensures SizesOk(s')
  {
    var c := s.threads[t];
    assert ThreadOk(s, t);
    assert TableOk(s.tables[c.main], s.hash, s.tickets, s.producers) && s.tickets[t] <= s.count;
    hide Inv, ThreadOk, TableOk;
    NotTooLarge(c.n, 2 * |s.tables[c.main]|);
  }

  /** Only an allocation brings a table, and no table changes its size; only those who have none draw tickets. */
  lemma SameSizes(s: State, t: nat, s': State)
    requires t < |s.threads| == |s.hash| == |s.tickets| && |s.tables| > 0 && Step(s, t, s')
    ensures !s.threads[t].Allocate? ==> |s'.tables| == |s.tables|
    ensures |s.tables| <= |s'.tables| && forall i :: 0 <= i < |s.tables| ==> |s'.tables[i]| == |s.tables[i]|
    ensures !s.threads[t].Count? ==> s'.tickets == s.tickets && s'.count == s.count
  {
    hide Room, NewCapacity, SlotAt;
  }

  lemma OtherThreads(s: State, t: nat, s': State)
    requires t < |s.threads| == |s.hash| == |s.tickets| && |s.tables| > 0 && Step(s, t, s')
    ensures |s'.threads| == |s.threads| && s'.threads == s.threads[t := s'.threads[t]]
    ensures s'.threads[t].Allocate? ==> s'.threads[t].n >= |s.tables[Last(s)]| / 2 && s'.tables == s.tables
  {
    hide Room, NewCapacity, Spot, SlotAt;
  }

  /** Who is about to allocate has seen the current table half full. */
  ghost predicate AllocatesInNeed(s: State) {
    forall t :: 0 <= t < |s.threads| && s.threads[t].Allocate? ==>
      |s.tables| > 0 && s.threads[t].n >= |s.tables[Last(s)]| / 2
  }

  lemma NeedStays(s: State, t: nat, s': State)
    requires Inv(s) && AllocatesInNeed(s) && t < |s.threads| && Step(s, t, s')
    ensures AllocatesInNeed(s')
  {
    SameSizes(s, t, s');
    OtherThreads(s, t, s');
    assert forall u :: 0 <= u < |s.threads| && u != t && Critical(s.threads[u]) ==> !Critical(s.threads[t]);
    hide Inv, Step;
  }

  lemma SizesNext(s: State, s': State)
    requires Inv(s) && SizesOk(s) && AllocatesInNeed(s) && Next(s, s')
    ensures SizesOk(s') && AllocatesInNeed(s')
  {
    hide Inv, Step;
    var t: nat :| t < |s.threads| && Step(s, t, s');
    NeedStays(s, t, s');
    if s.threads[t].Count? {
      TicketSizes(s, t, s');
    } else if s.threads[t].Allocate? {
      PublishSizes(s, t, s');
    } else {
      SameSizes(s, t, s');
    }
  }

  lemma {:induction false} SizesAlways(run: seq<State>, k: nat)
    requires Runs.IsRun(Init, Next, run) && k < |run|
    ensures SizesOk(run[k]) && AllocatesInNeed(run[k])
  {
    hide Inv, Next, SizesOk, AllocatesInNeed, Init;
    if k == 0 {
      SizesAtFirst(run[0]);
    } else {
      SizesAlways(run, k - 1);
      Always(run, k - 1);
      assert Next(run[k - 1], run[k - 1 + 1]);
      SizesNext(run[k - 1], run[k]);
    }
  }

  lemma SizesAtFirst(s: State)
    requires Init(s)
    ensures SizesOk(s) && AllocatesInNeed(s)
  {
    SumZero<nat>(s.tickets, Drawn);
  }

  lemma {:induction false} AtMostOneEach(tickets: seq<nat>)
    ensures Sum(tickets, Drawn) <= |tickets|
  {
    SumBounded<nat>(tickets, Drawn, 1);
  }

  /** The tables at least double, and none but the first is larger than the threads demand: a table is made only when
      half as many tickets as the last one has slots have been drawn, and a thread draws one. */
  lemma NoLargerThanNeeded(run: seq<State>, k: nat, i: nat)
    requires Runs.IsRun(Init, Next, run) && k < |run| && 0 < i < |run[k].tables|
    ensures 2 * |run[k].tables[i - 1]| <= |run[k].tables[i]| <= 4 * run[k].count + 3
    ensures run[k].count <= |run[k].threads|
  {
    SizesAlways(run, k);
    Always(run, k);
    AtMostOneEach(run[k].tickets);
  }

  /** A thread comes to add its key to a table that half as many tickets as it has slots have not been drawn for, or
      another thread is just seeing to a larger one. */
  lemma GrowsAtHalf(run: seq<State>, k: nat, t: nat, s': State)
    requires Runs.IsRun(Init, Next, run) && k < |run| && t < |run[k].threads|
    requires |run[k].threads| == |run[k].hash| == |run[k].tickets| && |run[k].tables| > 0 && Step(run[k], t, s')
    requires |s'.threads| == |run[k].threads| && s'.threads[t].TryAdd?
    ensures var c := s'.threads[t];
      || (c.main < |run[k].tables| && c.n < |run[k].tables[c.main]| / 2)
      || (run[k].lock.HeldBy? && run[k].lock.thread != t)
  {
    Always(run, k);
    var s := run[k];
    assert ThreadOk(s, t) && (Critical(s.threads[t]) <==> s.lock == HeldBy(t));
    hide Inv, ThreadOk, Room, NewCapacity, Spot, SlotAt, Runs.IsRun;
  }

  /** A call returns the thread's own producer, and leaves its key in the table that it took for the current one. */
  lemma LeavesItsKey(run: seq<State>, k: nat, t: nat, s': State)
    requires Runs.IsRun(Init, Next, run) && k < |run| && t < |run[k].threads| && run[k].threads[t] != Idle
    requires |run[k].threads| == |run[k].hash| == |run[k].tickets| && |run[k].tables| > 0 && Step(run[k], t, s')
    requires |s'.threads| == |run[k].threads| && s'.threads[t] == Idle
    ensures run[k].threads[t].Lookup? || run[k].threads[t].Write?
    ensures run[k].threads[t].main < |s'.tables| && Has(s'.tables[run[k].threads[t].main], t)
    ensures exists p: nat :: s'.results == run[k].results + [Return(t, p)] && p < |s'.producers| && s'.producers[p] == t
  {
    Always(run, k);
    var s, c := run[k], run[k].threads[t];
    assert ThreadOk(s, t);
    StepInv(s, s', t);
    if c.Write? {
      assert s'.tables[c.main][c.slot].id == t;
    } else {
      var x := Spot(s.hash[t], c.j, |s.tables[c.table]|);
      assert KeyOk(s.tables[c.table], x, s.hash, s.tickets, s.producers);
    }
  }

  // ---------- Calls end ----------

  /** How far a thread is from the end of its call: the part of the call, the table, and the slots left to look at. */
  datatype Distance = Distance(part: nat, table: nat, slots: nat)

  predicate Nearer(a: Distance, b: Distance) {
    || a.part < b.part
    || (a.part == b.part && (a.table < b.table || (a.table == b.table && a.slots < b.slots)))
  }

  function Left(size: nat, j: nat): nat { if j < size then size - j else 0 }

  function SizeOf(s: State, i: nat): nat { if i < |s.tables| then |s.tables[i]| else 0 }

  function DistanceOf(s: State, c: Thread): Distance {
    match c
    case Idle => Distance(0, 0, 0)
    case Write(_, _, _) => Distance(1, 0, 0)
    case AddCas(main, _, j) => Distance(2, 0, 2 * Left(SizeOf(s, main), j))
    case Add(main, _, j) => Distance(2, 0, 2 * Left(SizeOf(s, main), j) + 1)
    case TryAdd(main, n) => Distance(if n < Room(SizeOf(s, main)) then 3 else 8, 0, 0)
    case Unlock(_, _) => Distance(4, 0, 0)
    case Allocate(_, _) => Distance(5, 0, 0)
    case Reload(_) => Distance(6, 0, 0)
    case Check(_, _) => Distance(7, 0, 0)
    case Count(_) => Distance(9, 0, 0)
    case Lookup(_, i, j) => Distance(10, i, Left(SizeOf(s, i), j))
  }

  /** The table at hand is three quarters full, and another thread is making a larger one. */
  predicate WaitsForResize(s: State, t: nat)
    requires t < |s.threads|
  {
    var c := s.threads[t];
    c.Check? && s.lock != Free && c.n >= Room(SizeOf(s, c.main))
  }

  predicate InBounds(s: State, c: Thread) {
    && (c.Lookup? ==> c.table < |s.tables| && c.j < |s.tables[c.table]|)
    && (c.Add? || c.AddCas? ==> c.main < |s.tables| && c.j < |s.tables[c.main]|)
    && (c.Unlock? ==> c.main < |s.tables| && c.n < |s.tables[c.main]| / 2)
  }

  lemma ProbeNears(s: State, t: nat, s': State)
    requires t < |s.threads| == |s.hash| == |s.tickets| && |s.tables| > 0 && Step(s, t, s')
    requires InBounds(s, s.threads[t]) && (s.threads[t].Lookup? || s.threads[t].Add? || s.threads[t].AddCas?)
    requires var c := s.threads[t];
      c.Lookup? && InTables(s, c.table) && SlotAt(s, t, c.table, c.j).Key? && SlotAt(s, t, c.table, c.j).id == t
      ==> SlotAt(s, t, c.table, c.j).value.Producer?
    ensures |s'.threads| == |s.threads| && Nearer(DistanceOf(s', s'.threads[t]), DistanceOf(s, s.threads[t]))
  {
    hide Room, Spot, SlotAt;
  }

  lemma ResizeNears(s: State, t: nat, s': State)
    requires t < |s.threads| == |s.hash| == |s.tickets| && |s.tables| > 0 && Step(s, t, s')
    requires InBounds(s, s.threads[t]) && s.threads[t] != Idle && !WaitsForResize(s, t)
    requires !s.threads[t].Lookup? && !s.threads[t].Add? && !s.threads[t].AddCas?
    ensures |s'.threads| == |s.threads| && Nearer(DistanceOf(s', s'.threads[t]), DistanceOf(s, s.threads[t]))
  {
    hide NewCapacity, Spot, SlotAt;
  }

  /** A call ends after so many steps of its own thread, whatever the others do, except that a thread waits while the
      table at hand is three quarters full and another is making a larger one. */
  lemma WaitsOnlyForResize(run: seq<State>, k: nat, t: nat, s': State)
    requires Runs.IsRun(Init, Next, run) && k < |run| && t < |run[k].threads| && run[k].threads[t] != Idle
    requires |run[k].threads| == |run[k].hash| == |run[k].tickets| && |run[k].tables| > 0 && Step(run[k], t, s')
    requires !WaitsForResize(run[k], t)
    ensures |s'.threads| == |run[k].threads|
    ensures Nearer(DistanceOf(s', s'.threads[t]), DistanceOf(run[k], run[k].threads[t]))
  {
    var s := run[k];
    hide Step, Nearer, DistanceOf, WaitsForResize;
    EveryProbeEnds(run, k, t);
    NeverStuck(run, k, t);
    Always(run, k);
    assert ThreadOk(s, t);
    assert InBounds(s, s.threads[t]);
    hide Inv, InBounds, Runs.IsRun;
    if s.threads[t].Lookup? || s.threads[t].Add? || s.threads[t].AddCas? {
      ProbeNears(s, t, s');
    } else {
      ResizeNears(s, t, s');
    }
  }

  /** And no step of another thread takes it away from its end. */
  lemma OthersDoNotHinder(run: seq<State>, k: nat, t: nat, u: nat, s': State)
    requires Runs.IsRun(Init, Next, run) && k < |run| && t < |run[k].threads| && u < |run[k].threads| && u != t
    requires |run[k].threads| == |run[k].hash| == |run[k].tickets| && |run[k].tables| > 0 && Step(run[k], u, s')
    ensures |s'.threads| == |run[k].threads|
    ensures DistanceOf(s', s'.threads[t]) == DistanceOf(run[k], run[k].threads[t])
  {
    var s := run[k];
    Always(run, k);
    assert ThreadOk(s, t);
    assert var c := s.threads[t];
      && (c.Lookup? ==> c.table < |s.tables|)
      && (c.AddCas? || c.Add? || c.TryAdd? ==> c.main < |s.tables|);
    hide Inv, Step, Room, Runs.IsRun;
    SameSizes(s, u, s');
    OtherThreads(s, u, s');
  }
}
