/** What is in the blocks (concurrentqueue.h): the producer constructs its elements in the slots of its blocks
    before it publishes the tail, and a consumer moves the elements of the indices it claimed out of the block
    it found, before it marks them as gone. This is stated for a view that both kinds of producer have, and
    one slot is written or read per step. */
module BlockElements {
  import Arithmetic
  import opened BlockNumbers
  import opened Options

  /** A consumer that has found the block of the indices from `index` to before `stop`. */
  datatype Use = Use(index: nat, stop: nat, block: nat)

  /** Published are the indices below `tail`; an enqueue that has all its blocks writes those from there to
      `limit`. `given` has the block of each number, `done` the indices marked as gone. */
  datatype View = View(size: nat, tail: nat, limit: nat, given: map<nat, nat>, done: set<nat>, uses: seq<Option<Use>>)

  datatype Taken<T> = Taken(index: nat, value: T)

  /** A slot is a block and an offset. `written` is the next index to write, `nextRead` has each consumer's next
      index to read. `items` and `taken` record what was enqueued and what was read, in order. */
  datatype Memory<T> = Memory(
    cells: map<(nat, nat), T>, written: nat, nextRead: seq<nat>, items: seq<T>, taken: seq<Taken<T>>)

  predicate Live(v: View, i: nat) { i < v.limit && i !in v.done }

  predicate HasBlock(v: View, i: nat)
    requires v.size > 0
  {
    NumberOf(v.size, i) in v.given
  }

  function Cell(v: View, i: nat): (nat, nat)
    requires v.size > 0 && HasBlock(v, i)
  {
    (v.given[NumberOf(v.size, i)], i % v.size)
  }

  // ---------- The view ----------

  ghost predicate UseOk(v: View, u: Use)
    requires v.size > 0
  {
    && u.index < u.stop <= v.tail
    && forall i: nat {:trigger i in v.done} :: u.index <= i < u.stop ==>
         i !in v.done && HasBlock(v, i) && v.given[NumberOf(v.size, i)] == u.block
  }

  predicate Disjoint(a: Option<Use>, b: Option<Use>) {
    a.Some? && b.Some? ==> a.value.stop <= b.value.index || b.value.stop <= a.value.index
  }

  /** Indices that still have an element have a block, and different numbers have different ones. */
  ghost predicate ViewOk(v: View) {
    && v.size > 0 && v.tail <= v.limit && (forall i :: i in v.done ==> i < v.tail)
    && (forall i: nat {:trigger Live(v, i)} :: Live(v, i) ==> HasBlock(v, i))
    && (forall i: nat, j: nat {:trigger Live(v, i), Live(v, j)} :: Live(v, i) && Live(v, j) ==>
          v.given[NumberOf(v.size, i)] == v.given[NumberOf(v.size, j)] ==> NumberOf(v.size, i) == NumberOf(v.size, j))
    && (forall t :: 0 <= t < |v.uses| && v.uses[t].Some? ==> UseOk(v, v.uses[t].value))
    && (forall t, u :: 0 <= t < u < |v.uses| ==> Disjoint(v.uses[t], v.uses[u]))
  }

  /** A consumer finds a block, or is through with one. */
  ghost predicate UsesTurn(v: View, v': View, t: nat)
    requires t < |v.uses|
  {
    || (v.uses[t].None? && v'.done == v.done && exists u: Use :: v'.uses == v.uses[t := Some(u)])
    || (v.uses[t].Some? && v'.uses == v.uses[t := None] && v'.done == v.done + Offsets(v.uses[t].value.index, v.uses[t].value.stop))
  }

  /** What a step of the queue means for the elements. */
  ghost predicate Turns(v: View, v': View) {
    && v.size == v'.size > 0 && |v'.uses| == |v.uses| && v.done <= v'.done && v.limit <= v'.limit
    && (v'.tail == v.tail || v'.tail == v.limit == v'.limit) && (v'.limit == v.limit || v.limit == v.tail)
    && (forall i: nat {:trigger Live(v, i)} :: Live(v, i) && i !in v'.done ==>
          HasBlock(v, i) && HasBlock(v', i) && v'.given[NumberOf(v.size, i)] == v.given[NumberOf(v.size, i)])
    && ((v'.uses == v.uses && v'.done == v.done) || exists t: nat :: t < |v.uses| && UsesTurn(v, v', t))
  }

  /** A consumer's step, seen in the view. */
  lemma OneUse(v: View, v': View, t: nat, use: Option<Use>)
    requires t < |v.uses| && v'.uses == v.uses[t := use]
    requires if v.uses[t].Some? then use.None? && v'.done == v.done + Offsets(v.uses[t].value.index, v.uses[t].value.stop)
             else v'.done == v.done
    ensures (v'.uses == v.uses && v'.done == v.done) || (exists x: nat :: x < |v.uses| && UsesTurn(v, v', x))
  {
    if use.Some? {
      assert v'.uses == v.uses[t := Some(use.value)];
      assert UsesTurn(v, v', t);
    } else if v.uses[t].Some? {
      assert UsesTurn(v, v', t);
    } else {
      assert v'.uses == v.uses;
    }
  }

  // ---------- The steps ----------

  ghost predicate Init<T>(v: View, m: Memory<T>) {
    && v.tail == v.limit == 0 && v.done == {} && |m.nextRead| == |v.uses|
    && (forall t :: 0 <= t < |v.uses| ==> v.uses[t].None?)
    && m.written == 0 && m.items == [] && m.taken == []
  }

  /** The producer constructs the next element in its slot. */
  ghost predicate Write<T>(v: View, m: Memory<T>, m': Memory<T>) {
    && m.written < v.limit && m.written < |m.items| && v.size > 0 && HasBlock(v, m.written)
    && m' == m.(cells := m.cells[Cell(v, m.written) := m.items[m.written]], written := m.written + 1)
  }

  function SlotOf<T>(v: View, m: Memory<T>, t: nat): (nat, nat)
    requires v.size > 0 && t < |v.uses| && v.uses[t].Some? && t < |m.nextRead|
  {
    (v.uses[t].value.block, m.nextRead[t] % v.size)
  }

  /** A consumer moves the next element out of the block it found. */
  ghost predicate Read<T>(v: View, m: Memory<T>, t: nat, m': Memory<T>) {
    && v.size > 0 && t < |v.uses| && v.uses[t].Some? && t < |m.nextRead| && m.nextRead[t] < v.uses[t].value.stop
    && SlotOf(v, m, t) in m.cells
    && m' == m.(taken := m.taken + [Taken(m.nextRead[t], m.cells[SlotOf(v, m, t)])], nextRead := m.nextRead[t := m.nextRead[t] + 1])
  }

  /** Another producer writes into blocks of its own. */
  ghost predicate Foreign<T>(v: View, m: Memory<T>, m': Memory<T>) {
    && m' == m.(cells := m'.cells)
    && forall n, o :: n in v.given && (v.given[n], o) in m.cells ==>
         (v.given[n], o) in m'.cells && m'.cells[(v.given[n], o)] == m.cells[(v.given[n], o)]
  }

  /** A step that leaves the queue's own words alone. */
  ghost predicate Step<T>(v: View, m: Memory<T>, m': Memory<T>) {
    Write(v, m, m') || (exists t: nat :: Read(v, m, t, m')) || Foreign(v, m, m')
  }

  /** The queue takes a step: an enqueue gets to its elements, those of `items` that are not in the memory's yet, and
      publishes only when all are there; a consumer starts reading a block at its index, and is through with it only when it has read all. */
  ghost predicate Goes<T>(v: View, v': View, m: Memory<T>, m': Memory<T>, items: seq<T>) {
    && m' == m.(items := items, nextRead := m'.nextRead)
    && (v'.tail > v.tail ==> m.written == v.limit)
    && |m'.nextRead| == |m.nextRead| == |v.uses| == |v'.uses|
    && forall t :: 0 <= t < |v.uses| ==>
         if v'.uses[t] == v.uses[t] then m'.nextRead[t] == m.nextRead[t]
         else if v'.uses[t].Some? then m'.nextRead[t] == v'.uses[t].value.index
         else m.nextRead[t] == v.uses[t].value.stop
  }

  // ---------- The invariant ----------

  /** The consumer has read the element of index i, and not marked it yet. */
  predicate HasRead(use: Option<Use>, read: nat, i: nat) {
    use.Some? && use.value.index <= i < read
  }

  /** The slots of the indices that are written and not gone have their elements. */
  ghost predicate CellsOk<T>(v: View, m: Memory<T>) {
    && |m.items| == v.limit && v.tail <= m.written <= v.limit
    && forall i: nat {:trigger Live(v, i)} :: Live(v, i) && i < m.written ==>
         v.size > 0 && HasBlock(v, i) && Cell(v, i) in m.cells && m.cells[Cell(v, i)] == m.items[i]
  }

  ghost predicate ReadsOk<T>(v: View, m: Memory<T>) {
    && |m.nextRead| == |v.uses|
    && forall t :: 0 <= t < |v.uses| && v.uses[t].Some? ==> v.uses[t].value.index <= m.nextRead[t] <= v.uses[t].value.stop
  }

  /** The index is gone, or in the hands of the consumer that has read it. */
  ghost predicate IsRead<T>(v: View, m: Memory<T>, i: nat)
    requires |m.nextRead| == |v.uses|
  {
    i in v.done || exists t :: 0 <= t < |v.uses| && HasRead(v.uses[t], m.nextRead[t], i)
  }

  ghost predicate WasTaken<T>(m: Memory<T>, i: nat) { exists k :: TakenAt(m, k, i) }

  predicate TakenAt<T>(m: Memory<T>, k: nat, i: nat) { k < |m.taken| && m.taken[k].index == i }

  /** What was read is what was enqueued at that index; exactly the read indices were, each once. */
  ghost predicate TakenOk<T>(v: View, m: Memory<T>)
    requires |m.nextRead| == |v.uses|
  {
    && (forall k :: 0 <= k < |m.taken| ==> m.taken[k].index < |m.items| && m.taken[k].value == m.items[m.taken[k].index])
    && (forall k :: 0 <= k < |m.taken| ==> IsRead(v, m, m.taken[k].index))
    && (forall i: nat {:trigger IsRead(v, m, i)} :: IsRead(v, m, i) ==> exists k :: TakenAt(m, k, i))
    && (forall j, k :: 0 <= j < k < |m.taken| ==> m.taken[j].index != m.taken[k].index)
  }

  ghost predicate Inv<T>(v: View, m: Memory<T>) {
    CellsOk(v, m) && ReadsOk(v, m) && TakenOk(v, m)
  }

  lemma InitInv<T>(v: View, m: Memory<T>)
    requires Init(v, m)
    ensures Inv(v, m)
  {
    forall i: nat ensures !IsRead(v, m, i) {
    }
  }

  // ---------- Writing ----------

  /** Different live indices have different slots. */
  lemma OwnCell(v: View, i: nat, j: nat)
    requires ViewOk(v) && Live(v, i) && Live(v, j) && i != j
    ensures HasBlock(v, i) && HasBlock(v, j) && Cell(v, i) != Cell(v, j)
  {
    assert i == NumberOf(v.size, i) * v.size + i % v.size;
    assert j == NumberOf(v.size, j) * v.size + j % v.size;
  }

  lemma WriteInv<T>(v: View, m: Memory<T>, m': Memory<T>)
    requires ViewOk(v) && Inv(v, m) && Write(v, m, m')
    ensures Inv(v, m')
  {
    hide TakenOk;
    assert Live(v, m.written);
    forall i: nat {:trigger Live(v, i)} | Live(v, i) && i < m'.written
      ensures HasBlock(v, i) && Cell(v, i) in m'.cells && m'.cells[Cell(v, i)] == m'.items[i]
    {
      if i < m.written {
        OwnCell(v, i, m.written);
      }
    }
    SameTaken(v, m, m');
  }

  lemma SameTaken<T>(v: View, m: Memory<T>, m': Memory<T>)
    requires |m.nextRead| == |v.uses| && TakenOk(v, m) && m'.nextRead == m.nextRead && m'.taken == m.taken && m.items <= m'.items
    ensures TakenOk(v, m')
  {
    forall i: nat ensures IsRead(v, m', i) == IsRead(v, m, i) {
    }
    forall i: nat | IsRead(v, m', i) ensures exists k :: TakenAt(m', k, i) {
      assert IsRead(v, m, i);
      var k :| TakenAt(m, k, i);
      assert TakenAt(m', k, i);
    }
  }

  /** As long as elements are missing, the next one has a block to go to. */
  lemma WriteIsPossible<T>(v: View, m: Memory<T>)
    requires ViewOk(v) && Inv(v, m) && m.written < v.limit
    ensures exists m' :: Write(v, m, m')
  {
    hide TakenOk, ReadsOk;
    assert Live(v, m.written);
    var m' := m.(cells := m.cells[Cell(v, m.written) := m.items[m.written]], written := m.written + 1);
    assert Write(v, m, m');
  }

  // ---------- Reading ----------

  /** The slot a consumer is about to read has the element that was enqueued at its index. */
  lemma ReadsItsElement<T>(v: View, m: Memory<T>, t: nat)
    requires ViewOk(v) && Inv(v, m) && t < |v.uses| && v.uses[t].Some? && m.nextRead[t] < v.uses[t].value.stop
    ensures SlotOf(v, m, t) in m.cells && m.nextRead[t] < |m.items| && m.cells[SlotOf(v, m, t)] == m.items[m.nextRead[t]]
    ensures m.nextRead[t] !in v.done && m.nextRead[t] < v.tail
  {
    hide TakenOk;
    var i := m.nextRead[t];
    assert UseOk(v, v.uses[t].value);
    assert i !in v.done;
    assert Live(v, i);
  }

  /** Nobody else has read it. */
  lemma NotReadYet<T>(v: View, m: Memory<T>, t: nat)
    requires ViewOk(v) && Inv(v, m) && t < |v.uses| && v.uses[t].Some? && m.nextRead[t] < v.uses[t].value.stop
    ensures !IsRead(v, m, m.nextRead[t])
  {
    ReadsItsElement(v, m, t);
    hide CellsOk, TakenOk, UseOk;
    forall u | 0 <= u < |v.uses| ensures !HasRead(v.uses[u], m.nextRead[u], m.nextRead[t]) {
      if u != t {
        assert Disjoint(v.uses[if t < u then t else u], v.uses[if t < u then u else t]);
      }
    }
  }

  lemma ReadTaken<T>(v: View, m: Memory<T>, t: nat, m': Memory<T>)
    requires ViewOk(v) && Inv(v, m) && Read(v, m, t, m')
    ensures TakenOk(v, m')
  {
    ReadsItsElement(v, m, t);
    NotReadYet(v, m, t);
    hide CellsOk, ViewOk;
    var i := m.nextRead[t];
    forall x: nat ensures IsRead(v, m', x) <==> IsRead(v, m, x) || x == i {
      OneMoreRead(v, m, t, m', x);
    }
    forall x: nat | IsRead(v, m', x) ensures exists k :: TakenAt(m', k, x) {
      if x == i {
        assert TakenAt(m', |m.taken|, i);
      } else {
        assert IsRead(v, m, x);
        var k :| TakenAt(m, k, x);
        assert TakenAt(m', k, x);
      }
    }
  }

  lemma OneMoreRead<T>(v: View, m: Memory<T>, t: nat, m': Memory<T>, x: nat)
    requires ReadsOk(v, m) && Read(v, m, t, m')
    ensures IsRead(v, m', x) <==> IsRead(v, m, x) || x == m.nextRead[t]
  {
    if IsRead(v, m, x) && x !in v.done {
      var u :| 0 <= u < |v.uses| && HasRead(v.uses[u], m.nextRead[u], x);
      assert HasRead(v.uses[u], m'.nextRead[u], x);
    }
    if x == m.nextRead[t] {
      assert HasRead(v.uses[t], m'.nextRead[t], x);
    }
    if IsRead(v, m', x) && x !in v.done && x != m.nextRead[t] {
      var u :| 0 <= u < |v.uses| && HasRead(v.uses[u], m'.nextRead[u], x);
      assert HasRead(v.uses[u], m.nextRead[u], x);
    }
  }

  lemma ReadInv<T>(v: View, m: Memory<T>, t: nat, m': Memory<T>)
    requires ViewOk(v) && Inv(v, m) && Read(v, m, t, m')
    ensures Inv(v, m')
  {
    ReadTaken(v, m, t, m');
    hide TakenOk, ViewOk;
  }

  // ---------- The queue's own steps ----------

  lemma GoesCells<T>(v: View, v': View, m: Memory<T>, m': Memory<T>, items: seq<T>)
    requires ViewOk(v) && ViewOk(v') && Turns(v, v') && CellsOk(v, m) && Goes(v, v', m, m', items)
    requires m.items <= items && |items| == v'.limit
    ensures CellsOk(v', m')
  {
    forall i: nat {:trigger Live(v', i)} | Live(v', i) && i < m'.written
      ensures HasBlock(v', i) && Cell(v', i) in m'.cells && m'.cells[Cell(v', i)] == m'.items[i]
    {
      assert Live(v, i);
    }
  }

  lemma GoesReads<T>(v: View, v': View, m: Memory<T>, m': Memory<T>, items: seq<T>)
    requires ViewOk(v') && Turns(v, v') && ReadsOk(v, m) && Goes(v, v', m, m', items)
    ensures ReadsOk(v', m')
  {
    forall t | 0 <= t < |v'.uses| && v'.uses[t].Some?
      ensures v'.uses[t].value.index <= m'.nextRead[t] <= v'.uses[t].value.stop
    {
      assert UseOk(v', v'.uses[t].value);
    }
  }

  /** Which indices have been read stays the same. */
  lemma SameIsRead<T>(v: View, v': View, m: Memory<T>, m': Memory<T>, items: seq<T>, x: nat)
    requires ReadsOk(v, m) && Turns(v, v') && Goes(v, v', m, m', items)
    ensures IsRead(v', m', x) == IsRead(v, m, x)
  {
    if v'.uses == v.uses && v'.done == v.done {
    } else {
      var t: nat :| t < |v.uses| && UsesTurn(v, v', t);
      if IsRead(v, m, x) && x !in v.done {
        var u :| 0 <= u < |v.uses| && HasRead(v.uses[u], m.nextRead[u], x);
        if u != t { assert HasRead(v'.uses[u], m'.nextRead[u], x); }
      }
      if IsRead(v', m', x) && x !in v'.done {
        var u :| 0 <= u < |v.uses| && HasRead(v'.uses[u], m'.nextRead[u], x);
        assert u != t;
        assert HasRead(v.uses[u], m.nextRead[u], x);
      }
      if x in v'.done && x !in v.done {
        assert HasRead(v.uses[t], m.nextRead[t], x);
      }
    }
  }

  lemma GoesInv<T>(v: View, v': View, m: Memory<T>, m': Memory<T>, items: seq<T>)
    requires ViewOk(v) && ViewOk(v') && Turns(v, v') && Inv(v, m) && Goes(v, v', m, m', items)
    requires m.items <= items && |items| == v'.limit
    ensures Inv(v', m')
  {
    GoesCells(v, v', m, m', items);
    GoesReads(v, v', m, m', items);
    forall x: nat ensures IsRead(v', m', x) == IsRead(v, m, x) { SameIsRead(v, v', m, m', items, x); }
    hide CellsOk, ReadsOk, ViewOk, Turns, IsRead;
    assert m.items <= m'.items;
    forall i: nat | IsRead(v', m', i) ensures exists k :: TakenAt(m', k, i) {
      assert IsRead(v, m, i);
      var k :| TakenAt(m, k, i);
      assert TakenAt(m', k, i);
    }
  }

  lemma ForeignInv<T>(v: View, m: Memory<T>, m': Memory<T>)
    requires ViewOk(v) && Inv(v, m) && Foreign(v, m, m')
    ensures Inv(v, m')
  {
    hide TakenOk;
    SameTaken(v, m, m');
  }

  lemma StepInv<T>(v: View, m: Memory<T>, m': Memory<T>)
    requires ViewOk(v) && Inv(v, m) && Step(v, m, m')
    ensures Inv(v, m')
  {
    hide Inv, ViewOk, Write, Read, Foreign;
    if Write(v, m, m') {
      WriteInv(v, m, m');
    } else if Foreign(v, m, m') {
      ForeignInv(v, m, m');
    } else {
      var t: nat :| Read(v, m, t, m');
      ReadInv(v, m, t, m');
    }
  }

  lemma GoneIsTaken<T>(v: View, m: Memory<T>)
    requires Inv(v, m)
    ensures forall i: nat :: i in v.done ==> exists k :: TakenAt(m, k, i)
  {
    forall i: nat | i in v.done ensures exists k :: TakenAt(m, k, i) {
      assert IsRead(v, m, i);
    }
  }

  // ---------- Portions of claims ----------

  /** The indices a consumer takes out of one block have that block's number. */
  lemma PortionNumber(size: nat, i: nat, end: nat, x: nat)
    requires size > 0 && i < end && i <= x < i + Portion(size, i, end)
    ensures NumberOf(size, x) == NumberOf(size, i)
  {
    PortionInBlock(size, i, end);
    var q, r := i / size, i % size;
    assert x == q * size + (r + (x - i));
    Arithmetic.ModUnique(q, r + (x - i), size);
  }
}
