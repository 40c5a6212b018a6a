/** An implicit producer's elements (concurrentqueue.h: ImplicitProducer): what BlockElements says, for the queue of
    ImplicitBlockIndex, whose blocks other producers may use once they are released. */
module ImplicitElements {
  import opened BlockElements
  import opened BlockNumbers
  import opened Options
  import I = ImplicitBlockIndex
  import Runs

  /** When all its blocks are there, an enqueue constructs its elements; the tail comes last. */
  function Limit(s: I.State): nat {
    if s.producer.Publish? then s.producer.job.newTail else s.tail
  }

  function UseOf(size: nat, c: I.Consumer): Option<Use>
    requires size > 0
  {
    if c.Use? && c.index <= c.end then Some(Use(c.index, c.index + Portion(size, c.index, c.end), c.block)) else None
  }

  function ViewOf(s: I.State): View
    requires s.blockSize > 0
  {
    View(s.blockSize, s.tail, Limit(s), s.given, s.done,
         seq(|s.consumers|, t requires 0 <= t < |s.consumers| => UseOf(s.blockSize, s.consumers[t])))
  }

  /** `batch` has the elements that the running call to enqueue(_bulk) was given, `put` those of the calls that have
      returned true, in order. */
  datatype State<T> = State(queue: I.State, memory: Memory<T>, put: seq<T>, batch: seq<T>)

  ghost predicate Init<T>(s: State<T>) {
    I.Init(s.queue) && BlockElements.Init(ViewOf(s.queue), s.memory) && s.put == s.batch == []
  }

  /** A call begins with the elements it was given. */
  ghost predicate Begins<T>(s: State<T>, s': State<T>) {
    && s.queue.producer == I.Ready && s.queue.blockSize > 0 && s'.put == s.put
    && s'.queue == I.Enqueue(s.queue, |s'.batch|)
  }

  /** A call goes on, or returns: true if it has published the tail, false if it has undone everything. */
  ghost predicate Proceeds<T>(s: State<T>, s': State<T>) {
    && s.queue.producer != I.Ready && I.ProducerStep(s.queue, s'.queue)
    && if s'.queue.producer == I.Ready then
         s'.put == (if s.queue.producer.Publish? then s.put + s.batch else s.put) && s'.batch == []
       else
         s'.put == s.put && s'.batch == s.batch
  }

  ghost predicate Consumes<T>(s: State<T>, s': State<T>) {
    && s'.put == s.put && s'.batch == s.batch
    && exists t: nat :: t < |s.queue.consumers| && I.ConsumerStep(s.queue, t, s'.queue)
  }

  /** The call gets to its elements with its last block. */
  function Items<T>(s: State<T>, s': State<T>): seq<T> {
    if s'.queue.producer.Publish? && !s.queue.producer.Publish? then s'.put + s'.batch else s.memory.items
  }

  ghost predicate QueueStep<T>(s: State<T>, s': State<T>) {
    I.Next(s.queue, s'.queue) && (Begins(s, s') || Proceeds(s, s') || Consumes(s, s'))
  }

  /** Either the queue takes a step, or a slot is written or read. */
  ghost predicate Next<T>(s: State<T>, s': State<T>) {
    s.queue.blockSize > 0 && s'.queue.blockSize > 0 &&
    (|| (QueueStep(s, s') && Goes(ViewOf(s.queue), ViewOf(s'.queue), s.memory, s'.memory, Items(s, s')))
     || (s'.queue == s.queue && s'.put == s.put && s'.batch == s.batch && Step(ViewOf(s.queue), s.memory, s'.memory)))
  }

  /** What was put is what is published, and a running call is to publish its batch after that. */
  ghost predicate CallOk<T>(s: State<T>) {
    && |s.put| == s.queue.tail
    && (s.queue.producer == I.Ready ==> s.batch == [])
    && (I.HasJob(s.queue.producer) ==> s.queue.producer.job.newTail == |s.put| + |s.batch|)
    && s.memory.items == if s.queue.producer.Publish? then s.put + s.batch else s.put
  }

  ghost predicate Inv<T>(s: State<T>) {
    I.Inv(s.queue) && s.queue.blockSize > 0 && BlockElements.Inv(ViewOf(s.queue), s.memory) && CallOk(s)
  }

  // ---------- The queue's view ----------

  lemma LimitFacts(s: I.State)
    requires I.Global(s)
    ensures s.tail <= Limit(s) && (forall i :: i in s.done ==> i < s.tail)
  {
    hide I.IndexOk, I.KeysOk, I.ClearedOk, I.AllocOk, I.OwnOk, I.GoneOk, Blocks;
  }

  /** A live index has its block. */
  lemma LiveIsGiven(s: I.State, i: nat)
    requires I.Global(s) && i < Limit(s) && i !in s.done
    ensures NumberOf(s.blockSize, i) in s.given
  {
    hide I.IndexOk, I.KeysOk, I.ClearedOk, I.OwnOk, I.GoneOk, Blocks;
    BelowBlocks(s.blockSize, i, Limit(s));
    assert I.TailOk(s);
  }

  lemma GivenIsDistinct(s: I.State, n: nat, k: nat)
    requires I.Global(s) && n in s.given && k in s.given && s.given[n] == s.given[k]
    ensures n == k
  {
    assert I.OwnOk(s.given, s.mine, s.producer);
  }

  lemma ViewUses(s: I.State, t: nat)
    requires I.Inv(s) && t < |s.consumers| && UseOf(s.blockSize, s.consumers[t]).Some?
    ensures UseOk(ViewOf(s), UseOf(s.blockSize, s.consumers[t]).value)
  {
    hide I.Inv, Portion, NumberOf;
    var c := s.consumers[t];
    I.UseFacts(s, t, c.index, c.end, c.header, c.slot, c.block);
    PortionInBlock(s.blockSize, c.index, c.end);
    var v := ViewOf(s);
    forall i: nat {:trigger i in v.done} | c.index <= i < c.index + Portion(s.blockSize, c.index, c.end)
      ensures i !in v.done && HasBlock(v, i) && v.given[NumberOf(v.size, i)] == c.block
    {
      PortionNumber(s.blockSize, c.index, c.end, i);
    }
  }

  lemma UsesDisjoint(s: I.State, t: nat, u: nat)
    requires I.Inv(s) && t < u < |s.consumers|
    ensures Disjoint(UseOf(s.blockSize, s.consumers[t]), UseOf(s.blockSize, s.consumers[u]))
  {
    var c, d := s.consumers[t], s.consumers[u];
    assert I.Apart(c, d);
    hide I.Inv;
    if c.Use? && c.index < c.end { PortionInBlock(s.blockSize, c.index, c.end); }
    if d.Use? && d.index < d.end { PortionInBlock(s.blockSize, d.index, d.end); }
  }

  lemma ViewIsOk(s: I.State)
    requires I.Inv(s)
    ensures s.blockSize > 0 && ViewOk(ViewOf(s))
  {
    var v := ViewOf(s);
    LimitFacts(s);
    forall t | 0 <= t < |v.uses| && v.uses[t].Some? ensures UseOk(v, v.uses[t].value) { ViewUses(s, t); }
    forall t, u | 0 <= t < u < |v.uses| ensures Disjoint(v.uses[t], v.uses[u]) { UsesDisjoint(s, t, u); }
    hide I.Global, I.ClaimsOk, I.ConsumerOk, UseOk, Disjoint, UseOf;
    forall i: nat | Live(v, i) ensures HasBlock(v, i) { LiveIsGiven(s, i); }
    forall i: nat, j: nat | Live(v, i) && Live(v, j) && v.given[NumberOf(v.size, i)] == v.given[NumberOf(v.size, j)]
      ensures NumberOf(v.size, i) == NumberOf(v.size, j)
    {
      LiveIsGiven(s, i);
      LiveIsGiven(s, j);
      GivenIsDistinct(s, NumberOf(v.size, i), NumberOf(v.size, j));
    }
  }

  // ---------- The queue's steps in the view ----------

  lemma ProducerMoves(s: I.State, s': I.State)
    requires I.ProducerStep(s, s')
    ensures s'.blockSize == s.blockSize > 0 && s'.consumers == s.consumers && s'.done == s.done
    ensures if s.producer.Publish? then
              s'.tail == s.producer.job.newTail && !s'.producer.Publish? && s'.given == s.given
            else s'.tail == s.tail
    ensures s.producer.Publish? ==> s'.producer == I.Ready
    ensures s.producer != I.Ready && I.HasJob(s'.producer) ==>
              I.HasJob(s.producer) && s'.producer.job.newTail == s.producer.job.newTail
  {
    hide Blocks, Portion, Slot;
  }

  /** An enqueue gives blocks to new numbers, and takes only those back. */
  lemma PublishedStay(s: I.State, s': I.State, n: nat)
    requires I.Global(s) && I.ProducerStep(s, s') && n in s.given && n < I.Published(s)
    ensures n in s'.given && s'.given[n] == s.given[n]
  {
    hide I.IndexOk, I.KeysOk, I.ClearedOk, I.AllocOk, I.OwnOk, I.GoneOk, I.TailOk, Blocks, Slot;
    assert I.JobOk(s);
  }

  lemma SameUses(s: I.State, s': I.State)
    requires s.blockSize == s'.blockSize > 0 && s'.consumers == s.consumers
    ensures ViewOf(s').uses == ViewOf(s).uses
  {
  }

  lemma GivenStays(s: I.State, s': I.State, i: nat)
    requires I.Global(s) && s.blockSize > 0 && s'.blockSize == s.blockSize && I.ProducerStep(s, s') && Live(ViewOf(s), i)
    ensures HasBlock(ViewOf(s), i) && HasBlock(ViewOf(s'), i)
    ensures ViewOf(s').given[NumberOf(s.blockSize, i)] == ViewOf(s).given[NumberOf(s.blockSize, i)]
  {
    LiveIsGiven(s, i);
    ProducerMoves(s, s');
    if !s.producer.Publish? {
      BelowBlocks(s.blockSize, i, s.tail);
      PublishedStay(s, s', NumberOf(s.blockSize, i));
    }
  }

  lemma ProducerTurns(s: I.State, s': I.State)
    requires I.Inv(s) && I.Inv(s') && I.ProducerStep(s, s')
    ensures s.blockSize > 0 && s'.blockSize > 0 && Turns(ViewOf(s), ViewOf(s'))
  {
    ProducerMoves(s, s');
    SameUses(s, s');
    LimitFacts(s);
    LimitFacts(s');
    hide I.ProducerStep, I.ClaimsOk, I.ConsumerOk, I.Global;
    forall i: nat | Live(ViewOf(s), i)
      ensures HasBlock(ViewOf(s), i) && HasBlock(ViewOf(s'), i)
      ensures ViewOf(s').given[NumberOf(s.blockSize, i)] == ViewOf(s).given[NumberOf(s.blockSize, i)]
    {
      GivenStays(s, s', i);
    }
  }

  lemma ConsumerMoves(s: I.State, s': I.State, t: nat)
    requires t < |s.consumers| && I.ConsumerStep(s, t, s')
    ensures s'.blockSize == s.blockSize > 0 && s'.tail == s.tail && s'.producer == s.producer
    ensures s'.given == if s.consumers[t].Release? then s.given - {s.consumers[t].n} else s.given
    ensures |s'.consumers| == |s.consumers| && s'.consumers == s.consumers[t := s'.consumers[t]]
  {
    hide Portion, Offsets, Slot, NumberOf;
  }

  lemma ConsumerGoes(s: I.State, s': I.State, t: nat)
    requires t < |s.consumers| && I.ConsumerStep(s, t, s') && |s'.consumers| == |s.consumers| && s.blockSize > 0
    ensures var c := s.consumers[t];
      if c.Use? then
        && c.index <= c.end && !s'.consumers[t].Use?
        && s'.done == s.done + Offsets(c.index, c.index + Portion(s.blockSize, c.index, c.end))
      else s'.done == s.done
  {
    hide Portion, Offsets, Slot, NumberOf;
  }

  lemma OneUseTurns(s: I.State, s': I.State, t: nat)
    requires s'.blockSize == s.blockSize > 0 && t < |s.consumers| == |s'.consumers|
    requires s'.consumers == s.consumers[t := s'.consumers[t]]
    ensures ViewOf(s').uses == ViewOf(s).uses[t := UseOf(s.blockSize, s'.consumers[t])]
    ensures ViewOf(s).uses[t] == UseOf(s.blockSize, s.consumers[t])
  {
    var c := ViewOf(s').uses;
    assert forall u :: 0 <= u < |c| ==> c[u] == UseOf(s.blockSize, s'.consumers[u]);
  }

  /** A block is released only when nothing in it is live. */
  lemma ReleasedIsGone(s: I.State, s': I.State, t: nat, i: nat)
    requires I.Inv(s) && s.blockSize > 0 && t < |s.consumers| && I.ConsumerStep(s, t, s') && Live(ViewOf(s), i)
    ensures HasBlock(ViewOf(s), i) && s'.blockSize == s.blockSize && HasBlock(ViewOf(s'), i)
    ensures ViewOf(s').given[NumberOf(s.blockSize, i)] == ViewOf(s).given[NumberOf(s.blockSize, i)]
  {
    LiveIsGiven(s, i);
    ConsumerMoves(s, s', t);
    var c := s.consumers[t];
    if c.Release? && c.n == NumberOf(s.blockSize, i) {
      I.ReleaseEntry(s, t, c.index, c.end, c.header, c.slot, c.block, c.n);
      I.FullMeansDone(s.blockSize, s.done, c.n, i);
    }
  }

  lemma ConsumerTurns(s: I.State, s': I.State, t: nat)
    requires I.Inv(s) && t < |s.consumers| && I.ConsumerStep(s, t, s')
    ensures s.blockSize > 0 && s'.blockSize > 0 && Turns(ViewOf(s), ViewOf(s'))
  {
    ConsumerMoves(s, s', t);
    ConsumerGoes(s, s', t);
    OneUseTurns(s, s', t);
    LimitFacts(s);
    hide I.ConsumerStep, I.ClaimsOk, I.ConsumerOk, I.Global;
    var v, v' := ViewOf(s), ViewOf(s');
    forall i: nat | Live(v, i)
      ensures HasBlock(v, i) && HasBlock(v', i) && v'.given[NumberOf(s.blockSize, i)] == v.given[NumberOf(s.blockSize, i)]
    {
      ReleasedIsGone(s, s', t, i);
    }
    OneUse(v, v', t, UseOf(s.blockSize, s'.consumers[t]));
  }

  lemma QueueTurns(s: I.State, s': I.State)
    requires I.Inv(s) && I.Inv(s') && I.Next(s, s')
    ensures s.blockSize > 0 && s'.blockSize > 0 && Turns(ViewOf(s), ViewOf(s'))
  {
    hide I.Inv, I.ProducerStep, I.ConsumerStep, Turns;
    if I.ProducerStep(s, s') {
      ProducerTurns(s, s');
    } else {
      var t: nat :| t < |s.consumers| && I.ConsumerStep(s, t, s');
      ConsumerTurns(s, s', t);
    }
  }

  // ---------- Runs ----------

  /** A call keeps to the elements it was given, and they come after all those put before. */
  lemma CallGoes<T>(s: State<T>, s': State<T>)
    requires s.queue.blockSize > 0 && s'.queue.blockSize > 0 && CallOk(s) && QueueStep(s, s')
    requires Goes(ViewOf(s.queue), ViewOf(s'.queue), s.memory, s'.memory, Items(s, s'))
    ensures CallOk(s') && s.memory.items <= Items(s, s') && |Items(s, s')| == ViewOf(s'.queue).limit
  {
    hide I.ProducerStep, I.ConsumerStep, I.Next, Blocks;
    if Begins(s, s') {
    } else if Proceeds(s, s') {
      ProducerMoves(s.queue, s'.queue);
    } else {
      var t: nat :| t < |s.queue.consumers| && I.ConsumerStep(s.queue, t, s'.queue);
      ConsumerMoves(s.queue, s'.queue, t);
    }
  }

  lemma NextInv<T>(s: State<T>, s': State<T>)
    requires Inv(s) && Next(s, s')
    ensures Inv(s')
  {
    ViewIsOk(s.queue);
    hide I.Inv, BlockElements.Inv, Turns, Goes, Step, ViewOk, I.Next, CallOk, Begins, Proceeds, Consumes;
    if QueueStep(s, s') && Goes(ViewOf(s.queue), ViewOf(s'.queue), s.memory, s'.memory, Items(s, s')) {
      I.NextInv(s.queue, s'.queue);
      ViewIsOk(s'.queue);
      QueueTurns(s.queue, s'.queue);
      CallGoes(s, s');
      GoesInv(ViewOf(s.queue), ViewOf(s'.queue), s.memory, s'.memory, Items(s, s'));
    } else {
      StepInv(ViewOf(s.queue), s.memory, s'.memory);
      MemoryOnly(s, s');
    }
  }

  lemma MemoryOnly<T>(s: State<T>, s': State<T>)
    requires s.queue.blockSize > 0 && CallOk(s) && Step(ViewOf(s.queue), s.memory, s'.memory)
    requires s'.queue == s.queue && s'.put == s.put && s'.batch == s.batch
    ensures CallOk(s')
  {
  }

  lemma Always<T(!new)>(run: seq<State<T>>, k: nat)
    requires Runs.IsRun(Init, Next, run) && k < |run|
    ensures Inv(run[k])
  {
    hide Inv, Next;
    forall s: State<T> | Init(s) ensures Inv(s) { StartInv(s); }
    forall s: State<T>, s': State<T> | Inv(s) && Next(s, s') ensures Inv(s') { NextInv(s, s'); }
    Runs.InvariantOnRun(Init, Next, Inv, run, k);
  }

  lemma StartInv<T>(s: State<T>)
    requires Init(s)
    ensures Inv(s)
  {
    I.InitInv(s.queue);
    BlockElements.InitInv(ViewOf(s.queue), s.memory);
  }

  /** What a consumer reads at an index is the element that was enqueued there; no index is read twice, and none is
      marked as gone that was not read. */
  lemma ReadsWhatWasEnqueued<T(!new)>(run: seq<State<T>>, k: nat)
    requires Runs.IsRun(Init, Next, run) && k < |run|
    ensures var m := run[k].memory;
      && (forall j :: 0 <= j < |m.taken| ==> m.taken[j].index < |m.items| && m.taken[j].value == m.items[m.taken[j].index])
      && (forall i, j :: 0 <= i < j < |m.taken| ==> m.taken[i].index != m.taken[j].index)
    ensures forall i: nat :: i in run[k].queue.done ==> exists j :: TakenAt(run[k].memory, j, i)
  {
    Always(run, k);
    GoneIsTaken(ViewOf(run[k].queue), run[k].memory);
    hide I.Inv;
  }

  /** A slot is not overwritten before it is read: while a consumer is in a block, the slot of its next index has the
      element enqueued at that index. */
  lemma SlotsKeepTheirElements<T(!new)>(run: seq<State<T>>, k: nat, t: nat)
    requires Runs.IsRun(Init, Next, run) && k < |run| && t < |run[k].queue.consumers| && run[k].queue.consumers[t].Use?
    ensures var s, m, c := run[k].queue, run[k].memory, run[k].queue.consumers[t];
      && s.blockSize > 0 && c.index <= c.end && t < |m.nextRead|
      && c.index <= m.nextRead[t] <= c.index + Portion(s.blockSize, c.index, c.end)
      && (m.nextRead[t] < c.index + Portion(s.blockSize, c.index, c.end) ==>
            && (c.block, m.nextRead[t] % s.blockSize) in m.cells && m.nextRead[t] < |m.items|
            && m.cells[(c.block, m.nextRead[t] % s.blockSize)] == m.items[m.nextRead[t]])
  {
    Always(run, k);
    var s, m, c := run[k].queue, run[k].memory, run[k].queue.consumers[t];
    I.UseFacts(s, t, c.index, c.end, c.header, c.slot, c.block);
    ViewIsOk(s);
    hide I.Inv;
    var v := ViewOf(s);
    assert v.uses[t] == UseOf(s.blockSize, c);
    if m.nextRead[t] < v.uses[t].value.stop {
      ReadsItsElement(v, m, t);
    }
  }

  /** Between calls, what is in the queue's slots in order, and published, is exactly what the calls that returned true
      were given; a running call is to publish just its own elements after that. */
  lemma HoldsWhatWasPut<T(!new)>(run: seq<State<T>>, k: nat)
    requires Runs.IsRun(Init, Next, run) && k < |run|
    ensures run[k].queue.tail == |run[k].put|
    ensures run[k].queue.producer == I.Ready ==> run[k].memory.items == run[k].put
    ensures I.HasJob(run[k].queue.producer) ==> run[k].queue.producer.job.newTail == |run[k].put| + |run[k].batch|
  {
    Always(run, k);
    hide I.Inv, BlockElements.Inv;
  }

  /** Nothing but the call's return ends it, and until then it keeps what it was given. */
  lemma {:induction false} SameCall<T(!new)>(run: seq<State<T>>, i: nat, j: nat)
    requires Runs.IsRun(Init, Next, run) && i <= j < |run|
    requires forall x :: i <= x <= j ==> run[x].queue.producer != I.Ready
    ensures run[j].put == run[i].put && run[j].batch == run[i].batch
  {
    hide Runs.IsRun, Goes, Step, I.ProducerStep, I.ConsumerStep, I.Next;
    if i < j {
      SameCall(run, i, j - 1);
      StepOfRun(run, j - 1);
      assert run[j - 1].queue.producer != I.Ready;
    }
  }

  lemma StepOfRun<T(!new)>(run: seq<State<T>>, k: nat)
    requires Runs.IsRun(Init, Next, run) && k + 1 < |run|
    ensures Next(run[k], run[k + 1])
  {
    hide Next, Init;
  }

  /** Each call to enqueue(_bulk), from beginning to return, appends exactly the elements it was given, in order, and
      raises the tail by their number, or fails and does neither, whatever the consumers do meanwhile. */
  lemma EnqueueAppends<T(!new)>(run: seq<State<T>>, i: nat, k: nat)
    requires Runs.IsRun(Init, Next, run) && i + 1 < k < |run|
    requires run[i].queue.producer == run[k].queue.producer == I.Ready
    requires forall j :: i < j < k ==> run[j].queue.producer != I.Ready
    ensures Begins(run[i], run[i + 1])
    ensures var added := if run[k - 1].queue.producer.Publish? then run[i + 1].batch else [];
      && run[k].queue.tail == run[i].queue.tail + |added|
      && run[k].memory.items == run[i].memory.items + added
  {
    hide Runs.IsRun, Init, Next, Begins;
    HoldsWhatWasPut(run, i);
    HoldsWhatWasPut(run, k);
    StepOfRun(run, i);
    StepOfRun(run, k - 1);
    SameCall(run, i + 1, k - 1);
    CallStarts(run[i], run[i + 1]);
    CallReturns(run[k - 1], run[k]);
  }

  lemma CallStarts<T>(s: State<T>, s': State<T>)
    requires Next(s, s') && s.queue.producer == I.Ready && s'.queue.producer != I.Ready
    ensures Begins(s, s') && s'.put == s.put
  {
    hide I.ProducerStep, I.ConsumerStep, I.Next, Goes, Step;
    if Consumes(s, s') {
      var t: nat :| t < |s.queue.consumers| && I.ConsumerStep(s.queue, t, s'.queue);
      ConsumerMoves(s.queue, s'.queue, t);
    }
  }

  lemma CallReturns<T>(s: State<T>, s': State<T>)
    requires Next(s, s') && s.queue.producer != I.Ready && s'.queue.producer == I.Ready
    ensures s'.put == if s.queue.producer.Publish? then s.put + s.batch else s.put
  {
    hide I.ProducerStep, I.ConsumerStep, I.Next, Goes, Step;
    if Consumes(s, s') {
      var t: nat :| t < |s.queue.consumers| && I.ConsumerStep(s.queue, t, s'.queue);
      ConsumerMoves(s.queue, s'.queue, t);
    }
  }

  /** And when all consumers are idle, exactly the elements before the head have been read, each once. */
  lemma ReadsWhatWasClaimed<T(!new)>(run: seq<State<T>>, k: nat)
    requires Runs.IsRun(Init, Next, run) && k < |run|
    requires forall t :: 0 <= t < |run[k].queue.consumers| ==> run[k].queue.consumers[t] == I.Idle
    ensures forall i: nat :: i < run[k].queue.head ==> WasTaken(run[k].memory, i)
    ensures forall j :: 0 <= j < |run[k].memory.taken| ==> run[k].memory.taken[j].index < run[k].queue.head
    ensures forall i, j :: 0 <= i < j < |run[k].memory.taken| ==> run[k].memory.taken[i].index != run[k].memory.taken[j].index
  {
    ReadsWhatWasEnqueued(run, k);
    QueueKeeps(run, k);
    Always(run, k);
    var s, v, m := run[k].queue, ViewOf(run[k].queue), run[k].memory;
    hide I.ClaimsKept;
    forall i: nat | i < s.head ensures WasTaken(m, i) { IdleHaveNothing(s, i); }
    assert forall t :: 0 <= t < |v.uses| ==> v.uses[t].None?;
    I.DoneIsClaimed(s);
    hide I.Inv;
    forall j | 0 <= j < |m.taken| ensures m.taken[j].index < s.head {
      assert IsRead(v, m, m.taken[j].index);
    }
  }

  lemma IdleHaveNothing(s: I.State, i: nat)
    requires I.ClaimsKept(s) && i < s.head && forall t :: 0 <= t < |s.consumers| ==> s.consumers[t] == I.Idle
    ensures i in s.done
  {
  }

  /** The queue's part of a run keeps what the queue keeps. */
  lemma {:induction false} QueueKeeps<T(!new)>(run: seq<State<T>>, k: nat)
    requires Runs.IsRun(Init, Next, run) && k < |run|
    ensures I.ClaimsKept(run[k].queue)
  {
    hide I.Inv, I.ClaimsKept, Next, Runs.IsRun, I.Init, BlockElements.Init;
    if k == 0 {
      StartOfRun(run);
      I.StartsKept(run[0].queue);
    } else {
      QueueKeeps(run, k - 1);
      Always(run, k - 1);
      StepOfRun(run, k - 1);
      NextKeeps(run[k - 1], run[k]);
    }
  }

  lemma StartOfRun<T(!new)>(run: seq<State<T>>)
    requires Runs.IsRun(Init, Next, run)
    ensures |run| > 0 && I.Init(run[0].queue)
  {
    hide Next, I.Init, BlockElements.Init;
  }

  lemma NextKeeps<T>(s: State<T>, s': State<T>)
    requires I.Inv(s.queue) && I.ClaimsKept(s.queue) && Next(s, s')
    ensures I.ClaimsKept(s'.queue)
  {
    hide I.Inv, I.ClaimsKept, I.Next, Goes, Step, Begins, Proceeds, Consumes;
    if s'.queue != s.queue {
      I.KeptNext(s.queue, s'.queue);
    }
  }
}
