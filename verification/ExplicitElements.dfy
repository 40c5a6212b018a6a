/** An explicit producer's elements (concurrentqueue.h: ExplicitProducer): what BlockElements says, for the queue of
    ExplicitBlockIndex. */
module ExplicitElements {
  import opened BlockElements
  import opened BlockNumbers
  import opened Options
  import E = ExplicitBlockIndex
  import Runs

  /** When all its blocks are there, an enqueue constructs its elements; the tail comes last. */
  function Limit(s: E.State): nat {
    if s.producer.SetTail? then s.producer.job.newTail else s.tail
  }

  function UseOf(size: nat, c: E.Consumer): Option<Use>
    requires size > 0
  {
    if c.Use? && c.index <= c.end then Some(Use(c.index, c.index + Portion(size, c.index, c.end), c.block)) else None
  }

  function Given(given: seq<nat>): map<nat, nat> {
    map n: nat | n < |given| :: given[n]
  }

  function ViewOf(s: E.State): View
    requires s.blockSize > 0
  {
    View(s.blockSize, s.tail, Limit(s), Given(s.given), s.done,
         seq(|s.consumers|, t requires 0 <= t < |s.consumers| => UseOf(s.blockSize, s.consumers[t])))
  }

  /** `batch` has the elements that the running call to enqueue(_bulk) was given, `put` those of the calls that have
      returned, in order. */
  datatype State<T> = State(queue: E.State, memory: Memory<T>, put: seq<T>, batch: seq<T>)

  ghost predicate Init<T>(s: State<T>) {
    E.Init(s.queue) && BlockElements.Init(ViewOf(s.queue), s.memory) && s.put == s.batch == []
  }

  /** A call begins with the elements it was given. */
  ghost predicate Begins<T>(s: State<T>, s': State<T>) {
    && s.queue.producer == E.Ready && s.queue.blockSize > 0 && s'.put == s.put
    && exists single :: s'.queue == E.Enqueue(s.queue, |s'.batch|, single)
  }

  /** A call goes on, or returns. */
  ghost predicate Proceeds<T>(s: State<T>, s': State<T>) {
    && s.queue.producer != E.Ready && E.ProducerStep(s.queue, s'.queue)
    && if s'.queue.producer == E.Ready then s'.put == s.put + s.batch && s'.batch == []
       else s'.put == s.put && s'.batch == s.batch
  }

  ghost predicate Consumes<T>(s: State<T>, s': State<T>) {
    && s'.put == s.put && s'.batch == s.batch
    && exists t: nat :: t < |s.queue.consumers| && E.ConsumerStep(s.queue, t, s'.queue)
  }

  /** The call gets to its elements with its last block. */
  function Items<T>(s: State<T>, s': State<T>): seq<T> {
    if s'.queue.producer.SetTail? && !s.queue.producer.SetTail? then s'.put + s'.batch else s.memory.items
  }

  ghost predicate QueueStep<T>(s: State<T>, s': State<T>) {
    E.Next(s.queue, s'.queue) && (Begins(s, s') || Proceeds(s, s') || Consumes(s, s'))
  }

  /** Either the queue takes a step, or a slot is written or read. */
  ghost predicate Next<T>(s: State<T>, s': State<T>) {
    s.queue.blockSize > 0 && s'.queue.blockSize > 0 &&
    (|| (QueueStep(s, s') && Goes(ViewOf(s.queue), ViewOf(s'.queue), s.memory, s'.memory, Items(s, s')))
     || (s'.queue == s.queue && s'.put == s.put && s'.batch == s.batch && Step(ViewOf(s.queue), s.memory, s'.memory)))
  }

  /** What was put is what is published, and a running call is to publish its batch after that. */
  ghost predicate CallOk<T>(s: State<T>) {
    && |s.put| == s.queue.tail
    && match s.queue.producer
       case Ready => s.batch == [] && s.memory.items == s.put
       case SetTail(job) => job.newTail == |s.put| + |s.batch| && s.memory.items == s.put + s.batch
       case _ => s.queue.producer.job.newTail == |s.put| + |s.batch| && s.memory.items == s.put
  }

  ghost predicate Inv<T>(s: State<T>) {
    E.Inv(s.queue) && s.queue.blockSize > 0 && BlockElements.Inv(ViewOf(s.queue), s.memory) && CallOk(s)
  }

  // ---------- The queue's view ----------

  lemma LimitFacts(s: E.State)
    requires E.Global(s)
    ensures s.tail <= Limit(s) && (forall i :: i in s.done ==> i < s.tail)
    ensures Blocks(s.blockSize, Limit(s)) <= |s.given| && 0 <= E.Oldest(s) <= E.Published(s)
  {
    hide E.IndexOk, E.FlagsOk, Blocks;
  }

  /** A live index has its block in the ring. */
  lemma LiveInRing(s: E.State, i: nat)
    requires E.Global(s) && i < Limit(s) && i !in s.done
    ensures E.Oldest(s) <= NumberOf(s.blockSize, i) < |s.given|
  {
    LimitFacts(s);
    BelowBlocks(s.blockSize, i, Limit(s));
    hide E.IndexOk, E.FlagsOk, E.JobOk, E.RingOk, Blocks;
    assert E.TailOk(s);
  }

  lemma RingIsDistinct(s: E.State, n: nat, k: nat)
    requires E.RingOk(s) && E.Oldest(s) <= n < |s.given| && E.Oldest(s) <= k < |s.given| && s.given[n] == s.given[k]
    ensures n == k
  {
    var a, b := n - E.Oldest(s), k - E.Oldest(s);
    assert s.ring[a] == s.given[n] && s.ring[b] == s.given[k];
  }

  lemma ViewUses(s: E.State, t: nat)
    requires E.Inv(s) && t < |s.consumers| && UseOf(s.blockSize, s.consumers[t]).Some?
    ensures UseOk(ViewOf(s), UseOf(s.blockSize, s.consumers[t]).value)
  {
    hide E.Inv, Portion, NumberOf;
    var c := s.consumers[t];
    E.UseFacts(s, t, c.index, c.end, c.header, c.slot, c.block);
    E.SameClaim(s, s, t);
    PortionInBlock(s.blockSize, c.index, c.end);
    var v := ViewOf(s);
    forall i: nat {:trigger i in v.done} | c.index <= i < c.index + Portion(s.blockSize, c.index, c.end)
      ensures i !in v.done && HasBlock(v, i) && v.given[NumberOf(v.size, i)] == c.block
    {
      PortionNumber(s.blockSize, c.index, c.end, i);
    }
  }

  lemma UsesDisjoint(s: E.State, t: nat, u: nat)
    requires E.Inv(s) && t < u < |s.consumers|
    ensures Disjoint(UseOf(s.blockSize, s.consumers[t]), UseOf(s.blockSize, s.consumers[u]))
  {
    var c, d := s.consumers[t], s.consumers[u];
    assert E.Apart(c, d);
    hide E.Inv;
    if c.Use? && c.index < c.end { PortionInBlock(s.blockSize, c.index, c.end); }
    if d.Use? && d.index < d.end { PortionInBlock(s.blockSize, d.index, d.end); }
  }

  lemma ViewIsOk(s: E.State)
    requires E.Inv(s)
    ensures s.blockSize > 0 && ViewOk(ViewOf(s))
  {
    var v := ViewOf(s);
    LimitFacts(s);
    forall t | 0 <= t < |v.uses| && v.uses[t].Some? ensures UseOk(v, v.uses[t].value) { ViewUses(s, t); }
    forall t, u | 0 <= t < u < |v.uses| ensures Disjoint(v.uses[t], v.uses[u]) { UsesDisjoint(s, t, u); }
    hide E.IndexOk, E.TailOk, E.FlagsOk, E.JobOk, E.RingOk, E.ClaimsOk, E.ConsumerOk, UseOk, Disjoint, UseOf;
    forall i: nat | Live(v, i) ensures HasBlock(v, i) { LiveInRing(s, i); }
    forall i: nat, j: nat | Live(v, i) && Live(v, j) && v.given[NumberOf(v.size, i)] == v.given[NumberOf(v.size, j)]
      ensures NumberOf(v.size, i) == NumberOf(v.size, j)
    {
      LiveInRing(s, i);
      LiveInRing(s, j);
      RingIsDistinct(s, NumberOf(v.size, i), NumberOf(v.size, j));
    }
  }

  // ---------- The queue's steps in the view ----------

  lemma ProducerMoves(s: E.State, s': E.State)
    requires E.ProducerStep(s, s')
    ensures s'.blockSize == s.blockSize > 0 && s'.consumers == s.consumers && s'.done == s.done && s.given <= s'.given
    ensures s'.tail == s.tail || (s.producer.SetTail? && s'.tail == s.producer.job.newTail)
    ensures s.producer.SetTail? <==> s.producer != E.Ready && s'.producer == E.Ready
    ensures s.producer.SetTail? ==> s'.tail == s.producer.job.newTail
    ensures s.producer != E.Ready && s'.producer != E.Ready ==> s'.producer.job.newTail == s.producer.job.newTail
  {
    hide Blocks, Portion;
  }

  lemma SameUses(s: E.State, s': E.State)
    requires s.blockSize == s'.blockSize > 0 && s'.consumers == s.consumers
    ensures ViewOf(s').uses == ViewOf(s).uses
  {
  }

  /** Whatever grows, the blocks given to numbers before stay theirs. */
  lemma GivenStays(s: E.State, s': E.State, i: nat)
    requires E.Global(s) && s'.blockSize == s.blockSize && s.given <= s'.given && Live(ViewOf(s), i)
    ensures HasBlock(ViewOf(s), i) && HasBlock(ViewOf(s'), i)
    ensures ViewOf(s').given[NumberOf(s.blockSize, i)] == ViewOf(s).given[NumberOf(s.blockSize, i)]
  {
    LiveInRing(s, i);
    hide E.Global;
  }

  lemma ProducerTurns(s: E.State, s': E.State)
    requires E.Inv(s) && E.Inv(s') && E.ProducerStep(s, s')
    ensures s.blockSize > 0 && s'.blockSize > 0 && Turns(ViewOf(s), ViewOf(s'))
  {
    ProducerMoves(s, s');
    SameUses(s, s');
    LimitFacts(s);
    LimitFacts(s');
    hide E.ProducerStep, E.ClaimsOk, E.ConsumerOk;
    forall i: nat | Live(ViewOf(s), i)
      ensures HasBlock(ViewOf(s), i) && HasBlock(ViewOf(s'), i)
      ensures ViewOf(s').given[NumberOf(s.blockSize, i)] == ViewOf(s).given[NumberOf(s.blockSize, i)]
    {
      GivenStays(s, s', i);
    }
    hide E.Global;
  }

  lemma ConsumerMoves(s: E.State, s': E.State, t: nat)
    requires t < |s.consumers| && E.ConsumerStep(s, t, s')
    ensures s'.blockSize == s.blockSize > 0 && s'.tail == s.tail && s'.producer == s.producer
    ensures s'.given == s.given
    ensures |s'.consumers| == |s.consumers| && s'.consumers == s.consumers[t := s'.consumers[t]]
  {
    hide Portion, Offsets, Slot, NumberOf;
  }

  lemma ConsumerGoes(s: E.State, s': E.State, t: nat)
    requires t < |s.consumers| && E.ConsumerStep(s, t, s') && |s'.consumers| == |s.consumers| && s.blockSize > 0
    ensures var c := s.consumers[t];
      if c.Use? then
        && c.index <= c.end && !s'.consumers[t].Use?
        && s'.done == s.done + Offsets(c.index, c.index + Portion(s.blockSize, c.index, c.end))
      else s'.done == s.done
  {
    hide Portion, Offsets, Slot, NumberOf;
  }

  lemma OneUseTurns(s: E.State, s': E.State, t: nat)
    requires s'.blockSize == s.blockSize > 0 && t < |s.consumers| == |s'.consumers|
    requires s'.consumers == s.consumers[t := s'.consumers[t]]
    ensures ViewOf(s').uses == ViewOf(s).uses[t := UseOf(s.blockSize, s'.consumers[t])]
    ensures ViewOf(s).uses[t] == UseOf(s.blockSize, s.consumers[t])
  {
    var c := ViewOf(s').uses;
    assert forall u :: 0 <= u < |c| ==> c[u] == UseOf(s.blockSize, s'.consumers[u]);
  }

  lemma ConsumerTurns(s: E.State, s': E.State, t: nat)
    requires E.Inv(s) && t < |s.consumers| && E.ConsumerStep(s, t, s')
    ensures s.blockSize > 0 && s'.blockSize > 0 && Turns(ViewOf(s), ViewOf(s'))
  {
    ConsumerMoves(s, s', t);
    ConsumerGoes(s, s', t);
    OneUseTurns(s, s', t);
    LimitFacts(s);
    hide E.ConsumerStep, E.ClaimsOk, E.ConsumerOk;
    var v, v' := ViewOf(s), ViewOf(s');
    forall i: nat | Live(v, i)
      ensures HasBlock(v, i) && HasBlock(v', i) && v'.given[NumberOf(s.blockSize, i)] == v.given[NumberOf(s.blockSize, i)]
    {
      GivenStays(s, s', i);
    }
    hide E.Global;
    OneUse(v, v', t, UseOf(s.blockSize, s'.consumers[t]));
  }

  lemma QueueTurns(s: E.State, s': E.State)
    requires E.Inv(s) && E.Inv(s') && E.Next(s, s')
    ensures s.blockSize > 0 && s'.blockSize > 0 && Turns(ViewOf(s), ViewOf(s'))
  {
    hide E.Inv, E.ProducerStep, E.ConsumerStep, Turns;
    if E.ProducerStep(s, s') {
      ProducerTurns(s, s');
    } else {
      var t: nat :| t < |s.consumers| && E.ConsumerStep(s, t, s');
      ConsumerTurns(s, s', t);
    }
  }

  // ---------- Runs ----------

  /** A call keeps to the elements it was given, and they come after all those put before. */
  lemma CallGoes<T>(s: State<T>, s': State<T>)
    requires s.queue.blockSize > 0 && s'.queue.blockSize > 0 && CallOk(s) && QueueStep(s, s')
    requires Goes(ViewOf(s.queue), ViewOf(s'.queue), s.memory, s'.memory, Items(s, s'))
    ensures CallOk(s') && s.memory.items <= Items(s, s') && |Items(s, s')| == ViewOf(s'.queue).limit
  {
    hide E.ProducerStep, E.ConsumerStep, E.Next, Blocks;
    if Begins(s, s') {
    } else if Proceeds(s, s') {
      ProducerMoves(s.queue, s'.queue);
    } else {
      var t: nat :| t < |s.queue.consumers| && E.ConsumerStep(s.queue, t, s'.queue);
      ConsumerMoves(s.queue, s'.queue, t);
    }
  }

  lemma NextInv<T>(s: State<T>, s': State<T>)
    requires Inv(s) && Next(s, s')
    ensures Inv(s')
  {
    ViewIsOk(s.queue);
    hide E.Inv, BlockElements.Inv, Turns, Goes, Step, ViewOk, E.Next, CallOk, Begins, Proceeds, Consumes;
    if QueueStep(s, s') && Goes(ViewOf(s.queue), ViewOf(s'.queue), s.memory, s'.memory, Items(s, s')) {
      E.NextInv(s.queue, s'.queue);
      ViewIsOk(s'.queue);
      QueueTurns(s.queue, s'.queue);
      CallGoes(s, s');
      GoesInv(ViewOf(s.queue), ViewOf(s'.queue), s.memory, s'.memory, Items(s, s'));
    } else {
      StepInv(ViewOf(s.queue), s.memory, s'.memory);
      MemoryOnly(s, s');
    }
  }

  lemma MemoryOnly<T>(s: State<T>, s': State<T>)
    requires s.queue.blockSize > 0 && CallOk(s) && Step(ViewOf(s.queue), s.memory, s'.memory)
    requires s'.queue == s.queue && s'.put == s.put && s'.batch == s.batch
    ensures CallOk(s')
  {
  }

  lemma Always<T(!new)>(run: seq<State<T>>, k: nat)
    requires Runs.IsRun(Init, Next, run) && k < |run|
    ensures Inv(run[k])
  {
    hide Inv, Next;
    forall s: State<T> | Init(s) ensures Inv(s) { StartInv(s); }
    forall s: State<T>, s': State<T> | Inv(s) && Next(s, s') ensures Inv(s') { NextInv(s, s'); }
    Runs.InvariantOnRun(Init, Next, Inv, run, k);
  }

  lemma StartInv<T>(s: State<T>)
    requires Init(s)
    ensures Inv(s)
  {
    E.InitInv(s.queue);
    BlockElements.InitInv(ViewOf(s.queue), s.memory);
  }

  /** What a consumer reads at an index is the element that was enqueued there; no index is read twice, and none is
      marked as gone that was not read. */
  lemma ReadsWhatWasEnqueued<T(!new)>(run: seq<State<T>>, k: nat)
    requires Runs.IsRun(Init, Next, run) && k < |run|
    ensures var m := run[k].memory;
      && (forall j :: 0 <= j < |m.taken| ==> m.taken[j].index < |m.items| && m.taken[j].value == m.items[m.taken[j].index])
      && (forall i, j :: 0 <= i < j < |m.taken| ==> m.taken[i].index != m.taken[j].index)
    ensures forall i: nat :: i in run[k].queue.done ==> exists j :: TakenAt(run[k].memory, j, i)
  {
    Always(run, k);
    GoneIsTaken(ViewOf(run[k].queue), run[k].memory);
    hide E.Inv;
  }

  /** A slot is not overwritten before it is read: while a consumer is in a block, the slot of its next index has the
      element enqueued at that index. */
  lemma SlotsKeepTheirElements<T(!new)>(run: seq<State<T>>, k: nat, t: nat)
    requires Runs.IsRun(Init, Next, run) && k < |run| && t < |run[k].queue.consumers| && run[k].queue.consumers[t].Use?
    ensures var s, m, c := run[k].queue, run[k].memory, run[k].queue.consumers[t];
      && s.blockSize > 0 && c.index <= c.end && t < |m.nextRead|
      && c.index <= m.nextRead[t] <= c.index + Portion(s.blockSize, c.index, c.end)
      && (m.nextRead[t] < c.index + Portion(s.blockSize, c.index, c.end) ==>
            && (c.block, m.nextRead[t] % s.blockSize) in m.cells && m.nextRead[t] < |m.items|
            && m.cells[(c.block, m.nextRead[t] % s.blockSize)] == m.items[m.nextRead[t]])
  {
    Always(run, k);
    var s, m, c := run[k].queue, run[k].memory, run[k].queue.consumers[t];
    E.UseFacts(s, t, c.index, c.end, c.header, c.slot, c.block);
    ViewIsOk(s);
    hide E.Inv;
    var v := ViewOf(s);
    assert v.uses[t] == UseOf(s.blockSize, c);
    if m.nextRead[t] < v.uses[t].value.stop {
      ReadsItsElement(v, m, t);
    }
  }

  /** Between calls, what is in the queue's slots in order, and published, is exactly what the calls were given; a
      running call is to publish just its own elements after that. */
  lemma HoldsWhatWasPut<T(!new)>(run: seq<State<T>>, k: nat)
    requires Runs.IsRun(Init, Next, run) && k < |run|
    ensures run[k].queue.tail == |run[k].put|
    ensures if run[k].queue.producer == E.Ready then run[k].memory.items == run[k].put
            else run[k].queue.producer.job.newTail == |run[k].put| + |run[k].batch|
  {
    Always(run, k);
    hide E.Inv, BlockElements.Inv;
  }

  /** Nothing but the call's return ends it, and until then it keeps what it was given. */
  lemma {:induction false} SameCall<T(!new)>(run: seq<State<T>>, i: nat, j: nat)
    requires Runs.IsRun(Init, Next, run) && i <= j < |run|
    requires forall x :: i <= x <= j ==> run[x].queue.producer != E.Ready
    ensures run[j].put == run[i].put && run[j].batch == run[i].batch
  {
    hide Runs.IsRun, Goes, Step, E.ProducerStep, E.ConsumerStep, E.Next;
    if i < j {
      SameCall(run, i, j - 1);
      StepOfRun(run, j - 1);
      assert run[j - 1].queue.producer != E.Ready;
    }
  }

  lemma StepOfRun<T(!new)>(run: seq<State<T>>, k: nat)
    requires Runs.IsRun(Init, Next, run) && k + 1 < |run|
    ensures Next(run[k], run[k + 1])
  {
    hide Next, Init;
  }

  /** Each call to enqueue(_bulk), from beginning to return, appends exactly the elements it was given, in order, and
      raises the tail by their number, whatever the consumers do meanwhile. */
  lemma EnqueueAppends<T(!new)>(run: seq<State<T>>, i: nat, k: nat)
    requires Runs.IsRun(Init, Next, run) && i + 1 < k < |run|
    requires run[i].queue.producer == run[k].queue.producer == E.Ready
    requires forall j :: i < j < k ==> run[j].queue.producer != E.Ready
    ensures Begins(run[i], run[i + 1])
    ensures run[k].queue.tail == run[i].queue.tail + |run[i + 1].batch|
    ensures run[k].memory.items == run[i].memory.items + run[i + 1].batch
  {
    hide Runs.IsRun, Init, Next, Begins;
    HoldsWhatWasPut(run, i);
    HoldsWhatWasPut(run, k);
    StepOfRun(run, i);
    StepOfRun(run, k - 1);
    SameCall(run, i + 1, k - 1);
    CallStarts(run[i], run[i + 1]);
    CallReturns(run[k - 1], run[k]);
  }

  lemma CallStarts<T>(s: State<T>, s': State<T>)
    requires Next(s, s') && s.queue.producer == E.Ready && s'.queue.producer != E.Ready
    ensures Begins(s, s') && s'.put == s.put
  {
    hide E.ProducerStep, E.ConsumerStep, E.Next, Goes, Step;
    if Consumes(s, s') {
      var t: nat :| t < |s.queue.consumers| && E.ConsumerStep(s.queue, t, s'.queue);
      ConsumerMoves(s.queue, s'.queue, t);
    }
  }

  lemma CallReturns<T>(s: State<T>, s': State<T>)
    requires Next(s, s') && s.queue.producer != E.Ready && s'.queue.producer == E.Ready
    ensures s'.put == s.put + s.batch
  {
    hide E.ProducerStep, E.ConsumerStep, E.Next, Goes, Step;
    if Consumes(s, s') {
      var t: nat :| t < |s.queue.consumers| && E.ConsumerStep(s.queue, t, s'.queue);
      ConsumerMoves(s.queue, s'.queue, t);
    }
  }

  /** And when all consumers are idle, exactly the elements before the head have been read, each once. */
  lemma ReadsWhatWasClaimed<T(!new)>(run: seq<State<T>>, k: nat)
    requires Runs.IsRun(Init, Next, run) && k < |run|
    requires forall t :: 0 <= t < |run[k].queue.consumers| ==> run[k].queue.consumers[t] == E.Idle
    ensures forall i: nat :: i < run[k].queue.head ==> WasTaken(run[k].memory, i)
    ensures forall j :: 0 <= j < |run[k].memory.taken| ==> run[k].memory.taken[j].index < run[k].queue.head
    ensures forall i, j :: 0 <= i < j < |run[k].memory.taken| ==> run[k].memory.taken[i].index != run[k].memory.taken[j].index
  {
    ReadsWhatWasEnqueued(run, k);
    QueueKeeps(run, k);
    Always(run, k);
    var s, v, m := run[k].queue, ViewOf(run[k].queue), run[k].memory;
    hide E.ClaimsKept;
    forall i: nat | i < s.head ensures WasTaken(m, i) { IdleHaveNothing(s, i); }
    assert forall t :: 0 <= t < |v.uses| ==> v.uses[t].None?;
    E.DoneIsClaimed(s);
    hide E.Inv;
    forall j | 0 <= j < |m.taken| ensures m.taken[j].index < s.head {
      assert IsRead(v, m, m.taken[j].index);
    }
  }

  lemma IdleHaveNothing(s: E.State, i: nat)
    requires E.ClaimsKept(s) && i < s.head && forall t :: 0 <= t < |s.consumers| ==> s.consumers[t] == E.Idle
    ensures i in s.done
  {
  }

  /** The queue's part of a run keeps what the queue keeps. */
  lemma {:induction false} QueueKeeps<T(!new)>(run: seq<State<T>>, k: nat)
    requires Runs.IsRun(Init, Next, run) && k < |run|
    ensures E.ClaimsKept(run[k].queue)
  {
    hide E.Inv, E.ClaimsKept, Next, Runs.IsRun, E.Init, BlockElements.Init;
    if k == 0 {
      StartOfRun(run);
      E.StartsKept(run[0].queue);
    } else {
      QueueKeeps(run, k - 1);
      Always(run, k - 1);
      StepOfRun(run, k - 1);
      NextKeeps(run[k - 1], run[k]);
    }
  }

  lemma StartOfRun<T(!new)>(run: seq<State<T>>)
    requires Runs.IsRun(Init, Next, run)
    ensures |run| > 0 && E.Init(run[0].queue)
  {
    hide Next, E.Init, BlockElements.Init;
  }

  lemma NextKeeps<T>(s: State<T>, s': State<T>)
    requires E.Inv(s.queue) && E.ClaimsKept(s.queue) && Next(s, s')
    ensures E.ClaimsKept(s'.queue)
  {
    hide E.Inv, E.ClaimsKept, E.Next, Goes, Step, Begins, Proceeds, Consumes;
    if s'.queue != s.queue {
      E.KeptNext(s.queue, s'.queue);
    }
  }
}
