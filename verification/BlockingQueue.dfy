/** BlockingConcurrentQueue (blockingconcurrentqueue.h): a queue whose elements are counted by a
    LightweightSemaphore. The inner queue is a bag that may fail to find an element it holds; each
    call on it is one step, and each call on the semaphore takes the semaphore's own steps. */
module BlockingQueue {
  import opened Sums
  import L = LightweightSemaphore
  import Runs

  /** Where a thread stands outside the semaphore. */
  datatype Stage =
    | Out
    | Enqueued(n: nat)                 // the elements are in, sema->signal(n) comes next
    | Signalling
    | Waiting                          // in sema->wait(Many) or tryWait(Many)
    | Draining(max: nat, count: nat)   // has `max` units, and `count` elements so far

  /** A dequeue call that has returned: the units it took and the elements it brought. */
  datatype Dequeued = Dequeued(units: nat, elements: nat)

  /** `put` and `log` are history: how many elements enqueue calls were given, and the dequeue calls that returned. */
  datatype State = State(inner: nat, sema: L.State, stages: seq<Stage>, put: nat, log: seq<Dequeued>)

  ghost predicate Init(s: State) {
    && s.inner == 0 && L.Init(s.sema) && s.sema.initial == 0 && s.put == 0 && s.log == []
    && |s.stages| == |s.sema.threads| && forall t :: 0 <= t < |s.stages| ==> s.stages[t] == Out
  }

  function Goto(s: State, t: nat, stage: Stage): State
    requires t < |s.stages|
  {
    s.(stages := s.stages[t := stage])
  }

  /** The thread's semaphore call goes on, and what it does next if the call returns. */
  ghost predicate InSemaphore(s: State, t: nat, s': State, next: Stage)
    requires t < |s.stages| == |s.sema.threads|
  {
    && |s'.sema.threads| == |s.sema.threads|
    && L.Step(s.sema, t, s'.sema)
    && s' == (if s'.sema.threads[t] == L.Idle then Goto(s, t, next) else s).(sema := s'.sema)
  }

  /** The call that has just returned brings its units. */
  function AfterWait(sema: L.State): Stage {
    if sema.results == [] then Out else Draining(sema.results[|sema.results| - 1].count, 0)
  }

  /** inner.try_dequeue_bulk has brought k elements. */
  function Taken(s: State, t: nat, max: nat, count: nat, k: nat): State
    requires t < |s.stages| && k <= s.inner
  {
    Goto(s, t, Draining(max, count + k)).(inner := s.inner - k)
  }

  ghost predicate Step(s: State, t: nat, s': State)
    requires t < |s.stages| == |s.sema.threads|
  {
    match s.stages[t]
    case Out =>
      || (exists n: nat :: s' == Goto(s, t, Enqueued(n)).(inner := s.inner + n, put := s.put + n))
      || (exists max, mode :: s' == Goto(s, t, Waiting).(sema := L.At(s.sema, t, L.Load(max, 0, mode))))
    case Enqueued(n) => s' == Goto(s, t, Signalling).(sema := L.At(s.sema, t, L.Signal(n)))
    case Signalling => InSemaphore(s, t, s', Out)
    case Waiting => InSemaphore(s, t, s', AfterWait(s'.sema))
    case Draining(max, count) =>
      if count == max then
        s' == Goto(s, t, Out).(log := s.log + [Dequeued(max, count)])
      else
        exists k: nat :: k <= max - count && k <= s.inner && s' == Taken(s, t, max, count, k)
  }

  ghost predicate Next(s: State, s': State) {
    |s.stages| == |s.sema.threads| && exists t: nat :: t < |s.stages| && Step(s, t, s')
  }

  // ---------- The invariant ----------

  /** Elements in the inner queue that this thread has claimed, or has yet to announce. */
  function Share(stage: Stage): nat {
    match stage
    case Enqueued(n) => n
    case Draining(max, count) => if max > count then max - count else 0
    case _ => 0
  }

  function Claimed(c: L.Thread): nat {
    if c.Signal? then c.n else L.Held(c)
  }

  /** Elements that a call has dequeued and not returned yet. */
  function InHand(stage: Stage): nat {
    if stage.Draining? then stage.count else 0
  }

  function Brought(d: Dequeued): nat { d.elements }

  predicate Coherent(stage: Stage, c: L.Thread) {
    match stage
    case Signalling => c.Signal? || c.Post?
    case Waiting => c != L.Idle && !c.Signal? && !c.Post?
    case Draining(max, count) => c == L.Idle && count <= max
    case _ => c == L.Idle
  }

  ghost predicate Inv(s: State) {
    && L.Inv(s.sema) && s.sema.initial == 0 && |s.stages| == |s.sema.threads|
    && (forall t :: 0 <= t < |s.stages| ==> Coherent(s.stages[t], s.sema.threads[t]))
    && s.inner + s.sema.acquired == s.sema.signalled + Sum(s.stages, Share) + Sum(s.sema.threads, Claimed)
    && s.put == s.inner + Sum(s.stages, InHand) + Sum(s.log, Brought)
    && (forall k :: 0 <= k < |s.log| ==> s.log[k].elements == s.log[k].units)
  }

  lemma InitInv(s: State)
    requires Init(s)
    ensures Inv(s)
  {
    L.InitInv(s.sema);
    SumZero(s.stages, Share);
    SumZero(s.stages, InHand);
    SumZero(s.sema.threads, Claimed);
  }

  /** A signal announces its units and then posts; a call to wait holds or returns what it acquires. */
  lemma SignalStep(a: L.State, t: nat, b: L.State)
    requires t < |a.threads| && (a.threads[t].Signal? || a.threads[t].Post?) && L.Step(a, t, b)
    ensures |b.threads| == |a.threads| && b.threads == a.threads[t := b.threads[t]]
    ensures b.threads[t].Post? || b.threads[t] == L.Idle
    ensures b.initial == a.initial && b.acquired == a.acquired && b.signalled == a.signalled + Claimed(a.threads[t])
  {
  }

  predicate WaitMove(a: L.State, t: nat, b: L.State)
    requires t < |a.threads|
  {
    && |b.threads| == |a.threads| && b.threads == a.threads[t := b.threads[t]]
    && !b.threads[t].Signal? && !b.threads[t].Post?
    && b.initial == a.initial && b.signalled == a.signalled
    && if b.threads[t] == L.Idle then
         |b.results| > 0 && b.acquired + Claimed(a.threads[t]) == a.acquired + b.results[|b.results| - 1].count
       else
         b.acquired + Claimed(a.threads[t]) == a.acquired + Claimed(b.threads[t])
  }

  lemma TryStep(a: L.State, t: nat, b: L.State)
    requires t < |a.threads| && (a.threads[t].Load? || a.threads[t].Cas?) && L.Step(a, t, b)
    ensures WaitMove(a, t, b)
  {
  }

  lemma SpinStep(a: L.State, t: nat, b: L.State)
    requires t < |a.threads| && (a.threads[t].Spin? || a.threads[t].SpinCas? || a.threads[t].Register?) && L.Step(a, t, b)
    ensures WaitMove(a, t, b)
  {
  }

  lemma WaiterStep(a: L.State, t: nat, b: L.State)
    requires t < |a.threads| && L.IsWaiting(a.threads[t]) && L.Step(a, t, b)
    ensures WaitMove(a, t, b)
  {
  }

  lemma WaitStep(a: L.State, t: nat, b: L.State)
    requires t < |a.threads| && a.threads[t] != L.Idle && !a.threads[t].Signal? && !a.threads[t].Post? && L.Step(a, t, b)
    ensures WaitMove(a, t, b)
  {
    hide L.Step, WaitMove;
    var c := a.threads[t];
    if L.IsWaiting(c) {
      WaiterStep(a, t, b);
    } else if c.Load? || c.Cas? {
      TryStep(a, t, b);
    } else {
      SpinStep(a, t, b);
    }
  }

  lemma Shares(s: State, t: nat, stage: Stage, c: L.Thread)
    requires t < |s.stages| == |s.sema.threads|
    ensures Sum(s.stages[t := stage], Share) + Share(s.stages[t]) == Sum(s.stages, Share) + Share(stage)
    ensures Sum(s.stages[t := stage], InHand) + InHand(s.stages[t]) == Sum(s.stages, InHand) + InHand(stage)
    ensures Sum(s.sema.threads[t := c], Claimed) + Claimed(s.sema.threads[t]) == Sum(s.sema.threads, Claimed) + Claimed(c)
  {
    SumUpdate(s.stages, t, stage, Share);
    SumUpdate(s.stages, t, stage, InHand);
    SumUpdate(s.sema.threads, t, c, Claimed);
  }

  lemma SignalInv(s: State, t: nat, s': State)
    requires Inv(s) && t < |s.stages| && s.stages[t] == Signalling && InSemaphore(s, t, s', Out)
    ensures Inv(s')
  {
    L.StepInv(s.sema, t, s'.sema);
    SignalStep(s.sema, t, s'.sema);
    hide L.Step, L.Inv;
    Shares(s, t, s'.stages[t], s'.sema.threads[t]);
  }

  lemma WaitInv(s: State, t: nat, s': State)
    requires Inv(s) && t < |s.stages| && s.stages[t] == Waiting
    requires InSemaphore(s, t, s', AfterWait(s'.sema))
    ensures Inv(s')
  {
    L.StepInv(s.sema, t, s'.sema);
    WaitStep(s.sema, t, s'.sema);
    hide L.Step, L.Inv;
    Shares(s, t, s'.stages[t], s'.sema.threads[t]);
  }

  lemma EnqueueInv(s: State, t: nat, n: nat)
    requires Inv(s) && t < |s.stages| && s.stages[t] == Out
    ensures Inv(Goto(s, t, Enqueued(n)).(inner := s.inner + n, put := s.put + n))
  {
    hide L.Inv;
    Shares(s, t, Enqueued(n), s.sema.threads[t]);
    assert s.sema.threads[t := s.sema.threads[t]] == s.sema.threads;
  }

  /** A call on the semaphore begins. */
  lemma CallInv(s: State, t: nat, stage: Stage, c: L.Thread)
    requires Inv(s) && t < |s.stages| && (s.stages[t] == Out || s.stages[t].Enqueued?)
    requires Coherent(stage, c) && Share(s.stages[t]) == Claimed(c) && Share(stage) == InHand(stage) == 0
    requires L.Start(s.sema, t, L.At(s.sema, t, c))
    ensures Inv(Goto(s, t, stage).(sema := L.At(s.sema, t, c)))
  {
    L.StartInv(s.sema, t, L.At(s.sema, t, c));
    hide L.Inv, L.Start;
    Shares(s, t, stage, c);
  }

  lemma StartInv(s: State, t: nat, s': State)
    requires Inv(s) && t < |s.stages| && (s.stages[t] == Out || s.stages[t].Enqueued?) && Step(s, t, s')
    ensures Inv(s')
  {
    hide L.Inv;
    assert Coherent(s.stages[t], s.sema.threads[t]);
    if s.stages[t].Enqueued? {
      CallInv(s, t, Signalling, L.Signal(s.stages[t].n));
    } else if n: nat :| s' == Goto(s, t, Enqueued(n)).(inner := s.inner + n, put := s.put + n) {
      EnqueueInv(s, t, n);
    } else {
      var max, mode :| s' == Goto(s, t, Waiting).(sema := L.At(s.sema, t, L.Load(max, 0, mode)));
      CallInv(s, t, Waiting, L.Load(max, 0, mode));
    }
  }

  lemma DrainInv(s: State, t: nat, s': State)
    requires Inv(s) && t < |s.stages| && s.stages[t].Draining? && Step(s, t, s')
    ensures Inv(s')
  {
    hide L.Inv;
    Shares(s, t, s'.stages[t], s.sema.threads[t]);
    var d := s.stages[t];
    SumAppend(s.log, Dequeued(d.max, d.count), Brought);
    assert s.sema.threads[t := s.sema.threads[t]] == s.sema.threads;
  }

  lemma NextInv(s: State, s': State)
    requires Inv(s) && Next(s, s')
    ensures Inv(s')
  {
    var t: nat :| t < |s.stages| && Step(s, t, s');
    match s.stages[t]
    case Signalling => SignalInv(s, t, s');
    case Waiting => WaitInv(s, t, s');
    case Draining(_, _) => DrainInv(s, t, s');
    case _ => StartInv(s, t, s');
  }

  lemma Always(run: seq<State>, k: nat)
    requires Runs.IsRun(Init, Next, run) && k < |run|
    ensures Inv(run[k])
  {
    forall s | Init(s) ensures Inv(s) { InitInv(s); }
    forall s, s' | Inv(s) && Next(s, s') ensures Inv(s') { NextInv(s, s'); }
    Runs.InvariantOnRun(Init, Next, Inv, run, k);
  }

  // ---------- What it means for clients ----------

  /** The inner queue holds exactly the units that are still free or on their way to a waiter, those a
      call has claimed but not dequeued, and the elements that have not been signalled yet. */
  lemma ElementsAccounted(run: seq<State>, k: nat)
    requires Runs.IsRun(Init, Next, run) && k < |run|
    ensures var s := run[k];
            s.inner == L.Positive(s.sema.count) + s.sema.permits + L.PostsDue(s.sema)
                       + Sum(s.stages, Share) + Sum(s.sema.threads, Claimed)
  {
    Always(run, k);
  }

  /** A consumer past the semaphore never looks for an element in a queue with too few of them, whatever
      all the others have claimed. */
  lemma NeverSpinsOnEmpty(run: seq<State>, k: nat, t: nat, u: nat)
    requires Runs.IsRun(Init, Next, run) && k < |run|
    requires t < |run[k].stages| && run[k].stages[t].Draining?
    ensures run[k].inner >= run[k].stages[t].max - run[k].stages[t].count
    ensures t < u < |run[k].stages| ==> run[k].inner >= Share(run[k].stages[t]) + Share(run[k].stages[u])
  {
    ElementsAccounted(run, k);
    SumAtLeast(run[k].stages, t, Share);
    if t < u < |run[k].stages| {
      SumAtLeastTwo(run[k].stages, t, u, Share);
    }
  }

  /** Every dequeue call brings as many elements as it took units. */
  lemma BringsWhatItTook(run: seq<State>, k: nat)
    requires Runs.IsRun(Init, Next, run) && k < |run|
    ensures forall j :: 0 <= j < |run[k].log| ==> run[k].log[j].elements == run[k].log[j].units
  {
    Always(run, k);
  }

  /** No element is lost or made up: what the enqueue calls were given is in the inner queue, in the hands of a
      dequeue call, or was brought by one that has returned. */
  lemma NoElementLost(run: seq<State>, k: nat)
    requires Runs.IsRun(Init, Next, run) && k < |run|
    ensures run[k].put == run[k].inner + Sum(run[k].stages, InHand) + Sum(run[k].log, Brought)
  {
    Always(run, k);
  }

  /** A dequeue call whose wait comes back with fewer units than it asked for has seen a queue in which every element
      is spoken for: by a call that has claimed it, by a waiter on its way to it, or by an enqueue yet to signal. */
  lemma ShortMeansSpokenFor(run: seq<State>, k: nat, t: nat)
    requires Runs.IsRun(Init, Next, run) && k + 1 < |run|
    requires t < |run[k].stages| == |run[k].sema.threads| && run[k].stages[t] == Waiting
    requires InSemaphore(run[k], t, run[k + 1], AfterWait(run[k + 1].sema)) && run[k + 1].stages[t] != Waiting
    ensures L.InWait(run[k].sema.threads[t]) && run[k + 1].stages[t].Draining?
    ensures var s, s', asked := run[k], run[k + 1], L.Asked(run[k].sema.threads[t]);
      var got := s'.stages[t].max;
      && s'.sema.results == s.sema.results + [L.Return(asked, s.sema.threads[t].mode, got)] && got <= asked
      && (got < asked ==> s'.inner == s'.sema.permits + L.PostsDue(s'.sema)
                                      + Sum(s'.stages, Share) + Sum(s'.sema.threads, Claimed))
  {
    Always(run, k);
    var s, s' := run[k], run[k + 1];
    assert Coherent(s.stages[t], s.sema.threads[t]);
    L.WaitAnswers(s.sema, t, s'.sema);
    ElementsAccounted(run, k + 1);
  }

  /** With every thread out, the semaphore counts exactly the elements there are: those given to enqueue
      and not brought by a dequeue. */
  lemma CountsElements(run: seq<State>, k: nat)
    requires Runs.IsRun(Init, Next, run) && k < |run|
    requires forall t :: 0 <= t < |run[k].stages| ==> run[k].stages[t] == Out
    ensures run[k].sema.count == run[k].inner == run[k].put - Sum(run[k].log, Brought) && run[k].sema.permits == 0
  {
    Always(run, k);
    var s := run[k];
    assert forall t :: 0 <= t < |s.stages| ==> Coherent(s.stages[t], s.sema.threads[t]);
    SumZero(s.stages, Share);
    SumZero(s.stages, InHand);
    SumZero(s.sema.threads, Claimed);
    SumZero(s.sema.threads, L.Waiting);
    SumZero(s.sema.threads, L.Unposted);
  }
}
