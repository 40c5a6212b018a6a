/** LightweightSemaphore (lightweightsemaphore.h): a count that goes negative for waiters, above a kernel
    semaphore whose posts lag behind the count. One access to the count or to the kernel semaphore
    per step. A single wait is the bulk one with max == 1. */
module LightweightSemaphore {
  import Arithmetic
  import opened Sums
  import Runs

  /** tryWait(Many); a wait with a timeout, zero included; a wait without one. */
  datatype Mode = Try | Timed | Untimed

  /** Where a thread stands, with the local variables that are still live. `got` is what the call has
      acquired already, `left` how much more it may take. */
  datatype Thread =
    | Idle
    | Load(left: nat, got: nat, mode: Mode)
    | Cas(left: nat, got: nat, mode: Mode, seen: int)
    | Spin(max: nat, mode: Mode)
    | SpinCas(max: nat, mode: Mode, seen: int)
    | Register(max: nat, mode: Mode)
    | Sleep(max: nat, mode: Mode)
    | Undo(max: nat, mode: Mode)
    | UndoTake(max: nat, mode: Mode)
    | UndoCas(max: nat, mode: Mode, seen: int)
    | Signal(n: nat)
    | Post(n: nat)

  /** A call that has returned: what it asked for and what it got. */
  datatype Return = Return(max: nat, mode: Mode, count: nat)

  /** m_count, the permits of m_sema, and the threads. The other fields only record history: the units
      the semaphore started with, those signalled and acquired since, and the calls that returned. */
  datatype State = State(
    count: int, permits: nat, threads: seq<Thread>,
    initial: nat, signalled: nat, acquired: nat, results: seq<Return>)

  function Positive(x: int): nat { if x > 0 then x else 0 }

  // ---------- The steps ----------

  ghost predicate Init(s: State) {
    && s.count == s.initial && s.permits == s.signalled == s.acquired == 0 && s.results == []
    && forall t :: 0 <= t < |s.threads| ==> s.threads[t] == Idle
  }

  function At(s: State, t: nat, c: Thread): State
    requires t < |s.threads|
  {
    s.(threads := s.threads[t := c])
  }

  function Done(s: State, t: nat, max: nat, mode: Mode, count: nat): State
    requires t < |s.threads|
  {
    At(s, t, Idle).(results := s.results + [Return(max, mode, count)])
  }

  /** tryWaitMany has found nothing: a waiting call that has nothing yet begins to spin. */
  function Leave(s: State, t: nat, left: nat, got: nat, mode: Mode): State
    requires t < |s.threads|
  {
    if got == 0 && left > 0 && mode != Try then At(s, t, Spin(left, mode)) else Done(s, t, left + got, mode, got)
  }

  /** Take up to `left` units off the count. */
  function Grab(s: State, t: nat, left: nat, got: nat, mode: Mode): State
    requires t < |s.threads| && s.count > 0
  {
    var taken := Arithmetic.Min(s.count, left);
    Done(s.(count := s.count - taken, acquired := s.acquired + taken), t, left + got, mode, got + taken)
  }

  /** One unit is taken; a bulk call goes on with tryWaitMany. */
  function Acquired(s: State, t: nat, max: nat, mode: Mode): State
    requires t < |s.threads|
  {
    var s' := s.(acquired := s.acquired + 1);
    if max > 1 then At(s', t, Load(max - 1, 1, mode)) else Done(s', t, max, mode, 1)
  }

  function TakePermit(s: State, t: nat, max: nat, mode: Mode): State
    requires t < |s.threads| && s.permits > 0
  {
    Acquired(s.(permits := s.permits - 1), t, max, mode)
  }

  function Add(s: State, t: nat, n: nat): State
    requires t < |s.threads|
  {
    var release := Arithmetic.Min(0 - s.count, n);
    At(s, t, if release > 0 then Post(release) else Idle).(count := s.count + n, signalled := s.signalled + n)
  }

  /** A client begins a call. */
  ghost predicate Start(s: State, t: nat, s': State)
    requires t < |s.threads|
  {
    s.threads[t] == Idle &&
    ((exists max, mode :: s' == At(s, t, Load(max, 0, mode))) || (exists n: nat :: s' == At(s, t, Signal(n))))
  }

  ghost predicate Step(s: State, t: nat, s': State)
    requires t < |s.threads|
  {
    match s.threads[t]
    case Idle => false
    case Load(left, got, mode) =>
      s' == if s.count > 0 then At(s, t, Cas(left, got, mode, s.count)) else Leave(s, t, left, got, mode)
    case Cas(left, got, mode, seen) =>
      || (s.count == seen > 0 && s' == Grab(s, t, left, got, mode))
      || s' == if s.count > 0 then At(s, t, Cas(left, got, mode, s.count)) else Leave(s, t, left, got, mode)
    case Spin(max, mode) =>
      || s' == (if s.count > 0 then At(s, t, SpinCas(max, mode, s.count)) else s)
      || s' == At(s, t, Register(max, mode))
    case SpinCas(max, mode, seen) =>
      if s.count == seen > 0 then s' == Grab(s, t, max, 0, mode) else s' == At(s, t, Spin(max, mode))
    case Register(max, mode) =>
      var s1 := s.(count := s.count - 1);
      s' == if s.count > 0 then Acquired(s1, t, max, mode) else At(s1, t, Sleep(max, mode))
    case Sleep(max, mode) =>
      || (s.permits > 0 && s' == TakePermit(s, t, max, mode))
      || (mode == Timed && s' == At(s, t, Undo(max, mode)))
    case Undo(max, mode) =>
      s' == At(s, t, if s.count >= 0 then UndoTake(max, mode) else UndoCas(max, mode, s.count))
    case UndoTake(max, mode) =>
      s' == if s.permits > 0 then TakePermit(s, t, max, mode) else At(s, t, Undo(max, mode))
    case UndoCas(max, mode, seen) =>
      s' == if s.count == seen then Done(s.(count := s.count + 1), t, max, mode, 0) else At(s, t, Undo(max, mode))
    case Signal(n) => s' == Add(s, t, n)
    case Post(n) => s' == At(s, t, if n > 1 then Post(n - 1) else Idle).(permits := s.permits + 1)
  }

  ghost predicate Next(s: State, s': State) {
    exists t: nat :: t < |s.threads| && (Start(s, t, s') || Step(s, t, s'))
  }

  // ---------- The invariant ----------

  /** Registered as a waiter: the count has been taken down for it, and it has neither a permit nor its
      registration undone. */
  predicate IsWaiting(c: Thread) {
    c.Sleep? || c.Undo? || c.UndoTake? || c.UndoCas?
  }

  function Waiting(c: Thread): nat { if IsWaiting(c) then 1 else 0 }

  function Unposted(c: Thread): nat { if c.Post? then c.n else 0 }

  /** What a call has acquired that has not returned yet. */
  function Held(c: Thread): nat { if c.Load? || c.Cas? then c.got else 0 }

  function Count(r: Return): nat { r.count }

  function Waiters(s: State): nat { Sum(s.threads, Waiting) }
  function PostsDue(s: State): nat { Sum(s.threads, Unposted) }
  function InHand(s: State): nat { Sum(s.threads, Held) }
  function Handed(s: State): nat { Sum(s.results, Count) }

  predicate WellFormed(c: Thread) {
    match c
    case Cas(_, _, _, seen) => seen > 0
    case SpinCas(max, mode, seen) => seen > 0 && max > 0 && mode != Try
    case Spin(max, mode) => max > 0 && mode != Try
    case Register(max, mode) => max > 0 && mode != Try
    case Sleep(max, mode) => max > 0 && mode != Try
    case Undo(max, mode) => max > 0 && mode == Timed
    case UndoTake(max, mode) => max > 0 && mode == Timed
    case UndoCas(max, mode, seen) => max > 0 && mode == Timed && seen < 0
    case Post(n) => n > 0
    case _ => true
  }

  /** A call never returns more than it asked for, and one without a timeout never returns empty-handed. */
  predicate Fair(r: Return) {
    r.count <= r.max && (r.mode == Untimed && r.max > 0 ==> r.count > 0)
  }

  ghost predicate Inv(s: State) {
    && Waiters(s) == Positive(0 - s.count) + s.permits + PostsDue(s)
    && s.initial + s.signalled == s.acquired + Positive(s.count) + s.permits + PostsDue(s)
    && s.acquired == Handed(s) + InHand(s)
    && (forall t :: 0 <= t < |s.threads| ==> WellFormed(s.threads[t]))
    && (forall k :: 0 <= k < |s.results| ==> Fair(s.results[k]))
  }

  lemma InitInv(s: State)
    requires Init(s)
    ensures Inv(s)
  {
    SumZero(s.threads, Waiting);
    SumZero(s.threads, Unposted);
    SumZero(s.threads, Held);
  }

  /** What the sums become when one thread moves. */
  lemma Moves(s: State, t: nat, c: Thread)
    requires t < |s.threads|
    ensures Waiters(At(s, t, c)) + Waiting(s.threads[t]) == Waiters(s) + Waiting(c)
    ensures PostsDue(At(s, t, c)) + Unposted(s.threads[t]) == PostsDue(s) + Unposted(c)
    ensures InHand(At(s, t, c)) + Held(s.threads[t]) == InHand(s) + Held(c)
  {
    SumUpdate(s.threads, t, c, Waiting);
    SumUpdate(s.threads, t, c, Unposted);
    SumUpdate(s.threads, t, c, Held);
  }

  lemma Returns(s: State, r: Return)
    ensures Handed(s.(results := s.results + [r])) == Handed(s) + r.count
  {
    SumAppend(s.results, r, Count);
  }

  /** A thread moves on, and the counters and the thread's shares change by amounts that balance. */
  lemma Balanced(s: State, t: nat, c: Thread, s': State)
    requires Inv(s) && t < |s.threads| && WellFormed(c)
    requires s' == At(s, t, c).(count := s'.count, permits := s'.permits, signalled := s'.signalled, acquired := s'.acquired)
    requires Waiting(c) - Waiting(s.threads[t])
             == Positive(0 - s'.count) - Positive(0 - s.count) + s'.permits - s.permits + Unposted(c) - Unposted(s.threads[t])
    requires s'.signalled - s.signalled
             == s'.acquired - s.acquired + Positive(s'.count) - Positive(s.count) + s'.permits - s.permits
                + Unposted(c) - Unposted(s.threads[t])
    requires s'.acquired - s.acquired == Held(c) - Held(s.threads[t])
    ensures Inv(s')
  {
    Moves(s, t, c);
  }

  /** The same for a thread that returns. */
  lemma BalancedReturn(s: State, t: nat, r: Return, s': State)
    requires Inv(s) && t < |s.threads| && Fair(r)
    requires s' == At(s, t, Idle).(count := s'.count, permits := s'.permits, acquired := s'.acquired, results := s.results + [r])
    requires Unposted(s.threads[t]) == 0
    requires 0 - Waiting(s.threads[t]) == Positive(0 - s'.count) - Positive(0 - s.count) + s'.permits - s.permits
    requires 0 == s'.acquired - s.acquired + Positive(s'.count) - Positive(s.count) + s'.permits - s.permits
    requires s'.acquired - s.acquired == r.count - Held(s.threads[t])
    ensures Inv(s')
  {
    Moves(s, t, Idle);
    Returns(s, r);
  }

  lemma StartInv(s: State, t: nat, s': State)
    requires Inv(s) && t < |s.threads| && Start(s, t, s')
    ensures Inv(s')
  {
    Balanced(s, t, s'.threads[t], s');
  }

  lemma LeaveInv(s: State, t: nat, left: nat, got: nat, mode: Mode)
    requires Inv(s) && t < |s.threads|
    requires Held(s.threads[t]) == got && Waiting(s.threads[t]) == Unposted(s.threads[t]) == 0
    ensures Inv(Leave(s, t, left, got, mode))
  {
    var s' := Leave(s, t, left, got, mode);
    if got == 0 && left > 0 && mode != Try {
      Balanced(s, t, Spin(left, mode), s');
    } else {
      BalancedReturn(s, t, Return(left + got, mode, got), s');
    }
  }

  lemma GrabInv(s: State, t: nat, left: nat, got: nat, mode: Mode)
    requires Inv(s) && t < |s.threads| && s.count > 0
    requires Held(s.threads[t]) == got && Waiting(s.threads[t]) == Unposted(s.threads[t]) == 0
    ensures Inv(Grab(s, t, left, got, mode))
  {
    var taken := Arithmetic.Min(s.count, left);
    BalancedReturn(s, t, Return(left + got, mode, got + taken), Grab(s, t, left, got, mode));
  }

  lemma AcquiredInv(s: State, t: nat, max: nat, mode: Mode, s': State)
    requires Inv(s) && t < |s.threads| && max > 0
    requires s.threads[t].Register? || IsWaiting(s.threads[t])
    requires (s.threads[t].Register? && s.count > 0 && s' == Acquired(s.(count := s.count - 1), t, max, mode))
             || (IsWaiting(s.threads[t]) && s.permits > 0 && s' == TakePermit(s, t, max, mode))
    ensures Inv(s')
  {
    if max > 1 {
      Balanced(s, t, Load(max - 1, 1, mode), s');
    } else {
      BalancedReturn(s, t, Return(max, mode, 1), s');
    }
  }

  lemma SignalInv(s: State, t: nat, s': State)
    requires Inv(s) && t < |s.threads| && (s.threads[t].Signal? || s.threads[t].Post?) && Step(s, t, s')
    ensures Inv(s')
  {
    Balanced(s, t, s'.threads[t], s');
  }

  lemma UndoInv(s: State, t: nat, s': State)
    requires Inv(s) && t < |s.threads| && IsWaiting(s.threads[t]) && Step(s, t, s')
    ensures Inv(s')
  {
    var c := s.threads[t];
    if c.UndoCas? && s.count == c.seen {
      BalancedReturn(s, t, Return(c.max, c.mode, 0), s');
    } else if s'.permits < s.permits {
      AcquiredInv(s, t, c.max, c.mode, s');
    } else {
      Balanced(s, t, s'.threads[t], s');
    }
  }

  lemma TryInv(s: State, t: nat, s': State)
    requires Inv(s) && t < |s.threads| && (s.threads[t].Load? || s.threads[t].Cas?) && Step(s, t, s')
    ensures Inv(s')
  {
    var c := s.threads[t];
    if s.count > 0 && s' == At(s, t, Cas(c.left, c.got, c.mode, s.count)) {
      Balanced(s, t, s'.threads[t], s');
    } else if s.count > 0 {
      GrabInv(s, t, c.left, c.got, c.mode);
    } else {
      LeaveInv(s, t, c.left, c.got, c.mode);
    }
  }

  lemma SpinInv(s: State, t: nat, s': State)
    requires Inv(s) && t < |s.threads| && (s.threads[t].Spin? || s.threads[t].SpinCas? || s.threads[t].Register?)
    requires Step(s, t, s')
    ensures Inv(s')
  {
    var c := s.threads[t];
    if c.SpinCas? && s.count == c.seen {
      GrabInv(s, t, c.max, 0, c.mode);
    } else if c.Register? && s.count > 0 {
      AcquiredInv(s, t, c.max, c.mode, s');
    } else if s' != s {
      Balanced(s, t, s'.threads[t], s');
    }
  }

  lemma StepInv(s: State, t: nat, s': State)
    requires Inv(s) && t < |s.threads| && Step(s, t, s')
    ensures Inv(s')
  {
    match s.threads[t]
    case Load(_, _, _) => TryInv(s, t, s');
    case Cas(_, _, _, _) => TryInv(s, t, s');
    case Spin(_, _) => SpinInv(s, t, s');
    case SpinCas(_, _, _) => SpinInv(s, t, s');
    case Register(_, _) => SpinInv(s, t, s');
    case Signal(_) => SignalInv(s, t, s');
    case Post(_) => SignalInv(s, t, s');
    case Idle =>
    case _ => UndoInv(s, t, s');
  }

  lemma NextInv(s: State, s': State)
    requires Inv(s) && Next(s, s')
    ensures Inv(s')
  {
    var t: nat :| t < |s.threads| && (Start(s, t, s') || Step(s, t, s'));
    if Start(s, t, s') {
      StartInv(s, t, s');
    } else {
      StepInv(s, t, s');
    }
  }

  lemma Always(run: seq<State>, k: nat)
    requires Runs.IsRun(Init, Next, run) && k < |run|
    ensures Inv(run[k])
  {
    forall s | Init(s) ensures Inv(s) { InitInv(s); }
    forall s, s' | Inv(s) && Next(s, s') ensures Inv(s') { NextInv(s, s'); }
    Runs.InvariantOnRun(Init, Next, Inv, run, k);
  }

  // ---------- What it means for clients ----------

  /** The exact account, in every state of every run: the registered waiters are those the count owes,
      the permits and the posts to come; and no unit there ever was is lost or made up. */
  lemma ExactAccount(run: seq<State>, k: nat)
    requires Runs.IsRun(Init, Next, run) && k < |run|
    ensures var s := run[k];
            && Waiters(s) == Positive(0 - s.count) + s.permits + PostsDue(s)
            && s.initial + s.signalled == s.acquired + Positive(s.count) + s.permits + PostsDue(s)
            && s.acquired == Handed(s) + InHand(s)
  {
    Always(run, k);
  }

  /** No over-grant: the calls that have returned got no more units than there were, and each got
      between nothing (one, without a timeout) and what it asked for. */
  lemma NoOverGrant(run: seq<State>, k: nat)
    requires Runs.IsRun(Init, Next, run) && k < |run|
    ensures Handed(run[k]) + InHand(run[k]) <= run[k].initial + run[k].signalled
    ensures forall j :: 0 <= j < |run[k].results| ==> Fair(run[k].results[j])
  {
    Always(run, k);
  }

  predicate InWait(c: Thread) {
    c != Idle && !c.Signal? && !c.Post?
  }

  /** What a call to wait asked for. */
  function Asked(c: Thread): nat {
    match c
    case Idle => 0
    case Load(left, got, _) => left + got
    case Cas(left, got, _, _) => left + got
    case Signal(_) => 0
    case Post(_) => 0
    case _ => c.max
  }

  /** A step of a call to wait: it goes on with what it asked for, or returns. What is short of that is not there. */
  ghost predicate Answers(s: State, t: nat, s': State)
    requires t < |s.threads| && InWait(s.threads[t])
  {
    && |s'.threads| == |s.threads|
    && if s'.threads[t] == Idle then
         var c := s.threads[t];
         exists count: nat :: s'.results == s.results + [Return(Asked(c), c.mode, count)]
           && (count == Asked(c) || (count < Asked(c) && s'.count <= 0))
       else
         && s'.results == s.results && InWait(s'.threads[t]) && s'.threads[t].mode == s.threads[t].mode
         && Asked(s'.threads[t]) == Asked(s.threads[t])
  }

  lemma ReturnAnswers(s: State, t: nat, s': State, count: nat)
    requires t < |s.threads| == |s'.threads| && InWait(s.threads[t]) && s'.threads[t] == Idle
    requires s'.results == s.results + [Return(Asked(s.threads[t]), s.threads[t].mode, count)]
    requires count == Asked(s.threads[t]) || (count < Asked(s.threads[t]) && s'.count <= 0)
    ensures Answers(s, t, s')
  {
  }

  lemma TryAnswers(s: State, t: nat, s': State)
    requires t < |s.threads| && (s.threads[t].Load? || s.threads[t].Cas?) && Step(s, t, s')
    ensures Answers(s, t, s')
  {
    var c := s.threads[t];
    if s'.threads[t] == Idle {
      ReturnAnswers(s, t, s', if s.count > 0 then c.got + Arithmetic.Min(s.count, c.left) else c.got);
    }
  }

  lemma SpinAnswers(s: State, t: nat, s': State)
    requires t < |s.threads| && (s.threads[t].Spin? || s.threads[t].SpinCas? || s.threads[t].Register?)
    requires WellFormed(s.threads[t]) && Step(s, t, s')
    ensures Answers(s, t, s')
  {
    var c := s.threads[t];
    if s'.threads[t] == Idle {
      ReturnAnswers(s, t, s', if c.SpinCas? then Arithmetic.Min(s.count, c.max) else 1);
    }
  }

  lemma WaiterAnswers(s: State, t: nat, s': State)
    requires t < |s.threads| && IsWaiting(s.threads[t]) && WellFormed(s.threads[t]) && Step(s, t, s')
    ensures Answers(s, t, s')
  {
    var c := s.threads[t];
    if s'.threads[t] == Idle {
      ReturnAnswers(s, t, s', if s'.permits < s.permits then 1 else 0);
    }
  }

  lemma WaitAnswers(s: State, t: nat, s': State)
    requires t < |s.threads| && InWait(s.threads[t]) && WellFormed(s.threads[t]) && Step(s, t, s')
    ensures Answers(s, t, s')
  {
    hide Step, Answers;
    var c := s.threads[t];
    if IsWaiting(c) {
      WaiterAnswers(s, t, s');
    } else if c.Load? || c.Cas? {
      TryAnswers(s, t, s');
    } else {
      SpinAnswers(s, t, s');
    }
  }

  /** No call comes back short while units are left: in every run, each step of a call to wait, try or timed, keeps
      what the call asked for, and if it returns, it brings all of that unless the count is not positive. */
  lemma ShortOnlyWhenNoneLeft(run: seq<State>, k: nat, t: nat)
    requires Runs.IsRun(Init, Next, run) && k + 1 < |run|
    requires t < |run[k].threads| && InWait(run[k].threads[t]) && Step(run[k], t, run[k + 1])
    ensures Answers(run[k], t, run[k + 1])
  {
    Always(run, k);
    WaitAnswers(run[k], t, run[k + 1]);
  }

  /** And while units are there, two steps of its own bring a call all it asked for, or all there is. */
  lemma TakesWhatIsThere(s: State, t: nat, max: nat, mode: Mode) returns (loaded: State, done: State)
    requires t < |s.threads| && s.threads[t] == Load(max, 0, mode) && s.count > 0
    ensures Step(s, t, loaded) && |loaded.threads| == |s.threads| && Step(loaded, t, done)
    ensures done.threads == s.threads[t := Idle]
    ensures done.results == s.results + [Return(max, mode, Arithmetic.Min(s.count, max))]
    ensures done.count == s.count - Arithmetic.Min(s.count, max)
  {
    loaded := At(s, t, Cas(max, 0, mode, s.count));
    done := Grab(loaded, t, max, 0, mode);
  }

  /** No lost wake-up: while a waiter has neither a permit to take nor a post to come, all units there
      ever were have been acquired, or are permits and posts for other waiters. */
  lemma NoLostWakeUp(run: seq<State>, k: nat)
    requires Runs.IsRun(Init, Next, run) && k < |run|
    ensures Waiters(run[k]) > run[k].permits + PostsDue(run[k])
            ==> run[k].count < 0
                && run[k].initial + run[k].signalled == run[k].acquired + run[k].permits + PostsDue(run[k])
    ensures Waiters(run[k]) >= run[k].permits + PostsDue(run[k])
    ensures run[k].count >= 0 ==> Waiters(run[k]) == run[k].permits + PostsDue(run[k])
  {
    Always(run, k);
  }

  /** When every call has returned, what is left is exactly what was not handed out. */
  lemma AtRest(run: seq<State>, k: nat)
    requires Runs.IsRun(Init, Next, run) && k < |run|
    requires forall t :: 0 <= t < |run[k].threads| ==> run[k].threads[t] == Idle
    ensures run[k].permits == 0 && run[k].count == run[k].initial + run[k].signalled - Handed(run[k]) >= 0
  {
    Always(run, k);
    SumZero(run[k].threads, Waiting);
    SumZero(run[k].threads, Unposted);
    SumZero(run[k].threads, Held);
  }
}
