/** The reference-counted lock-free free list (concurrentqueue.h: FreeList::add, try_get,
    add_knowing_refcount_is_zero): any number of threads, one access to a shared word per step.
    The 32-bit word freeListRefs holds a 31-bit count and the should-be-on-free-list bit. */
module FreeList {
  import opened Options
  import opened Sums
  import Runs

  const SHOULD_BE_ON_FREELIST: nat := 0x8000_0000
  const WORD_RANGE: nat := 0x1_0000_0000

  /** What add_knowing_refcount_is_zero returns to: `add`, or the loop of `try_get`. */
  datatype After = ToAdd | ToGet(head: Option<nat>)

  datatype Thread =
    | Idle
    | GetLoadHead
    | GetLoadRefs(head: nat)
    | GetTakeRef(head: nat, refs: nat)
    | GetLoadNext(head: nat)
    | GetPop(head: nat, next: Option<nat>)
    | GetRelease(head: nat)
    | GetDropRef(prev: nat, newHead: Option<nat>)
    | PutLoadHead(node: nat, after: After)
    | PutSetNext(node: nat, top: Option<nat>, after: After)
    | PutSetRefs(node: nat, top: Option<nat>, after: After)
    | PutPush(node: nat, top: Option<nat>, after: After)
    | PutRetract(node: nat, top: Option<nat>, after: After)

  /** Where a node is. Exactly one of these, by construction; that the shared words always agree
      with it is what the invariant says. */
  datatype Place =
    | Owned(caller: nat)    // in the hands of a caller of try_get, or not added yet
    | OnList                // on the chain from freeListHead
    | Taken(thread: nat)    // popped, its two references not yet given up
    | Waiting               // added, but still referenced: the last to drop its reference puts it back
    | Putting(thread: nat)  // one thread is putting it on the list

  datatype Event = Got(who: nat, node: nat) | Gave(who: nat, node: nat)

  /** Nodes are numbers below |refs|. `chain`, `place` and `log` are history: no step reads them,
      except that a caller adds only a node it owns. */
  datatype State = State(
    head: Option<nat>, refs: seq<nat>, next: seq<Option<nat>>,
    threads: seq<Thread>,
    chain: seq<nat>, place: seq<Place>, log: seq<Event>)

  // ---------- The steps ----------

  function FetchAdd(word: nat, delta: int): nat {
    (word + delta) % WORD_RANGE
  }

  function Count(word: nat): nat {
    word % SHOULD_BE_ON_FREELIST
  }

  ghost predicate Init(s: State) {
    && s.head == None
    && |s.refs| == |s.next| == |s.place|
    && |s.threads| + 2 < SHOULD_BE_ON_FREELIST
    && (forall n :: 0 <= n < |s.refs| ==> s.refs[n] == 0 && s.place[n].Owned?)
    && (forall t :: 0 <= t < |s.threads| ==> s.threads[t] == Idle)
    && s.chain == [] && s.log == []
  }

  function At(s: State, t: nat, thread: Thread): State
    requires t < |s.threads|
  {
    s.(threads := s.threads[t := thread])
  }

  function SetPlace(s: State, n: nat, place: Place): State
    requires n < |s.place|
  {
    s.(place := s.place[n := place])
  }

  /** `while (head != nullptr)`: go on with this head, or return nullptr. */
  function Loop(head: Option<nat>): Thread {
    match head
    case None => Idle
    case Some(h) => GetLoadRefs(h)
  }

  function Done(after: After): Thread {
    match after
    case ToAdd => Idle
    case ToGet(head) => Loop(head)
  }

  /** add: set the bit; if nobody references the node, put it on the list. */
  function Add(s: State, t: nat, n: nat): State
    requires t < |s.threads| && n < |s.refs| && n < |s.place|
  {
    var s' := s.(refs := s.refs[n := FetchAdd(s.refs[n], SHOULD_BE_ON_FREELIST)],
                 log := s.log + [Gave(t, n)]);
    if s.refs[n] == 0 then SetPlace(At(s', t, PutLoadHead(n, ToAdd)), n, Putting(t))
    else SetPlace(s', n, Waiting)
  }

  function TakeRef(s: State, t: nat, h: nat, refs: nat): State
    requires t < |s.threads| && h < |s.refs|
  {
    if Count(refs) == 0 || s.refs[h] != refs then At(s, t, GetLoadHead)
    else At(s, t, GetLoadNext(h)).(refs := s.refs[h := FetchAdd(refs, 1)])
  }

  function Pop(s: State, t: nat, h: nat, next: Option<nat>): State
    requires t < |s.threads| && h < |s.place|
  {
    if s.head == Some(h) then
      SetPlace(At(s, t, GetRelease(h)), h, Taken(t)).(
        head := next, chain := if s.chain == [] then [] else s.chain[1..])
    else At(s, t, GetDropRef(h, s.head))
  }

  /** The caller gets the node: one reference was its own, the other one the list's. */
  function Release(s: State, t: nat, h: nat): State
    requires t < |s.threads| && h < |s.refs| && h < |s.place|
  {
    SetPlace(At(s, t, Idle), h, Owned(t)).(
      refs := s.refs[h := FetchAdd(s.refs[h], -2)],
      log := s.log + [Got(t, h)])
  }

  function DropRef(s: State, t: nat, prev: nat, newHead: Option<nat>): State
    requires t < |s.threads| && prev < |s.refs| && prev < |s.place|
  {
    var s' := s.(refs := s.refs[prev := FetchAdd(s.refs[prev], -1)]);
    if s.refs[prev] == SHOULD_BE_ON_FREELIST + 1
    then SetPlace(At(s', t, PutLoadHead(prev, ToGet(newHead))), prev, Putting(t))
    else At(s', t, Loop(newHead))
  }

  function Push(s: State, t: nat, n: nat, top: Option<nat>, after: After): State
    requires t < |s.threads| && n < |s.place|
  {
    if s.head == top then
      SetPlace(At(s, t, Done(after)), n, OnList).(head := Some(n), chain := [n] + s.chain)
    else At(s, t, PutRetract(n, s.head, after))
  }

  function Retract(s: State, t: nat, n: nat, top: Option<nat>, after: After): State
    requires t < |s.threads| && n < |s.refs| && n < |s.place|
  {
    var s' := s.(refs := s.refs[n := FetchAdd(s.refs[n], SHOULD_BE_ON_FREELIST - 1)]);
    if s.refs[n] == 1 then At(s', t, PutSetNext(n, top, after))
    else SetPlace(At(s', t, Done(after)), n, Waiting)
  }

  ghost predicate IdleStep(s: State, t: nat, s': State)
    requires t < |s.threads|
  {
    || s' == At(s, t, GetLoadHead)
    || (exists n: nat :: n < |s.refs| && n < |s.place| && s.place[n] == Owned(t) && s' == Add(s, t, n))
    || (exists n: nat, u: nat :: n < |s.place| && s.place[n] == Owned(t) && s' == SetPlace(s, n, Owned(u)))
  }

  ghost predicate ThreadStep(s: State, t: nat, s': State)
    requires t < |s.threads|
  {
    match s.threads[t]
    case Idle => IdleStep(s, t, s')
    case GetLoadHead => s' == At(s, t, Loop(s.head))
    case GetLoadRefs(h) => h < |s.refs| && s' == At(s, t, GetTakeRef(h, s.refs[h]))
    case GetTakeRef(h, refs) => h < |s.refs| && s' == TakeRef(s, t, h, refs)
    case GetLoadNext(h) => h < |s.next| && s' == At(s, t, GetPop(h, s.next[h]))
    case GetPop(h, next) => h < |s.place| && s' == Pop(s, t, h, next)
    case GetRelease(h) => h < |s.refs| && h < |s.place| && s' == Release(s, t, h)
    case GetDropRef(prev, newHead) =>
      prev < |s.refs| && prev < |s.place| && s' == DropRef(s, t, prev, newHead)
    case PutLoadHead(n, after) => s' == At(s, t, PutSetNext(n, s.head, after))
    case PutSetNext(n, top, after) =>
      n < |s.next| && s' == At(s, t, PutSetRefs(n, top, after)).(next := s.next[n := top])
    case PutSetRefs(n, top, after) =>
      n < |s.refs| && s' == At(s, t, PutPush(n, top, after)).(refs := s.refs[n := 1])
    case PutPush(n, top, after) => n < |s.place| && s' == Push(s, t, n, top, after)
    case PutRetract(n, top, after) =>
      n < |s.refs| && n < |s.place| && s' == Retract(s, t, n, top, after)
  }

  ghost predicate Next(s: State, s': State) {
    exists t: nat :: t < |s.threads| && ThreadStep(s, t, s')
  }

  // ---------- The invariant ----------

  /** A thread between the increment of a node's count in try_get and its decrement. */
  predicate HoldsRef(thread: Thread, n: nat) {
    match thread
    case GetLoadNext(h) => h == n
    case GetPop(h, _) => h == n
    case GetRelease(h) => h == n
    case GetDropRef(prev, _) => prev == n
    case _ => false
  }

  function Ref(n: nat): Thread -> nat {
    thread => if HoldsRef(thread, n) then 1 else 0
  }

  /** How many threads hold a counted reference to node n. */
  function Holders(s: State, n: nat): nat {
    Sum(s.threads, Ref(n))
  }

  ghost predicate Shape(s: State) {
    && |s.refs| == |s.next| == |s.place|
    && |s.threads| + 2 < SHOULD_BE_ON_FREELIST
  }

  function Successor(chain: seq<nat>, i: nat): Option<nat>
    requires i < |chain|
  {
    if i + 1 < |chain| then Some(chain[i + 1]) else None
  }

  /** The chain from freeListHead: linked by freeListNext, and without repetition. */
  ghost predicate ChainOk(s: State)
    requires Shape(s)
  {
    && (s.head == if s.chain == [] then None else Some(s.chain[0]))
    && (forall i :: 0 <= i < |s.chain| ==> s.chain[i] < |s.refs|)
    && (forall i :: 0 <= i < |s.chain| ==> s.next[s.chain[i]] == Successor(s.chain, i))
    && (forall i, j :: 0 <= i < j < |s.chain| ==> s.chain[i] != s.chain[j])
    && (forall n :: 0 <= n < |s.refs| ==> (s.place[n] == OnList <==> n in s.chain))
  }

  predicate EarlyPut(thread: Thread, n: nat) {
    match thread
    case PutLoadHead(node, _) => node == n
    case PutSetNext(node, _, _) => node == n
    case PutSetRefs(node, _, _) => node == n
    case _ => false
  }

  predicate LatePut(thread: Thread, n: nat) {
    match thread
    case PutPush(node, _, _) => node == n
    case PutRetract(node, _, _) => node == n
    case _ => false
  }

  /** The reference word of a node, given its place and its holders. */
  ghost predicate NodeOk(s: State, n: nat)
    requires n < |s.refs| && n < |s.place|
  {
    var holders := Holders(s, n);
    match s.place[n]
    case Owned(_) => s.refs[n] == holders
    case OnList => s.refs[n] == 1 + holders
    case Taken(t) =>
      s.refs[n] == 1 + holders && t < |s.threads| && s.threads[t] == GetRelease(n)
    case Waiting => s.refs[n] == SHOULD_BE_ON_FREELIST + holders && holders > 0
    case Putting(t) =>
      && t < |s.threads|
      && ((EarlyPut(s.threads[t], n) && s.refs[n] == SHOULD_BE_ON_FREELIST && holders == 0)
          || (LatePut(s.threads[t], n) && s.refs[n] == 1 + holders))
  }

  ghost predicate HeadOk(s: State, head: Option<nat>) {
    head.Some? ==> head.value < |s.refs|
  }

  ghost predicate AfterOk(s: State, after: After) {
    after.ToGet? ==> HeadOk(s, after.head)
  }

  /** The local variables of a thread. */
  ghost predicate ThreadOk(s: State, t: nat, thread: Thread) {
    match thread
    case Idle => true
    case GetLoadHead => true
    case GetLoadRefs(h) => h < |s.refs|
    case GetTakeRef(h, _) => h < |s.refs|
    case GetLoadNext(h) => h < |s.refs|
    case GetPop(h, next) => h < |s.refs| && h < |s.next| && s.next[h] == next
    case GetRelease(h) => h < |s.refs| && h < |s.place| && s.place[h] == Taken(t)
    case GetDropRef(prev, newHead) => prev < |s.refs| && HeadOk(s, newHead)
    case PutLoadHead(n, after) => PutOk(s, t, n, after)
    case PutSetNext(n, top, after) => PutOk(s, t, n, after)
    case PutSetRefs(n, top, after) => PutOk(s, t, n, after) && n < |s.next| && s.next[n] == top
    case PutPush(n, top, after) => PutOk(s, t, n, after) && n < |s.next| && s.next[n] == top
    case PutRetract(n, top, after) => PutOk(s, t, n, after)
  }

  ghost predicate PutOk(s: State, t: nat, n: nat, after: After) {
    n < |s.refs| && n < |s.place| && s.place[n] == Putting(t) && AfterOk(s, after)
  }

  /** Whether the history leaves node n with a caller. All nodes start with one. */
  predicate WithCaller(log: seq<Event>, n: nat) {
    if log == [] then true
    else
      match log[|log| - 1]
      case Got(_, m) => m == n || WithCaller(log[..|log| - 1], n)
      case Gave(_, m) => m != n && WithCaller(log[..|log| - 1], n)
  }

  /** Callers get and give each node in turns. */
  ghost predicate TakesTurns(log: seq<Event>) {
    forall k :: 0 <= k < |log| ==>
      match log[k]
      case Got(_, n) => !WithCaller(log[..k], n)
      case Gave(_, n) => WithCaller(log[..k], n)
  }

  ghost predicate LogOk(s: State)
    requires Shape(s)
  {
    && TakesTurns(s.log)
    && (forall n :: 0 <= n < |s.refs| ==> (WithCaller(s.log, n) <==> s.place[n].Owned?))
  }

  ghost predicate Inv(s: State) {
    && Shape(s)
    && ChainOk(s)
    && (forall n :: 0 <= n < |s.refs| ==> NodeOk(s, n))
    && (forall t :: 0 <= t < |s.threads| ==> ThreadOk(s, t, s.threads[t]))
    && LogOk(s)
  }

  // ---------- Preservation ----------

  /** The thread holds no reference to, and does not put, any node but n. */
  predicate OnlyAbout(thread: Thread, n: nat) {
    match thread
    case GetLoadNext(h) => h == n
    case GetPop(h, _) => h == n
    case GetRelease(h) => h == n
    case GetDropRef(prev, _) => prev == n
    case PutLoadHead(node, _) => node == n
    case PutSetNext(node, _, _) => node == n
    case PutSetRefs(node, _, _) => node == n
    case PutPush(node, _, _) => node == n
    case PutRetract(node, _, _) => node == n
    case _ => true
  }

  /** Thread t moves; of the nodes only n may change (none when n is not a node). */
  ghost predicate Moves(s: State, s': State, t: nat, n: nat) {
    && Shape(s) && Shape(s') && |s'.refs| == |s.refs|
    && t < |s.threads| == |s'.threads|
    && (forall u :: 0 <= u < |s.threads| && u != t ==> s'.threads[u] == s.threads[u])
    && (forall m :: 0 <= m < |s.refs| && m != n ==>
          s'.refs[m] == s.refs[m] && s'.next[m] == s.next[m] && s'.place[m] == s.place[m])
    && OnlyAbout(s.threads[t], n) && OnlyAbout(s'.threads[t], n)
  }

  lemma HoldersMoved(s: State, s': State, t: nat, n: nat)
    requires t < |s.threads| == |s'.threads|
    requires forall u :: 0 <= u < |s.threads| && u != t ==> s'.threads[u] == s.threads[u]
    ensures Holders(s', n) + (if HoldsRef(s.threads[t], n) then 1 else 0)
            == Holders(s, n) + (if HoldsRef(s'.threads[t], n) then 1 else 0)
  {
    assert s'.threads == s.threads[t := s'.threads[t]];
    SumUpdate(s.threads, t, s'.threads[t], Ref(n));
  }

  lemma FetchAddExact(word: nat, delta: int)
    requires 0 <= word + delta < WORD_RANGE
    ensures FetchAdd(word, delta) == word + delta
  {
  }

  lemma HoldersBounded(s: State, n: nat)
    ensures Holders(s, n) <= |s.threads|
  {
    SumBounded(s.threads, Ref(n), 1);
  }

  lemma HoldersPositive(s: State, t: nat, n: nat)
    requires t < |s.threads| && HoldsRef(s.threads[t], n)
    ensures Holders(s, n) >= 1
  {
    SumAtLeast(s.threads, t, Ref(n));
  }

  lemma OtherNodesOk(s: State, s': State, t: nat, n: nat, m: nat)
    requires Inv(s) && Moves(s, s', t, n)
    requires m < |s.refs| && m != n
    ensures NodeOk(s', m)
  {
    HoldersMoved(s, s', t, m);
    assert NodeOk(s, m);
  }

  lemma OtherThreadsOk(s: State, s': State, t: nat, n: nat, u: nat)
    requires Inv(s) && Moves(s, s', t, n)
    requires n < |s.refs| && s'.place[n] != s.place[n] ==>
               s.place[n] != Taken(u) && s.place[n] != Putting(u)
    requires n < |s.refs| && s'.next[n] != s.next[n] ==> Holders(s, n) == 0 && s.place[n] == Putting(t)
    requires u < |s.threads| && u != t
    ensures ThreadOk(s', u, s'.threads[u])
  {
    assert ThreadOk(s, u, s.threads[u]);
    if s.threads[u].GetPop? {
      HoldersPositive(s, u, s.threads[u].head);
    }
  }

  /** What is left to show about a step, once the others are known to be untouched. */
  lemma StepKeepsInv(s: State, s': State, t: nat, n: nat)
    requires Inv(s) && Moves(s, s', t, n)
    requires n < |s.refs| && s'.place[n] != s.place[n] ==>
               forall u :: 0 <= u < |s.threads| && u != t ==> s.place[n] != Taken(u) && s.place[n] != Putting(u)
    requires n < |s.refs| && s'.next[n] != s.next[n] ==> Holders(s, n) == 0 && s.place[n] == Putting(t)
    requires n < |s.refs| ==> NodeOk(s', n)
    requires ThreadOk(s', t, s'.threads[t])
    requires ChainOk(s') && LogOk(s')
    ensures Inv(s')
  {
    forall m | 0 <= m < |s'.refs| ensures NodeOk(s', m) {
      if m != n {
        OtherNodesOk(s, s', t, n, m);
      }
    }
    forall u | 0 <= u < |s'.threads| ensures ThreadOk(s', u, s'.threads[u]) {
      if u != t {
        OtherThreadsOk(s, s', t, n, u);
      }
    }
  }

  /** Places of nodes off the chain change, the chain does not. */
  lemma ChainKept(s: State, s': State, n: nat)
    requires Inv(s) && Shape(s') && |s'.refs| == |s.refs| && n < |s.refs|
    requires s'.chain == s.chain && s'.head == s.head
    requires forall m :: 0 <= m < |s.refs| && m != n ==> s'.next[m] == s.next[m] && s'.place[m] == s.place[m]
    requires s.place[n] == s'.place[n] || (s.place[n] != OnList && s'.place[n] != OnList)
    requires s'.next[n] == s.next[n] || s.place[n] != OnList
    ensures ChainOk(s')
  {
    forall i | 0 <= i < |s'.chain| ensures s'.next[s'.chain[i]] == Successor(s'.chain, i) {
      assert s.chain[i] in s.chain;
    }
  }

  lemma LogKept(s: State, s': State, n: nat)
    requires Inv(s) && Shape(s') && |s'.refs| == |s.refs| && n < |s.refs|
    requires s'.log == s.log
    requires forall m :: 0 <= m < |s.refs| && m != n ==> s'.place[m] == s.place[m]
    requires s.place[n].Owned? <==> s'.place[n].Owned?
    ensures LogOk(s')
  {
  }

  lemma LogExtended(s: State, s': State, t: nat, n: nat)
    requires Inv(s) && Shape(s') && |s'.refs| == |s.refs| && n < |s.refs|
    requires forall m :: 0 <= m < |s.refs| && m != n ==> s'.place[m] == s.place[m]
    requires || (s'.log == s.log + [Got(t, n)] && !s.place[n].Owned? && s'.place[n].Owned?)
             || (s'.log == s.log + [Gave(t, n)] && s.place[n].Owned? && !s'.place[n].Owned?)
    ensures LogOk(s')
  {
    assert s'.log[..|s'.log| - 1] == s.log;
    forall k | 0 <= k < |s'.log|
      ensures match s'.log[k]
              case Got(_, m) => !WithCaller(s'.log[..k], m)
              case Gave(_, m) => WithCaller(s'.log[..k], m)
    {
      if k < |s.log| {
        assert s'.log[..k] == s.log[..k] && s'.log[k] == s.log[k];
      }
    }
  }

  lemma InitInv(s: State)
    requires Init(s)
    ensures Inv(s)
  {
    forall n | 0 <= n < |s.refs| ensures NodeOk(s, n) {
      SumZero(s.threads, Ref(n));
    }
  }

  /** Steps that change nothing but the thread itself, and hold the references they held. */
  lemma LocalStepInv(s: State, t: nat, thread: Thread)
    requires Inv(s) && t < |s.threads|
    requires forall n :: 0 <= n < |s.refs| ==>
               && (HoldsRef(thread, n) <==> HoldsRef(s.threads[t], n))
               && (EarlyPut(thread, n) <==> EarlyPut(s.threads[t], n))
               && (LatePut(thread, n) <==> LatePut(s.threads[t], n))
    requires !s.threads[t].GetRelease?
    requires ThreadOk(s, t, thread)
    ensures Inv(At(s, t, thread))
  {
    var s' := At(s, t, thread);
    forall i | 0 <= i < |s'.chain| ensures s'.next[s'.chain[i]] == Successor(s'.chain, i) {
    }
    forall n | 0 <= n < |s'.refs| ensures NodeOk(s', n) {
      HoldersMoved(s, s', t, n);
      assert NodeOk(s, n);
    }
    forall u | 0 <= u < |s'.threads| ensures ThreadOk(s', u, s'.threads[u]) {
      assert ThreadOk(s, u, s.threads[u]);
    }
  }

  lemma AddNode(s: State, t: nat, n: nat)
    requires Inv(s) && t < |s.threads| && s.threads[t] == Idle
    requires n < |s.refs| && s.place[n] == Owned(t)
    ensures Moves(s, Add(s, t, n), t, n) && NodeOk(Add(s, t, n), n)
  {
    assert NodeOk(s, n);
    HoldersBounded(s, n);
    HoldersMoved(s, Add(s, t, n), t, n);
    FetchAddExact(s.refs[n], SHOULD_BE_ON_FREELIST);
  }

  lemma AddInv(s: State, t: nat, n: nat)
    requires Inv(s) && t < |s.threads| && s.threads[t] == Idle
    requires n < |s.refs| && s.place[n] == Owned(t)
    ensures Inv(Add(s, t, n))
  {
    var s' := Add(s, t, n);
    AddNode(s, t, n);
    ChainKept(s, s', n);
    LogExtended(s, s', t, n);
    StepKeepsInv(s, s', t, n);
  }

  lemma HandOverInv(s: State, t: nat, n: nat, u: nat)
    requires Inv(s) && t < |s.threads| && s.threads[t] == Idle
    requires n < |s.refs| && s.place[n] == Owned(t)
    ensures Inv(SetPlace(s, n, Owned(u)))
  {
    var s' := SetPlace(s, n, Owned(u));
    assert NodeOk(s, n);
    ChainKept(s, s', n);
    LogKept(s, s', n);
    StepKeepsInv(s, s', t, n);
  }

  lemma TakeRefNode(s: State, t: nat, h: nat, refs: nat)
    requires Inv(s) && t < |s.threads| && s.threads[t] == GetTakeRef(h, refs)
    requires h < |s.refs| && Count(refs) != 0 && s.refs[h] == refs
    ensures Moves(s, TakeRef(s, t, h, refs), t, h) && NodeOk(TakeRef(s, t, h, refs), h)
  {
    assert NodeOk(s, h);
    assert refs != SHOULD_BE_ON_FREELIST;
    HoldersBounded(s, h);
    HoldersMoved(s, TakeRef(s, t, h, refs), t, h);
    FetchAddExact(refs, 1);
  }

  lemma TakeRefInv(s: State, t: nat, h: nat, refs: nat)
    requires Inv(s) && t < |s.threads| && s.threads[t] == GetTakeRef(h, refs)
    ensures h < |s.refs| && Inv(TakeRef(s, t, h, refs))
  {
    assert ThreadOk(s, t, s.threads[t]);
    var s' := TakeRef(s, t, h, refs);
    if Count(refs) == 0 || s.refs[h] != refs {
      LocalStepInv(s, t, GetLoadHead);
    } else {
      TakeRefNode(s, t, h, refs);
      ChainKept(s, s', h);
      LogKept(s, s', h);
      StepKeepsInv(s, s', t, h);
    }
  }

  /** The head CAS succeeds: what was read as the successor of h is the rest of the chain. */
  lemma PopChain(s: State, s': State, h: nat)
    requires Inv(s) && Shape(s') && |s'.refs| == |s.refs| && h < |s.refs|
    requires s.head == Some(h) && s'.head == s.next[h] && s'.next == s.next
    requires |s.chain| > 0 ==> s'.chain == s.chain[1..]
    requires s'.place[h] != OnList && forall m :: 0 <= m < |s.refs| && m != h ==> s'.place[m] == s.place[m]
    ensures ChainOk(s') && s.chain == [h] + s'.chain
  {
    hide NodeOk, ThreadOk, LogOk;
    assert s.next[s.chain[0]] == Successor(s.chain, 0);
    forall i | 0 <= i < |s'.chain|
      ensures s'.chain[i] < |s'.refs| && s'.next[s'.chain[i]] == Successor(s'.chain, i)
    {
      assert s'.chain[i] == s.chain[i + 1] && Successor(s'.chain, i) == Successor(s.chain, i + 1);
    }
    forall m | 0 <= m < |s'.refs| ensures s'.place[m] == OnList <==> m in s'.chain {
      assert s.chain == [h] + s'.chain;
      assert m in s.chain <==> m == h || m in s'.chain;
    }
  }

  lemma PopInv(s: State, t: nat, h: nat, next: Option<nat>)
    requires Inv(s) && t < |s.threads| && s.threads[t] == GetPop(h, next)
    ensures h < |s.refs| && Inv(Pop(s, t, h, next))
  {
    assert ThreadOk(s, t, s.threads[t]);
    var s' := Pop(s, t, h, next);
    if s.head == Some(h) {
      assert NodeOk(s, h);
      HoldersMoved(s, s', t, h);
      PopChain(s, s', h);
      LogKept(s, s', h);
      StepKeepsInv(s, s', t, h);
    } else {
      LocalStepInv(s, t, GetDropRef(h, s.head));
    }
  }

  lemma ReleaseInv(s: State, t: nat, h: nat)
    requires Inv(s) && t < |s.threads| && s.threads[t] == GetRelease(h)
    ensures h < |s.refs| && Inv(Release(s, t, h))
  {
    assert ThreadOk(s, t, s.threads[t]);
    var s' := Release(s, t, h);
    assert NodeOk(s, h);
    HoldersBounded(s, h);
    HoldersPositive(s, t, h);
    HoldersMoved(s, s', t, h);
    FetchAddExact(s.refs[h], -2);
    ChainKept(s, s', h);
    LogExtended(s, s', t, h);
    StepKeepsInv(s, s', t, h);
  }

  lemma DropRefNode(s: State, t: nat, prev: nat, newHead: Option<nat>)
    requires Inv(s) && t < |s.threads| && s.threads[t] == GetDropRef(prev, newHead)
    ensures prev < |s.refs|
    ensures Moves(s, DropRef(s, t, prev, newHead), t, prev) && NodeOk(DropRef(s, t, prev, newHead), prev)
    ensures s.refs[prev] == SHOULD_BE_ON_FREELIST + 1 ==> s.place[prev] == Waiting
  {
    assert ThreadOk(s, t, s.threads[t]);
    assert NodeOk(s, prev);
    HoldersBounded(s, prev);
    HoldersPositive(s, t, prev);
    HoldersMoved(s, DropRef(s, t, prev, newHead), t, prev);
    FetchAddExact(s.refs[prev], -1);
  }

  lemma DropRefInv(s: State, t: nat, prev: nat, newHead: Option<nat>)
    requires Inv(s) && t < |s.threads| && s.threads[t] == GetDropRef(prev, newHead)
    ensures prev < |s.refs| && Inv(DropRef(s, t, prev, newHead))
  {
    assert ThreadOk(s, t, s.threads[t]);
    var s' := DropRef(s, t, prev, newHead);
    DropRefNode(s, t, prev, newHead);
    ChainKept(s, s', prev);
    LogKept(s, s', prev);
    StepKeepsInv(s, s', t, prev);
  }

  lemma SetNextInv(s: State, t: nat, n: nat, top: Option<nat>, after: After)
    requires Inv(s) && t < |s.threads| && s.threads[t] == PutSetNext(n, top, after)
    ensures n < |s.refs| && Inv(At(s, t, PutSetRefs(n, top, after)).(next := s.next[n := top]))
  {
    assert ThreadOk(s, t, s.threads[t]);
    var s' := At(s, t, PutSetRefs(n, top, after)).(next := s.next[n := top]);
    assert NodeOk(s, n);
    HoldersMoved(s, s', t, n);
    ChainKept(s, s', n);
    LogKept(s, s', n);
    StepKeepsInv(s, s', t, n);
  }

  lemma SetRefsInv(s: State, t: nat, n: nat, top: Option<nat>, after: After)
    requires Inv(s) && t < |s.threads| && s.threads[t] == PutSetRefs(n, top, after)
    ensures n < |s.refs| && Inv(At(s, t, PutPush(n, top, after)).(refs := s.refs[n := 1]))
  {
    assert ThreadOk(s, t, s.threads[t]);
    var s' := At(s, t, PutPush(n, top, after)).(refs := s.refs[n := 1]);
    assert NodeOk(s, n);
    HoldersMoved(s, s', t, n);
    ChainKept(s, s', n);
    LogKept(s, s', n);
    StepKeepsInv(s, s', t, n);
  }

  lemma PushInv(s: State, t: nat, n: nat, top: Option<nat>, after: After)
    requires Inv(s) && t < |s.threads| && s.threads[t] == PutPush(n, top, after)
    ensures n < |s.refs| && Inv(Push(s, t, n, top, after))
  {
    assert ThreadOk(s, t, s.threads[t]);
    var s' := Push(s, t, n, top, after);
    assert NodeOk(s, n);
    HoldersMoved(s, s', t, n);
    if s.head == top {
      PushChain(s, s', n);
      LogKept(s, s', n);
      StepKeepsInv(s, s', t, n);
    } else {
      LocalStepInv(s, t, PutRetract(n, s.head, after));
    }
  }

  lemma PushChain(s: State, s': State, n: nat)
    requires Inv(s) && Shape(s') && |s'.refs| == |s.refs| && n < |s.refs|
    requires s.place[n] != OnList && s'.place == s.place[n := OnList]
    requires s'.next == s.next && s.next[n] == s.head && s'.head == Some(n) && s'.chain == [n] + s.chain
    ensures ChainOk(s')
  {
    forall i | 0 <= i < |s'.chain|
      ensures s'.chain[i] < |s'.refs| && s'.next[s'.chain[i]] == Successor(s'.chain, i)
    {
      if i > 0 {
        assert s'.chain[i] == s.chain[i - 1] && Successor(s'.chain, i) == Successor(s.chain, i - 1);
      }
    }
    forall m | 0 <= m < |s'.refs| ensures s'.place[m] == OnList <==> m in s'.chain {
      assert m in s'.chain <==> m == n || m in s.chain;
    }
  }

  lemma RetractNode(s: State, t: nat, n: nat, top: Option<nat>, after: After)
    requires Inv(s) && t < |s.threads| && s.threads[t] == PutRetract(n, top, after)
    ensures n < |s.refs| && s.place[n] == Putting(t)
    ensures Moves(s, Retract(s, t, n, top, after), t, n) && NodeOk(Retract(s, t, n, top, after), n)
  {
    assert ThreadOk(s, t, s.threads[t]);
    assert NodeOk(s, n);
    HoldersBounded(s, n);
    HoldersMoved(s, Retract(s, t, n, top, after), t, n);
    FetchAddExact(s.refs[n], SHOULD_BE_ON_FREELIST - 1);
  }

  lemma RetractInv(s: State, t: nat, n: nat, top: Option<nat>, after: After)
    requires Inv(s) && t < |s.threads| && s.threads[t] == PutRetract(n, top, after)
    ensures n < |s.refs| && Inv(Retract(s, t, n, top, after))
  {
    assert ThreadOk(s, t, s.threads[t]);
    var s' := Retract(s, t, n, top, after);
    RetractNode(s, t, n, top, after);
    ChainKept(s, s', n);
    LogKept(s, s', n);
    StepKeepsInv(s, s', t, n);
  }

  lemma IdleStepInv(s: State, t: nat, s': State)
    requires Inv(s) && t < |s.threads| && s.threads[t] == Idle && IdleStep(s, t, s')
    ensures Inv(s')
  {
    if s' == At(s, t, GetLoadHead) {
      LocalStepInv(s, t, GetLoadHead);
    } else if n: nat :| n < |s.refs| && n < |s.place| && s.place[n] == Owned(t) && s' == Add(s, t, n) {
      AddInv(s, t, n);
    } else {
      var n: nat, u: nat :| n < |s.place| && s.place[n] == Owned(t) && s' == SetPlace(s, n, Owned(u));
      HandOverInv(s, t, n, u);
    }
  }

  lemma LoadStepInv(s: State, t: nat, s': State)
    requires Inv(s) && t < |s.threads| && ThreadStep(s, t, s')
    requires s.threads[t].GetLoadHead? || s.threads[t].GetLoadRefs? || s.threads[t].GetLoadNext?
             || s.threads[t].PutLoadHead?
    ensures Inv(s')
  {
    assert ThreadOk(s, t, s.threads[t]);
    assert s' == At(s, t, s'.threads[t]);
    LocalStepInv(s, t, s'.threads[t]);
  }

  lemma NextInv(s: State, s': State)
    requires Inv(s) && Next(s, s')
    ensures Inv(s')
  {
    var t: nat :| t < |s.threads| && ThreadStep(s, t, s');
    match s.threads[t]
    case Idle => IdleStepInv(s, t, s');
    case GetTakeRef(h, refs) => TakeRefInv(s, t, h, refs);
    case GetPop(h, next) => PopInv(s, t, h, next);
    case GetRelease(h) => ReleaseInv(s, t, h);
    case GetDropRef(prev, newHead) => DropRefInv(s, t, prev, newHead);
    case PutSetNext(n, top, after) => SetNextInv(s, t, n, top, after);
    case PutSetRefs(n, top, after) => SetRefsInv(s, t, n, top, after);
    case PutPush(n, top, after) => PushInv(s, t, n, top, after);
    case PutRetract(n, top, after) => RetractInv(s, t, n, top, after);
    case _ => LoadStepInv(s, t, s');
  }

  // ---------- Main results ----------

  ghost predicate Reachable(run: seq<State>, k: nat) {
    Runs.IsRun(Init, Next, run) && k < |run|
  }

  lemma ReachableInv(run: seq<State>, k: nat)
    requires Reachable(run, k)
    ensures Inv(run[k])
  {
    forall s | Init(s) ensures Inv(s) { InitInv(s); }
    forall s, s' | Inv(s) && Next(s, s') ensures Inv(s') { NextInv(s, s'); }
    Runs.InvariantOnRun(Init, Next, Inv, run, k);
  }

  /** No node is handed to a caller twice without having been added in between, and a caller that
      adds a node owns it: in every run the events of each node alternate. */
  lemma NoNodeHandedOutTwice(run: seq<State>, k: nat, i: nat, j: nat, n: nat)
    requires Reachable(run, k)
    requires i < j < |run[k].log|
    requires run[k].log[i].Got? && run[k].log[j].Got? && run[k].log[i].node == run[k].log[j].node == n
    ensures exists m :: i < m < j && run[k].log[m].Gave? && run[k].log[m].node == n
  {
    ReachableInv(run, k);
    var log := run[k].log;
    assert !WithCaller(log[..j], n);
    assert log[..i + 1][..i] == log[..i];
    GaveBetween(log, i + 1, j, n);
  }

  lemma {:induction false} GaveBetween(log: seq<Event>, i: nat, j: nat, n: nat)
    requires i <= j <= |log|
    requires WithCaller(log[..i], n) && !WithCaller(log[..j], n)
    ensures exists m :: i <= m < j && log[m].Gave? && log[m].node == n
  {
    assert j > i;
    assert log[..j][..j - 1] == log[..j - 1];
    if !(log[j - 1].Gave? && log[j - 1].node == n) {
      GaveBetween(log, i, j - 1, n);
    }
  }

  /** freeListNext is constant while any thread holds a counted reference. */
  lemma NextConstantWhileHeld(run: seq<State>, k: nat, t: nat, n: nat)
    requires Reachable(run, k + 1)
    requires t < |run[k].threads| && n < |run[k].next|
    requires HoldsRef(run[k].threads[t], n)
    ensures n < |run[k + 1].next| && run[k + 1].next[n] == run[k].next[n]
  {
    ReachableInv(run, k);
    var s, s' := run[k], run[k + 1];
    assert Next(s, s');
    var u: nat :| u < |s.threads| && ThreadStep(s, u, s');
    if s.threads[u].PutSetNext? && s.threads[u].node == n {
      assert ThreadOk(s, u, s.threads[u]) && NodeOk(s, n);
      HoldersPositive(s, t, n);
      assert false;
    } else if s.threads[u].Idle? {
      assert IdleStep(s, u, s');
    }
  }

  /** The CAS on the head cannot be fooled: when it succeeds, the node is the first of the chain,
      the successor read earlier is still its successor, and its bit is off (the source asserts
      this). The node leaves the chain and no other does. */
  lemma PopIsExact(run: seq<State>, k: nat, t: nat, h: nat, next: Option<nat>, s': State)
    requires Reachable(run, k) && t < |run[k].threads|
    requires run[k].threads[t] == GetPop(h, next) && run[k].head == Some(h)
    requires ThreadStep(run[k], t, s')
    ensures h < |run[k].refs| && run[k].refs[h] < SHOULD_BE_ON_FREELIST
    ensures run[k].chain == [h] + s'.chain && h !in s'.chain
    ensures s'.head == if s'.chain == [] then None else Some(s'.chain[0])
  {
    ReachableInv(run, k);
    PopAtHead(run[k], t, h, next);
  }

  lemma PopAtHead(s: State, t: nat, h: nat, next: Option<nat>)
    requires Inv(s) && t < |s.threads| && s.threads[t] == GetPop(h, next) && s.head == Some(h)
    ensures h < |s.refs| && s.refs[h] < SHOULD_BE_ON_FREELIST
    ensures var s' := Pop(s, t, h, next);
            && s.chain == [h] + s'.chain && h !in s'.chain
            && s'.head == if s'.chain == [] then None else Some(s'.chain[0])
  {
    assert ThreadOk(s, t, s.threads[t]);
    assert NodeOk(s, h);
    HoldersBounded(s, h);
    PopChain(s, Pop(s, t, h, next), h);
  }

  /** A node being put back has exactly one thread putting it, and nobody references it until its
      count is published again. */
  lemma OnePutterPerNode(run: seq<State>, k: nat, t: nat, u: nat, n: nat)
    requires Reachable(run, k) && t < |run[k].threads| && u < |run[k].threads|
    requires EarlyPut(run[k].threads[t], n) || LatePut(run[k].threads[t], n)
    requires EarlyPut(run[k].threads[u], n) || LatePut(run[k].threads[u], n)
    ensures t == u
    ensures EarlyPut(run[k].threads[t], n) ==> Holders(run[k], n) == 0
  {
    ReachableInv(run, k);
    var s := run[k];
    assert ThreadOk(s, t, s.threads[t]) && ThreadOk(s, u, s.threads[u]);
    assert NodeOk(s, n);
  }

  /** No node is lost: when all threads are idle, every node is with a caller or on the list, its
      reference word holds just the list's reference, and the list is what is reached from the
      head: exactly the nodes that were added and have not been handed out since. While a node waits
      to be put back, some thread still references it. */
  lemma NothingLost(run: seq<State>, k: nat, n: nat)
    requires Reachable(run, k) && n < |run[k].refs|
    ensures n < |run[k].place|
    ensures run[k].place[n] == Waiting ==>
              exists t :: 0 <= t < |run[k].threads| && HoldsRef(run[k].threads[t], n)
    ensures (forall t :: 0 <= t < |run[k].threads| ==> run[k].threads[t] == Idle) ==>
              if n in run[k].chain then run[k].refs[n] == 1 && !WithCaller(run[k].log, n)
              else run[k].place[n].Owned? && run[k].refs[n] == 0 && WithCaller(run[k].log, n)
  {
    ReachableInv(run, k);
    var s := run[k];
    assert NodeOk(s, n);
    if s.place[n] == Waiting {
      var t := SumWitness(s.threads, Ref(n));
      assert HoldsRef(s.threads[t], n);
    }
    if forall t :: 0 <= t < |s.threads| ==> s.threads[t] == Idle {
      SumZero(s.threads, Ref(n));
    }
  }

  // ---------- What try_get answers ----------

  /** The thread is in a call of try_get, which may be putting a node back on the way. */
  predicate InGet(thread: Thread) {
    match thread
    case Idle => false
    case PutLoadHead(_, after) => after.ToGet?
    case PutSetNext(_, _, after) => after.ToGet?
    case PutSetRefs(_, _, after) => after.ToGet?
    case PutPush(_, _, after) => after.ToGet?
    case PutRetract(_, _, after) => after.ToGet?
    case _ => true
  }

  /** The head that the call goes on with is null. */
  predicate SawEmpty(thread: Thread) {
    match thread
    case GetDropRef(_, newHead) => newHead == None
    case PutLoadHead(_, after) => after == ToGet(None)
    case PutSetNext(_, _, after) => after == ToGet(None)
    case PutSetRefs(_, _, after) => after == ToGet(None)
    case PutPush(_, _, after) => after == ToGet(None)
    case PutRetract(_, _, after) => after == ToGet(None)
    case _ => false
  }

  lemma OnlyOneMoves(s: State, u: nat, s': State)
    requires u < |s.threads| && ThreadStep(s, u, s')
    ensures |s'.threads| == |s.threads|
    ensures forall t :: 0 <= t < |s.threads| && t != u ==> s'.threads[t] == s.threads[t]
  {
  }

  lemma OneMoves(s: State, s': State) returns (u: nat)
    requires Next(s, s')
    ensures u < |s.threads| == |s'.threads| && ThreadStep(s, u, s')
    ensures forall t :: 0 <= t < |s.threads| && t != u ==> s'.threads[t] == s.threads[t]
  {
    u :| u < |s.threads| && ThreadStep(s, u, s');
    OnlyOneMoves(s, u, s');
  }

  lemma StepOfRun(run: seq<State>, k: nat)
    requires Reachable(run, k + 1)
    ensures k + 1 < |run| && Reachable(run, k) && Next(run[k], run[k + 1])
  {
  }

  /** A step that makes a call go on with null: its CAS has failed, and there was nothing on the list. */
  lemma SeesEmpty(s: State, u: nat, s': State, t: nat)
    requires Inv(s) && u < |s.threads| && ThreadStep(s, u, s') && t < |s.threads|
    requires !SawEmpty(s.threads[t]) && t < |s'.threads| && SawEmpty(s'.threads[t])
    ensures s.chain == [] && InGet(s.threads[t])
  {
    OnlyOneMoves(s, u, s');
  }

  lemma NotAtFirst(run: seq<State>, t: nat)
    requires Reachable(run, 0) && t < |run[0].threads|
    ensures !SawEmpty(run[0].threads[t])
  {
  }

  lemma SawEmptyIsInGet(thread: Thread)
    requires SawEmpty(thread)
    ensures InGet(thread)
  {
  }

  /** When a call goes on with null, the list was empty at a moment within this call. */
  lemma {:induction false} EmptyBefore(run: seq<State>, k: nat, t: nat) returns (j: nat)
    requires Reachable(run, k) && t < |run[k].threads| && SawEmpty(run[k].threads[t])
    ensures j < k && run[j].chain == []
    ensures forall i :: j <= i <= k ==> t < |run[i].threads| && InGet(run[i].threads[t])
  {
    hide Reachable, Next, ThreadStep, Inv, SawEmpty, InGet;
    if k == 0 {
      NotAtFirst(run, t);
      assert false;
    } else {
      StepOfRun(run, k - 1);
      ReachableInv(run, k - 1);
      SawEmptyIsInGet(run[k].threads[t]);
      var u := OneMoves(run[k - 1], run[k]);
      if SawEmpty(run[k - 1].threads[t]) {
        j := EmptyBefore(run, k - 1, t);
      } else {
        SeesEmpty(run[k - 1], u, run[k], t);
        j := k - 1;
      }
    }
  }

  /** A step that ends a call without a node: the head just read is null, or it was when it was read. */
  lemma EndsWithNull(s: State, u: nat, s': State, t: nat)
    requires Inv(s) && u < |s.threads| && ThreadStep(s, u, s') && t < |s.threads| == |s'.threads|
    requires InGet(s.threads[t]) && s'.threads[t] == Idle && s'.log == s.log
    ensures SawEmpty(s.threads[t]) || s.chain == []
  {
    OnlyOneMoves(s, u, s');
  }

  /** A try_get that returns without a node has read an empty list: there was nothing on it at a moment within the
      call, whether the head was read at the start, by a lost CAS, or before the call put a node back. */
  lemma NullMeansEmpty(run: seq<State>, k: nat, t: nat) returns (j: nat)
    requires Reachable(run, k + 1) && t < |run[k].threads| && t < |run[k + 1].threads|
    requires InGet(run[k].threads[t]) && run[k + 1].threads[t] == Idle && run[k + 1].log == run[k].log
    ensures j <= k && run[j].chain == []
    ensures forall i :: j <= i <= k ==> t < |run[i].threads| && InGet(run[i].threads[t])
  {
    hide Reachable, Next, ThreadStep, Inv, SawEmpty, InGet;
    StepOfRun(run, k);
    ReachableInv(run, k);
    var u := OneMoves(run[k], run[k + 1]);
    EndsWithNull(run[k], u, run[k + 1], t);
    if SawEmpty(run[k].threads[t]) {
      j := EmptyBefore(run, k, t);
    } else {
      j := k;
    }
  }

  ghost predicate OwnStep(run: seq<State>, j: nat, t: nat) {
    j + 1 < |run| && t < |run[j].threads| && ThreadStep(run[j], t, run[j + 1])
  }

  /** From the i-th state on, thread t takes the next n steps. */
  ghost predicate Steps(run: seq<State>, i: nat, n: nat, t: nat) {
    i + n < |run| && forall j :: i <= j < i + n ==> OwnStep(run, j, t)
  }

  /** The first node of the list: its bit is off, and it carries the list's reference. */
  lemma FirstOfList(run: seq<State>, k: nat)
    requires Reachable(run, k) && run[k].chain != []
    ensures var s, h := run[k], run[k].chain[0];
      && s.head == Some(h) && h < |s.refs| == |s.next| == |s.place| && 0 < Count(s.refs[h]) == s.refs[h]
  {
    ReachableInv(run, k);
    var s, h := run[k], run[k].chain[0];
    assert NodeOk(s, h);
    HoldersBounded(s, h);
  }

  lemma StepIs(run: seq<State>, i: nat, n: nat, t: nat, j: nat)
    requires Steps(run, i, n, t) && i <= j < i + n
    ensures j + 1 < |run| && t < |run[j].threads| && ThreadStep(run[j], t, run[j + 1])
  {
    assert OwnStep(run, j, t);
  }

  lemma StepsPart(run: seq<State>, i: nat, n: nat, t: nat, j: nat, m: nat)
    requires Steps(run, i, n, t) && i <= j && j + m <= i + n
    ensures i + n < |run| && Steps(run, j, m, t)
  {
    hide OwnStep;
  }

  lemma AtAgain(s: State, t: nat, a: Thread, b: Thread)
    requires t < |s.threads|
    ensures At(At(s, t, a), t, b) == At(s, t, b)
  {
  }

  /** The first half of a try_get alone: to the counted reference. */
  lemma AloneTakesARef(s: State, t: nat, h: nat, run: seq<State>, i: nat)
    requires t < |s.threads| && s.head == Some(h) && h < |s.refs| && Count(s.refs[h]) > 0
    requires Steps(run, i, 3, t) && run[i] == At(s, t, GetLoadHead)
    ensures run[i + 1] == At(s, t, GetLoadRefs(h)) && run[i + 2] == At(s, t, GetTakeRef(h, s.refs[h]))
    ensures run[i + 3] == At(s, t, GetLoadNext(h)).(refs := s.refs[h := FetchAdd(s.refs[h], 1)])
  {
    hide Steps;
    StepIs(run, i, 3, t, i);
    AtAgain(s, t, GetLoadHead, GetLoadRefs(h));
    StepIs(run, i, 3, t, i + 1);
    AtAgain(s, t, GetLoadRefs(h), GetTakeRef(h, s.refs[h]));
    StepIs(run, i, 3, t, i + 2);
    AtAgain(s, t, GetTakeRef(h, s.refs[h]), GetLoadNext(h));
  }

  /** The second half: the pop and the release. */
  lemma AlonePops(s: State, t: nat, h: nat, run: seq<State>, i: nat)
    requires t < |s.threads| && s.chain != [] && s.head == Some(h) && h < |s.refs| == |s.next| == |s.place|
    requires s.threads[t] == GetLoadNext(h)
    requires Steps(run, i, 3, t) && run[i] == s
    ensures t < |run[i + 1].threads| && InGet(run[i + 1].threads[t])
    ensures t < |run[i + 2].threads| && InGet(run[i + 2].threads[t])
    ensures run[i + 3].threads == s.threads[t := Idle] && run[i + 3].log == s.log + [Got(t, h)]
    ensures run[i + 3].chain == s.chain[1..]
  {
    hide Steps;
    StepIs(run, i, 3, t, i);
    StepIs(run, i, 3, t, i + 1);
    assert run[i + 2].threads == s.threads[t := GetRelease(h)];
    StepIs(run, i, 3, t, i + 2);
  }

  /** Whatever the others are in the middle of: with something on the list, a thread that runs try_get while they
      stand still gets the first node of the chain, after these six steps of its own. */
  lemma AloneGetsTheFirst(run: seq<State>, k: nat, t: nat)
    requires Reachable(run, k) && run[k].chain != [] && t < |run[k].threads| && run[k].threads[t] == Idle
    requires Steps(run, k + 1, 6, t) && run[k + 1] == At(run[k], t, GetLoadHead)
    ensures var s, s' := run[k], run[k + 7];
      && s'.threads == s.threads && s'.log == s.log + [Got(t, s.chain[0])] && s'.chain == s.chain[1..]
    ensures forall i :: k + 1 <= i <= k + 6 ==> t < |run[i].threads| && InGet(run[i].threads[t])
  {
    FirstOfList(run, k);
    var s, h := run[k], run[k].chain[0];
    hide Reachable, Steps;
    StepsPart(run, k + 1, 6, t, k + 1, 3);
    StepsPart(run, k + 1, 6, t, k + 4, 3);
    AloneTakesARef(s, t, h, run, k + 1);
    AlonePops(run[k + 4], t, h, run, k + 4);
    assert s.threads[t := Idle] == s.threads;
    forall i | k + 1 <= i <= k + 6 ensures t < |run[i].threads| && InGet(run[i].threads[t]) {
      assert i == k + 1 || i == k + 2 || i == k + 3 || i == k + 4 || i == k + 5 || i == k + 6;
    }
  }

  /** The reference word of a node that is with a caller counts the threads that still reference it. */
  lemma WordOfOwned(run: seq<State>, k: nat, n: nat)
    requires Reachable(run, k) && n < |run[k].place| && run[k].place[n].Owned?
    ensures n < |run[k].refs| == |run[k].next| == |run[k].place| && run[k].refs[n] == Holders(run[k], n)
  {
    ReachableInv(run, k);
    assert NodeOk(run[k], n);
  }

  /** add, by a thread alone: the bit, then the put. */
  lemma AloneSetsTheBit(s: State, t: nat, n: nat, s': State)
    requires t < |s.threads| && s.threads[t] == Idle && ThreadStep(s, t, s') && s'.log == s.log + [Gave(t, n)]
    ensures n < |s.refs| && n < |s.place| && s.place[n] == Owned(t) && s' == Add(s, t, n)
  {
    assert IdleStep(s, t, s');
    assert s'.log != s.log;
    var m: nat :| m < |s.refs| && m < |s.place| && s.place[m] == Owned(t) && s' == Add(s, t, m);
    assert s'.log[|s.log|] == Gave(t, n);
  }

  lemma AlonePuts(s: State, t: nat, n: nat, run: seq<State>, i: nat)
    requires t < |s.threads| && n < |s.refs| == |s.next| == |s.place|
    requires s.threads[t] == PutLoadHead(n, ToAdd) && Steps(run, i, 4, t) && run[i] == s
    ensures run[i + 4].threads == s.threads[t := Idle] && run[i + 4].log == s.log
    ensures run[i + 4].chain == [n] + s.chain
  {
    hide Steps;
    StepIs(run, i, 4, t, i);
    StepIs(run, i, 4, t, i + 1);
    assert run[i + 2].threads == s.threads[t := PutSetRefs(n, s.head, ToAdd)];
    StepIs(run, i, 4, t, i + 2);
    assert run[i + 3].threads == s.threads[t := PutPush(n, s.head, ToAdd)];
    StepIs(run, i, 4, t, i + 3);
  }

  /** And one that adds a node of its own puts it in front if nobody references it, whatever the others are in the
      middle of; if somebody does, the call is over, and the node waits for that thread. */
  lemma AloneAddsInFront(run: seq<State>, k: nat, t: nat, n: nat)
    requires Reachable(run, k) && t < |run[k].threads| && run[k].threads[t] == Idle && n < |run[k].place|
    requires Steps(run, k, 1, t) && run[k + 1].log == run[k].log + [Gave(t, n)]
    ensures Holders(run[k], n) == 0 && Steps(run, k, 5, t) ==>
      var s, s' := run[k], run[k + 5];
      s'.threads == s.threads && s'.log == s.log + [Gave(t, n)] && s'.chain == [n] + s.chain
    ensures Holders(run[k], n) > 0 ==>
      var s, s' := run[k], run[k + 1];
      s'.threads == s.threads && s'.chain == s.chain && n < |s'.place| && s'.place[n] == Waiting
  {
    var s := run[k];
    hide Reachable, ThreadStep, Steps, Holders;
    StepIs(run, k, 1, t, k);
    AloneSetsTheBit(s, t, n, run[k + 1]);
    WordOfOwned(run, k, n);
    if s.refs[n] == 0 && Steps(run, k, 5, t) {
      StepsPart(run, k, 5, t, k + 1, 4);
      AlonePuts(run[k + 1], t, n, run, k + 1);
      assert s.threads[t := Idle] == s.threads;
    }
  }
}
