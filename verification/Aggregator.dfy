/** aggregator_ext (tbb/aggregator.h): threads put operations into a mailbox, and whoever finds it empty
    handles what is in it. One access to shared memory per step. An operation lives in its caller's
    stack frame: when the call returns its memory may be used again at once. */
module Aggregator {
  import Runs

  datatype Pointer = Null | At(address: nat)

  /** An operation's memory. `applied` counts how often its body has run in this life. */
  datatype Cell = Cell(live: bool, owner: nat, finished: bool, next: Pointer, applied: nat)

  /** Where a thread stands; `op` is its own operation. */
  datatype Thread =
    | Idle
    | Load(op: nat)
    | Link(op: nat, res: Pointer)
    | Cas(op: nat, res: Pointer)
    | Spin(op: nat)
    | WaitBusy(op: nat)
    | SetBusy(op: nat)
    | Grab(op: nat)
    | Walk(op: nat, list: Pointer)
    | Apply(op: nat, current: nat, rest: Pointer)
    | Finish(op: nat, current: nat, rest: Pointer)
    | Clear(op: nat)
    | Return(op: nat)

  /** The mailbox, handler_busy, the memory and the threads. The other fields record history: the
      operations in the mailbox and in the handler's hands, newest first, the handler, and how often
      each operation had run when its call returned. */
  datatype State = State(
    mailbox: Pointer, busy: bool, memory: seq<Cell>, threads: seq<Thread>,
    posted: seq<nat>, handling: seq<nat>, handler: nat, runs: seq<nat>)

  // ---------- The steps ----------

  ghost predicate Init(s: State) {
    && s.mailbox == Null && !s.busy && s.posted == s.handling == [] && s.runs == []
    && (forall a :: 0 <= a < |s.memory| ==> !s.memory[a].live)
    && (forall t :: 0 <= t < |s.threads| ==> s.threads[t] == Idle)
  }

  function Goto(s: State, t: nat, c: Thread): State
    requires t < |s.threads|
  {
    s.(threads := s.threads[t := c])
  }

  function Put(s: State, a: nat, cell: Cell): State
    requires a < |s.memory|
  {
    s.(memory := s.memory[a := cell])
  }

  /** A call begins: its operation is at any free address. */
  function Begin(s: State, t: nat, a: nat): State
    requires t < |s.threads| && a < |s.memory|
  {
    Goto(Put(s, a, Cell(true, t, false, Null, 0)), t, Load(a))
  }

  function SetNext(s: State, t: nat, op: nat, res: Pointer): State
    requires t < |s.threads| && op < |s.memory|
  {
    Goto(Put(s, op, s.memory[op].(next := res)), t, Cas(op, res))
  }

  function Post(s: State, t: nat, op: nat, res: Pointer): State
    requires t < |s.threads|
  {
    Goto(s, t, if res == Null then WaitBusy(op) else Spin(op)).(mailbox := At(op), posted := [op] + s.posted)
  }

  /** The call returns and the operation is gone. */
  function Leave(s: State, t: nat, op: nat): State
    requires t < |s.threads| && op < |s.memory|
  {
    Goto(Put(s, op, s.memory[op].(live := false)), t, Idle).(runs := s.runs + [s.memory[op].applied])
  }

  function Seize(s: State, t: nat, op: nat): State
    requires t < |s.threads|
  {
    Goto(s, t, Walk(op, s.mailbox)).(mailbox := Null, handling := s.posted, posted := [])
  }

  function RunBody(s: State, t: nat, op: nat, a: nat, rest: Pointer): State
    requires t < |s.threads| && a < |s.memory|
  {
    Goto(Put(s, a, s.memory[a].(applied := s.memory[a].applied + 1)), t, Finish(op, a, rest))
  }

  function SetFinished(s: State, t: nat, op: nat, a: nat, rest: Pointer): State
    requires t < |s.threads| && a < |s.memory| && s.handling != []
  {
    Goto(Put(s, a, s.memory[a].(finished := true)), t, Walk(op, rest)).(handling := s.handling[1..])
  }

  ghost predicate Step(s: State, t: nat, s': State)
    requires t < |s.threads|
  {
    match s.threads[t]
    case Idle => exists a: nat :: a < |s.memory| && !s.memory[a].live && s' == Begin(s, t, a)
    case Load(op) => s' == Goto(s, t, Link(op, s.mailbox))
    case Link(op, res) => op < |s.memory| && s' == SetNext(s, t, op, res)
    case Cas(op, res) => s' == if s.mailbox == res then Post(s, t, op, res) else Goto(s, t, Load(op))
    case Spin(op) => op < |s.memory| && s' == if s.memory[op].finished then Leave(s, t, op) else s
    case WaitBusy(op) => s' == if s.busy then s else Goto(s, t, SetBusy(op))
    case SetBusy(op) => s' == Goto(s, t, Grab(op)).(busy := true, handler := t)
    case Grab(op) => s' == Seize(s, t, op)
    case Walk(op, list) =>
      (match list
       case Null => s' == Goto(s, t, Clear(op))
       case At(a) => a < |s.memory| && s' == Goto(s, t, Apply(op, a, s.memory[a].next)))
    case Apply(op, a, rest) => a < |s.memory| && s' == RunBody(s, t, op, a, rest)
    case Finish(op, a, rest) => a < |s.memory| && s.handling != [] && s' == SetFinished(s, t, op, a, rest)
    case Clear(op) => s' == Goto(s, t, Return(op)).(busy := false)
    case Return(op) => op < |s.memory| && s' == Leave(s, t, op)
  }

  ghost predicate Next(s: State, s': State) {
    exists t: nat :: t < |s.threads| && Step(s, t, s')
  }

  // ---------- The invariant ----------

  function Head(list: seq<nat>): Pointer {
    if list == [] then Null else At(list[0])
  }

  /** The operations are linked through their next fields, and the last one's is Null. */
  predicate Linked(memory: seq<Cell>, list: seq<nat>) {
    list != [] ==> list[0] < |memory| && memory[list[0]].next == Head(list[1..]) && Linked(memory, list[1..])
  }

  predicate WaitsToHandle(c: Thread) { c.WaitBusy? || c.SetBusy? || c.Grab? }

  predicate Handles(c: Thread) { c.Grab? || c.Walk? || c.Apply? || c.Finish? || c.Clear? }

  predicate Unposted(c: Thread) { c.Load? || c.Link? || c.Cas? }

  /** The operation is alive and belongs to this thread, which is just executing it. */
  predicate Owned(s: State, t: nat, op: nat) {
    && t < |s.threads| && s.threads[t] != Idle && s.threads[t].op == op
    && op < |s.memory| && s.memory[op].live && s.memory[op].owner == t
  }

  predicate Pending(s: State, a: nat) {
    a < |s.memory| && s.memory[a].live && !s.memory[a].finished && s.memory[a].owner < |s.threads|
  }

  predicate InMailbox(s: State, i: nat)
    requires i < |s.posted|
  {
    var a := s.posted[i];
    && Pending(s, a) && s.memory[a].applied == 0
    && Owned(s, s.memory[a].owner, a)
    && (if i == |s.posted| - 1 then WaitsToHandle(s.threads[s.memory[a].owner]) else s.threads[s.memory[a].owner].Spin?)
  }

  predicate InHand(s: State, i: nat)
    requires i < |s.handling|
  {
    var a := s.handling[i];
    && Pending(s, a) && Owned(s, s.memory[a].owner, a)
    && (s.threads[s.memory[a].owner].Spin? || s.memory[a].owner == s.handler)
    && (i > 0 ==> s.memory[a].applied == 0)
  }

  ghost predicate NoRepeats(list: seq<nat>) {
    forall i, k :: 0 <= i < k < |list| ==> list[i] != list[k]
  }

  predicate FinishedOnce(cell: Cell) { cell.finished && cell.applied == 1 }

  /** How often the first operation in the handler's hands has run. */
  predicate FirstRan(s: State, times: nat) {
    s.handling != [] ==> s.handling[0] < |s.memory| && s.memory[s.handling[0]].applied == times
  }

  ghost predicate ThreadOk(s: State, t: nat)
    requires t < |s.threads|
  {
    var c := s.threads[t];
    c != Idle ==>
      && Owned(s, t, c.op)
      && (Unposted(c) ==> !s.memory[c.op].finished && s.memory[c.op].applied == 0 && c.op !in s.posted && c.op !in s.handling)
      && (c.Cas? ==> s.memory[c.op].next == c.res)
      && (c.Spin? ==> FinishedOnce(s.memory[c.op]) || c.op in s.posted || c.op in s.handling)
      && (WaitsToHandle(c) ==> s.posted != [] && s.posted[|s.posted| - 1] == c.op)
      && (c.SetBusy? ==> !s.busy)
      && (Handles(c) <==> s.busy && s.handler == t)
      && (c.Grab? ==> s.handling == [])
      && (c.Walk? ==> c.list == Head(s.handling) && FirstRan(s, 0))
      && (c.Apply? || c.Finish? ==>
            && s.handling != [] && s.handling[0] == c.current && c.rest == Head(s.handling[1..])
            && FirstRan(s, if c.Finish? then 1 else 0))
      && (c.Clear? ==> s.handling == [])
      && (c.Walk? || c.Apply? || c.Finish? || c.Clear? ==> c.op in s.handling || FinishedOnce(s.memory[c.op]))
      && (c.Return? ==> FinishedOnce(s.memory[c.op]))
  }

  ghost predicate Lists(s: State) {
    && s.mailbox == Head(s.posted)
    && Linked(s.memory, s.posted) && Linked(s.memory, s.handling)
    && NoRepeats(s.posted) && NoRepeats(s.handling)
    && (forall i :: 0 <= i < |s.posted| ==> InMailbox(s, i) && s.posted[i] !in s.handling)
    && (forall i :: 0 <= i < |s.handling| ==> InHand(s, i))
  }

  ghost predicate Inv(s: State) {
    && Lists(s)
    && (s.busy ==> s.handler < |s.threads| && s.threads[s.handler] != Idle)
    && (!s.busy ==> s.handling == [])
    && (forall t :: 0 <= t < |s.threads| ==> ThreadOk(s, t))
    && (forall k :: 0 <= k < |s.runs| ==> s.runs[k] == 1)
  }

  lemma InitInv(s: State)
    requires Init(s)
    ensures Inv(s)
  {
  }

  // ---------- The steps keep the invariant ----------

  lemma {:induction false} LinkedSame(m: seq<Cell>, m': seq<Cell>, list: seq<nat>)
    requires |m'| == |m| && Linked(m, list)
    requires forall a :: a in list && a < |m| ==> m'[a].next == m[a].next
    ensures Linked(m', list)
  {
    if list != [] {
      assert list[0] in list;
      LinkedSame(m, m', list[1..]);
    }
  }

  /** Steps that touch neither memory nor the lists. */
  lemma LocalInv(s: State, s': State, t: nat)
    requires Inv(s) && t < |s.threads| == |s'.threads| && s.threads[t] != Idle && s'.threads[t] != Idle
    requires s' == Goto(s, t, s'.threads[t]).(busy := s'.busy, handler := s'.handler)
    requires s'.threads[t].op == s.threads[t].op
    requires WaitsToHandle(s'.threads[t]) == WaitsToHandle(s.threads[t]) && s'.threads[t].Spin? == s.threads[t].Spin?
    requires || (s'.busy == s.busy && s'.handler == s.handler)
             || (!s.busy && s.threads[t].SetBusy? && s'.busy && s'.handler == t)
             || (s.busy && s.handler == t && !s'.busy && s.handling == [])
    requires ThreadOk(s', t)
    ensures Inv(s')
  {
    assert ThreadOk(s, t);
    forall u | 0 <= u < |s'.threads| ensures ThreadOk(s', u) {
      assert ThreadOk(s, u);
    }
    forall i | 0 <= i < |s'.posted| ensures InMailbox(s', i) && s'.posted[i] !in s'.handling {
      assert InMailbox(s, i);
    }
    forall i | 0 <= i < |s'.handling| ensures InHand(s', i) {
      assert InHand(s, i);
    }
  }

  /** What is in the mailbox or in the handler's hands is alive and not finished. And without a handler there is
      nothing in his hands. */
  lemma NotInLists(s: State, a: nat)
    requires Inv(s)
    ensures a in s.posted || a in s.handling ==> a < |s.memory| && s.memory[a].live && !s.memory[a].finished
    ensures a in s.handling ==> s.busy
  {
    if a in s.posted {
      var i :| 0 <= i < |s.posted| && s.posted[i] == a;
      assert InMailbox(s, i);
    }
    if a in s.handling {
      var i :| 0 <= i < |s.handling| && s.handling[i] == a;
      assert InHand(s, i);
    }
  }

  /** What the lists depend on, besides who is where: nothing but the cells of the operations in them. */
  lemma ListsSame(s: State, s': State, t: nat)
    requires Lists(s) && t < |s.threads| == |s'.threads|
    requires s'.mailbox == s.mailbox && s'.posted == s.posted && s'.handling == s.handling && s'.handler == s.handler
    requires |s'.memory| == |s.memory| && forall u :: 0 <= u < |s.threads| && u != t ==> s'.threads[u] == s.threads[u]
    requires forall a :: a in s.posted || a in s.handling ==> a < |s.memory| ==> s'.memory[a] == s.memory[a]
    requires s'.threads[t] == s.threads[t] || s.threads[t] == Idle || s.threads[t].op !in s.posted + s.handling
    ensures Lists(s')
  {
    LinkedSame(s.memory, s'.memory, s.posted);
    LinkedSame(s.memory, s'.memory, s.handling);
    forall i | 0 <= i < |s.posted| ensures InMailbox(s', i) {
      assert InMailbox(s, i);
    }
    forall i | 0 <= i < |s.handling| ensures InHand(s', i) {
      assert InHand(s, i);
    }
  }

  lemma BeginThread(s: State, t: nat, a: nat, u: nat)
    requires t < |s.threads| && a < |s.memory| && !s.memory[a].live && u < |s.threads| && u != t
    requires ThreadOk(s, u) && a !in s.handling
    ensures ThreadOk(Begin(s, t, a), u)
  {
  }

  lemma BeginInv(s: State, t: nat, a: nat)
    requires Inv(s) && t < |s.threads| && s.threads[t] == Idle && a < |s.memory| && !s.memory[a].live
    ensures Inv(Begin(s, t, a))
  {
    var s' := Begin(s, t, a);
    NotInLists(s, a);
    ListsSame(s, s', t);
    assert ThreadOk(s', t);
    hide ThreadOk, Lists;
    forall u | 0 <= u < |s'.threads| && u != t ensures ThreadOk(s', u) {
      BeginThread(s, t, a, u);
    }
  }

  lemma LinkThread(s: State, t: nat, op: nat, res: Pointer, u: nat)
    requires t < |s.threads| && s.threads[t] == Link(op, res) && u < |s.threads| && u != t
    requires ThreadOk(s, t) && ThreadOk(s, u)
    ensures ThreadOk(SetNext(s, t, op, res), u)
  {
  }

  lemma LinkInv(s: State, t: nat, op: nat, res: Pointer)
    requires Inv(s) && t < |s.threads| && s.threads[t] == Link(op, res)
    ensures op < |s.memory| && Inv(SetNext(s, t, op, res))
  {
    assert ThreadOk(s, t);
    var s' := SetNext(s, t, op, res);
    ListsSame(s, s', t);
    assert ThreadOk(s', t);
    hide Lists;
    assert s'.busy ==> s'.threads[s'.handler] != Idle;
    hide ThreadOk;
    forall u | 0 <= u < |s'.threads| && u != t ensures ThreadOk(s', u) {
      LinkThread(s, t, op, res, u);
    }
  }

  lemma PostThread(s: State, t: nat, op: nat, res: Pointer, u: nat)
    requires t < |s.threads| && s.threads[t] == Cas(op, res) && s.mailbox == res == Head(s.posted)
    requires u < |s.threads| && u != t && ThreadOk(s, t) && ThreadOk(s, u)
    ensures ThreadOk(Post(s, t, op, res), u)
  {
  }

  lemma PostLists(s: State, t: nat, op: nat, res: Pointer)
    requires Inv(s) && t < |s.threads| && s.threads[t] == Cas(op, res) && s.mailbox == res
    ensures Lists(Post(s, t, op, res))
  {
    assert ThreadOk(s, t);
    var s' := Post(s, t, op, res);
    hide ThreadOk;
    assert s'.posted[1..] == s.posted;
    assert res == Null <==> s.posted == [];
    forall i | 0 <= i < |s'.posted| ensures InMailbox(s', i) && s'.posted[i] !in s'.handling {
      if i > 0 {
        assert InMailbox(s, i - 1);
      }
    }
    forall i | 0 <= i < |s.handling| ensures InHand(s', i) {
      assert InHand(s, i);
    }
  }

  lemma PostInv(s: State, t: nat, op: nat, res: Pointer)
    requires Inv(s) && t < |s.threads| && s.threads[t] == Cas(op, res) && s.mailbox == res
    ensures Inv(Post(s, t, op, res))
  {
    assert ThreadOk(s, t);
    var s' := Post(s, t, op, res);
    PostLists(s, t, op, res);
    assert res == Head(s.posted);
    hide Lists;
    assert ThreadOk(s', t);
    hide ThreadOk;
    forall u | 0 <= u < |s'.threads| && u != t ensures ThreadOk(s', u) {
      PostThread(s, t, op, res, u);
    }
  }

  lemma LeaveThread(s: State, t: nat, op: nat, u: nat)
    requires t < |s.threads| && Owned(s, t, op) && u < |s.threads| && u != t && ThreadOk(s, u)
    ensures ThreadOk(Leave(s, t, op), u)
  {
  }

  lemma LeaveInv(s: State, t: nat, op: nat)
    requires Inv(s) && t < |s.threads| && (s.threads[t] == Spin(op) || s.threads[t] == Return(op))
    ensures op < |s.memory|
    ensures s.threads[t].Return? ==> s.memory[op].finished
    ensures s.memory[op].finished ==> Inv(Leave(s, t, op))
  {
    assert ThreadOk(s, t);
    NotInLists(s, op);
    if s.memory[op].finished {
      var s' := Leave(s, t, op);
      ListsSame(s, s', t);
      assert s.memory[op].applied == 1;
      hide Lists;
      assert s'.busy ==> s'.handler != t;
      hide ThreadOk;
      forall u | 0 <= u < |s'.threads| && u != t ensures ThreadOk(s', u) {
        LeaveThread(s, t, op, u);
      }
    }
  }

  lemma SeizeInv(s: State, t: nat, op: nat)
    requires Inv(s) && t < |s.threads| && s.threads[t] == Grab(op)
    ensures Inv(Seize(s, t, op))
  {
    assert ThreadOk(s, t);
    var s' := Seize(s, t, op);
    forall i | 0 <= i < |s'.handling| ensures InHand(s', i) {
      assert InMailbox(s, i);
    }
    forall u | 0 <= u < |s'.threads| ensures ThreadOk(s', u) {
      assert ThreadOk(s, u);
      assert InMailbox(s, 0);
    }
  }

  lemma RunThread(s: State, t: nat, op: nat, a: nat, rest: Pointer, u: nat)
    requires t < |s.threads| && s.threads[t] == Apply(op, a, rest) && ThreadOk(s, t)
    requires a < |s.memory| && s.handling != [] && InHand(s, 0)
    requires u < |s.threads| && u != t && ThreadOk(s, u)
    ensures ThreadOk(RunBody(s, t, op, a, rest), u)
  {
  }

  lemma RunLists(s: State, t: nat, op: nat, a: nat, rest: Pointer)
    requires Inv(s) && t < |s.threads| && s.threads[t] == Apply(op, a, rest) && a < |s.memory|
    ensures Lists(RunBody(s, t, op, a, rest))
  {
    assert ThreadOk(s, t);
    var s' := RunBody(s, t, op, a, rest);
    hide ThreadOk;
    LinkedSame(s.memory, s'.memory, s.posted);
    LinkedSame(s.memory, s'.memory, s.handling);
    forall i | 0 <= i < |s.posted| ensures InMailbox(s', i) {
      assert InMailbox(s, i);
    }
    forall i | 0 <= i < |s.handling| ensures InHand(s', i) {
      assert InHand(s, i);
    }
  }

  lemma RunInv(s: State, t: nat, op: nat, a: nat, rest: Pointer)
    requires Inv(s) && t < |s.threads| && s.threads[t] == Apply(op, a, rest)
    ensures a < |s.memory| && s.memory[a].live && !s.memory[a].finished && s.memory[a].applied == 0
    ensures Inv(RunBody(s, t, op, a, rest))
  {
    assert ThreadOk(s, t);
    assert InHand(s, 0);
    var s' := RunBody(s, t, op, a, rest);
    RunLists(s, t, op, a, rest);
    hide Lists;
    assert ThreadOk(s', t);
    hide ThreadOk;
    forall u | 0 <= u < |s'.threads| && u != t ensures ThreadOk(s', u) {
      RunThread(s, t, op, a, rest, u);
    }
  }

  lemma FinishThread(s: State, t: nat, op: nat, a: nat, rest: Pointer, u: nat)
    requires t < |s.threads| && s.threads[t] == Finish(op, a, rest) && ThreadOk(s, t)
    requires a < |s.memory| && s.memory[a].applied == 1 && s.handling != [] && s.handling[0] == a && InHand(s, 0)
    requires a !in s.posted && u < |s.threads| && u != t && ThreadOk(s, u)
    ensures ThreadOk(SetFinished(s, t, op, a, rest), u)
  {
    var s' := SetFinished(s, t, op, a, rest);
    assert forall b :: b in s.handling && b != a ==> b in s'.handling;
    assert forall b :: b in s'.handling ==> b in s.handling;
  }

  lemma FinishHandling(s: State, t: nat, op: nat, a: nat, rest: Pointer)
    requires t < |s.threads| && s.threads[t] == Finish(op, a, rest) && a < |s.memory|
    requires s.handling != [] && s.handling[0] == a && NoRepeats(s.handling)
    requires forall i :: 0 <= i < |s.handling| ==> InHand(s, i)
    ensures var s' := SetFinished(s, t, op, a, rest);
            forall i :: 0 <= i < |s'.handling| ==> InHand(s', i) && s'.memory[s'.handling[i]].applied == 0
  {
    var s' := SetFinished(s, t, op, a, rest);
    forall i | 0 <= i < |s'.handling| ensures InHand(s', i) && s'.memory[s'.handling[i]].applied == 0 {
      var j := i + 1;
      assert InHand(s, j) && s.handling[j] == s'.handling[i];
    }
  }

  lemma FinishMailbox(s: State, t: nat, op: nat, a: nat, rest: Pointer)
    requires t < |s.threads| && s.threads[t] == Finish(op, a, rest) && a < |s.memory| && a in s.handling
    requires forall i :: 0 <= i < |s.posted| ==> InMailbox(s, i) && s.posted[i] !in s.handling
    ensures var s' := SetFinished(s, t, op, a, rest);
            forall i :: 0 <= i < |s'.posted| ==> InMailbox(s', i) && s'.posted[i] !in s'.handling
  {
    var s' := SetFinished(s, t, op, a, rest);
    forall i | 0 <= i < |s.posted| ensures InMailbox(s', i) && s.posted[i] !in s'.handling {
      assert InMailbox(s, i);
    }
  }

  lemma FinishLists(s: State, t: nat, op: nat, a: nat, rest: Pointer)
    requires Inv(s) && t < |s.threads| && s.threads[t] == Finish(op, a, rest) && a < |s.memory|
    requires s.handling != [] && s.handling[0] == a
    ensures Lists(SetFinished(s, t, op, a, rest)) && FirstRan(SetFinished(s, t, op, a, rest), 0)
  {
    assert ThreadOk(s, t);
    var s' := SetFinished(s, t, op, a, rest);
    hide ThreadOk;
    FinishHandling(s, t, op, a, rest);
    FinishMailbox(s, t, op, a, rest);
    hide InHand, InMailbox;
    LinkedSame(s.memory, s'.memory, s.posted);
    LinkedSame(s.memory, s'.memory, s'.handling);
  }

  lemma FinishInv(s: State, t: nat, op: nat, a: nat, rest: Pointer)
    requires Inv(s) && t < |s.threads| && s.threads[t] == Finish(op, a, rest)
    ensures a < |s.memory| && s.memory[a].live && !s.memory[a].finished && s.memory[a].applied == 1 && s.handling != []
    ensures Inv(SetFinished(s, t, op, a, rest))
  {
    assert ThreadOk(s, t);
    assert InHand(s, 0);
    var s' := SetFinished(s, t, op, a, rest);
    FinishLists(s, t, op, a, rest);
    assert a !in s.posted;
    hide Lists;
    assert forall b :: b in s.handling && b != a ==> b in s'.handling;
    assert ThreadOk(s', t);
    hide ThreadOk;
    forall u | 0 <= u < |s'.threads| && u != t ensures ThreadOk(s', u) {
      FinishThread(s, t, op, a, rest, u);
    }
  }

  lemma StepInv(s: State, s': State, t: nat)
    requires Inv(s) && t < |s.threads| && Step(s, t, s')
    ensures Inv(s')
  {
    hide Lists, ThreadOk;
    match s.threads[t]
    case Idle =>
      var a: nat :| a < |s.memory| && !s.memory[a].live && s' == Begin(s, t, a);
      BeginInv(s, t, a);
    case Link(op, res) => LinkInv(s, t, op, res);
    case Cas(op, res) =>
      if s.mailbox == res {
        PostInv(s, t, op, res);
      } else {
        WaiterInv(s, s', t);
      }
    case Spin(op) => LeaveInv(s, t, op);
    case Return(op) => LeaveInv(s, t, op);
    case Grab(op) => SeizeInv(s, t, op);
    case Apply(op, a, rest) => RunInv(s, t, op, a, rest);
    case Finish(op, a, rest) => FinishInv(s, t, op, a, rest);
    case Walk(op, list) => WalkInv(s, s', t);
    case _ => WaiterInv(s, s', t);
  }

  lemma WalkInv(s: State, s': State, t: nat)
    requires Inv(s) && t < |s.threads| && s.threads[t].Walk? && Step(s, t, s')
    ensures Inv(s')
    ensures s.threads[t].list.At? ==>
              var a := s.threads[t].list.address; a < |s.memory| && s.memory[a].live && !s.memory[a].finished
  {
    assert ThreadOk(s, t);
    if s.handling != [] {
      assert InHand(s, 0);
    }
    LocalInv(s, s', t);
  }

  /** A thread that waits to handle finds no handler: nothing is left in the last one's hands. */
  lemma WaiterInv(s: State, s': State, t: nat)
    requires Inv(s) && t < |s.threads| && Step(s, t, s')
    requires var c := s.threads[t];
             c.Load? || c.WaitBusy? || c.SetBusy? || c.Clear? || (c.Cas? && s.mailbox != c.res)
    ensures Inv(s')
  {
    assert ThreadOk(s, t);
    if s' != s {
      assert ThreadOk(s', t) by { hide Lists, Linked, NoRepeats, InMailbox, InHand; }
      hide ThreadOk, Lists;
      LocalInv(s, s', t);
    }
  }

  lemma Always(run: seq<State>, k: nat)
    requires Runs.IsRun(Init, Next, run) && k < |run|
    ensures Inv(run[k])
  {
    forall s | Init(s) ensures Inv(s) { InitInv(s); }
    forall s, s' | Inv(s) && Next(s, s') ensures Inv(s') {
      var t: nat :| t < |s.threads| && Step(s, t, s');
      StepInv(s, s', t);
    }
    Runs.InvariantOnRun(Init, Next, Inv, run, k);
  }

  // ---------- What it means for clients ----------

  /** At most one thread handles at a time, although handler_busy is tested and set in two steps. */
  lemma OneHandler(run: seq<State>, k: nat, t: nat, u: nat)
    requires Runs.IsRun(Init, Next, run) && k < |run| && t < |run[k].threads| && u < |run[k].threads|
    ensures Handles(run[k].threads[t]) && Handles(run[k].threads[u]) ==> t == u
    ensures Handles(run[k].threads[t]) ==> run[k].busy
    ensures run[k].threads[t].SetBusy? ==> !run[k].busy && !Handles(run[k].threads[u])
  {
    Always(run, k);
    assert ThreadOk(run[k], t) && ThreadOk(run[k], u);
  }

  /** The mailbox is not empty exactly while a thread waits to handle it, and only one does. */
  lemma OneWaiter(run: seq<State>, k: nat, t: nat, u: nat)
    requires Runs.IsRun(Init, Next, run) && k < |run| && t < |run[k].threads| && u < |run[k].threads|
    ensures run[k].mailbox != Null <==>
              exists w :: 0 <= w < |run[k].threads| && WaitsToHandle(run[k].threads[w])
    ensures WaitsToHandle(run[k].threads[t]) && WaitsToHandle(run[k].threads[u]) ==> t == u
  {
    Always(run, k);
    var s := run[k];
    assert ThreadOk(s, t) && ThreadOk(s, u);
    if s.posted != [] {
      assert InMailbox(s, |s.posted| - 1);
      assert WaitsToHandle(s.threads[s.memory[s.posted[|s.posted| - 1]].owner]);
    }
    if w :| 0 <= w < |s.threads| && WaitsToHandle(s.threads[w]) {
      assert ThreadOk(s, w);
    }
  }

  /** No thread touches an operation that is gone: its own lives until the call returns, and the handler
      touches only operations whose callers have not returned. And it runs each of them when
      it has not run yet and finishes it when it has run once. */
  lemma HandlesTheLiving(run: seq<State>, k: nat, t: nat)
    requires Runs.IsRun(Init, Next, run) && k < |run| && t < |run[k].threads|
    ensures var s, c := run[k], run[k].threads[t];
            && (c != Idle ==> Owned(s, t, c.op))
            && (c.Walk? && c.list.At? ==> Pending(s, c.list.address))
            && (c.Apply? ==> Pending(s, c.current) && s.memory[c.current].applied == 0)
            && (c.Finish? ==> Pending(s, c.current) && s.memory[c.current].applied == 1)
  {
    Always(run, k);
    assert ThreadOk(run[k], t);
    if run[k].handling != [] {
      assert InHand(run[k], 0);
    }
  }

  /** Every operation has run exactly once, and is finished, when its call returns. */
  lemma RunsOnce(run: seq<State>, k: nat, t: nat)
    requires Runs.IsRun(Init, Next, run) && k < |run| && t < |run[k].threads|
    ensures forall j :: 0 <= j < |run[k].runs| ==> run[k].runs[j] == 1
    ensures run[k].threads[t].Return? ==>
              var op := run[k].threads[t].op; op < |run[k].memory| && run[k].memory[op].finished
  {
    Always(run, k);
    assert ThreadOk(run[k], t);
  }
}
