/** How consumers find an element's block (concurrentqueue.h: ExplicitProducer). The producer keeps its
    blocks in a circular list and reuses the one ahead when it is empty; a circular index, replaced by one
    of twice the size when it is full, says which block holds which elements. One access to shared memory
    per step; allocation succeeds. Block number n is the one for the elements from n * blockSize on. Index
    sizes are powers of two, so `x & (size - 1)` is a remainder. */
module ExplicitBlockIndex {
  import opened BlockNumbers
  import Counting
  import opened Options
  import Runs

  datatype Entry = Entry(base: nat, block: nat)

  /** BlockIndexHeader. `shift` and `top` only record where entries are: number n is in slot
      (n + shift) % size, and `front` is the slot of number `top`. */
  datatype Header = Header(entries: seq<Entry>, front: int, shift: int, top: int)

  /** What enqueue(_bulk) still has to do: blocks needed, the tail to publish, the first block it took,
      and pr_blockIndexSlotsUsed at its start. A single enqueue resets its block at once. */
  datatype Job = Job(needed: nat, newTail: nat, single: bool, first: Option<nat>, slots: nat)

  datatype Producer =
    | Ready
    | TakeBlock(job: Job)
    | WriteBase(job: Job, block: nat)
    | WriteBlock(job: Job, block: nat)
    | SetFront(job: Job)
    | SetTail(job: Job)

  /** A consumer has claimed the indices from `index` to `end`, and holds an index header. */
  datatype Consumer =
    | Idle
    | LoadIndex(index: nat, end: nat)
    | LoadFront(index: nat, end: nat, header: nat)
    | LoadBase(index: nat, end: nat, header: nat, front: nat, top: nat)
    | Find(index: nat, end: nat, header: nat, slot: nat)
    | Use(index: nat, end: nat, header: nat, slot: nat, block: nat)

  /** The blocks are listed from the one ahead of the tail block round to the tail block; `front` is
      pr_blockIndexFront. `empty` has the offsets of each block whose elements are gone. The rest is
      history: which block was given each number, and which indices have been emptied. */
  datatype State = State(
    blockSize: nat, tail: nat, head: nat,
    headers: seq<Header>, front: nat, ring: seq<nat>, empty: seq<set<nat>>,
    producer: Producer, consumers: seq<Consumer>,
    given: seq<nat>, done: set<nat>)

  // ---------- The steps ----------

  ghost predicate Init(s: State) {
    && s.blockSize > 0 && s.tail == s.head == 0 && s.front == 0 && s.ring == [] && s.empty == []
    && |s.headers| == 1 && |s.headers[0].entries| > 0 && s.headers[0].shift == 0 && s.headers[0].top == -1
    && s.producer == Ready && s.given == [] && s.done == {}
    && forall t :: 0 <= t < |s.consumers| ==> s.consumers[t] == Idle
  }

  function Current(s: State): Header
    requires |s.headers| > 0
  {
    s.headers[|s.headers| - 1]
  }

  function SetCurrent(s: State, h: Header): State
    requires |s.headers| > 0
  {
    s.(headers := s.headers[|s.headers| - 1 := h])
  }

  /** enqueue or enqueue_bulk begins. */
  function Enqueue(s: State, count: nat, single: bool): State
    requires s.blockSize > 0
  {
    var needed := Blocks(s.blockSize, s.tail + count) - Blocks(s.blockSize, s.tail);
    var job := Job(if needed > 0 then needed else 0, s.tail + count, single, None, |s.ring|);
    s.(producer := if job.needed > 0 then TakeBlock(job) else SetTail(job))
  }

  predicate CanReuse(s: State, job: Job) {
    && s.ring != [] && s.ring[0] < |s.empty| && job.first != Some(s.ring[0])
    && Offsets(0, s.blockSize) <= s.empty[s.ring[0]]
  }

  function Taken(job: Job, block: nat): Job {
    job.(first := if job.first == None then Some(block) else job.first)
  }

  function Reuse(s: State, job: Job): State
    requires CanReuse(s, job)
  {
    var block := s.ring[0];
    s.(ring := s.ring[1..],
       empty := if job.single then s.empty[block := {}] else s.empty,
       producer := WriteBase(Taken(job, block), block))
  }

  function Requisition(s: State, job: Job): State {
    var block := |s.empty|;
    s.(empty := s.empty + [if job.single then {} else Offsets(0, s.blockSize)],
       producer := WriteBase(Taken(job, block), block))
  }

  /** new_block_index: the entries move to the start of an index of twice the size. */
  function Grow(s: State, job: Job): State
    requires |s.headers| > 0 && |Current(s).entries| > 0
  {
    var was, size := Current(s).entries, |Current(s).entries|;
    var first := |s.given| - |s.ring|;
    var entries := seq(2 * size, j requires 0 <= j => was[Slot(s.front - |s.ring|, j, size)]);
    s.(headers := s.headers + [Header(entries, job.slots - 1, 0 - first, first + job.slots - 1)], front := |s.ring|)
  }

  function PutBase(s: State, job: Job, block: nat): State
    requires |s.headers| > 0 && s.front < |Current(s).entries|
  {
    var h := Current(s);
    var entry := h.entries[s.front].(base := Base(s.blockSize, |s.given|));
    SetCurrent(s, h.(entries := h.entries[s.front := entry])).(producer := WriteBlock(job, block))
  }

  function PutBlock(s: State, job: Job, block: nat): State
    requires |s.headers| > 0 && s.front < |Current(s).entries|
  {
    var h := Current(s);
    var entry := h.entries[s.front].(block := block);
    SetCurrent(s, h.(entries := h.entries[s.front := entry])).(
      front := (s.front + 1) % |h.entries|,
      ring := s.ring + [block], given := s.given + [block],
      producer := TakeBlock(job.(needed := if job.needed > 0 then job.needed - 1 else 0)))
  }

  /** All blocks the call took get ready for new elements. */
  function ResetTaken(s: State, job: Job): State
    requires s.blockSize > 0
  {
    var published := Blocks(s.blockSize, s.tail);
    s.(empty := seq(|s.empty|, b requires 0 <= b < |s.empty| =>
                      if published <= |s.given| && b in s.given[published..] then {} else s.empty[b]),
       producer := SetFront(job))
  }

  function PublishFront(s: State, job: Job): State
    requires |s.headers| > 0 && |Current(s).entries| > 0
  {
    var h := Current(s);
    SetCurrent(s, h.(front := Slot(s.front, -1, |h.entries|), top := |s.given| - 1)).(producer := SetTail(job))
  }

  ghost predicate ProducerStep(s: State, s': State) {
    && s.blockSize > 0 && |s.headers| > 0 && s.front < |Current(s).entries|
    && match s.producer
       case Ready => exists count, single :: s' == Enqueue(s, count, single)
       case TakeBlock(job) =>
         if job.needed == 0 then s' == ResetTaken(s, job)
         else
           || (CanReuse(s, job) && s' == Reuse(s, job))
           || s' == (if |s.ring| == |Current(s).entries| then Grow(s, job) else Requisition(s, job))
       case WriteBase(job, block) => s' == PutBase(s, job, block)
       case WriteBlock(job, block) => s' == PutBlock(s, job, block)
       case SetFront(job) => s' == PublishFront(s, job)
       case SetTail(job) => s' == s.(tail := job.newTail, producer := Ready)
  }

  function Goto(s: State, t: nat, c: Consumer): State
    requires t < |s.consumers|
  {
    s.(consumers := s.consumers[t := c])
  }

  predicate Holds(s: State, header: nat, slot: nat) {
    header < |s.headers| && slot < |s.headers[header].entries|
  }

  /** The elements of one block are taken out and marked as gone. */
  function Empty(s: State, t: nat, i: nat, end: nat, h: nat, slot: nat, block: nat): State
    requires t < |s.consumers| && s.blockSize > 0 && Holds(s, h, slot) && block < |s.empty| && i <= end
  {
    var stop := i + Portion(s.blockSize, i, end);
    var o := i % s.blockSize;
    Goto(s, t, if stop < end then Find(stop, end, h, (slot + 1) % |s.headers[h].entries|) else Idle).(
      empty := s.empty[block := s.empty[block] + Offsets(o, o + (stop - i))],
      done := s.done + Offsets(i, stop))
  }

  /** The consumer protocol gives the thread `count` indices that have been published. */
  function Claim(s: State, t: nat, count: nat): State
    requires t < |s.consumers|
  {
    Goto(s, t, LoadIndex(s.head, s.head + count)).(head := s.head + count)
  }

  ghost predicate ConsumerStep(s: State, t: nat, s': State)
    requires t < |s.consumers|
  {
    s.blockSize > 0 && |s.headers| > 0 &&
    match s.consumers[t]
    case Idle =>
      exists count: nat :: 0 < count <= s.tail - s.head && s' == Claim(s, t, count)
    case LoadIndex(i, end) => s' == Goto(s, t, LoadFront(i, end, |s.headers| - 1))
    case LoadFront(i, end, h) =>
      h < |s.headers| && 0 <= s.headers[h].front && 0 <= s.headers[h].top
      && s' == Goto(s, t, LoadBase(i, end, h, s.headers[h].front, s.headers[h].top))
    case LoadBase(i, end, h, front, _) =>
      Holds(s, h, front)
      && var entries := s.headers[h].entries;
         s' == Goto(s, t, Find(i, end, h, Slot(front, i / s.blockSize - entries[front].base / s.blockSize, |entries|)))
    case Find(i, end, h, slot) =>
      Holds(s, h, slot) && s' == Goto(s, t, Use(i, end, h, slot, s.headers[h].entries[slot].block))
    case Use(i, end, h, slot, block) =>
      Holds(s, h, slot) && block < |s.empty| && i <= end
      && s' == Empty(s, t, i, end, h, slot, block)
  }

  ghost predicate Next(s: State, s': State) {
    || ProducerStep(s, s')
    || exists t: nat :: t < |s.consumers| && ConsumerStep(s, t, s')
  }

  // ---------- The invariant ----------

  function Oldest(s: State): int { |s.given| - |s.ring| }

  function Published(s: State): nat
    requires s.blockSize > 0
  {
    Blocks(s.blockSize, s.tail)
  }

  predicate Writing(p: Producer) { p.WriteBase? || p.WriteBlock? }

  function InRing(s: State): nat { |s.ring| + if Writing(s.producer) then 1 else 0 }

  /** The ring holds the blocks with the newest numbers, each once. */
  ghost predicate RingOk(s: State) {
    && |s.ring| <= |s.given|
    && (forall j :: 0 <= j < |s.ring| ==> s.ring[j] == s.given[Oldest(s) + j] && s.ring[j] < |s.empty|)
    && (forall j, k :: 0 <= j < k < |s.ring| ==> s.ring[j] != s.ring[k])
    && (Writing(s.producer) ==> s.producer.block !in s.ring && s.producer.block < |s.empty|)
    && (InRing(s) > 0 || s.given == [])
  }

  predicate EntryIs(size: nat, given: seq<nat>, h: Header, k: nat) {
    && k < |given| && |h.entries| > 0
    && h.entries[Slot(k, h.shift, |h.entries|)] == Entry(Base(size, k), given[k])
  }

  /** The current index has every number in the ring. */
  ghost predicate IndexOk(s: State) {
    && |s.headers| > 0 && (forall h :: 0 <= h < |s.headers| ==> |s.headers[h].entries| > 0)
    && InRing(s) <= |Current(s).entries|
    && s.front == Slot(|s.given|, Current(s).shift, |Current(s).entries|)
    && (forall k: nat {:trigger EntryIs(s.blockSize, s.given, Current(s), k)} ::
          Oldest(s) <= k < |s.given| ==> EntryIs(s.blockSize, s.given, Current(s), k))
    && (s.producer.WriteBlock? ==> Current(s).entries[s.front].base == Base(s.blockSize, |s.given|))
  }

  /** What is published, and which blocks can have unfinished elements. */
  ghost predicate TailOk(s: State)
    requires IndexOk(s) && s.blockSize > 0
  {
    && s.head <= s.tail
    && Oldest(s) <= Published(s) <= |s.given|
    && (forall i :: i in s.done ==> i < s.head)
    && (forall i: nat {:trigger NumberOf(s.blockSize, i)} ::
          NumberOf(s.blockSize, i) < Published(s) && i !in s.done ==> Oldest(s) <= NumberOf(s.blockSize, i))
    && (Published(s) > 0 ==>
          && Published(s) - 1 <= Current(s).top < |s.given|
          && Current(s).front == Slot(Current(s).top, Current(s).shift, |Current(s).entries|))
  }

  /** A published block's empty slots are those whose elements are gone. */
  predicate FlagsOf(size: nat, empty: set<nat>, done: set<nat>, k: nat) {
    forall o: nat :: o < size ==> (o in empty <==> Base(size, k) + o in done)
  }

  ghost predicate FlagsOk(s: State)
    requires s.blockSize > 0
  {
    forall k: nat {:trigger s.given[k]} :: Oldest(s) <= k < |s.given| ==>
      && s.given[k] < |s.empty|
      && (k < Published(s) || s.producer.SetFront? || s.producer.SetTail? ==>
            FlagsOf(s.blockSize, s.empty[s.given[k]], s.done, k))
  }

  ghost predicate JobOk(s: State)
    requires s.blockSize > 0 && IndexOk(s)
  {
    match s.producer
    case Ready => Published(s) == |s.given|
    case SetFront(job) => s.tail <= job.newTail && |s.given| == Blocks(s.blockSize, job.newTail) && |s.given| > 0
    case SetTail(job) =>
      && s.tail <= job.newTail && |s.given| == Blocks(s.blockSize, job.newTail)
      && (|s.given| > 0 ==>
            && Current(s).top == |s.given| - 1
            && Current(s).front == Slot(Current(s).top, Current(s).shift, |Current(s).entries|))
    case _ =>
      var job := s.producer.job;
      && s.tail <= job.newTail && |s.given| + job.needed == Blocks(s.blockSize, job.newTail)
      && (Writing(s.producer) ==> job.needed > 0) && |s.given| + job.needed > 0
      && Published(s) - job.slots <= Oldest(s) && job.slots <= InRing(s) && (job.slots == 0 ==> Published(s) == 0)
      && (if |s.given| > Published(s) then job.first == Some(s.given[Published(s)])
          else job.first == if Writing(s.producer) then Some(s.producer.block) else None)
  }

  ghost predicate Global(s: State) {
    s.blockSize > 0 && IndexOk(s) && RingOk(s) && TailOk(s) && FlagsOk(s) && JobOk(s)
  }

  /** The indices a consumer still has to empty are not empty yet. */
  ghost predicate ClaimOk(s: State, c: Consumer) {
    !c.Idle? ==> c.index < c.end <= s.head && forall i: nat :: c.index <= i < c.end ==> i !in s.done
  }

  predicate Apart(c: Consumer, d: Consumer) {
    c.Idle? || d.Idle? || c.end <= d.index || d.end <= c.index
  }

  ghost predicate ClaimsOk(s: State) {
    && (forall t :: 0 <= t < |s.consumers| ==> ClaimOk(s, s.consumers[t]))
    && (forall t, u :: 0 <= t < u < |s.consumers| ==> Apart(s.consumers[t], s.consumers[u]))
  }

  /** This header leads to every block the consumer still needs. */
  ghost predicate Reach(s: State, h: Header, i: nat, end: nat)
    requires s.blockSize > 0
  {
    forall k: nat {:trigger EntryIs(s.blockSize, s.given, h, k)} ::
      NumberOf(s.blockSize, i) <= k && Base(s.blockSize, k) < end ==> EntryIs(s.blockSize, s.given, h, k)
  }

  predicate AtTop(s: State, h: Header, front: int, top: int, i: nat)
    requires s.blockSize > 0
  {
    && |h.entries| > 0 && top >= NumberOf(s.blockSize, i) && front == Slot(top, h.shift, |h.entries|)
    && h.entries[front].base == Base(s.blockSize, top)
  }

  ghost predicate ConsumerOk(s: State, c: Consumer)
    requires s.blockSize > 0
  {
    match c
    case Idle => true
    case LoadIndex(_, _) => true
    case LoadFront(i, end, h) =>
      h < |s.headers| && Reach(s, s.headers[h], i, end) && AtTop(s, s.headers[h], s.headers[h].front, s.headers[h].top, i)
    case LoadBase(i, end, h, front, top) =>
      && h < |s.headers| && Reach(s, s.headers[h], i, end) && AtTop(s, s.headers[h], front, top, i)
      && (h == |s.headers| - 1 ==> top < |s.given|)
    case Find(i, end, h, slot) =>
      && h < |s.headers| && Reach(s, s.headers[h], i, end)
      && |s.headers[h].entries| > 0 && slot == Slot(NumberOf(s.blockSize, i), s.headers[h].shift, |s.headers[h].entries|)
    case Use(i, end, h, slot, block) =>
      && h < |s.headers| && Reach(s, s.headers[h], i, end)
      && |s.headers[h].entries| > 0 && slot == Slot(NumberOf(s.blockSize, i), s.headers[h].shift, |s.headers[h].entries|)
      && NumberOf(s.blockSize, i) < |s.given| && block == s.given[NumberOf(s.blockSize, i)]
  }

  ghost predicate Inv(s: State) {
    Global(s) && ClaimsOk(s) && forall t :: 0 <= t < |s.consumers| ==> ConsumerOk(s, s.consumers[t])
  }

  lemma InitInv(s: State)
    requires Init(s)
    ensures Inv(s)
  {
    Arithmetic.ModFacts(s.blockSize - 1, s.blockSize);
    Arithmetic.ModFacts(0, |s.headers[0].entries|);
    forall t | 0 <= t < |s.consumers| ensures s.consumers[t].Idle? {
      assert s.consumers[t] == Idle;
    }
  }

  // ---------- What consumers can rely on ----------

  lemma ClaimedInWindow(s: State, i: nat, end: nat, k: nat)
    requires Global(s) && i < end <= s.tail
    requires forall x: nat :: i <= x < end ==> x !in s.done
    requires NumberOf(s.blockSize, i) <= k && Base(s.blockSize, k) < end
    ensures Oldest(s) <= k < |s.given| && k < Published(s)
  {
    hide IndexOk, RingOk, FlagsOk, JobOk, Base, Blocks;
    var x := ClaimedIndexIn(s.blockSize, i, end, k);
    BelowBlocks(s.blockSize, x, s.tail);
    assert Oldest(s) <= NumberOf(s.blockSize, x);
  }

  lemma FirstInWindow(s: State, i: nat, end: nat)
    requires Global(s) && i < end <= s.tail
    requires forall x: nat :: i <= x < end ==> x !in s.done
    ensures Oldest(s) <= NumberOf(s.blockSize, i) < Published(s)
  {
    NumberBounds(s.blockSize, i);
    ClaimedInWindow(s, i, end, NumberOf(s.blockSize, i));
  }

  /** The current index leads to every claimed block, also by way of its front. */
  lemma CurrentReaches(s: State, i: nat, end: nat)
    requires Global(s) && i < end <= s.tail
    requires forall x: nat :: i <= x < end ==> x !in s.done
    ensures Reach(s, Current(s), i, end)
    ensures AtTop(s, Current(s), Current(s).front, Current(s).top, i) && Current(s).top < |s.given|
  {
    hide Slot, Base, NumberOf, Blocks, RingOk, FlagsOk, JobOk;
    forall k: nat {:trigger EntryIs(s.blockSize, s.given, Current(s), k)}
      | NumberOf(s.blockSize, i) <= k && Base(s.blockSize, k) < end
      ensures EntryIs(s.blockSize, s.given, Current(s), k)
    {
      ClaimedInWindow(s, i, end, k);
    }
    FirstInWindow(s, i, end);
    assert EntryIs(s.blockSize, s.given, Current(s), Current(s).top);
  }

  lemma CurrentAtTop(s: State, i: nat, end: nat, front: int, top: int)
    requires Global(s) && i < end <= s.tail
    requires forall x: nat :: i <= x < end ==> x !in s.done
    requires NumberOf(s.blockSize, i) <= top < |s.given| && front == Slot(top, Current(s).shift, |Current(s).entries|)
    ensures AtTop(s, Current(s), front, top, i)
  {
    hide Slot, Base, NumberOf, Blocks, RingOk, FlagsOk, JobOk;
    FirstInWindow(s, i, end);
    assert EntryIs(s.blockSize, s.given, Current(s), top);
  }

  /** A step of the producer: old headers stay, the current one stays the same size, and more blocks may
      be given. */
  ghost predicate ProducerMoves(s: State, s': State) {
    && s'.blockSize == s.blockSize && s'.consumers == s.consumers && s'.head == s.head && s'.done == s.done
    && 0 < |s.headers| <= |s'.headers| && s.tail <= s'.tail
    && |s.given| <= |s'.given| && s'.given[..|s.given|] == s.given
    && (forall h :: 0 <= h < |s.headers| ==>
          || (s'.headers[h] == s.headers[h])
          || (h == |s'.headers| - 1 == |s.headers| - 1 && s'.headers[h].shift == s.headers[h].shift
              && |s'.headers[h].entries| == |s.headers[h].entries|))
  }

  lemma ReachStays(s: State, s': State, h: Header, i: nat, end: nat)
    requires s.blockSize > 0 && s'.blockSize == s.blockSize && Reach(s, h, i, end)
    requires |s.given| <= |s'.given| && s'.given[..|s.given|] == s.given
    ensures Reach(s', h, i, end)
  {
    hide Slot, Base;
    forall k: nat {:trigger EntryIs(s'.blockSize, s'.given, h, k)} | NumberOf(s'.blockSize, i) <= k && Base(s'.blockSize, k) < end
      ensures EntryIs(s'.blockSize, s'.given, h, k)
    {
      assert NumberOf(s.blockSize, i) <= k;
      assert EntryIs(s.blockSize, s.given, h, k);
      assert s'.given[k] == s'.given[..|s.given|][k];
    }
  }

  lemma ConsumerStays(s: State, s': State, c: Consumer)
    requires Global(s) && Global(s') && ProducerMoves(s, s') && ConsumerOk(s, c) && ClaimOk(s, c)
    ensures ConsumerOk(s', c)
  {
    hide IndexOk, RingOk, FlagsOk, JobOk, Slot, Base, NumberOf, Reach;
    if !c.Idle? && !c.LoadIndex? {
      var h, h' := s.headers[c.header], s'.headers[c.header];
      UseStays(s, s', c);
      if h' == h {
        ReachStays(s, s', h, c.index, c.end);
      } else {
        CurrentReaches(s', c.index, c.end);
        if c.LoadBase? {
          CurrentAtTop(s', c.index, c.end, c.front, c.top);
        }
      }
    }
  }

  lemma UseStays(s: State, s': State, c: Consumer)
    requires s.blockSize > 0 && s'.blockSize == s.blockSize
    requires |s.given| <= |s'.given| && s'.given[..|s.given|] == s.given
    requires c.Use? && NumberOf(s.blockSize, c.index) < |s.given| ==> c.block == s.given[NumberOf(s.blockSize, c.index)]
    ensures NumberOf(s'.blockSize, if c.Idle? then 0 else c.index) == NumberOf(s.blockSize, if c.Idle? then 0 else c.index)
    ensures c.Use? && NumberOf(s.blockSize, c.index) < |s.given| ==>
              NumberOf(s'.blockSize, c.index) < |s'.given| && c.block == s'.given[NumberOf(s'.blockSize, c.index)]
  {
    if c.Use? && NumberOf(s.blockSize, c.index) < |s.given| {
      assert s'.given[NumberOf(s.blockSize, c.index)] == s'.given[..|s.given|][NumberOf(s.blockSize, c.index)];
    }
  }

  lemma ProducerFrame(s: State, s': State)
    requires Inv(s) && Global(s') && ProducerMoves(s, s')
    ensures Inv(s')
  {
    forall t | 0 <= t < |s'.consumers| ensures ConsumerOk(s', s'.consumers[t]) {
      ConsumerStays(s, s', s.consumers[t]);
    }
    hide Global, ConsumerOk;
    forall t | 0 <= t < |s'.consumers| ensures ClaimOk(s', s'.consumers[t]) {
      assert ClaimOk(s, s.consumers[t]);
    }
  }

  // ---------- The producer's steps keep the invariant ----------

  lemma EnqueueJob(s: State, count: nat, single: bool)
    requires Global(s) && s.producer == Ready
    ensures var s' := Enqueue(s, count, single); IndexOk(s') && JobOk(s')
  {
    BlocksMonotone(s.blockSize, s.tail, s.tail + count);
    hide Slot, Base, Blocks, NumberOf, FlagsOk;
  }

  lemma EnqueueInv(s: State, count: nat, single: bool)
    requires Inv(s) && s.producer == Ready
    ensures Inv(Enqueue(s, count, single))
  {
    var s' := Enqueue(s, count, single);
    EnqueueJob(s, count, single);
    hide Slot, Base, Blocks, NumberOf, ClaimsOk, ConsumerOk;
    assert RingOk(s') && TailOk(s');
    assert FlagsOk(s');
    hide Global, IndexOk, JobOk, RingOk, TailOk, FlagsOk;
    ProducerFrame(s, s');
  }

  /** A block all of whose elements are gone has no claimed index and no free place. */
  lemma AllGone(s: State, k: nat, i: nat)
    requires s.blockSize > 0 && k < |s.given| && s.given[k] < |s.empty|
    requires FlagsOf(s.blockSize, s.empty[s.given[k]], s.done, k)
    requires Offsets(0, s.blockSize) <= s.empty[s.given[k]] && NumberOf(s.blockSize, i) == k
    ensures i in s.done
  {
    NumberBounds(s.blockSize, i);
    var o: nat := i - Base(s.blockSize, k);
    assert o in Offsets(0, s.blockSize);
    assert o in s.empty[s.given[k]];
  }

  /** A block that the running call took is the first one it took. */
  lemma UnpublishedIsFirst(s: State, job: Job)
    requires Global(s) && s.producer == TakeBlock(job) && s.ring != [] && Oldest(s) >= Published(s)
    ensures job.first == Some(s.ring[0])
  {
    hide FlagsOk, Slot, Blocks, NumberOf;
    assert s.ring[0] == s.given[Oldest(s)];
  }

  lemma ReuseWindow(s: State, job: Job)
    requires Global(s) && s.producer == TakeBlock(job) && CanReuse(s, job)
    ensures Oldest(s) < Published(s)
    ensures forall i: nat {:trigger NumberOf(s.blockSize, i)} ::
              NumberOf(s.blockSize, i) < Published(s) && i !in s.done ==> Oldest(s) < NumberOf(s.blockSize, i)
  {
    var k := Oldest(s);
    assert s.ring[0] == s.given[k];
    if k >= Published(s) {
      UnpublishedIsFirst(s, job);
    }
    assert FlagsOf(s.blockSize, s.empty[s.given[k]], s.done, k);
    hide Slot, Base, Blocks, NumberOf, IndexOk;
    forall i: nat {:trigger NumberOf(s.blockSize, i)} | NumberOf(s.blockSize, i) < Published(s) && i !in s.done
      ensures Oldest(s) < NumberOf(s.blockSize, i)
    {
      if NumberOf(s.blockSize, i) == k {
        AllGone(s, k, i);
      }
    }
  }

  lemma ReuseRing(s: State, job: Job)
    requires Global(s) && s.producer == TakeBlock(job) && CanReuse(s, job)
    ensures var s' := Reuse(s, job); RingOk(s') && IndexOk(s')
  {
    hide Slot, Base, Blocks, NumberOf, FlagsOk, JobOk, TailOk, Offsets, EntryIs;
    var s' := Reuse(s, job);
    assert forall j :: 0 <= j < |s'.ring| ==> s'.ring[j] == s.ring[j + 1];
  }

  lemma ReuseFlags(s: State, job: Job)
    requires Global(s) && s.producer == TakeBlock(job) && CanReuse(s, job)
    ensures FlagsOk(Reuse(s, job))
  {
    hide Slot, Base, Blocks, NumberOf, JobOk, TailOk, IndexOk, Offsets, FlagsOf;
    var s' := Reuse(s, job);
    forall k: nat {:trigger s'.given[k]} | Oldest(s') <= k < |s'.given|
      ensures s'.given[k] < |s'.empty|
      ensures k < Published(s') ==> FlagsOf(s'.blockSize, s'.empty[s'.given[k]], s'.done, k)
    {
      assert s.ring[k - Oldest(s)] == s.given[k];
    }
  }

  lemma ReuseInv(s: State, job: Job)
    requires Inv(s) && s.producer == TakeBlock(job) && CanReuse(s, job) && job.needed > 0
    ensures Inv(Reuse(s, job))
  {
    var s' := Reuse(s, job);
    ReuseWindow(s, job);
    ReuseRing(s, job);
    ReuseFlags(s, job);
    hide Slot, Base, Blocks, NumberOf, ClaimsOk, ConsumerOk, Offsets, FlagsOk, RingOk;
    assert TailOk(s');
    assert JobOk(s');
    hide IndexOk, TailOk, JobOk;
    ProducerFrame(s, s');
  }

  lemma RequisitionInv(s: State, job: Job)
    requires Inv(s) && s.producer == TakeBlock(job) && |s.ring| != |Current(s).entries| && job.needed > 0
    ensures Inv(Requisition(s, job))
  {
    var s' := Requisition(s, job);
    hide Slot, Base, Blocks, NumberOf, ClaimsOk, ConsumerOk, Offsets, EntryIs, FlagsOf;
    assert RingOk(s') && IndexOk(s') by { hide FlagsOk, TailOk, JobOk; }
    assert FlagsOk(s') by { hide IndexOk, TailOk, JobOk; }
    assert TailOk(s') && JobOk(s');
    hide IndexOk, TailOk, JobOk, RingOk, FlagsOk;
    ProducerFrame(s, s');
  }

  // ---------- new_block_index ----------

  lemma GrowEntry(s: State, job: Job, k: nat)
    requires Global(s) && s.producer == TakeBlock(job) && |s.ring| == |Current(s).entries|
    requires Oldest(s) <= k < |s.given|
    ensures EntryIs(s.blockSize, s.given, Current(Grow(s, job)), k)
  {
    var size, shift, j := |Current(s).entries|, Current(s).shift, k - Oldest(s);
    SlotFrom(|s.given|, 0 - |s.ring| + j, shift, size);
    SmallSlot(j, 2 * size);
    assert EntryIs(s.blockSize, s.given, Current(s), k);
    assert Slot(s.front - |s.ring|, j, size) == Slot(k, shift, size);
    assert Slot(k, 0 - Oldest(s), 2 * size) == j;
  }

  lemma GrowIndex(s: State, job: Job)
    requires Global(s) && s.producer == TakeBlock(job) && |s.ring| == |Current(s).entries|
    ensures IndexOk(Grow(s, job))
  {
    var s' := Grow(s, job);
    SmallSlot(|s.ring|, 2 * |s.ring|);
    assert s'.front == Slot(|s'.given|, Current(s').shift, |Current(s').entries|);
    hide Slot, Base, Blocks, NumberOf, TailOk, JobOk, FlagsOk, EntryIs;
    forall k: nat | Oldest(s') <= k < |s'.given| ensures EntryIs(s'.blockSize, s'.given, Current(s'), k) {
      GrowEntry(s, job, k);
    }
  }

  lemma GrowTail(s: State, job: Job)
    requires Global(s) && s.producer == TakeBlock(job) && |s.ring| == |Current(s).entries|
    requires IndexOk(Grow(s, job))
    ensures TailOk(Grow(s, job))
  {
    var s' := Grow(s, job);
    if job.slots > 0 {
      SmallSlot(job.slots - 1, 2 * |s.ring|);
      assert Current(s').front == Slot(Current(s').top, Current(s').shift, |Current(s').entries|);
    }
    hide Slot, Base, Blocks, NumberOf, FlagsOk, EntryIs;
  }

  lemma GrowInv(s: State, job: Job)
    requires Inv(s) && s.producer == TakeBlock(job) && |s.ring| == |Current(s).entries| && job.needed > 0
    ensures Inv(Grow(s, job))
  {
    var s' := Grow(s, job);
    GrowIndex(s, job);
    GrowTail(s, job);
    hide Slot, Base, Blocks, NumberOf, ClaimsOk, ConsumerOk, IndexOk, TailOk, FlagsOf;
    assert RingOk(s') by { hide FlagsOk, JobOk; }
    assert FlagsOk(s') by { hide RingOk, JobOk; }
    assert JobOk(s');
    hide RingOk, JobOk, FlagsOk;
    ProducerFrame(s, s');
  }

  // ---------- Writing an entry ----------

  /** The slot for the next number is none of those in the ring. */
  lemma NextSlotIsFree(s: State, k: nat)
    requires Global(s) && Writing(s.producer) && Oldest(s) <= k < |s.given|
    ensures Slot(k, Current(s).shift, |Current(s).entries|) != s.front < |Current(s).entries|
  {
    hide Slot, FlagsOk, JobOk, TailOk;
    SlotsDiffer(k, |s.given|, Current(s).shift, |Current(s).entries|);
    SlotBelow(|s.given|, Current(s).shift, |Current(s).entries|);
  }

  lemma FrontInIndex(s: State)
    requires Global(s)
    ensures s.front < |Current(s).entries|
  {
    SlotBelow(|s.given|, Current(s).shift, |Current(s).entries|);
  }

  lemma PutBaseInv(s: State, job: Job, block: nat)
    requires Inv(s) && s.producer == WriteBase(job, block)
    ensures s.front < |Current(s).entries| && Inv(PutBase(s, job, block))
  {
    FrontInIndex(s);
    var s' := PutBase(s, job, block);
    hide Slot, Base, Blocks, NumberOf, ClaimsOk, ConsumerOk, FlagsOf;
    forall k: nat | Oldest(s') <= k < |s'.given| ensures EntryIs(s'.blockSize, s'.given, Current(s'), k) {
      NextSlotIsFree(s, k);
      assert EntryIs(s.blockSize, s.given, Current(s), k);
    }
    hide EntryIs;
    assert IndexOk(s') && RingOk(s') by { hide TailOk, JobOk, FlagsOk; }
    assert TailOk(s') by { hide RingOk, FlagsOk; }
    assert FlagsOk(s') by { hide IndexOk, TailOk, JobOk; }
    assert JobOk(s');
    hide IndexOk, RingOk, TailOk, FlagsOk, JobOk;
    ProducerFrame(s, s');
  }

  lemma PutBlockIndex(s: State, job: Job, block: nat)
    requires Global(s) && s.producer == WriteBlock(job, block) && s.front < |Current(s).entries|
    ensures IndexOk(PutBlock(s, job, block))
  {
    var s' := PutBlock(s, job, block);
    SlotFrom(|s.given|, 1, Current(s).shift, |Current(s).entries|);
    assert s'.front == Slot(s.front, 1, |Current(s).entries|);
    hide Base, Blocks, NumberOf, TailOk, JobOk, FlagsOk, Slot;
    forall k: nat | Oldest(s') <= k < |s'.given| ensures EntryIs(s'.blockSize, s'.given, Current(s'), k) {
      if k < |s.given| {
        NextSlotIsFree(s, k);
        assert EntryIs(s.blockSize, s.given, Current(s), k);
      }
    }
  }

  lemma PutBlockRing(s: State, job: Job, block: nat)
    requires Global(s) && s.producer == WriteBlock(job, block) && s.front < |Current(s).entries|
    ensures RingOk(PutBlock(s, job, block)) && FlagsOk(PutBlock(s, job, block))
  {
    var s' := PutBlock(s, job, block);
    hide Slot, Base, Blocks, NumberOf, IndexOk, FlagsOf;
    forall k: nat {:trigger s'.given[k]} | Oldest(s') <= k < |s'.given|
      ensures s'.given[k] < |s'.empty|
      ensures k < Published(s') ==> FlagsOf(s'.blockSize, s'.empty[s'.given[k]], s'.done, k)
    {
      if k < |s.given| {
        assert s'.given[k] == s.given[k];
      }
    }
  }

  lemma PutBlockInv(s: State, job: Job, block: nat)
    requires Inv(s) && s.producer == WriteBlock(job, block)
    ensures s.front < |Current(s).entries| && Inv(PutBlock(s, job, block))
  {
    FrontInIndex(s);
    var s' := PutBlock(s, job, block);
    PutBlockIndex(s, job, block);
    PutBlockRing(s, job, block);
    hide Slot, Base, Blocks, NumberOf, ClaimsOk, ConsumerOk, FlagsOk, RingOk, EntryIs;
    assert TailOk(s') by { hide JobOk; }
    assert JobOk(s');
    hide IndexOk, TailOk, JobOk;
    ProducerFrame(s, s');
  }

  // ---------- Publishing ----------

  /** No element of a block that is not published yet is gone. */
  lemma NotGone(s: State, k: nat)
    requires Global(s) && k >= Published(s)
    ensures FlagsOf(s.blockSize, {}, s.done, k)
  {
    hide Slot, IndexOk, JobOk, NumberOf, RingOk, FlagsOk;
    BlocksSuffice(s.blockSize, s.tail);
    BaseMonotone(s.blockSize, Published(s), k);
  }

  lemma ResetFlags(s: State, job: Job)
    requires Global(s) && s.producer == TakeBlock(job) && job.needed == 0
    ensures FlagsOk(ResetTaken(s, job))
  {
    var s' := ResetTaken(s, job);
    var published := Published(s);
    hide Slot, Base, Blocks, IndexOk, JobOk, NumberOf, FlagsOf;
    forall k: nat {:trigger s'.given[k]} | Oldest(s') <= k < |s'.given|
      ensures s'.given[k] < |s'.empty| && FlagsOf(s'.blockSize, s'.empty[s'.given[k]], s'.done, k)
    {
      assert s.ring[k - Oldest(s)] == s.given[k];
      if k < published {
        NotAmongTaken(s, k);
      } else {
        assert s.given[published..][k - published] == s.given[k];
        NotGone(s, k);
      }
    }
  }

  lemma NotAmongTaken(s: State, k: nat)
    requires Global(s) && Oldest(s) <= k < Published(s)
    ensures s.given[k] !in s.given[Published(s)..]
  {
    hide Slot, IndexOk, JobOk, NumberOf, Blocks, FlagsOk;
    forall j | Published(s) <= j < |s.given| ensures s.given[j] != s.given[k] {
      assert s.ring[k - Oldest(s)] == s.given[k] && s.ring[j - Oldest(s)] == s.given[j];
    }
  }

  lemma ResetInv(s: State, job: Job)
    requires Inv(s) && s.producer == TakeBlock(job) && job.needed == 0
    ensures Inv(ResetTaken(s, job))
  {
    var s' := ResetTaken(s, job);
    ResetFlags(s, job);
    hide Slot, Base, Blocks, NumberOf, ClaimsOk, ConsumerOk, FlagsOk, EntryIs;
    assert IndexOk(s') && RingOk(s') by { hide TailOk, JobOk; }
    assert TailOk(s') && JobOk(s');
    hide IndexOk, TailOk, JobOk, RingOk;
    ProducerFrame(s, s');
  }

  lemma FrontInv(s: State, job: Job)
    requires Inv(s) && s.producer == SetFront(job)
    ensures Inv(PublishFront(s, job))
  {
    var s' := PublishFront(s, job);
    SlotFrom(|s.given|, -1, Current(s).shift, |Current(s).entries|);
    hide Slot, Base, Blocks, NumberOf, ClaimsOk, ConsumerOk, FlagsOf;
    forall k: nat | Oldest(s') <= k < |s'.given| ensures EntryIs(s'.blockSize, s'.given, Current(s'), k) {
      assert EntryIs(s.blockSize, s.given, Current(s), k);
    }
    hide EntryIs;
    assert IndexOk(s') && RingOk(s') && FlagsOk(s') by { hide TailOk, JobOk; }
    assert TailOk(s') && JobOk(s') by { hide FlagsOk, RingOk; }
    hide IndexOk, RingOk, TailOk, FlagsOk, JobOk;
    ProducerFrame(s, s');
  }

  lemma TailInv(s: State, job: Job)
    requires Inv(s) && s.producer == SetTail(job)
    ensures Inv(s.(tail := job.newTail, producer := Ready))
  {
    var s' := s.(tail := job.newTail, producer := Ready);
    hide Slot, Base, Blocks, NumberOf, ClaimsOk, ConsumerOk, FlagsOf, EntryIs;
    assert IndexOk(s') && RingOk(s') && FlagsOk(s') by { hide TailOk; }
    assert TailOk(s') && JobOk(s') by { hide FlagsOk, RingOk; }
    hide IndexOk, RingOk, TailOk, FlagsOk, JobOk;
    ProducerFrame(s, s');
  }

  lemma ProducerInv(s: State, s': State)
    requires Inv(s) && ProducerStep(s, s')
    ensures Inv(s')
  {
    hide Inv;
    match s.producer
    case Ready =>
      var count, single :| s' == Enqueue(s, count, single);
      EnqueueInv(s, count, single);
    case TakeBlock(job) =>
      if job.needed == 0 {
        ResetInv(s, job);
      } else if CanReuse(s, job) && s' == Reuse(s, job) {
        ReuseInv(s, job);
      } else if |s.ring| == |Current(s).entries| {
        GrowInv(s, job);
      } else {
        RequisitionInv(s, job);
      }
    case WriteBase(job, block) => PutBaseInv(s, job, block);
    case WriteBlock(job, block) => PutBlockInv(s, job, block);
    case SetFront(job) => FrontInv(s, job);
    case SetTail(job) => TailInv(s, job);
  }

  // ---------- The consumers' steps keep the invariant ----------

  /** A consumer moves on without touching blocks; it may take a claim. */
  lemma ConsumerFrame(s: State, s': State, t: nat)
    requires Inv(s) && t < |s.consumers| && |s'.consumers| == |s.consumers|
    requires s' == Goto(s, t, s'.consumers[t]).(head := s'.head) && s.head <= s'.head <= s.tail
    requires ConsumerOk(s', s'.consumers[t]) && ClaimOk(s', s'.consumers[t])
    requires forall u :: 0 <= u < |s.consumers| && u != t ==> Apart(s'.consumers[t], s.consumers[u])
    ensures Inv(s')
  {
    hide Slot, Base, Blocks, NumberOf, EntryIs, FlagsOf;
    assert Global(s') by { hide ClaimsOk, ConsumerOk; }
    hide Global;
    forall u | 0 <= u < |s'.consumers| ensures ConsumerOk(s', s'.consumers[u]) {
      assert ConsumerOk(s, s.consumers[u]);
    }
    hide ConsumerOk;
    assert ClaimsOk(s') by {
      forall u | 0 <= u < |s'.consumers| ensures ClaimOk(s', s'.consumers[u]) {
        assert ClaimOk(s, s.consumers[u]);
      }
      forall u, v | 0 <= u < v < |s'.consumers| ensures Apart(s'.consumers[u], s'.consumers[v]) {
        assert Apart(s.consumers[u], s.consumers[v]);
      }
    }
  }

  lemma ClaimInv(s: State, t: nat, count: nat)
    requires Inv(s) && t < |s.consumers| && s.consumers[t] == Idle && 0 < count <= s.tail - s.head
    ensures Inv(Claim(s, t, count))
  {
    var s' := Claim(s, t, count);
    hide Slot, Base, Blocks, NumberOf, IndexOk, RingOk, FlagsOk, JobOk;
    forall u | 0 <= u < |s.consumers| && u != t ensures Apart(s'.consumers[t], s.consumers[u]) {
      assert ClaimOk(s, s.consumers[u]);
    }
    assert ClaimOk(s', s'.consumers[t]);
    ConsumerFrame(s, s', t);
  }

  /** What a moving consumer keeps of its claim. */
  lemma SameClaim(s: State, s': State, t: nat)
    requires Inv(s) && t < |s.consumers| && !s.consumers[t].Idle?
    requires |s'.consumers| == |s.consumers| && !s'.consumers[t].Idle? && s' == Goto(s, t, s'.consumers[t])
    requires s'.consumers[t].index == s.consumers[t].index && s'.consumers[t].end == s.consumers[t].end
    ensures ClaimOk(s', s'.consumers[t])
    ensures forall u :: 0 <= u < |s.consumers| && u != t ==> Apart(s'.consumers[t], s.consumers[u])
    ensures var c := s.consumers[t];
            c.index < c.end <= s.tail && forall i: nat :: c.index <= i < c.end ==> i !in s.done
  {
    hide IndexOk, RingOk, FlagsOk, JobOk, ConsumerOk;
    assert ClaimOk(s, s.consumers[t]);
    forall u | 0 <= u < |s.consumers| && u != t ensures Apart(s'.consumers[t], s.consumers[u]) {
      assert Apart(s.consumers[if t < u then t else u], s.consumers[if t < u then u else t]);
    }
  }

  lemma LoadIndexInv(s: State, t: nat, i: nat, end: nat)
    requires Inv(s) && t < |s.consumers| && s.consumers[t] == LoadIndex(i, end)
    ensures Inv(Goto(s, t, LoadFront(i, end, |s.headers| - 1)))
  {
    var s' := Goto(s, t, LoadFront(i, end, |s.headers| - 1));
    SameClaim(s, s', t);
    CurrentReaches(s, i, end);
    hide Slot, Base, Blocks, NumberOf, EntryIs, FlagsOf, AtTop;
    assert ConsumerOk(s', s'.consumers[t]);
    ConsumerFrame(s, s', t);
  }

  lemma LoadFrontInv(s: State, t: nat, i: nat, end: nat, h: nat)
    requires Inv(s) && t < |s.consumers| && s.consumers[t] == LoadFront(i, end, h)
    ensures h < |s.headers| && 0 <= s.headers[h].front && 0 <= s.headers[h].top
    ensures Inv(Goto(s, t, LoadBase(i, end, h, s.headers[h].front, s.headers[h].top)))
  {
    assert ConsumerOk(s, s.consumers[t]);
    var s' := Goto(s, t, LoadBase(i, end, h, s.headers[h].front, s.headers[h].top));
    SameClaim(s, s', t);
    FirstInWindow(s, i, end);
    hide Slot, Base, Blocks, NumberOf, EntryIs, FlagsOf;
    assert ConsumerOk(s', s'.consumers[t]);
    ConsumerFrame(s, s', t);
  }

  /** The offset from the front's base leads to the slot of the index's own block. */
  lemma OffsetFromFront(s: State, h: Header, front: int, top: nat, i: nat)
    requires s.blockSize > 0 && AtTop(s, h, front, top, i) && 0 <= front < |h.entries|
    ensures Slot(front, i / s.blockSize - h.entries[front].base / s.blockSize, |h.entries|)
            == Slot(NumberOf(s.blockSize, i), h.shift, |h.entries|)
  {
    Arithmetic.ModUnique(top, 0, s.blockSize);
    SlotFrom(top, NumberOf(s.blockSize, i) - top, h.shift, |h.entries|);
  }

  lemma LoadBaseInv(s: State, t: nat, i: nat, end: nat, h: nat, front: nat, top: nat)
    requires Inv(s) && t < |s.consumers| && s.consumers[t] == LoadBase(i, end, h, front, top)
    ensures Holds(s, h, front)
    ensures var entries := s.headers[h].entries;
            var slot := Slot(front, i / s.blockSize - entries[front].base / s.blockSize, |entries|);
            Inv(Goto(s, t, Find(i, end, h, slot)))
  {
    assert ConsumerOk(s, s.consumers[t]);
    SlotBelow(top, s.headers[h].shift, |s.headers[h].entries|);
    var slot := Slot(NumberOf(s.blockSize, i), s.headers[h].shift, |s.headers[h].entries|);
    OffsetFromFront(s, s.headers[h], front, top, i);
    var s' := Goto(s, t, Find(i, end, h, slot));
    SameClaim(s, s', t);
    hide Slot, Base, Blocks, NumberOf, EntryIs, FlagsOf, AtTop;
    assert ConsumerOk(s', s'.consumers[t]);
    ConsumerFrame(s, s', t);
  }

  lemma FindInv(s: State, t: nat, i: nat, end: nat, h: nat, slot: nat)
    requires Inv(s) && t < |s.consumers| && s.consumers[t] == Find(i, end, h, slot)
    ensures Holds(s, h, slot)
    ensures Inv(Goto(s, t, Use(i, end, h, slot, s.headers[h].entries[slot].block)))
  {
    assert ConsumerOk(s, s.consumers[t]);
    SlotBelow(NumberOf(s.blockSize, i), s.headers[h].shift, |s.headers[h].entries|);
    var s' := Goto(s, t, Use(i, end, h, slot, s.headers[h].entries[slot].block));
    SameClaim(s, s', t);
    NumberBounds(s.blockSize, i);
    assert EntryIs(s.blockSize, s.given, s.headers[h], NumberOf(s.blockSize, i));
    hide Base, Slot, Blocks, NumberOf, FlagsOf, AtTop;
    assert ConsumerOk(s', s'.consumers[t]);
    ConsumerFrame(s, s', t);
  }

  // ---------- Emptying a block ----------

  lemma GoneAt(size: nat, empty: set<nat>, done: set<nat>, i: nat, end: nat, x: nat)
    requires size > 0 && i < end && x < size && FlagsOf(size, empty, done, i / size)
    ensures var p, o := Portion(size, i, end), i % size;
            x in empty + Offsets(o, o + p) <==> Base(size, i / size) + x in done + Offsets(i, i + p)
  {
    SamePortion(size, i, end, i / size, x);
    hide Portion, Base;
  }

  lemma GoneHere(size: nat, empty: set<nat>, done: set<nat>, i: nat, end: nat)
    requires size > 0 && i < end && FlagsOf(size, empty, done, i / size)
    ensures var p, o := Portion(size, i, end), i % size;
            FlagsOf(size, empty + Offsets(o, o + p), done + Offsets(i, i + p), i / size)
  {
    var p, o, n := Portion(size, i, end), i % size, i / size;
    var empty', done' := empty + Offsets(o, o + p), done + Offsets(i, i + p);
    assert forall x: nat :: x < size ==> (x in empty' <==> Base(size, n) + x in done') by {
      hide Portion, Base, FlagsOf, Offsets;
      forall x: nat | x < size ensures x in empty' <==> Base(size, n) + x in done' {
        GoneAt(size, empty, done, i, end, x);
      }
    }
    hide Portion, Base, Offsets;
  }

  lemma GoneElsewhere(size: nat, empty: set<nat>, done: set<nat>, i: nat, end: nat, k: nat)
    requires size > 0 && i < end && k != i / size && FlagsOf(size, empty, done, k)
    ensures FlagsOf(size, empty, done + Offsets(i, i + Portion(size, i, end)), k)
  {
    var p := Portion(size, i, end);
    hide Portion, Base;
    forall x: nat | x < size ensures x in empty <==> Base(size, k) + x in done + Offsets(i, i + p) {
      SamePortion(size, i, end, k, x);
    }
  }

  lemma EmptyFlags(s: State, t: nat, i: nat, end: nat, h: nat, slot: nat, block: nat)
    requires Inv(s) && t < |s.consumers| && s.consumers[t] == Use(i, end, h, slot, block)
    requires Holds(s, h, slot) && block < |s.empty| && i < end <= s.tail
    requires Oldest(s) <= NumberOf(s.blockSize, i) < Published(s) && block == s.given[NumberOf(s.blockSize, i)]
    ensures FlagsOk(Empty(s, t, i, end, h, slot, block))
  {
    var s', n := Empty(s, t, i, end, h, slot, block), NumberOf(s.blockSize, i);
    hide Slot, Blocks, Base, IndexOk, ConsumerOk, ClaimsOk, Portion, FlagsOf, Offsets;
    forall k: nat {:trigger s'.given[k]} | Oldest(s') <= k < |s'.given|
      ensures s'.given[k] < |s'.empty|
      ensures k < Published(s') || s'.producer.SetFront? || s'.producer.SetTail? ==>
                FlagsOf(s'.blockSize, s'.empty[s'.given[k]], s'.done, k)
    {
      assert s.ring[k - Oldest(s)] == s.given[k] && s.ring[n - Oldest(s)] == s.given[n];
      if k == n {
        GoneHere(s.blockSize, s.empty[block], s.done, i, end);
      } else if FlagsOf(s.blockSize, s.empty[s.given[k]], s.done, k) {
        GoneElsewhere(s.blockSize, s.empty[s.given[k]], s.done, i, end, k);
      }
    }
  }

  lemma EmptyGlobal(s: State, t: nat, i: nat, end: nat, h: nat, slot: nat, block: nat)
    requires Inv(s) && t < |s.consumers| && s.consumers[t] == Use(i, end, h, slot, block)
    requires Holds(s, h, slot) && block < |s.empty| && i < end <= s.head
    requires Oldest(s) <= NumberOf(s.blockSize, i) < Published(s) && block == s.given[NumberOf(s.blockSize, i)]
    ensures Global(Empty(s, t, i, end, h, slot, block))
  {
    var s' := Empty(s, t, i, end, h, slot, block);
    EmptyFlags(s, t, i, end, h, slot, block);
    hide Slot, Blocks, Base, ConsumerOk, ClaimsOk, FlagsOf, EntryIs, NumberOf, FlagsOk;
    assert IndexOk(s') && RingOk(s') && JobOk(s') by { hide TailOk; }
    assert TailOk(s') by { hide JobOk, RingOk; }
  }

  /** Where the consumer goes on: the next block is in the next slot. */
  lemma NextBlock(s: State, t: nat, i: nat, end: nat, h: nat, slot: nat, block: nat)
    requires Inv(s) && t < |s.consumers| && s.consumers[t] == Use(i, end, h, slot, block)
    requires Holds(s, h, slot) && block < |s.empty| && i < end
    ensures var s' := Empty(s, t, i, end, h, slot, block); ConsumerOk(s', s'.consumers[t])
  {
    assert ConsumerOk(s, s.consumers[t]);
    var s', stop, n := Empty(s, t, i, end, h, slot, block), i + Portion(s.blockSize, i, end), NumberOf(s.blockSize, i);
    if stop < end {
      NextStop(s.blockSize, i, end);
      assert NumberOf(s.blockSize, stop) == n + 1;
      SlotFrom(n, 1, s.headers[h].shift, |s.headers[h].entries|);
      assert Slot(slot, 1, |s.headers[h].entries|) == (slot + 1) % |s.headers[h].entries|;
      hide Global, ClaimsOk, Slot, Base, NumberOf, EntryIs, Portion, Offsets, Blocks;
      assert s'.consumers[t] == Find(stop, end, h, (slot + 1) % |s.headers[h].entries|);
    }
  }

  lemma EmptyClaims(s: State, t: nat, i: nat, end: nat, h: nat, slot: nat, block: nat)
    requires Inv(s) && t < |s.consumers| && s.consumers[t] == Use(i, end, h, slot, block)
    requires Holds(s, h, slot) && block < |s.empty| && i < end
    ensures ClaimsOk(Empty(s, t, i, end, h, slot, block))
  {
    var s' := Empty(s, t, i, end, h, slot, block);
    hide Global, ConsumerOk;
    assert ClaimOk(s, s.consumers[t]);
    forall u | 0 <= u < |s'.consumers| ensures ClaimOk(s', s'.consumers[u]) {
      assert ClaimOk(s, s.consumers[u]);
      if u != t {
        assert Apart(s.consumers[if t < u then t else u], s.consumers[if t < u then u else t]);
      }
    }
    forall u, v | 0 <= u < v < |s'.consumers| ensures Apart(s'.consumers[u], s'.consumers[v]) {
      assert Apart(s.consumers[u], s.consumers[v]);
    }
  }

  lemma UseFacts(s: State, t: nat, i: nat, end: nat, h: nat, slot: nat, block: nat)
    requires Inv(s) && t < |s.consumers| && s.consumers[t] == Use(i, end, h, slot, block)
    ensures s.blockSize > 0 && Holds(s, h, slot) && block < |s.empty| && i < end <= s.head <= s.tail
    ensures Oldest(s) <= NumberOf(s.blockSize, i) < Published(s) <= |s.given| && block == s.given[NumberOf(s.blockSize, i)]
  {
    assert ConsumerOk(s, s.consumers[t]) && ClaimOk(s, s.consumers[t]);
    SlotBelow(NumberOf(s.blockSize, i), s.headers[h].shift, |s.headers[h].entries|);
    FirstInWindow(s, i, end);
    assert s.ring[NumberOf(s.blockSize, i) - Oldest(s)] == block;
  }

  lemma UseInv(s: State, t: nat, i: nat, end: nat, h: nat, slot: nat, block: nat)
    requires Inv(s) && t < |s.consumers| && s.consumers[t] == Use(i, end, h, slot, block)
    ensures s.blockSize > 0 && Holds(s, h, slot) && block < |s.empty| && i < end
    ensures Inv(Empty(s, t, i, end, h, slot, block))
  {
    UseFacts(s, t, i, end, h, slot, block);
    EmptyGlobal(s, t, i, end, h, slot, block);
    NextBlock(s, t, i, end, h, slot, block);
    EmptyClaims(s, t, i, end, h, slot, block);
    var s' := Empty(s, t, i, end, h, slot, block);
    hide Global, ClaimsOk, Slot, Base, NumberOf, EntryIs, Reach, AtTop, Portion, Offsets;
    forall u | 0 <= u < |s'.consumers| ensures ConsumerOk(s', s'.consumers[u]) {
      if u != t {
        assert ConsumerOk(s, s.consumers[u]);
      }
    }
  }

  lemma ConsumerInv(s: State, s': State, t: nat)
    requires Inv(s) && t < |s.consumers| && ConsumerStep(s, t, s')
    ensures Inv(s')
  {
    hide Inv;
    match s.consumers[t]
    case Idle =>
      var count: nat :| 0 < count <= s.tail - s.head && s' == Claim(s, t, count);
      ClaimInv(s, t, count);
    case LoadIndex(i, end) => LoadIndexInv(s, t, i, end);
    case LoadFront(i, end, h) => LoadFrontInv(s, t, i, end, h);
    case LoadBase(i, end, h, front, top) => LoadBaseInv(s, t, i, end, h, front, top);
    case Find(i, end, h, slot) => FindInv(s, t, i, end, h, slot);
    case Use(i, end, h, slot, block) => UseInv(s, t, i, end, h, slot, block);
  }

  lemma NextInv(s: State, s': State)
    requires Inv(s) && Next(s, s')
    ensures Inv(s')
  {
    hide Inv;
    if ProducerStep(s, s') {
      ProducerInv(s, s');
    } else {
      var t: nat :| t < |s.consumers| && ConsumerStep(s, t, s');
      ConsumerInv(s, s', t);
    }
  }

  lemma Always(run: seq<State>, k: nat)
    requires Runs.IsRun(Init, Next, run) && k < |run|
    ensures Inv(run[k])
  {
    hide Inv;
    forall s | Init(s) ensures Inv(s) { InitInv(s); }
    forall s, s' | Inv(s) && Next(s, s') ensures Inv(s') { NextInv(s, s'); }
    Runs.InvariantOnRun(Init, Next, Inv, run, k);
  }

  // ---------- What it means ----------

  /** A consumer that has found a block for one of its indices has found the block that the producer gave
      that index, whichever index header it held, and that block has not been given another number. */
  lemma FindsTheRightBlock(run: seq<State>, k: nat, t: nat)
    requires Runs.IsRun(Init, Next, run) && k < |run| && t < |run[k].consumers| && run[k].consumers[t].Use?
    ensures var s, c := run[k], run[k].consumers[t];
            && s.blockSize > 0 && NumberOf(s.blockSize, c.index) < |s.given|
            && c.block == s.given[NumberOf(s.blockSize, c.index)]
            && forall m :: NumberOf(s.blockSize, c.index) < m < |s.given| ==> s.given[m] != c.block
  {
    Always(run, k);
    var s, c := run[k], run[k].consumers[t];
    UseFacts(s, t, c.index, c.end, c.header, c.slot, c.block);
    var n := NumberOf(s.blockSize, c.index);
    hide Slot, Blocks, Base, NumberOf, IndexOk, ConsumerOk, ClaimsOk, FlagsOk, JobOk, TailOk;
    forall m | n < m < |s.given| ensures s.given[m] != c.block {
      assert s.ring[m - Oldest(s)] == s.given[m] && s.ring[n - Oldest(s)] == s.given[n];
    }
  }

  /** The entry a consumer is about to read is there, with the base and the block of its index. */
  lemma ReadsTheRightEntry(run: seq<State>, k: nat, t: nat)
    requires Runs.IsRun(Init, Next, run) && k < |run| && t < |run[k].consumers| && run[k].consumers[t].Find?
    ensures var s, c := run[k], run[k].consumers[t];
            && s.blockSize > 0 && Holds(s, c.header, c.slot) && NumberOf(s.blockSize, c.index) < |s.given|
            && s.headers[c.header].entries[c.slot]
               == Entry(Base(s.blockSize, NumberOf(s.blockSize, c.index)), s.given[NumberOf(s.blockSize, c.index)])
  {
    Always(run, k);
    var s, c := run[k], run[k].consumers[t];
    FindInv(s, t, c.index, c.end, c.header, c.slot);
    SameClaim(s, s, t);
    NumberBounds(s.blockSize, c.index);
    assert ConsumerOk(s, c);
    assert EntryIs(s.blockSize, s.given, s.headers[c.header], NumberOf(s.blockSize, c.index));
  }

  /** A block is reused only when all its elements, the last enqueued one included, are gone. */
  lemma ReusesOnlyEmptyBlocks(run: seq<State>, k: nat, job: Job, i: nat)
    requires Runs.IsRun(Init, Next, run) && k < |run|
    requires run[k].producer == TakeBlock(job) && CanReuse(run[k], job) && run[k].blockSize > 0
    requires |run[k].ring| <= |run[k].given| && NumberOf(run[k].blockSize, i) == Oldest(run[k])
    ensures i in run[k].done
  {
    Always(run, k);
    ReuseWindow(run[k], job);
  }

  /** No step is blocked by its guard: headers and slots that a thread is about to use exist. */
  lemma NoStepIsBlocked(run: seq<State>, k: nat, t: nat)
    requires Runs.IsRun(Init, Next, run) && k < |run| && t < |run[k].consumers|
    ensures var s, c := run[k], run[k].consumers[t];
            && s.blockSize > 0 && |s.headers| > 0 && s.front < |Current(s).entries|
            && (c.LoadFront? ==> c.header < |s.headers| && 0 <= s.headers[c.header].front && 0 <= s.headers[c.header].top)
            && (c.LoadBase? ==> Holds(s, c.header, c.front))
            && (c.Find? ==> Holds(s, c.header, c.slot))
            && (c.Use? ==> Holds(s, c.header, c.slot) && c.block < |s.empty| && c.index < c.end)
  {
    Always(run, k);
    var s, c := run[k], run[k].consumers[t];
    FrontInIndex(s);
    hide Inv;
    match c
    case LoadFront(i, end, h) => LoadFrontInv(s, t, i, end, h);
    case LoadBase(i, end, h, front, top) => LoadBaseInv(s, t, i, end, h, front, top);
    case Find(i, end, h, slot) => FindInv(s, t, i, end, h, slot);
    case Use(i, end, h, slot, block) => UseInv(s, t, i, end, h, slot, block);
    case _ =>
  }

  // ---------- No claim is dropped ----------

  predicate Has(c: Consumer, i: nat) {
    !c.Idle? && c.index <= i < c.end
  }

  ghost predicate InHand(consumers: seq<Consumer>, i: nat) {
    exists t :: 0 <= t < |consumers| && Has(consumers[t], i)
  }

  /** Every claimed index is gone, or some consumer still has to empty it. */
  ghost predicate ClaimsKept(s: State) {
    forall i: nat {:trigger i in s.done} :: i < s.head && i !in s.done ==> InHand(s.consumers, i)
  }

  /** A consumer's step takes an index out of its hands only when it empties it. */
  lemma KeepsItsClaim(s: State, s': State, t: nat)
    requires Inv(s) && t < |s.consumers| && ConsumerStep(s, t, s')
    ensures |s'.consumers| == |s.consumers| && s'.consumers == s.consumers[t := s'.consumers[t]]
    ensures s.done <= s'.done && s.head <= s'.head
    ensures forall i: nat :: s.head <= i < s'.head ==> Has(s'.consumers[t], i)
    ensures forall i: nat {:trigger Has(s.consumers[t], i)} :: Has(s.consumers[t], i) ==> i in s'.done || Has(s'.consumers[t], i)
  {
    if s.consumers[t].Use? {
      var c := s.consumers[t];
      UseFacts(s, t, c.index, c.end, c.header, c.slot, c.block);
      PortionInBlock(s.blockSize, c.index, c.end);
    }
    hide Inv, Portion, Slot, NumberOf;
  }

  lemma ConsumerKeeps(s: State, s': State, t: nat)
    requires Inv(s) && ClaimsKept(s) && t < |s.consumers| && ConsumerStep(s, t, s')
    ensures ClaimsKept(s')
  {
    KeepsItsClaim(s, s', t);
    hide Inv, ConsumerStep, Has;
    forall i: nat | i < s'.head && i !in s'.done ensures InHand(s'.consumers, i) {
      if i >= s.head {
        assert Has(s'.consumers[t], i);
      } else {
        assert i !in s.done;
        var u :| 0 <= u < |s.consumers| && Has(s.consumers[u], i);
        assert Has(s'.consumers[u], i);
      }
    }
  }

  lemma ProducerKeeps(s: State, s': State)
    requires ClaimsKept(s) && ProducerStep(s, s')
    ensures ClaimsKept(s')
  {
    assert s'.head == s.head && s'.done == s.done && s'.consumers == s.consumers by { hide ClaimsKept, Blocks, Slot; }
    hide ProducerStep;
  }

  lemma KeptNext(s: State, s': State)
    requires Inv(s) && ClaimsKept(s) && Next(s, s')
    ensures ClaimsKept(s')
  {
    hide Inv, ClaimsKept, ProducerStep, ConsumerStep;
    if ProducerStep(s, s') {
      ProducerKeeps(s, s');
    } else {
      var t: nat :| t < |s.consumers| && ConsumerStep(s, t, s');
      ConsumerKeeps(s, s', t);
    }
  }

  lemma {:induction false} AlwaysKept(run: seq<State>, k: nat)
    requires Runs.IsRun(Init, Next, run) && k < |run|
    ensures ClaimsKept(run[k])
  {
    hide Inv, ClaimsKept, Next, Init;
    if k == 0 {
      StartsKept(run[0]);
    } else {
      AlwaysKept(run, k - 1);
      Always(run, k - 1);
      assert Next(run[k - 1], run[k - 1 + 1]);
      KeptNext(run[k - 1], run[k]);
    }
  }

  lemma StartsKept(s: State)
    requires Init(s)
    ensures ClaimsKept(s)
  {
  }

  /** No claimed index is forgotten: what has been claimed is gone or in the hands of a consumer, so when all consumers
      are idle, exactly the indices below the head are gone. */
  lemma ClaimedAreEmptied(run: seq<State>, k: nat)
    requires Runs.IsRun(Init, Next, run) && k < |run|
    ensures forall i: nat :: i < run[k].head && i !in run[k].done ==> InHand(run[k].consumers, i)
    ensures (forall t :: 0 <= t < |run[k].consumers| ==> run[k].consumers[t] == Idle) ==>
              forall i: nat :: i in run[k].done <==> i < run[k].head
  {
    AlwaysKept(run, k);
    Always(run, k);
    DoneIsClaimed(run[k]);
    hide Inv;
  }

  lemma DoneIsClaimed(s: State)
    requires Inv(s)
    ensures forall i :: i in s.done ==> i < s.head
  {
  }

  // ---------- The sizes of the indices ----------

  /** Each index is twice as large as the one before, and none but the first larger than the blocks demand. */
  ghost predicate SizesOk(s: State) {
    && |s.headers| > 0
    && (forall h :: 0 < h < |s.headers| ==> |s.headers[h].entries| == 2 * |s.headers[h - 1].entries|)
    && (|s.headers| > 1 ==> |Current(s).entries| <= 2 * |s.empty|)
  }

  /** The ring has no more blocks than there are. */
  lemma RingIsWithin(s: State)
    requires RingOk(s)
    ensures |s.ring| <= |s.empty|
  {
    var all := Counting.ElementsOf(s.ring);
    CountOffsets(0, |s.empty|);
    Counting.SubsetSize(all, Offsets(0, |s.empty|));
  }

  lemma ProducerSizes(s: State, s': State)
    requires RingOk(s) && SizesOk(s) && ProducerStep(s, s')
    ensures SizesOk(s')
  {
    RingIsWithin(s);
    hide RingOk, Slot, Blocks, Offsets;
  }

  lemma SizesNext(s: State, s': State)
    requires Inv(s) && SizesOk(s) && Next(s, s')
    ensures SizesOk(s')
  {
    assert RingOk(s);
    hide Inv, ProducerStep, ConsumerStep, RingOk, SizesOk;
    if ProducerStep(s, s') {
      ProducerSizes(s, s');
    } else {
      var t: nat :| t < |s.consumers| && ConsumerStep(s, t, s');
      ConsumerSizes(s, s', t);
    }
  }

  lemma ConsumerSizes(s: State, s': State, t: nat)
    requires SizesOk(s) && t < |s.consumers| && ConsumerStep(s, t, s')
    ensures SizesOk(s')
  {
    hide Portion, Slot, NumberOf, Offsets;
  }

  lemma {:induction false} SizesAlways(run: seq<State>, k: nat)
    requires Runs.IsRun(Init, Next, run) && k < |run|
    ensures SizesOk(run[k])
  {
    hide Inv, Next, SizesOk, Init;
    if k == 0 {
      SizesAtFirst(run[0]);
    } else {
      SizesAlways(run, k - 1);
      Always(run, k - 1);
      assert Next(run[k - 1], run[k - 1 + 1]);
      SizesNext(run[k - 1], run[k]);
    }
  }

  lemma SizesAtFirst(s: State)
    requires Init(s)
    ensures SizesOk(s)
  {
  }

  /** The index doubles when it is full, and only then: each is twice as large as the one before, and the current one, if
      it is not the first, has at most twice as many entries as blocks were ever needed. */
  lemma IndexIsNoLargerThanNeeded(run: seq<State>, k: nat, h: nat)
    requires Runs.IsRun(Init, Next, run) && k < |run| && 0 < h < |run[k].headers|
    ensures |run[k].headers[h].entries| == 2 * |run[k].headers[h - 1].entries|
    ensures |Current(run[k]).entries| <= 2 * |run[k].empty|
  {
    SizesAlways(run, k);
    hide Runs.IsRun, Init, Next;
  }

  // ---------- Calls end ----------

  /** How many steps at most the running enqueue has left. */
  function StepsToPublish(s: State): nat
    requires |s.headers| > 0
  {
    match s.producer
    case Ready => 0
    case SetTail(_) => 1
    case SetFront(_) => 2
    case TakeBlock(job) => 4 * job.needed + if job.needed > 0 && |s.ring| == |Current(s).entries| then 4 else 3
    case WriteBase(job, _) => 4 * job.needed + 2
    case WriteBlock(job, _) => 4 * job.needed + 1
  }

  lemma ProducerProgress(s: State, s': State)
    requires Global(s) && s.producer != Ready && ProducerStep(s, s')
    ensures |s'.headers| > 0 && StepsToPublish(s') < StepsToPublish(s)
  {
    assert InRing(s) <= |Current(s).entries| && (Writing(s.producer) ==> s.producer.job.needed > 0);
    hide Global, Slot, Blocks, NumberOf, Base, Offsets;
  }

  lemma ProducerCanStep(s: State) returns (s': State)
    requires Global(s) && s.producer != Ready
    ensures ProducerStep(s, s')
  {
    FrontInIndex(s);
    assert s.blockSize > 0 && |s.headers| > 0;
    hide Global, Slot, Blocks, NumberOf, Base, Offsets;
    match s.producer
    case TakeBlock(job) =>
      s' := if job.needed == 0 then ResetTaken(s, job)
            else if |s.ring| == |Current(s).entries| then Grow(s, job) else Requisition(s, job);
    case WriteBase(job, block) => s' := PutBase(s, job, block);
    case WriteBlock(job, block) => s' := PutBlock(s, job, block);
    case SetFront(job) => s' := PublishFront(s, job);
    case SetTail(job) => s' := s.(tail := job.newTail, producer := Ready);
  }

  /** An enqueue never waits for a consumer: the producer always has a step to take, and each takes it nearer to the
      end of the call, whichever blocks it finds empty. */
  lemma EnqueueEnds(run: seq<State>, k: nat)
    requires Runs.IsRun(Init, Next, run) && k < |run| && run[k].producer != Ready
    ensures exists s' :: ProducerStep(run[k], s')
    ensures |run[k].headers| > 0
    ensures forall s' :: ProducerStep(run[k], s') ==> |s'.headers| > 0 && StepsToPublish(s') < StepsToPublish(run[k])
    ensures forall s', t: nat :: t < |run[k].consumers| && ConsumerStep(run[k], t, s') ==>
              |s'.headers| > 0 && StepsToPublish(s') == StepsToPublish(run[k])
  {
    Always(run, k);
    var s := run[k];
    var to := ProducerCanStep(s);
    hide ProducerStep, ConsumerStep;
    forall s' | ProducerStep(s, s') ensures |s'.headers| > 0 && StepsToPublish(s') < StepsToPublish(s) {
      ProducerProgress(s, s');
    }
    hide Inv;
    forall s', t: nat | t < |s.consumers| && ConsumerStep(s, t, s')
      ensures |s'.headers| > 0 && StepsToPublish(s') == StepsToPublish(s)
    {
      ConsumerLeavesProducer(s, s', t);
    }
  }

  lemma ConsumerLeavesProducer(s: State, s': State, t: nat)
    requires t < |s.consumers| && ConsumerStep(s, t, s')
    ensures s'.producer == s.producer && s'.ring == s.ring && s'.headers == s.headers && |s.headers| > 0
  {
    hide Portion, Slot, NumberOf, Offsets;
  }

  /** How many steps at most a consumer has left. */
  function StepsToEmpty(c: Consumer): nat {
    match c
    case Idle => 0
    case LoadIndex(i, end) => if i < end then 2 * (end - i) + 3 else 3
    case LoadFront(i, end, _) => if i < end then 2 * (end - i) + 2 else 2
    case LoadBase(i, end, _, _, _) => if i < end then 2 * (end - i) + 1 else 1
    case Find(i, end, _, _) => if i < end then 2 * (end - i) else 0
    case Use(i, end, _, _, _) => if i < end then 2 * (end - i) - 1 else 0
  }

  lemma ConsumerProgress(s: State, s': State, t: nat)
    requires Inv(s) && t < |s.consumers| && s.consumers[t] != Idle && ConsumerStep(s, t, s')
    ensures t < |s'.consumers| && StepsToEmpty(s'.consumers[t]) < StepsToEmpty(s.consumers[t])
  {
    var c := s.consumers[t];
    assert ClaimOk(s, c);
    PortionInBlock(s.blockSize, c.index, c.end);
    hide Inv, Portion, Slot, NumberOf;
  }

  /** Nor does a dequeue wait for anybody: a consumer with a claim always has a step to take, and each takes it nearer
      to the end. */
  lemma DequeueEnds(run: seq<State>, k: nat, t: nat)
    requires Runs.IsRun(Init, Next, run) && k < |run| && t < |run[k].consumers| && run[k].consumers[t] != Idle
    ensures exists s' :: ConsumerStep(run[k], t, s')
    ensures forall s' :: ConsumerStep(run[k], t, s') ==>
              t < |s'.consumers| && StepsToEmpty(s'.consumers[t]) < StepsToEmpty(run[k].consumers[t])
  {
    Always(run, k);
    NoStepIsBlocked(run, k, t);
    var s' := ConsumerCanStep(run[k], t);
    hide ConsumerStep, Inv;
    forall s' | ConsumerStep(run[k], t, s')
      ensures t < |s'.consumers| && StepsToEmpty(s'.consumers[t]) < StepsToEmpty(run[k].consumers[t])
    {
      ConsumerProgress(run[k], s', t);
    }
  }

  lemma ConsumerCanStep(s: State, t: nat) returns (s': State)
    requires s.blockSize > 0 && |s.headers| > 0 && t < |s.consumers| && s.consumers[t] != Idle
    requires var c := s.consumers[t];
      && (c.LoadFront? ==> c.header < |s.headers| && 0 <= s.headers[c.header].front && 0 <= s.headers[c.header].top)
      && (c.LoadBase? ==> Holds(s, c.header, c.front))
      && (c.Find? ==> Holds(s, c.header, c.slot))
      && (c.Use? ==> Holds(s, c.header, c.slot) && c.block < |s.empty| && c.index < c.end)
    ensures ConsumerStep(s, t, s')
  {
    hide Portion, Slot, NumberOf, Offsets;
    match s.consumers[t]
    case LoadIndex(i, end) => s' := Goto(s, t, LoadFront(i, end, |s.headers| - 1));
    case LoadFront(i, end, h) => s' := Goto(s, t, LoadBase(i, end, h, s.headers[h].front, s.headers[h].top));
    case LoadBase(i, end, h, front, _) =>
      var entries := s.headers[h].entries;
      s' := Goto(s, t, Find(i, end, h, Slot(front, i / s.blockSize - entries[front].base / s.blockSize, |entries|)));
    case Find(i, end, h, slot) => s' := Goto(s, t, Use(i, end, h, slot, s.headers[h].entries[slot].block));
    case Use(i, end, h, slot, block) => s' := Empty(s, t, i, end, h, slot, block);
  }

  /** The block ahead can be reused exactly when all the indices it was given for are gone: then the call takes it,
      and no new one. */
  lemma ReusesTheEmptyBlock(run: seq<State>, k: nat, job: Job)
    requires Runs.IsRun(Init, Next, run) && k < |run|
    requires run[k].producer == TakeBlock(job) && job.needed > 0 && run[k].ring != [] && run[k].blockSize > 0
    ensures var s := run[k];
      CanReuse(s, job) <==>
        Oldest(s) < Published(s) && forall i: nat :: NumberOf(s.blockSize, i) == Oldest(s) ==> i in s.done
    ensures CanReuse(run[k], job) ==> ProducerStep(run[k], Reuse(run[k], job))
  {
    Always(run, k);
    var s := run[k];
    if CanReuse(s, job) {
      ReuseWindow(s, job);
      FrontInIndex(s);
    }
    if Oldest(s) < Published(s) && forall i: nat :: NumberOf(s.blockSize, i) == Oldest(s) ==> i in s.done {
      GoneCanBeReused(s, job);
    }
  }

  lemma GoneCanBeReused(s: State, job: Job)
    requires Global(s) && s.producer == TakeBlock(job) && s.ring != [] && Oldest(s) < Published(s)
    requires forall i: nat :: NumberOf(s.blockSize, i) == Oldest(s) ==> i in s.done
    ensures CanReuse(s, job)
  {
    var k := Oldest(s);
    assert s.ring[0] == s.given[k];
    assert FlagsOf(s.blockSize, s.empty[s.given[k]], s.done, k);
    forall o: nat | o < s.blockSize ensures o in s.empty[s.given[k]] {
      Arithmetic.ModUnique(k, o, s.blockSize);
      assert NumberOf(s.blockSize, Base(s.blockSize, k) + o) == k;
    }
    if |s.given| > Published(s) {
      assert s.ring[Published(s) - k] == s.given[Published(s)];
    }
  }
}
