/** How an implicit producer's elements are found (concurrentqueue.h: ImplicitProducer). Its circular index
    has a key and a block per entry; a block goes back to the free list, and its entry becomes free, as
    soon as its last element is gone, whatever the order; and an enqueue that cannot get all the blocks
    it needs takes back what it has done. One access to shared memory per step. Entries are shared by
    old and new indices. Keys are multiples of the block size; here they are block numbers. */
module ImplicitBlockIndex {
  import opened BlockNumbers
  import Arithmetic
  import Counting
  import Runs

  /** A fresh entry has the invalid key and no value at all yet. */
  datatype Key = Invalid | Number(n: int)
  datatype Value = Garbage | Null | Block(block: nat)
  datatype Entry = Entry(key: Key, value: Value)

  /** BlockIndexHeader; `index` points to entries. `shift` and `at` record where entries are: number n is
      in slot (n + shift) % capacity, and `tail` is the slot of number `at`. */
  datatype Header = Header(index: seq<nat>, tail: nat, shift: int, at: int)

  /** What an enqueue still has to do: the blocks it needs, and the tail to publish. */
  datatype Job = Job(needed: nat, newTail: nat)

  datatype Producer =
    | Ready
    | Insert(job: Job)
    | WriteKey(job: Job)
    | MoveTail(job: Job)
    | TakeBlock(job: Job)
    | WriteValue(job: Job, block: nat)
    | Rewind
    | ClearEntry
    | Undo(k: nat, last: int, back: set<nat>)
    | UndoTail(k: nat, last: int, back: set<nat>)
    | GiveBack(back: set<nat>)
    | Publish(job: Job)

  /** A consumer has claimed the indices from `index` to `end`, and holds an index header. */
  datatype Consumer =
    | Idle
    | LoadHeader(index: nat, end: nat)
    | LoadTail(index: nat, end: nat, header: nat)
    | LoadKey(index: nat, end: nat, header: nat, tail: nat, at: int)
    | Find(index: nat, end: nat, header: nat, slot: nat)
    | Use(index: nat, end: nat, header: nat, slot: nat, block: nat)
    | Release(index: nat, end: nat, header: nat, slot: nat, block: nat, n: nat)
    | Return(index: nat, end: nat, header: nat, slot: nat, block: nat)

  /** `gone` counts each block's elements that are gone (elementsCompletelyDequeued). The rest is history:
      the abstract map from block numbers to blocks, the blocks that are this producer's, those that consumers
      are about to give back to the free list, the highest number that ever got a key, and the indices that
      are empty. Blocks that are neither are in the free list or another producer's. */
  datatype State = State(
    blockSize: nat, tail: nat, head: nat,
    headers: seq<Header>, entries: seq<Entry>, gone: map<nat, nat>,
    producer: Producer, consumers: seq<Consumer>,
    given: map<nat, nat>, mine: set<nat>, leaving: set<nat>, hi: int, done: set<nat>)

  function Current(s: State): Header
    requires |s.headers| > 0
  {
    s.headers[|s.headers| - 1]
  }

  /** The entry that an index has for number k. */
  function EntryOf(h: Header, k: int): nat
    requires |h.index| > 0
  {
    h.index[Slot(k, h.shift, |h.index|)]
  }

  function SetCurrent(s: State, h: Header): State
    requires |s.headers| > 0
  {
    s.(headers := s.headers[|s.headers| - 1 := h])
  }

  // ---------- The producer's steps ----------

  ghost predicate Init(s: State) {
    && s.blockSize > 0 && s.tail == s.head == 0 && |s.headers| == 1
    && |s.entries| > 0 && (forall e :: 0 <= e < |s.entries| ==> s.entries[e].key == Invalid)
    && s.headers[0] == Header(seq(|s.entries|, j => j), |s.entries| - 1, 0, -1)
    && s.producer == Ready && s.given == map[] && s.mine == s.leaving == {} && s.hi == -1 && s.done == {}
    && forall t :: 0 <= t < |s.consumers| ==> s.consumers[t] == Idle
  }

  function Enqueue(s: State, count: nat): State
    requires s.blockSize > 0
  {
    var needed := Blocks(s.blockSize, s.tail + count) - Blocks(s.blockSize, s.tail);
    var job := Job(if needed > 0 then needed else 0, s.tail + count);
    s.(producer := if job.needed > 0 then Insert(job) else Publish(job))
  }

  predicate EntryIsFree(e: Entry) { e.key == Invalid || e.value == Null }

  /** new_block_index: the old entries, oldest first, and as many new ones. */
  function Grow(s: State): State
    requires |s.headers| > 0 && |Current(s).index| > 0
  {
    var h, capacity := Current(s), |Current(s).index|;
    var index := seq(2 * capacity, j requires 0 <= j =>
                       if j < capacity then h.index[Slot(h.tail, 1 + j, capacity)] else |s.entries| + j - capacity);
    s.(headers := s.headers + [Header(index, capacity - 1, capacity - 1 - h.at, h.at)],
       entries := s.entries + seq(capacity, _ => Entry(Invalid, Garbage)))
  }

  function PutEntry(s: State, e: nat, entry: Entry): State
    requires e < |s.entries|
  {
    s.(entries := s.entries[e := entry])
  }

  /** The index tail moves to number `at`. */
  function SetTail(s: State, at: int): State
    requires |s.headers| > 0 && |Current(s).index| > 0
  {
    var h := Current(s);
    SetCurrent(s, h.(tail := Slot(h.tail, at - h.at, |h.index|), at := at))
  }

  function Max(a: int, b: int): int { if a < b then b else a }

  /** The entry for number k, found by way of the tail's key. */
  function Located(s: State, k: nat): nat
    requires |s.headers| > 0 && Current(s).tail < |Current(s).index| && Current(s).index[Current(s).tail] < |s.entries|
  {
    var h := Current(s);
    var key := s.entries[h.index[h.tail]].key;
    h.index[Slot(h.tail, if key.Number? then k - key.n else 0, |h.index|)]
  }

  ghost predicate InsertStep(s: State, job: Job, s': State)
    requires |s.headers| > 0 && |Current(s).index| > 0
  {
    var e := EntryOf(Current(s), Current(s).at + 1);
    || (e < |s.entries|
        && s' == if EntryIsFree(s.entries[e]) then s.(producer := WriteKey(job)) else Grow(s))
    || (s.blockSize > 0 && s' == s.(producer := Undo(Blocks(s.blockSize, s.tail), Current(s).at, {})))
  }

  function PutKey(s: State, job: Job, e: nat): State
    requires |s.headers| > 0 && e < |s.entries|
  {
    var at := Current(s).at + 1;
    PutEntry(s, e, s.entries[e].(key := Number(at))).(hi := Max(s.hi, at), producer := MoveTail(job))
  }

  function PutValue(s: State, job: Job, block: nat, e: nat): State
    requires |s.headers| > 0 && e < |s.entries| && Current(s).at >= 0
  {
    var job' := job.(needed := if job.needed > 0 then job.needed - 1 else 0);
    PutEntry(s, e, s.entries[e].(value := Block(block))).(
      given := s.given[Current(s).at := block],
      producer := if job'.needed > 0 then Insert(job') else Publish(job'))
  }

  function UndoOne(s: State, k: nat, last: int, back: set<nat>, e: nat): State
    requires e < |s.entries|
  {
    PutEntry(s, e, s.entries[e].(value := Null)).(
      given := s.given - {k},
      producer := UndoTail(k, last, if k in s.given then back + {s.given[k]} else back))
  }

  ghost predicate ProducerStep(s: State, s': State) {
    && s.blockSize > 0 && |s.headers| > 0 && Current(s).tail < |Current(s).index|
    && Current(s).index[Current(s).tail] < |s.entries|
    && var h := Current(s);
       var mine, next := EntryOf(h, h.at), EntryOf(h, h.at + 1);
       match s.producer
       case Ready => exists count :: s' == Enqueue(s, count)
       case Insert(job) => InsertStep(s, job, s')
       case WriteKey(job) => next < |s.entries| && s' == PutKey(s, job, next)
       case MoveTail(job) => s' == SetTail(s, h.at + 1).(producer := TakeBlock(job))
       case TakeBlock(job) =>
         || s' == s.(producer := Rewind)
         || exists block: nat :: block !in s.mine && block !in s.leaving
              && s' == s.(mine := s.mine + {block}, gone := s.gone[block := 0], producer := WriteValue(job, block))
       case WriteValue(job, block) => mine < |s.entries| && h.at >= 0 && s' == PutValue(s, job, block, mine)
       case Rewind => s' == SetTail(s, h.at - 1).(producer := ClearEntry)
       case ClearEntry =>
         next < |s.entries|
         && s' == PutEntry(s, next, s.entries[next].(value := Null)).(
                    producer := Undo(Blocks(s.blockSize, s.tail), h.at, {}))
       case Undo(k, last, back) =>
         if k <= last then Located(s, k) < |s.entries| && s' == UndoOne(s, k, last, back, Located(s, k))
         else s' == s.(producer := GiveBack(back))
       case UndoTail(k, last, back) => s' == SetTail(s, h.at - 1).(producer := Undo(k + 1, last, back))
       case GiveBack(back) =>
         if back == {} then s' == s.(producer := Ready)
         else exists b :: b in back && s' == s.(mine := s.mine - {b}, producer := GiveBack(back - {b}))
       case Publish(job) => s' == s.(tail := job.newTail, producer := Ready)
  }

  // ---------- The consumers' steps ----------

  function Goto(s: State, t: nat, c: Consumer): State
    requires t < |s.consumers|
  {
    s.(consumers := s.consumers[t := c])
  }

  predicate Holds(s: State, header: nat, slot: nat) {
    header < |s.headers| && slot < |s.headers[header].index| && s.headers[header].index[slot] < |s.entries|
  }

  function At(s: State, header: nat, slot: nat): Entry
    requires Holds(s, header, slot)
  {
    s.entries[s.headers[header].index[slot]]
  }

  function Claim(s: State, t: nat, count: nat): State
    requires t < |s.consumers|
  {
    Goto(s, t, LoadHeader(s.head, s.head + count)).(head := s.head + count)
  }

  /** On to the next block, if there is more to take. */
  function Onward(i: nat, end: nat, header: nat, slot: nat, capacity: nat): Consumer
    requires capacity > 0
  {
    if i < end then Find(i, end, header, (slot + 1) % capacity) else Idle
  }

  /** The elements of one block are taken out; whoever takes the last one releases the block. */
  function Empty(s: State, t: nat, i: nat, end: nat, h: nat, slot: nat, block: nat): State
    requires t < |s.consumers| && s.blockSize > 0 && Holds(s, h, slot) && block in s.gone && i <= end
  {
    var stop := i + Portion(s.blockSize, i, end);
    var count := s.gone[block] + (stop - i);
    Goto(s, t, if count == s.blockSize then Release(stop, end, h, slot, block, NumberOf(s.blockSize, i))
               else Onward(stop, end, h, slot, |s.headers[h].index|)).(
      gone := s.gone[block := count], done := s.done + Offsets(i, stop))
  }

  /** The entry becomes free; the block is in the consumer's hands. */
  function Free(s: State, t: nat, i: nat, end: nat, h: nat, slot: nat, block: nat, n: nat): State
    requires t < |s.consumers| && Holds(s, h, slot)
  {
    Goto(PutEntry(s, s.headers[h].index[slot], At(s, h, slot).(value := Null)), t,
         Return(i, end, h, (slot + 1) % |s.headers[h].index|, block)).(
      given := s.given - {n}, mine := s.mine - {block}, leaving := s.leaving + {block})
  }

  /** The block goes to the free list. */
  function GivenBack(s: State, t: nat, i: nat, end: nat, h: nat, slot: nat, block: nat): State
    requires t < |s.consumers|
  {
    Goto(s, t, if i < end then Find(i, end, h, slot) else Idle).(leaving := s.leaving - {block})
  }

  ghost predicate ConsumerStep(s: State, t: nat, s': State)
    requires t < |s.consumers|
  {
    s.blockSize > 0 && |s.headers| > 0 &&
    match s.consumers[t]
    case Idle => exists count: nat :: 0 < count <= s.tail - s.head && s' == Claim(s, t, count)
    case LoadHeader(i, end) => s' == Goto(s, t, LoadTail(i, end, |s.headers| - 1))
    case LoadTail(i, end, h) =>
      h < |s.headers| && s' == Goto(s, t, LoadKey(i, end, h, s.headers[h].tail, s.headers[h].at))
    case LoadKey(i, end, h, tail, _) =>
      Holds(s, h, tail) && At(s, h, tail).key.Number?
      && s' == Goto(s, t, Find(i, end, h, Slot(tail, NumberOf(s.blockSize, i) - At(s, h, tail).key.n, |s.headers[h].index|)))
    case Find(i, end, h, slot) =>
      Holds(s, h, slot) && At(s, h, slot).value.Block? && s' == Goto(s, t, Use(i, end, h, slot, At(s, h, slot).value.block))
    case Use(i, end, h, slot, block) =>
      Holds(s, h, slot) && block in s.gone && i <= end && s' == Empty(s, t, i, end, h, slot, block)
    case Release(i, end, h, slot, block, n) => Holds(s, h, slot) && s' == Free(s, t, i, end, h, slot, block, n)
    case Return(i, end, h, slot, block) => s' == GivenBack(s, t, i, end, h, slot, block)
  }

  ghost predicate Next(s: State, s': State) {
    || ProducerStep(s, s')
    || exists t: nat :: t < |s.consumers| && ConsumerStep(s, t, s')
  }

  // ---------- The invariant ----------

  function Published(s: State): nat
    requires s.blockSize > 0
  {
    Blocks(s.blockSize, s.tail)
  }

  /** The numbers that the running enqueue holds blocks for are those from First to Last. */
  function First(s: State): nat
    requires s.blockSize > 0
  {
    match s.producer
    case Undo(k, _, _) => k
    case UndoTail(k, _, _) => k + 1
    case _ => Published(s)
  }

  function Last(s: State): int
    requires |s.headers| > 0
  {
    match s.producer
    case TakeBlock(_) => Current(s).at - 1
    case WriteValue(_, _) => Current(s).at - 1
    case Rewind => Current(s).at - 1
    case Undo(_, last, _) => last
    case UndoTail(_, last, _) => last
    case _ => Current(s).at
  }

  /** Number Last + 1 has a key, but no block. */
  predicate Pending(p: Producer) { p.MoveTail? || p.TakeBlock? || p.WriteValue? || p.Rewind? || p.ClearEntry? }

  predicate EntryHas(h: Header, entries: seq<Entry>, k: int)
    requires |h.index| > 0
  {
    EntryOf(h, k) < |entries| && entries[EntryOf(h, k)].key == Number(k)
  }

  ghost predicate Keyed(h: Header, entries: seq<Entry>, lo: int, hi: int) {
    |h.index| > 0 && forall k: int {:trigger EntryHas(h, entries, k)} :: lo <= k <= hi ==> EntryHas(h, entries, k)
  }

  ghost predicate HeaderOk(h: Header, entries: nat) {
    && |h.index| > 0 && h.tail == Slot(h.at, h.shift, |h.index|)
    && forall x :: 0 <= x < |h.index| ==> h.index[x] < entries
  }

  ghost predicate Distinct(index: seq<nat>) {
    forall x, y :: 0 <= x < y < |index| ==> index[x] != index[y]
  }

  ghost predicate IndexOk(headers: seq<Header>, entries: nat) {
    && |headers| > 0 && (forall h :: 0 <= h < |headers| ==> HeaderOk(headers[h], entries))
    && Distinct(headers[|headers| - 1].index)
  }

  /** A number whose block is held: its entry has the block, and all entries from there to the highest
      number have their keys, each number its own entry. */
  ghost predicate Held(h: Header, entries: seq<Entry>, hi: int, n: nat, block: nat) {
    && n <= hi < n + |h.index| && Keyed(h, entries, n, hi)
    && EntryHas(h, entries, n) && entries[EntryOf(h, n)].value == Block(block)
  }

  ghost predicate KeysOk(h: Header, entries: seq<Entry>, given: map<nat, nat>, hi: int, published: nat) {
    && hi < published + |h.index| && Keyed(h, entries, published, hi)
    && forall n :: n in given ==> Held(h, entries, hi, n, given[n])
  }

  predicate Cleared(h: Header, entries: seq<Entry>, k: int) {
    |h.index| > 0 && EntryOf(h, k) < |entries| && entries[EntryOf(h, k)].value == Null
  }

  /** Number k has had a key, but has no block now. */
  predicate TakenBack(s: State, k: int)
    requires s.blockSize > 0 && |s.headers| > 0
  {
    Published(s) <= k <= s.hi && !(First(s) <= k <= Last(s)) && !(Pending(s.producer) && k == Last(s) + 1)
  }

  ghost predicate ClearedOk(s: State)
    requires s.blockSize > 0 && |s.headers| > 0
  {
    forall k: int {:trigger Cleared(Current(s), s.entries, k)} :: TakenBack(s, k) ==> Cleared(Current(s), s.entries, k)
  }

  ghost predicate AllocOk(s: State)
    requires s.blockSize > 0 && |s.headers| > 0
  {
    forall n: nat {:trigger n in s.given} :: n >= Published(s) ==> (n in s.given <==> First(s) <= n <= Last(s))
  }

  function Back(p: Producer): set<nat> {
    if p.Undo? || p.UndoTail? || p.GiveBack? then p.back else {}
  }

  /** The block that has just been taken from the free list. */
  predicate InFlight(p: Producer, block: nat) { p.WriteValue? && p.block == block }

  predicate GivenTo(given: map<nat, nat>, block: nat) { exists n :: n in given && given[n] == block }

  /** Each block that this producer has is given to one number, or just taken, or about to be given back. */
  ghost predicate OwnOk(given: map<nat, nat>, mine: set<nat>, p: Producer) {
    && (forall n :: n in given ==> given[n] in mine && given[n] !in Back(p) && !InFlight(p, given[n]))
    && (forall n, m :: n in given && m in given && n != m ==> given[n] != given[m])
    && (p.WriteValue? ==> p.block in mine) && Back(p) <= mine
    && (forall b :: b in mine ==> GivenTo(given, b) || InFlight(p, b) || b in Back(p))
  }

  ghost function Gone(size: nat, done: set<nat>, n: nat): set<nat> {
    set o | o in Offsets(0, size) && Base(size, n) + o in done
  }

  ghost predicate GoneOk(size: nat, given: map<nat, nat>, gone: map<nat, nat>, done: set<nat>, p: Producer) {
    && (forall n :: n in given ==> given[n] in gone && gone[given[n]] == |Gone(size, done, n)|)
    && (p.WriteValue? ==> p.block in gone && gone[p.block] == 0)
  }

  ghost predicate TailOk(s: State)
    requires s.blockSize > 0
  {
    && s.head <= s.tail && (forall i :: i in s.done ==> i < s.head)
    && forall i: nat {:trigger NumberOf(s.blockSize, i)} ::
         NumberOf(s.blockSize, i) < Published(s) && i !in s.done ==> NumberOf(s.blockSize, i) in s.given
  }

  ghost predicate JobOk(s: State)
    requires s.blockSize > 0 && |s.headers| > 0 && |Current(s).index| > 0
  {
    var at, published := Current(s).at, Published(s);
    && published - 1 <= at <= s.hi && published - 1 <= Last(s) <= s.hi && (Pending(s.producer) ==> Last(s) < s.hi)
    && match s.producer
       case Ready => at == published - 1
       case GiveBack(_) => at == published - 1
       case Publish(job) => at + 1 == Blocks(s.blockSize, job.newTail) && s.tail <= job.newTail
       case Rewind => true
       case ClearEntry => true
       case Undo(k, last, _) => published <= k <= last + 1 && at == last - (k - published)
       case UndoTail(k, last, _) => published <= k <= last && at == last - (k - published)
       case _ =>
         var job := s.producer.job;
         && job.needed > 0 && s.tail <= job.newTail && Last(s) + 1 + job.needed == Blocks(s.blockSize, job.newTail)
  }

  /** The entry that is about to get a key is no held number's. */
  ghost predicate FreshOk(s: State)
    requires |s.headers| > 0 && |Current(s).index| > 0
  {
    s.producer.WriteKey? ==>
      forall n :: n in s.given ==> EntryOf(Current(s), n) != EntryOf(Current(s), Current(s).at + 1)
  }

  ghost predicate Global(s: State) {
    && s.blockSize > 0 && IndexOk(s.headers, |s.entries|)
    && KeysOk(Current(s), s.entries, s.given, s.hi, Published(s)) && ClearedOk(s) && AllocOk(s)
    && OwnOk(s.given, s.mine, s.producer) && GoneOk(s.blockSize, s.given, s.gone, s.done, s.producer)
    && TailOk(s) && JobOk(s) && FreshOk(s)
  }

  ghost predicate ClaimOk(s: State, c: Consumer) {
    !c.Idle? ==>
      && c.index <= c.end <= s.head && (c.index < c.end || c.Release? || c.Return?)
      && forall i: nat :: c.index <= i < c.end ==> i !in s.done
  }

  predicate Apart(c: Consumer, d: Consumer) {
    && (c.Idle? || d.Idle? || c.end <= d.index || d.end <= c.index || c.index == c.end || d.index == d.end)
    && (c.Release? && d.Release? ==> c.n != d.n)
  }

  ghost predicate ClaimsOk(s: State) {
    && (forall t :: 0 <= t < |s.consumers| ==> ClaimOk(s, s.consumers[t]))
    && (forall t, u :: 0 <= t < u < |s.consumers| ==> Apart(s.consumers[t], s.consumers[u]))
  }

  /** For these numbers this index leads to the same entries as the current one. */
  ghost predicate Path(s: State, h: Header, lo: int, hi: int) {
    |s.headers| > 0 && |Current(s).index| > 0 && |h.index| > 0 &&
    forall k: int {:trigger EntryOf(h, k)} :: lo <= k <= hi ==> EntryOf(h, k) == EntryOf(Current(s), k)
  }

  /** The number of the last claimed block. */
  function LastNumber(size: nat, end: nat): int
    requires size > 0
  {
    if end == 0 then -1 else NumberOf(size, end - 1)
  }

  ghost predicate SlotOk(s: State, i: nat, end: nat, h: nat, slot: nat)
    requires s.blockSize > 0
  {
    && h < |s.headers| && Path(s, s.headers[h], NumberOf(s.blockSize, i), LastNumber(s.blockSize, end))
    && slot == Slot(NumberOf(s.blockSize, i), s.headers[h].shift, |s.headers[h].index|)
  }

  ghost predicate ConsumerOk(s: State, c: Consumer)
    requires s.blockSize > 0
  {
    match c
    case Idle => true
    case LoadHeader(_, _) => true
    case LoadTail(i, end, h) =>
      && h < |s.headers| && Path(s, s.headers[h], NumberOf(s.blockSize, i), s.headers[h].at)
      && LastNumber(s.blockSize, end) <= s.headers[h].at <= s.hi
    case LoadKey(i, end, h, tail, at) =>
      && h < |s.headers| && Path(s, s.headers[h], NumberOf(s.blockSize, i), at)
      && LastNumber(s.blockSize, end) <= at <= s.hi && tail == Slot(at, s.headers[h].shift, |s.headers[h].index|)
    case Find(i, end, h, slot) => SlotOk(s, i, end, h, slot)
    case Use(i, end, h, slot, block) =>
      SlotOk(s, i, end, h, slot) && NumberOf(s.blockSize, i) in s.given && s.given[NumberOf(s.blockSize, i)] == block
    case Release(i, end, h, slot, block, n) =>
      && h < |s.headers| && Path(s, s.headers[h], n, Max(n, LastNumber(s.blockSize, end)))
      && slot == Slot(n, s.headers[h].shift, |s.headers[h].index|)
      && n in s.given && s.given[n] == block && n < Published(s) && Full(s.blockSize, s.done, n)
      && (i < end ==> NumberOf(s.blockSize, i) == n + 1)
    case Return(i, end, h, slot, _) => i < end ==> SlotOk(s, i, end, h, slot)
  }

  /** The blocks on their way to the free list are in one consumer's hands each, and nowhere else. */
  ghost predicate LeavingOk(s: State) {
    && (forall b :: b in s.leaving ==> b !in s.mine)
    && (forall b :: b in s.leaving ==> exists t :: 0 <= t < |s.consumers| && HasBlock(s.consumers[t], b))
    && (forall t :: 0 <= t < |s.consumers| && s.consumers[t].Return? ==> s.consumers[t].block in s.leaving)
    && (forall t, u :: 0 <= t < u < |s.consumers| && s.consumers[t].Return? && s.consumers[u].Return? ==>
          s.consumers[t].block != s.consumers[u].block)
  }

  predicate HasBlock(c: Consumer, b: nat) { c.Return? && c.block == b }

  ghost predicate Inv(s: State) {
    Global(s) && ClaimsOk(s) && forall t :: 0 <= t < |s.consumers| ==> ConsumerOk(s, s.consumers[t])
  }

  lemma InitInv(s: State)
    requires Init(s)
    ensures Inv(s)
  {
    Arithmetic.ModFacts(s.blockSize - 1, s.blockSize);
    Arithmetic.ModUnique(-1, |s.entries| - 1, |s.entries|);
    assert Current(s).tail == Slot(-1, 0, |s.entries|);
    forall t | 0 <= t < |s.consumers| ensures s.consumers[t].Idle? {
      assert s.consumers[t] == Idle;
    }
  }

  // ---------- Claimed indices have their blocks ----------

  /** All blocks with claimed indices are held. */
  lemma ClaimedIsHeld(s: State, i: nat, end: nat, k: nat)
    requires Global(s) && i < end <= s.tail && (forall x: nat :: i <= x < end ==> x !in s.done)
    requires NumberOf(s.blockSize, i) <= k <= LastNumber(s.blockSize, end)
    ensures k in s.given && k < Published(s) && Held(Current(s), s.entries, s.hi, k, s.given[k])
  {
    hide IndexOk, ClearedOk, AllocOk, OwnOk, GoneOk, JobOk, FreshOk, Blocks, Keyed;
    NumberBounds(s.blockSize, end - 1);
    BaseMonotone(s.blockSize, k, NumberOf(s.blockSize, end - 1));
    var x := ClaimedIndexIn(s.blockSize, i, end, k);
    BelowBlocks(s.blockSize, x, s.tail);
    assert NumberOf(s.blockSize, x) == k;
  }

  lemma LastNumberFacts(size: nat, i: nat, end: nat)
    requires size > 0 && i < end
    ensures NumberOf(size, i) <= LastNumber(size, end)
  {
    DivMonotone(size, i, end - 1);
  }

  // ---------- What the producer's steps leave to the consumers ----------

  predicate SameIndex(a: Header, b: Header) { a.index == b.index && a.shift == b.shift }

  /** A step of the producer: old indices stay, the current one may move its tail or be replaced, and the
      published numbers keep their blocks. */
  ghost predicate ProducerMoves(s: State, s': State) {
    && s'.blockSize == s.blockSize > 0 && s'.consumers == s.consumers && s'.head == s.head && s'.done == s.done
    && s.tail <= s'.tail && s.hi <= s'.hi && 0 < |s.headers| <= |s'.headers|
    && (forall h :: 0 <= h < |s.headers| ==>
          SameIndex(s.headers[h], s'.headers[h]) && (s'.headers[h] == s.headers[h] || h == |s'.headers| - 1))
    && |Current(s).index| > 0 && |Current(s').index| > 0
    && (forall k: int {:trigger EntryOf(Current(s'), k)} :: s.hi - |Current(s).index| < k <= s.hi ==>
          EntryOf(Current(s'), k) == EntryOf(Current(s), k))
    && (forall n: nat {:trigger n in s'.given} :: n < Published(s) && n in s.given ==>
          n in s'.given && s'.given[n] == s.given[n])
  }

  lemma PathStays(s: State, s': State, h: nat, lo: int, up: int)
    requires ProducerMoves(s, s') && h < |s.headers| && Path(s, s.headers[h], lo, up)
    requires s.hi < lo + |Current(s).index| && up <= s.hi
    ensures Path(s', s'.headers[h], lo, up)
  {
    hide Slot;
    forall k: int {:trigger EntryOf(s'.headers[h], k)} | lo <= k <= up
      ensures EntryOf(s'.headers[h], k) == EntryOf(Current(s'), k)
    {
      assert EntryOf(s'.headers[h], k) == EntryOf(s.headers[h], k);
    }
  }

  lemma ClaimFacts(s: State, c: Consumer)
    requires Global(s) && ClaimOk(s, c) && !c.Idle? && c.index < c.end
    ensures NumberOf(s.blockSize, c.index) <= LastNumber(s.blockSize, c.end) < Published(s)
    ensures LastNumber(s.blockSize, c.end) <= Current(s).at <= s.hi < NumberOf(s.blockSize, c.index) + |Current(s).index|
    ensures NumberOf(s.blockSize, c.index) in s.given
  {
    LastNumberFacts(s.blockSize, c.index, c.end);
    ClaimedIsHeld(s, c.index, c.end, NumberOf(s.blockSize, c.index));
    ClaimedIsHeld(s, c.index, c.end, LastNumber(s.blockSize, c.end));
  }

  lemma ReleaseFacts(s: State, c: Consumer)
    requires Global(s) && ClaimOk(s, c) && ConsumerOk(s, c) && c.Release?
    ensures s.hi < c.n + |Current(s).index| && Max(c.n, LastNumber(s.blockSize, c.end)) <= s.hi
    ensures Held(Current(s), s.entries, s.hi, c.n, c.block) && c.n < Published(s)
  {
    hide IndexOk, ClearedOk, AllocOk, OwnOk, GoneOk, FreshOk, Blocks, Keyed, Slot, Path, Gone, Offsets, EntryOf;
    if c.end > 0 {
      BelowBlocks(s.blockSize, c.end - 1, s.tail);
    }
  }

  lemma MovesFacts(s: State, s': State, h: nat)
    requires ProducerMoves(s, s') && h < |s.headers|
    ensures h < |s'.headers| && SameIndex(s.headers[h], s'.headers[h])
    ensures s'.headers[h] == s.headers[h] || h == |s'.headers| - 1
    ensures s'.blockSize == s.blockSize > 0 && s'.done == s.done && s.hi <= s'.hi && Published(s) <= Published(s')
  {
    BlocksMonotone(s.blockSize, s.tail, s'.tail);
  }

  lemma MovesGiven(s: State, s': State, n: nat)
    requires ProducerMoves(s, s') && n in s.given && n < Published(s)
    ensures n in s'.given && s'.given[n] == s.given[n]
  {
    assert n in s'.given;
  }

  lemma ReleaseStays(s: State, s': State, c: Consumer)
    requires Global(s) && ProducerMoves(s, s') && ConsumerOk(s, c) && ClaimOk(s, c) && c.Release?
    ensures ConsumerOk(s', c)
  {
    ReleaseFacts(s, c);
    MovesFacts(s, s', c.header);
    MovesGiven(s, s', c.n);
    PathStays(s, s', c.header, c.n, Max(c.n, LastNumber(s.blockSize, c.end)));
    hide Global, ProducerMoves, Slot, NumberOf, LastNumber, Gone, Offsets, Published, Path, ClaimOk;
  }

  lemma KeyStays(s: State, s': State, c: Consumer)
    requires Global(s) && ProducerMoves(s, s') && ConsumerOk(s, c) && ClaimOk(s, c) && c.LoadKey?
    ensures ConsumerOk(s', c)
  {
    ClaimFacts(s, c);
    MovesFacts(s, s', c.header);
    PathStays(s, s', c.header, NumberOf(s.blockSize, c.index), c.at);
    hide Global, Slot, NumberOf, LastNumber, Published, ClaimOk, ProducerMoves, Path;
  }

  lemma TailStays(s: State, s': State, c: Consumer)
    requires Global(s) && Global(s') && ProducerMoves(s, s') && ConsumerOk(s, c) && ClaimOk(s, c) && c.LoadTail?
    ensures ConsumerOk(s', c)
  {
    hide Global, Slot, NumberOf, LastNumber, Published, ProducerMoves, Path;
    ClaimFacts(s, c);
    MovesFacts(s, s', c.header);
    var h', i := s'.headers[c.header], NumberOf(s.blockSize, c.index);
    if h' == s.headers[c.header] {
      PathStays(s, s', c.header, i, h'.at);
    } else {
      TailFacts(s');
      CurrentPath(s', i, h'.at);
    }
  }

  lemma TailFacts(s: State)
    requires Global(s)
    ensures Published(s) - 1 <= Current(s).at <= s.hi && |Current(s).index| > 0
    ensures Current(s).tail == Slot(Current(s).at, Current(s).shift, |Current(s).index|)
  {
    hide ClearedOk, AllocOk, OwnOk, GoneOk, TailOk, FreshOk, Slot, Blocks;
  }

  lemma CurrentPath(s: State, lo: int, hi: int)
    requires |s.headers| > 0 && |Current(s).index| > 0
    ensures Path(s, Current(s), lo, hi)
  {
  }

  lemma UseStays(s: State, s': State, c: Consumer)
    requires Global(s) && ProducerMoves(s, s') && ConsumerOk(s, c) && ClaimOk(s, c) && (c.Find? || c.Use? || (c.Return? && c.index < c.end))
    ensures ConsumerOk(s', c)
  {
    ClaimFacts(s, c);
    MovesFacts(s, s', c.header);
    MovesGiven(s, s', NumberOf(s.blockSize, c.index));
    PathStays(s, s', c.header, NumberOf(s.blockSize, c.index), LastNumber(s.blockSize, c.end));
    hide Global, ProducerMoves, Slot, NumberOf, LastNumber, Published, Path, ClaimOk;
  }

  lemma ConsumerStays(s: State, s': State, c: Consumer)
    requires Global(s) && Global(s') && ProducerMoves(s, s') && ConsumerOk(s, c) && ClaimOk(s, c)
    ensures ConsumerOk(s', c)
  {
    assert s'.blockSize > 0;
    hide Global, ProducerMoves, ConsumerOk, ClaimOk;
    match c
    case LoadTail(_, _, _) => TailStays(s, s', c);
    case LoadKey(_, _, _, _, _) => KeyStays(s, s', c);
    case Find(_, _, _, _) => UseStays(s, s', c);
    case Use(_, _, _, _, _) => UseStays(s, s', c);
    case Release(_, _, _, _, _, _) => ReleaseStays(s, s', c);
    case Return(i, end, _, _, _) =>
      if i < end {
        UseStays(s, s', c);
      } else {
        Waits(s', c);
      }
    case _ => Waits(s', c);
  }

  lemma Waits(s: State, c: Consumer)
    requires s.blockSize > 0 && (c.Idle? || c.LoadHeader? || (c.Return? && c.index >= c.end))
    ensures ConsumerOk(s, c)
  {
  }

  lemma ProducerFrame(s: State, s': State)
    requires Inv(s) && Global(s') && ProducerMoves(s, s')
    ensures Inv(s')
  {
    forall t | 0 <= t < |s'.consumers| ensures ConsumerOk(s', s'.consumers[t]) {
      ConsumerStays(s, s', s.consumers[t]);
    }
    hide Global, ConsumerOk;
    forall t | 0 <= t < |s'.consumers| ensures ClaimOk(s', s'.consumers[t]) {
      assert ClaimOk(s, s.consumers[t]);
    }
  }

  // ---------- The producer's steps keep the invariant: no entry changes ----------

  lemma EnqueueInv(s: State, count: nat)
    requires Inv(s) && s.producer == Ready
    ensures Inv(Enqueue(s, count))
  {
    var s' := Enqueue(s, count);
    BlocksMonotone(s.blockSize, s.tail, s.tail + count);
    hide Slot, Base, Blocks, NumberOf, ClaimsOk, ConsumerOk, EntryOf, EntryHas, Held, Keyed, Cleared, Gone;
    assert AllocOk(s') && OwnOk(s'.given, s'.mine, s'.producer);
    assert JobOk(s') && FreshOk(s') && ClearedOk(s');
    hide IndexOk, KeysOk, ClearedOk, AllocOk, OwnOk, GoneOk, TailOk, JobOk;
    ProducerFrame(s, s');
  }

  lemma StartInsertInv(s: State, job: Job)
    requires Inv(s) && s.producer == Insert(job)
    requires EntryOf(Current(s), Current(s).at + 1) < |s.entries|
    requires EntryIsFree(s.entries[EntryOf(Current(s), Current(s).at + 1)])
    ensures Inv(s.(producer := WriteKey(job)))
  {
    var s' := s.(producer := WriteKey(job));
    hide Slot, Base, Blocks, NumberOf, ClaimsOk, ConsumerOk, EntryOf, Keyed, Cleared, Gone;
    assert FreshOk(s') by { hide IndexOk, ClearedOk, AllocOk, OwnOk, GoneOk, TailOk; }
    assert AllocOk(s') && OwnOk(s'.given, s'.mine, s'.producer);
    assert JobOk(s') && ClearedOk(s');
    hide IndexOk, KeysOk, ClearedOk, AllocOk, OwnOk, GoneOk, TailOk, JobOk, FreshOk;
    ProducerFrame(s, s');
  }

  lemma FailInv(s: State, job: Job)
    requires Inv(s) && s.producer == Insert(job)
    ensures Inv(s.(producer := Undo(Blocks(s.blockSize, s.tail), Current(s).at, {})))
  {
    var s' := s.(producer := Undo(Blocks(s.blockSize, s.tail), Current(s).at, {}));
    hide Slot, Base, Blocks, NumberOf, ClaimsOk, ConsumerOk, EntryOf, EntryHas, Held, Keyed, Cleared, Gone;
    assert AllocOk(s') && OwnOk(s'.given, s'.mine, s'.producer);
    assert JobOk(s') && FreshOk(s') && ClearedOk(s');
    hide IndexOk, KeysOk, ClearedOk, AllocOk, OwnOk, GoneOk, TailOk, JobOk;
    ProducerFrame(s, s');
  }

  lemma TakeInv(s: State, job: Job, block: nat)
    requires Inv(s) && s.producer == TakeBlock(job) && block !in s.mine
    ensures Inv(s.(mine := s.mine + {block}, gone := s.gone[block := 0], producer := WriteValue(job, block)))
  {
    var s' := s.(mine := s.mine + {block}, gone := s.gone[block := 0], producer := WriteValue(job, block));
    hide Slot, Base, Blocks, NumberOf, ClaimsOk, ConsumerOk, EntryOf, EntryHas, Held, Keyed, Cleared, Gone;
    assert AllocOk(s') && OwnOk(s'.given, s'.mine, s'.producer);
    assert GoneOk(s'.blockSize, s'.given, s'.gone, s'.done, s'.producer);
    assert JobOk(s') && FreshOk(s') && ClearedOk(s');
    hide IndexOk, KeysOk, ClearedOk, AllocOk, OwnOk, GoneOk, TailOk, JobOk;
    ProducerFrame(s, s');
  }

  lemma NoBlockInv(s: State, job: Job)
    requires Inv(s) && s.producer == TakeBlock(job)
    ensures Inv(s.(producer := Rewind))
  {
    var s' := s.(producer := Rewind);
    hide Slot, Base, Blocks, NumberOf, ClaimsOk, ConsumerOk, EntryOf, EntryHas, Held, Keyed, Cleared, Gone;
    assert AllocOk(s') && OwnOk(s'.given, s'.mine, s'.producer);
    assert JobOk(s') && FreshOk(s') && ClearedOk(s');
    hide IndexOk, KeysOk, ClearedOk, AllocOk, OwnOk, GoneOk, TailOk, JobOk;
    ProducerFrame(s, s');
  }

  lemma UndoneInv(s: State, k: nat, last: int, back: set<nat>)
    requires Inv(s) && s.producer == Undo(k, last, back) && k > last
    ensures Inv(s.(producer := GiveBack(back)))
  {
    var s' := s.(producer := GiveBack(back));
    hide Slot, Base, Blocks, NumberOf, ClaimsOk, ConsumerOk, EntryOf, EntryHas, Held, Keyed, Cleared, Gone;
    assert AllocOk(s') && OwnOk(s'.given, s'.mine, s'.producer);
    assert JobOk(s') && FreshOk(s') && ClearedOk(s');
    hide IndexOk, KeysOk, ClearedOk, AllocOk, OwnOk, GoneOk, TailOk, JobOk;
    ProducerFrame(s, s');
  }

  lemma GiveBackInv(s: State, s': State, back: set<nat>)
    requires Inv(s) && s.producer == GiveBack(back) && s'.producer == GiveBack(back - (s.mine - s'.mine))
    requires s' == s.(mine := s'.mine, producer := s'.producer) && s.mine - s'.mine <= back && s'.mine <= s.mine
    ensures Inv(s')
  {
    hide Slot, Base, Blocks, NumberOf, ClaimsOk, ConsumerOk, EntryOf, EntryHas, Held, Keyed, Cleared, Gone;
    assert AllocOk(s') && OwnOk(s'.given, s'.mine, s'.producer);
    assert JobOk(s') && FreshOk(s') && ClearedOk(s');
    hide IndexOk, KeysOk, ClearedOk, AllocOk, OwnOk, GoneOk, TailOk, JobOk;
    ProducerFrame(s, s');
  }

  lemma GivesOne(s: State, back: set<nat>, b: nat)
    requires Inv(s) && s.producer == GiveBack(back) && b in back
    ensures s.mine - (s.mine - {b}) == {b}
  {
  }

  lemma AllBackInv(s: State)
    requires Inv(s) && s.producer == GiveBack({})
    ensures Inv(s.(producer := Ready))
  {
    var s' := s.(producer := Ready);
    hide Slot, Base, Blocks, NumberOf, ClaimsOk, ConsumerOk, EntryOf, EntryHas, Held, Keyed, Cleared, Gone;
    assert AllocOk(s') && OwnOk(s'.given, s'.mine, s'.producer);
    assert JobOk(s') && FreshOk(s') && ClearedOk(s');
    hide IndexOk, KeysOk, ClearedOk, AllocOk, OwnOk, GoneOk, TailOk, JobOk;
    ProducerFrame(s, s');
  }

  lemma PublishInv(s: State, job: Job)
    requires Inv(s) && s.producer == Publish(job)
    ensures Inv(s.(tail := job.newTail, producer := Ready))
  {
    var s' := s.(tail := job.newTail, producer := Ready);
    BlocksMonotone(s.blockSize, s.tail, s'.tail);
    hide Slot, Base, Blocks, NumberOf, ClaimsOk, ConsumerOk, EntryOf, EntryHas, Held, Cleared, Gone;
    assert KeysOk(Current(s'), s'.entries, s'.given, s'.hi, Published(s')) by { hide ClearedOk, TailOk, OwnOk, GoneOk; }
    hide Keyed;
    assert AllocOk(s') && OwnOk(s'.given, s'.mine, s'.producer);
    assert TailOk(s');
    assert JobOk(s') && FreshOk(s') && ClearedOk(s');
    hide IndexOk, KeysOk, ClearedOk, AllocOk, OwnOk, GoneOk, TailOk, JobOk;
    ProducerFrame(s, s');
  }

  // ---------- The index tail moves ----------

  /** Where the tail is does not matter to the entries. */
  lemma SameEntries(h: Header, h': Header, entries: seq<Entry>, given: map<nat, nat>, hi: int, published: nat)
    requires SameIndex(h, h') && |h.index| > 0
    ensures forall k: int :: EntryOf(h', k) == EntryOf(h, k)
    ensures forall k: int {:trigger Cleared(h', entries, k)} :: Cleared(h, entries, k) ==> Cleared(h', entries, k)
    ensures KeysOk(h, entries, given, hi, published) ==> KeysOk(h', entries, given, hi, published)
  {
    hide Slot;
    forall k: int ensures EntryHas(h, entries, k) == EntryHas(h', entries, k) {
    }
    forall lo: int ensures Keyed(h, entries, lo, hi) ==> Keyed(h', entries, lo, hi) {
      if Keyed(h, entries, lo, hi) {
        forall k: int | lo <= k <= hi ensures EntryHas(h', entries, k) {
          assert EntryHas(h, entries, k);
        }
      }
    }
    hide Keyed, EntryHas;
    if KeysOk(h, entries, given, hi, published) {
      forall n | n in given ensures Held(h', entries, hi, n, given[n]) {
        assert Held(h, entries, hi, n, given[n]);
      }
    }
  }

  lemma TailIndexOk(s: State, at: int)
    requires IndexOk(s.headers, |s.entries|)
    ensures IndexOk(SetTail(s, at).headers, |SetTail(s, at).entries|)
  {
    var h := Current(s);
    SlotFrom(h.at, at - h.at, h.shift, |h.index|);
    hide Slot;
  }

  /** Moving the tail to another number, together with the producer. */
  lemma SetTailInv(s: State, at: int, p: Producer)
    requires Inv(s)
    requires var s' := SetTail(s, at).(producer := p);
             && AllocOk(s') && OwnOk(s'.given, s'.mine, p) && JobOk(s') && !p.WriteKey? && !p.WriteValue?
             && First(s') == First(s) && Last(s') == Last(s) && Pending(p) == Pending(s.producer)
    ensures Inv(SetTail(s, at).(producer := p))
  {
    var s' := SetTail(s, at).(producer := p);
    SameEntries(Current(s), Current(s'), s.entries, s.given, s.hi, Published(s));
    TailIndexOk(s, at);
    hide Slot, Base, Blocks, NumberOf, ClaimsOk, ConsumerOk, EntryHas, Held, Keyed, Gone;
    assert ClearedOk(s') by {
      hide KeysOk, OwnOk, GoneOk, TailOk, IndexOk, JobOk, AllocOk;
      forall k: int {:trigger Cleared(Current(s'), s'.entries, k)} | TakenBack(s', k)
        ensures Cleared(Current(s'), s'.entries, k)
      {
        assert Cleared(Current(s), s.entries, k);
      }
    }
    assert ProducerMoves(s, s') by { hide KeysOk, OwnOk, GoneOk, TailOk, ClearedOk, AllocOk, JobOk; }
    assert Global(s');
    hide Global, ProducerMoves;
    ProducerFrame(s, s');
  }

  lemma MoveTailParts(s: State, job: Job)
    requires Global(s) && s.producer == MoveTail(job)
    ensures var s' := SetTail(s, Current(s).at + 1).(producer := TakeBlock(job));
            AllocOk(s') && OwnOk(s'.given, s'.mine, s'.producer) && JobOk(s')
  {
    hide Slot, Blocks, EntryOf, KeysOk, ClearedOk, GoneOk, TailOk;
  }

  lemma MoveTailInv(s: State, job: Job)
    requires Inv(s) && s.producer == MoveTail(job)
    ensures Inv(SetTail(s, Current(s).at + 1).(producer := TakeBlock(job)))
  {
    MoveTailParts(s, job);
    hide Global, ClaimsOk, ConsumerOk, AllocOk, OwnOk, JobOk;
    SetTailInv(s, Current(s).at + 1, TakeBlock(job));
  }

  lemma RewindParts(s: State)
    requires Global(s) && s.producer == Rewind
    ensures var s' := SetTail(s, Current(s).at - 1).(producer := ClearEntry);
            AllocOk(s') && OwnOk(s'.given, s'.mine, s'.producer) && JobOk(s')
  {
    hide Slot, Blocks, EntryOf, KeysOk, ClearedOk, GoneOk, TailOk;
  }

  lemma RewindInv(s: State)
    requires Inv(s) && s.producer == Rewind
    ensures Inv(SetTail(s, Current(s).at - 1).(producer := ClearEntry))
  {
    RewindParts(s);
    hide Global, ClaimsOk, ConsumerOk, AllocOk, OwnOk, JobOk;
    SetTailInv(s, Current(s).at - 1, ClearEntry);
  }

  lemma UndoTailParts(s: State, k: nat, last: int, back: set<nat>)
    requires Global(s) && s.producer == UndoTail(k, last, back)
    ensures var s' := SetTail(s, Current(s).at - 1).(producer := Undo(k + 1, last, back));
            AllocOk(s') && OwnOk(s'.given, s'.mine, s'.producer) && JobOk(s')
  {
    hide Slot, Blocks, EntryOf, KeysOk, ClearedOk, GoneOk, TailOk;
  }

  lemma UndoTailInv(s: State, k: nat, last: int, back: set<nat>)
    requires Inv(s) && s.producer == UndoTail(k, last, back)
    ensures Inv(SetTail(s, Current(s).at - 1).(producer := Undo(k + 1, last, back)))
  {
    UndoTailParts(s, k, last, back);
    hide Global, ClaimsOk, ConsumerOk, AllocOk, OwnOk, JobOk;
    SetTailInv(s, Current(s).at - 1, Undo(k + 1, last, back));
  }

  // ---------- An entry changes ----------

  /** Numbers less than the capacity apart have different entries. */
  lemma EntriesDiffer(s: State, j: int, k: int)
    requires IndexOk(s.headers, |s.entries|) && j < k < j + |Current(s).index|
    ensures EntryOf(Current(s), j) != EntryOf(Current(s), k)
  {
    var h := Current(s);
    SlotsDiffer(j, k, h.shift, |h.index|);
    SlotBelow(j, h.shift, |h.index|);
    SlotBelow(k, h.shift, |h.index|);
  }

  lemma EntryInRange(s: State, k: int)
    requires IndexOk(s.headers, |s.entries|)
    ensures EntryOf(Current(s), k) < |s.entries|
  {
    SlotBelow(k, Current(s).shift, |Current(s).index|);
    assert HeaderOk(Current(s), |s.entries|);
  }

  /** One entry's value changes; other numbers in reach keep their keys and their blocks. */
  lemma HeldStays(s: State, x: int, value: Value, n: nat, block: nat)
    requires IndexOk(s.headers, |s.entries|) && EntryOf(Current(s), x) < |s.entries|
    requires Held(Current(s), s.entries, s.hi, n, block) && n != x && n - |Current(s).index| < x < n + |Current(s).index|
    ensures var e := EntryOf(Current(s), x);
            Held(Current(s), s.entries[e := s.entries[e].(value := value)], s.hi, n, block)
  {
    var h, e := Current(s), EntryOf(Current(s), x);
    var entries' := s.entries[e := s.entries[e].(value := value)];
    if n < x { EntriesDiffer(s, n, x); } else { EntriesDiffer(s, x, n); }
    KeyedStays(h, s.entries, e, value, n, s.hi);
    hide Keyed, EntryOf;
  }

  lemma KeyedStays(h: Header, entries: seq<Entry>, e: nat, value: Value, lo: int, hi: int)
    requires e < |entries| && Keyed(h, entries, lo, hi)
    ensures Keyed(h, entries[e := entries[e].(value := value)], lo, hi)
  {
    var entries' := entries[e := entries[e].(value := value)];
    hide EntryOf;
    forall k: int | lo <= k <= hi ensures EntryHas(h, entries', k) {
      assert EntryHas(h, entries, k);
    }
  }

  function WithValue(s: State, x: int, value: Value): seq<Entry>
    requires |s.headers| > 0 && |Current(s).index| > 0 && EntryOf(Current(s), x) < |s.entries|
  {
    var e := EntryOf(Current(s), x);
    s.entries[e := s.entries[e].(value := value)]
  }

  lemma KeysAfterValue(s: State, x: nat, value: Value, given': map<nat, nat>)
    requires Global(s) && x <= s.hi < x + |Current(s).index|
    requires forall n :: n in given' && n != x ==> n in s.given && given'[n] == s.given[n]
    requires x in given' ==> Published(s) <= x && value == Block(given'[x])
    ensures EntryOf(Current(s), x) < |s.entries|
    ensures KeysOk(Current(s), WithValue(s, x, value), given', s.hi, Published(s))
  {
    EntryInRange(s, x);
    var h, e, entries' := Current(s), EntryOf(Current(s), x), WithValue(s, x, value);
    KeyedStays(h, s.entries, e, value, Published(s), s.hi);
    hide Slot, Blocks, ClearedOk, AllocOk, OwnOk, GoneOk, TailOk, JobOk, FreshOk;
    forall n | n in given' ensures Held(h, entries', s.hi, n, given'[n]) {
      if n == x {
        assert EntryHas(h, entries', x);
      } else {
        assert Held(h, s.entries, s.hi, n, s.given[n]);
        HeldStays(s, x, value, n, s.given[n]);
      }
    }
  }

  lemma ClearedAfterValue(s: State, x: int, value: Value, k: int)
    requires Global(s) && Published(s) <= x <= s.hi && Published(s) <= k <= s.hi && EntryOf(Current(s), x) < |s.entries|
    ensures k != x && Cleared(Current(s), s.entries, k) ==> Cleared(Current(s), WithValue(s, x, value), k)
    ensures k == x && value == Null ==> Cleared(Current(s), WithValue(s, x, value), k)
  {
    hide Slot, Blocks, ClearedOk, AllocOk, OwnOk, GoneOk, TailOk, JobOk, FreshOk, EntryHas, Held;
    if k < x {
      EntriesDiffer(s, k, x);
    } else if k > x {
      EntriesDiffer(s, x, k);
    }
  }

  /** What is left of ClearedOk when a value at x changes: every other cleared number is still cleared. */
  lemma ClearedStays(s: State, s': State, x: int, value: Value)
    requires Global(s) && Published(s) <= x <= s.hi && EntryOf(Current(s), x) < |s.entries|
    requires s'.headers == s.headers && s'.blockSize == s.blockSize && s'.entries == WithValue(s, x, value)
    requires forall k: int {:trigger TakenBack(s', k)} :: TakenBack(s', k) && k != x ==> TakenBack(s, k)
    requires TakenBack(s', x) ==> value == Null
    ensures ClearedOk(s')
  {
    hide KeysOk, OwnOk, GoneOk, TailOk, JobOk, AllocOk, EntryOf, Slot, Blocks;
    forall k: int {:trigger Cleared(Current(s'), s'.entries, k)} | TakenBack(s', k)
      ensures Cleared(Current(s'), s'.entries, k)
    {
      if k == x {
        ClearedAfterValue(s, x, value, k);
      } else {
        assert TakenBack(s, k);
        ClearedAfterValue(s, x, value, k);
        assert Cleared(Current(s), s.entries, k);
      }
    }
  }

  lemma InReach(s: State, x: int)
    requires Global(s) && Published(s) <= x
    ensures s.hi < x + |Current(s).index|
  {
    hide IndexOk, ClearedOk, AllocOk, OwnOk, GoneOk, TailOk, JobOk, FreshOk, Blocks, Keyed, Held;
  }

  lemma ValueStepMoves(s: State, s': State, x: nat, value: Value)
    requires Global(s) && Published(s) <= x && EntryOf(Current(s), x) < |s.entries|
    requires s' == s.(entries := WithValue(s, x, value), given := s'.given, producer := s'.producer)
    requires forall n :: n in s'.given && n != x ==> n in s.given && s'.given[n] == s.given[n]
    requires forall n :: n in s.given && n != x ==> n in s'.given
    ensures TailOk(s') && IndexOk(s'.headers, |s'.entries|) && ProducerMoves(s, s')
  {
    hide Slot, Base, Blocks, EntryOf, KeysOk, ClearedOk, OwnOk, GoneOk, JobOk, AllocOk, FreshOk;
  }

  /** A step of the producer that changes the value of number x, and what it remembers. */
  lemma ValueStepInv(s: State, s': State, x: nat, value: Value)
    requires Inv(s) && Published(s) <= x <= s.hi && EntryOf(Current(s), x) < |s.entries|
    requires s' == s.(entries := WithValue(s, x, value), given := s'.given, producer := s'.producer)
    requires forall n :: n in s'.given && n != x ==> n in s.given && s'.given[n] == s.given[n]
    requires forall n :: n in s.given && n != x ==> n in s'.given
    requires x in s'.given ==> value == Block(s'.given[x])
    requires forall k: int {:trigger TakenBack(s', k)} :: TakenBack(s', k) && k != x ==> TakenBack(s, k)
    requires TakenBack(s', x) ==> value == Null
    requires AllocOk(s') && OwnOk(s'.given, s'.mine, s'.producer) && JobOk(s') && !s'.producer.WriteKey?
    requires GoneOk(s'.blockSize, s'.given, s'.gone, s'.done, s'.producer)
    ensures Inv(s')
  {
    InReach(s, x);
    KeysAfterValue(s, x, value, s'.given);
    ClearedStays(s, s', x, value);
    ValueStepMoves(s, s', x, value);
    hide ClaimsOk, ConsumerOk, EntryOf, TakenBack, KeysOk, ClearedOk, OwnOk, GoneOk, JobOk, AllocOk, TailOk, IndexOk,
         ProducerMoves;
    ProducerFrame(s, s');
  }

  lemma NoneGone(s: State, n: nat)
    requires Global(s) && n >= Published(s)
    ensures Gone(s.blockSize, s.done, n) == {}
  {
    hide IndexOk, KeysOk, ClearedOk, AllocOk, OwnOk, GoneOk, JobOk, FreshOk, NumberOf;
    BlocksSuffice(s.blockSize, s.tail);
    BaseMonotone(s.blockSize, Published(s), n);
  }

  lemma GoneAfterValue(size: nat, given: map<nat, nat>, gone: map<nat, nat>, done: set<nat>, p: Producer, x: nat, p': Producer)
    requires GoneOk(size, given, gone, done, p) && p.WriteValue? && !p'.WriteValue? && Gone(size, done, x) == {}
    ensures GoneOk(size, given[x := p.block], gone, done, p')
  {
    hide Gone;
  }

  lemma GoneAfterUndo(size: nat, given: map<nat, nat>, gone: map<nat, nat>, done: set<nat>, p: Producer, k: nat, p': Producer)
    requires GoneOk(size, given, gone, done, p) && !p'.WriteValue?
    ensures GoneOk(size, given - {k}, gone, done, p')
  {
    hide Gone;
  }

  lemma OwnAfterValue(s: State, x: nat, block: nat, p: Producer)
    requires s.producer.WriteValue? && s.producer.block == block && x !in s.given
    requires OwnOk(s.given, s.mine, s.producer) && !p.WriteValue? && Back(p) == {}
    ensures OwnOk(s.given[x := block], s.mine, p)
  {
    var given' := s.given[x := block];
    forall b | b in s.mine ensures GivenTo(given', b) {
      if b == block {
        assert given'[x] == b;
      } else {
        var n :| n in s.given && s.given[n] == b;
        assert given'[n] == b;
      }
    }
  }

  /** The number that is pending is published nowhere, and no block is given to it. */
  lemma PendingNumber(s: State)
    requires Global(s) && Pending(s.producer)
    ensures Published(s) <= Last(s) + 1 <= s.hi && (Last(s) + 1) !in s.given && EntryOf(Current(s), Last(s) + 1) < |s.entries|
  {
    EntryInRange(s, Last(s) + 1);
    hide KeysOk, OwnOk, GoneOk, TailOk, IndexOk, ClearedOk, Blocks, Slot;
  }

  lemma PutValueOwn(s: State, job: Job, block: nat, e: nat)
    requires Global(s) && s.producer == WriteValue(job, block) && e < |s.entries| && Current(s).at >= Published(s)
    requires Current(s).at !in s.given
    ensures var s' := PutValue(s, job, block, e);
            && OwnOk(s'.given, s'.mine, s'.producer)
            && GoneOk(s'.blockSize, s'.given, s'.gone, s'.done, s'.producer)
  {
    var s' := PutValue(s, job, block, e);
    NoneGone(s, Current(s).at);
    OwnAfterValue(s, Current(s).at, block, s'.producer);
    GoneAfterValue(s.blockSize, s.given, s.gone, s.done, s.producer, Current(s).at, s'.producer);
  }

  lemma PutValueAlloc(s: State, job: Job, block: nat, e: nat)
    requires Global(s) && s.producer == WriteValue(job, block) && e < |s.entries| && Current(s).at >= Published(s)
    ensures var s' := PutValue(s, job, block, e);
            && AllocOk(s') && JobOk(s') && !TakenBack(s', Current(s).at)
            && forall x: int {:trigger TakenBack(s', x)} :: TakenBack(s', x) ==> TakenBack(s, x)
  {
    hide KeysOk, OwnOk, GoneOk, TailOk, ClearedOk, Blocks, Slot;
  }

  lemma PutValueInv(s: State, job: Job, block: nat)
    requires Inv(s) && s.producer == WriteValue(job, block)
    ensures var e := EntryOf(Current(s), Current(s).at);
            e < |s.entries| && Current(s).at >= 0 && Inv(PutValue(s, job, block, e))
  {
    PendingNumber(s);
    var x := Current(s).at;
    var e := EntryOf(Current(s), x);
    PutValueOwn(s, job, block, e);
    PutValueAlloc(s, job, block, e);
    hide Inv, EntryOf, AllocOk, JobOk, OwnOk, GoneOk, TakenBack, Published;
    ValueStepInv(s, PutValue(s, job, block, e), x, Block(block));
  }

  lemma ClearInv(s: State)
    requires Inv(s) && s.producer == ClearEntry
    ensures var e := EntryOf(Current(s), Current(s).at + 1);
            e < |s.entries|
            && Inv(PutEntry(s, e, s.entries[e].(value := Null)).(producer := Undo(Published(s), Current(s).at, {})))
  {
    var x := Current(s).at + 1;
    PendingNumber(s);
    var e := EntryOf(Current(s), x);
    var s' := PutEntry(s, e, s.entries[e].(value := Null)).(producer := Undo(Published(s), Current(s).at, {}));
    hide Slot, Base, Blocks, NumberOf, EntryOf, EntryHas, Held, Keyed, Gone, KeysOk, ClearedOk, TailOk, IndexOk;
    assert AllocOk(s') by { hide OwnOk, GoneOk; }
    assert OwnOk(s'.given, s'.mine, s'.producer) && GoneOk(s'.blockSize, s'.given, s'.gone, s'.done, s'.producer);
    hide OwnOk, GoneOk;
    assert JobOk(s');
    ValueStepInv(s, s', x, Null);
  }

  /** During the undoing the tail's entry has its key. */
  lemma UndoTailKey(s: State, k: nat, last: int, back: set<nat>)
    requires Global(s) && s.producer == Undo(k, last, back) && k <= last
    ensures |Current(s).index| > 0 && EntryHas(Current(s), s.entries, Current(s).at)
  {
    hide ClearedOk, AllocOk, OwnOk, GoneOk, TailOk, FreshOk, Blocks, EntryHas;
    assert Published(s) <= Current(s).at <= s.hi;
  }

  /** The entry found by way of the tail's key is the number's own. */
  lemma LocatedIs(s: State, k: nat, last: int, back: set<nat>)
    requires Global(s) && s.producer == Undo(k, last, back) && k <= last
    ensures Current(s).tail < |Current(s).index| && Current(s).index[Current(s).tail] < |s.entries|
    ensures Located(s, k) == EntryOf(Current(s), k) < |s.entries|
  {
    var h := Current(s);
    TailFacts(s);
    EntryInRange(s, k);
    UndoTailKey(s, k, last, back);
    SlotBelow(h.at, h.shift, |h.index|);
    SlotFrom(h.at, k - h.at, h.shift, |h.index|);
    hide Global, Slot;
  }

  lemma OwnAfterUndo(s: State, k: nat, p: Producer)
    requires k in s.given && OwnOk(s.given, s.mine, s.producer) && s.producer.Undo?
    requires p.UndoTail? && p.back == s.producer.back + {s.given[k]}
    ensures OwnOk(s.given - {k}, s.mine, p)
  {
    var given' := s.given - {k};
    forall b | b in s.mine ensures GivenTo(given', b) || b in p.back {
      if b !in p.back {
        var n :| n in s.given && s.given[n] == b;
        assert n in given' && given'[n] == b;
      }
    }
  }

  lemma UndoNumber(s: State, k: nat, last: int, back: set<nat>)
    requires Global(s) && s.producer == Undo(k, last, back) && k <= last
    ensures Published(s) <= k <= s.hi && k in s.given && EntryOf(Current(s), k) < |s.entries|
  {
    EntryInRange(s, k);
    hide KeysOk, OwnOk, GoneOk, TailOk, IndexOk, ClearedOk, Blocks;
  }

  lemma UndoOneOwn(s: State, k: nat, last: int, back: set<nat>, e: nat)
    requires Global(s) && s.producer == Undo(k, last, back) && k in s.given && e < |s.entries|
    ensures var s' := UndoOne(s, k, last, back, e);
            && OwnOk(s'.given, s'.mine, s'.producer)
            && GoneOk(s'.blockSize, s'.given, s'.gone, s'.done, s'.producer)
  {
    var s' := UndoOne(s, k, last, back, e);
    OwnAfterUndo(s, k, s'.producer);
    GoneAfterUndo(s.blockSize, s.given, s.gone, s.done, s.producer, k, s'.producer);
  }

  lemma UndoOneAlloc(s: State, k: nat, last: int, back: set<nat>, e: nat)
    requires Global(s) && s.producer == Undo(k, last, back) && k <= last && e < |s.entries|
    ensures var s' := UndoOne(s, k, last, back, e);
            && AllocOk(s') && JobOk(s') && !TakenBack(s, k)
            && forall x: int {:trigger TakenBack(s', x)} :: TakenBack(s', x) && x != k ==> TakenBack(s, x)
  {
    hide KeysOk, OwnOk, GoneOk, TailOk, ClearedOk, Blocks, Slot;
  }

  lemma UndoOneInv(s: State, k: nat, last: int, back: set<nat>)
    requires Inv(s) && s.producer == Undo(k, last, back) && k <= last
    ensures EntryOf(Current(s), k) < |s.entries| && Inv(UndoOne(s, k, last, back, EntryOf(Current(s), k)))
  {
    UndoNumber(s, k, last, back);
    var e := EntryOf(Current(s), k);
    UndoOneOwn(s, k, last, back, e);
    UndoOneAlloc(s, k, last, back, e);
    hide Inv, EntryOf, AllocOk, JobOk, OwnOk, GoneOk, TakenBack, Published;
    ValueStepInv(s, UndoOne(s, k, last, back, e), k, Null);
  }

  // ---------- A new key ----------

  lemma SlotWraps(n: int, shift: int, size: nat)
    requires size > 0
    ensures Slot(n + size, shift, size) == Slot(n, shift, size)
  {
    Arithmetic.ModShift(1, n + shift, size);
  }

  /** The new number is not so far from a held one that it would get its entry. */
  lemma StaysInReach(s: State, n: nat)
    requires Global(s) && s.producer.WriteKey? && n in s.given
    ensures n <= Current(s).at && Max(s.hi, Current(s).at + 1) < n + |Current(s).index|
  {
    assert Held(Current(s), s.entries, s.hi, n, s.given[n]);
    hide KeysOk, OwnOk, GoneOk, TailOk, ClearedOk, Slot, Blocks;
    SlotWraps(n, Current(s).shift, |Current(s).index|);
  }

  lemma PublishedInReach(s: State)
    requires Global(s) && s.producer.WriteKey?
    ensures Max(s.hi, Current(s).at + 1) < Published(s) + |Current(s).index|
  {
    TailFacts(s);
    if Published(s) in s.given {
      StaysInReach(s, Published(s));
    } else {
      assert Current(s).at == Published(s) - 1 by { hide KeysOk, OwnOk, GoneOk, TailOk, ClearedOk, IndexOk, Blocks; }
    }
  }

  lemma KeyedPlus(s: State, x: int, lo: int)
    requires IndexOk(s.headers, |s.entries|) && EntryOf(Current(s), x) < |s.entries| && Keyed(Current(s), s.entries, lo, s.hi)
    requires lo <= x <= s.hi + 1 && Max(s.hi, x) < lo + |Current(s).index|
    ensures var e := EntryOf(Current(s), x);
            Keyed(Current(s), s.entries[e := s.entries[e].(key := Number(x))], lo, Max(s.hi, x))
  {
    var h, e := Current(s), EntryOf(Current(s), x);
    var entries' := s.entries[e := s.entries[e].(key := Number(x))];
    forall k: int | lo <= k <= Max(s.hi, x) ensures EntryHas(h, entries', k) {
      if k < x {
        EntriesDiffer(s, k, x);
        assert EntryHas(h, s.entries, k);
      } else if k > x {
        EntriesDiffer(s, x, k);
        assert EntryHas(h, s.entries, k);
      }
    }
  }

  lemma PutKeyKeys(s: State, job: Job)
    requires Global(s) && s.producer == WriteKey(job)
    ensures EntryOf(Current(s), Current(s).at + 1) < |s.entries|
    ensures var s' := PutKey(s, job, EntryOf(Current(s), Current(s).at + 1));
            KeysOk(Current(s'), s'.entries, s'.given, s'.hi, Published(s'))
  {
    var h, x := Current(s), Current(s).at + 1;
    EntryInRange(s, x);
    TailFacts(s);
    var s' := PutKey(s, job, EntryOf(h, x));
    PublishedInReach(s);
    KeyedPlus(s, x, Published(s));
    hide Slot, Blocks, ClearedOk, AllocOk, OwnOk, GoneOk, TailOk, JobOk;
    forall n | n in s'.given ensures Held(h, s'.entries, s'.hi, n, s'.given[n]) {
      StaysInReach(s, n);
      KeyedPlus(s, x, n);
      assert EntryHas(h, s'.entries, n);
    }
  }

  lemma PutKeyInv(s: State, job: Job)
    requires Inv(s) && s.producer == WriteKey(job)
    ensures EntryOf(Current(s), Current(s).at + 1) < |s.entries|
    ensures Inv(PutKey(s, job, EntryOf(Current(s), Current(s).at + 1)))
  {
    PutKeyKeys(s, job);
    var s' := PutKey(s, job, EntryOf(Current(s), Current(s).at + 1));
    hide Slot, Base, Blocks, NumberOf, ClaimsOk, ConsumerOk, EntryHas, Held, Keyed, Gone;
    assert JobOk(s') by { hide KeysOk, OwnOk, GoneOk, TailOk, ClearedOk, AllocOk; }
    assert ClearedOk(s') by {
      hide KeysOk, OwnOk, GoneOk, TailOk, IndexOk, AllocOk;
      forall k: int {:trigger Cleared(Current(s'), s'.entries, k)} | TakenBack(s', k)
        ensures Cleared(Current(s'), s'.entries, k)
      {
        assert TakenBack(s, k);
        assert Cleared(Current(s), s.entries, k);
      }
    }
    assert AllocOk(s') && OwnOk(s'.given, s'.mine, s'.producer);
    assert ProducerMoves(s, s') by { hide KeysOk, OwnOk, GoneOk, TailOk, JobOk, ClearedOk; }
    hide KeysOk, ClearedOk, OwnOk, GoneOk, TailOk, JobOk, AllocOk, IndexOk, ProducerMoves;
    ProducerFrame(s, s');
  }

  // ---------- new_block_index ----------

  /** A number that was taken back finds its entry free. */
  lemma TakenBackIsFree(s: State, job: Job)
    requires Global(s) && s.producer == Insert(job) && Current(s).at < s.hi
    ensures EntryOf(Current(s), Current(s).at + 1) < |s.entries|
    ensures EntryIsFree(s.entries[EntryOf(Current(s), Current(s).at + 1)])
  {
    TailFacts(s);
    hide KeysOk, OwnOk, GoneOk, TailOk, IndexOk, AllocOk, JobOk, Slot, Blocks;
    assert TakenBack(s, Current(s).at + 1);
    assert Cleared(Current(s), s.entries, Current(s).at + 1);
  }

  lemma GrowsAtTop(s: State, job: Job)
    requires Global(s) && s.producer == Insert(job)
    requires EntryOf(Current(s), Current(s).at + 1) < |s.entries|
    requires !EntryIsFree(s.entries[EntryOf(Current(s), Current(s).at + 1)])
    ensures Current(s).at == s.hi
  {
    TailFacts(s);
    if Current(s).at < s.hi {
      TakenBackIsFree(s, job);
    }
  }

  /** The last numbers have the same entries in the new index. */
  lemma GrownEntry(s: State, k: int)
    requires IndexOk(s.headers, |s.entries|) && Current(s).at - |Current(s).index| < k <= Current(s).at
    ensures EntryOf(Current(Grow(s)), k) == EntryOf(Current(s), k)
  {
    var h, capacity, j := Current(s), |Current(s).index|, k - Current(s).at + |Current(s).index| - 1;
    SmallSlot(j, 2 * capacity);
    assert Slot(k, capacity - 1 - h.at, 2 * capacity) == j;
    SlotFrom(h.at, 1 + j, h.shift, capacity);
    SlotWraps(k, h.shift, capacity);
  }

  lemma GrownIndexOk(s: State)
    requires IndexOk(s.headers, |s.entries|)
    ensures IndexOk(Grow(s).headers, |Grow(s).entries|)
  {
    var s' := Grow(s);
    var h, h', capacity := Current(s), Current(s'), |Current(s).index|;
    SmallSlot(capacity - 1, 2 * capacity);
    assert h'.tail == Slot(h'.at, h'.shift, |h'.index|);
    forall x, y | 0 <= x < y < 2 * capacity ensures h'.index[x] != h'.index[y] {
      SlotBelow(h.tail, 1 + x, capacity);
      if y < capacity {
        SlotsDiffer(h.tail + x, h.tail + y, 1, capacity);
        SlotBelow(h.tail, 1 + y, capacity);
      }
    }
    forall x | 0 <= x < 2 * capacity ensures h'.index[x] < |s'.entries| {
      SlotBelow(h.tail, 1 + x, capacity);
    }
    hide Slot;
  }

  lemma GrownKeys(s: State)
    requires Global(s) && Current(s).at == s.hi
    ensures var s' := Grow(s); KeysOk(Current(s'), s'.entries, s'.given, s'.hi, Published(s'))
  {
    var s' := Grow(s);
    var h, h' := Current(s), Current(s');
    hide Slot, Blocks, ClearedOk, AllocOk, OwnOk, GoneOk, TailOk, JobOk, FreshOk, EntryOf;
    forall k: int | s.hi - |h.index| < k <= s.hi && EntryHas(h, s.entries, k) ensures EntryHas(h', s'.entries, k) {
      GrownEntry(s, k);
    }
    assert Keyed(h', s'.entries, Published(s'), s'.hi) by {
      forall k: int | Published(s) <= k <= s.hi ensures EntryHas(h', s'.entries, k) {
        assert EntryHas(h, s.entries, k);
      }
    }
    forall n | n in s'.given ensures Held(h', s'.entries, s'.hi, n, s'.given[n]) {
      assert Held(h, s.entries, s.hi, n, s.given[n]);
      forall k: int | n <= k <= s.hi ensures EntryHas(h', s'.entries, k) {
        assert EntryHas(h, s.entries, k);
      }
      GrownEntry(s, n);
    }
  }

  lemma GrowInv(s: State, job: Job)
    requires Inv(s) && s.producer == Insert(job)
    requires EntryOf(Current(s), Current(s).at + 1) < |s.entries|
    requires !EntryIsFree(s.entries[EntryOf(Current(s), Current(s).at + 1)])
    ensures Inv(Grow(s))
  {
    var s' := Grow(s);
    GrowsAtTop(s, job);
    GrownIndexOk(s);
    GrownKeys(s);
    TailFacts(s);
    hide Slot, Base, Blocks, NumberOf, ClaimsOk, ConsumerOk, EntryHas, Held, Keyed, Gone, EntryOf, KeysOk, OwnOk, GoneOk;
    assert JobOk(s') && FreshOk(s') && AllocOk(s') && TailOk(s');
    assert ClearedOk(s') by { hide TailOk; }
    assert ProducerMoves(s, s') by {
      hide TailOk, JobOk, AllocOk, ClearedOk;
      forall k: int {:trigger EntryOf(Current(s'), k)} | s.hi - |Current(s).index| < k <= s.hi
        ensures EntryOf(Current(s'), k) == EntryOf(Current(s), k)
      {
        GrownEntry(s, k);
      }
    }
    hide ClearedOk, TailOk, JobOk, AllocOk, IndexOk, ProducerMoves;
    ProducerFrame(s, s');
  }

  lemma ProducerInv(s: State, s': State)
    requires Inv(s) && ProducerStep(s, s')
    ensures Inv(s')
  {
    hide Global, ClaimsOk, ConsumerOk;
    var at := Current(s).at;
    match s.producer
    case Ready =>
      var count :| s' == Enqueue(s, count);
      EnqueueInv(s, count);
    case Insert(job) =>
      var e := EntryOf(Current(s), at + 1);
      if e < |s.entries| && EntryIsFree(s.entries[e]) && s' == s.(producer := WriteKey(job)) {
        StartInsertInv(s, job);
      } else if e < |s.entries| && !EntryIsFree(s.entries[e]) && s' == Grow(s) {
        GrowInv(s, job);
      } else {
        FailInv(s, job);
      }
    case WriteKey(job) => PutKeyInv(s, job);
    case MoveTail(job) => MoveTailInv(s, job);
    case TakeBlock(job) =>
      if s' == s.(producer := Rewind) {
        NoBlockInv(s, job);
      } else {
        var block: nat :| block !in s.mine && block !in s.leaving
          && s' == s.(mine := s.mine + {block}, gone := s.gone[block := 0], producer := WriteValue(job, block));
        TakeInv(s, job, block);
      }
    case WriteValue(job, block) => PutValueInv(s, job, block);
    case Rewind => RewindInv(s);
    case ClearEntry => ClearInv(s);
    case Undo(k, last, back) =>
      if k <= last {
        LocatedIs(s, k, last, back);
        UndoOneInv(s, k, last, back);
      } else {
        UndoneInv(s, k, last, back);
      }
    case UndoTail(k, last, back) => UndoTailInv(s, k, last, back);
    case GiveBack(back) =>
      if back == {} {
        AllBackInv(s);
      } else {
        var b :| b in back && s' == s.(mine := s.mine - {b}, producer := GiveBack(back - {b}));
        GivesOne(s, back, b);
        GiveBackInv(s, s', back);
      }
    case Publish(job) => PublishInv(s, job);
  }

  // ---------- The consumers' steps keep the invariant ----------

  /** A consumer moves on without touching entries; it may take a claim. */
  lemma ConsumerFrame(s: State, s': State, t: nat)
    requires Inv(s) && t < |s.consumers| && |s'.consumers| == |s.consumers|
    requires s' == Goto(s, t, s'.consumers[t]).(head := s'.head, leaving := s'.leaving) && s.head <= s'.head <= s.tail
    requires ConsumerOk(s', s'.consumers[t]) && ClaimOk(s', s'.consumers[t])
    requires forall u :: 0 <= u < |s.consumers| && u != t ==>
               Apart(s'.consumers[t], s.consumers[u]) && Apart(s.consumers[u], s'.consumers[t])
    ensures Inv(s')
  {
    hide Slot, Base, Blocks, NumberOf, EntryHas, Held, Keyed, Gone, EntryOf, TakenBack;
    assert Global(s') by {
      hide ClaimsOk, ConsumerOk;
      assert ClearedOk(s') by {
        forall k: int {:trigger Cleared(Current(s'), s'.entries, k)} | TakenBack(s', k)
        ensures Cleared(Current(s'), s'.entries, k)
      {
          SameTakenBack(s, s', k);
          assert Cleared(Current(s), s.entries, k);
        }
      }
    }
    hide Global;
    forall u | 0 <= u < |s'.consumers| ensures ConsumerOk(s', s'.consumers[u]) {
      if u != t {
        SameConsumer(s, s', s.consumers[u]);
      }
    }
    hide ConsumerOk;
    assert ClaimsOk(s') by {
      forall u | 0 <= u < |s'.consumers| ensures ClaimOk(s', s'.consumers[u]) {
        assert ClaimOk(s, s.consumers[u]);
      }
      forall u, v | 0 <= u < v < |s'.consumers| ensures Apart(s'.consumers[u], s'.consumers[v]) {
        assert Apart(s.consumers[u], s.consumers[v]);
      }
    }
  }

  lemma SameTakenBack(s: State, s': State, k: int)
    requires s.blockSize > 0 && |s.headers| > 0 && s' == s.(consumers := s'.consumers, head := s'.head, leaving := s'.leaving)
    ensures TakenBack(s', k) == TakenBack(s, k)
  {
  }

  lemma SameConsumer(s: State, s': State, c: Consumer)
    requires s.blockSize > 0 && s' == s.(consumers := s'.consumers, head := s'.head, leaving := s'.leaving) && ConsumerOk(s, c)
    ensures ConsumerOk(s', c)
  {
    hide Slot, NumberOf, LastNumber, Gone, Offsets, Blocks;
    SamePaths(s, s');
    hide Path;
  }

  lemma SamePaths(s: State, s': State)
    requires s' == s.(consumers := s'.consumers, head := s'.head, leaving := s'.leaving)
    ensures forall h, lo, up :: Path(s', h, lo, up) == Path(s, h, lo, up)
  {
  }

  lemma ClaimInv(s: State, t: nat, count: nat)
    requires Inv(s) && t < |s.consumers| && s.consumers[t] == Idle && 0 < count <= s.tail - s.head
    ensures Inv(Claim(s, t, count))
  {
    var s' := Claim(s, t, count);
    forall u | 0 <= u < |s.consumers| && u != t
      ensures Apart(s'.consumers[t], s.consumers[u]) && Apart(s.consumers[u], s'.consumers[t])
    {
      assert ClaimOk(s, s.consumers[u]);
    }
    assert ClaimOk(s', s'.consumers[t]) by { hide IndexOk, KeysOk, ClearedOk, AllocOk, OwnOk, GoneOk, JobOk; }
    Waits(s', s'.consumers[t]);
    hide Global, ConsumerOk, ClaimOk, Apart;
    ConsumerFrame(s, s', t);
  }

  /** The consumer is between two shared steps with elements to take. */
  predicate Seeking(c: Consumer) { !c.Idle? && !c.Release? && !c.Return? }

  /** What a moving consumer keeps of its claim. */
  lemma SameClaim(s: State, s': State, t: nat)
    requires ClaimsOk(s) && t < |s.consumers| && Seeking(s.consumers[t])
    requires |s'.consumers| == |s.consumers| && Seeking(s'.consumers[t])
    requires s' == Goto(s, t, s'.consumers[t]).(leaving := s'.leaving)
    requires s'.consumers[t].index == s.consumers[t].index && s'.consumers[t].end == s.consumers[t].end
    ensures ClaimOk(s', s'.consumers[t]) && ClaimOk(s, s.consumers[t])
    ensures forall u :: 0 <= u < |s.consumers| && u != t ==>
              Apart(s'.consumers[t], s.consumers[u]) && Apart(s.consumers[u], s'.consumers[t])
  {
    assert ClaimOk(s, s.consumers[t]);
    forall u | 0 <= u < |s.consumers| && u != t
      ensures Apart(s'.consumers[t], s.consumers[u]) && Apart(s.consumers[u], s'.consumers[t])
    {
      assert Apart(s.consumers[if t < u then t else u], s.consumers[if t < u then u else t]);
    }
  }

  lemma HeadTail(s: State)
    requires Global(s)
    ensures s.head <= s.tail
  {
  }

  /** A consumer that keeps its claim moves on. */
  lemma MoveOn(s: State, t: nat, c: Consumer)
    requires Inv(s) && t < |s.consumers| && Seeking(s.consumers[t]) && Seeking(c)
    requires c.index == s.consumers[t].index && c.end == s.consumers[t].end
    requires ConsumerOk(s, c)
    ensures Inv(Goto(s, t, c))
  {
    var s' := Goto(s, t, c);
    SameClaim(s, s', t);
    HeadTail(s);
    SameConsumer(s, s', c);
    hide Global, ConsumerOk, ClaimsOk, ClaimOk, Apart;
    ConsumerFrame(s, s', t);
  }

  lemma LoadHeaderInv(s: State, t: nat, i: nat, end: nat)
    requires Inv(s) && t < |s.consumers| && s.consumers[t] == LoadHeader(i, end)
    ensures Inv(Goto(s, t, LoadTail(i, end, |s.headers| - 1)))
  {
    assert ClaimOk(s, s.consumers[t]);
    ClaimFacts(s, s.consumers[t]);
    CurrentPath(s, NumberOf(s.blockSize, i), Current(s).at);
    hide Global, ClaimsOk, ClaimOk, Path, NumberOf, LastNumber;
    MoveOn(s, t, LoadTail(i, end, |s.headers| - 1));
  }

  lemma LoadTailInv(s: State, t: nat, i: nat, end: nat, h: nat)
    requires Inv(s) && t < |s.consumers| && s.consumers[t] == LoadTail(i, end, h)
    ensures h < |s.headers| && Inv(Goto(s, t, LoadKey(i, end, h, s.headers[h].tail, s.headers[h].at)))
  {
    assert ConsumerOk(s, s.consumers[t]);
    assert HeaderOk(s.headers[h], |s.entries|);
    hide Global, ClaimsOk, Path, NumberOf, LastNumber, Slot;
    MoveOn(s, t, LoadKey(i, end, h, s.headers[h].tail, s.headers[h].at));
  }

  /** What an index header leads to on the path: the entry with the key, and with the block if it is held. */
  lemma OnPath(s: State, h: nat, lo: int, up: int, k: int)
    requires Global(s) && h < |s.headers| && Path(s, s.headers[h], lo, up) && lo <= k <= up
    ensures Holds(s, h, Slot(k, s.headers[h].shift, |s.headers[h].index|))
    ensures At(s, h, Slot(k, s.headers[h].shift, |s.headers[h].index|)) == s.entries[EntryOf(Current(s), k)]
    ensures EntryOf(Current(s), k) < |s.entries|
  {
    assert HeaderOk(s.headers[h], |s.entries|);
    SlotBelow(k, s.headers[h].shift, |s.headers[h].index|);
    EntryInRange(s, k);
    assert EntryOf(s.headers[h], k) == EntryOf(Current(s), k);
  }

  lemma TailKey(s: State, t: nat, i: nat, end: nat, h: nat, tail: nat, at: int)
    requires Inv(s) && t < |s.consumers| && s.consumers[t] == LoadKey(i, end, h, tail, at)
    ensures Holds(s, h, tail) && At(s, h, tail).key == Number(at)
    ensures SlotOk(s, i, end, h, Slot(tail, NumberOf(s.blockSize, i) - at, |s.headers[h].index|))
  {
    assert ConsumerOk(s, s.consumers[t]) && ClaimOk(s, s.consumers[t]);
    var n := NumberOf(s.blockSize, i);
    ClaimFacts(s, s.consumers[t]);
    OnPath(s, h, n, at, at);
    HeadTail(s);
    ClaimedIsHeld(s, i, end, n);
    assert EntryHas(Current(s), s.entries, at);
    hide Global, ClaimsOk, ClaimOk, ConsumerOk, Held, Keyed, EntryHas, EntryOf;
    SlotFrom(at, n - at, s.headers[h].shift, |s.headers[h].index|);
    SubPath(s, s.headers[h], n, at, n, LastNumber(s.blockSize, end));
  }

  lemma LoadKeyInv(s: State, t: nat, i: nat, end: nat, h: nat, tail: nat, at: int)
    requires Inv(s) && t < |s.consumers| && s.consumers[t] == LoadKey(i, end, h, tail, at)
    ensures Holds(s, h, tail) && At(s, h, tail).key == Number(at)
    ensures Inv(Goto(s, t, Find(i, end, h, Slot(tail, NumberOf(s.blockSize, i) - at, |s.headers[h].index|))))
  {
    TailKey(s, t, i, end, h, tail, at);
    hide Global, ClaimsOk, SlotOk, NumberOf, Slot;
    MoveOn(s, t, Find(i, end, h, Slot(tail, NumberOf(s.blockSize, i) - at, |s.headers[h].index|)));
  }

  lemma SubPath(s: State, h: Header, lo: int, up: int, lo': int, up': int)
    requires Path(s, h, lo, up) && lo <= lo' && up' <= up
    ensures Path(s, h, lo', up')
  {
  }

  lemma FindInv(s: State, t: nat, i: nat, end: nat, h: nat, slot: nat)
    requires Inv(s) && t < |s.consumers| && s.consumers[t] == Find(i, end, h, slot)
    ensures Holds(s, h, slot) && NumberOf(s.blockSize, i) in s.given
    ensures At(s, h, slot) == Entry(Number(NumberOf(s.blockSize, i)), Block(s.given[NumberOf(s.blockSize, i)]))
    ensures Inv(Goto(s, t, Use(i, end, h, slot, s.given[NumberOf(s.blockSize, i)])))
  {
    assert ConsumerOk(s, s.consumers[t]) && ClaimOk(s, s.consumers[t]);
    var n := NumberOf(s.blockSize, i);
    ClaimFacts(s, s.consumers[t]);
    OnPath(s, h, n, LastNumber(s.blockSize, end), n);
    HeadTail(s);
    ClaimedIsHeld(s, i, end, n);
    assert EntryHas(Current(s), s.entries, n);
    hide Global, ClaimsOk, Path, NumberOf, LastNumber, Slot, ClaimOk, Held, Keyed;
    MoveOn(s, t, Use(i, end, h, slot, s.given[n]));
  }

  // ---------- Emptying a block ----------

  ghost predicate Full(size: nat, done: set<nat>, n: nat) {
    Offsets(0, size) <= Gone(size, done, n)
  }

  lemma FullMeansDone(size: nat, done: set<nat>, n: nat, i: nat)
    requires size > 0 && Full(size, done, n) && NumberOf(size, i) == n
    ensures i in done
  {
    NumberBounds(size, i);
    var o: nat := i - Base(size, n);
    assert o in Offsets(0, size);
    assert o in Gone(size, done, n);
  }

  /** Emptying a portion changes nothing in other blocks. */
  lemma GoneElsewhere(size: nat, done: set<nat>, i: nat, end: nat, k: nat)
    requires size > 0 && i < end && k != NumberOf(size, i)
    ensures Gone(size, done + Offsets(i, i + Portion(size, i, end)), k) == Gone(size, done, k)
  {
    var p := Portion(size, i, end);
    hide Portion, Base;
    var done' := done + Offsets(i, i + p);
    forall x: nat ensures x in Gone(size, done', k) <==> x in Gone(size, done, k) {
      if x < size {
        SamePortion(size, i, end, k, x);
      }
    }
  }

  /** The offsets that are emptied together: this many, and none of them gone before. */
  lemma PortionOffsets(size: nat, i: nat, end: nat) returns (part: set<nat>)
    requires size > 0 && i < end
    ensures |part| == Portion(size, i, end)
    ensures forall x: nat :: x in part <==>
              x < size && Base(size, NumberOf(size, i)) + x in Offsets(i, i + Portion(size, i, end))
  {
    var p, o := Portion(size, i, end), i % size;
    part := Offsets(o, o + p);
    CountOffsets(o, o + p);
    PortionInBlock(size, i, end);
    hide Portion, Base;
    forall x: nat ensures x in part <==> x < size && Base(size, NumberOf(size, i)) + x in Offsets(i, i + p) {
      if x < size {
        SamePortion(size, i, end, NumberOf(size, i), x);
      }
    }
  }

  /** What one portion adds to the gone elements of its block. */
  lemma GoneParts(size: nat, done: set<nat>, i: nat, end: nat) returns (part: set<nat>)
    requires size > 0 && i < end && forall x: nat :: i <= x < end ==> x !in done
    ensures var p, n := Portion(size, i, end), NumberOf(size, i);
            var gone' := Gone(size, done + Offsets(i, i + p), n);
            gone' == Gone(size, done, n) + part && Gone(size, done, n) !! part && |part| == p
  {
    PortionInBlock(size, i, end);
    part := PortionOffsets(size, i, end);
    hide Portion, Base, NumberOf;
  }

  /** The counter is exact, and reaches the block size exactly when the block is full. */
  lemma CountAfter(size: nat, done: set<nat>, i: nat, end: nat)
    requires size > 0 && i < end && forall x: nat :: i <= x < end ==> x !in done
    ensures var p, n := Portion(size, i, end), NumberOf(size, i);
            var gone' := Gone(size, done + Offsets(i, i + p), n);
            && |gone'| == |Gone(size, done, n)| + p
            && (|gone'| == size <==> Full(size, done + Offsets(i, i + p), n))
  {
    hide Portion, Gone, Offsets, Base, NumberOf;
    var p, n := Portion(size, i, end), NumberOf(size, i);
    var done' := done + Offsets(i, i + p);
    var part := GoneParts(size, done, i, end);
    CountOffsets(0, size);
    GoneWithin(size, done', n);
    CountSets(Gone(size, done, n), part, Gone(size, done', n), Offsets(0, size), p, size);
  }

  lemma GoneWithin(size: nat, done: set<nat>, n: nat)
    ensures Gone(size, done, n) <= Offsets(0, size)
  {
  }

  lemma CountSets(gone: set<nat>, part: set<nat>, gone': set<nat>, all: set<nat>, p: nat, size: nat)
    requires gone' == gone + part && gone !! part && |part| == p && gone' <= all && |all| == size
    ensures |gone'| == |gone| + p && (|gone'| == size <==> all <= gone')
  {
    Counting.SubsetSize(gone', all);
    if all <= gone' {
      Counting.SubsetSize(all, gone');
    }
  }

  lemma UseFacts(s: State, t: nat, i: nat, end: nat, h: nat, slot: nat, block: nat)
    requires Inv(s) && t < |s.consumers| && s.consumers[t] == Use(i, end, h, slot, block)
    ensures s.blockSize > 0 && Holds(s, h, slot) && i < end <= s.head <= s.tail && block in s.gone
    ensures var n := NumberOf(s.blockSize, i); n in s.given && s.given[n] == block && n < Published(s)
    ensures forall x: nat :: i <= x < end ==> x !in s.done
  {
    assert ConsumerOk(s, s.consumers[t]) && ClaimOk(s, s.consumers[t]);
    var n := NumberOf(s.blockSize, i);
    ClaimFacts(s, s.consumers[t]);
    OnPath(s, h, n, LastNumber(s.blockSize, end), n);
    HeadTail(s);
  }

  /** The counters stay exact. */
  lemma GoneStays(size: nat, given: map<nat, nat>, gone: map<nat, nat>, done: set<nat>, mine: set<nat>, p: Producer,
                  i: nat, end: nat, n: nat)
    requires size > 0 && GoneOk(size, given, gone, done, p) && OwnOk(given, mine, p)
    requires i < end && (forall x: nat :: i <= x < end ==> x !in done) && n == NumberOf(size, i) && n in given
    ensures GoneOk(size, given, gone[given[n] := gone[given[n]] + Portion(size, i, end)],
                   done + Offsets(i, i + Portion(size, i, end)), p)
  {
    var count, done' := Portion(size, i, end), done + Offsets(i, i + Portion(size, i, end));
    hide Gone, Offsets, Portion, NumberOf, Full;
    CountAfter(size, done, i, end);
    forall m | m in given && m != n ensures |Gone(size, done', m)| == |Gone(size, done, m)| {
      GoneElsewhere(size, done, i, end, m);
    }
  }

  lemma EmptyGone(s: State, t: nat, i: nat, end: nat, h: nat, slot: nat, block: nat)
    requires Global(s) && t < |s.consumers| && Holds(s, h, slot) && block in s.gone && i < end
    requires NumberOf(s.blockSize, i) in s.given && s.given[NumberOf(s.blockSize, i)] == block
    requires forall x: nat :: i <= x < end ==> x !in s.done
    ensures var s' := Empty(s, t, i, end, h, slot, block); GoneOk(s'.blockSize, s'.given, s'.gone, s'.done, s'.producer)
  {
    hide IndexOk, KeysOk, ClearedOk, AllocOk, TailOk, JobOk, FreshOk, GoneOk, OwnOk, Portion, NumberOf, Offsets;
    GoneStays(s.blockSize, s.given, s.gone, s.done, s.mine, s.producer, i, end, NumberOf(s.blockSize, i));
  }

  lemma EmptyTail(s: State, t: nat, i: nat, end: nat, h: nat, slot: nat, block: nat)
    requires Global(s) && t < |s.consumers| && Holds(s, h, slot) && block in s.gone && i < end <= s.head
    ensures TailOk(Empty(s, t, i, end, h, slot, block))
  {
    PortionInBlock(s.blockSize, i, end);
    hide IndexOk, KeysOk, ClearedOk, AllocOk, OwnOk, GoneOk, JobOk, FreshOk, Portion, NumberOf, Blocks;
  }

  lemma EmptyCleared(s: State, t: nat, i: nat, end: nat, h: nat, slot: nat, block: nat)
    requires s.blockSize > 0 && |s.headers| > 0 && ClearedOk(s)
    requires t < |s.consumers| && Holds(s, h, slot) && block in s.gone && i < end
    ensures ClearedOk(Empty(s, t, i, end, h, slot, block))
  {
    hide Portion, Offsets, NumberOf, Blocks, Cleared;
    var s' := Empty(s, t, i, end, h, slot, block);
    forall k: int {:trigger Cleared(Current(s'), s'.entries, k)} | TakenBack(s', k)
        ensures Cleared(Current(s'), s'.entries, k)
      {
      assert TakenBack(s, k);
      assert Cleared(Current(s), s.entries, k);
    }
  }

  lemma EmptyJob(s: State, t: nat, i: nat, end: nat, h: nat, slot: nat, block: nat)
    requires Global(s) && t < |s.consumers| && Holds(s, h, slot) && block in s.gone && i < end
    ensures var s' := Empty(s, t, i, end, h, slot, block); JobOk(s') && FreshOk(s') && AllocOk(s')
  {
    hide KeysOk, ClearedOk, OwnOk, GoneOk, TailOk, Slot, Blocks, Portion, Offsets, NumberOf;
  }

  lemma EmptyGlobal(s: State, t: nat, i: nat, end: nat, h: nat, slot: nat, block: nat)
    requires Global(s) && t < |s.consumers| && Holds(s, h, slot) && block in s.gone && i < end <= s.head
    requires NumberOf(s.blockSize, i) in s.given && s.given[NumberOf(s.blockSize, i)] == block
    requires forall x: nat :: i <= x < end ==> x !in s.done
    ensures Global(Empty(s, t, i, end, h, slot, block))
  {
    hide IndexOk, KeysOk, ClearedOk, AllocOk, OwnOk, GoneOk, TailOk, JobOk, FreshOk, Slot, Blocks, Portion, Offsets, NumberOf;
    EmptyCleared(s, t, i, end, h, slot, block);
    EmptyGone(s, t, i, end, h, slot, block);
    EmptyTail(s, t, i, end, h, slot, block);
    EmptyJob(s, t, i, end, h, slot, block);
  }

  /** The consumer goes on in the next slot. */
  lemma OnwardOk(s: State, i: nat, end: nat, h: nat, slot: nat, n: nat)
    requires s.blockSize > 0 && h < |s.headers| && Path(s, s.headers[h], n, Max(n, LastNumber(s.blockSize, end)))
    requires slot == Slot(n, s.headers[h].shift, |s.headers[h].index|)
    requires i < end ==> NumberOf(s.blockSize, i) == n + 1
    ensures ConsumerOk(s, Onward(i, end, h, slot, |s.headers[h].index|))
  {
    if i < end {
      LastNumberFacts(s.blockSize, i, end);
      SlotFrom(n, 1, s.headers[h].shift, |s.headers[h].index|);
      assert Slot(slot, 1, |s.headers[h].index|) == (slot + 1) % |s.headers[h].index|;
      SubPath(s, s.headers[h], n, Max(n, LastNumber(s.blockSize, end)), n + 1, LastNumber(s.blockSize, end));
    }
  }

  lemma AfterPortion(size: nat, i: nat, end: nat)
    requires size > 0 && i < end
    ensures var stop := i + Portion(size, i, end);
            stop <= end && (stop < end ==> NumberOf(size, stop) == NumberOf(size, i) + 1)
  {
    PortionInBlock(size, i, end);
    if i + Portion(size, i, end) < end {
      NextStop(size, i, end);
    }
  }

  /** The consumer that takes the last element of a block goes on to release it. */
  lemma EmptyCount(s: State, i: nat, end: nat, block: nat)
    requires Global(s) && i < end && NumberOf(s.blockSize, i) in s.given && s.given[NumberOf(s.blockSize, i)] == block
    requires forall x: nat :: i <= x < end ==> x !in s.done
    ensures block in s.gone
    ensures var p := Portion(s.blockSize, i, end);
            s.gone[block] + p == s.blockSize
            <==> Full(s.blockSize, s.done + Offsets(i, i + p), NumberOf(s.blockSize, i))
  {
    hide IndexOk, KeysOk, ClearedOk, AllocOk, OwnOk, TailOk, JobOk, FreshOk, Full, Gone, Offsets, Portion, NumberOf;
    CountAfter(s.blockSize, s.done, i, end);
  }

  lemma EmptyNext(s: State, t: nat, i: nat, end: nat, h: nat, slot: nat, block: nat)
    requires Global(s) && t < |s.consumers| && Holds(s, h, slot) && block in s.gone && i < end <= s.head
    requires SlotOk(s, i, end, h, slot) && NumberOf(s.blockSize, i) < Published(s)
    requires NumberOf(s.blockSize, i) in s.given && s.given[NumberOf(s.blockSize, i)] == block
    requires forall x: nat :: i <= x < end ==> x !in s.done
    ensures var s' := Empty(s, t, i, end, h, slot, block); ConsumerOk(s', s'.consumers[t])
  {
    hide IndexOk, KeysOk, ClearedOk, AllocOk, OwnOk, GoneOk, TailOk, JobOk, FreshOk;
    hide Path, Slot, LastNumber, Full, Gone, Offsets, Portion, Base, NumberOf, Published;
    var s', n, stop := Empty(s, t, i, end, h, slot, block), NumberOf(s.blockSize, i), i + Portion(s.blockSize, i, end);
    EmptyCount(s, i, end, block);
    LastNumberFacts(s.blockSize, i, end);
    AfterPortion(s.blockSize, i, end);
    SameHeaderPath(s, s', s.headers[h], n, LastNumber(s.blockSize, end));
    if s'.consumers[t].Release? {
      SamePublished(s, s');
    } else {
      OnwardOk(s', stop, end, h, slot, n);
    }
  }

  lemma SameHeaderPath(s: State, s': State, h: Header, lo: int, up: int)
    requires Path(s, h, lo, up) && s'.headers == s.headers
    ensures Path(s', h, lo, up)
  {
  }

  lemma SamePublished(s: State, s': State)
    requires s.blockSize > 0 && s'.blockSize == s.blockSize && s'.tail == s.tail
    ensures Published(s') == Published(s)
  {
  }

  /** A consumer's claim, seen from another thread. */
  lemma ApartFrom(s: State, t: nat, u: nat)
    requires ClaimsOk(s) && t < |s.consumers| && u < |s.consumers| && u != t
    ensures Apart(s.consumers[t], s.consumers[u]) && Apart(s.consumers[u], s.consumers[t]) && ClaimOk(s, s.consumers[u])
  {
    assert Apart(s.consumers[if t < u then t else u], s.consumers[if t < u then u else t]);
  }

  /** The other consumers keep their claims; none of them is releasing the block of an index in use. */
  lemma EmptyOther(s: State, t: nat, i: nat, end: nat, h: nat, slot: nat, block: nat, u: nat)
    requires Inv(s) && t < |s.consumers| && s.consumers[t] == Use(i, end, h, slot, block)
    requires Holds(s, h, slot) && block in s.gone && i < end && u < |s.consumers| && u != t
    ensures var s' := Empty(s, t, i, end, h, slot, block);
            ClaimOk(s', s'.consumers[u]) && Apart(s'.consumers[t], s'.consumers[u]) && Apart(s'.consumers[u], s'.consumers[t])
  {
    hide IndexOk, KeysOk, ClearedOk, AllocOk, OwnOk, GoneOk, TailOk, JobOk, FreshOk, Offsets, Portion;
    ApartFrom(s, t, u);
    assert ClaimOk(s, s.consumers[t]) && ConsumerOk(s, s.consumers[u]);
    PortionInBlock(s.blockSize, i, end);
    var c := s.consumers[u];
    if c.Release? && c.n == NumberOf(s.blockSize, i) {
      FullMeansDone(s.blockSize, s.done, c.n, i);
    }
    hide ConsumerOk, Path;
  }

  lemma EmptyOwnClaim(s: State, t: nat, i: nat, end: nat, h: nat, slot: nat, block: nat)
    requires Inv(s) && t < |s.consumers| && s.consumers[t] == Use(i, end, h, slot, block)
    requires Holds(s, h, slot) && block in s.gone && i < end
    ensures var s' := Empty(s, t, i, end, h, slot, block); ClaimOk(s', s'.consumers[t])
  {
    hide IndexOk, KeysOk, ClearedOk, AllocOk, OwnOk, GoneOk, TailOk, JobOk, FreshOk, Offsets, Portion, ConsumerOk;
    assert ClaimOk(s, s.consumers[t]);
    PortionInBlock(s.blockSize, i, end);
  }

  lemma EmptyClaims(s: State, t: nat, i: nat, end: nat, h: nat, slot: nat, block: nat)
    requires Inv(s) && t < |s.consumers| && s.consumers[t] == Use(i, end, h, slot, block)
    requires Holds(s, h, slot) && block in s.gone && i < end
    ensures ClaimsOk(Empty(s, t, i, end, h, slot, block))
  {
    var s' := Empty(s, t, i, end, h, slot, block);
    hide Global, ConsumerOk, ClaimOk, Apart;
    EmptyOwnClaim(s, t, i, end, h, slot, block);
    forall u | 0 <= u < |s'.consumers| && u != t
      ensures ClaimOk(s', s'.consumers[u]) && Apart(s'.consumers[t], s'.consumers[u]) && Apart(s'.consumers[u], s'.consumers[t])
    {
      EmptyOther(s, t, i, end, h, slot, block, u);
    }
    forall u, v | 0 <= u < v < |s'.consumers| ensures Apart(s'.consumers[u], s'.consumers[v]) {
      assert Apart(s.consumers[u], s.consumers[v]);
    }
  }

  /** Other consumers do not depend on what is gone, but for those that release a full block. */
  lemma EmptyConsumer(s: State, s': State, c: Consumer)
    requires s.blockSize > 0 && ConsumerOk(s, c) && s.done <= s'.done
    requires s' == s.(consumers := s'.consumers, gone := s'.gone, done := s'.done)
    ensures ConsumerOk(s', c)
  {
    hide Slot, NumberOf, LastNumber, Blocks, Offsets;
    assert c.Release? ==> Gone(s.blockSize, s.done, c.n) <= Gone(s.blockSize, s'.done, c.n);
    hide Gone;
    forall h, lo, up ensures Path(s', h, lo, up) == Path(s, h, lo, up) {
    }
    hide Path;
  }

  lemma UseInv(s: State, t: nat, i: nat, end: nat, h: nat, slot: nat, block: nat)
    requires Inv(s) && t < |s.consumers| && s.consumers[t] == Use(i, end, h, slot, block)
    ensures Holds(s, h, slot) && block in s.gone && i <= end && s.blockSize > 0
    ensures Inv(Empty(s, t, i, end, h, slot, block))
  {
    UseFacts(s, t, i, end, h, slot, block);
    assert ConsumerOk(s, s.consumers[t]);
    assert SlotOk(s, i, end, h, slot);
    hide Global, ClaimsOk, SlotOk;
    EmptyClaims(s, t, i, end, h, slot, block);
    EmptyGlobal(s, t, i, end, h, slot, block);
    EmptyNext(s, t, i, end, h, slot, block);
    var s' := Empty(s, t, i, end, h, slot, block);
    forall u | 0 <= u < |s'.consumers| ensures ConsumerOk(s', s'.consumers[u]) {
      if u != t {
        assert ConsumerOk(s, s.consumers[u]);
        hide ConsumerOk, Offsets, Portion;
        EmptyConsumer(s, s', s.consumers[u]);
      }
    }
  }

  // ---------- Releasing a block ----------

  lemma ReleaseEntry(s: State, t: nat, i: nat, end: nat, h: nat, slot: nat, block: nat, n: nat)
    requires Inv(s) && t < |s.consumers| && s.consumers[t] == Release(i, end, h, slot, block, n)
    ensures Holds(s, h, slot) && s.headers[h].index[slot] == EntryOf(Current(s), n) < |s.entries|
    ensures n in s.given && s.given[n] == block && n < Published(s) && Full(s.blockSize, s.done, n)
    ensures n <= s.hi < n + |Current(s).index|
    ensures Path(s, s.headers[h], n, Max(n, LastNumber(s.blockSize, end)))
    ensures slot == Slot(n, s.headers[h].shift, |s.headers[h].index|) && (i < end ==> NumberOf(s.blockSize, i) == n + 1)
  {
    assert ConsumerOk(s, s.consumers[t]) && ClaimOk(s, s.consumers[t]);
    ReleaseFacts(s, s.consumers[t]);
    OnPath(s, h, n, Max(n, LastNumber(s.blockSize, end)), n);
    assert EntryOf(s.headers[h], n) == EntryOf(Current(s), n);
  }

  lemma FreeTail(s: State, s': State, n: nat)
    requires s.blockSize > 0 && TailOk(s) && Full(s.blockSize, s.done, n)
    requires s'.blockSize == s.blockSize && s'.tail == s.tail && s'.head == s.head && s'.done == s.done
    requires s'.given == s.given - {n}
    ensures TailOk(s')
  {
    hide NumberOf, Full, Blocks;
    forall i: nat {:trigger NumberOf(s'.blockSize, i)} |
        NumberOf(s'.blockSize, i) < Published(s') && i !in s'.done
      ensures NumberOf(s'.blockSize, i) in s'.given
    {
      if NumberOf(s.blockSize, i) == n {
        FullMeansDone(s.blockSize, s.done, n, i);
      }
    }
  }

  lemma FreeOwn(given: map<nat, nat>, mine: set<nat>, p: Producer, n: nat)
    requires n in given && OwnOk(given, mine, p)
    ensures OwnOk(given - {n}, mine - {given[n]}, p)
  {
    var given', mine' := given - {n}, mine - {given[n]};
    forall b | b in mine' ensures GivenTo(given', b) || InFlight(p, b) || b in Back(p) {
      if GivenTo(given, b) {
        var m :| m in given && given[m] == b;
        assert m in given' && given'[m] == b;
      }
    }
  }

  lemma FreeCleared(s: State, s': State, e: nat)
    requires s.blockSize > 0 && |s.headers| > 0 && ClearedOk(s) && e < |s.entries|
    requires s' == s.(entries := s.entries[e := s.entries[e].(value := Null)],
                      given := s'.given, mine := s'.mine, leaving := s'.leaving, consumers := s'.consumers)
    ensures ClearedOk(s')
  {
    hide Blocks, Slot;
    forall k: int {:trigger Cleared(Current(s'), s'.entries, k)} | TakenBack(s', k)
        ensures Cleared(Current(s'), s'.entries, k)
      {
      assert TakenBack(s, k);
      assert Cleared(Current(s), s.entries, k);
    }
  }

  lemma FreeJob(s: State, s': State, n: nat)
    requires Global(s) && n < Published(s)
    requires s' == s.(entries := s'.entries, given := s.given - {n}, mine := s'.mine, leaving := s'.leaving, consumers := s'.consumers)
    ensures JobOk(s') && FreshOk(s') && AllocOk(s')
  {
    hide KeysOk, ClearedOk, OwnOk, GoneOk, TailOk, Slot, Blocks;
  }

  lemma FreeGlobal(s: State, t: nat, i: nat, end: nat, h: nat, slot: nat, block: nat, n: nat)
    requires Inv(s) && t < |s.consumers| && s.consumers[t] == Release(i, end, h, slot, block, n)
    ensures Holds(s, h, slot) && Global(Free(s, t, i, end, h, slot, block, n))
  {
    ReleaseEntry(s, t, i, end, h, slot, block, n);
    var s' := Free(s, t, i, end, h, slot, block, n);
    hide IndexOk, KeysOk, ClearedOk, AllocOk, OwnOk, GoneOk, TailOk, JobOk, FreshOk, ClaimsOk, ConsumerOk;
    hide Slot, Blocks, NumberOf, Full, Path, LastNumber, EntryOf, Onward;
    assert s'.entries == WithValue(s, n, Null);
    KeysAfterValue(s, n, Null, s'.given);
    FreeCleared(s, s', EntryOf(Current(s), n));
    FreeOwn(s.given, s.mine, s.producer, n);
    GoneSubset(s.blockSize, s.given, s.gone, s.done, s.producer, n);
    FreeTail(s, s', n);
    FreeJob(s, s', n);
  }

  lemma GoneSubset(size: nat, given: map<nat, nat>, gone: map<nat, nat>, done: set<nat>, p: Producer, n: nat)
    requires GoneOk(size, given, gone, done, p)
    ensures GoneOk(size, given - {n}, gone, done, p)
  {
    hide Gone;
  }

  /** Other consumers use other blocks. */
  lemma FreeOther(s: State, t: nat, i: nat, end: nat, h: nat, slot: nat, block: nat, n: nat, u: nat)
    requires Inv(s) && t < |s.consumers| && s.consumers[t] == Release(i, end, h, slot, block, n)
    requires Holds(s, h, slot) && Full(s.blockSize, s.done, n) && u < |s.consumers| && u != t
    ensures ConsumerOk(Free(s, t, i, end, h, slot, block, n), s.consumers[u])
  {
    ApartFrom(s, t, u);
    var s', c := Free(s, t, i, end, h, slot, block, n), s.consumers[u];
    assert ConsumerOk(s, c);
    if c.Use? && NumberOf(s.blockSize, c.index) == n {
      FullMeansDone(s.blockSize, s.done, n, c.index);
    }
    hide Global, ClaimsOk, ConsumerOk, NumberOf, Full;
    FreeConsumer(s, s', c, n);
  }

  lemma FreeConsumer(s: State, s': State, c: Consumer, n: nat)
    requires s.blockSize > 0 && ConsumerOk(s, c)
    requires s' == s.(entries := s'.entries, given := s.given - {n}, mine := s'.mine, leaving := s'.leaving, consumers := s'.consumers)
    requires (c.Use? ==> NumberOf(s.blockSize, c.index) != n) && (c.Release? ==> c.n != n)
    ensures ConsumerOk(s', c)
  {
    hide Slot, NumberOf, LastNumber, Full, Blocks;
    SameIndexPaths(s, s');
    hide Path;
  }

  lemma SameIndexPaths(s: State, s': State)
    requires s'.headers == s.headers
    ensures forall h, lo, up :: Path(s', h, lo, up) == Path(s, h, lo, up)
  {
  }

  lemma ReleaseClaims(s: State, t: nat, i: nat, end: nat, h: nat, slot: nat, block: nat, n: nat)
    requires Inv(s) && t < |s.consumers| && s.consumers[t] == Release(i, end, h, slot, block, n) && Holds(s, h, slot)
    ensures ClaimsOk(Free(s, t, i, end, h, slot, block, n))
  {
    var s' := Free(s, t, i, end, h, slot, block, n);
    hide Global, ConsumerOk;
    assert ClaimOk(s, s.consumers[t]);
    forall u | 0 <= u < |s'.consumers| ensures ClaimOk(s', s'.consumers[u]) {
      assert ClaimOk(s, s.consumers[u]);
    }
    forall u, v | 0 <= u < v < |s'.consumers| ensures Apart(s'.consumers[u], s'.consumers[v]) {
      assert Apart(s.consumers[u], s.consumers[v]);
    }
  }

  lemma ReleaseInv(s: State, t: nat, i: nat, end: nat, h: nat, slot: nat, block: nat, n: nat)
    requires Inv(s) && t < |s.consumers| && s.consumers[t] == Release(i, end, h, slot, block, n)
    ensures Holds(s, h, slot) && Inv(Free(s, t, i, end, h, slot, block, n))
  {
    ReleaseEntry(s, t, i, end, h, slot, block, n);
    FreeGlobal(s, t, i, end, h, slot, block, n);
    hide Global, ClaimsOk, ConsumerOk, Path, Full, Slot, LastNumber, NumberOf;
    ReleaseClaims(s, t, i, end, h, slot, block, n);
    var s' := Free(s, t, i, end, h, slot, block, n);
    SameHeaderPath(s, s', s.headers[h], n, Max(n, LastNumber(s.blockSize, end)));
    OnwardOk(s', i, end, h, slot, n);
    OnwardIsReturn(s', i, end, h, slot, block);
    forall u | 0 <= u < |s'.consumers| ensures ConsumerOk(s', s'.consumers[u]) {
      if u != t {
        FreeOther(s, t, i, end, h, slot, block, n, u);
      }
    }
  }

  lemma OnwardIsReturn(s: State, i: nat, end: nat, h: nat, slot: nat, block: nat)
    requires s.blockSize > 0 && h < |s.headers| && |s.headers[h].index| > 0
    requires ConsumerOk(s, Onward(i, end, h, slot, |s.headers[h].index|))
    ensures ConsumerOk(s, Return(i, end, h, (slot + 1) % |s.headers[h].index|, block))
  {
  }

  lemma ReturnInv(s: State, t: nat, i: nat, end: nat, h: nat, slot: nat, block: nat)
    requires Inv(s) && t < |s.consumers| && s.consumers[t] == Return(i, end, h, slot, block)
    ensures Inv(GivenBack(s, t, i, end, h, slot, block))
  {
    var s' := GivenBack(s, t, i, end, h, slot, block);
    var c := s'.consumers[t];
    assert ClaimOk(s, s.consumers[t]) && ConsumerOk(s, s.consumers[t]);
    assert ConsumerOk(s, c);
    HeadTail(s);
    SameConsumer(s, s', c);
    forall u | 0 <= u < |s.consumers| && u != t ensures Apart(c, s.consumers[u]) && Apart(s.consumers[u], c) {
      ApartFrom(s, t, u);
    }
    hide Global, ConsumerOk, Apart;
    ConsumerFrame(s, s', t);
  }

  lemma ConsumerInv(s: State, s': State, t: nat)
    requires Inv(s) && t < |s.consumers| && ConsumerStep(s, t, s')
    ensures Inv(s')
  {
    hide Inv;
    match s.consumers[t]
    case Idle =>
      var count: nat :| 0 < count <= s.tail - s.head && s' == Claim(s, t, count);
      ClaimInv(s, t, count);
    case LoadHeader(i, end) => LoadHeaderInv(s, t, i, end);
    case LoadTail(i, end, h) => LoadTailInv(s, t, i, end, h);
    case LoadKey(i, end, h, tail, at) => LoadKeyInv(s, t, i, end, h, tail, at);
    case Find(i, end, h, slot) => FindInv(s, t, i, end, h, slot);
    case Use(i, end, h, slot, block) => UseInv(s, t, i, end, h, slot, block);
    case Release(i, end, h, slot, block, n) => ReleaseInv(s, t, i, end, h, slot, block, n);
    case Return(i, end, h, slot, block) => ReturnInv(s, t, i, end, h, slot, block);
  }

  // ---------- Blocks on their way to the free list ----------

  lemma LeavingInit(s: State)
    requires Init(s)
    ensures LeavingOk(s)
  {
    forall t | 0 <= t < |s.consumers| ensures s.consumers[t].Idle? {
      assert s.consumers[t] == Idle;
    }
  }

  /** The producer takes no block that is on its way. */
  lemma LeavingProducer(s: State, s': State)
    requires LeavingOk(s) && ProducerStep(s, s')
    ensures LeavingOk(s')
  {
    assert s'.leaving == s.leaving && s'.consumers == s.consumers;
    assert forall b :: b in s'.mine ==> b in s.mine || b !in s.leaving;
  }

  /** The consumer neither takes a block into its hands nor gives one back. */
  lemma LeavingSame(s: State, s': State, t: nat)
    requires LeavingOk(s) && t < |s.consumers| && |s'.consumers| == |s.consumers|
    requires s'.consumers == s.consumers[t := s'.consumers[t]] && s'.mine == s.mine && s'.leaving == s.leaving
    requires !s.consumers[t].Return? && !s'.consumers[t].Return?
    ensures LeavingOk(s')
  {
    forall b | b in s'.leaving ensures exists u :: 0 <= u < |s'.consumers| && HasBlock(s'.consumers[u], b) {
      var u :| 0 <= u < |s.consumers| && HasBlock(s.consumers[u], b);
      assert HasBlock(s'.consumers[u], b);
    }
  }

  lemma LeavingFree(s: State, t: nat, i: nat, end: nat, h: nat, slot: nat, block: nat, n: nat)
    requires LeavingOk(s) && t < |s.consumers| && s.consumers[t] == Release(i, end, h, slot, block, n)
    requires Holds(s, h, slot) && block in s.mine
    ensures LeavingOk(Free(s, t, i, end, h, slot, block, n))
  {
    var s' := Free(s, t, i, end, h, slot, block, n);
    assert HasBlock(s'.consumers[t], block);
    forall b | b in s'.leaving ensures exists u :: 0 <= u < |s'.consumers| && HasBlock(s'.consumers[u], b) {
      if b in s.leaving {
        var u :| 0 <= u < |s.consumers| && HasBlock(s.consumers[u], b);
        assert HasBlock(s'.consumers[u], b);
      }
    }
  }

  lemma LeavingReturn(s: State, t: nat, i: nat, end: nat, h: nat, slot: nat, block: nat)
    requires LeavingOk(s) && t < |s.consumers| && s.consumers[t] == Return(i, end, h, slot, block)
    ensures LeavingOk(GivenBack(s, t, i, end, h, slot, block))
  {
    var s' := GivenBack(s, t, i, end, h, slot, block);
    forall b | b in s'.leaving ensures exists u :: 0 <= u < |s'.consumers| && HasBlock(s'.consumers[u], b) {
      var u :| 0 <= u < |s.consumers| && HasBlock(s.consumers[u], b);
      assert HasBlock(s'.consumers[u], b);
    }
    forall u | 0 <= u < |s'.consumers| && s'.consumers[u].Return? ensures s'.consumers[u].block in s'.leaving {
      assert u != t && s.consumers[if t < u then t else u].block != s.consumers[if t < u then u else t].block;
    }
  }

  lemma OtherSteps(s: State, s': State, t: nat)
    requires t < |s.consumers| && ConsumerStep(s, t, s') && !s.consumers[t].Release? && !s.consumers[t].Return?
    ensures |s'.consumers| == |s.consumers| && s'.consumers == s.consumers[t := s'.consumers[t]]
    ensures s'.mine == s.mine && s'.leaving == s.leaving && !s'.consumers[t].Return?
  {
    hide Offsets, Portion, NumberOf, Slot;
  }

  lemma LeavingConsumer(s: State, s': State, t: nat)
    requires Inv(s) && LeavingOk(s) && t < |s.consumers| && ConsumerStep(s, t, s')
    ensures LeavingOk(s')
  {
    hide Inv, LeavingOk, Global, Free, GivenBack;
    match s.consumers[t]
    case Release(i, end, h, slot, block, n) =>
      ReleaseEntry(s, t, i, end, h, slot, block, n);
      OwnedWhenGiven(s, n);
      LeavingFree(s, t, i, end, h, slot, block, n);
    case Return(i, end, h, slot, block) =>
      LeavingReturn(s, t, i, end, h, slot, block);
    case _ =>
      hide ConsumerStep;
      OtherSteps(s, s', t);
      LeavingSame(s, s', t);
  }

  lemma OwnedWhenGiven(s: State, n: nat)
    requires Inv(s) && n in s.given
    ensures s.given[n] in s.mine
  {
  }

  lemma Always(run: seq<State>, k: nat)
    requires Runs.IsRun(Init, Next, run) && k < |run|
    ensures Inv(run[k]) && LeavingOk(run[k])
  {
    hide Inv, LeavingOk, Init, Next, ProducerStep, ConsumerStep;
    forall s | Init(s) ensures Sound(s) {
      InitInv(s);
      LeavingInit(s);
    }
    forall s, s' | Sound(s) && Next(s, s') ensures Sound(s') {
      NextSound(s, s');
    }
    Runs.InvariantOnRun(Init, Next, Sound, run, k);
  }

  ghost predicate Sound(s: State) {
    Inv(s) && LeavingOk(s)
  }

  lemma NextInv(s: State, s': State)
    requires Inv(s) && Next(s, s')
    ensures Inv(s')
  {
    hide Inv, ProducerStep, ConsumerStep;
    if ProducerStep(s, s') {
      ProducerInv(s, s');
    } else {
      var t: nat :| t < |s.consumers| && ConsumerStep(s, t, s');
      ConsumerInv(s, s', t);
    }
  }

  lemma NextSound(s: State, s': State)
    requires Sound(s) && Next(s, s')
    ensures Sound(s')
  {
    NextInv(s, s');
    hide Inv, LeavingOk, ProducerStep, ConsumerStep;
    if ProducerStep(s, s') {
      LeavingProducer(s, s');
    } else {
      var t: nat :| t < |s.consumers| && ConsumerStep(s, t, s');
      LeavingConsumer(s, s', t);
    }
  }

  // ---------- What it means ----------

  /** A consumer's lookup lands on the entry with its index's own key, and finds there the block that the
      abstract map gives to that number. */
  lemma LandsOnItsKey(run: seq<State>, k: nat, t: nat)
    requires Runs.IsRun(Init, Next, run) && k < |run| && t < |run[k].consumers| && run[k].consumers[t].Find?
    ensures var s, c := run[k], run[k].consumers[t];
            && s.blockSize > 0 && Holds(s, c.header, c.slot) && NumberOf(s.blockSize, c.index) in s.given
            && At(s, c.header, c.slot)
               == Entry(Number(NumberOf(s.blockSize, c.index)), Block(s.given[NumberOf(s.blockSize, c.index)]))
  {
    Always(run, k);
    var s, c := run[k], run[k].consumers[t];
    FindInv(s, t, c.index, c.end, c.header, c.slot);
  }

  /** The tail that a lookup starts from has a key, whether or not it has been rewound since. */
  lemma TailHasKey(run: seq<State>, k: nat, t: nat)
    requires Runs.IsRun(Init, Next, run) && k < |run| && t < |run[k].consumers| && run[k].consumers[t].LoadKey?
    ensures var s, c := run[k], run[k].consumers[t]; Holds(s, c.header, c.tail) && At(s, c.header, c.tail).key == Number(c.at)
  {
    Always(run, k);
    var s, c := run[k], run[k].consumers[t];
    LoadKeyInv(s, t, c.index, c.end, c.header, c.tail, c.at);
  }

  /** Between enqueues, failed ones included, the producer has exactly the blocks of the published numbers
      that are not released yet, each for one number, and the index tail is at the last of them. A released
      block is in the hands of one consumer, which is giving it back, until it is in the free list. */
  lemma NothingLeftBehind(run: seq<State>, k: nat)
    requires Runs.IsRun(Init, Next, run) && k < |run| && run[k].producer == Ready
    ensures run[k].blockSize > 0 && |run[k].headers| > 0 && Current(run[k]).at == Published(run[k]) - 1
    ensures forall n :: n in run[k].given ==> n < Published(run[k])
    ensures forall b :: b in run[k].mine <==> GivenTo(run[k].given, b)
    ensures forall n, m :: n in run[k].given && m in run[k].given && n != m ==> run[k].given[n] != run[k].given[m]
    ensures run[k].leaving !! run[k].mine
    ensures forall b :: b in run[k].leaving <==>
              exists t :: 0 <= t < |run[k].consumers| && HasBlock(run[k].consumers[t], b)
  {
    Always(run, k);
    hide IndexOk, KeysOk, ClearedOk, GoneOk, TailOk, ClaimsOk, ConsumerOk, Blocks;
  }

  /** A block is released by one consumer, when its last element is gone, and not while another still has
      an index in it. */
  lemma ReleasedOnce(run: seq<State>, k: nat, t: nat, u: nat)
    requires Runs.IsRun(Init, Next, run) && k < |run| && t < |run[k].consumers| && u < |run[k].consumers| && u != t
    requires run[k].consumers[t].Release?
    ensures var s, c, d := run[k], run[k].consumers[t], run[k].consumers[u];
            && s.blockSize > 0 && Full(s.blockSize, s.done, c.n)
            && (d.Release? ==> d.n != c.n)
            && (forall i: nat :: !d.Idle? && d.index <= i < d.end ==> NumberOf(s.blockSize, i) != c.n)
  {
    Always(run, k);
    var s, c, d := run[k], run[k].consumers[t], run[k].consumers[u];
    ReleaseEntry(s, t, c.index, c.end, c.header, c.slot, c.block, c.n);
    ApartFrom(s, t, u);
    hide Global, ClaimsOk, ConsumerOk, Full, NumberOf;
    forall i: nat | !d.Idle? && d.index <= i < d.end ensures NumberOf(s.blockSize, i) != c.n {
      if NumberOf(s.blockSize, i) == c.n {
        FullMeansDone(s.blockSize, s.done, c.n, i);
      }
    }
  }

  /** No step is blocked by its guard: the entries that a thread is about to use exist. */
  lemma NoStepIsBlocked(run: seq<State>, k: nat, t: nat)
    requires Runs.IsRun(Init, Next, run) && k < |run| && t < |run[k].consumers|
    ensures var s, c := run[k], run[k].consumers[t];
            && s.blockSize > 0 && |s.headers| > 0 && Current(s).tail < |Current(s).index|
            && Current(s).index[Current(s).tail] < |s.entries|
            && EntryOf(Current(s), Current(s).at) < |s.entries| && EntryOf(Current(s), Current(s).at + 1) < |s.entries|
            && (s.producer.Undo? && s.producer.k <= s.producer.last ==> Located(s, s.producer.k) < |s.entries|)
            && (c.LoadTail? ==> c.header < |s.headers|)
            && (c.Use? ==> Holds(s, c.header, c.slot) && c.block in s.gone && c.index <= c.end)
            && (c.Release? ==> Holds(s, c.header, c.slot))
  {
    Always(run, k);
    var s, c := run[k], run[k].consumers[t];
    TailFacts(s);
    SlotBelow(Current(s).at, Current(s).shift, |Current(s).index|);
    EntryInRange(s, Current(s).at);
    EntryInRange(s, Current(s).at + 1);
    assert ConsumerOk(s, c);
    hide Global, ClaimsOk, ConsumerOk, EntryOf, Slot;
    match s.producer {
      case Undo(j, last, back) =>
        if j <= last {
          LocatedIs(s, j, last, back);
        }
      case _ =>
    }
    match c
    case LoadTail(i, end, h) => LoadTailInv(s, t, i, end, h);
    case Use(i, end, h, slot, block) => UseFacts(s, t, i, end, h, slot, block);
    case Release(i, end, h, slot, block, n) => ReleaseEntry(s, t, i, end, h, slot, block, n);
    case _ =>
  }

  // ---------- No claim is dropped ----------

  predicate Has(c: Consumer, i: nat) {
    !c.Idle? && c.index <= i < c.end
  }

  ghost predicate InHand(consumers: seq<Consumer>, i: nat) {
    exists t :: 0 <= t < |consumers| && Has(consumers[t], i)
  }

  /** Every claimed index is gone, or some consumer still has to empty it. */
  ghost predicate ClaimsKept(s: State) {
    forall i: nat {:trigger i in s.done} :: i < s.head && i !in s.done ==> InHand(s.consumers, i)
  }

  /** What a consumer's step does to claims: an index leaves its hands only when it is emptied. */
  ghost predicate ClaimMoves(s: State, s': State, t: nat)
    requires t < |s.consumers|
  {
    && |s'.consumers| == |s.consumers| && s'.consumers == s.consumers[t := s'.consumers[t]]
    && s.done <= s'.done && s.head <= s'.head
    && (forall i: nat :: s.head <= i < s'.head ==> Has(s'.consumers[t], i))
    && (forall i: nat {:trigger Has(s.consumers[t], i)} :: Has(s.consumers[t], i) ==> i in s'.done || Has(s'.consumers[t], i))
  }

  lemma EmptyMoves(s: State, t: nat, i: nat, end: nat, h: nat, slot: nat, block: nat)
    requires t < |s.consumers| && s.consumers[t] == Use(i, end, h, slot, block) && i < end
    requires s.blockSize > 0 && Holds(s, h, slot) && block in s.gone
    ensures ClaimMoves(s, Empty(s, t, i, end, h, slot, block), t)
  {
    PortionInBlock(s.blockSize, i, end);
    hide Portion, NumberOf;
  }

  lemma KeepsItsClaim(s: State, s': State, t: nat)
    requires Inv(s) && t < |s.consumers| && ConsumerStep(s, t, s')
    ensures ClaimMoves(s, s', t)
  {
    hide Inv, Portion, Slot, NumberOf;
    if s.consumers[t].Use? {
      var c := s.consumers[t];
      UseFacts(s, t, c.index, c.end, c.header, c.slot, c.block);
      hide ClaimMoves;
      EmptyMoves(s, t, c.index, c.end, c.header, c.slot, c.block);
    }
  }

  lemma ConsumerKeeps(s: State, s': State, t: nat)
    requires Inv(s) && ClaimsKept(s) && t < |s.consumers| && ConsumerStep(s, t, s')
    ensures ClaimsKept(s')
  {
    KeepsItsClaim(s, s', t);
    hide Inv, ConsumerStep, Has;
    forall i: nat | i < s'.head && i !in s'.done ensures InHand(s'.consumers, i) {
      if i >= s.head {
        assert Has(s'.consumers[t], i);
      } else {
        assert i !in s.done;
        var u :| 0 <= u < |s.consumers| && Has(s.consumers[u], i);
        assert Has(s'.consumers[u], i);
      }
    }
  }

  lemma ProducerKeeps(s: State, s': State)
    requires ClaimsKept(s) && ProducerStep(s, s')
    ensures ClaimsKept(s')
  {
    assert s'.head == s.head && s'.done == s.done && s'.consumers == s.consumers by { hide ClaimsKept, Blocks, Slot; }
    hide ProducerStep;
  }

  lemma KeptNext(s: State, s': State)
    requires Inv(s) && ClaimsKept(s) && Next(s, s')
    ensures ClaimsKept(s')
  {
    hide Inv, ClaimsKept, ProducerStep, ConsumerStep;
    if ProducerStep(s, s') {
      ProducerKeeps(s, s');
    } else {
      var t: nat :| t < |s.consumers| && ConsumerStep(s, t, s');
      ConsumerKeeps(s, s', t);
    }
  }

  lemma {:induction false} AlwaysKept(run: seq<State>, k: nat)
    requires Runs.IsRun(Init, Next, run) && k < |run|
    ensures ClaimsKept(run[k])
  {
    hide Inv, ClaimsKept, Next, Init;
    if k == 0 {
      StartsKept(run[0]);
    } else {
      AlwaysKept(run, k - 1);
      Always(run, k - 1);
      assert Next(run[k - 1], run[k - 1 + 1]);
      KeptNext(run[k - 1], run[k]);
    }
  }

  lemma StartsKept(s: State)
    requires Init(s)
    ensures ClaimsKept(s)
  {
  }

  /** No claimed index is forgotten: what has been claimed is gone or in the hands of a consumer, so when all consumers
      are idle, exactly the indices below the head are gone. */
  lemma ClaimedAreEmptied(run: seq<State>, k: nat)
    requires Runs.IsRun(Init, Next, run) && k < |run|
    ensures forall i: nat :: i < run[k].head && i !in run[k].done ==> InHand(run[k].consumers, i)
    ensures (forall t :: 0 <= t < |run[k].consumers| ==> run[k].consumers[t] == Idle) ==>
              forall i: nat :: i in run[k].done <==> i < run[k].head
  {
    AlwaysKept(run, k);
    Always(run, k);
    DoneIsClaimed(run[k]);
    hide Inv;
  }

  lemma DoneIsClaimed(s: State)
    requires Inv(s)
    ensures forall i :: i in s.done ==> i < s.head
  {
  }

  // ---------- Empty blocks are released ----------

  predicate Releases(c: Consumer, n: nat) {
    c.Release? && c.n == n
  }

  ghost predicate InRelease(consumers: seq<Consumer>, n: nat) {
    exists t :: 0 <= t < |consumers| && Releases(consumers[t], n)
  }

  predicate AllGone(s: State, n: nat) {
    n in s.given && s.given[n] in s.gone && s.gone[s.given[n]] == s.blockSize
  }

  /** The consumer that took a block's last element is about to release it. */
  ghost predicate EmptyAreReleased(s: State) {
    forall n: nat {:trigger AllGone(s, n)} :: AllGone(s, n) ==> InRelease(s.consumers, n)
  }

  /** A producer's step makes no block count as empty. */
  lemma ProducerEmpties(s: State, s': State, n: nat)
    requires Inv(s) && ProducerStep(s, s') && AllGone(s', n)
    ensures AllGone(s, n) && s'.consumers == s.consumers
  {
    assert OwnOk(s.given, s.mine, s.producer) && GoneOk(s.blockSize, s.given, s.gone, s.done, s.producer);
    hide Inv, Slot, Blocks, Located, EntryOf, Gone;
  }

  /** A consumer's step makes one only of the block it then releases. */
  lemma ConsumerEmpties(s: State, s': State, t: nat, n: nat)
    requires Inv(s) && t < |s.consumers| && ConsumerStep(s, t, s') && AllGone(s', n)
    ensures |s'.consumers| == |s.consumers| && s'.consumers == s.consumers[t := s'.consumers[t]]
    ensures Releases(s'.consumers[t], n) || (AllGone(s, n) && !Releases(s.consumers[t], n))
  {
    var c := s.consumers[t];
    if c.Use? {
      UseFacts(s, t, c.index, c.end, c.header, c.slot, c.block);
    }
    assert OwnOk(s.given, s.mine, s.producer) && s.blockSize > 0;
    hide Inv, Portion, Slot, NumberOf, Offsets, Gone, Back, InFlight, GivenTo;
  }

  lemma EmptiesNext(s: State, s': State)
    requires Inv(s) && EmptyAreReleased(s) && Next(s, s')
    ensures EmptyAreReleased(s')
  {
    hide Inv, ProducerStep, ConsumerStep, AllGone, Releases;
    forall n: nat | AllGone(s', n) ensures InRelease(s'.consumers, n) {
      if ProducerStep(s, s') {
        ProducerEmpties(s, s', n);
      } else {
        var t: nat :| t < |s.consumers| && ConsumerStep(s, t, s');
        ConsumerEmpties(s, s', t, n);
        if !Releases(s'.consumers[t], n) {
          var u :| 0 <= u < |s.consumers| && Releases(s.consumers[u], n);
          assert Releases(s'.consumers[u], n);
        }
      }
    }
  }

  lemma {:induction false} AlwaysReleased(run: seq<State>, k: nat)
    requires Runs.IsRun(Init, Next, run) && k < |run|
    ensures EmptyAreReleased(run[k])
  {
    hide Inv, LeavingOk, EmptyAreReleased, Next, Init;
    if k == 0 {
      NothingGivenAtFirst(run[0]);
    } else {
      AlwaysReleased(run, k - 1);
      Always(run, k - 1);
      assert Next(run[k - 1], run[k - 1 + 1]);
      EmptiesNext(run[k - 1], run[k]);
    }
  }

  lemma NothingGivenAtFirst(s: State)
    requires Init(s)
    ensures EmptyAreReleased(s)
  {
  }

  /** No empty block is kept: one whose elements are all gone has a consumer that releases it. So when all consumers are
      idle, each block the producer holds still has, or is still to get, an element that is not gone. */
  lemma EmptyBlocksAreReleased(run: seq<State>, k: nat, n: nat)
    requires Runs.IsRun(Init, Next, run) && k < |run| && n in run[k].given && run[k].blockSize > 0
    requires forall i: nat :: NumberOf(run[k].blockSize, i) == n ==> i in run[k].done
    ensures InRelease(run[k].consumers, n)
  {
    hide Inv, LeavingOk, Init, Next, Runs.IsRun;
    Always(run, k);
    AlwaysReleased(run, k);
    AllDoneCount(run[k], n);
  }

  lemma AllOffsetsGone(size: nat, done: set<nat>, n: nat)
    requires size > 0 && forall i: nat :: NumberOf(size, i) == n ==> i in done
    ensures |Gone(size, done, n)| == size
  {
    forall o: nat | o in Offsets(0, size) ensures o in Gone(size, done, n) {
      Arithmetic.ModUnique(n, o, size);
      assert NumberOf(size, Base(size, n) + o) == n;
    }
    assert Gone(size, done, n) == Offsets(0, size);
    CountOffsets(0, size);
  }

  lemma AllDoneCount(s: State, n: nat)
    requires Inv(s) && n in s.given && s.blockSize > 0
    requires forall i: nat :: NumberOf(s.blockSize, i) == n ==> i in s.done
    ensures AllGone(s, n)
  {
    assert GoneOk(s.blockSize, s.given, s.gone, s.done, s.producer);
    hide Inv, Gone;
    AllOffsetsGone(s.blockSize, s.done, n);
  }

  // ---------- The sizes of the indices ----------

  /** Each index is twice as large as the one before. */
  ghost predicate Doubling(headers: seq<Header>) {
    forall h :: 0 < h < |headers| ==> |headers[h].index| == 2 * |headers[h - 1].index|
  }

  lemma SizesNext(s: State, s': State)
    requires Doubling(s.headers) && Next(s, s')
    ensures Doubling(s'.headers)
  {
    hide ConsumerStep, Slot, Blocks, Located;
    if !ProducerStep(s, s') {
      var t: nat :| t < |s.consumers| && ConsumerStep(s, t, s');
      ConsumerLeavesProducer(s, s', t);
    }
  }

  lemma {:induction false} IndicesDouble(run: seq<State>, k: nat)
    requires Runs.IsRun(Init, Next, run) && k < |run|
    ensures Doubling(run[k].headers)
  {
    hide Next, Doubling, Init;
    if k == 0 {
      OneIndexAtFirst(run[0]);
    } else {
      IndicesDouble(run, k - 1);
      assert Next(run[k - 1], run[k - 1 + 1]);
      SizesNext(run[k - 1], run[k]);
    }
  }

  lemma OneIndexAtFirst(s: State)
    requires Init(s)
    ensures Doubling(s.headers)
  {
  }

  // ---------- Calls end ----------

  /** The numbers that the running call has given a block and not taken back. */
  function GivenByCall(s: State): int
    requires s.blockSize > 0 && |s.headers| > 0
  {
    Last(s) + 1 - Published(s)
  }

  predicate NextIsFree(s: State)
    requires |s.headers| > 0
  {
    && |Current(s).index| > 0 && EntryOf(Current(s), Current(s).at + 1) < |s.entries|
    && EntryIsFree(s.entries[EntryOf(Current(s), Current(s).at + 1)])
  }

  /** How many steps at most the running enqueue has left, should it have to undo everything. */
  function StepsToReturn(s: State): int
    requires s.blockSize > 0 && |s.headers| > 0
  {
    match s.producer
    case Ready => 0
    case Publish(_) => 1
    case GiveBack(back) => |back| + 1
    case Undo(k, last, back) => 3 * (last - k + 1) + |back| + 2
    case UndoTail(k, last, back) => 3 * (last - k) + |back| + 3
    case ClearEntry => 3 * GivenByCall(s) + 3
    case Rewind => 3 * GivenByCall(s) + 4
    case WriteValue(job, _) => 10 * job.needed + 3 * GivenByCall(s) + 6
    case TakeBlock(job) => 10 * job.needed + 3 * GivenByCall(s) + 7
    case MoveTail(job) => 10 * job.needed + 3 * GivenByCall(s) + 8
    case WriteKey(job) => 10 * job.needed + 3 * GivenByCall(s) + 9
    case Insert(job) => 10 * job.needed + 3 * GivenByCall(s) + if NextIsFree(s) then 10 else 11
  }

  lemma StepsAreLeft(s: State)
    requires Global(s)
    ensures StepsToReturn(s) >= 0 && (StepsToReturn(s) == 0 <==> s.producer == Ready)
  {
    assert JobOk(s);
    hide Global, Blocks, Slot;
  }

  /** A new index has a free entry for the next number. */
  lemma GrownIsFree(s: State)
    requires |s.headers| > 0 && |Current(s).index| > 0
    ensures NextIsFree(Grow(s))
  {
    SmallSlot(|Current(s).index|, 2 * |Current(s).index|);
    assert EntryOf(Current(Grow(s)), Current(s).at + 1) == |s.entries|;
  }

  lemma InsertProgress(s: State, job: Job, s': State)
    requires JobOkFor(s) && s.producer == Insert(job) && job.needed > 0 && InsertStep(s, job, s')
    ensures s'.blockSize > 0 && |s'.headers| > 0 && StepsToReturn(s') < StepsToReturn(s)
  {
    GrownIsFree(s);
    hide Slot, Blocks;
  }

  ghost predicate JobOkFor(s: State) {
    s.blockSize > 0 && |s.headers| > 0 && |Current(s).index| > 0 && JobOk(s)
  }

  /** The steps that get a block for a number. */
  lemma TakingProgress(s: State, s': State)
    requires JobOkFor(s) && ProducerStep(s, s')
    requires s.producer.WriteKey? || s.producer.MoveTail? || s.producer.TakeBlock? || s.producer.WriteValue?
    ensures s'.blockSize > 0 && |s'.headers| > 0 && StepsToReturn(s') < StepsToReturn(s)
  {
    hide Slot, Blocks, NextIsFree, Located;
  }

  /** The steps that take things back, or publish. */
  lemma UndoingProgress(s: State, s': State)
    requires JobOkFor(s) && ProducerStep(s, s') && s.producer != Ready && !s.producer.Insert?
    requires !s.producer.WriteKey? && !s.producer.MoveTail? && !s.producer.TakeBlock? && !s.producer.WriteValue?
    ensures s'.blockSize > 0 && |s'.headers| > 0 && StepsToReturn(s') < StepsToReturn(s)
  {
    hide Slot, Blocks, NextIsFree, Located;
  }

  lemma ProducerProgress(s: State, s': State)
    requires JobOkFor(s) && s.producer != Ready && ProducerStep(s, s')
    ensures s'.blockSize > 0 && |s'.headers| > 0 && StepsToReturn(s') < StepsToReturn(s)
  {
    hide StepsToReturn, InsertStep, Slot, Blocks, Located;
    if s.producer.Insert? {
      InsertProgress(s, s.producer.job, s');
    } else if s.producer.WriteKey? || s.producer.MoveTail? || s.producer.TakeBlock? || s.producer.WriteValue? {
      TakingProgress(s, s');
    } else {
      UndoingProgress(s, s');
    }
  }

  /** The index cannot grow, or there is no block. */
  predicate GivesUp(p: Producer, p': Producer) {
    (p.Insert? && p'.Undo?) || (p.TakeBlock? && p'.Rewind?)
  }

  /** The call still means to publish its elements. */
  predicate HasJob(p: Producer) {
    p.Insert? || p.WriteKey? || p.MoveTail? || p.TakeBlock? || p.WriteValue? || p.Publish?
  }

  lemma {:induction false} Fresh(x: set<nat>) returns (b: nat)
    ensures forall y :: y in x ==> y < b
  {
    if x == {} {
      b := 0;
    } else {
      var y :| y in x;
      var b' := Fresh(x - {y});
      b := if y < b' then b' else y + 1;
      assert forall z :: z in x ==> z == y || z in x - {y};
    }
  }

  lemma ProducerCanStep(s: State) returns (s': State)
    requires s.blockSize > 0 && |s.headers| > 0 && Current(s).tail < |Current(s).index| && s.producer != Ready
    requires Current(s).index[Current(s).tail] < |s.entries|
    requires EntryOf(Current(s), Current(s).at) < |s.entries| && EntryOf(Current(s), Current(s).at + 1) < |s.entries|
    requires s.producer.Undo? && s.producer.k <= s.producer.last ==> Located(s, s.producer.k) < |s.entries|
    requires s.producer.WriteValue? ==> Current(s).at >= 0
    ensures ProducerStep(s, s') && !GivesUp(s.producer, s'.producer)
  {
    var h := Current(s);
    var mine, next := EntryOf(h, h.at), EntryOf(h, h.at + 1);
    hide EntryOf, Slot, Blocks, Located;
    match s.producer
    case Insert(job) => s' := if EntryIsFree(s.entries[next]) then s.(producer := WriteKey(job)) else Grow(s);
    case WriteKey(job) => s' := PutKey(s, job, next);
    case MoveTail(job) => s' := SetTail(s, h.at + 1).(producer := TakeBlock(job));
    case TakeBlock(job) =>
      var block := Fresh(s.mine + s.leaving);
      assert block !in s.mine && block !in s.leaving;
      s' := s.(mine := s.mine + {block}, gone := s.gone[block := 0], producer := WriteValue(job, block));
    case WriteValue(job, block) => s' := PutValue(s, job, block, mine);
    case Rewind => s' := SetTail(s, h.at - 1).(producer := ClearEntry);
    case ClearEntry =>
      s' := PutEntry(s, next, s.entries[next].(value := Null)).(producer := Undo(Blocks(s.blockSize, s.tail), h.at, {}));
    case Undo(k, last, back) =>
      s' := if k <= last then UndoOne(s, k, last, back, Located(s, k)) else s.(producer := GiveBack(back));
    case UndoTail(k, last, back) => s' := SetTail(s, h.at - 1).(producer := Undo(k + 1, last, back));
    case GiveBack(back) =>
      if back == {} {
        s' := s.(producer := Ready);
      } else {
        var b :| b in back;
        s' := s.(mine := s.mine - {b}, producer := GiveBack(back - {b}));
      }
    case Publish(job) => s' := s.(tail := job.newTail, producer := Ready);
  }

  lemma ConsumerLeavesProducer(s: State, s': State, t: nat)
    requires t < |s.consumers| && ConsumerStep(s, t, s')
    ensures s'.producer == s.producer && s'.headers == s.headers && |s.headers| > 0 && s'.tail == s.tail
    ensures s'.blockSize == s.blockSize > 0 && |s'.entries| == |s.entries|
    ensures forall e :: 0 <= e < |s.entries| && EntryIsFree(s.entries[e]) ==> EntryIsFree(s'.entries[e])
  {
    hide Portion, Slot, NumberOf, Offsets;
  }

  /** Consumers only ever make entries free. */
  lemma ConsumerHelps(s: State, s': State, t: nat)
    requires t < |s.consumers| && ConsumerStep(s, t, s')
    ensures s.blockSize > 0 && |s.headers| > 0 && s'.blockSize > 0 && |s'.headers| > 0
    ensures StepsToReturn(s') <= StepsToReturn(s)
  {
    ConsumerLeavesProducer(s, s', t);
    hide ConsumerStep, Slot, Blocks;
  }

  lemma StaysOnTrack(s: State, s': State)
    requires ProducerStep(s, s') && HasJob(s.producer) && !GivesUp(s.producer, s'.producer)
    ensures if s.producer.Publish? then s'.producer == Ready else HasJob(s'.producer)
  {
    hide Slot, Blocks, Located, EntryOf;
  }

  /** An enqueue never waits for a consumer, also when it has to undo what it has done: the producer always has a step
      to take, and each takes it nearer to its return. It is never forced to give up, and if it does not, it publishes. */
  lemma EnqueueEnds(run: seq<State>, k: nat)
    requires Runs.IsRun(Init, Next, run) && k < |run| && run[k].producer != Ready
    ensures run[k].blockSize > 0 && |run[k].headers| > 0 && StepsToReturn(run[k]) > 0
    ensures exists s' :: ProducerStep(run[k], s') && !GivesUp(run[k].producer, s'.producer)
    ensures forall s' :: ProducerStep(run[k], s') ==>
              && s'.blockSize > 0 && |s'.headers| > 0 && StepsToReturn(s') < StepsToReturn(run[k])
              && (HasJob(run[k].producer) && !GivesUp(run[k].producer, s'.producer) ==>
                    if run[k].producer.Publish? then s'.producer == Ready else HasJob(s'.producer))
    ensures forall s', t: nat :: t < |run[k].consumers| && ConsumerStep(run[k], t, s') ==>
              s'.blockSize > 0 && |s'.headers| > 0 && StepsToReturn(s') <= StepsToReturn(run[k])
  {
    var s := run[k];
    hide ProducerStep, ConsumerStep, StepsToReturn, Runs.IsRun, Init, Next;
    ProducerIsReady(run, k);
    StepsAreLeft(s);
    hide Global, JobOkFor;
    var to := ProducerCanStep(s);
    forall s' | ProducerStep(s, s')
      ensures s'.blockSize > 0 && |s'.headers| > 0 && StepsToReturn(s') < StepsToReturn(s)
      ensures HasJob(s.producer) && !GivesUp(s.producer, s'.producer) ==>
                if s.producer.Publish? then s'.producer == Ready else HasJob(s'.producer)
    {
      ProducerProgress(s, s');
      if HasJob(s.producer) && !GivesUp(s.producer, s'.producer) { StaysOnTrack(s, s'); }
    }
    forall s', t: nat | t < |s.consumers| && ConsumerStep(s, t, s')
      ensures s'.blockSize > 0 && |s'.headers| > 0 && StepsToReturn(s') <= StepsToReturn(s)
    {
      ConsumerHelps(s, s', t);
    }
  }

  /** The entries that the producer is about to use exist. */
  lemma ProducerIsReady(run: seq<State>, k: nat)
    requires Runs.IsRun(Init, Next, run) && k < |run|
    ensures var s := run[k];
      && Global(s) && JobOkFor(s) && Current(s).tail < |Current(s).index|
      && Current(s).index[Current(s).tail] < |s.entries|
      && EntryOf(Current(s), Current(s).at) < |s.entries| && EntryOf(Current(s), Current(s).at + 1) < |s.entries|
      && (s.producer.Undo? && s.producer.k <= s.producer.last ==> Located(s, s.producer.k) < |s.entries|)
      && (s.producer.WriteValue? ==> Current(s).at >= 0)
  {
    Always(run, k);
    var s := run[k];
    TailFacts(s);
    SlotBelow(Current(s).at, Current(s).shift, |Current(s).index|);
    EntryInRange(s, Current(s).at);
    EntryInRange(s, Current(s).at + 1);
    assert JobOkFor(s);
    hide Global, ClaimsOk, ConsumerOk, EntryOf, Slot, Blocks;
    match s.producer
    case Undo(j, last, back) =>
      if j <= last {
        LocatedIs(s, j, last, back);
      }
    case _ =>
  }

  /** How many steps at most a consumer has left. */
  function StepsToEmpty(c: Consumer): int {
    match c
    case Idle => 0
    case LoadHeader(i, end) => 4 * (end - i) + 3
    case LoadTail(i, end, _) => 4 * (end - i) + 2
    case LoadKey(i, end, _, _, _) => 4 * (end - i) + 1
    case Find(i, end, _, _) => 4 * (end - i)
    case Use(i, end, _, _, _) => 4 * (end - i) - 1
    case Release(i, end, _, _, _, _) => 4 * (end - i) + 2
    case Return(i, end, _, _, _) => 4 * (end - i) + 1
  }

  lemma ConsumerProgress(s: State, s': State, t: nat)
    requires t < |s.consumers| && s.consumers[t] != Idle && ClaimOk(s, s.consumers[t]) && ConsumerStep(s, t, s')
    ensures t < |s'.consumers| && StepsToEmpty(s'.consumers[t]) < StepsToEmpty(s.consumers[t])
  {
    var c := s.consumers[t];
    if c.Use? {
      PortionInBlock(s.blockSize, c.index, c.end);
    }
    hide Portion, Slot, NumberOf;
  }

  lemma ConsumerCanStep(s: State, t: nat) returns (s': State)
    requires s.blockSize > 0 && |s.headers| > 0 && t < |s.consumers| && s.consumers[t] != Idle
    requires var c := s.consumers[t];
      && (c.LoadTail? ==> c.header < |s.headers|)
      && (c.LoadKey? ==> Holds(s, c.header, c.tail) && At(s, c.header, c.tail).key.Number?)
      && (c.Find? ==> Holds(s, c.header, c.slot) && At(s, c.header, c.slot).value.Block?)
      && (c.Use? ==> Holds(s, c.header, c.slot) && c.block in s.gone && c.index <= c.end)
      && (c.Release? ==> Holds(s, c.header, c.slot))
    ensures ConsumerStep(s, t, s')
  {
    hide Portion, Slot, Offsets;
    match s.consumers[t]
    case LoadHeader(i, end) => s' := Goto(s, t, LoadTail(i, end, |s.headers| - 1));
    case LoadTail(i, end, h) => s' := Goto(s, t, LoadKey(i, end, h, s.headers[h].tail, s.headers[h].at));
    case LoadKey(i, end, h, tail, _) =>
      s' := Goto(s, t, Find(i, end, h, Slot(tail, NumberOf(s.blockSize, i) - At(s, h, tail).key.n, |s.headers[h].index|)));
    case Find(i, end, h, slot) => s' := Goto(s, t, Use(i, end, h, slot, At(s, h, slot).value.block));
    case Use(i, end, h, slot, block) => s' := Empty(s, t, i, end, h, slot, block);
    case Release(i, end, h, slot, block, n) => s' := Free(s, t, i, end, h, slot, block, n);
    case Return(i, end, h, slot, block) => s' := GivenBack(s, t, i, end, h, slot, block);
  }

  /** Nor does a dequeue wait for anybody: a consumer with a claim always has a step to take, and each takes it nearer
      to the end. */
  lemma DequeueEnds(run: seq<State>, k: nat, t: nat)
    requires Runs.IsRun(Init, Next, run) && k < |run| && t < |run[k].consumers| && run[k].consumers[t] != Idle
    ensures StepsToEmpty(run[k].consumers[t]) > 0
    ensures exists s' :: ConsumerStep(run[k], t, s')
    ensures forall s' :: ConsumerStep(run[k], t, s') ==>
              t < |s'.consumers| && StepsToEmpty(s'.consumers[t]) < StepsToEmpty(run[k].consumers[t])
  {
    var s := run[k];
    hide Runs.IsRun, Init, Next, EntryOf, Located, ConsumerStep, Inv, LeavingOk;
    Always(run, k);
    NoStepIsBlocked(run, k, t);
    ItsClaim(s, t);
    if s.consumers[t].Find? { LandsOnItsKey(run, k, t); }
    if s.consumers[t].LoadKey? { TailHasKey(run, k, t); }
    var to := ConsumerCanStep(s, t);
    forall s' | ConsumerStep(s, t, s')
      ensures t < |s'.consumers| && StepsToEmpty(s'.consumers[t]) < StepsToEmpty(s.consumers[t])
    {
      ConsumerProgress(s, s', t);
    }
  }

  lemma ItsClaim(s: State, t: nat)
    requires Inv(s) && t < |s.consumers|
    ensures ClaimOk(s, s.consumers[t])
  {
  }
}
