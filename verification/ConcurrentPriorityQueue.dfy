/** The batch handler of TBB's concurrent priority queue (concurrent_priority_queue.h:
    handle_operations, heapify, reheap). The vector holds a binary heap in its first `mark`
    positions and pushed elements in no order behind it. */
module ConcurrentPriorityQueue {
  import opened Heaps

  /** An operation of the batch. A push that throws (its copy or the reallocation) is FAILED. */
  datatype Op<T> = Pop | Push(elem: T, throws: bool)

  datatype Outcome<T> = Waiting | Pushed | PushFailed | Popped(elem: T) | PopFailed

  // ---------- The sequential queue that a batch must be explained by ----------

  ghost function Effect<T>(q: multiset<T>, op: Op<T>, out: Outcome<T>): multiset<T> {
    match (op, out)
    case (Push(x, _), Pushed) => q + multiset{x}
    case (Pop, Popped(x)) => q - multiset{x}
    case _ => q
  }

  /** A priority queue holding q may answer this operation so: a pop takes an element that nothing
      present exceeds, and fails only when nothing is present. */
  ghost predicate Allowed<T(!new)>(less: (T, T) -> bool, q: multiset<T>, op: Op<T>, out: Outcome<T>) {
    match (op, out)
    case (Push(_, throws), Pushed) => !throws
    case (Push(_, throws), PushFailed) => throws
    case (Pop, Popped(x)) => x in q && forall y :: y in q ==> !less(x, y)
    case (Pop, PopFailed) => q == multiset{}
    case _ => false
  }

  predicate InBatch(order: seq<nat>, n: nat) {
    forall k :: 0 <= k < |order| ==> order[k] < n
  }

  /** What the queue holds after the operations numbered in `order`, one after the other. */
  ghost function Contents<T>(q: multiset<T>, ops: seq<Op<T>>, outs: seq<Outcome<T>>, order: seq<nat>): multiset<T>
    requires |outs| == |ops| && InBatch(order, |ops|)
  {
    if order == [] then q
    else
      var i := order[|order| - 1];
      Effect(Contents(q, ops, outs, order[..|order| - 1]), ops[i], outs[i])
  }

  ghost predicate Legal<T(!new)>(less: (T, T) -> bool, q: multiset<T>, ops: seq<Op<T>>, outs: seq<Outcome<T>>, order: seq<nat>)
    requires |outs| == |ops| && InBatch(order, |ops|)
  {
    order == [] ||
    var before, i := order[..|order| - 1], order[|order| - 1];
    Legal(less, q, ops, outs, before) && Allowed(less, Contents(q, ops, outs, before), ops[i], outs[i])
  }

  /** 0, 1, ..., n - 1. */
  function UpTo(n: nat): (s: seq<nat>)
    ensures |s| == n && forall i :: 0 <= i < n ==> s[i] == i
  {
    seq(n, i => i)
  }

  /** `order` runs every operation of the batch exactly once, and explains its outcomes and the
      final contents. */
  ghost predicate Linearizes<T(!new)>(less: (T, T) -> bool, q: multiset<T>, ops: seq<Op<T>>, outs: seq<Outcome<T>>,
                                order: seq<nat>, final: multiset<T>)
  {
    && |outs| == |ops|
    && multiset(order) == multiset(UpTo(|ops|))
    && InBatch(order, |ops|)
    && Legal(less, q, ops, outs, order)
    && final == Contents(q, ops, outs, order)
  }

  lemma Extend<T(!new)>(less: (T, T) -> bool, q: multiset<T>, ops: seq<Op<T>>, outs: seq<Outcome<T>>, order: seq<nat>, i: nat)
    requires |outs| == |ops| && InBatch(order, |ops|) && i < |ops|
    requires Legal(less, q, ops, outs, order)
    requires Allowed(less, Contents(q, ops, outs, order), ops[i], outs[i])
    ensures InBatch(order + [i], |ops|)
    ensures Legal(less, q, ops, outs, order + [i])
    ensures Contents(q, ops, outs, order + [i]) == Effect(Contents(q, ops, outs, order), ops[i], outs[i])
  {
    assert (order + [i])[..|order + [i]| - 1] == order;
  }

  /** Outcomes of operations outside `order` do not matter to it. */
  lemma {:induction false} Reframe<T(!new)>(less: (T, T) -> bool, q: multiset<T>, ops: seq<Op<T>>,
                                      outs: seq<Outcome<T>>, outs': seq<Outcome<T>>, order: seq<nat>)
    requires |outs| == |outs'| == |ops| && InBatch(order, |ops|)
    requires forall k :: 0 <= k < |order| ==> outs'[order[k]] == outs[order[k]]
    ensures Legal(less, q, ops, outs', order) == Legal(less, q, ops, outs, order)
    ensures Contents(q, ops, outs', order) == Contents(q, ops, outs, order)
  {
    if order != [] {
      Reframe(less, q, ops, outs, outs', order[..|order| - 1]);
    }
  }

  // ---------- Taking the root out ----------

  /** The size of the heap once the vector is one shorter. */
  function NewMark(mark: nat, size: nat): nat
    requires size > 0
  {
    if mark < size then mark else size - 1
  }

  /** The larger of the children below position cur. */
  ghost predicate LargerChild<T(!new)>(less: (T, T) -> bool, data: seq<T>, mark: nat, cur: nat, target: nat) {
    && 2 * cur + 1 < mark <= |data|
    && target == if 2 * cur + 2 < mark && less(data[2 * cur + 1], data[2 * cur + 2]) then 2 * cur + 2 else 2 * cur + 1
  }

  lemma LargerThanChildren<T(!new)>(less: (T, T) -> bool, data: seq<T>, mark: nat, cur: nat, target: nat, i: nat)
    requires StrictWeakOrder(less) && LargerChild(less, data, mark, cur, target)
    requires 0 < i < mark && Parent(i) == cur
    ensures !less(data[target], data[i])
  {
    assert i == 2 * cur + 1 || i == 2 * cur + 2;
  }

  lemma SinkStep<T(!new)>(less: (T, T) -> bool, data: seq<T>, mark: nat, n: nat, cur: nat, target: nat)
    requires StrictWeakOrder(less) && LargerChild(less, data, mark, cur, target)
    requires n == NewMark(mark, |data|) && SinkingHole(less, data, n, cur, data[|data| - 1])
    requires !less(data[target], data[|data| - 1])
    ensures target < n ==> SinkingHole(less, data[cur := data[target]], n, target, data[|data| - 1])
    ensures target >= n ==> IsHeap(less, data[cur := data[target]], n)
  {
    var last := data[|data| - 1];
    forall i {:trigger Parent(i)} | 0 < i < n && Parent(i) == cur ensures !less(data[target], data[i]) {
      LargerThanChildren(less, data, mark, cur, target, i);
    }
    if target < n {
      assert Parent(target) == cur;
      Sink(less, data, n, cur, last, target);
    } else {
      FillHole(less, data, n, cur, last);
    }
  }

  /** The last element is larger than the larger child: it may stay above both. */
  lemma SinkStops<T(!new)>(less: (T, T) -> bool, data: seq<T>, mark: nat, n: nat, cur: nat, target: nat)
    requires StrictWeakOrder(less) && LargerChild(less, data, mark, cur, target)
    requires n == NewMark(mark, |data|) && SinkingHole(less, data, n, cur, data[|data| - 1])
    requires less(data[target], data[|data| - 1])
    ensures IsHeap(less, data[cur := data[|data| - 1]], n)
  {
    var last := data[|data| - 1];
    forall i {:trigger Parent(i)} | 0 < i < n && Parent(i) == cur ensures !less(last, data[i]) {
      LargerThanChildren(less, data, mark, cur, target, i);
      LessNotLess(less, data[target], last, data[i]);
    }
    FillHole(less, data, n, cur, last);
  }

  function Target<T>(less: (T, T) -> bool, data: seq<T>, mark: nat, child: nat): (target: nat)
    requires child < mark <= |data|
    ensures child <= target < mark
  {
    if child + 1 < mark && less(data[child], data[child + 1]) then child + 1 else child
  }

  /** The vector once its last element has sunk from position cur. */
  function Sunk<T>(less: (T, T) -> bool, data: seq<T>, mark: nat, cur: nat): (sunk: seq<T>)
    requires mark <= |data| && cur < |data|
    ensures |sunk| == |data|
    decreases mark - cur
  {
    var last, child := data[|data| - 1], 2 * cur + 1;
    if child < mark && !less(data[Target(less, data, mark, child)], last) then
      Sunk(less, data[cur := data[Target(less, data, mark, child)]], mark, Target(less, data, mark, child))
    else
      data[cur := last]
  }

  lemma {:induction false} SunkIsHeap<T(!new)>(less: (T, T) -> bool, data: seq<T>, mark: nat, n: nat, cur: nat)
    requires StrictWeakOrder(less) && 0 < |data| && mark <= |data| && n == NewMark(mark, |data|)
    requires SinkingHole(less, data, n, cur, data[|data| - 1])
    ensures IsHeap(less, Sunk(less, data, mark, cur), n)
    decreases mark - cur
  {
    var last, child := data[|data| - 1], 2 * cur + 1;
    if child >= mark {
      FillHole(less, data, n, cur, last);
    } else {
      var target := Target(less, data, mark, child);
      if less(data[target], last) {
        SinkStops(less, data, mark, n, cur, target);
      } else {
        SinkStep(less, data, mark, n, cur, target);
        var data' := data[cur := data[target]];
        if target < n {
          SunkIsHeap(less, data', mark, n, target);
        } else {
          assert Sunk(less, data', mark, target) == data';
        }
      }
    }
  }

  /** Sinking moves elements around the hole. */
  lemma {:induction false} SunkElements<T>(less: (T, T) -> bool, data: seq<T>, mark: nat, cur: nat)
    requires mark <= |data| && cur < |data|
    ensures multiset(Sunk(less, data, mark, cur)) == multiset(data[cur := data[|data| - 1]])
    decreases mark - cur
  {
    var last, child := data[|data| - 1], 2 * cur + 1;
    if child < mark && !less(data[Target(less, data, mark, child)], last) {
      var target := Target(less, data, mark, child);
      var data' := data[cur := data[target]];
      MoveHole(data, cur, target, last);
      SunkElements(less, data', mark, target);
      assert data'[|data'| - 1] == last;
    }
  }

  lemma {:induction false} SunkLast<T>(less: (T, T) -> bool, data: seq<T>, mark: nat, cur: nat)
    requires mark <= |data| && cur < |data|
    ensures Sunk(less, data, mark, cur)[|data| - 1] == data[|data| - 1]
    decreases mark - cur
  {
    var last, child := data[|data| - 1], 2 * cur + 1;
    if child < mark && !less(data[Target(less, data, mark, child)], last) {
      var target := Target(less, data, mark, child);
      SunkLast(less, data[cur := data[target]], mark, target);
    }
  }

  lemma {:induction false} SunkRest<T>(less: (T, T) -> bool, data: seq<T>, mark: nat, cur: nat, i: nat)
    requires cur < mark <= i < |data|
    ensures Sunk(less, data, mark, cur)[i] == data[i]
    decreases mark - cur
  {
    var last, child := data[|data| - 1], 2 * cur + 1;
    if child < mark && !less(data[Target(less, data, mark, child)], last) {
      var target := Target(less, data, mark, child);
      SunkRest(less, data[cur := data[target]], mark, target, i);
    }
  }

  lemma ReheapKeepsHeap<T(!new)>(less: (T, T) -> bool, data: seq<T>, mark: nat)
    requires StrictWeakOrder(less) && IsHeap(less, data, mark) && mark > 0
    ensures IsHeap(less, Sunk(less, data, mark, 0)[..|data| - 1], NewMark(mark, |data|))
  {
    if NewMark(mark, |data|) > 0 {
      SunkIsHeap(less, data, mark, NewMark(mark, |data|), 0);
    }
  }

  /** What is behind the heap stays, except for the last element. */
  lemma ReheapRest<T>(less: (T, T) -> bool, data: seq<T>, mark: nat)
    requires 0 < mark < |data|
    ensures Sunk(less, data, mark, 0)[..|data| - 1][mark..] == data[mark..|data| - 1]
  {
    forall i | mark <= i < |data| - 1 ensures Sunk(less, data, mark, 0)[i] == data[i] {
      SunkRest(less, data, mark, 0, i);
    }
  }

  lemma Replaced<T>(data: seq<T>, i: nat, x: T)
    requires i < |data|
    ensures multiset(data[i := x]) + multiset{data[i]} == multiset(data) + multiset{x}
  {
  }

  /** Just the root is gone. */
  lemma ReheapRemovesRoot<T>(less: (T, T) -> bool, data: seq<T>, mark: nat)
    requires mark <= |data| && data != []
    ensures multiset(Sunk(less, data, mark, 0)[..|data| - 1]) + multiset{data[0]} == multiset(data)
  {
    var last := data[|data| - 1];
    SunkElements(less, data, mark, 0);
    SunkLast(less, data, mark, 0);
    Replaced(data, 0, last);
    var sunk := Sunk(less, data, mark, 0);
    assert sunk == sunk[..|data| - 1] + [last];
    Exchange(multiset(sunk[..|data| - 1]), multiset{last}, multiset{data[0]}, multiset(data));
  }

  lemma Exchange<T>(rest: multiset<T>, last: multiset<T>, root: multiset<T>, all: multiset<T>)
    requires rest + last + root == all + last
    ensures rest + root == all
  {
    forall x | x in rest + root || x in all ensures (rest + root)[x] == all[x] {
      assert (rest + last + root)[x] == (all + last)[x];
    }
    assert forall x :: x in rest + root <==> x in all;
  }

  lemma WithoutLast<T>(data: seq<T>, mark: nat)
    requires mark < |data|
    ensures multiset(data) == multiset(data[..mark]) + multiset(data[mark..|data| - 1]) + multiset{data[|data| - 1]}
  {
    assert data == data[..mark] + data[mark..|data| - 1] + [data[|data| - 1]];
  }

  /** An unsorted element joins the heap as the root leaves it. */
  lemma ReheapElements<T>(less: (T, T) -> bool, data: seq<T>, mark: nat)
    requires 0 < mark < |data|
    ensures multiset(Sunk(less, data, mark, 0)[..|data| - 1][..mark]) + multiset{data[0]}
            == multiset(data[..mark]) + multiset{data[|data| - 1]}
  {
    ReheapRemovesRoot(less, data, mark);
    ReheapRest(less, data, mark);
    WithoutLast(data, mark);
    var rest := Sunk(less, data, mark, 0)[..|data| - 1];
    assert rest == rest[..mark] + data[mark..|data| - 1];
    Exchange(multiset(rest[..mark]), multiset(data[mark..|data| - 1]), multiset{data[0]},
             multiset(data[..mark]) + multiset{data[|data| - 1]});
  }

  // ---------- Merging the unsorted elements ----------

  /** The vector once x has risen from position cur. */
  function Risen<T>(less: (T, T) -> bool, data: seq<T>, cur: nat, x: T): (risen: seq<T>)
    requires cur < |data|
    ensures |risen| == |data|
    decreases cur
  {
    if cur > 0 && less(data[Parent(cur)], x) then Risen(less, data[cur := data[Parent(cur)]], Parent(cur), x)
    else data[cur := x]
  }

  lemma {:induction false} RisenIsHeap<T(!new)>(less: (T, T) -> bool, data: seq<T>, n: nat, cur: nat, x: T)
    requires StrictWeakOrder(less) && RisingHole(less, data, n, cur, x)
    ensures IsHeap(less, Risen(less, data, cur, x), n)
    decreases cur
  {
    if cur > 0 && less(data[Parent(cur)], x) {
      Rise(less, data, n, cur, x);
      RisenIsHeap(less, data[cur := data[Parent(cur)]], n, Parent(cur), x);
    } else {
      FillHole(less, data, n, cur, x);
    }
  }

  lemma {:induction false} RisenElements<T>(less: (T, T) -> bool, data: seq<T>, cur: nat, x: T)
    requires cur < |data|
    ensures multiset(Risen(less, data, cur, x)) == multiset(data[cur := x])
    decreases cur
  {
    if cur > 0 && less(data[Parent(cur)], x) {
      MoveHole(data, cur, Parent(cur), x);
      RisenElements(less, data[cur := data[Parent(cur)]], Parent(cur), x);
    }
  }

  /** The first unsorted element rises into the heap. */
  lemma RiseIntoHeap<T(!new)>(less: (T, T) -> bool, data: seq<T>, mark: nat)
    requires StrictWeakOrder(less) && IsHeap(less, data, mark) && 0 < mark < |data|
    ensures IsHeap(less, Risen(less, data, mark, data[mark]), mark + 1)
    ensures multiset(Risen(less, data, mark, data[mark])) == multiset(data)
  {
    RisenIsHeap(less, data, mark + 1, mark, data[mark]);
    RisenElements(less, data, mark, data[mark]);
    assert data[mark := data[mark]] == data;
  }

  // ---------- What the two passes compute ----------

  /** The vector, the outcomes so far, and the list of postponed pops. */
  datatype Batch<T> = Batch(data: seq<T>, mark: nat, outs: seq<Outcome<T>>, pops: seq<nat>)
  {
    predicate WellFormed() {
      mark <= |data| && forall j :: 0 <= j < |pops| ==> pops[j] < |outs|
    }
  }

  /** There are newly pushed elements, and the last one is higher than the top. */
  predicate TailServes<T>(less: (T, T) -> bool, data: seq<T>, mark: nat) {
    mark < |data| && less(data[0], data[|data| - 1])
  }

  /** First pass, one operation. */
  function Handle<T>(less: (T, T) -> bool, op: Op<T>, k: nat, b: Batch<T>): (b': Batch<T>)
    requires k < |b.outs| && b.WellFormed()
    ensures |b'.outs| == |b.outs| && b'.WellFormed()
  {
    match op
    case Pop =>
      if TailServes(less, b.data, b.mark) then
        b.(outs := b.outs[k := Popped(b.data[|b.data| - 1])], data := b.data[..|b.data| - 1])
      else b.(pops := [k] + b.pops)
    case Push(x, throws) =>
      if throws then b.(outs := b.outs[k := PushFailed])
      else b.(outs := b.outs[k := Pushed], data := b.data + [x])
  }

  /** Second pass, one postponed pop. */
  function ServePostponed<T>(less: (T, T) -> bool, b: Batch<T>): (b': Batch<T>)
    requires b.pops != [] && b.WellFormed()
    ensures |b'.outs| == |b.outs| && b'.WellFormed() && b'.pops == b.pops[1..]
  {
    var p, rest := b.pops[0], b.pops[1..];
    if b.data == [] then b.(pops := rest, outs := b.outs[p := PopFailed])
    else if TailServes(less, b.data, b.mark) then
      b.(pops := rest, outs := b.outs[p := Popped(b.data[|b.data| - 1])], data := b.data[..|b.data| - 1])
    else
      b.(pops := rest, outs := b.outs[p := Popped(b.data[0])],
         data := Sunk(less, b.data, b.mark, 0)[..|b.data| - 1], mark := NewMark(b.mark, |b.data|))
  }

  /** The first k operations of the first pass. */
  function FirstPass<T>(less: (T, T) -> bool, ops: seq<Op<T>>, k: nat, b: Batch<T>): (b': Batch<T>)
    requires k <= |ops| == |b.outs| && b.WellFormed()
    ensures |b'.outs| == |b.outs| && b'.WellFormed()
  {
    if k == 0 then b else Handle(less, ops[k - 1], k - 1, FirstPass(less, ops, k - 1, b))
  }

  function SecondPass<T>(less: (T, T) -> bool, b: Batch<T>): (b': Batch<T>)
    requires b.WellFormed()
    ensures |b'.outs| == |b.outs| && b'.WellFormed() && b'.pops == []
    decreases |b.pops|
  {
    if b.pops == [] then b else SecondPass(less, ServePostponed(less, b))
  }

  function NoOutcomes<T>(n: nat): (outs: seq<Outcome<T>>)
    ensures |outs| == n
  {
    seq(n, _ => Waiting)
  }

  /** The batch after both passes. */
  function Passes<T>(less: (T, T) -> bool, data: seq<T>, ops: seq<Op<T>>): (b: Batch<T>)
    ensures |b.outs| == |ops| && b.WellFormed() && b.pops == []
  {
    SecondPass(less, FirstPass(less, ops, |ops|, Batch(data, |data|, NoOutcomes(|ops|), [])))
  }

  // ---------- A batch under way ----------

  /** The operations in `order` explain the heap part of the vector. */
  ghost predicate Explained<T(!new)>(less: (T, T) -> bool, q: multiset<T>, ops: seq<Op<T>>, outs: seq<Outcome<T>>,
                               order: seq<nat>, heap: seq<T>)
  {
    && |outs| == |ops| && InBatch(order, |ops|)
    && Legal(less, q, ops, outs, order)
    && Contents(q, ops, outs, order) == multiset(heap)
  }

  /** tags[j] is the push that put tail[j] behind the heap. */
  ghost predicate Tagged<T>(ops: seq<Op<T>>, outs: seq<Outcome<T>>, tags: seq<nat>, tail: seq<T>) {
    && |tags| == |tail| && |outs| == |ops|
    && forall j :: 0 <= j < |tags| ==>
         tags[j] < |ops| && ops[tags[j]] == Push(tail[j], false) && outs[tags[j]] == Pushed
  }

  ghost predicate Postponed<T>(ops: seq<Op<T>>, pops: seq<nat>) {
    forall j :: 0 <= j < |pops| ==> pops[j] < |ops| && ops[pops[j]] == Pop
  }

  /** The vector in the middle of a batch: the operations in `order` have taken effect, the pushes
      in `tags` wait behind the heap. A push takes effect no earlier than its element joins the heap
      or is popped from behind it. */
  ghost predicate Standing<T(!new)>(less: (T, T) -> bool, q: multiset<T>, ops: seq<Op<T>>, outs: seq<Outcome<T>>,
                              order: seq<nat>, tags: seq<nat>, data: seq<T>, mark: nat)
  {
    && mark <= |data|
    && StrictWeakOrder(less) && IsHeap(less, data, mark)
    && Explained(less, q, ops, outs, order, data[..mark])
    && Tagged(ops, outs, tags, data[mark..])
  }

  /** The first k operations: each has taken effect, waits behind the heap, or is postponed. */
  ghost predicate Account(order: seq<nat>, tags: seq<nat>, pops: seq<nat>, k: nat) {
    multiset(order) + multiset(tags) + multiset(pops) == multiset(UpTo(k))
  }

  lemma {:induction false} UpToOnce(k: nat, x: nat)
    ensures multiset(UpTo(k))[x] == if x < k then 1 else 0
  {
    if k > 0 {
      UpToOnce(k - 1, x);
      assert UpTo(k) == UpTo(k - 1) + [k - 1];
    }
  }

  lemma Separate(order: seq<nat>, tags: seq<nat>, pops: seq<nat>, k: nat, p: nat)
    requires Account(order, tags, pops, k)
    requires p >= k || p in pops
    ensures p !in order && p !in tags
  {
    UpToOnce(k, p);
    assert p in pops ==> multiset(pops)[p] >= 1;
    assert (multiset(order) + multiset(tags) + multiset(pops))[p]
        == multiset(order)[p] + multiset(tags)[p] + multiset(pops)[p];
    assert p in order ==> p in multiset(order);
    assert p in tags ==> p in multiset(tags);
  }

  lemma ExplainedFrame<T(!new)>(less: (T, T) -> bool, q: multiset<T>, ops: seq<Op<T>>, outs: seq<Outcome<T>>,
                          order: seq<nat>, heap: seq<T>, p: nat, out: Outcome<T>)
    requires Explained(less, q, ops, outs, order, heap) && p < |ops| && p !in order
    ensures Explained(less, q, ops, outs[p := out], order, heap)
  {
    Reframe(less, q, ops, outs, outs[p := out], order);
  }

  /** One more operation takes effect on the heap's elements. */
  lemma Explain<T(!new)>(less: (T, T) -> bool, q: multiset<T>, ops: seq<Op<T>>, outs: seq<Outcome<T>>,
                   order: seq<nat>, heap: seq<T>, i: nat, heap': seq<T>)
    requires Explained(less, q, ops, outs, order, heap) && i < |ops|
    requires Allowed(less, multiset(heap), ops[i], outs[i])
    requires Effect(multiset(heap), ops[i], outs[i]) == multiset(heap')
    ensures Explained(less, q, ops, outs, order + [i], heap')
  {
    Extend(less, q, ops, outs, order, i);
  }

  /** x is as large as everything in the heap when the root is smaller than x, or the heap empty. */
  lemma NothingLarger<T(!new)>(less: (T, T) -> bool, data: seq<T>, mark: nat, x: T, y: T)
    requires StrictWeakOrder(less) && IsHeap(less, data, mark)
    requires mark > 0 ==> data[0] == x || less(data[0], x)
    requires y in data[..mark]
    ensures !less(x, y)
  {
    var i :| 0 <= i < mark && data[i] == y;
    RootIsLargest(less, data, mark, i);
    if data[0] != x {
      LessNotLess(less, data[0], x, y);
    }
  }

  /** A pop takes an element from behind the heap: its push and the pop take effect together. */
  lemma PopFromTail<T(!new)>(less: (T, T) -> bool, q: multiset<T>, ops: seq<Op<T>>, outs: seq<Outcome<T>>,
                       order: seq<nat>, data: seq<T>, mark: nat, push: nat, p: nat, x: T)
    requires StrictWeakOrder(less) && IsHeap(less, data, mark)
    requires mark > 0 ==> less(data[0], x)
    requires Explained(less, q, ops, outs, order, data[..mark])
    requires push < |ops| && ops[push] == Push(x, false) && outs[push] == Pushed
    requires p < |ops| && ops[p] == Pop && p !in order && p != push
    ensures Explained(less, q, ops, outs[p := Popped(x)], order + [push] + [p], data[..mark])
  {
    var outs' := outs[p := Popped(x)];
    ExplainedFrame(less, q, ops, outs, order, data[..mark], p, Popped(x));
    Explain(less, q, ops, outs', order, data[..mark], push, data[..mark] + [x]);
    forall y | y in multiset(data[..mark] + [x]) ensures !less(x, y) {
      if y in data[..mark] {
        NothingLarger(less, data, mark, x, y);
      }
    }
    Explain(less, q, ops, outs', order + [push], data[..mark] + [x], p, data[..mark]);
  }

  lemma PushLast<T(!new)>(less: (T, T) -> bool, q: multiset<T>, ops: seq<Op<T>>, outs: seq<Outcome<T>>,
                    order: seq<nat>, tags: seq<nat>, data: seq<T>, mark: nat, k: nat, x: T)
    requires Standing(less, q, ops, outs, order, tags, data, mark)
    requires k < |ops| && ops[k] == Push(x, false) && k !in order && k !in tags
    ensures Standing(less, q, ops, outs[k := Pushed], order, tags + [k], data + [x], mark)
  {
    ExplainedFrame(less, q, ops, outs, order, data[..mark], k, Pushed);
    assert (data + [x])[..mark] == data[..mark];
    assert (data + [x])[mark..] == data[mark..] + [x];
  }

  lemma PushThrows<T(!new)>(less: (T, T) -> bool, q: multiset<T>, ops: seq<Op<T>>, outs: seq<Outcome<T>>,
                      order: seq<nat>, tags: seq<nat>, data: seq<T>, mark: nat, k: nat)
    requires Standing(less, q, ops, outs, order, tags, data, mark)
    requires k < |ops| && ops[k].Push? && ops[k].throws && k !in order && k !in tags
    ensures Standing(less, q, ops, outs[k := PushFailed], order + [k], tags, data, mark)
  {
    ExplainedFrame(less, q, ops, outs, order, data[..mark], k, PushFailed);
    Explain(less, q, ops, outs[k := PushFailed], order, data[..mark], k, data[..mark]);
  }

  lemma PopLast<T(!new)>(less: (T, T) -> bool, q: multiset<T>, ops: seq<Op<T>>, outs: seq<Outcome<T>>,
                   order: seq<nat>, tags: seq<nat>, data: seq<T>, mark: nat, p: nat)
    requires Standing(less, q, ops, outs, order, tags, data, mark)
    requires mark < |data| && less(data[0], data[|data| - 1])
    requires p < |ops| && ops[p] == Pop && p !in order && p !in tags
    ensures Standing(less, q, ops, outs[p := Popped(data[|data| - 1])], order + [tags[|tags| - 1]] + [p],
                     tags[..|tags| - 1], data[..|data| - 1], mark)
  {
    var x, push := data[|data| - 1], tags[|tags| - 1];
    assert data[mark..][|tags| - 1] == x;
    PopFromTail(less, q, ops, outs, order, data, mark, push, p, x);
    assert data[..|data| - 1][..mark] == data[..mark];
    assert data[..|data| - 1][mark..] == data[mark..][..|tags| - 1];
  }

  lemma TaggedWithoutLast<T>(ops: seq<Op<T>>, outs: seq<Outcome<T>>, tags: seq<nat>, tail: seq<T>, p: nat, out: Outcome<T>)
    requires Tagged(ops, outs, tags, tail) && tags != [] && p < |outs| && p !in tags
    ensures Tagged(ops, outs[p := out], tags[..|tags| - 1], tail[..|tail| - 1])
  {
  }

  /** The root is popped, then a push takes effect. */
  lemma ExplainRoot<T(!new)>(less: (T, T) -> bool, q: multiset<T>, ops: seq<Op<T>>, outs: seq<Outcome<T>>, order: seq<nat>,
                       heap: seq<T>, p: nat, push: nat, last: T, heap': seq<T>)
    requires Explained(less, q, ops, outs, order, heap) && heap != []
    requires p < |ops| && ops[p] == Pop && p !in order && p != push
    requires push < |ops| && ops[push] == Push(last, false) && outs[push] == Pushed
    requires Allowed(less, multiset(heap), Pop, Popped(heap[0]))
    requires multiset(heap') + multiset{heap[0]} == multiset(heap) + multiset{last}
    ensures Explained(less, q, ops, outs[p := Popped(heap[0])], order + [p] + [push], heap')
  {
    var outs' := outs[p := Popped(heap[0])];
    ExplainedFrame(less, q, ops, outs, order, heap, p, Popped(heap[0]));
    assert heap == [heap[0]] + heap[1..];
    Exchange(multiset(heap'), multiset{heap[0]}, multiset{}, multiset(heap[1..]) + multiset{last});
    Explain(less, q, ops, outs', order, heap, p, heap[1..]);
    Explain(less, q, ops, outs', order + [p], heap[1..], push, heap');
  }

  /** The root of the heap is popped, and the last unsorted element joins the heap. */
  lemma PopRoot<T(!new)>(less: (T, T) -> bool, q: multiset<T>, ops: seq<Op<T>>, outs: seq<Outcome<T>>,
                   order: seq<nat>, tags: seq<nat>, data: seq<T>, mark: nat, p: nat)
    requires Standing(less, q, ops, outs, order, tags, data, mark) && 0 < mark < |data|
    requires p < |ops| && ops[p] == Pop && p !in order && p !in tags
    ensures Standing(less, q, ops, outs[p := Popped(data[0])], order + [p] + [tags[|tags| - 1]],
                     tags[..|tags| - 1], Sunk(less, data, mark, 0)[..|data| - 1], mark)
  {
    var push, rest := tags[|tags| - 1], Sunk(less, data, mark, 0)[..|data| - 1];
    assert IsHeap(less, rest, mark) by { ReheapKeepsHeap(less, data, mark); }
    assert rest[mark..] == data[mark..][..|tags| - 1] by { ReheapRest(less, data, mark); }
    TaggedWithoutLast(ops, outs, tags, data[mark..], p, Popped(data[0]));
    ReheapElements(less, data, mark);
    PopRootAllowed(less, data, mark);
    assert data[mark..][|tags| - 1] == data[|data| - 1] && data[..mark][0] == data[0];
    ExplainRoot(less, q, ops, outs, order, data[..mark], p, push, data[|data| - 1], rest[..mark]);
  }

  lemma PopRootAllowed<T(!new)>(less: (T, T) -> bool, data: seq<T>, mark: nat)
    requires StrictWeakOrder(less) && IsHeap(less, data, mark) && mark > 0
    ensures data[0] in multiset(data[..mark])
    ensures forall y :: y in multiset(data[..mark]) ==> !less(data[0], y)
  {
    assert data[..mark][0] == data[0];
    forall y | y in multiset(data[..mark]) ensures !less(data[0], y) {
      NothingLarger(less, data, mark, data[0], y);
    }
  }

  /** Nothing is behind the heap: the heap itself shrinks. */
  lemma PopRootOnly<T(!new)>(less: (T, T) -> bool, q: multiset<T>, ops: seq<Op<T>>, outs: seq<Outcome<T>>,
                       order: seq<nat>, tags: seq<nat>, data: seq<T>, mark: nat, p: nat)
    requires Standing(less, q, ops, outs, order, tags, data, mark) && 0 < mark == |data|
    requires p < |ops| && ops[p] == Pop && p !in order
    ensures Standing(less, q, ops, outs[p := Popped(data[0])], order + [p], tags,
                     Sunk(less, data, mark, 0)[..|data| - 1], mark - 1)
  {
    hide Sunk, Explained, IsHeap, StrictWeakOrder;
    var rest := Sunk(less, data, mark, 0)[..|data| - 1];
    ReheapKeepsHeap(less, data, mark);
    ReheapRemovesRoot(less, data, mark);
    ExplainedFrame(less, q, ops, outs, order, data[..mark], p, Popped(data[0]));
    PopRootAllowed(less, data, mark);
    assert data[..mark] == data && rest[..mark - 1] == rest;
    Explain(less, q, ops, outs[p := Popped(data[0])], order, data[..mark], p, rest);
  }

  /** The heap is empty: the first unsorted element is popped, and the last one takes its place. */
  function FirstReplaced<T>(s: seq<T>): seq<T>
    requires s != []
  {
    if |s| == 1 then [] else [s[|s| - 1]] + s[1..|s| - 1]
  }

  lemma TaggedFirstReplaced<T>(ops: seq<Op<T>>, outs: seq<Outcome<T>>, tags: seq<nat>, tail: seq<T>, p: nat, out: Outcome<T>)
    requires Tagged(ops, outs, tags, tail) && tags != [] && p < |outs| && p !in tags
    ensures Tagged(ops, outs[p := out], FirstReplaced(tags), FirstReplaced(tail))
  {
  }

  lemma SunkInNothing<T>(less: (T, T) -> bool, data: seq<T>)
    requires data != []
    ensures Sunk(less, data, 0, 0)[..|data| - 1] == FirstReplaced(data)
  {
  }

  lemma PopFirst<T(!new)>(less: (T, T) -> bool, q: multiset<T>, ops: seq<Op<T>>, outs: seq<Outcome<T>>,
                    order: seq<nat>, tags: seq<nat>, data: seq<T>, p: nat)
    requires Standing(less, q, ops, outs, order, tags, data, 0) && data != [] && tags != []
    requires p < |ops| && p < |outs| && ops[p] == Pop && p !in order && p !in tags
    ensures Standing(less, q, ops, outs[p := Popped(data[0])], order + [tags[0]] + [p],
                     FirstReplaced(tags), FirstReplaced(data), 0)
  {
    var rest := FirstReplaced(data);
    assert data[0..] == data && rest[0..] == rest && rest[..0] == data[..0];
    TaggedFirstReplaced(ops, outs, tags, data, p, Popped(data[0]));
    PopFromTail(less, q, ops, outs, order, data, 0, tags[0], p, data[0]);
  }

  lemma PopNothing<T(!new)>(less: (T, T) -> bool, q: multiset<T>, ops: seq<Op<T>>, outs: seq<Outcome<T>>,
                      order: seq<nat>, tags: seq<nat>, data: seq<T>, mark: nat, p: nat)
    requires Standing(less, q, ops, outs, order, tags, data, mark) && data == []
    requires p < |ops| && ops[p] == Pop && p !in order && p !in tags
    ensures Standing(less, q, ops, outs[p := PopFailed], order + [p], tags, data, mark)
  {
    ExplainedFrame(less, q, ops, outs, order, data[..mark], p, PopFailed);
    Explain(less, q, ops, outs[p := PopFailed], order, data[..mark], p, data[..mark]);
  }

  /** At the end the remaining pushes take effect. */
  lemma {:induction false} PushTheRest<T(!new)>(less: (T, T) -> bool, q: multiset<T>, ops: seq<Op<T>>, outs: seq<Outcome<T>>,
                                          order: seq<nat>, tags: seq<nat>, heap: seq<T>, tail: seq<T>)
    requires Explained(less, q, ops, outs, order, heap) && Tagged(ops, outs, tags, tail)
    ensures Explained(less, q, ops, outs, order + tags, heap + tail)
    decreases |tags|
  {
    if tags == [] {
      assert order + tags == order && heap + tail == heap;
    } else {
      var k := |tags| - 1;
      var order', heap' := order + tags[..k], heap + tail[..k];
      assert Explained(less, q, ops, outs, order', heap') by {
        PushTheRest(less, q, ops, outs, order, tags[..k], heap, tail[..k]);
      }
      assert heap + tail == heap' + [tail[k]] && order + tags == order' + [tags[k]];
      Explain(less, q, ops, outs, order', heap', tags[k], heap' + [tail[k]]);
    }
  }

  // ---------- The two passes, step by step ----------

  /** Progress of the batch: everything about the first k operations. */
  ghost predicate Progress<T(!new)>(less: (T, T) -> bool, q: multiset<T>, ops: seq<Op<T>>, outs: seq<Outcome<T>>,
                              order: seq<nat>, tags: seq<nat>, pops: seq<nat>, k: nat, data: seq<T>, mark: nat)
  {
    && Standing(less, q, ops, outs, order, tags, data, mark)
    && Account(order, tags, pops, k) && Postponed(ops, pops)
  }

  lemma UpToNext(k: nat)
    ensures multiset(UpTo(k + 1)) == multiset(UpTo(k)) + multiset{k}
  {
    assert UpTo(k + 1) == UpTo(k) + [k];
  }

  lemma SplitLast(s: seq<nat>)
    requires s != []
    ensures multiset(s) == multiset(s[..|s| - 1]) + multiset{s[|s| - 1]}
  {
    assert s == s[..|s| - 1] + [s[|s| - 1]];
  }

  lemma StepPush<T(!new)>(less: (T, T) -> bool, q: multiset<T>, ops: seq<Op<T>>, outs: seq<Outcome<T>>,
                    order: seq<nat>, tags: seq<nat>, pops: seq<nat>, k: nat, data: seq<T>, mark: nat, x: T)
    requires Progress(less, q, ops, outs, order, tags, pops, k, data, mark)
    requires k < |ops| && ops[k] == Push(x, false)
    ensures Progress(less, q, ops, outs[k := Pushed], order, tags + [k], pops, k + 1, data + [x], mark)
  {
    Separate(order, tags, pops, k, k);
    UpToNext(k);
    PushLast(less, q, ops, outs, order, tags, data, mark, k, x);
  }

  lemma StepPushThrows<T(!new)>(less: (T, T) -> bool, q: multiset<T>, ops: seq<Op<T>>, outs: seq<Outcome<T>>,
                          order: seq<nat>, tags: seq<nat>, pops: seq<nat>, k: nat, data: seq<T>, mark: nat)
    requires Progress(less, q, ops, outs, order, tags, pops, k, data, mark)
    requires k < |ops| && ops[k].Push? && ops[k].throws
    ensures Progress(less, q, ops, outs[k := PushFailed], order + [k], tags, pops, k + 1, data, mark)
  {
    Separate(order, tags, pops, k, k);
    UpToNext(k);
    PushThrows(less, q, ops, outs, order, tags, data, mark, k);
  }

  lemma StepPostpone<T(!new)>(less: (T, T) -> bool, q: multiset<T>, ops: seq<Op<T>>, outs: seq<Outcome<T>>,
                        order: seq<nat>, tags: seq<nat>, pops: seq<nat>, k: nat, data: seq<T>, mark: nat)
    requires Progress(less, q, ops, outs, order, tags, pops, k, data, mark)
    requires k < |ops| && ops[k] == Pop
    ensures Progress(less, q, ops, outs, order, tags, [k] + pops, k + 1, data, mark)
  {
    UpToNext(k);
  }

  lemma StepPopLast<T(!new)>(less: (T, T) -> bool, q: multiset<T>, ops: seq<Op<T>>, outs: seq<Outcome<T>>,
                       order: seq<nat>, tags: seq<nat>, pops: seq<nat>, k: nat, data: seq<T>, mark: nat)
    requires Progress(less, q, ops, outs, order, tags, pops, k, data, mark)
    requires k < |ops| && ops[k] == Pop && mark < |data| && less(data[0], data[|data| - 1])
    ensures Progress(less, q, ops, outs[k := Popped(data[|data| - 1])], order + [tags[|tags| - 1]] + [k],
                     tags[..|tags| - 1], pops, k + 1, data[..|data| - 1], mark)
  {
    Separate(order, tags, pops, k, k);
    UpToNext(k);
    SplitLast(tags);
    PopLast(less, q, ops, outs, order, tags, data, mark, k);
  }

  lemma FirstReplacedElements(s: seq<nat>)
    requires s != []
    ensures multiset(s) == multiset(FirstReplaced(s)) + multiset{s[0]}
  {
    if |s| == 1 {
      assert s == [s[0]];
    } else {
      var middle := s[1..|s| - 1];
      assert s == [s[0]] + middle + [s[|s| - 1]];
      assert FirstReplaced(s) == [s[|s| - 1]] + middle;
    }
  }

  lemma Balance(o: multiset<nat>, t: multiset<nat>, p: multiset<nat>, u: multiset<nat>, x: multiset<nat>, y: multiset<nat>)
    requires o + (t + x) + (y + p) == u
    ensures o + x + y + t + p == u
  {
  }

  lemma AccountServed(order: seq<nat>, tags: seq<nat>, pops: seq<nat>, k: nat, x: nat, tags': seq<nat>)
    requires Account(order, tags, pops, k) && pops != []
    requires multiset(tags) == multiset(tags') + multiset{x}
    ensures Account(order + [x] + [pops[0]], tags', pops[1..], k)
    ensures Account(order + [pops[0]] + [x], tags', pops[1..], k)
  {
    assert pops == [pops[0]] + pops[1..];
    Balance(multiset(order), multiset(tags'), multiset(pops[1..]), multiset(UpTo(k)), multiset{x}, multiset{pops[0]});
  }

  lemma NextPop(order: seq<nat>, tags: seq<nat>, pops: seq<nat>, k: nat)
    requires Account(order, tags, pops, k) && pops != []
    ensures pops[0] !in order && pops[0] !in tags
    ensures multiset(pops) == multiset{pops[0]} + multiset(pops[1..])
  {
    Separate(order, tags, pops, k, pops[0]);
    assert pops == [pops[0]] + pops[1..];
  }

  ghost predicate ProgressOf<T(!new)>(less: (T, T) -> bool, q: multiset<T>, ops: seq<Op<T>>, b: Batch<T>,
                                order: seq<nat>, tags: seq<nat>, k: nat)
  {
    b.WellFormed() && Progress(less, q, ops, b.outs, order, tags, b.pops, k, b.data, b.mark)
  }

  lemma ServeNothing<T(!new)>(less: (T, T) -> bool, q: multiset<T>, ops: seq<Op<T>>, outs: seq<Outcome<T>>,
      order: seq<nat>, tags: seq<nat>, pops: seq<nat>, k: nat, data: seq<T>, mark: nat)
    requires Progress(less, q, ops, outs, order, tags, pops, k, data, mark) && pops != []
    requires data == []
    ensures pops[0] < |outs|
    ensures Progress(less, q, ops, outs[pops[0] := PopFailed], order + [pops[0]],
                     tags, pops[1..], k, data, mark)
  {
    NextPop(order, tags, pops, k);
    PopNothing(less, q, ops, outs, order, tags, data, mark, pops[0]);
  }

  lemma ServeLast<T(!new)>(less: (T, T) -> bool, q: multiset<T>, ops: seq<Op<T>>, outs: seq<Outcome<T>>,
      order: seq<nat>, tags: seq<nat>, pops: seq<nat>, k: nat, data: seq<T>, mark: nat)
    requires Progress(less, q, ops, outs, order, tags, pops, k, data, mark) && pops != []
    requires TailServes(less, data, mark)
    ensures pops[0] < |outs|
    ensures Progress(less, q, ops, outs[pops[0] := Popped(data[|data| - 1])], order + [tags[|tags| - 1]] + [pops[0]],
                     tags[..|tags| - 1], pops[1..], k, data[..|data| - 1], mark)
  {
    NextPop(order, tags, pops, k);
    SplitLast(tags);
    AccountServed(order, tags, pops, k, tags[|tags| - 1], tags[..|tags| - 1]);
    hide Account;
    PopLast(less, q, ops, outs, order, tags, data, mark, pops[0]);
  }

  lemma ServeFirst<T(!new)>(less: (T, T) -> bool, q: multiset<T>, ops: seq<Op<T>>, outs: seq<Outcome<T>>,
      order: seq<nat>, tags: seq<nat>, pops: seq<nat>, k: nat, data: seq<T>)
    requires Progress(less, q, ops, outs, order, tags, pops, k, data, 0) && pops != []
    requires data != [] && tags != [] && pops[0] < |outs|
    ensures Progress(less, q, ops, outs[pops[0] := Popped(data[0])], order + [tags[0]] + [pops[0]],
                     FirstReplaced(tags), pops[1..], k, FirstReplaced(data), 0)
  {
    NextPop(order, tags, pops, k);
    assert Standing(less, q, ops, outs[pops[0] := Popped(data[0])], order + [tags[0]] + [pops[0]],
                    FirstReplaced(tags), FirstReplaced(data), 0) by {
      PopFirst(less, q, ops, outs, order, tags, data, pops[0]);
    }
    assert Account(order + [tags[0]] + [pops[0]], FirstReplaced(tags), pops[1..], k) by {
      FirstReplacedElements(tags);
      AccountServed(order, tags, pops, k, tags[0], FirstReplaced(tags));
    }
  }

  lemma ServeRoot<T(!new)>(less: (T, T) -> bool, q: multiset<T>, ops: seq<Op<T>>, outs: seq<Outcome<T>>,
      order: seq<nat>, tags: seq<nat>, pops: seq<nat>, k: nat, data: seq<T>, mark: nat)
    requires Progress(less, q, ops, outs, order, tags, pops, k, data, mark) && pops != []
    requires 0 < mark < |data| && !TailServes(less, data, mark)
    ensures pops[0] < |outs|
    ensures Progress(less, q, ops, outs[pops[0] := Popped(data[0])], order + [pops[0]] + [tags[|tags| - 1]],
                     tags[..|tags| - 1], pops[1..], k, Sunk(less, data, mark, 0)[..|data| - 1], mark)
  {
    NextPop(order, tags, pops, k);
    SplitLast(tags);
    AccountServed(order, tags, pops, k, tags[|tags| - 1], tags[..|tags| - 1]);
    hide Account;
    PopRoot(less, q, ops, outs, order, tags, data, mark, pops[0]);
  }

  lemma ServeRootOnly<T(!new)>(less: (T, T) -> bool, q: multiset<T>, ops: seq<Op<T>>, outs: seq<Outcome<T>>,
      order: seq<nat>, tags: seq<nat>, pops: seq<nat>, k: nat, data: seq<T>, mark: nat)
    requires Progress(less, q, ops, outs, order, tags, pops, k, data, mark) && pops != []
    requires 0 < mark == |data|
    ensures pops[0] < |outs|
    ensures Progress(less, q, ops, outs[pops[0] := Popped(data[0])], order + [pops[0]],
                     tags, pops[1..], k, Sunk(less, data, mark, 0)[..|data| - 1], mark - 1)
  {
    NextPop(order, tags, pops, k);
    PopRootOnly(less, q, ops, outs, order, tags, data, mark, pops[0]);
  }

  lemma StepServeNothing<T(!new)>(less: (T, T) -> bool, q: multiset<T>, ops: seq<Op<T>>, b: Batch<T>,
      order: seq<nat>, tags: seq<nat>, k: nat)
    requires ProgressOf(less, q, ops, b, order, tags, k) && b.pops != []
    requires b.data == []
    ensures ProgressOf(less, q, ops, ServePostponed(less, b), order + [b.pops[0]], tags, k)
  {
    hide Progress, Sunk;
    ServeNothing(less, q, ops, b.outs, order, tags, b.pops, k, b.data, b.mark);
  }

  lemma StepServeLast<T(!new)>(less: (T, T) -> bool, q: multiset<T>, ops: seq<Op<T>>, b: Batch<T>,
      order: seq<nat>, tags: seq<nat>, k: nat)
    requires ProgressOf(less, q, ops, b, order, tags, k) && b.pops != []
    requires TailServes(less, b.data, b.mark)
    ensures ProgressOf(less, q, ops, ServePostponed(less, b), order + [tags[|tags| - 1]] + [b.pops[0]], tags[..|tags| - 1], k)
  {
    hide Progress, Sunk;
    ServeLast(less, q, ops, b.outs, order, tags, b.pops, k, b.data, b.mark);
  }

  lemma StepServeFirst<T(!new)>(less: (T, T) -> bool, q: multiset<T>, ops: seq<Op<T>>, b: Batch<T>,
      order: seq<nat>, tags: seq<nat>, k: nat)
    requires ProgressOf(less, q, ops, b, order, tags, k) && b.pops != []
    requires b.data != [] && b.mark == 0 && !TailServes(less, b.data, b.mark)
    ensures ProgressOf(less, q, ops, ServePostponed(less, b), order + [tags[0]] + [b.pops[0]], FirstReplaced(tags), k)
  {
    assert |tags| == |b.data| - b.mark;
    hide Progress, Sunk;
    SunkInNothing(less, b.data);
    ServeFirst(less, q, ops, b.outs, order, tags, b.pops, k, b.data);
  }

  lemma StepServeRoot<T(!new)>(less: (T, T) -> bool, q: multiset<T>, ops: seq<Op<T>>, b: Batch<T>,
      order: seq<nat>, tags: seq<nat>, k: nat)
    requires ProgressOf(less, q, ops, b, order, tags, k) && b.pops != []
    requires 0 < b.mark < |b.data| && !TailServes(less, b.data, b.mark)
    ensures ProgressOf(less, q, ops, ServePostponed(less, b), order + [b.pops[0]] + [tags[|tags| - 1]], tags[..|tags| - 1], k)
  {
    hide Progress, Sunk;
    ServeRoot(less, q, ops, b.outs, order, tags, b.pops, k, b.data, b.mark);
  }

  lemma StepServeRootOnly<T(!new)>(less: (T, T) -> bool, q: multiset<T>, ops: seq<Op<T>>, b: Batch<T>,
      order: seq<nat>, tags: seq<nat>, k: nat)
    requires ProgressOf(less, q, ops, b, order, tags, k) && b.pops != []
    requires 0 < b.mark == |b.data|
    ensures ProgressOf(less, q, ops, ServePostponed(less, b), order + [b.pops[0]], tags, k)
  {
    hide Progress, Sunk;
    ServeRootOnly(less, q, ops, b.outs, order, tags, b.pops, k, b.data, b.mark);
  }

  /** A postponed pop is served; order' and tags' add what it completes. */
  lemma StepPostponed<T(!new)>(less: (T, T) -> bool, q: multiset<T>, ops: seq<Op<T>>, b: Batch<T>,
                         order: seq<nat>, tags: seq<nat>, k: nat) returns (order': seq<nat>, tags': seq<nat>)
    requires ProgressOf(less, q, ops, b, order, tags, k) && b.pops != []
    ensures ProgressOf(less, q, ops, ServePostponed(less, b), order', tags', k)
  {
    assert b.WellFormed() && |tags| == |b.data| - b.mark;
    hide ProgressOf, ServePostponed;
    if b.data == [] {
      order', tags' := order + [b.pops[0]], tags;
      StepServeNothing(less, q, ops, b, order, tags, k);
    } else if TailServes(less, b.data, b.mark) {
      order', tags' := order + [tags[|tags| - 1]] + [b.pops[0]], tags[..|tags| - 1];
      StepServeLast(less, q, ops, b, order, tags, k);
    } else if b.mark == 0 {
      order', tags' := order + [tags[0]] + [b.pops[0]], FirstReplaced(tags);
      StepServeFirst(less, q, ops, b, order, tags, k);
    } else if b.mark < |b.data| {
      order', tags' := order + [b.pops[0]] + [tags[|tags| - 1]], tags[..|tags| - 1];
      StepServeRoot(less, q, ops, b, order, tags, k);
    } else {
      order', tags' := order + [b.pops[0]], tags;
      StepServeRootOnly(less, q, ops, b, order, tags, k);
    }
  }

  lemma TagsOf<T(!new)>(less: (T, T) -> bool, q: multiset<T>, ops: seq<Op<T>>, b: Batch<T>,
                        order: seq<nat>, tags: seq<nat>, k: nat)
    requires ProgressOf(less, q, ops, b, order, tags, k)
    ensures |tags| == |b.data| - b.mark
  {
  }

  lemma TailIsLarger<T(!new)>(less: (T, T) -> bool, data: seq<T>, mark: nat)
    requires TailServes(less, data, mark)
    ensures mark < |data| && less(data[0], data[|data| - 1])
  {
  }

  lemma StepFirstPop<T(!new)>(less: (T, T) -> bool, q: multiset<T>, ops: seq<Op<T>>, b: Batch<T>,
                        order: seq<nat>, tags: seq<nat>, k: nat) returns (order': seq<nat>, tags': seq<nat>)
    requires ProgressOf(less, q, ops, b, order, tags, k) && k < |ops| && k < |b.outs| && ops[k] == Pop
    ensures ProgressOf(less, q, ops, Handle(less, ops[k], k, b), order', tags', k + 1)
  {
    hide Progress, TailServes;
    TagsOf(less, q, ops, b, order, tags, k);
    if TailServes(less, b.data, b.mark) {
      TailIsLarger(less, b.data, b.mark);
      order', tags' := order + [tags[|tags| - 1]] + [k], tags[..|tags| - 1];
      StepPopLast(less, q, ops, b.outs, order, tags, b.pops, k, b.data, b.mark);
    } else {
      order', tags' := order, tags;
      StepPostpone(less, q, ops, b.outs, order, tags, b.pops, k, b.data, b.mark);
    }
  }

  lemma StepFirstPush<T(!new)>(less: (T, T) -> bool, q: multiset<T>, ops: seq<Op<T>>, b: Batch<T>,
                         order: seq<nat>, tags: seq<nat>, k: nat) returns (order': seq<nat>, tags': seq<nat>)
    requires ProgressOf(less, q, ops, b, order, tags, k) && k < |ops| && k < |b.outs| && ops[k].Push?
    ensures ProgressOf(less, q, ops, Handle(less, ops[k], k, b), order', tags', k + 1)
  {
    hide Progress;
    order', tags' := order, tags;
    if ops[k].throws {
      order' := order + [k];
      StepPushThrows(less, q, ops, b.outs, order, tags, b.pops, k, b.data, b.mark);
    } else {
      tags' := tags + [k];
      StepPush(less, q, ops, b.outs, order, tags, b.pops, k, b.data, b.mark, ops[k].elem);
    }
  }

  lemma StepFirst<T(!new)>(less: (T, T) -> bool, q: multiset<T>, ops: seq<Op<T>>, b: Batch<T>,
                     order: seq<nat>, tags: seq<nat>, k: nat) returns (order': seq<nat>, tags': seq<nat>)
    requires ProgressOf(less, q, ops, b, order, tags, k) && k < |ops| && k < |b.outs|
    ensures b.WellFormed() && ProgressOf(less, q, ops, Handle(less, ops[k], k, b), order', tags', k + 1)
  {
    assert b.WellFormed();
    hide ProgressOf, Handle;
    if ops[k].Pop? {
      order', tags' := StepFirstPop(less, q, ops, b, order, tags, k);
    } else {
      order', tags' := StepFirstPush(less, q, ops, b, order, tags, k);
    }
  }

  lemma {:induction false} FirstPassProgress<T(!new)>(less: (T, T) -> bool, data: seq<T>, ops: seq<Op<T>>, k: nat)
    returns (order: seq<nat>, tags: seq<nat>)
    requires StrictWeakOrder(less) && IsHeap(less, data, |data|) && k <= |ops|
    ensures var b := FirstPass(less, ops, k, Batch(data, |data|, NoOutcomes(|ops|), []));
            ProgressOf(less, multiset(data), ops, b, order, tags, k)
  {
    if k == 0 {
      order, tags := [], [];
      assert data[..|data|] == data;
    } else {
      hide ProgressOf, Handle;
      order, tags := FirstPassProgress(less, data, ops, k - 1);
      var b := FirstPass(less, ops, k - 1, Batch(data, |data|, NoOutcomes(|ops|), []));
      order, tags := StepFirst(less, multiset(data), ops, b, order, tags, k - 1);
    }
  }

  lemma {:induction false} SecondPassProgress<T(!new)>(less: (T, T) -> bool, q: multiset<T>, ops: seq<Op<T>>, b: Batch<T>,
                                                 order: seq<nat>, tags: seq<nat>)
    returns (order': seq<nat>, tags': seq<nat>)
    requires ProgressOf(less, q, ops, b, order, tags, |ops|)
    ensures ProgressOf(less, q, ops, SecondPass(less, b), order', tags', |ops|)
    decreases |b.pops|
  {
    assert b.WellFormed();
    hide ProgressOf, ServePostponed;
    if b.pops == [] {
      order', tags' := order, tags;
    } else {
      var order1, tags1 := StepPostponed(less, q, ops, b, order, tags, |ops|);
      order', tags' := SecondPassProgress(less, q, ops, ServePostponed(less, b), order1, tags1);
    }
  }

  /** For every heap and every batch there is an order of the whole batch in which a plain priority
      queue gives the same outcomes and ends with the elements of the vector. */
  lemma BatchLinearizes<T(!new)>(less: (T, T) -> bool, data: seq<T>, ops: seq<Op<T>>) returns (order: seq<nat>)
    requires StrictWeakOrder(less) && IsHeap(less, data, |data|)
    ensures var b := Passes(less, data, ops);
            && IsHeap(less, b.data, b.mark)
            && Linearizes(less, multiset(data), ops, b.outs, order, multiset(b.data))
  {
    var order1, tags1 := FirstPassProgress(less, data, ops, |ops|);
    var order2, tags2 := PassesProgress(less, data, ops, order1, tags1);
    order := order2 + tags2;
    BatchDone(less, multiset(data), ops, Passes(less, data, ops), order2, tags2);
  }

  lemma PassesProgress<T(!new)>(less: (T, T) -> bool, data: seq<T>, ops: seq<Op<T>>, order: seq<nat>, tags: seq<nat>)
    returns (order': seq<nat>, tags': seq<nat>)
    requires ProgressOf(less, multiset(data), ops,
                        FirstPass(less, ops, |ops|, Batch(data, |data|, NoOutcomes(|ops|), [])), order, tags, |ops|)
    ensures ProgressOf(less, multiset(data), ops, Passes(less, data, ops), order', tags', |ops|)
  {
    hide ProgressOf, FirstPass, SecondPass;
    order', tags' := SecondPassProgress(less, multiset(data), ops,
      FirstPass(less, ops, |ops|, Batch(data, |data|, NoOutcomes(|ops|), [])), order, tags);
  }

  /** Both passes are over: only pushes are left. */
  lemma BatchDone<T(!new)>(less: (T, T) -> bool, q: multiset<T>, ops: seq<Op<T>>, b: Batch<T>, order: seq<nat>, tags: seq<nat>)
    requires ProgressOf(less, q, ops, b, order, tags, |ops|) && b.pops == []
    ensures IsHeap(less, b.data, b.mark)
    ensures Linearizes(less, q, ops, b.outs, order + tags, multiset(b.data))
  {
    PushTheRest(less, q, ops, b.outs, order, tags, b.data[..b.mark], b.data[b.mark..]);
    assert b.data[..b.mark] + b.data[b.mark..] == b.data;
  }

  // ---------- The queue ----------

  class PriorityQueue<T(!new)> {
    const less: (T, T) -> bool
    var data: seq<T>
    var mark: nat
    var mySize: nat

    ghost predicate Valid()
      reads this
    {
      StrictWeakOrder(less) && mark == |data| == mySize && IsHeap(less, data, mark)
    }

    constructor (less: (T, T) -> bool)
      requires StrictWeakOrder(less)
      ensures Valid() && data == [] && this.less == less
    {
      this.less := less;
      data, mark, mySize := [], 0, 0;
    }

    /** Merge the unsorted elements into the heap, sifting each one up. */
    method Heapify()
      requires StrictWeakOrder(less) && IsHeap(less, data, mark) && mySize == |data|
      modifies this
      ensures Valid() && multiset(data) == old(multiset(data)) && mySize == old(mySize)
    {
      if mark == 0 && |data| > 0 {
        mark := 1;
      }
      while mark < |data|
        invariant mark <= |data| && mySize == |data| == old(|data|)
        invariant |data| > 0 ==> mark > 0
        invariant IsHeap(less, data, mark)
        invariant multiset(data) == old(multiset(data))
      {
        var curPos: nat, toPlace := mark, data[mark];
        ghost var before, m := data, mark;
        while curPos > 0
          invariant curPos <= mark == m < |data| == |before| == mySize
          invariant Risen(less, data, curPos, toPlace) == Risen(less, before, mark, toPlace)
        {
          var parent := (curPos - 1) / 2;
          if !less(data[parent], toPlace) {
            break;
          }
          data := data[curPos := data[parent]];
          curPos := parent;
        }
        data := data[curPos := toPlace];
        RiseIntoHeap(less, before, mark);
        mark := mark + 1;
      }
    }

    /** Take the root out: the last element of the vector sinks from the root into the heap. */
    method Reheap()
      requires mark <= |data| && data != []
      modifies this
      ensures mySize == old(mySize)
      ensures mark == NewMark(old(mark), old(|data|))
      ensures data == old(Sunk(less, data, mark, 0)[..|data| - 1])
    {
      var curPos: nat, child: nat := 0, 1;
      ghost var sunk := Sunk(less, data, mark, 0);
      while child < mark
        invariant mark == old(mark) <= |data| == old(|data|) && mySize == old(mySize)
        invariant curPos < |data| && child == 2 * curPos + 1
        invariant Sunk(less, data, mark, curPos) == sunk
      {
        var target := child;
        if child + 1 < mark && less(data[child], data[child + 1]) {
          target := target + 1;
        }
        assert target == Target(less, data, mark, child);
        if less(data[target], data[|data| - 1]) {
          break;
        }
        data := data[curPos := data[target]];
        curPos := target;
        child := 2 * curPos + 1;
      }
      assert sunk == data[curPos := data[|data| - 1]];
      if curPos != |data| - 1 {
        data := data[curPos := data[|data| - 1]];
      }
      data := data[..|data| - 1];
      if mark > |data| {
        mark := |data|;
      }
    }

    /** The first pass: pushes, and the pops that the last element pushed can serve. */
    method FirstPassOver(ops: seq<Op<T>>) returns (outs: seq<Outcome<T>>, popList: seq<nat>)
      requires mySize == |data| && mark <= |data|
      modifies this`data, this`mySize
      ensures mySize == |data|
      ensures Batch(data, mark, outs, popList)
              == FirstPass(less, ops, |ops|, Batch(old(data), mark, NoOutcomes(|ops|), []))
    {
      ghost var b0 := Batch(data, mark, NoOutcomes(|ops|), []);
      popList := [];
      outs := NoOutcomes(|ops|);
      for k := 0 to |ops|
        invariant mySize == |data| && |outs| == |ops|
        invariant Batch(data, mark, outs, popList) == FirstPass(less, ops, k, b0)
      {
        if ops[k].Pop? {
          if mark < |data| && less(data[0], data[|data| - 1]) {
            outs := outs[k := Popped(data[|data| - 1])];
            mySize := mySize - 1;
            data := data[..|data| - 1];
          } else {
            popList := [k] + popList;
          }
        } else if ops[k].throws {
          outs := outs[k := PushFailed];
        } else {
          data := data + [ops[k].elem];
          mySize := mySize + 1;
          outs := outs[k := Pushed];
        }
      }
    }

    /** The second pass: the pops that were postponed. */
    method SecondPassOver(served: seq<Outcome<T>>, postponed: seq<nat>) returns (outs: seq<Outcome<T>>)
      requires mySize == |data| && Batch(data, mark, served, postponed).WellFormed()
      modifies this
      ensures mySize == |data|
      ensures Batch(data, mark, outs, []) == SecondPass(less, Batch(old(data), old(mark), served, postponed))
    {
      ghost var goal := SecondPass(less, Batch(data, mark, served, postponed));
      ghost var b := Batch(data, mark, served, postponed);
      var popList := postponed;
      outs := served;
      while popList != []
        invariant mySize == |data| && b == Batch(data, mark, outs, popList) && b.WellFormed()
        invariant SecondPass(less, b) == goal
        decreases |popList|
      {
        b := ServePostponed(less, b);
        var p := popList[0];
        popList := popList[1..];
        if data == [] {
          outs := outs[p := PopFailed];
        } else if mark < |data| && less(data[0], data[|data| - 1]) {
          outs := outs[p := Popped(data[|data| - 1])];
          mySize := mySize - 1;
          data := data[..|data| - 1];
        } else {
          outs := outs[p := Popped(data[0])];
          mySize := mySize - 1;
          Reheap();
        }
      }
    }

    /** Handle a list of operations: two passes, then what is left unsorted joins the heap. */
    method HandleOperations(ops: seq<Op<T>>) returns (outs: seq<Outcome<T>>, ghost order: seq<nat>)
      requires Valid()
      modifies this
      ensures Valid()
      ensures Linearizes(less, old(multiset(data)), ops, outs, order, multiset(data))
    {
      order := BatchLinearizes(less, data, ops);
      var served, popList := FirstPassOver(ops);
      outs := SecondPassOver(served, popList);
      if mark < |data| {
        Heapify();
      }
    }
  }
}
