/** The optimistic-count / overcommit protocol by which any number of consumers take elements from
    one producer's sub-queue (concurrentqueue.h: ExplicitProducer::dequeue and dequeue_bulk; the
    implicit producer runs the same steps). One access to a shared counter per step. A single
    dequeue is the bulk one with max == 1. Counters are unbounded here; CircularOrder and the
    lemmas at the end say when the wrapped words of the source decide the same way. */
module DequeueProtocol {
  import Arithmetic
  import opened Sums
  import Runs
  import CircularOrder

  /** What a call's first test saw: the maximum asked for, and the counters it compared. */
  datatype Seen = Seen(max: nat, tail: nat, overcommit: nat, optimistic: nat)

  /** What a call that has come to its answer went by: its first test alone, or also the second one, with the
      units it then had and the tail it read again. */
  datatype Call =
    | Turned(seen: Seen)
    | Tested(seen: Seen, desired: nat, mine: nat, tail: nat)

  /** Where a consumer stands, with the local variables that are still live. */
  datatype Consumer =
    | Idle
    | LoadTail(max: nat)
    | LoadOvercommit(max: nat, tail: nat)
    | LoadOptimistic(max: nat, tail: nat, overcommit: nat)
    | AddOptimistic(desired: nat, seen: Seen)
    | ReloadTail(desired: nat, seen: Seen, mine: nat)
    | GiveBackRest(desired: nat, actual: nat, mine: nat, call: Call)
    | AddHead(actual: nat, call: Call)
    | GiveBackAll(desired: nat, mine: nat, call: Call)

  /** What became of one unit of dequeueOptimisticCount. */
  datatype Fate =
    | Undecided(consumer: nat)
    | Admitted
    | Refused(consumer: nat)
    | Returned

  /** A call that has returned, and the indices it got: first, first + 1, ..., first + count - 1. */
  datatype Claim = Claim(consumer: nat, first: nat, count: nat, call: Call)

  /** The four atomics of the producer and its consumers. The ledger (one fate for each unit ever
      added to `optimistic`) and the claims only record history; no step reads them. */
  datatype State = State(
    tail: nat, head: nat, optimistic: nat, overcommit: nat,
    consumers: seq<Consumer>,
    ledger: seq<Fate>,
    claims: seq<Claim>)

  function SetFate(ledger: seq<Fate>, lo: nat, hi: nat, fate: Fate): (l: seq<Fate>)
    ensures |l| == |ledger|
    ensures forall p :: 0 <= p < |l| ==> l[p] == if lo <= p < hi then fate else ledger[p]
  {
    seq(|ledger|, p requires 0 <= p < |ledger| => if lo <= p < hi then fate else ledger[p])
  }

  // ---------- The steps ----------

  ghost predicate Init(s: State) {
    && s.tail == s.head == s.optimistic == s.overcommit == 0
    && (forall t :: 0 <= t < |s.consumers| ==> s.consumers[t] == Idle)
    && s.ledger == [] && s.claims == []
  }

  /** The producer publishes any number of new elements. */
  ghost predicate Enqueue(s: State, s': State) {
    s'.tail >= s.tail && s' == s.(tail := s'.tail)
  }

  function At(s: State, t: nat, c: Consumer): State
    requires t < |s.consumers|
  {
    s.(consumers := s.consumers[t := c])
  }

  /** The call returns with the next `count` indices. */
  function Return(s: State, t: nat, count: nat, call: Call): State
    requires t < |s.consumers|
  {
    At(s, t, Idle).(claims := s.claims + [Claim(t, s.head, count, call)])
  }

  /** The first, optional test; `tail - (optimistic - overcommit)` is what seems to be there. */
  function TestOptimistic(s: State, t: nat, max: nat, tail: nat, overcommit: nat): State
    requires t < |s.consumers|
  {
    var desired := tail - (s.optimistic - overcommit);
    var seen := Seen(max, tail, overcommit, s.optimistic);
    if desired > 0 then At(s, t, AddOptimistic(Arithmetic.Min(desired, max), seen)) else Return(s, t, 0, Turned(seen))
  }

  function TakeUnits(s: State, t: nat, desired: nat, seen: Seen): State
    requires t < |s.consumers|
  {
    At(s, t, ReloadTail(desired, seen, s.optimistic)).(
      optimistic := s.optimistic + desired,
      ledger := s.ledger + seq(desired, _ => Undecided(t)))
  }

  /** How many units the second test admits, with the tail read again. */
  function Actual(s: State, desired: nat, overcommit: nat, mine: nat): (actual: nat)
    ensures actual <= desired
  {
    var available := s.tail - (mine - overcommit);
    if available > 0 then Arithmetic.Min(desired, available) else 0
  }

  function DecidedLedger(ledger: seq<Fate>, t: nat, desired: nat, actual: nat, mine: nat): (l: seq<Fate>)
    requires actual <= desired
    ensures |l| == |ledger|
    ensures forall p :: 0 <= p < |l| ==>
              l[p] == if mine <= p < mine + actual then Admitted
                      else if mine + actual <= p < mine + desired then Refused(t)
                      else ledger[p]
  {
    SetFate(SetFate(ledger, mine, mine + actual, Admitted), mine + actual, mine + desired, Refused(t))
  }

  function Decide(s: State, t: nat, desired: nat, seen: Seen, mine: nat): State
    requires t < |s.consumers|
  {
    var actual, call := Actual(s, desired, seen.overcommit, mine), Tested(seen, desired, mine, s.tail);
    At(s, t, if s.tail - (mine - seen.overcommit) <= 0 then GiveBackAll(desired, mine, call)
             else if actual < desired then GiveBackRest(desired, actual, mine, call)
             else AddHead(actual, call)).(
      ledger := DecidedLedger(s.ledger, t, desired, actual, mine))
  }

  function GiveBack(s: State, t: nat, lo: nat, hi: nat, c: Consumer): State
    requires t < |s.consumers| && lo <= hi
  {
    At(s, t, c).(
      overcommit := s.overcommit + (hi - lo),
      ledger := SetFate(s.ledger, lo, hi, Returned))
  }

  function GiveBackEverything(s: State, t: nat, lo: nat, hi: nat, call: Call): State
    requires t < |s.consumers| && lo <= hi
  {
    Return(GiveBack(s, t, lo, hi, Idle), t, 0, call)
  }

  function TakeIndices(s: State, t: nat, actual: nat, call: Call): State
    requires t < |s.consumers|
  {
    Return(s, t, actual, call).(head := s.head + actual)
  }

  ghost predicate ConsumerStep(s: State, t: nat, s': State)
    requires t < |s.consumers|
  {
    match s.consumers[t]
    case Idle => exists max: nat :: s' == At(s, t, LoadTail(max))
    case LoadTail(max) => s' == At(s, t, LoadOvercommit(max, s.tail))
    case LoadOvercommit(max, tail) => s' == At(s, t, LoadOptimistic(max, tail, s.overcommit))
    case LoadOptimistic(max, tail, overcommit) => s' == TestOptimistic(s, t, max, tail, overcommit)
    case AddOptimistic(desired, seen) => s' == TakeUnits(s, t, desired, seen)
    case ReloadTail(desired, seen, mine) => s' == Decide(s, t, desired, seen, mine)
    case GiveBackRest(desired, actual, mine, call) =>
      actual <= desired && s' == GiveBack(s, t, mine + actual, mine + desired, AddHead(actual, call))
    case AddHead(actual, call) => s' == TakeIndices(s, t, actual, call)
    case GiveBackAll(desired, mine, call) => s' == GiveBackEverything(s, t, mine, mine + desired, call)
  }

  ghost predicate Next(s: State, s': State) {
    Enqueue(s, s') || exists t: nat :: t < |s.consumers| && ConsumerStep(s, t, s')
  }

  // ---------- What the consumers hold ----------

  /** Units added to `optimistic` that are neither in `head` nor in `overcommit` yet. */
  function InFlight(c: Consumer): nat {
    match c
    case ReloadTail(desired, _, _) => desired
    case GiveBackRest(desired, _, _, _) => desired
    case AddHead(actual, _) => actual
    case GiveBackAll(desired, _, _) => desired
    case _ => 0
  }

  /** Units that passed the second test but are not in `head` yet. */
  function Granted(c: Consumer): nat {
    match c
    case GiveBackRest(_, actual, _, _) => actual
    case AddHead(actual, _) => actual
    case _ => 0
  }

  // ---------- Counting fates ----------

  /** How many of the first n units have the given fate. */
  function Tally(ledger: seq<Fate>, n: nat, fate: Fate): (k: nat)
    requires n <= |ledger|
    ensures k <= n
  {
    if n == 0 then 0
    else Tally(ledger, n - 1, fate) + if ledger[n - 1] == fate then 1 else 0
  }

  lemma {:induction false} TallySame(l: seq<Fate>, l': seq<Fate>, n: nat, fate: Fate)
    requires n <= |l| && n <= |l'|
    requires forall p :: 0 <= p < n ==> (l[p] == fate <==> l'[p] == fate)
    ensures Tally(l, n, fate) == Tally(l', n, fate)
  {
    if n > 0 {
      TallySame(l, l', n - 1, fate);
    }
  }

  lemma {:induction false} TallyGrows(l: seq<Fate>, l': seq<Fate>, n: nat, fate: Fate)
    requires n <= |l| && n <= |l'|
    requires forall p :: 0 <= p < n && l[p] == fate ==> l'[p] == fate
    ensures Tally(l, n, fate) <= Tally(l', n, fate)
  {
    if n > 0 {
      TallyGrows(l, l', n - 1, fate);
    }
  }

  lemma {:induction false} TallyMonotone(l: seq<Fate>, m: nat, n: nat, fate: Fate)
    requires m <= n <= |l|
    ensures Tally(l, m, fate) <= Tally(l, n, fate)
  {
    if m < n {
      TallyMonotone(l, m, n - 1, fate);
    }
  }

  /** Giving a whole range a fate it did not have adds the length of the range. */
  lemma {:induction false} TallySet(l: seq<Fate>, lo: nat, hi: nat, fate: Fate, n: nat)
    requires lo <= hi <= n <= |l|
    requires forall p :: lo <= p < hi ==> l[p] != fate
    ensures Tally(SetFate(l, lo, hi, fate), n, fate) == Tally(l, n, fate) + (hi - lo)
  {
    var l' := SetFate(l, lo, hi, fate);
    if n > hi {
      TallySet(l, lo, hi, fate, n - 1);
    } else if lo < hi {
      TallySet(l, lo, hi - 1, fate, n - 1);
      TallySame(l', SetFate(l, lo, hi - 1, fate), n - 1, fate);
    } else {
      TallySame(l', l, n, fate);
    }
  }

  /** Admitted and returned units are different units. */
  lemma {:induction false} TallyDisjoint(l: seq<Fate>, n: nat)
    requires n <= |l|
    ensures Tally(l, n, Admitted) + Tally(l, n, Returned) <= n
  {
    if n > 0 {
      TallyDisjoint(l, n - 1);
    }
  }

  // ---------- The invariant ----------

  ghost predicate AllFate(ledger: seq<Fate>, lo: nat, hi: nat, fate: Fate) {
    lo <= hi <= |ledger| && forall p :: lo <= p < hi ==> ledger[p] == fate
  }

  /** The unit at position p stands for an element below the tail, as far as those returned are known. */
  predicate Below(p: nat, overcommit: nat, tail: nat) { p + 1 - overcommit <= tail }

  /** The units a call goes for are those, up to its maximum, that its first test finds below the tail. */
  ghost predicate WantsItsUnits(seen: Seen, desired: nat) {
    forall p: nat {:trigger Below(p, seen.overcommit, seen.tail)} :: seen.optimistic <= p ==>
      (p < seen.optimistic + desired <==> p < seen.optimistic + seen.max && Below(p, seen.overcommit, seen.tail))
  }

  /** The answer is right: of the units a call had, it keeps exactly those that lie below the tail it read again;
      one that the first test turned away would have found no unit there. */
  ghost predicate Fair(call: Call, count: nat) {
    match call
    case Turned(seen) => count == 0 && !Below(seen.optimistic, seen.overcommit, seen.tail)
    case Tested(seen, desired, mine, tail) =>
      && WantsItsUnits(seen, desired) && count <= desired
      && forall p: nat {:trigger Below(p, seen.overcommit, tail)} :: mine <= p < mine + desired ==>
           (p < mine + count <==> Below(p, seen.overcommit, tail))
  }

  /** What a consumer's local variables know about the shared state. */
  ghost predicate ConsumerOk(s: State, t: nat, c: Consumer) {
    match c
    case LoadOptimistic(_, _, overcommit) => overcommit <= s.overcommit
    case AddOptimistic(desired, seen) => seen.overcommit <= s.overcommit && WantsItsUnits(seen, desired)
    case ReloadTail(desired, seen, mine) =>
      && AllFate(s.ledger, mine, mine + desired, Undecided(t))
      && seen.overcommit <= Tally(s.ledger, mine, Returned) && WantsItsUnits(seen, desired)
    case GiveBackRest(desired, actual, mine, call) =>
      actual < desired && AllFate(s.ledger, mine + actual, mine + desired, Refused(t)) && Fair(call, actual)
    case AddHead(actual, call) => Fair(call, actual)
    case GiveBackAll(desired, mine, call) => AllFate(s.ledger, mine, mine + desired, Refused(t)) && Fair(call, 0)
    case _ => true
  }

  /** An admitted unit at position p was admitted against a tail of at least p + 1 less the units
      below p that had been returned. */
  ghost predicate Covered(s: State, p: nat)
    requires p < |s.ledger|
  {
    s.ledger[p] == Admitted ==> p + 1 - Tally(s.ledger, p, Returned) <= s.tail
  }

  /** The first index after the first n claims. */
  function End(claims: seq<Claim>, n: nat): nat
    requires n <= |claims|
  {
    if n == 0 then 0 else claims[n - 1].first + claims[n - 1].count
  }

  /** Claims follow one another without gap or overlap, from index 0 up to head, and are fair. */
  ghost predicate ClaimsTile(s: State) {
    && (forall k {:trigger End(s.claims, k)} :: 0 <= k < |s.claims| ==>
          s.claims[k].first == End(s.claims, k))
    && (forall k :: 0 <= k < |s.claims| ==> Fair(s.claims[k].call, s.claims[k].count))
    && s.head == End(s.claims, |s.claims|)
  }

  ghost predicate Inv(s: State) {
    && s.optimistic == |s.ledger|
    && s.overcommit == Tally(s.ledger, |s.ledger|, Returned)
    && s.head + Sum(s.consumers, Granted) == Tally(s.ledger, |s.ledger|, Admitted)
    && s.optimistic == s.head + s.overcommit + Sum(s.consumers, InFlight)
    && (forall t :: 0 <= t < |s.consumers| ==> ConsumerOk(s, t, s.consumers[t]))
    && (forall p :: 0 <= p < |s.ledger| ==> Covered(s, p))
    && ClaimsTile(s)
  }

  /** The highest admitted position bounds the number of admitted units, hence the tail does. */
  lemma {:induction false} AdmittedWithinTail(s: State, n: nat)
    requires n <= |s.ledger|
    requires forall p :: 0 <= p < |s.ledger| ==> Covered(s, p)
    ensures Tally(s.ledger, n, Admitted) <= s.tail
  {
    if n > 0 {
      if s.ledger[n - 1] == Admitted {
        TallyDisjoint(s.ledger, n - 1);
        assert Covered(s, n - 1);
      } else {
        AdmittedWithinTail(s, n - 1);
      }
    }
  }

  lemma InitInv(s: State)
    requires Init(s)
    ensures Inv(s)
  {
    SumZero(s.consumers, Granted);
    SumZero(s.consumers, InFlight);
  }

  lemma EnqueueInv(s: State, s': State)
    requires Inv(s) && Enqueue(s, s')
    ensures Inv(s')
  {
    forall p | 0 <= p < |s'.ledger| ensures Covered(s', p) {
      assert Covered(s, p);
    }
    forall t | 0 <= t < |s'.consumers| ensures ConsumerOk(s', t, s'.consumers[t]) {
      assert ConsumerOk(s, t, s.consumers[t]);
    }
  }

  /** A consumer moves without touching the shared counters. */
  lemma LocalStepInv(s: State, t: nat, c: Consumer)
    requires Inv(s) && t < |s.consumers|
    requires InFlight(c) == InFlight(s.consumers[t]) && Granted(c) == Granted(s.consumers[t])
    requires ConsumerOk(s, t, c)
    ensures Inv(At(s, t, c))
  {
    var s' := At(s, t, c);
    SumUpdate(s.consumers, t, c, Granted);
    SumUpdate(s.consumers, t, c, InFlight);
    forall p | 0 <= p < |s'.ledger| ensures Covered(s', p) {
      assert Covered(s, p);
    }
    forall u | 0 <= u < |s'.consumers| ensures ConsumerOk(s', u, s'.consumers[u]) {
      assert ConsumerOk(s, u, s.consumers[u]);
    }
  }

  lemma TakeUnitsInv(s: State, t: nat, desired: nat, seen: Seen)
    requires Inv(s) && t < |s.consumers| && s.consumers[t] == AddOptimistic(desired, seen)
    ensures Inv(TakeUnits(s, t, desired, seen))
  {
    hide WantsItsUnits, Fair;
    var s' := TakeUnits(s, t, desired, seen);
    var c := ReloadTail(desired, seen, s.optimistic);
    SumUpdate(s.consumers, t, c, Granted);
    SumUpdate(s.consumers, t, c, InFlight);
    assert ConsumerOk(s, t, s.consumers[t]);
    TallyAppend(s.ledger, s'.ledger, t, |s'.ledger|, Returned);
    TallyAppend(s.ledger, s'.ledger, t, |s'.ledger|, Admitted);
    forall p | 0 <= p < |s'.ledger| ensures Covered(s', p) {
      if p < |s.ledger| {
        assert Covered(s, p);
        TallySame(s.ledger, s'.ledger, p, Returned);
      }
    }
    forall u | 0 <= u < |s'.consumers| ensures ConsumerOk(s', u, s'.consumers[u]) {
      TakeUnitsConsumers(s, t, desired, seen, u);
    }
  }

  lemma TakeUnitsConsumers(s: State, t: nat, desired: nat, seen: Seen, u: nat)
    requires Inv(s) && t < |s.consumers| && s.consumers[t] == AddOptimistic(desired, seen) && u < |s.consumers|
    ensures var s' := TakeUnits(s, t, desired, seen); ConsumerOk(s', u, s'.consumers[u])
  {
    hide WantsItsUnits, Fair;
    var s' := TakeUnits(s, t, desired, seen);
    assert ConsumerOk(s, u, s.consumers[u]);
    assert s'.ledger[..|s.ledger|] == s.ledger;
    if u == t {
      TallySame(s.ledger, s'.ledger, |s.ledger|, Returned);
    } else if s.consumers[u].ReloadTail? {
      TallySame(s.ledger, s'.ledger, s.consumers[u].mine, Returned);
    }
  }

  lemma {:induction false} TallyAppend(l: seq<Fate>, l': seq<Fate>, t: nat, n: nat, fate: Fate)
    requires |l| <= n <= |l'| && l'[..|l|] == l
    requires forall p :: |l| <= p < |l'| ==> l'[p] == Undecided(t)
    requires fate == Admitted || fate == Returned
    ensures Tally(l', n, fate) == Tally(l, |l|, fate)
  {
    if n == |l| {
      TallySame(l, l', n, fate);
    } else {
      TallyAppend(l, l', t, n - 1, fate);
    }
  }

  /** The units of a consumer's own range change fate: the other consumers' ranges do not. */
  lemma OthersUntouched(s: State, s': State, t: nat, u: nat)
    requires Inv(s) && t < |s.consumers| && u < |s.consumers| && u != t
    requires |s'.ledger| == |s.ledger| && s'.overcommit >= s.overcommit
    requires forall p :: 0 <= p < |s.ledger| ==>
               s'.ledger[p] == s.ledger[p] || s.ledger[p] == Undecided(t) || s.ledger[p] == Refused(t)
    ensures ConsumerOk(s', u, s.consumers[u])
  {
    var c := s.consumers[u];
    assert ConsumerOk(s, u, c);
    if c.ReloadTail? {
      TallyGrows(s.ledger, s'.ledger, c.mine, Returned);
    }
  }

  lemma DecidedTallies(ledger: seq<Fate>, t: nat, desired: nat, actual: nat, mine: nat)
    requires actual <= desired && AllFate(ledger, mine, mine + desired, Undecided(t))
    ensures var l := DecidedLedger(ledger, t, desired, actual, mine);
            && Tally(l, |l|, Admitted) == Tally(ledger, |l|, Admitted) + actual
            && (forall p :: 0 <= p <= |l| ==> Tally(l, p, Returned) == Tally(ledger, p, Returned))
  {
    var l := DecidedLedger(ledger, t, desired, actual, mine);
    var middle := SetFate(ledger, mine, mine + actual, Admitted);
    TallySet(ledger, mine, mine + actual, Admitted, |l|);
    TallySame(middle, l, |l|, Admitted);
    forall p | 0 <= p <= |l| ensures Tally(l, p, Returned) == Tally(ledger, p, Returned) {
      TallySame(ledger, l, p, Returned);
    }
  }

  lemma DecideCovered(s: State, t: nat, desired: nat, seen: Seen, mine: nat, p: nat)
    requires Inv(s) && t < |s.consumers| && s.consumers[t] == ReloadTail(desired, seen, mine)
    requires p < |s.ledger|
    ensures Covered(Decide(s, t, desired, seen, mine), p)
  {
    assert ConsumerOk(s, t, s.consumers[t]);
    assert Covered(s, p);
    var actual := Actual(s, desired, seen.overcommit, mine);
    DecidedTallies(s.ledger, t, desired, actual, mine);
    if mine <= p < mine + actual {
      TallyMonotone(s.ledger, mine, p, Returned);
    }
  }

  lemma DecideConsumers(s: State, t: nat, desired: nat, seen: Seen, mine: nat, u: nat)
    requires Inv(s) && t < |s.consumers| && s.consumers[t] == ReloadTail(desired, seen, mine)
    requires u < |s.consumers|
    ensures var s' := Decide(s, t, desired, seen, mine); ConsumerOk(s', u, s'.consumers[u])
  {
    var s' := Decide(s, t, desired, seen, mine);
    assert ConsumerOk(s, t, s.consumers[t]);
    if u != t {
      OthersUntouched(s, s', t, u);
    }
  }

  lemma DecideInv(s: State, t: nat, desired: nat, seen: Seen, mine: nat)
    requires Inv(s) && t < |s.consumers| && s.consumers[t] == ReloadTail(desired, seen, mine)
    ensures Inv(Decide(s, t, desired, seen, mine))
  {
    var s' := Decide(s, t, desired, seen, mine);
    assert ConsumerOk(s, t, s.consumers[t]);
    DecidedTallies(s.ledger, t, desired, Actual(s, desired, seen.overcommit, mine), mine);
    SumUpdate(s.consumers, t, s'.consumers[t], Granted);
    SumUpdate(s.consumers, t, s'.consumers[t], InFlight);
    forall p | 0 <= p < |s.ledger| ensures Covered(s', p) {
      DecideCovered(s, t, desired, seen, mine, p);
    }
    forall u | 0 <= u < |s'.consumers| ensures ConsumerOk(s', u, s'.consumers[u]) {
      DecideConsumers(s, t, desired, seen, mine, u);
    }
  }

  lemma GiveBackInv(s: State, t: nat, lo: nat, hi: nat, c: Consumer)
    requires Inv(s) && t < |s.consumers|
    requires AllFate(s.ledger, lo, hi, Refused(t))
    requires InFlight(c) + (hi - lo) == InFlight(s.consumers[t]) && Granted(c) == Granted(s.consumers[t])
    requires c == Idle || (c.AddHead? && Fair(c.call, c.actual))
    ensures Inv(GiveBack(s, t, lo, hi, c))
  {
    var s' := GiveBack(s, t, lo, hi, c);
    var n := |s.ledger|;
    SumUpdate(s.consumers, t, c, Granted);
    SumUpdate(s.consumers, t, c, InFlight);
    TallySet(s.ledger, lo, hi, Returned, n);
    TallySame(s.ledger, s'.ledger, n, Admitted);
    forall p | 0 <= p < n ensures Covered(s', p) {
      assert Covered(s, p);
      TallyGrows(s.ledger, s'.ledger, p, Returned);
    }
    forall u | 0 <= u < |s'.consumers| ensures ConsumerOk(s', u, s'.consumers[u]) {
      if u != t {
        OthersUntouched(s, s', t, u);
      }
    }
  }

  /** A call that returns: what it got comes behind the claims before it. */
  lemma ReturnClaims(s: State, s': State, t: nat, count: nat, call: Call)
    requires ClaimsTile(s) && t < |s.consumers| && Fair(call, count)
    requires s'.claims == s.claims + [Claim(t, s.head, count, call)] && s'.head == s.head + count
    ensures ClaimsTile(s')
  {
    hide Fair;
    forall k {:trigger End(s'.claims, k)} | 0 <= k < |s'.claims|
      ensures s'.claims[k].first == End(s'.claims, k)
    {
      assert End(s'.claims, k) == End(s.claims, k);
    }
  }

  lemma TakeIndicesInv(s: State, t: nat, actual: nat, call: Call)
    requires Inv(s) && t < |s.consumers| && s.consumers[t] == AddHead(actual, call)
    ensures Inv(TakeIndices(s, t, actual, call))
  {
    var s' := TakeIndices(s, t, actual, call);
    assert ConsumerOk(s, t, s.consumers[t]);
    hide Fair, WantsItsUnits;
    SumUpdate(s.consumers, t, Idle, Granted);
    SumUpdate(s.consumers, t, Idle, InFlight);
    forall p | 0 <= p < |s'.ledger| ensures Covered(s', p) {
      assert Covered(s, p);
    }
    forall u | 0 <= u < |s'.consumers| ensures ConsumerOk(s', u, s'.consumers[u]) {
      assert ConsumerOk(s, u, s.consumers[u]);
    }
    ReturnClaims(s, s', t, actual, call);
  }

  /** A call returns with nothing. */
  lemma EmptyReturnInv(s: State, t: nat, call: Call)
    requires Inv(s) && t < |s.consumers| && s.consumers[t] == Idle && Fair(call, 0)
    ensures Inv(Return(s, t, 0, call))
  {
    hide Fair, WantsItsUnits;
    var s' := Return(s, t, 0, call);
    assert s'.consumers == s.consumers;
    forall p | 0 <= p < |s'.ledger| ensures Covered(s', p) {
      assert Covered(s, p);
    }
    forall u | 0 <= u < |s'.consumers| ensures ConsumerOk(s', u, s'.consumers[u]) {
      assert ConsumerOk(s, u, s.consumers[u]);
    }
    ReturnClaims(s, s', t, 0, call);
  }

  /** The loads and the first test. */
  lemma LoadStepInv(s: State, t: nat, s': State)
    requires Inv(s) && t < |s.consumers| && ConsumerStep(s, t, s')
    requires s.consumers[t].Idle? || s.consumers[t].LoadTail? || s.consumers[t].LoadOvercommit?
             || s.consumers[t].LoadOptimistic?
    ensures Inv(s')
  {
    assert ConsumerOk(s, t, s.consumers[t]);
    if s.consumers[t].Idle? {
      var max: nat :| s' == At(s, t, LoadTail(max));
      LocalStepInv(s, t, LoadTail(max));
    } else if s.consumers[t].LoadOptimistic? && s'.consumers[t] == Idle {
      LocalStepInv(s, t, Idle);
      var call := s'.claims[|s.claims|].call;
      assert s' == Return(At(s, t, Idle), t, 0, call);
      EmptyReturnInv(At(s, t, Idle), t, call);
    } else {
      LocalStepInv(s, t, s'.consumers[t]);
    }
  }

  lemma GiveBackRestInv(s: State, t: nat, desired: nat, actual: nat, mine: nat, call: Call)
    requires Inv(s) && t < |s.consumers| && s.consumers[t] == GiveBackRest(desired, actual, mine, call)
    ensures actual < desired && Inv(GiveBack(s, t, mine + actual, mine + desired, AddHead(actual, call)))
  {
    assert ConsumerOk(s, t, s.consumers[t]);
    hide Fair;
    GiveBackInv(s, t, mine + actual, mine + desired, AddHead(actual, call));
  }

  lemma GiveBackAllInv(s: State, t: nat, desired: nat, mine: nat, call: Call)
    requires Inv(s) && t < |s.consumers| && s.consumers[t] == GiveBackAll(desired, mine, call)
    ensures Inv(GiveBackEverything(s, t, mine, mine + desired, call))
  {
    assert ConsumerOk(s, t, s.consumers[t]);
    hide Fair;
    GiveBackInv(s, t, mine, mine + desired, Idle);
    EmptyReturnInv(GiveBack(s, t, mine, mine + desired, Idle), t, call);
    assert GiveBackEverything(s, t, mine, mine + desired, call)
           == Return(GiveBack(s, t, mine, mine + desired, Idle), t, 0, call);
  }

  lemma ConsumerStepInv(s: State, t: nat, s': State)
    requires Inv(s) && t < |s.consumers| && ConsumerStep(s, t, s')
    ensures Inv(s')
  {
    hide Inv, Decide, GiveBack, GiveBackEverything, TakeIndices;
    var c := s.consumers[t];
    if c.AddOptimistic? {
      TakeUnitsInv(s, t, c.desired, c.seen);
    } else if c.ReloadTail? {
      DecideInv(s, t, c.desired, c.seen, c.mine);
    } else if c.AddHead? {
      TakeIndicesInv(s, t, c.actual, c.call);
    } else if c.GiveBackRest? {
      GiveBackRestInv(s, t, c.desired, c.actual, c.mine, c.call);
    } else if c.GiveBackAll? {
      GiveBackAllInv(s, t, c.desired, c.mine, c.call);
    } else {
      LoadStepInv(s, t, s');
    }
  }

  lemma NextInv(s: State, s': State)
    requires Inv(s) && Next(s, s')
    ensures Inv(s')
  {
    if Enqueue(s, s') {
      EnqueueInv(s, s');
    } else {
      var t: nat :| t < |s.consumers| && ConsumerStep(s, t, s');
      ConsumerStepInv(s, t, s');
    }
  }

  // ---------- Main results ----------

  lemma InvInductive()
    ensures Runs.Inductive(Init, Next, Inv)
  {
    forall s | Init(s) ensures Inv(s) { InitInv(s); }
    forall s, s' | Inv(s) && Next(s, s') ensures Inv(s') { NextInv(s, s'); }
  }

  /** In every state of every run the admitted units fit below the tail, and the four counters
      balance. */
  lemma NeverPastTheTail(run: seq<State>, k: nat)
    requires Runs.IsRun(Init, Next, run) && k < |run|
    ensures run[k].head + Sum(run[k].consumers, Granted) <= run[k].tail
    ensures run[k].optimistic == run[k].head + run[k].overcommit + Sum(run[k].consumers, InFlight)
  {
    InvInductive();
    Runs.InvariantOnRun(Init, Next, Inv, run, k);
    AdmittedWithinTail(run[k], |run[k].ledger|);
  }

  /** Every call that has returned, in every run, has a fair answer: up to its maximum it went for exactly the units its
      first test found below the tail, and got exactly those of them that lay below the tail it read again. */
  lemma AnswersAreFair(run: seq<State>, k: nat, c: nat)
    requires Runs.IsRun(Init, Next, run) && k < |run| && c < |run[k].claims|
    ensures Fair(run[k].claims[c].call, run[k].claims[c].count)
  {
    InvInductive();
    Runs.InvariantOnRun(Init, Next, Inv, run, k);
    hide Inv, Init, Next, Below;
    FairClaim(run[k], c);
  }

  lemma FairClaim(s: State, c: nat)
    requires Inv(s) && c < |s.claims|
    ensures Fair(s.claims[c].call, s.claims[c].count)
  {
    hide Fair;
  }

  /** The second test, in every run: of the units a consumer had taken, exactly those are admitted that lie below
      the tail when it reads it again, less what it knew to have been returned. */
  lemma AdmitsWhatIsThere(run: seq<State>, k: nat, t: nat, s': State)
    requires Runs.IsRun(Init, Next, run) && k < |run| && t < |run[k].consumers| && run[k].consumers[t].ReloadTail?
    requires ConsumerStep(run[k], t, s')
    ensures var s, c := run[k], run[k].consumers[t];
      && |s'.ledger| == |s.ledger| >= c.mine + c.desired
      && forall p: nat :: c.mine <= p < c.mine + c.desired ==>
           (s'.ledger[p] == Admitted <==> Below(p, c.seen.overcommit, s.tail))
  {
    InvInductive();
    Runs.InvariantOnRun(Init, Next, Inv, run, k);
    assert ConsumerOk(run[k], t, run[k].consumers[t]);
  }

  /** A call that the first test turns away finds every published element promised: the tail it had read is at most head
      plus the units in flight plus those returned since it read the overcommit. */
  lemma TurnedAwayMeansPromised(run: seq<State>, k: nat, t: nat, s': State)
    requires Runs.IsRun(Init, Next, run) && k < |run| && t < |run[k].consumers| && run[k].consumers[t].LoadOptimistic?
    requires ConsumerStep(run[k], t, s') && s'.consumers[t] == Idle
    ensures var s, c := run[k], run[k].consumers[t];
      c.tail <= s.head + Sum(s.consumers, InFlight) + (s.overcommit - c.overcommit) && c.overcommit <= s.overcommit
  {
    InvInductive();
    Runs.InvariantOnRun(Init, Next, Inv, run, k);
    assert ConsumerOk(run[k], t, run[k].consumers[t]);
  }

  /** No index is handed out twice, none is skipped, and every one had been enqueued. */
  lemma IndicesHandedOutOnce(run: seq<State>, k: nat)
    requires Runs.IsRun(Init, Next, run) && k < |run|
    ensures forall index: nat :: HandedOut(run[k], index) <==> index < run[k].head
    ensures forall c, d, index: nat :: 0 <= c < d < |run[k].claims| && Holds(run[k].claims[c], index) ==>
              !Holds(run[k].claims[d], index)
    ensures run[k].head <= run[k].tail
  {
    InvInductive();
    Runs.InvariantOnRun(Init, Next, Inv, run, k);
    NeverPastTheTail(run, k);
    var s := run[k];
    forall index: nat ensures HandedOut(s, index) <==> index < s.head {
      if index < s.head {
        var c := ClaimFor(s, index, |s.claims|);
      } else {
        forall c | 0 <= c < |s.claims| ensures !Holds(s.claims[c], index) {
          EndsOrdered(s, c + 1, |s.claims|);
        }
      }
    }
    forall c, d, index: nat | 0 <= c < d < |s.claims| && Holds(s.claims[c], index)
      ensures !Holds(s.claims[d], index)
    {
      EndsOrdered(s, c + 1, d);
    }
  }

  ghost predicate HandedOut(s: State, index: nat) {
    exists c :: 0 <= c < |s.claims| && Holds(s.claims[c], index)
  }

  predicate Holds(claim: Claim, index: nat) {
    claim.first <= index < claim.first + claim.count
  }

  lemma {:induction false} EndsOrdered(s: State, m: nat, n: nat)
    requires ClaimsTile(s) && m <= n <= |s.claims|
    ensures End(s.claims, m) <= End(s.claims, n)
  {
    if m < n {
      EndsOrdered(s, m, n - 1);
      assert s.claims[n - 1].first == End(s.claims, n - 1);
    }
  }

  lemma {:induction false} ClaimFor(s: State, index: nat, n: nat) returns (c: nat)
    requires ClaimsTile(s) && n <= |s.claims| && index < End(s.claims, n)
    ensures c < |s.claims| && Holds(s.claims[c], index)
  {
    var _ := End(s.claims, n - 1);
    if s.claims[n - 1].first <= index {
      c := n - 1;
    } else {
      c := ClaimFor(s, index, n - 1);
    }
  }

  /** The units the tests refuse are not lost: once no consumer is under way, a consumer that runs
      alone takes exactly min(max, tail - head) elements, the next ones in order. */
  lemma AloneTakesWhatIsThere(run: seq<State>, k: nat, t: nat, max: nat) returns (last: State)
    requires Runs.IsRun(Init, Next, run) && k < |run|
    requires forall u :: 0 <= u < |run[k].consumers| ==> run[k].consumers[u] == Idle
    requires t < |run[k].consumers| && max > 0 && run[k].head < run[k].tail
    ensures Alone(run[k], t, max, last)
    ensures last.head == run[k].head + Arithmetic.Min(max, run[k].tail - run[k].head)
    ensures OneMore(run[k].claims, last.claims, t, run[k].head, last.head)
  {
    NeverPastTheTail(run, k);
    SumZero(run[k].consumers, InFlight);
    last := RunAlone(run[k], t, max);
  }

  /** One more call has returned: consumer t got the indices from `first` to before `end`. */
  ghost predicate OneMore(claims: seq<Claim>, claims': seq<Claim>, t: nat, first: nat, end: nat) {
    && |claims'| == |claims| + 1 && claims'[..|claims|] == claims
    && var claim := claims'[|claims|]; claim.consumer == t && claim.first == first && first + claim.count == end
  }

  lemma RunAlone(s: State, t: nat, max: nat) returns (last: State)
    requires s.optimistic == s.head + s.overcommit && s.head < s.tail && max > 0
    requires t < |s.consumers| && s.consumers[t] == Idle
    ensures Alone(s, t, max, last)
    ensures last.head == s.head + Arithmetic.Min(max, s.tail - s.head)
    ensures OneMore(s.claims, last.claims, t, s.head, last.head)
  {
    hide Quiet;
    var s1 := At(s, t, LoadTail(max));
    var s2 := At(s1, t, LoadOvercommit(max, s1.tail));
    var s3 := At(s2, t, LoadOptimistic(max, s.tail, s2.overcommit));
    var s4 := TestOptimistic(s3, t, max, s.tail, s.overcommit);
    var want := Arithmetic.Min(s.tail - s.head, max);
    var seen := Seen(max, s.tail, s.overcommit, s.optimistic);
    var s5 := TakeUnits(s4, t, want, seen);
    var s6 := Decide(s5, t, want, seen, s.optimistic);
    last := TakeIndices(s6, t, want, Tested(seen, want, s.optimistic, s.tail));
    QuietAtTheEnd(last, t);
    QuietBefore(s6, t, last, last, 0);
    QuietBefore(s5, t, s6, last, 1);
    QuietBefore(s4, t, s5, last, 2);
    QuietBefore(s3, t, s4, last, 3);
    QuietBefore(s2, t, s3, last, 4);
    QuietBefore(s1, t, s2, last, 5);
  }

  lemma QuietAtTheEnd(s: State, t: nat)
    requires t < |s.consumers| && s.consumers[t] == Idle
    ensures Quiet(s, t, s, 0)
  {
  }

  lemma QuietBefore(s: State, t: nat, s': State, last: State, steps: nat)
    requires t < |s.consumers| && s.consumers[t] != Idle
    requires ConsumerStep(s, t, s') && Quiet(s', t, last, steps)
    ensures Quiet(s, t, last, steps + 1)
  {
  }

  /** One whole call by consumer t while nobody else moves. */
  ghost predicate Alone(s: State, t: nat, max: nat, last: State)
  {
    && t < |s.consumers|
    && s.consumers[t] == Idle
    && Quiet(At(s, t, LoadTail(max)), t, last, 6)
  }

  ghost predicate Quiet(s: State, t: nat, last: State, steps: nat)
    decreases steps
  {
    && t < |s.consumers|
    && if steps == 0 then s == last && s.consumers[t] == Idle
       else s.consumers[t] != Idle && exists s' :: ConsumerStep(s, t, s') && Quiet(s', t, last, steps - 1)
  }

  // ---------- The tests on wrapped words ----------

  /** dequeue's test compares words; within the window it is the test of `Decide` on counters. */
  lemma SingleTestOnWords(tail: nat, overcommit: nat, mine: nat, half: nat)
    requires half > 0
    requires 0 - half < tail - (mine - overcommit) < half
    ensures CircularOrder.CircularLess(
              CircularOrder.Word(CircularOrder.Word(mine, half) - CircularOrder.Word(overcommit, half), half),
              CircularOrder.Word(tail, half), half)
            <==> tail - (mine - overcommit) > 0
  {
    CircularOrder.WordOfDifference(mine, overcommit, half);
    CircularOrder.CircularLessAgrees(mine - overcommit, tail, half);
  }

  /** dequeue_bulk computes the available count as a word and compares it with zero; within the
      window that count is exact whenever it passes the test. */
  lemma BulkTestOnWords(tail: nat, overcommit: nat, mine: nat, half: nat)
    requires half > 0
    requires 0 - half < tail - (mine - overcommit) < half
    ensures var before := CircularOrder.Word(CircularOrder.Word(mine, half) - CircularOrder.Word(overcommit, half), half);
            var count := CircularOrder.Word(CircularOrder.Word(tail, half) - before, half);
            && (CircularOrder.CircularLess(0, count, half) <==> tail - (mine - overcommit) > 0)
            && (CircularOrder.CircularLess(0, count, half) ==> count == tail - (mine - overcommit))
  {
    var difference := tail - (mine - overcommit);
    CircularOrder.WordOfDifference(mine, overcommit, half);
    CircularOrder.WordOfDifference(tail, mine - overcommit, half);
    CircularOrder.CircularLessAgrees(0, difference, half);
    CircularOrder.WordInRange(0, half);
    if difference > 0 {
      CircularOrder.WordInRange(difference, half);
    }
  }
}
