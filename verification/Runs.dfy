/** Transition systems: what it means for a sequence of states to be a run, and the induction
    that carries an invariant from the initial states to every state of every run. */
module Runs {

  ghost predicate IsRun<S(!new)>(init: S -> bool, next: (S, S) -> bool, run: seq<S>) {
    && |run| > 0
    && init(run[0])
    && forall k :: 0 <= k < |run| - 1 ==> next(run[k], run[k + 1])
  }

  ghost predicate Inductive<S(!new)>(init: S -> bool, next: (S, S) -> bool, inv: S -> bool) {
    && (forall s :: init(s) ==> inv(s))
    && (forall s, s' :: inv(s) && next(s, s') ==> inv(s'))
  }

  lemma {:induction false} InvariantOnRun<S(!new)>(
      init: S -> bool, next: (S, S) -> bool, inv: S -> bool, run: seq<S>, k: nat)
    requires Inductive(init, next, inv)
    requires IsRun(init, next, run)
    requires k < |run|
    ensures inv(run[k])
  {
    if k == 0 {
      assert init(run[0]);
    } else {
      InvariantOnRun(init, next, inv, run, k - 1);
      assert next(run[k - 1], run[k - 1 + 1]);
    }
  }
}
