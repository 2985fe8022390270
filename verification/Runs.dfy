/** Runs of a transition system, and what holds along all of them. */
module Runs {
  ghost predicate StepAt<S>(next: (S, S) -> bool, run: seq<S>, n: nat) {
    n + 1 < |run| && next(run[n], run[n + 1])
  }

  /** A run: an initial state, then any number of steps. */
  ghost predicate IsRun<S>(init: S -> bool, next: (S, S) -> bool, run: seq<S>) {
    run != [] && init(run[0]) && forall n: nat | n < |run| - 1 :: StepAt(next, run, n)
  }

  ghost predicate Reachable<S(!new)>(init: S -> bool, next: (S, S) -> bool, s: S) {
    exists run :: IsRun(init, next, run) && run[|run| - 1] == s
  }

  /** What holds initially and is kept by every step holds all along a run. */
  lemma {:induction false} HoldsAt<S(!new)>(init: S -> bool, next: (S, S) -> bool, inv: S -> bool, run: seq<S>, n: nat)
    requires IsRun(init, next, run) && n < |run|
    requires forall s | init(s) :: inv(s)
    requires forall s, s' | inv(s) && next(s, s') :: inv(s')
    ensures inv(run[n])
  {
    if n > 0 {
      HoldsAt(init, next, inv, run, n - 1);
      assert StepAt(next, run, n - 1);
    }
  }

  lemma {:induction false} HoldsWhenReached<S(!new)>(init: S -> bool, next: (S, S) -> bool, inv: S -> bool, s: S)
    requires Reachable(init, next, s)
    requires forall s | init(s) :: inv(s)
    requires forall s, s' | inv(s) && next(s, s') :: inv(s')
    ensures inv(s)
  {
    var run :| IsRun(init, next, run) && run[|run| - 1] == s;
    HoldsAt(init, next, inv, run, |run| - 1);
  }

  lemma {:induction false} InitialIsReached<S(!new)>(init: S -> bool, next: (S, S) -> bool, s: S)
    requires init(s)
    ensures Reachable(init, next, s)
  {
    assert IsRun(init, next, [s]);
  }

  lemma {:induction false} NextIsReached<S(!new)>(init: S -> bool, next: (S, S) -> bool, s: S, s': S)
    requires Reachable(init, next, s) && next(s, s')
    ensures Reachable(init, next, s')
  {
    var run :| IsRun(init, next, run) && run[|run| - 1] == s;
    var more := run + [s'];
    forall n: nat | n < |more| - 1 ensures StepAt(next, more, n) {
      assert n < |run| - 1 ==> StepAt(next, run, n);
    }
    assert IsRun(init, next, more);
  }

  lemma {:induction false} PrefixIsReached<S(!new)>(init: S -> bool, next: (S, S) -> bool, run: seq<S>, n: nat)
    requires IsRun(init, next, run) && n < |run|
    ensures Reachable(init, next, run[n])
  {
    var part := run[..n + 1];
    forall k: nat | k < |part| - 1 ensures StepAt(next, part, k) {
      assert StepAt(next, run, k);
    }
    assert IsRun(init, next, part);
  }

  lemma {:induction false} StepIsTaken<S(!new)>(init: S -> bool, next: (S, S) -> bool, run: seq<S>, n: nat)
    requires IsRun(init, next, run) && n + 1 < |run|
    ensures Reachable(init, next, run[n]) && next(run[n], run[n + 1])
  {
    PrefixIsReached(init, next, run, n);
    assert StepAt(next, run, n);
  }

  /** The state after `n` steps of a task that leaves nothing open. */
  function Iterate<S>(step: S -> S, s: S, n: nat): S
    decreases n
  {
    if n == 0 then s else Iterate(step, step(s), n - 1)
  }

  lemma {:induction false} IterateOn<S>(step: S -> S, s: S, s1: S, s2: S, m: nat, n: nat)
    requires Iterate(step, s, m) == s1 && Iterate(step, s1, n) == s2
    ensures Iterate(step, s, m + n) == s2
    decreases m
  {
    if m > 0 {
      IterateOn(step, step(s), s1, s2, m - 1, n);
    }
  }
}
