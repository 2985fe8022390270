/** What the firmware's tasks get done when nothing stands in their way. */
module FwProgress {
  import opened FwInvariant
  import opened FwTasks
  import opened Options
  import opened Runs
  import Tokens

  // ---- The dispatch task ------------------------------------------------------------------------

  /** A step of the dispatch task that only reads. */
  function DispatchReads(s: State): State {
    s.(dispatch := Goto(s))
  }

  /** No kernel, cache operation or memory copy is active. */
  predicate AllIdle(s: State) {
    KernelsIdle(s) && !s.cache.pending && !s.copy.active
  }

  lemma {:induction false} OneRead(s: State, s': State)
    requires s' == DispatchReads(s)
    ensures Iterate(DispatchReads, s, 1) == s'
  {
    assert Iterate(DispatchReads, s', 0) == s';
  }

  lemma {:induction false} PollsKernels(s: State, i: nat)
    requires s.dispatch == DPollKernel(i) && i <= |s.kernels| && KernelsIdle(s)
    ensures Iterate(DispatchReads, s, |s.kernels| - i + 1) == s.(dispatch := DTake)
    decreases |s.kernels| - i
  {
    var s' := DispatchReads(s);
    if i < |s.kernels| {
      PollsKernels(s', i + 1);
    } else {
      OneRead(s, s');
    }
  }

  /** A waiting packet is taken once nothing that it must wait for is active: the dispatch task comes to
      take it by reading alone. */
  lemma {:induction false} WaitingPacketIsTaken(s: State) returns (n: nat)
    requires s.dispatch.DTop? && AllIdle(s) && !s.reboot && !s.faulted && |s.slots| < |s.packets|
    ensures Iterate(DispatchReads, s, n) == s.(dispatch := DTake)
  {
    var (s1, s2) := (s.(dispatch := DPoll), s.(dispatch := DPollCopy));
    OneRead(s, s1);
    OneRead(s1, s2);
    IterateOn(DispatchReads, s, s1, s2, 1, 1);
    var last := s.(dispatch := DTake);
    if s.packets[|s.slots|].kind.Launch? {
      var (s3, s4) := (s.(dispatch := DPollCache), s.(dispatch := DPollKernel(0)));
      OneRead(s2, s3);
      OneRead(s3, s4);
      IterateOn(DispatchReads, s, s2, s3, 2, 1);
      IterateOn(DispatchReads, s, s3, s4, 3, 1);
      PollsKernels(s4, 0);
      IterateOn(DispatchReads, s, s4, last, 4, |s.kernels| + 1);
      n := |s.kernels| + 5;
    } else {
      OneRead(s2, last);
      IterateOn(DispatchReads, s, s2, last, 2, 1);
      n := 3;
    }
  }

  lemma {:induction false} PassesKernels(s: State, m: nat, i: nat)
    requires s.dispatch == DBarrierKernel(m, i) && i <= |s.kernels| && KernelsIdle(s)
    ensures Iterate(DispatchReads, s, |s.kernels| - i + 1) == s.(dispatch := DBarrierCopy(m))
    decreases |s.kernels| - i
  {
    var s' := DispatchReads(s);
    if i < |s.kernels| {
      PassesKernels(s', m, i + 1);
    } else {
      OneRead(s, s');
    }
  }

  /** A barrier ends once everything before it has. */
  lemma {:induction false} BarrierEnds(s: State, m: nat) returns (n: nat)
    requires s.dispatch == DBarrier(m) && AllIdle(s)
    ensures Iterate(DispatchReads, s, n) == s.(dispatch := DBarrierDone(m))
  {
    var (s1, s2, s3) :=
      (s.(dispatch := DBarrierKernel(m, 0)), s.(dispatch := DBarrierCopy(m)), s.(dispatch := DBarrierDone(m)));
    OneRead(s, s1);
    PassesKernels(s1, m, 0);
    OneRead(s2, s3);
    IterateOn(DispatchReads, s, s1, s2, 1, |s.kernels| + 1);
    IterateOn(DispatchReads, s, s2, s3, |s.kernels| + 2, 1);
    n := |s.kernels| + 3;
  }

  // ---- The cache retirer ----------------------------------------------------------------------------

  lemma {:induction false} OneRetire(s: State, s': State)
    requires s' == CacheRetire(s)
    ensures Iterate(CacheRetire, s, 1) == s'
  {
    assert Iterate(CacheRetire, s', 0) == s';
  }

  lemma {:induction false} ScansCaches(s: State, c: nat)
    requires s.cacheRetire == CScan(c) && c <= |s.cache.run| && Quiet(s.cache, c)
    ensures Iterate(CacheRetire, s, |s.cache.run| - c + 1) == s.(cacheRetire := CPublish)
    decreases |s.cache.run| - c
  {
    var s' := CacheRetire(s);
    if c < |s.cache.run| {
      assert !Busy(s.cache, c);
      ScansCaches(s', c + 1);
    } else {
      OneRetire(s, s');
    }
  }

  /** What the end of an operation leaves: its command has its result, and the next one may be claimed. */
  function Ended(s: State): State {
    s.(slots := if s.cache.token.Some? then Set(s.slots, s.cache.token.value, Terminal(Tokens.SUCCESS)) else s.slots,
       cache := s.cache.(token := None, pending := false), cacheRetire := CIdle)
  }

  lemma {:induction false} LastThree(s: State)
    requires s.cacheRetire.CPublish?
    ensures Iterate(CacheRetire, s, 3) == Ended(s)
  {
    var s1 := CacheRetire(s);
    var s2 := CacheRetire(s1);
    var s3 := CacheRetire(s2);
    OneRetire(s, s1);
    OneRetire(s1, s2);
    OneRetire(s2, s3);
    IterateOn(CacheRetire, s, s1, s2, 1, 1);
    IterateOn(CacheRetire, s, s2, s3, 2, 1);
  }

  /** An operation that was marked as started and that every cache has finished is retired, with the success
      of its command. */
  lemma {:induction false} FinishedOperationRetires(s: State) returns (n: nat)
    requires s.cacheRetire.CIdle? && s.cache.pending && s.cache.started && Quiet(s.cache, 0)
    ensures Iterate(CacheRetire, s, n) == Ended(s)
  {
    var (s1, s2, s3) := (s.(cacheRetire := CSawPending), s.(cacheRetire := CScan(0)), s.(cacheRetire := CPublish));
    OneRetire(s, s1);
    OneRetire(s1, s2);
    IterateOn(CacheRetire, s, s1, s2, 1, 1);
    ScansCaches(s2, 0);
    IterateOn(CacheRetire, s, s2, s3, 2, |s.cache.run| + 1);
    LastThree(s3);
    IterateOn(CacheRetire, s, s3, Ended(s), |s.cache.run| + 3, 3);
    n := |s.cache.run| + 6;
  }
}
