/** What holds over every interleaving of the command processor's tasks. */
module FwTheorems {
  import opened FwInvariant
  import opened FwSteps
  import opened FwTasks
  import opened Options
  import Runs

  // ---- Every run keeps the invariant ------------------------------------------------------

  ghost predicate Step(s: State, s': State) {
    |s.cache.done| == |s.cache.run| && Next(s, s')
  }

  lemma {:induction false} StepInv(s: State, s': State)
    requires Inv(s) && Step(s, s')
    ensures Inv(s')
  {
    if EnvStep(s, s') {
      EnvInv(s, s');
    } else if DispatchStep(s, s') {
      DispatchInv(s, s');
    } else if RetireStep(s, s') {
      RetireInv(s, s');
    } else if s' == CacheRetire(s) {
      CacheRetireInv(s);
    } else {
      CopyInv(s, s');
    }
  }

  ghost predicate Reachable(s: State) {
    Runs.Reachable(Init, Step, s)
  }

  lemma {:induction false} ReachableInv(s: State)
    requires Reachable(s)
    ensures Inv(s)
  {
    forall s | Init(s) ensures Inv(s) {
      InitInv(s);
    }
    forall s, s' | Inv(s) && Step(s, s') ensures Inv(s') {
      StepInv(s, s');
    }
    Runs.HoldsWhenReached(Init, Step, Inv, s);
  }

  // ---- Cache operations -------------------------------------------------------------------

  /** One operation is in flight at a time: a running cache runs the operation that is pending, and is
      one of its targets. */
  lemma {:induction false} OneOperationAtATime(s: State, c: nat)
    requires Reachable(s) && c < |s.cache.run| && s.cache.run[c] != 0
    ensures s.cache.pending && s.cache.run[c] == s.cache.number && Targets(s.cache.icache, s.cache.dcache, c)
  {
    ReachableInv(s);
    assert |s.cache.done| == |s.cache.run| && HeldOk(s.cache, Holder(s.dispatch, s.copyTask));
  }

  /** No START is lost: each finds its cache idle. */
  lemma {:induction false} EveryStartTakesEffect(s: State, op: Op)
    requires Reachable(s) && op.stage.Start? && op.stage.c < |s.cache.run| && Targets(op.icache, op.dcache, op.stage.c)
    requires (s.dispatch.DOp? && s.dispatch.op == op) || (s.copyTask.MOp? && s.copyTask.op == op)
    ensures StepOp(s.cache, op).0.run[op.stage.c] == s.cache.number > 0 && s.cache.run[op.stage.c] == 0
  {
    ReachableInv(s);
    assert s.dispatch.DOp? ==> !s.copyTask.MOp?;
    assert StageOk(s.cache, op);
  }

  /** A cache command's result is published only once every targeted cache of every SM has run the
      operation to its end. */
  lemma {:induction false} TokenAfterEveryCache(s: State, s': State, n: nat)
    requires Reachable(s) && Step(s, s') && n < |s.slots| && s.slots[n] == Pending(ByCache)
    requires n < |s'.slots| && s'.slots[n].Terminal?
    ensures s.cache.token == Some(n)
    ensures forall c | 0 <= c < |s.cache.run| ::
              s.cache.run[c] == 0 && (Targets(s.cache.icache, s.cache.dcache, c) ==> s.cache.done[c] == s.cache.number)
  {
    ReachableInv(s);
    assert Owes(s, ByCache, n);
    OnlyPublisherPublishes(s, s', n);
    assert |s.cache.done| == |s.cache.run| && ScanOk(s.cache, Holder(s.dispatch, s.copyTask), s.cacheRetire);
  }

  /** Only the waiting starter or cp_retire_cache ends an operation, and only when no cache runs it. */
  lemma {:induction false} EndedByItsOwner(s: State, s': State)
    requires Reachable(s) && Step(s, s') && s.cache.pending && !s'.cache.pending
    ensures || (s.dispatch.DOp? && s.dispatch.op.waits && s.dispatch.op.stage.Release? && !s.cache.started)
            || (s.cacheRetire.CDropPending? && s.cache.started)
    ensures forall c | 0 <= c < |s.cache.run| :: s.cache.run[c] == 0
  {
    ReachableInv(s);
    assert |s.cache.done| == |s.cache.run|;
    assert HeldOk(s.cache, Holder(s.dispatch, s.copyTask))
           && ScanOk(s.cache, Holder(s.dispatch, s.copyTask), s.cacheRetire);
    EndSteps(s, s');
  }

  lemma {:induction false} EndSteps(s: State, s': State)
    requires Step(s, s') && s.cache.pending && !s'.cache.pending
    ensures || (s.dispatch.DOp? && s.dispatch.op.stage.Release?)
            || (s.copyTask.MOp? && s.copyTask.op.stage.Release?)
            || s.cacheRetire.CDropPending?
  {
    if EnvStep(s, s') || RetireStep(s, s') {
      QuietSteps(s, s');
    } else if DispatchStep(s, s') {
      DispatchCacheMove(s, s');
      OpEnds(s.cache, s.dispatch.op);
    } else if s' == CacheRetire(s) {
      CacheRetireEnds(s);
    } else {
      CopyCacheMove(s, s');
      OpEnds(s.cache, s.copyTask.op);
    }
  }

  lemma {:induction false} OpEnds(k: Cache, op: Op)
    ensures k.pending && !StepOp(k, op).0.pending ==> op.stage.Release?
  {
  }

  lemma {:induction false} CacheRetireEnds(s: State)
    ensures s.cache.pending && !CacheRetire(s).cache.pending ==> s.cacheRetire.CDropPending?
  {
  }

  lemma {:induction false} QuietSteps(s: State, s': State)
    requires |s.cache.done| == |s.cache.run| && (EnvStep(s, s') || RetireStep(s, s'))
    ensures s'.cache.pending == s.cache.pending
  {
  }

  lemma {:induction false} DispatchCacheMove(s: State, s': State)
    requires DispatchStep(s, s')
    ensures s'.cache == s.cache || (s.dispatch.DOp? && s'.cache == StepOp(s.cache, s.dispatch.op).0)
  {
    if s' != s.(dispatch := Goto(s)) && s.dispatch.DOp? {
      assert s' == DispatchOp(s);
    }
  }

  lemma {:induction false} CopyCacheMove(s: State, s': State)
    requires CopyStep(s, s')
    ensures s'.cache == s.cache || (s.copyTask.MOp? && s'.cache == StepOp(s.cache, s.copyTask.op).0)
  {
  }

  /** The memory-copy task never blocks while it starts an operation. */
  lemma {:induction false} CopyNeverBlocks(s: State)
    requires Reachable(s) && s.copyTask.MOp?
    ensures CopyOp(s).copyTask != s.copyTask
  {
    ReachableInv(s);
    CopyMovesOn(s);
  }

  lemma {:induction false} CopyMovesOn(s: State)
    requires Apart(s) && CacheOk(s) && s.copyTask.MOp?
    ensures CopyOp(s).copyTask != s.copyTask
  {
    assert !s.dispatch.DOp? && StageOk(s.cache, s.copyTask.op);
  }

  // ---- Completion slots -------------------------------------------------------------------

  /** Where in its program the firmware task named by a pending slot publishes. */
  predicate AtPublish(s: State, who: Publisher) {
    match who
    case ByDispatch => s.dispatch.DBarrierDone? || s.dispatch.DPublish?
    case ByCache => s.cacheRetire.CPublish?
    case ByKernel(kid) => s.retire == RPublish(kid)
    case ByCopy => s.copyTask.MPublish?
  }

  /** Only the slot of the result `who` owes may differ, and it ends only where `who` publishes. */
  ghost predicate SlotMove(s: State, s': State, who: Publisher) {
    && |s.slots| <= |s'.slots|
    && (forall n | 0 <= n < |s.slots| && s'.slots[n] != s.slots[n] ::
          Owes(s, who, n) && (s'.slots[n].Terminal? ==> AtPublish(s, who)))
  }

  lemma {:induction false} DispatchSlots(s: State, s': State)
    requires DispatchStep(s, s')
    ensures SlotMove(s, s', ByDispatch)
  {
    if s' == s.(dispatch := Goto(s)) {
    } else if s.dispatch.DTake? {
      assert s.slots <= s'.slots;
    } else if s.dispatch.DOp? {
      assert s' == DispatchOp(s);
    } else if LaunchStep(s, s') {
      LaunchSlots(s, s');
    } else if SubmitStep(s, s') {
      SubmitSlots(s, s');
    }
  }

  lemma {:induction false} LaunchSlots(s: State, s': State)
    requires LaunchStep(s, s')
    ensures SlotMove(s, s', ByDispatch)
  {
  }

  lemma {:induction false} SubmitSlots(s: State, s': State)
    requires SubmitStep(s, s')
    ensures SlotMove(s, s', ByDispatch)
  {
  }

  lemma {:induction false} RetireSlots(s: State, s': State)
    requires KernelsOk(s) && RetireStep(s, s')
    ensures s'.slots == s.slots || (s.retire.RPublish? && SlotMove(s, s', ByKernel(s.retire.kid)))
  {
    if s.retire.RPublish? {
      assert KernelOk(s, s.retire.kid);
    }
  }

  lemma {:induction false} CacheRetireSlots(s: State)
    requires CacheOk(s)
    ensures SlotMove(s, CacheRetire(s), ByCache)
  {
  }

  lemma {:induction false} CopySlots(s: State, s': State)
    requires Apart(s) && DmaOk(s) && CopyStep(s, s')
    ensures SlotMove(s, s', ByCopy)
  {
    if s' == CopyStore(s) && s.copyTask.MPublish? {
      assert Owes(s, ByCopy, s.copy.token);
    }
  }

  lemma {:induction false} SomeTaskMoves(s: State, s': State) returns (who: Publisher)
    requires Inv(s) && Step(s, s')
    ensures SlotMove(s, s', who)
  {
    if EnvStep(s, s') {
      who := ByDispatch;
    } else if DispatchStep(s, s') {
      who := ByDispatch;
      DispatchSlots(s, s');
    } else if RetireStep(s, s') {
      who := if s.retire.RPublish? then ByKernel(s.retire.kid) else ByDispatch;
      RetireSlots(s, s');
    } else if s' == CacheRetire(s) {
      who := ByCache;
      CacheRetireSlots(s);
    } else {
      who := ByCopy;
      CopySlots(s, s');
    }
  }

  /** A slot becomes terminal only from pending, by the step of the one task that owes it. */
  lemma {:induction false} OnlyPublisherPublishes(s: State, s': State, n: nat)
    requires Inv(s) && Step(s, s') && n < |s.slots| && n < |s'.slots| && s'.slots[n].Terminal?
    requires s'.slots[n] != s.slots[n]
    ensures s.slots[n].Pending? && AtPublish(s, s.slots[n].publisher) && Owes(s, s.slots[n].publisher, n)
  {
    var who := SomeTaskMoves(s, s');
    assert Owes(s, who, n);
  }

  /** Firmware never changes a slot once terminal. */
  lemma {:induction false} TerminalStays(s: State, s': State, n: nat)
    requires Inv(s) && Step(s, s') && n < |s.slots| && s.slots[n].Terminal?
    ensures n < |s'.slots| && s'.slots[n] == s.slots[n]
  {
    var who := SomeTaskMoves(s, s');
    assert !Owes(s, who, n);
  }

  lemma {:induction false} TerminalForever(run: seq<State>, i: nat, j: nat, n: nat)
    requires Runs.IsRun(Init, Step, run) && i <= j < |run| && n < |run[i].slots| && run[i].slots[n].Terminal?
    ensures n < |run[j].slots| && run[j].slots[n] == run[i].slots[n]
  {
    if i < j {
      TerminalForever(run, i, j - 1, n);
      TerminalStaysAt(run, j - 1, n);
    }
  }

  lemma {:induction false} TerminalStaysAt(run: seq<State>, i: nat, n: nat)
    requires Runs.IsRun(Init, Step, run) && i + 1 < |run| && n < |run[i].slots| && run[i].slots[n].Terminal?
    ensures n < |run[i + 1].slots| && run[i + 1].slots[n] == run[i].slots[n]
  {
    Runs.PrefixIsReached(Init, Step, run, i);
    ReachableInv(run[i]);
    assert Runs.StepAt(Step, run, i);
    TerminalStays(run[i], run[i + 1], n);
  }

  /** With no kernel, cache operation or memory copy active, only the dispatch task owes a result. */
  lemma {:induction false} NothingOwed(s: State, m: nat)
    requires Ledger(s) && KernelsOk(s) && KernelsIdle(s) && !s.cache.pending && !s.copy.active && m < |s.slots|
    ensures s.slots[m].Pending? ==> DispatchOwes(s.dispatch) == Some(m)
  {
    forall kid: nat | kid < |s.kernels| ensures !KernelOwes(s.kernels, kid, m) {
      assert KernelOk(s, kid);
    }
    if s.slots[m].Pending? {
      assert Owes(s, s.slots[m].publisher, m);
    }
  }

  /** When a barrier succeeds, every other command taken so far is terminal. */
  lemma {:induction false} BarrierMeansDrained(s: State, m: nat)
    requires Reachable(s) && s.dispatch.DBarrierDone? && m < |s.slots| && m != s.dispatch.n
    ensures !s.slots[m].Pending?
  {
    ReachableInv(s);
    NothingOwed(s, m);
  }

  // ---- Kernels, memory copies, DMA and reboot ------------------------------------------------

  lemma {:induction false} OneKernelAtATime(s: State, i: nat, j: nat)
    requires Reachable(s) && i < |s.kernels| && j < |s.kernels| && s.kernels[i].inUse && s.kernels[j].inUse
    ensures i == j
  {
    ReachableInv(s);
    assert OneActive(s.kernels);
  }

  /** An engine is started only when neither works, and works only for an active memory copy that
      has no kernel beside it. */
  lemma {:induction false} EnginesBelongToCopy(s: State)
    requires Reachable(s)
    ensures s.copyTask.MDma? ==> DmaIdle(s.dma)
    ensures !s.copy.active ==> DmaIdle(s.dma)
    ensures !DmaIdle(s.dma) ==> KernelsIdle(s)
  {
    ReachableInv(s);
  }

  /** While a memory copy moves data or maintains the caches, no kernel is active. */
  lemma {:induction false} CopyRunsAlone(s: State)
    requires Reachable(s) && s.copy.active && !s.copy.phase.WaitPredecessor? && !s.copy.phase.Idle?
    ensures KernelsIdle(s)
  {
    ReachableInv(s);
  }

  /** The reboot jump happens only with no kernel, cache operation, memory copy or DMA active, and
      leaves at most the one barrier it interrupted without a result. */
  lemma {:induction false} RebootIsDrained(s: State, m: nat)
    requires Reachable(s) && s.dispatch.DJumped? && m < |s.slots|
    ensures KernelsIdle(s) && !s.cache.pending && !s.copy.active && DmaIdle(s.dma)
    ensures s.slots[m].Pending? ==> s.dispatch.left == Some(m)
  {
    ReachableInv(s);
    NothingOwed(s, m);
  }
}
