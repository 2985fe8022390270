/** Each task's steps keep the invariant. */
module FwSteps {
  import opened FwInvariant
  import opened FwTasks
  import opened Options
  import Tokens

  // ---- cp_dispatch: steps that only read ---------------------------------------------------

  lemma {:induction false} GotoApart(s: State)
    requires Apart(s)
    ensures Apart(s.(dispatch := Goto(s)))
  {
  }

  lemma {:induction false} GotoCache(s: State)
    requires CacheOk(s)
    ensures CacheOk(s.(dispatch := Goto(s)))
  {
  }

  lemma {:induction false} GotoKernels(s: State)
    requires KernelsOk(s)
    ensures KernelsOk(s.(dispatch := Goto(s)))
  {
    var s' := s.(dispatch := Goto(s));
    forall i: nat | i < |s'.kernels| ensures KernelOk(s', i) {
      assert KernelOk(s, i);
      GotoSetsUp(s, i);
    }
  }

  lemma {:induction false} GotoSetsUp(s: State, i: nat)
    ensures SettingUp(Goto(s), i) <==> SettingUp(s.dispatch, i)
  {
  }

  lemma {:induction false} GotoDma(s: State)
    requires DmaOk(s)
    ensures DmaOk(s.(dispatch := Goto(s)))
  {
  }

  lemma {:induction false} GotoLedger(s: State)
    requires Ledger(s)
    ensures Ledger(s.(dispatch := Goto(s)))
  {
    var s' := s.(dispatch := Goto(s));
    assert DispatchOwes(s'.dispatch) == DispatchOwes(s.dispatch);
    forall who, n: nat ensures Owes(s', who, n) <==> Owes(s, who, n) {
    }
  }

  lemma {:induction false} GotoBarrier(s: State)
    requires BarrierOk(s)
    ensures BarrierOk(s.(dispatch := Goto(s)))
  {
  }

  // ---- cp_dispatch: stores -----------------------------------------------------------------

  lemma {:induction false} KernelsFrame(s: State, s': State)
    requires KernelsOk(s) && s'.kernels == s.kernels && s'.retire == s.retire && s'.dispatch == s.dispatch
    requires |s'.slots| == |s.slots| && s.packets <= s'.packets
    ensures KernelsOk(s')
  {
    forall i: nat | i < |s'.kernels| ensures KernelOk(s', i) {
      assert KernelOk(s, i);
    }
  }

  /** One slot changes hands or becomes terminal; every other result is owed as before. */
  lemma {:induction false} LedgerMove(s: State, s': State, m: nat)
    requires Ledger(s) && m < |s.slots| == |s'.slots| && |s'.packets| >= |s.packets|
    requires s'.slots == s.slots[m := s'.slots[m]]
    requires forall who, n: nat | n != m :: Owes(s', who, n) <==> Owes(s, who, n)
    requires forall who :: Owes(s', who, m) <==> s'.slots[m] == Pending(who)
    ensures Ledger(s')
  {
    forall who, n: nat ensures Owes(s', who, n) <==> n < |s'.slots| && s'.slots[n] == Pending(who) {
      assert Owes(s, who, n) <==> n < |s.slots| && s.slots[n] == Pending(who);
    }
  }

  lemma {:induction false} TakeInv(s: State)
    requires Inv(s) && s.dispatch.DTake? && |s.slots| < |s.packets|
    ensures Inv(Take(s))
  {
    var s' := Take(s);
    forall i: nat | i < |s'.kernels| ensures KernelOk(s', i) {
      assert KernelOk(s, i);
    }
    forall who, n: nat ensures Owes(s', who, n) <==> n < |s'.slots| && s'.slots[n] == Pending(who) {
      assert Owes(s, who, n) <==> n < |s.slots| && s.slots[n] == Pending(who);
    }
  }

  lemma {:induction false} RebootInv(s: State)
    requires Inv(s) && s.dispatch.DTake?
    ensures Inv(s.(dispatch := DReboot(None)))
  {
    var s' := s.(dispatch := DReboot(None));
    forall i: nat | i < |s'.kernels| ensures KernelOk(s', i) {
      assert KernelOk(s, i);
    }
    forall who, n: nat ensures Owes(s', who, n) <==> Owes(s, who, n) {
    }
  }

  lemma {:induction false} DispatchOpInv(s: State)
    requires Inv(s) && s.dispatch.DOp?
    ensures Inv(DispatchOp(s))
  {
    DispatchOpCache(s);
    assert Apart(DispatchOp(s)) && DmaOk(DispatchOp(s)) && BarrierOk(DispatchOp(s));
    DispatchOpKernels(s);
    DispatchOpLedger(s);
  }

  lemma {:induction false} DispatchOpCache(s: State)
    requires Apart(s) && CacheOk(s) && s.dispatch.DOp?
    ensures CacheOk(DispatchOp(s))
  {
    var op := s.dispatch.op;
    assert s.copyTask.MTop? && Holder(s.dispatch, s.copyTask) == Held(Some(op));
    StepOpHeld(s.cache, op);
    StepOpScan(s.cache, op, s.cacheRetire);
    StepOpKeeps(s.cache, op);
    var (k', op') := StepOp(s.cache, op);
    assert Holder(DispatchOp(s).dispatch, s.copyTask) == Held(op');
  }

  lemma {:induction false} DispatchOpKernels(s: State)
    requires KernelsOk(s) && s.dispatch.DOp?
    ensures KernelsOk(DispatchOp(s))
  {
    var s' := DispatchOp(s);
    forall i: nat | i < |s'.kernels| ensures KernelOk(s', i) {
      assert KernelOk(s, i);
    }
  }

  lemma {:induction false} DispatchOpLedger(s: State)
    requires Apart(s) && CacheOk(s) && Ledger(s) && s.dispatch.DOp?
    ensures Ledger(DispatchOp(s))
  {
    var s' := DispatchOp(s);
    var m := s.dispatch.n;
    assert Owes(s, ByDispatch, m);
    OpOwes(s);
    LedgerMove(s, s', m);
  }

  /** The cache retirer owes a result only once the operation has been marked as started. */
  lemma {:induction false} OpOwes(s: State)
    requires Apart(s) && CacheOk(s) && s.dispatch.DOp?
    ensures var s' := DispatchOp(s);
            var (before, after) := (CacheOwes(s.cache, s.cacheRetire), CacheOwes(s'.cache, s'.cacheRetire));
            if s.dispatch.op.stage.Mark? then before.None? && after == Some(s.dispatch.n)
            else after == before && (!s.dispatch.op.stage.Wait? ==> before.None?)
  {
    assert !s.dispatch.op.stage.Wait? ==> StageOk(s.cache, s.dispatch.op);
  }

  lemma {:induction false} LaunchInv(s: State, s': State)
    requires Inv(s) && LaunchStep(s, s')
    ensures Inv(s')
  {
    LaunchKernels(s, s');
    LaunchLedger(s, s');
    LaunchSpares(s, s');
  }

  lemma {:induction false} LaunchTouches(s: State, s': State)
    requires LaunchStep(s, s')
    ensures (s'.cache, s'.copyTask, s'.copy, s'.upkeep) == (s.cache, s.copyTask, s.copy, s.upkeep)
    ensures (s'.packets, s'.dma, s'.cacheRetire) == (s.packets, s.dma, s.cacheRetire)
    ensures s.dispatch.DAlloc? || s.dispatch.DInUse? || s.dispatch.DFields? || s.dispatch.DEnqueue?
    ensures s'.dispatch.DInUse? || s'.dispatch.DFields? || s'.dispatch.DEnqueue? || s'.dispatch.DMore?
  {
  }

  /** A launch touches only kernels and slots, and no memory copy is active beside it. */
  lemma {:induction false} LaunchSpares(s: State, s': State)
    requires Apart(s) && CacheOk(s) && DmaOk(s) && BarrierOk(s) && CopyAlone(s) && LaunchStep(s, s')
    ensures Apart(s') && CacheOk(s') && DmaOk(s') && BarrierOk(s') && CopyAlone(s')
  {
    LaunchTouches(s, s');
  }

  lemma {:induction false} LaunchKernels(s: State, s': State)
    requires KernelsOk(s) && LaunchStep(s, s')
    ensures KernelsOk(s')
  {
    forall i: nat | i < |s'.kernels| ensures KernelOk(s', i) {
      assert KernelOk(s, i);
    }
  }

  lemma {:induction false} LaunchLedger(s: State, s': State)
    requires KernelsOk(s) && Ledger(s) && LaunchStep(s, s')
    ensures Ledger(s')
  {
    var m := s.dispatch.n;
    assert Owes(s, ByDispatch, m);
    if !s.dispatch.DAlloc? {
      assert KernelOk(s, s.dispatch.kid);
    }
    LedgerMove(s, s', m);
  }

  lemma {:induction false} SubmitInv(s: State, s': State)
    requires Inv(s) && SubmitStep(s, s')
    ensures Inv(s')
  {
    SubmitLedger(s, s');
    SubmitKernels(s, s');
    assert Apart(s') && CacheOk(s') && DmaOk(s') && BarrierOk(s');
  }

  lemma {:induction false} SubmitLedger(s: State, s': State)
    requires Apart(s) && Ledger(s) && DmaOk(s) && BarrierOk(s) && SubmitStep(s, s')
    ensures Ledger(s')
  {
    if s.dispatch.DActivate? {
      ActivateLedger(s, s');
    } else {
      SubmitOwes(s, s');
      assert forall who, n: nat :: Owes(s', who, n) <==> Owes(s, who, n);
    }
  }

  /** Until it is activated, the copy owes nothing and the dispatch task still does. */
  lemma {:induction false} SubmitOwes(s: State, s': State)
    requires Apart(s) && SubmitStep(s, s') && !s.dispatch.DActivate?
    ensures DispatchOwes(s'.dispatch) == DispatchOwes(s.dispatch)
    ensures CopyOwes(s'.copy, s'.copyTask) == CopyOwes(s.copy, s.copyTask)
    ensures (s'.packets, s'.slots, s'.cache, s'.cacheRetire) == (s.packets, s.slots, s.cache, s.cacheRetire)
    ensures s'.kernels == s.kernels
  {
  }

  lemma {:induction false} ActivateLedger(s: State, s': State)
    requires Apart(s) && Ledger(s) && DmaOk(s) && BarrierOk(s) && s.dispatch.DActivate? && SubmitStep(s, s')
    ensures Ledger(s')
  {
    var m := s.dispatch.n;
    assert Owes(s, ByDispatch, m);
    LedgerMove(s, s', m);
  }

  lemma {:induction false} SubmitKernels(s: State, s': State)
    requires KernelsOk(s) && SubmitStep(s, s')
    ensures KernelsOk(s')
  {
    forall i: nat | i < |s'.kernels| ensures KernelOk(s', i) {
      assert KernelOk(s, i);
    }
  }

  lemma {:induction false} DispatchPublishInv(s: State, result: nat)
    requires Inv(s) && (s.dispatch.DBarrierDone? || s.dispatch.DPublish?)
    ensures Inv(s.(slots := Set(s.slots, s.dispatch.n, Terminal(result)), dispatch := DTop))
  {
    var m := s.dispatch.n;
    var s' := s.(slots := Set(s.slots, m, Terminal(result)), dispatch := DTop);
    assert Owes(s, ByDispatch, m);
    forall i: nat | i < |s'.kernels| ensures KernelOk(s', i) {
      assert KernelOk(s, i);
    }
    LedgerMove(s, s', m);
  }

  lemma {:induction false} DispatchInv(s: State, s': State)
    requires Inv(s) && DispatchStep(s, s')
    ensures Inv(s')
  {
    if s' == s.(dispatch := Goto(s)) {
      GotoApart(s); GotoCache(s); GotoKernels(s); GotoDma(s); GotoLedger(s); GotoBarrier(s);
    } else if s.dispatch.DTake? && s.reboot {
      RebootInv(s);
    } else if s.dispatch.DTake? {
      TakeInv(s);
    } else if s.dispatch.DOp? {
      DispatchOpInv(s);
    } else if LaunchStep(s, s') {
      LaunchInv(s, s');
    } else if SubmitStep(s, s') {
      SubmitInv(s, s');
    } else {
      DispatchPublishInv(s, if s.dispatch.DPublish? then s.dispatch.result else Tokens.SUCCESS);
    }
  }

  // ---- cp_retire_sm -----------------------------------------------------------------------

  lemma {:induction false} RetireKernels(s: State, s': State)
    requires KernelsOk(s) && RetireStep(s, s')
    ensures KernelsOk(s')
  {
    if s.dispatch.DFields? || s.dispatch.DEnqueue? {
      assert KernelOk(s, s.dispatch.kid);
    }
    if !s.retire.RIdle? {
      assert KernelOk(s, s.retire.kid);
    }
    forall i: nat | i < |s'.kernels| ensures KernelOk(s', i) {
      assert KernelOk(s, i);
    }
  }

  lemma {:induction false} RetireLedger(s: State, s': State)
    requires Ledger(s) && KernelsOk(s) && RetireStep(s, s')
    ensures Ledger(s')
  {
    match s.retire
    case RIdle => assert forall who, n: nat :: Owes(s', who, n) <==> Owes(s, who, n);
    case RPublish(kid) =>
      assert KernelOk(s, kid);
      assert Owes(s, ByKernel(kid), s.kernels[kid].token);
      LedgerMove(s, s', s.kernels[kid].token);
    case RFree(kid) =>
      assert KernelOk(s, kid);
      assert forall who, n: nat :: Owes(s', who, n) <==> Owes(s, who, n);
  }

  lemma {:induction false} RetireInv(s: State, s': State)
    requires Inv(s) && RetireStep(s, s')
    ensures Inv(s')
  {
    RetireKernels(s, s');
    RetireLedger(s, s');
    RetireSpares(s, s');
  }

  lemma {:induction false} RetireTouches(s: State, s': State)
    requires RetireStep(s, s')
    ensures (s'.dispatch, s'.copyTask, s'.copy, s'.upkeep) == (s.dispatch, s.copyTask, s.copy, s.upkeep)
    ensures (s'.packets, s'.dma, s'.cache, s'.cacheRetire) == (s.packets, s.dma, s.cache, s.cacheRetire)
    ensures |s'.kernels| == |s.kernels|
    ensures forall i | 0 <= i < |s.kernels| && s'.kernels[i].inUse :: s.kernels[i].inUse
  {
  }

  lemma {:induction false} RetireSpares(s: State, s': State)
    requires Apart(s) && CacheOk(s) && DmaOk(s) && BarrierOk(s) && CopyAlone(s) && RetireStep(s, s')
    ensures Apart(s') && CacheOk(s') && DmaOk(s') && BarrierOk(s') && CopyAlone(s')
  {
    RetireTouches(s, s');
  }

  // ---- cp_retire_cache --------------------------------------------------------------------

  lemma {:induction false} CacheRetireCache(s: State)
    requires CacheOk(s)
    ensures CacheOk(CacheRetire(s))
  {
    if s.cacheRetire.CDropToken? || s.cacheRetire.CDropPending? {
      DropCache(s);
    } else {
      ScanCache(s);
    }
  }

  lemma {:induction false} ScanCache(s: State)
    requires CacheOk(s) && !s.cacheRetire.CDropToken? && !s.cacheRetire.CDropPending?
    ensures CacheOk(CacheRetire(s))
  {
    ScanMoves(s);
  }

  lemma {:induction false} ScanMoves(s: State)
    requires !s.cacheRetire.CDropToken? && !s.cacheRetire.CDropPending?
    requires ScanOk(s.cache, Holder(s.dispatch, s.copyTask), s.cacheRetire)
    requires HeldOk(s.cache, Holder(s.dispatch, s.copyTask)) && |s.cache.done| == |s.cache.run|
    requires s.cache.pending ==> s.cache.number > 0
    ensures var s' := CacheRetire(s);
            && (s'.cache, s'.dispatch, s'.copyTask) == (s.cache, s.dispatch, s.copyTask)
            && ScanOk(s.cache, Holder(s.dispatch, s.copyTask), s'.cacheRetire)
  {
  }

  lemma {:induction false} DropCache(s: State)
    requires CacheOk(s) && (s.cacheRetire.CDropToken? || s.cacheRetire.CDropPending?)
    ensures CacheOk(CacheRetire(s))
  {
  }

  lemma {:induction false} CacheRetireLedger(s: State)
    requires Ledger(s) && CacheOk(s)
    ensures Ledger(CacheRetire(s))
  {
    var s' := CacheRetire(s);
    if s.cacheRetire.CPublish? && s.cache.token.Some? {
      CachePublishLedger(s);
    } else {
      CacheOwesStill(s);
      assert forall who, n: nat :: Owes(s', who, n) <==> Owes(s, who, n);
    }
  }

  lemma {:induction false} CachePublishLedger(s: State)
    requires Ledger(s) && CacheOk(s) && s.cacheRetire.CPublish? && s.cache.token.Some?
    ensures Ledger(CacheRetire(s))
  {
    assert Owes(s, ByCache, s.cache.token.value);
    LedgerMove(s, CacheRetire(s), s.cache.token.value);
  }

  lemma {:induction false} CacheOwesStill(s: State)
    requires CacheOk(s) && !(s.cacheRetire.CPublish? && s.cache.token.Some?)
    ensures var s' := CacheRetire(s);
            && CacheOwes(s'.cache, s'.cacheRetire) == CacheOwes(s.cache, s.cacheRetire) && s'.slots == s.slots
            && (s'.packets, s'.dispatch, s'.kernels) == (s.packets, s.dispatch, s.kernels)
            && (s'.copy, s'.copyTask) == (s.copy, s.copyTask)
  {
    match s.cacheRetire
    case CScan(_) =>
    case CPublish =>
    case CDropPending =>
    case _ =>
  }

  lemma {:induction false} CacheRetireInv(s: State)
    requires Inv(s)
    ensures Inv(CacheRetire(s))
  {
    CacheRetireCache(s);
    CacheRetireLedger(s);
    CacheRetireRest(s);
    CacheRetireDma(s);
    CacheRetireKernels(s);
  }

  lemma {:induction false} CacheRetireRest(s: State)
    requires Apart(s) && BarrierOk(s) && CopyAlone(s)
    ensures var s' := CacheRetire(s); Apart(s') && BarrierOk(s') && CopyAlone(s')
  {
  }

  lemma {:induction false} CacheRetireDma(s: State)
    requires DmaOk(s)
    ensures DmaOk(CacheRetire(s))
  {
  }

  lemma {:induction false} CacheRetireKernels(s: State)
    requires KernelsOk(s)
    ensures KernelsOk(CacheRetire(s))
  {
    KernelsFrame(s, CacheRetire(s));
  }

  // ---- cp_memory_copy_task: steps that only read --------------------------------------------

  lemma {:induction false} CopyGotoInv(s: State)
    requires Inv(s)
    ensures Inv(s.(copyTask := CopyGoto(s)))
  {
    var s' := s.(copyTask := CopyGoto(s));
    assert Apart(s') && BarrierOk(s');
    CopyGotoCache(s);
    CopyGotoDma(s);
    KernelsFrame(s, s');
    assert Ledger(s') by {
      assert CopyOwes(s'.copy, s'.copyTask) == CopyOwes(s.copy, s.copyTask);
      assert forall who, n: nat :: Owes(s', who, n) <==> Owes(s, who, n);
    }
  }

  lemma {:induction false} CopyGotoCache(s: State)
    requires CacheOk(s)
    ensures CacheOk(s.(copyTask := CopyGoto(s)))
  {
  }

  lemma {:induction false} CopyGotoDma(s: State)
    requires Apart(s) && DmaOk(s)
    ensures DmaOk(s.(copyTask := CopyGoto(s)))
  {
  }

  lemma {:induction false} TimeoutInv(s: State)
    requires Inv(s) && s.copyTask.MSwitch? && MayTimeOut(s.copy.phase)
    ensures Inv(s.(faulted := true, copyTask := MPublish(FAILURE, true)))
  {
    var s' := s.(faulted := true, copyTask := MPublish(FAILURE, true));
    KernelsFrame(s, s');
    assert forall who, n: nat :: Owes(s', who, n) <==> Owes(s, who, n);
  }

  // ---- cp_memory_copy_task: stores ----------------------------------------------------------

  lemma {:induction false} CopyOpInv(s: State)
    requires Inv(s) && s.copyTask.MOp?
    ensures Inv(CopyOp(s))
  {
    var s' := CopyOp(s);
    CopyOpCache(s);
    assert Apart(s') && DmaOk(s') && BarrierOk(s');
    KernelsFrame(s, s');
    assert Ledger(s') by {
      assert CacheOwes(s'.cache, s'.cacheRetire) == CacheOwes(s.cache, s.cacheRetire);
      assert forall who, n: nat :: Owes(s', who, n) <==> Owes(s, who, n);
    }
  }

  lemma {:induction false} CopyOpCache(s: State)
    requires Apart(s) && CacheOk(s) && s.copyTask.MOp?
    ensures CacheOk(CopyOp(s))
  {
    var op := s.copyTask.op;
    assert !s.dispatch.DOp? && Holder(s.dispatch, s.copyTask) == Held(Some(op));
    StepOpHeld(s.cache, op);
    StepOpScan(s.cache, op, s.cacheRetire);
    StepOpKeeps(s.cache, op);
    var (k', op') := StepOp(s.cache, op);
    assert Holder(s.dispatch, CopyOp(s).copyTask) == Held(op');
  }

  lemma {:induction false} CopyStoreDma(s: State)
    requires Apart(s) && DmaOk(s)
    ensures DmaOk(CopyStore(s))
  {
  }

  lemma {:induction false} CopyStoreLedger(s: State)
    requires Ledger(s) && Apart(s) && DmaOk(s)
    ensures Ledger(CopyStore(s))
  {
    var s' := CopyStore(s);
    if s.copyTask.MPublish? {
      assert Owes(s, ByCopy, s.copy.token);
      LedgerMove(s, s', s.copy.token);
    } else {
      assert CopyOwes(s'.copy, s'.copyTask) == CopyOwes(s.copy, s.copyTask);
      assert forall who, n: nat :: Owes(s', who, n) <==> Owes(s, who, n);
    }
  }

  lemma {:induction false} CopyStoreInv(s: State)
    requires Inv(s)
    ensures Inv(CopyStore(s))
  {
    CopyStoreDma(s);
    CopyStoreLedger(s);
    CopyStoreKernels(s);
    CopyStoreCache(s);
    CopyStoreAlone(s);
  }

  lemma {:induction false} CopyStoreAlone(s: State)
    requires Apart(s) && DmaOk(s) && CopyAlone(s)
    ensures CopyAlone(CopyStore(s))
  {
  }

  lemma {:induction false} CopyStoreKernels(s: State)
    requires KernelsOk(s)
    ensures KernelsOk(CopyStore(s))
  {
    KernelsFrame(s, CopyStore(s));
  }

  lemma {:induction false} CopyStoreCache(s: State)
    requires Apart(s) && CacheOk(s) && BarrierOk(s)
    ensures var s' := CopyStore(s); Apart(s') && CacheOk(s') && BarrierOk(s')
  {
  }

  lemma {:induction false} CopyInv(s: State, s': State)
    requires Inv(s) && CopyStep(s, s')
    ensures Inv(s')
  {
    if s' == s.(copyTask := CopyGoto(s)) {
      CopyGotoInv(s);
    } else if s' == CopyStore(s) {
      CopyStoreInv(s);
    } else if s.copyTask.MOp? {
      CopyOpInv(s);
    } else {
      TimeoutInv(s);
    }
  }

  // ---- The environment --------------------------------------------------------------------

  lemma {:induction false} FinishInv(s: State, k: Cache)
    requires Inv(s) && CacheFinishes(s.cache, k)
    ensures Inv(s.(cache := k))
  {
    var s' := s.(cache := k);
    FinishOk(s.cache, k, Holder(s.dispatch, s.copyTask), s.cacheRetire);
    KernelsFrame(s, s');
    assert Ledger(s') by {
      assert CacheOwes(s'.cache, s'.cacheRetire) == CacheOwes(s.cache, s.cacheRetire);
      assert forall who, n: nat :: Owes(s', who, n) <==> Owes(s, who, n);
    }
  }

  lemma {:induction false} EngineInv(s: State, s': State)
    requires Inv(s) && EngineFinishes(s, s')
    ensures Inv(s')
  {
    KernelsFrame(s, s');
    assert forall who, n: nat :: Owes(s', who, n) <==> Owes(s, who, n);
  }

  lemma {:induction false} HostInv(s: State, packets: seq<Packet>, reboot: bool)
    requires Inv(s) && s.packets <= packets
    ensures Inv(s.(packets := packets, reboot := reboot))
  {
    var s' := s.(packets := packets, reboot := reboot);
    KernelsFrame(s, s');
    assert forall who, n: nat :: Owes(s', who, n) <==> Owes(s, who, n);
  }

  lemma {:induction false} EnvInv(s: State, s': State)
    requires Inv(s) && EnvStep(s, s')
    ensures Inv(s')
  {
    if CacheFinishes(s.cache, s'.cache) && s' == s.(cache := s'.cache) {
      FinishInv(s, s'.cache);
    } else if EngineFinishes(s, s') {
      EngineInv(s, s');
    } else {
      HostInv(s, s'.packets, s'.reboot);
    }
  }
}
