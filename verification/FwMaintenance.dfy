/** The cache maintenance of a memory copy: every operation it starts has ended on every cache before the
    copy goes on. */
module FwMaintenance {
  import opened FwInvariant
  import opened FwSteps
  import opened FwTasks
  import opened FwTheorems
  import opened Options
  import Runs
  import Tokens

  /** The phases that wait for a cache operation. */
  predicate Maintains(phase: CopyPhase) {
    phase.FlushSource? || phase.FlushDestination? || phase.InvalidateDestination?
  }

  /** What a copy flushes before its data moves. */
  function Flushes(copy: Copy): seq<CopyPhase> {
    if copy.fromDevice && copy.toDevice then [FlushSource, FlushDestination]
    else if copy.fromDevice then [FlushSource]
    else if copy.toDevice then [FlushDestination]
    else []
  }

  /** What a copy has started maintaining once it has reached a phase. */
  function Did(copy: Copy, phase: CopyPhase): seq<CopyPhase> {
    match phase
    case FlushSource => [FlushSource]
    case FlushDestination => if copy.fromDevice then [FlushSource, FlushDestination] else [FlushDestination]
    case WaitDma => Flushes(copy)
    case InvalidateDestination => Flushes(copy) + [InvalidateDestination]
    case _ => []
  }

  // ---- Invariants -------------------------------------------------------------------------------

  /** Between operations every cache has finished the last one. */
  predicate Settled(k: Cache, holder: Option<Op>) {
    holder.None? && !k.pending && k.number > 0 ==> Finished(k, |k.run|)
  }

  /** No cache has run an operation that was not claimed yet. */
  predicate Numbered(k: Cache) {
    && (forall c | 0 <= c < |k.run| :: k.run[c] <= k.number)
    && (forall c | 0 <= c < |k.done| :: k.done[c] <= k.number)
  }

  predicate Claimed(op: Op) {
    op.stage.Start? || op.stage.Mark?
  }

  /** The phase the copy has started the maintenance for. */
  function Reached(phase: CopyPhase, pc: CopyPc): CopyPhase {
    if pc.MEnter? || (pc.MOp? && Claimed(pc.op)) then pc.next else phase
  }

  /** The phase suits the direction of the copy. */
  predicate Suits(copy: Copy, phase: CopyPhase) {
    && (phase.FlushSource? ==> copy.fromDevice)
    && (phase.FlushDestination? || phase.InvalidateDestination? ==> copy.toDevice)
  }

  /** The copy goes from one phase to the next in order. */
  predicate PathOk(copy: Copy, pc: CopyPc) {
    && Suits(copy, copy.phase)
    && (pc.MTry? || pc.MOp? || pc.MEnter? ==> Suits(copy, pc.next))
    && (pc.MTry? || pc.MOp? ==>
          && Maintains(pc.next) && Did(copy, pc.next) == Did(copy, copy.phase) + [pc.next]
          && pc.op.icache == pc.op.invalidates == pc.next.InvalidateDestination? && pc.op.dcache)
    && (pc.MDma? || pc == MEnter(WaitDma) ==> Did(copy, copy.phase) == Flushes(copy))
    && (pc == MPublish(Tokens.SUCCESS, false) ==>
          copy.empty || (if copy.toDevice then copy.phase.InvalidateDestination? else copy.phase.WaitDma?))
  }

  /** The operation last claimed is the one for the phase reached. */
  predicate UpkeepOk(copy: Copy, pc: CopyPc, k: Cache, upkeep: Upkeep) {
    var phase := Reached(copy.phase, pc);
    && (!phase.Idle? && !phase.DrainDma? ==> upkeep.phases == Did(copy, phase))
    && (Maintains(phase) && (pc.MOp? ==> Claimed(pc.op)) ==>
          && upkeep.number == k.number > 0
          && k.icache == k.invalidates == phase.InvalidateDestination? && k.dcache)
    && (Maintains(copy.phase) && (pc.MTry? || pc.MDma? || pc == MPublish(Tokens.SUCCESS, false)) ==> !k.pending)
  }

  ghost predicate Kept(s: State) {
    && Settled(s.cache, Holder(s.dispatch, s.copyTask)) && Numbered(s.cache)
    && (s.copy.active ==> PathOk(s.copy, s.copyTask) && UpkeepOk(s.copy, s.copyTask, s.cache, s.upkeep))
  }

  // ---- Steps of the other tasks -------------------------------------------------------------------

  /** What a step must leave alone when it is none of the copy task's. */
  lemma {:induction false} KeptFrame(s: State, s': State)
    requires Kept(s) && s'.copy == s.copy && s'.copyTask == s.copyTask && s'.upkeep == s.upkeep
    requires (s'.cache.number, s'.cache.icache, s'.cache.dcache) == (s.cache.number, s.cache.icache, s.cache.dcache)
    requires s'.cache.invalidates == s.cache.invalidates
    requires s'.cache.pending ==> s.cache.pending
    requires Settled(s'.cache, Holder(s'.dispatch, s'.copyTask)) && Numbered(s'.cache)
    ensures Kept(s')
  {
  }

  lemma {:induction false} StepOpSettled(k: Cache, op: Op)
    requires HeldOk(k, Held(Some(op))) && Settled(k, Held(Some(op))) && Numbered(k)
    ensures var (k', op') := StepOp(k, op); Settled(k', Held(op')) && Numbered(k')
  {
  }

  lemma {:induction false} DispatchOpMoves(s: State)
    requires s.dispatch.DOp? && s.copyTask.MTop?
    ensures var (k, op) := StepOp(s.cache, s.dispatch.op);
            var s' := DispatchOp(s);
            && s'.cache == k && Holder(s'.dispatch, s'.copyTask) == Held(op)
            && s'.copy == s.copy && s'.copyTask == s.copyTask
  {
  }

  lemma {:induction false} DispatchOpKept(s: State)
    requires Apart(s) && Kept(s) && s.dispatch.DOp? && HeldOk(s.cache, Holder(s.dispatch, s.copyTask))
    ensures Kept(DispatchOp(s))
  {
    DispatchOpMoves(s);
    StepOpSettled(s.cache, s.dispatch.op);
  }

  /** A step of the dispatch task outside a cache operation. */
  lemma {:induction false} DispatchTouches(s: State, s': State)
    requires DispatchStep(s, s') && !s.dispatch.DOp?
    ensures s'.cache == s.cache && s'.copyTask == s.copyTask
    ensures s'.dispatch.DOp? ==> s'.dispatch.op.stage.Wait?
    ensures (s'.copy == s.copy && s'.upkeep == s.upkeep) || (SubmitStep(s, s') && !s.dispatch.DActivate?)
            || (s.dispatch.DActivate? && s'.copy == s.copy.(active := true) && s'.upkeep == Upkeep([], 0))
  {
    if LaunchStep(s, s') {
      LaunchTouches(s, s');
    } else if SubmitStep(s, s') {
      SubmitTouches(s, s');
    }
  }

  lemma {:induction false} SubmitTouches(s: State, s': State)
    requires SubmitStep(s, s')
    ensures s'.cache == s.cache && s'.copyTask == s.copyTask && !s'.dispatch.DOp?
    ensures s.dispatch.DActivate? ==> s'.copy == s.copy.(active := true) && s'.upkeep == Upkeep([], 0)
  {
  }

  lemma {:induction false} DispatchKept(s: State, s': State)
    requires Apart(s) && CacheOk(s) && DmaOk(s) && Kept(s) && DispatchStep(s, s')
    ensures Kept(s')
  {
    if s.dispatch.DOp? {
      assert s' == s.(dispatch := Goto(s)) || s' == DispatchOp(s);
      DispatchOpKept(s);
    } else {
      DispatchTouches(s, s');
      if s'.copy == s.copy && s'.upkeep == s.upkeep {
        KeptFrame(s, s');
      }
    }
  }

  /** The cache retirer changes no more of the caches than that an operation is over. */
  lemma {:induction false} CacheRetireTouches(s: State)
    ensures var s' := CacheRetire(s);
            && (s'.dispatch, s'.copyTask, s'.copy, s'.upkeep) == (s.dispatch, s.copyTask, s.copy, s.upkeep)
            && s'.cache == s.cache.(token := s'.cache.token, pending := s'.cache.pending)
            && (s'.cache.pending != s.cache.pending ==> s.cacheRetire.CDropPending? && !s'.cache.pending)
  {
    match s.cacheRetire
    case CDropToken => assert CacheRetire(s).cache == s.cache.(token := None);
    case CDropPending => assert CacheRetire(s).cache == s.cache.(pending := false);
    case _ => assert CacheRetire(s).cache == s.cache;
  }

  lemma {:induction false} CacheRetireKept(s: State)
    requires CacheOk(s) && Kept(s)
    ensures Kept(CacheRetire(s))
  {
    var s' := CacheRetire(s);
    CacheRetireTouches(s);
    RetiredSettled(s.cache, s'.cache, Holder(s.dispatch, s.copyTask), s.cacheRetire);
    KeptFrame(s, s');
  }

  lemma {:induction false} RetiredSettled(k: Cache, k': Cache, holder: Option<Op>, pc: CachePc)
    requires Settled(k, holder) && Numbered(k) && ScanOk(k, holder, pc)
    requires k' == k.(token := k'.token, pending := k'.pending)
    requires k'.pending != k.pending ==> pc.CDropPending? && !k'.pending
    ensures Settled(k', holder) && Numbered(k')
  {
  }

  lemma {:induction false} FinishSettled(k: Cache, k': Cache, holder: Option<Op>)
    requires |k.done| == |k.run| && HeldOk(k, holder) && Settled(k, holder) && Numbered(k)
    requires CacheFinishes(k, k')
    ensures Settled(k', holder) && Numbered(k')
  {
  }

  lemma {:induction false} FinishKept(s: State, k: Cache)
    requires CacheOk(s) && Kept(s) && CacheFinishes(s.cache, k)
    ensures Kept(s.(cache := k))
  {
    FinishSettled(s.cache, k, Holder(s.dispatch, s.copyTask));
    KeptFrame(s, s.(cache := k));
  }

  /** The environment leaves the tasks alone, and the caches too unless one of them finishes. */
  lemma {:induction false} EnvTouches(s: State, s': State)
    requires |s.cache.done| == |s.cache.run| && EnvStep(s, s')
    ensures (s'.dispatch, s'.copyTask, s'.copy, s'.upkeep) == (s.dispatch, s.copyTask, s.copy, s.upkeep)
    ensures s'.cache == s.cache || (CacheFinishes(s.cache, s'.cache) && s' == s.(cache := s'.cache))
  {
  }

  lemma {:induction false} EnvKept(s: State, s': State)
    requires CacheOk(s) && Kept(s) && EnvStep(s, s')
    ensures Kept(s')
  {
    EnvTouches(s, s');
    if s'.cache != s.cache {
      FinishKept(s, s'.cache);
    }
  }

  // ---- Steps of the copy task ---------------------------------------------------------------------

  lemma {:induction false} SwitchKept(s: State)
    requires Apart(s) && Kept(s) && s.copyTask.MSwitch?
    ensures Kept(s.(copyTask := Switch(s)))
  {
    assert [FlushSource] + [FlushDestination] == [FlushSource, FlushDestination];
  }

  lemma {:induction false} BeginKept(s: State)
    requires DmaOk(s) && Apart(s) && Kept(s) && s.copyTask.MBegin?
    ensures Kept(s.(copyTask := Begin(s.copy)))
  {
    assert forall phase: CopyPhase :: [] + [phase] == [phase];
  }

  lemma {:induction false} TryKept(s: State)
    requires Apart(s) && Kept(s) && s.copyTask.MTry?
    ensures s.copyTask.op.stage.Wait? ==> Kept(s.(copyTask := CopyGoto(s)))
  {
  }

  lemma {:induction false} CopyGotoKept(s: State)
    requires Inv(s) && Kept(s)
    ensures Kept(s.(copyTask := CopyGoto(s)))
  {
    match s.copyTask
    case MSwitch => SwitchKept(s);
    case MBegin => BeginKept(s);
    case MTry(_, _) => TryKept(s);
    case _ =>
  }

  /** The copy's own progress through an operation. */
  lemma {:induction false} CopyOpUpkeep(s: State)
    requires Apart(s) && DmaOk(s) && Kept(s) && s.copyTask.MOp? && StageOk(s.cache, s.copyTask.op)
    requires !s.copyTask.op.waits
    ensures var s' := CopyOp(s); PathOk(s'.copy, s'.copyTask) && UpkeepOk(s'.copy, s'.copyTask, s'.cache, s'.upkeep)
  {
  }

  lemma {:induction false} CopyOpKept(s: State)
    requires Apart(s) && CacheOk(s) && DmaOk(s) && Kept(s) && s.copyTask.MOp?
    ensures Kept(CopyOp(s))
  {
    var op := s.copyTask.op;
    assert !s.dispatch.DOp? && Holder(s.dispatch, s.copyTask) == Held(Some(op));
    StepOpSettled(s.cache, op);
    CopyOpUpkeep(s);
  }

  lemma {:induction false} EnterKept(s: State)
    requires Apart(s) && Kept(s) && s.copyTask.MEnter?
    ensures Kept(CopyStore(s))
  {
  }

  /** A copy that has published goes on in no phase that maintains. */
  lemma {:induction false} PublishKept(s: State)
    requires Kept(s) && s.copyTask.MPublish?
    ensures Kept(CopyStore(s))
  {
  }

  lemma {:induction false} AfterKept(s: State)
    requires Kept(s) && s.copyTask.MAfter?
    ensures Kept(CopyStore(s))
  {
  }

  lemma {:induction false} InactiveKept(s: State)
    requires Kept(s) && s.copyTask.MInactive?
    ensures Kept(CopyStore(s))
  {
  }

  lemma {:induction false} DmaKept(s: State)
    requires Apart(s) && DmaOk(s) && Kept(s) && s.copyTask.MDma?
    ensures Kept(CopyStore(s))
  {
  }

  lemma {:induction false} CopyStoreKept(s: State)
    requires Inv(s) && Kept(s)
    ensures Kept(CopyStore(s))
  {
    match s.copyTask
    case MEnter(_) => EnterKept(s);
    case MDma(_) => DmaKept(s);
    case MPublish(_, _) => PublishKept(s);
    case MAfter(_) => AfterKept(s);
    case MInactive => InactiveKept(s);
    case _ => assert CopyStore(s) == s;
  }

  lemma {:induction false} CopyKept(s: State, s': State)
    requires Inv(s) && Kept(s) && CopyStep(s, s')
    ensures Kept(s')
  {
    if s' == s.(copyTask := CopyGoto(s)) {
      CopyGotoKept(s);
    } else if s' == CopyStore(s) {
      CopyStoreKept(s);
    } else if s.copyTask.MOp? {
      CopyOpKept(s);
    }
  }

  // ---- Every run ------------------------------------------------------------------------------------

  lemma {:induction false} StepKept(s: State, s': State)
    requires Inv(s) && Kept(s) && Step(s, s')
    ensures Kept(s')
  {
    if EnvStep(s, s') {
      EnvKept(s, s');
    } else if DispatchStep(s, s') {
      DispatchKept(s, s');
    } else if RetireStep(s, s') {
      RetireTouches(s, s');
    } else if s' == CacheRetire(s) {
      CacheRetireKept(s);
    } else {
      CopyKept(s, s');
    }
  }

  ghost predicate Both(s: State) {
    Inv(s) && Kept(s)
  }

  lemma {:induction false} ReachableKept(s: State)
    requires Reachable(s)
    ensures Inv(s) && Kept(s)
  {
    forall s | Init(s) ensures Both(s) {
      InitInv(s);
    }
    forall s, s' | Both(s) && Step(s, s') ensures Both(s') {
      StepInv(s, s');
      StepKept(s, s');
    }
    Runs.HoldsWhenReached(Init, Step, Both, s);
  }

  // ---- What the copy may rely on ------------------------------------------------------------------

  /** The D-cache of every SM, and for an invalidation its I-cache too, has finished operation `number`, and
      none is running. */
  predicate Maintained(k: Cache, invalidates: bool, number: nat) {
    && |k.done| == |k.run| && (k.number, k.invalidates) == (number, invalidates)
    && forall c | 0 <= c < |k.run| :: k.run[c] == 0 && (invalidates || c % 2 == 1 ==> k.done[c] == number)
  }

  /** A memory copy leaves a maintenance phase other than by a timeout only when every cache has finished
      the operation the copy started for that phase. */
  lemma {:induction false} PhaseEndsMaintained(s: State)
    requires Reachable(s) && s.copy.active && Maintains(s.copy.phase)
    requires s.copyTask.MTry? || s.copyTask.MDma? || s.copyTask == MPublish(Tokens.SUCCESS, false)
    ensures s.upkeep.number > 0 && Maintained(s.cache, s.copy.phase.InvalidateDestination?, s.upkeep.number)
    ensures s.upkeep.phases == Did(s.copy, s.copy.phase)
  {
    ReachableKept(s);
  }

  /** No DMA engine starts before every D-cache has been flushed for the source and for the destination. */
  lemma {:induction false} DmaAfterFlushes(s: State)
    requires Reachable(s) && s.copyTask.MDma?
    ensures s.upkeep.phases == Flushes(s.copy)
    ensures Flushes(s.copy) != [] ==> Maintained(s.cache, false, s.upkeep.number)
  {
    ReachableKept(s);
    if Flushes(s.copy) != [] {
      assert Maintains(s.copy.phase) && !s.copy.phase.InvalidateDestination? by {
        assert |Did(s.copy, s.copy.phase)| == |Flushes(s.copy)|;
      }
      PhaseEndsMaintained(s);
    }
  }

  /** A copy to the device that moved data reports success only when every I-cache and D-cache has been
      invalidated after it. */
  lemma {:induction false} SuccessAfterInvalidate(s: State)
    requires Reachable(s) && s.copyTask == MPublish(Tokens.SUCCESS, false) && !s.copy.empty
    ensures s.upkeep.phases == Flushes(s.copy) + (if s.copy.toDevice then [InvalidateDestination] else [])
    ensures s.copy.toDevice ==> Maintained(s.cache, true, s.upkeep.number)
  {
    ReachableKept(s);
    if s.copy.toDevice {
      PhaseEndsMaintained(s);
    } else {
      assert Flushes(s.copy) + [] == Flushes(s.copy);
    }
  }
}
