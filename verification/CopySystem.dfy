/** The firmware's tasks and the memory a copy works on as one system. The firmware moves the copy from phase
    to phase; the caches and the DMA engine do the work; a controller or an engine reports the end of its
    work only when nothing is left of it. */
module CopySystem {
  import M = CopyCoherence
  import CopyTheorems
  import F = FwTasks
  import FwInvariant
  import FwMaintenance
  import FwSteps
  import FwTheorems
  import Runs
  import Tokens

  datatype Node = Node(fw: F.State, mem: M.State)

  /** `mem` is about a copy of this direction, with or without data. */
  predicate Matches(mem: M.State, copy: F.Copy) {
    && M.FromDevice(mem) == copy.fromDevice && M.ToDevice(mem) == copy.toDevice
    && (mem.size == 0 <==> copy.empty)
  }

  /** The phase of the memory that goes with a phase of the firmware, with nothing done yet. */
  function Fresh(phase: F.CopyPhase): M.Phase {
    match phase
    case FlushSource => M.FlushSource({})
    case FlushDestination => M.FlushDestination({})
    case WaitDma => M.WaitDma({})
    case InvalidateDestination => M.InvalidateDestination({})
    case _ => M.Begin
  }

  /** A copy between host and host passes no check of the firmware, and moves nothing here. */
  predicate HasDevice(copy: F.Copy) {
    copy.fromDevice || copy.toDevice
  }

  function Success(): F.CopyPc {
    F.MPublish(Tokens.SUCCESS, false)
  }

  predicate SamePhase(p: M.Phase, phase: F.CopyPhase) {
    match phase
    case WaitPredecessor => p.Begin?
    case FlushSource => p.FlushSource?
    case FlushDestination => p.FlushDestination?
    case WaitDma => p.WaitDma?
    case InvalidateDestination => p.InvalidateDestination?
    case _ => false
  }

  // ---- Steps ------------------------------------------------------------------------------------

  predicate CacheWorks(k: F.Cache) {
    exists c | 0 <= c < |k.run| :: k.run[c] != 0
  }

  /** A line is evicted at any time; lines are maintained while a cache runs an operation, and bytes move
      while an engine works. */
  ghost predicate Hardware(n: Node, mem: M.State) {
    && M.Shape(n.mem)
    && (|| M.Evict(n.mem, mem)
        || (CacheWorks(n.fw.cache) && (M.Flush(n.mem, mem) || M.Invalidate(n.mem, mem)))
        || (!F.DmaIdle(n.fw.dma) && M.Move(n.mem, mem)))
  }

  /** What a step of the copy task out of `pc` means for the memory. */
  ghost predicate Follows(pc: F.CopyPc, copy: F.Copy, mem: M.State, mem': M.State) {
    match pc
    case MBegin => M.Init(mem') && Matches(mem', copy)
    case MOp(op, next) => mem' == if op.stage.Claim? then mem.(phase := Fresh(next)) else mem
    case MDma(_) => mem' == mem.(phase := M.WaitDma({}))
    case MPublish(_, _) =>
      mem' == if pc == Success() then mem.(phase := M.Succeeded) else mem.(failed := true)
    case _ => mem' == mem
  }

  predicate OpEnded(s: F.State) {
    FwInvariant.Finished(s.cache, |s.cache.run|)
  }

  /** The last cache to finish the copy's operation, and the engine that moves its data, have nothing left. */
  ghost predicate EndsAreReal(s: F.State, s': F.State, mem: M.State) {
    && (s'.cache.run != s.cache.run && OpEnded(s') && s.upkeep.number == s.cache.number ==> M.NothingLeft(mem))
    && (s'.dma != s.dma && F.UsedEngine(s').Done? && mem.phase.WaitDma? ==> M.NothingLeft(mem))
  }

  /** A step of the copy task, which takes the memory along. */
  ghost predicate CopyMoves(n: Node, n': Node) {
    && n'.fw.copyTask != n.fw.copyTask && !n.fw.dispatch.DJumped? && |n.fw.cache.done| == |n.fw.cache.run|
    && F.CopyStep(n.fw, n'.fw)
    && (if HasDevice(n.fw.copy) then Follows(n.fw.copyTask, n.fw.copy, n.mem, n'.mem) else n'.mem == n.mem)
  }

  ghost predicate OthersMove(n: Node, n': Node) {
    && n'.fw.copyTask == n.fw.copyTask && FwTheorems.Step(n.fw, n'.fw)
    && n'.mem == n.mem && EndsAreReal(n.fw, n'.fw, n.mem)
  }

  ghost predicate Step(n: Node, n': Node) {
    || (n'.fw == n.fw && Hardware(n, n'.mem))
    || CopyMoves(n, n')
    || OthersMove(n, n')
  }

  ghost predicate Init(n: Node) {
    F.Init(n.fw) && M.Init(n.mem) && |n.fw.cache.run| >= 2
  }

  ghost predicate Reachable(n: Node) {
    Runs.Reachable(Init, Step, n)
  }

  // ---- How the two fit together -------------------------------------------------------------------

  /** The copy has begun to maintain or to move data, and has not published. */
  predicate Engaged(phase: F.CopyPhase, pc: F.CopyPc) {
    match pc
    case MTop => FwMaintenance.Maintains(phase) || phase.WaitDma?
    case MSwitch => FwMaintenance.Maintains(phase) || phase.WaitDma?
    case MKernels(_) => false
    case MBegin => false
    case MAfter(_) => false
    case MInactive => false
    case _ => true
  }

  predicate Unclaimed(pc: F.CopyPc) {
    pc.MOp? && !FwMaintenance.Claimed(pc.op)
  }

  /** The copy is about to go on. */
  predicate GoesOn(pc: F.CopyPc) {
    pc.MTry? || Unclaimed(pc) || pc.MDma? || pc == Success()
  }

  function Target(pc: F.CopyPc): M.Phase {
    match pc
    case MTry(_, next) => Fresh(next)
    case MOp(_, next) => Fresh(next)
    case MDma(_) => M.WaitDma({})
    case _ => M.Succeeded
  }

  /** Work that the firmware sees ended leaves nothing to do, and the copy goes on only then. */
  ghost predicate Fits(copy: F.Copy, pc: F.CopyPc, k: F.Cache, used: F.Engine, mem: M.State) {
    var phase := FwMaintenance.Reached(copy.phase, pc);
    && !mem.failed && Matches(mem, copy) && SamePhase(mem.phase, phase)
    && (GoesOn(pc) ==> M.NothingLeft(mem) && M.NextPhase(mem) == Target(pc))
    && (FwMaintenance.Maintains(phase) && !Unclaimed(pc) && FwInvariant.Finished(k, |k.run|) ==> M.NothingLeft(mem))
    && (phase.WaitDma? && used.Done? ==> M.NothingLeft(mem))
  }

  ghost predicate Linked(s: F.State, mem: M.State) {
    s.copy.active && HasDevice(s.copy) && Engaged(s.copy.phase, s.copyTask) ==>
      Fits(s.copy, s.copyTask, s.cache, F.UsedEngine(s), mem)
  }

  ghost predicate NodeInv(n: Node) {
    FwTheorems.Reachable(n.fw) && CopyTheorems.Reachable(n.mem) && |n.fw.cache.run| >= 2 && Linked(n.fw, n.mem)
  }

  // ---- The hardware ---------------------------------------------------------------------------------

  lemma {:induction false} MemReached(mem: M.State, mem': M.State)
    requires CopyTheorems.Reachable(mem) && M.Shape(mem) && M.Step(mem, mem')
    ensures CopyTheorems.Reachable(mem')
  {
    Runs.NextIsReached(M.Init, CopyTheorems.Goes, mem, mem');
  }

  /** The hardware works on; what was done stays done. */
  ghost predicate WorksOn(mem: M.State, mem': M.State) {
    && (mem'.width, mem'.kind, mem'.src, mem'.dst, mem'.size, mem'.failed)
       == (mem.width, mem.kind, mem.src, mem.dst, mem.size, mem.failed)
    && match mem.phase
       case FlushSource(lines) => mem'.phase.FlushSource? && lines <= mem'.phase.lines
       case FlushDestination(lines) => mem'.phase.FlushDestination? && lines <= mem'.phase.lines
       case WaitDma(bytes) => mem'.phase.WaitDma? && bytes <= mem'.phase.bytes
       case InvalidateDestination(lines) => mem'.phase.InvalidateDestination? && lines <= mem'.phase.lines
       case p => mem'.phase == p
  }

  lemma {:induction false} HardwareWorksOn(n: Node, mem: M.State)
    requires Hardware(n, mem)
    ensures WorksOn(n.mem, mem) && M.Step(n.mem, mem)
  {
  }

  lemma {:induction false} NothingStaysLeft(mem: M.State, mem': M.State)
    requires WorksOn(mem, mem')
    ensures M.NothingLeft(mem) ==> M.NothingLeft(mem')
    ensures M.NextPhase(mem') == M.NextPhase(mem) || mem.phase.Succeeded?
  {
    if M.NothingLeft(mem) {
      forall l: nat, base: nat | M.Touches(mem', base, l) ensures M.Touches(mem, base, l) {
      }
    }
  }

  lemma {:induction false} HardwareInv(n: Node, n': Node)
    requires NodeInv(n) && n'.fw == n.fw && Hardware(n, n'.mem)
    ensures NodeInv(n')
  {
    HardwareWorksOn(n, n'.mem);
    MemReached(n.mem, n'.mem);
    NothingStaysLeft(n.mem, n'.mem);
  }

  // ---- The other tasks ------------------------------------------------------------------------------

  /** What the steps of others leave of an engaged copy. */
  ghost predicate Spared(s: F.State, s': F.State) {
    && s'.copy == s.copy && s'.copyTask == s.copyTask && s'.upkeep == s.upkeep && |s'.cache.run| == |s.cache.run|
    && (s'.cache.run == s.cache.run ==>
          && s'.cache.done == s.cache.done && s'.cache.number == s.cache.number
          && s'.cache.icache == s.cache.icache && s'.cache.dcache == s.cache.dcache)
  }

  lemma {:induction false} OthersSpare(s: F.State, s': F.State)
    requires FwInvariant.Inv(s) && FwTheorems.Step(s, s') && s'.copyTask == s.copyTask
    requires s'.copy.active && Engaged(s'.copy.phase, s'.copyTask)
    ensures Spared(s, s')
  {
    if F.EnvStep(s, s') {
      FwMaintenance.EnvTouches(s, s');
    } else if F.DispatchStep(s, s') {
      DispatchSpares(s, s');
    } else if s' == F.CacheRetire(s) {
      FwMaintenance.CacheRetireTouches(s);
    } else if F.RetireStep(s, s') {
      FwSteps.RetireTouches(s, s');
    } else {
      CopyStays(s, s');
    }
  }

  lemma {:induction false} CopyStays(s: F.State, s': F.State)
    requires F.CopyStep(s, s') && s'.copyTask == s.copyTask
    ensures s' == s
  {
  }

  lemma {:induction false} DispatchSpares(s: F.State, s': F.State)
    requires FwInvariant.Apart(s) && FwInvariant.DmaOk(s) && F.DispatchStep(s, s')
    requires s'.copy.active && Engaged(s'.copy.phase, s'.copyTask)
    ensures Spared(s, s')
  {
    if !s.dispatch.DOp? {
      FwMaintenance.DispatchTouches(s, s');
    }
  }

  lemma {:induction false} OthersInv(n: Node, n': Node)
    requires NodeInv(n) && OthersMove(n, n')
    ensures NodeInv(n')
  {
    FwMaintenance.ReachableKept(n.fw);
    FwReached(n.fw, n'.fw);
    OthersLink(n.fw, n'.fw, n.mem);
    SameWidth(n.fw, n'.fw);
  }

  lemma {:induction false} FwReached(s: F.State, s': F.State)
    requires FwTheorems.Reachable(s) && FwTheorems.Step(s, s')
    ensures FwTheorems.Reachable(s')
  {
    Runs.NextIsReached(F.Init, FwTheorems.Step, s, s');
  }

  lemma {:induction false} SameWidth(s: F.State, s': F.State)
    requires FwTheorems.Step(s, s')
    ensures |s'.cache.run| == |s.cache.run|
  {
    if F.EnvStep(s, s') {
      FwMaintenance.EnvTouches(s, s');
    } else if F.DispatchStep(s, s') {
      FwTheorems.DispatchCacheMove(s, s');
      if s.dispatch.DOp? {
        OpKeepsWidth(s.cache, s.dispatch.op);
      }
    } else if s' == F.CacheRetire(s) {
      FwMaintenance.CacheRetireTouches(s);
    } else if F.RetireStep(s, s') {
      FwSteps.RetireTouches(s, s');
    } else {
      FwTheorems.CopyCacheMove(s, s');
      if s.copyTask.MOp? {
        OpKeepsWidth(s.cache, s.copyTask.op);
      }
    }
  }

  lemma {:induction false} OpKeepsWidth(k: F.Cache, op: F.Op)
    ensures |F.StepOp(k, op).0.run| == |k.run|
  {
  }

  lemma {:induction false} OthersLink(s: F.State, s': F.State, mem: M.State)
    requires FwInvariant.Inv(s) && FwMaintenance.Kept(s) && Linked(s, mem)
    requires FwTheorems.Step(s, s') && s'.copyTask == s.copyTask && EndsAreReal(s, s', mem)
    ensures Linked(s', mem)
  {
    if s'.copy.active && HasDevice(s'.copy) && Engaged(s'.copy.phase, s'.copyTask) {
      OthersSpare(s, s');
      SparedFits(s, s', mem);
    }
  }

  lemma {:induction false} SparedFits(s: F.State, s': F.State, mem: M.State)
    requires Spared(s, s') && EndsAreReal(s, s', mem) && Fits(s.copy, s.copyTask, s.cache, F.UsedEngine(s), mem)
    requires FwMaintenance.UpkeepOk(s.copy, s.copyTask, s.cache, s.upkeep)
    ensures Fits(s'.copy, s'.copyTask, s'.cache, F.UsedEngine(s'), mem)
  {
  }

  // ---- The copy task ----------------------------------------------------------------------------------

  lemma {:induction false} BeginLink(s: F.State, mem: M.State)
    requires FwInvariant.DmaOk(s) && s.copyTask.MBegin? && HasDevice(s.copy) && M.Init(mem) && Matches(mem, s.copy)
    ensures Linked(s.(copyTask := F.Begin(s.copy)), mem)
  {
  }

  /** A maintenance phase is left only when the operation has ended. */
  lemma {:induction false} SwitchEnded(s: F.State)
    requires FwInvariant.Apart(s) && FwMaintenance.Kept(s) && s.copyTask.MSwitch?
    requires FwMaintenance.Maintains(s.copy.phase)
    ensures s.cache.pending || OpEnded(s)
  {
  }

  lemma {:induction false} SwitchLink(s: F.State, mem: M.State)
    requires FwInvariant.Apart(s) && FwInvariant.DmaOk(s) && FwMaintenance.Kept(s) && s.copyTask.MSwitch?
    requires Linked(s, mem)
    ensures Linked(s.(copyTask := F.Switch(s)), mem)
  {
    if FwMaintenance.Maintains(s.copy.phase) {
      SwitchEnded(s);
    }
  }

  lemma {:induction false} OpLink(s: F.State, mem: M.State)
    requires FwInvariant.Apart(s) && FwInvariant.DmaOk(s) && FwMaintenance.Kept(s) && Linked(s, mem)
    requires s.copyTask.MOp? && !s.copyTask.op.stage.Claim? && HasDevice(s.copy)
    requires FwInvariant.StageOk(s.cache, s.copyTask.op) && !s.copyTask.op.waits
    requires s.cache.pending ==> s.cache.number > 0
    ensures Linked(F.CopyOp(s), mem)
  {
  }

  /** Nothing has been done yet of an operation that is just claimed. */
  lemma {:induction false} JustClaimed(s: F.State)
    requires FwMaintenance.Numbered(s.cache) && |s.cache.done| == |s.cache.run| >= 2
    requires s.copyTask.MOp? && s.copyTask.op.stage.Claim? && s.cache.dcache
    ensures !OpEnded(F.CopyOp(s))
  {
    var k := F.CopyOp(s).cache;
    assert F.Targets(k.icache, k.dcache, 1) && k.done[1] != k.number;
  }

  lemma {:induction false} ClaimLink(s: F.State, mem: M.State)
    requires FwInvariant.Apart(s) && FwInvariant.DmaOk(s) && FwMaintenance.Kept(s) && Linked(s, mem)
    requires s.copyTask.MOp? && s.copyTask.op.stage.Claim? && HasDevice(s.copy)
    requires FwInvariant.StageOk(s.cache, s.copyTask.op) && |s.cache.done| == |s.cache.run| >= 2
    ensures M.NothingLeft(mem) && !mem.failed && M.NextPhase(mem) == Fresh(s.copyTask.next)
    ensures Linked(F.CopyOp(s), mem.(phase := Fresh(s.copyTask.next)))
  {
    JustClaimed(s);
  }

  lemma {:induction false} DmaLink(s: F.State, mem: M.State)
    requires FwInvariant.Apart(s) && FwInvariant.DmaOk(s) && Linked(s, mem) && s.copyTask.MDma? && HasDevice(s.copy)
    ensures M.NothingLeft(mem) && !mem.failed && M.NextPhase(mem) == M.WaitDma({})
    ensures Linked(F.CopyStore(s), mem.(phase := M.WaitDma({})))
  {
  }

  lemma {:induction false} EnterLink(s: F.State, mem: M.State)
    requires FwInvariant.Apart(s) && FwInvariant.DmaOk(s) && Linked(s, mem) && s.copyTask.MEnter?
    ensures Linked(F.CopyStore(s), mem)
  {
  }

  lemma {:induction false} PublishLink(s: F.State, mem: M.State)
    requires FwInvariant.Apart(s) && Linked(s, mem) && s.copyTask.MPublish? && HasDevice(s.copy)
    ensures !mem.failed && !mem.phase.Succeeded?
    ensures s.copyTask == Success() ==> M.NothingLeft(mem) && M.NextPhase(mem) == M.Succeeded
    ensures forall m :: Linked(F.CopyStore(s), m)
  {
  }

  lemma {:induction false} TryLink(s: F.State, mem: M.State)
    requires FwInvariant.Apart(s) && Linked(s, mem) && s.copyTask.MTry? && s.copyTask.op.stage.Wait?
    ensures Linked(s.(copyTask := F.CopyGoto(s)), mem)
  {
  }

  /** The steps of the copy task before it begins and after it has published. */
  lemma {:induction false} PlainLink(s: F.State, s': F.State, mem: M.State)
    requires FwInvariant.Apart(s) && FwInvariant.DmaOk(s) && Linked(s, mem) && F.CopyStep(s, s')
    requires s'.copyTask != s.copyTask
    requires s.copyTask.MTop? || s.copyTask.MKernels? || s.copyTask.MAfter? || s.copyTask.MInactive?
    ensures Linked(s', mem)
  {
  }

  /** A timeout. */
  lemma {:induction false} TimeoutLink(s: F.State, mem: M.State)
    requires FwInvariant.Apart(s) && FwInvariant.DmaOk(s) && Linked(s, mem) && s.copyTask.MSwitch?
    requires F.MayTimeOut(s.copy.phase)
    ensures Linked(s.(faulted := true, copyTask := F.MPublish(F.FAILURE, true)), mem)
  {
  }

  lemma {:induction false} AdvanceReached(mem: M.State)
    requires CopyTheorems.Reachable(mem) && M.NothingLeft(mem) && !mem.failed
    ensures CopyTheorems.Reachable(mem.(phase := M.NextPhase(mem)))
  {
    CopyTheorems.ReachableInv(mem);
    MemReached(mem, mem.(phase := M.NextPhase(mem)));
  }

  lemma {:induction false} GiveUpReached(mem: M.State)
    requires CopyTheorems.Reachable(mem) && !mem.phase.Succeeded?
    ensures CopyTheorems.Reachable(mem.(failed := true))
  {
    CopyTheorems.ReachableInv(mem);
    MemReached(mem, mem.(failed := true));
  }

  lemma {:induction false} SwitchMoves(s: F.State, s': F.State, mem: M.State)
    requires FwInvariant.Apart(s) && FwInvariant.DmaOk(s) && FwMaintenance.Kept(s) && Linked(s, mem)
    requires F.CopyStep(s, s') && s'.copyTask != s.copyTask && s.copyTask.MSwitch?
    ensures Linked(s', mem)
  {
    SwitchLink(s, mem);
    if s' != s.(copyTask := F.Switch(s)) {
      TimeoutLink(s, mem);
    }
  }

  /** An operation of the copy moves on. */
  lemma {:induction false} OpMoves(s: F.State, mem: M.State, mem': M.State)
    requires FwInvariant.Apart(s) && FwInvariant.CacheOk(s) && FwInvariant.DmaOk(s) && FwMaintenance.Kept(s)
    requires Linked(s, mem) && CopyTheorems.Reachable(mem) && |s.cache.run| >= 2 && HasDevice(s.copy)
    requires s.copyTask.MOp? && Follows(s.copyTask, s.copy, mem, mem')
    ensures Linked(F.CopyOp(s), mem') && CopyTheorems.Reachable(mem')
  {
    OpStage(s);
    if s.copyTask.op.stage.Claim? {
      ClaimLink(s, mem);
      AdvanceReached(mem);
    } else {
      OpLink(s, mem);
    }
  }

  /** The copy task stores to its state, to an engine or to a slot. */
  lemma {:induction false} StoreMoves(s: F.State, mem: M.State, mem': M.State)
    requires FwInvariant.Apart(s) && FwInvariant.DmaOk(s) && Linked(s, mem) && CopyTheorems.Reachable(mem)
    requires s.copyTask.MDma? || s.copyTask.MEnter? || s.copyTask.MPublish?
    requires HasDevice(s.copy) && Follows(s.copyTask, s.copy, mem, mem')
    ensures Linked(F.CopyStore(s), mem') && CopyTheorems.Reachable(mem')
  {
    if s.copyTask.MDma? {
      DmaLink(s, mem);
      AdvanceReached(mem);
    } else if s.copyTask.MEnter? {
      EnterLink(s, mem);
    } else {
      PublishLink(s, mem);
      if s.copyTask == Success() {
        AdvanceReached(mem);
      } else {
        GiveUpReached(mem);
      }
    }
  }

  /** Which function a step of the copy task follows. */
  lemma {:induction false} CopyStepIs(s: F.State, s': F.State)
    requires F.CopyStep(s, s') && s'.copyTask != s.copyTask
    ensures s.copyTask.MBegin? ==> s' == s.(copyTask := F.Begin(s.copy))
    ensures s.copyTask.MTry? ==> s' == s.(copyTask := F.CopyGoto(s))
    ensures s.copyTask.MOp? ==> s' == F.CopyOp(s)
    ensures s.copyTask.MDma? || s.copyTask.MEnter? || s.copyTask.MPublish? ==> s' == F.CopyStore(s)
  {
  }

  /** A step of the copy task takes the memory along by one of its own steps, or leaves it. */
  lemma {:induction false} CopyMemory(s: F.State, s': F.State, mem: M.State, mem': M.State)
    requires FwInvariant.Apart(s) && FwInvariant.CacheOk(s) && FwInvariant.DmaOk(s) && FwMaintenance.Kept(s)
    requires Linked(s, mem) && CopyTheorems.Reachable(mem) && |s.cache.run| >= 2 && HasDevice(s.copy)
    requires F.CopyStep(s, s') && s'.copyTask != s.copyTask && Follows(s.copyTask, s.copy, mem, mem')
    ensures Linked(s', mem') && CopyTheorems.Reachable(mem')
  {
    CopyStepIs(s, s');
    match s.copyTask
    case MBegin =>
      BeginLink(s, mem');
      Runs.InitialIsReached(M.Init, CopyTheorems.Goes, mem');
    case MSwitch => SwitchMoves(s, s', mem);
    case MTry(_, _) => TryLink(s, mem);
    case MOp(_, _) => OpMoves(s, mem, mem');
    case MDma(_) => StoreMoves(s, mem, mem');
    case MEnter(_) => StoreMoves(s, mem, mem');
    case MPublish(_, _) => StoreMoves(s, mem, mem');
    case _ => PlainLink(s, s', mem);
  }

  lemma {:induction false} OpStage(s: F.State)
    requires FwInvariant.Apart(s) && FwInvariant.CacheOk(s) && s.copyTask.MOp?
    ensures FwInvariant.StageOk(s.cache, s.copyTask.op) && !s.copyTask.op.waits
    ensures |s.cache.done| == |s.cache.run| && (s.cache.pending ==> s.cache.number > 0)
  {
    assert !s.dispatch.DOp?;
  }

  /** A host-to-host copy stays one. */
  lemma {:induction false} IdleMemory(s: F.State, s': F.State, mem: M.State)
    requires F.CopyStep(s, s') && !HasDevice(s.copy)
    ensures Linked(s', mem)
  {
  }

  lemma {:induction false} CopyMovesInv(n: Node, n': Node)
    requires NodeInv(n) && CopyMoves(n, n')
    ensures NodeInv(n')
  {
    FwMaintenance.ReachableKept(n.fw);
    FwReached(n.fw, n'.fw);
    SameWidth(n.fw, n'.fw);
    if HasDevice(n.fw.copy) {
      CopyMemory(n.fw, n'.fw, n.mem, n'.mem);
    } else {
      IdleMemory(n.fw, n'.fw, n.mem);
    }
  }

  // ---- Every run ------------------------------------------------------------------------------------------

  lemma {:induction false} InitInv(n: Node)
    requires Init(n)
    ensures NodeInv(n)
  {
    Runs.InitialIsReached(F.Init, FwTheorems.Step, n.fw);
    Runs.InitialIsReached(M.Init, CopyTheorems.Goes, n.mem);
  }

  lemma {:induction false} StepInv(n: Node, n': Node)
    requires NodeInv(n) && Step(n, n')
    ensures NodeInv(n')
  {
    if n'.fw == n.fw && Hardware(n, n'.mem) {
      HardwareInv(n, n');
    } else if CopyMoves(n, n') {
      CopyMovesInv(n, n');
    } else {
      OthersInv(n, n');
    }
  }

  lemma {:induction false} ReachableInv(n: Node)
    requires Reachable(n)
    ensures NodeInv(n)
  {
    forall n | Init(n) ensures NodeInv(n) {
      InitInv(n);
    }
    forall n, n' | NodeInv(n) && Step(n, n') ensures NodeInv(n') {
      StepInv(n, n');
    }
    Runs.HoldsWhenReached(Init, Step, NodeInv, n);
  }

  // ---- What the system promises -----------------------------------------------------------------------------

  /** Byte `i` of the destination is the source's byte as it was when the copy began, to the device too, and
      no cache holds its line. */
  ghost predicate CopiedAt(mem: M.State, i: nat)
    requires M.Shape(mem) && i < mem.size
  {
    var (from, to) := (mem.src + i, mem.dst + i);
    && (mem.kind.DeviceToHost? ==> mem.host[to] == mem.before[from])
    && (mem.kind.DeviceToDevice? ==> M.Visible(mem, to) == mem.mem[to] == mem.before[from])
    && (mem.kind.HostToDevice? ==> M.Visible(mem, to) == mem.mem[to] == mem.outside[from])
    && (M.ToDevice(mem) ==> to / mem.width !in mem.dcache && to / mem.width !in mem.icache)
  }

  /** When the firmware publishes success for a memory copy, the data has been copied and the caches agree
      with memory. */
  lemma {:induction false} PublishedMeansCopied(n: Node, n': Node)
    requires Reachable(n) && CopyMoves(n, n') && n.fw.copyTask == Success() && HasDevice(n.fw.copy)
    ensures Matches(n.mem, n.fw.copy) && n'.mem == n.mem.(phase := M.Succeeded)
    ensures M.Shape(n'.mem) && M.Coherent(n'.mem) && forall i: nat | i < n'.mem.size :: CopiedAt(n'.mem, i)
  {
    PublishedFits(n);
    assert CopyTheorems.Reachable(n'.mem) by {
      Runs.NextIsReached(Init, Step, n, n');
      ReachableInv(n');
    }
    SucceededIsCopied(n'.mem);
  }

  lemma {:induction false} PublishedFits(n: Node)
    requires Reachable(n) && n.fw.copyTask == Success() && HasDevice(n.fw.copy)
    ensures Matches(n.mem, n.fw.copy)
  {
    assert FwTheorems.Reachable(n.fw) && Linked(n.fw, n.mem) by {
      ReachableInv(n);
    }
    assert n.fw.copy.active by {
      FwTheorems.ReachableInv(n.fw);
    }
  }

  lemma {:induction false} SucceededIsCopied(mem: M.State)
    requires CopyTheorems.Reachable(mem) && mem.phase.Succeeded?
    ensures M.Shape(mem) && M.Coherent(mem) && forall i: nat | i < mem.size :: CopiedAt(mem, i)
  {
    CopyTheorems.SuccessIsCoherent(mem);
    forall i: nat | i < mem.size ensures CopiedAt(mem, i) {
      CopyTheorems.SuccessMeansCopied(mem, i);
    }
  }

  /** At every moment, whatever became of the copy, no byte outside its destination looks different. */
  lemma {:induction false} OthersUntouched(n: Node, a: nat)
    requires Reachable(n) && a < |n.mem.mem| && !M.InDestination(n.mem, a)
    ensures M.Shape(n.mem) && M.Visible(n.mem, a) == n.mem.before[a]
  {
    assert CopyTheorems.Reachable(n.mem) by {
      ReachableInv(n);
    }
    CopyTheorems.OtherBytesNeverChange(n.mem, a);
  }
}
