/** What every step of every task keeps, whatever the interleaving. */
module FwInvariant {
  import opened FwTasks
  import opened Options

  // ---- Who may be doing what --------------------------------------------------------------

  /** The dispatch task has seen no memory copy active and has not submitted one since. */
  predicate SawNoCopy(pc: DispatchPc) {
    !pc.DTop? && !pc.DPoll? && !pc.DPollCopy? && !pc.DReboot? && !pc.DJumped?
  }

  ghost predicate Apart(s: State) {
    && (SawNoCopy(s.dispatch) ==> !s.copy.active)
    && (!s.copyTask.MTop? ==> s.copy.active)
    && (s.dispatch.DJumped? ==> !s.copy.active)
  }

  // ---- The cache operation ----------------------------------------------------------------

  /** The operation past its wait that a task is starting, if any. */
  function Holder(dispatch: DispatchPc, copyTask: CopyPc): Option<Op> {
    if dispatch.DOp? && !dispatch.op.stage.Wait? then Some(dispatch.op)
    else if copyTask.MOp? && !copyTask.op.stage.Wait? then Some(copyTask.op)
    else None
  }

  function Held(op: Option<Op>): Option<Op> {
    if op.Some? && !op.value.stage.Wait? then op else None
  }

  predicate Quiet(k: Cache, from: nat) {
    forall c | from <= c < |k.run| :: k.run[c] == 0
  }

  /** Below `bound`, exactly the targeted caches were started, by operation `number`. */
  predicate Begun(k: Cache, bound: nat) {
    forall c | 0 <= c < |k.run| && c < |k.done| && c < bound ::
      if Targets(k.icache, k.dcache, c) then k.run[c] == k.number || (k.run[c] == 0 && k.done[c] == k.number)
      else k.run[c] == 0
  }

  /** Below `bound`, every targeted cache has finished. */
  predicate Finished(k: Cache, bound: nat) {
    forall c | 0 <= c < |k.run| && c < |k.done| && c < bound ::
      k.run[c] == 0 && (Targets(k.icache, k.dcache, c) ==> k.done[c] == k.number)
  }

  predicate Matches(k: Cache, op: Op) {
    k.icache == op.icache && k.dcache == op.dcache && k.token == op.token
  }

  predicate StageOk(k: Cache, op: Op) {
    match op.stage
    case Wait => true
    case Unmark => !k.pending && Quiet(k, 0)
    case Fill => !k.pending && !k.started && Quiet(k, 0)
    case Claim => !k.pending && !k.started && Quiet(k, 0) && Matches(k, op)
    case Start(c) => k.pending && !k.started && Matches(k, op) && Begun(k, c) && Quiet(k, c)
    case Mark => k.pending && !k.started && Matches(k, op) && Begun(k, |k.run|) && !op.waits
    case Poll(c) => k.pending && !k.started && Matches(k, op) && Begun(k, |k.run|) && Finished(k, c) && op.waits
    case Release => k.pending && !k.started && Matches(k, op) && Finished(k, |k.run|) && op.waits
  }

  predicate HeldOk(k: Cache, holder: Option<Op>) {
    match holder
    case Some(op) => StageOk(k, op)
    case None => if k.pending then k.started && Begun(k, |k.run|) else Quiet(k, 0)
  }

  predicate ScanOk(k: Cache, holder: Option<Op>, pc: CachePc) {
    match pc
    case CIdle => true
    case CSawPending => k.started ==> k.pending
    case CScan(c) => holder.None? && k.pending && k.started && Finished(k, c)
    case CDropPending => holder.None? && k.pending && k.started && Finished(k, |k.run|) && k.token.None?
    case _ => holder.None? && k.pending && k.started && Finished(k, |k.run|)
  }

  ghost predicate CacheOk(s: State) {
    var holder := Holder(s.dispatch, s.copyTask);
    && |s.cache.done| == |s.cache.run|
    && (s.cache.pending ==> s.cache.number > 0)
    && HeldOk(s.cache, holder)
    && ScanOk(s.cache, holder, s.cacheRetire)
    && (s.copyTask.MOp? && s.copyTask.op.stage.Wait? ==> !s.cache.pending)
    && (s.dispatch.DJumped? ==> !s.cache.pending)
    && (s.copyTask.MOp? ==> s.copyTask.op.token.None? && !s.copyTask.op.waits)
    && (s.copyTask.MTry? ==> s.copyTask.op.token.None? && !s.copyTask.op.waits && s.copyTask.op.stage.Wait?)
    && (s.dispatch.DOp? ==> s.dispatch.op.token == (if s.dispatch.launch then None else Some(s.dispatch.n))
                            && s.dispatch.op.waits == s.dispatch.launch)
  }

  // ---- Kernels ----------------------------------------------------------------------------

  predicate IdleBelow(kernels: seq<Kernel>, n: nat) {
    forall i | 0 <= i < |kernels| && i < n :: !kernels[i].inUse
  }

  predicate OneActive(kernels: seq<Kernel>) {
    forall i, j | 0 <= i < |kernels| && 0 <= j < |kernels| && kernels[i].inUse && kernels[j].inUse :: i == j
  }

  /** The kernel the dispatch task is setting up. */
  predicate SettingUp(pc: DispatchPc, i: nat) {
    (pc.DFields? || pc.DEnqueue?) && pc.kid == i
  }

  predicate KernelOk(s: State, i: nat)
    requires i < |s.kernels|
  {
    var k := s.kernels[i];
    && (k.launched ==> k.inUse && !SettingUp(s.dispatch, i))
    && (k.inUse && !k.launched ==> SettingUp(s.dispatch, i))
    && (k.launched && k.published <==> s.retire == RFree(i))
  }

  ghost predicate KernelsOk(s: State) {
    var n := |s.kernels|;
    && OneActive(s.kernels)
    && (forall i: nat | i < n :: KernelOk(s, i))
    && (s.retire.RPublish? ==> s.retire.kid < n && s.kernels[s.retire.kid].launched)
    && (s.retire.RFree? ==> s.retire.kid < n)
    && (match s.dispatch
        case DPollCache => |s.slots| < |s.packets|
        case DPollKernel(i) => |s.slots| < |s.packets| && IdleBelow(s.kernels, i)
        case DTake => |s.slots| < |s.packets| && (s.packets[|s.slots|].kind.Launch? ==> IdleBelow(s.kernels, n))
        case DOp(_, launch, _) => launch ==> IdleBelow(s.kernels, n)
        case DAlloc(_) => IdleBelow(s.kernels, n)
        case DInUse(_, kid) => IdleBelow(s.kernels, n) && kid < n
        case DFields(_, kid) => kid < n && s.kernels[kid].inUse
        case DEnqueue(m, kid) =>
          kid < n && s.kernels[kid].inUse && s.kernels[kid].token == m && !s.kernels[kid].published
        case DBarrierKernel(_, i) => IdleBelow(s.kernels, i)
        case DBarrierCopy(_) => IdleBelow(s.kernels, n)
        case DBarrierDone(_) => IdleBelow(s.kernels, n)
        case DJumped(_) => IdleBelow(s.kernels, n)
        case _ => true)
  }

  // ---- Memory copies and DMA --------------------------------------------------------------

  /** Where a memory copy may have an engine working. */
  predicate MayWork(phase: CopyPhase, pc: CopyPc) {
    || pc == MEnter(WaitDma)
    || (phase.DrainDma? && (pc.MTop? || pc.MSwitch?))
    || (phase.WaitDma? && (pc.MTop? || pc.MSwitch? || (pc.MPublish? && pc.fail) || (pc.MAfter? && pc.fail)))
  }

  ghost predicate DmaOk(s: State) {
    && (!DmaIdle(s.dma) ==> s.copy.active && MayWork(s.copy.phase, s.copyTask))
    && (s.dma.host.Working? ==> !(s.copy.fromDevice && s.copy.toDevice))
    && (s.dma.device.Working? ==> s.copy.fromDevice && s.copy.toDevice)
    && (s.copyTask.MDma? ==> s.copyTask.device == (s.copy.fromDevice && s.copy.toDevice)
                             && !s.copy.phase.WaitDma? && !s.copy.phase.DrainDma?)
    && (s.copyTask.MBegin? || s.copyTask.MKernels? ==> s.copy.phase.WaitPredecessor?)
    && (s.copyTask == MEnter(WaitDma) ==> !s.copy.phase.WaitDma? && !s.copy.phase.DrainDma?)
    && (s.copyTask.MTry? || s.copyTask.MOp? || s.copyTask.MEnter? ==>
          !s.copyTask.next.DrainDma? && !s.copyTask.next.Idle? && !s.copyTask.next.WaitPredecessor?)
    && (s.copyTask.MTry? || s.copyTask.MOp? ==> !s.copyTask.next.WaitDma?)
    && (s.copy.active && s.copy.phase.Idle? ==> s.copyTask.MInactive?)
    && (s.copy.active && s.copy.phase.DrainDma? ==> s.copyTask.MTop? || s.copyTask.MSwitch? || s.copyTask.MAfter?)
    && (s.dispatch.DActivate? ==> s.copy.phase.WaitPredecessor?)
  }

  // ---- Who owes which result --------------------------------------------------------------

  function DispatchOwes(pc: DispatchPc): Option<nat> {
    match pc
    case DOp(n, _, _) => Some(n)
    case DAlloc(n) => Some(n)
    case DInUse(n, _) => Some(n)
    case DFields(n, _) => Some(n)
    case DEnqueue(n, _) => Some(n)
    case DSubmit(n) => Some(n)
    case DStore(n) => Some(n)
    case DPhase(n) => Some(n)
    case DActivate(n) => Some(n)
    case DBarrier(n) => Some(n)
    case DBarrierKernel(n, _) => Some(n)
    case DBarrierCopy(n) => Some(n)
    case DBarrierDone(n) => Some(n)
    case DPublish(n, _) => Some(n)
    case DReboot(left) => left
    case DJumped(left) => left
    case _ => None
  }

  function CacheOwes(k: Cache, pc: CachePc): Option<nat> {
    if k.pending && k.started && !pc.CDropToken? && !pc.CDropPending? then k.token else None
  }

  predicate KernelOwes(kernels: seq<Kernel>, kid: nat, n: nat) {
    kid < |kernels| && kernels[kid].launched && !kernels[kid].published && kernels[kid].token == n
  }

  function CopyOwes(copy: Copy, pc: CopyPc): Option<nat> {
    if copy.active && !copy.phase.DrainDma? && !copy.phase.Idle? && !pc.MAfter? && !pc.MInactive? then Some(copy.token)
    else None
  }

  /** `by` is the one who will publish the result of command `n`. */
  predicate Owes(s: State, who: Publisher, n: nat) {
    match who
    case ByDispatch => DispatchOwes(s.dispatch) == Some(n)
    case ByCache => CacheOwes(s.cache, s.cacheRetire) == Some(n)
    case ByKernel(kid) => KernelOwes(s.kernels, kid, n)
    case ByCopy => CopyOwes(s.copy, s.copyTask) == Some(n)
  }

  /** A task owes a result exactly when the slot is pending on it. */
  ghost predicate Ledger(s: State) {
    && |s.slots| <= |s.packets|
    && (forall who, n: nat :: Owes(s, who, n) <==> n < |s.slots| && s.slots[n] == Pending(who))
  }

  ghost predicate BarrierOk(s: State) {
    && (s.dispatch.DBarrierKernel? || s.dispatch.DBarrierCopy? || s.dispatch.DBarrierDone? ==> !s.cache.pending)
    && (s.dispatch.DStore? || s.dispatch.DPhase? || s.dispatch.DActivate? || s.dispatch.DSubmit? ==>
          s.dispatch.n < |s.packets| && s.packets[s.dispatch.n].kind.MemoryCopy?)
    && (s.dispatch.DPhase? || s.dispatch.DActivate? ==> s.copy.token == s.dispatch.n)
  }

  /** Past its wait for predecessors, a memory copy runs with no kernel active. */
  ghost predicate CopyAlone(s: State) {
    && (s.copyTask.MKernels? ==> IdleBelow(s.kernels, s.copyTask.i))
    && (s.copy.active && PastPredecessors(s.copy.phase, s.copyTask) ==> IdleBelow(s.kernels, |s.kernels|))
  }

  predicate PastPredecessors(phase: CopyPhase, pc: CopyPc) {
    (!phase.WaitPredecessor? && !phase.Idle?) || pc.MBegin? || pc.MTry? || pc.MOp? || pc.MEnter? || pc.MDma?
  }

  ghost predicate Inv(s: State) {
    Apart(s) && CacheOk(s) && KernelsOk(s) && DmaOk(s) && Ledger(s) && BarrierOk(s) && CopyAlone(s)
  }

  // ---- Initially --------------------------------------------------------------------------

  lemma {:induction false} InitInv(s: State)
    requires Init(s)
    ensures Inv(s)
  {
    forall who, n: nat ensures !Owes(s, who, n) {
      assert who.ByKernel? && who.kid < |s.kernels| ==> !s.kernels[who.kid].launched;
    }
  }

  // ---- Cache operations -------------------------------------------------------------------

  /** Every step of an operation keeps it consistent with the caches, whoever started it. */
  lemma {:induction false} StepOpHeld(k: Cache, op: Op)
    requires |k.done| == |k.run| && (k.pending ==> k.number > 0) && HeldOk(k, Held(Some(op)))
    ensures var (k', op') := StepOp(k, op);
            |k'.done| == |k'.run| && (k'.pending ==> k'.number > 0) && HeldOk(k', Held(op'))
  {
    match op.stage
    case Start(_) => StartHeld(k, op);
    case Poll(_) => PollHeld(k, op);
    case Release => PollHeld(k, op);
    case Mark => MarkHeld(k, op);
    case _ => EarlyHeld(k, op);
  }

  lemma {:induction false} EarlyHeld(k: Cache, op: Op)
    requires |k.done| == |k.run| && (k.pending ==> k.number > 0) && HeldOk(k, Held(Some(op)))
    requires op.stage.Wait? || op.stage.Unmark? || op.stage.Fill? || op.stage.Claim?
    ensures var (k', op') := StepOp(k, op);
            |k'.done| == |k'.run| && (k'.pending ==> k'.number > 0) && HeldOk(k', Held(op'))
  {
  }

  lemma {:induction false} MarkHeld(k: Cache, op: Op)
    requires |k.done| == |k.run| && k.number > 0 && op.stage.Mark? && StageOk(k, op)
    ensures var (k', op') := StepOp(k, op);
            |k'.done| == |k'.run| && k'.number > 0 && HeldOk(k', Held(op'))
  {
  }

  lemma {:induction false} StartHeld(k: Cache, op: Op)
    requires |k.done| == |k.run| && k.number > 0 && op.stage.Start? && StageOk(k, op)
    ensures var (k', op') := StepOp(k, op);
            |k'.done| == |k'.run| && k'.number > 0 && HeldOk(k', Held(op'))
  {
  }

  lemma {:induction false} PollHeld(k: Cache, op: Op)
    requires |k.done| == |k.run| && k.number > 0 && (op.stage.Poll? || op.stage.Release?) && StageOk(k, op)
    ensures var (k', op') := StepOp(k, op);
            |k'.done| == |k'.run| && k'.number > 0 && HeldOk(k', Held(op'))
  {
  }

  lemma {:induction false} StepOpScan(k: Cache, op: Op, pc: CachePc)
    requires HeldOk(k, Held(Some(op))) && ScanOk(k, Held(Some(op)), pc)
    ensures var (k', op') := StepOp(k, op); ScanOk(k', Held(op'), pc)
  {
  }

  lemma {:induction false} StepOpKeeps(k: Cache, op: Op)
    ensures var (k', op') := StepOp(k, op);
            op'.Some? ==> op'.value.(stage := op.stage) == op && (op'.value.stage.Wait? ==> k.pending && k' == k)
  {
  }

  lemma {:induction false} FinishOk(k: Cache, k': Cache, holder: Option<Op>, pc: CachePc)
    requires |k.done| == |k.run| && CacheFinishes(k, k') && HeldOk(k, holder) && ScanOk(k, holder, pc)
    ensures HeldOk(k', holder) && ScanOk(k', holder, pc)
  {
  }
}
