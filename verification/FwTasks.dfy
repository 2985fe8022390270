/** The command processor's four tasks, interleaved at every access to a shared variable whose moment
    another task can tell. A task's program counter says which access comes next. */
module FwTasks {
  import opened Options
  import Tokens

  // ---- Host commands and their completion slots -------------------------------------------

  datatype Kind =
    | Launch
    | CacheOp(invalidate: bool)
    | MemoryCopy(fromDevice: bool, toDevice: bool, empty: bool)
    | Barrier
    | Unknown

  /** `valid`: the token's slot was pending when the packet was taken. `sound`: the packet passes its
      handler's checks. */
  datatype Packet = Packet(kind: Kind, valid: bool, sound: bool)

  /** Who will publish a pending command's result. */
  datatype Publisher = ByDispatch | ByCache | ByKernel(kid: nat) | ByCopy

  /** The slot of a consumed command. The publisher is history; the firmware stores only the result. */
  datatype Slot = NoSlot | Pending(publisher: Publisher) | Terminal(result: nat)

  const FAILURE: nat := 2

  // ---- Cache operations -------------------------------------------------------------------

  /** `run[c]` is the number of the operation cache `c` is running, 0 when its START bit reads 0, and
      `done[c]` the last one it finished. Cache 2*i is the I-cache of SM i, cache 2*i+1 its D-cache.
      `number` counts claims, and `invalidates` tells whether the last claimed operation drops lines
      rather than writing them back. */
  datatype Cache = Cache(
    pending: bool, started: bool, icache: bool, dcache: bool, token: Option<nat>,
    run: seq<nat>, done: seq<nat>, number: nat, invalidates: bool)

  predicate Targets(icache: bool, dcache: bool, c: int) {
    if c % 2 == 0 then icache else dcache
  }

  predicate Busy(k: Cache, c: nat)
    requires c < |k.run|
  {
    Targets(k.icache, k.dcache, c) && k.run[c] != 0
  }

  /** Progress through claim_cache_state, start_on_every_sm and what follows. */
  datatype Stage = Wait | Unmark | Fill | Claim | Start(c: nat) | Mark | Poll(c: nat) | Release

  /** `waits` distinguishes cp_cache_operation_start_and_wait from cp_cache_operation_start. */
  datatype Op = Op(stage: Stage, invalidates: bool, icache: bool, dcache: bool, token: Option<nat>, waits: bool)

  /** The caches after cache `c` was told to start if it is a target; its controller ignores a START that
      arrives while one is running. */
  function Started(k: Cache, op: Op, c: nat): seq<nat>
    requires c < |k.run|
  {
    if Targets(op.icache, op.dcache, c) && k.run[c] == 0 then k.run[c := k.number] else k.run
  }

  /** What the next access of an operation in progress stores. */
  function OpStores(k: Cache, op: Op): Cache {
    match op.stage
    case Unmark => k.(started := false)
    case Fill => k.(icache := op.icache, dcache := op.dcache, token := op.token)
    case Claim => k.(pending := true, number := k.number + 1, invalidates := op.invalidates)
    case Start(c) => if c < |k.run| then k.(run := Started(k, op, c)) else k
    case Mark => k.(started := true)
    case Release => k.(pending := false)
    case _ => k
  }

  /** Where the operation is after it; `None` when it returns. */
  function OpStage(k: Cache, op: Op): Option<Stage> {
    match op.stage
    case Wait => Some(if k.pending then Wait else Unmark)
    case Unmark => Some(Fill)
    case Fill => Some(Claim)
    case Claim => Some(Start(0))
    case Start(c) => Some(if c < |k.run| then Start(c + 1) else if op.waits then Poll(0) else Mark)
    case Mark => None
    case Poll(c) =>
      Some(if c >= |k.run| then Release
           else if Targets(op.icache, op.dcache, c) && k.run[c] != 0 then Poll(c)
           else Poll(c + 1))
    case Release => None
  }

  function OpNext(k: Cache, op: Op): Option<Op> {
    match OpStage(k, op)
    case Some(stage) => Some(op.(stage := stage))
    case None => None
  }

  function StepOp(k: Cache, op: Op): (Cache, Option<Op>) {
    (OpStores(k, op), OpNext(k, op))
  }

  /** A cache finishes the operation it is running. */
  ghost predicate CacheFinishes(k: Cache, k': Cache)
    requires |k.done| == |k.run|
  {
    exists c | 0 <= c < |k.run| :: k.run[c] != 0 && k' == k.(run := k.run[c := 0], done := k.done[c := k.run[c]])
  }

  // ---- Kernels, memory copies and DMA engines ---------------------------------------------

  datatype Kernel = Kernel(inUse: bool, token: nat, launched: bool, published: bool)

  datatype CopyPhase =
    | Idle | WaitPredecessor | FlushSource | FlushDestination | WaitDma | InvalidateDestination | DrainDma

  datatype Copy = Copy(active: bool, phase: CopyPhase, fromDevice: bool, toDevice: bool, empty: bool, token: nat)

  /** History of the current memory copy: the maintenance phases it has claimed an operation for, and the
      number of the last such operation. */
  datatype Upkeep = Upkeep(phases: seq<CopyPhase>, number: nat)

  datatype Engine = Ready | Working | Done | BusError | InvalidDescriptor

  datatype Dma = Dma(host: Engine, device: Engine)

  predicate DmaIdle(d: Dma) {
    !d.host.Working? && !d.device.Working?
  }

  // ---- Program counters -------------------------------------------------------------------

  /** cp_dispatch, with the handlers it calls. `n` is the command being handled. */
  datatype DispatchPc =
    | DTop
    | DPoll | DPollCopy | DPollCache | DPollKernel(i: nat)
    | DTake
    | DOp(n: nat, launch: bool, op: Op)
    | DAlloc(n: nat) | DInUse(n: nat, kid: nat) | DFields(n: nat, kid: nat) | DEnqueue(n: nat, kid: nat) | DMore
    | DSubmit(n: nat) | DStore(n: nat) | DPhase(n: nat) | DActivate(n: nat)
    | DBarrier(n: nat) | DBarrierKernel(n: nat, i: nat) | DBarrierCopy(n: nat) | DBarrierDone(n: nat)
    | DPublish(n: nat, result: nat)
    | DReboot(left: Option<nat>) | DJumped(left: Option<nat>)

  /** cp_retire_sm, from the last work-group of a kernel on. */
  datatype RetirePc = RIdle | RPublish(kid: nat) | RFree(kid: nat)

  /** cp_retire_cache. */
  datatype CachePc = CIdle | CSawPending | CScan(c: nat) | CPublish | CDropToken | CDropPending

  /** cp_memory_copy_task. */
  datatype CopyPc =
    | MTop | MSwitch | MKernels(i: nat) | MBegin
    | MTry(op: Op, next: CopyPhase) | MOp(op: Op, next: CopyPhase) | MEnter(next: CopyPhase)
    | MDma(device: bool)
    | MPublish(result: nat, fail: bool) | MAfter(fail: bool) | MInactive

  /** `claimed` is history: the number of the cache operation that was claimed for a command. */
  datatype State = State(
    packets: seq<Packet>, slots: seq<Slot>, cache: Cache, kernels: seq<Kernel>, copy: Copy, dma: Dma,
    faulted: bool, reboot: bool,
    dispatch: DispatchPc, retire: RetirePc, cacheRetire: CachePc, copyTask: CopyPc,
    upkeep: Upkeep, claimed: map<nat, nat>)

  function Set(slots: seq<Slot>, n: nat, slot: Slot): seq<Slot> {
    if n < |slots| then slots[n := slot] else slots
  }

  // ---- cp_dispatch ------------------------------------------------------------------------

  function LaunchOp(): Op { Op(Wait, true, false, true, None, true) }

  function PacketOp(n: nat, invalidate: bool): Op { Op(Wait, invalidate, invalidate, true, Some(n), false) }

  /** Where the dispatch task goes with a packet it has taken. */
  function Handler(s: State, p: Packet, n: nat): DispatchPc {
    if !p.valid then DTop
    else
      match p.kind
      case Launch =>
        if !p.sound then DPublish(n, FAILURE)
        else if |s.cache.run| > 2 then DOp(n, true, LaunchOp())
        else DAlloc(n)
      case CacheOp(invalidate) => if p.sound then DOp(n, false, PacketOp(n, invalidate)) else DPublish(n, FAILURE)
      case MemoryCopy(_, _, _) => DSubmit(n)
      case Barrier => DBarrier(n)
      case Unknown => DPublish(n, FAILURE)
  }

  /** The critical section that copies the packet and advances the read pointer. */
  function Take(s: State): State
    requires |s.slots| < |s.packets|
  {
    var n := |s.slots|;
    var p := s.packets[n];
    s.(slots := s.slots + [if p.valid then Pending(ByDispatch) else NoSlot], dispatch := Handler(s, p, n))
  }

  /** Where a step that only reads shared variables goes; the other steps stay where they are. */
  function Goto(s: State): DispatchPc {
    var again := if s.reboot then DReboot(None) else DPoll;
    match s.dispatch
    case DTop => if s.reboot then DReboot(None) else if s.faulted then DTop else DPoll
    case DPoll => if |s.slots| < |s.packets| then DPollCopy else again
    case DPollCopy =>
      if s.copy.active || |s.slots| >= |s.packets| then again
      else if s.packets[|s.slots|].kind.Launch? then DPollCache
      else DTake
    case DPollCache => if s.cache.pending then again else DPollKernel(0)
    case DPollKernel(i) =>
      if i >= |s.kernels| then DTake else if s.kernels[i].inUse then again else DPollKernel(i + 1)
    case DMore => DTop
    case DSubmit(n) =>
      if s.copy.active || s.faulted || (n < |s.packets| && !s.packets[n].sound) then DPublish(n, FAILURE) else DStore(n)
    case DBarrier(n) => if s.cache.pending then Rewait(s, n) else DBarrierKernel(n, 0)
    case DBarrierKernel(n, i) =>
      if i >= |s.kernels| then DBarrierCopy(n)
      else if s.kernels[i].inUse then Rewait(s, n)
      else DBarrierKernel(n, i + 1)
    case DBarrierCopy(n) => if s.copy.active then Rewait(s, n) else DBarrierDone(n)
    case DReboot(left) =>
      // Interrupts are off from the test to the jump.
      if s.cache.pending || !KernelsIdle(s) || s.copy.active || !DmaIdle(s.dma) then DReboot(left) else DJumped(left)
    case pc => pc
  }

  function Rewait(s: State, n: nat): DispatchPc {
    if s.reboot then DReboot(Some(n)) else DBarrier(n)
  }

  /** The steps that store to a kernel's state, the first enqueue among them. */
  ghost predicate LaunchStep(s: State, s': State) {
    match s.dispatch
    case DAlloc(n) =>
      exists kid: nat | kid < |s.kernels| :: !s.kernels[kid].inUse && s' == s.(dispatch := DInUse(n, kid))
    case DInUse(n, kid) =>
      kid < |s.kernels|
      && s' == s.(kernels := s.kernels[kid := s.kernels[kid].(inUse := true)], dispatch := DFields(n, kid))
    case DFields(n, kid) =>
      kid < |s.kernels|
      && s' == s.(kernels := s.kernels[kid := s.kernels[kid].(token := n, published := false)],
                  dispatch := DEnqueue(n, kid))
    case DEnqueue(n, kid) =>
      kid < |s.kernels|
      && s' == s.(kernels := s.kernels[kid := s.kernels[kid].(launched := true)],
                  slots := Set(s.slots, n, Pending(ByKernel(kid))), dispatch := DMore)
    case _ => false
  }

  /** The steps that store to the memory-copy state. */
  ghost predicate SubmitStep(s: State, s': State) {
    match s.dispatch
    case DStore(n) =>
      n < |s.packets| && s.packets[n].kind.MemoryCopy?
      && (var k := s.packets[n].kind;
          s' == s.(copy := s.copy.(fromDevice := k.fromDevice, toDevice := k.toDevice, empty := k.empty, token := n),
                   dispatch := DPhase(n)))
    case DPhase(n) => s' == s.(copy := s.copy.(phase := WaitPredecessor), dispatch := DActivate(n))
    case DActivate(n) =>
      s' == s.(copy := s.copy.(active := true), slots := Set(s.slots, n, Pending(ByCopy)), dispatch := DTop,
               upkeep := Upkeep([], 0))
    case _ => false
  }

  /** A step of the cache operation the dispatch task is starting. */
  function DispatchOp(s: State): State
    requires s.dispatch.DOp?
  {
    var (cache, next) := StepOp(s.cache, s.dispatch.op);
    match next
    case Some(op) =>
      s.(cache := cache, dispatch := s.dispatch.(op := op),
         claimed := if s.dispatch.op.stage.Claim? then s.claimed[s.dispatch.n := cache.number] else s.claimed)
    case None =>
      if s.dispatch.launch then s.(cache := cache, dispatch := DAlloc(s.dispatch.n))
      else s.(cache := cache, slots := Set(s.slots, s.dispatch.n, Pending(ByCache)), dispatch := DTop)
  }

  ghost predicate DispatchStep(s: State, s': State) {
    || s' == s.(dispatch := Goto(s))
    || (s.dispatch.DTake? && s.reboot && s' == s.(dispatch := DReboot(None)))
    || (s.dispatch.DTake? && !s.reboot && |s.slots| < |s.packets| && s' == Take(s))
    || (s.dispatch.DOp? && s' == DispatchOp(s))
    || LaunchStep(s, s')
    || SubmitStep(s, s')
    || (s.dispatch.DBarrierDone?
        && s' == s.(slots := Set(s.slots, s.dispatch.n, Terminal(Tokens.SUCCESS)), dispatch := DTop))
    || (s.dispatch.DPublish?
        && s' == s.(slots := Set(s.slots, s.dispatch.n, Terminal(s.dispatch.result)), dispatch := DTop))
  }

  predicate KernelsIdle(s: State) {
    forall i | 0 <= i < |s.kernels| :: !s.kernels[i].inUse
  }

  // ---- cp_retire_sm -----------------------------------------------------------------------

  /** When the last work-group of a kernel retires is not modelled here: it may be any time after
      the launch began. */
  ghost predicate RetireStep(s: State, s': State) {
    match s.retire
    case RIdle =>
      exists kid: nat | kid < |s.kernels| ::
        s.kernels[kid].inUse && s.kernels[kid].launched && s' == s.(retire := RPublish(kid))
    case RPublish(kid) =>
      kid < |s.kernels|
      && (exists result: nat ::
            s' == s.(slots := Set(s.slots, s.kernels[kid].token, Terminal(result)),
                     kernels := s.kernels[kid := s.kernels[kid].(published := true)], retire := RFree(kid)))
    case RFree(kid) =>
      kid < |s.kernels|
      && s' == s.(kernels := s.kernels[kid := s.kernels[kid].(inUse := false, launched := false)], retire := RIdle)
  }

  // ---- cp_retire_cache --------------------------------------------------------------------

  function CacheRetire(s: State): State {
    match s.cacheRetire
    case CIdle => if s.cache.pending then s.(cacheRetire := CSawPending) else s
    case CSawPending => s.(cacheRetire := if s.cache.started then CScan(0) else CIdle)
    case CScan(c) =>
      s.(cacheRetire := if c >= |s.cache.run| then CPublish
                        else if Busy(s.cache, c) then CIdle
                        else CScan(c + 1))
    case CPublish =>
      s.(slots := if s.cache.token.Some? then Set(s.slots, s.cache.token.value, Terminal(Tokens.SUCCESS)) else s.slots,
         cacheRetire := CDropToken)
    case CDropToken => s.(cache := s.cache.(token := None), cacheRetire := CDropPending)
    case CDropPending => s.(cache := s.cache.(pending := false), cacheRetire := CIdle)
  }

  // ---- cp_memory_copy_task ----------------------------------------------------------------

  function FlushOp(): Op { Op(Wait, false, false, true, None, false) }

  function InvalidateOp(): Op { Op(Wait, true, true, true, None, false) }

  function UsedEngine(s: State): Engine {
    if s.copy.fromDevice && s.copy.toDevice then s.dma.device else s.dma.host
  }

  /** The body of the phase switch, up to its first store or its next read. */
  function Switch(s: State): CopyPc {
    match s.copy.phase
    case Idle => MInactive
    case WaitPredecessor => if s.cache.pending then MTop else MKernels(0)
    case FlushSource =>
      if s.cache.pending then MTop
      else if s.copy.toDevice then MTry(FlushOp(), FlushDestination)
      else MDma(false)
    case FlushDestination => if s.cache.pending then MTop else MDma(s.copy.fromDevice && s.copy.toDevice)
    case WaitDma =>
      (match UsedEngine(s)
       case Done =>
         if !s.copy.toDevice then MPublish(Tokens.SUCCESS, false) else MTry(InvalidateOp(), InvalidateDestination)
       case BusError => MPublish(FAILURE, false)
       case InvalidDescriptor => MPublish(FAILURE, false)
       case _ => MTop)
    case InvalidateDestination => if s.cache.pending then MTop else MPublish(Tokens.SUCCESS, false)
    case DrainDma => if DmaIdle(s.dma) then MAfter(false) else MTop
  }

  /** The first step after the predecessors have drained. */
  function Begin(copy: Copy): CopyPc {
    if copy.empty then MPublish(Tokens.SUCCESS, false)
    else if copy.fromDevice then MTry(FlushOp(), FlushSource)
    else if copy.toDevice then MTry(FlushOp(), FlushDestination)
    else MDma(false)
  }

  predicate MayTimeOut(phase: CopyPhase) {
    !phase.WaitPredecessor? && !phase.DrainDma?
  }

  /** Where a step of the copy task that only reads goes; the other steps stay where they are. */
  function CopyGoto(s: State): CopyPc {
    match s.copyTask
    case MTop => if s.copy.active then MSwitch else MTop
    case MSwitch => Switch(s)
    case MKernels(i) => if i >= |s.kernels| then MBegin else if s.kernels[i].inUse then MTop else MKernels(i + 1)
    case MBegin => Begin(s.copy)
    case MTry(op, next) => if s.cache.pending then MTop else MOp(op, next)
    case pc => pc
  }

  /** A step of the cache operation the copy task is starting. */
  function CopyOp(s: State): State
    requires s.copyTask.MOp?
  {
    var (cache, op) := StepOp(s.cache, s.copyTask.op);
    s.(cache := cache, copyTask := if op.Some? then MOp(op.value, s.copyTask.next) else MEnter(s.copyTask.next),
       upkeep := if s.copyTask.op.stage.Claim? then Upkeep(s.upkeep.phases + [s.copyTask.next], cache.number)
                 else s.upkeep)
  }

  /** The steps that store to the memory-copy state, a DMA engine's START or a completion slot. */
  function CopyStore(s: State): State {
    match s.copyTask
    case MEnter(next) => s.(copy := s.copy.(phase := next), copyTask := MTop)
    case MDma(device) =>
      s.(dma := if device then s.dma.(device := Working) else s.dma.(host := Working), copyTask := MEnter(WaitDma))
    case MPublish(result, fail) => s.(slots := Set(s.slots, s.copy.token, Terminal(result)), copyTask := MAfter(fail))
    case MAfter(fail) =>
      if fail && s.copy.phase.WaitDma? then s.(copy := s.copy.(phase := DrainDma), copyTask := MTop)
      else s.(copy := s.copy.(phase := Idle), copyTask := MInactive)
    case MInactive => s.(copy := s.copy.(active := false), copyTask := MTop)
    case _ => s
  }

  ghost predicate CopyStep(s: State, s': State) {
    || s' == s.(copyTask := CopyGoto(s))
    || (s.copyTask.MSwitch? && MayTimeOut(s.copy.phase)
        && s' == s.(faulted := true, copyTask := MPublish(FAILURE, true)))
    || (s.copyTask.MOp? && s' == CopyOp(s))
    || s' == CopyStore(s)
  }

  // ---- The environment --------------------------------------------------------------------

  ghost predicate EngineFinishes(s: State, s': State) {
    exists e: Engine :: !e.Working?
      && ((s.dma.host.Working? && s' == s.(dma := s.dma.(host := e)))
          || (s.dma.device.Working? && s' == s.(dma := s.dma.(device := e))))
  }

  ghost predicate EnvStep(s: State, s': State)
    requires |s.cache.done| == |s.cache.run|
  {
    || (exists p: Packet :: s' == s.(packets := s.packets + [p]))
    || s' == s.(reboot := true)
    || (CacheFinishes(s.cache, s'.cache) && s' == s.(cache := s'.cache))
    || EngineFinishes(s, s')
  }

  ghost predicate Next(s: State, s': State)
    requires |s.cache.done| == |s.cache.run|
  {
    || EnvStep(s, s')
    || (!s.dispatch.DJumped? && (DispatchStep(s, s') || RetireStep(s, s') || s' == CacheRetire(s) || CopyStep(s, s')))
  }

  ghost predicate Init(s: State) {
    && s.packets == [] && s.slots == []
    && s.cache == Cache(false, false, false, false, None, s.cache.run, s.cache.done, 0, false)
    && |s.cache.run| == |s.cache.done|
    && (forall c | 0 <= c < |s.cache.run| :: s.cache.run[c] == 0 && s.cache.done[c] == 0)
    && (forall i | 0 <= i < |s.kernels| :: s.kernels[i] == Kernel(false, 0, false, false))
    && s.copy == Copy(false, Idle, false, false, false, 0)
    && DmaIdle(s.dma)
    && !s.faulted && !s.reboot
    && s.dispatch == DTop && s.retire == RIdle && s.cacheRetire == CIdle && s.copyTask == MTop
    && s.claimed == map[]
  }
}
