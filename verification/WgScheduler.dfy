/** The work-group initializer's state and what each of its handlers does to it, written over whole
    sets of warps. `WgInitializer` holds the looping handlers that refine these functions. */
module WgScheduler {
  import opened Options
  import opened WarpCore

  /** A work-group as the command processor enqueued it. */
  datatype Group = Group(kernelPc: nat, infoPtr: nat, groupSize: nat)

  datatype WgStatus = Okay | Exception

  /** The completion record a retired work-group leaves in the dequeue FIFO. */
  datatype Report = Report(kernelPc: nat, infoPtr: nat, status: WgStatus, mcause: nat, mepc: nat, mtval: nat)

  const NO_REPORT := Report(0, 0, Okay, 0, 0, 0)

  datatype Slot = Slot(
    busy: bool, ticket: nat, kernelPc: nat, infoPtr: nat, groupSize: nat, warpCount: nat,
    activated: nat, completed: nat, divergenceReported: bool, aborting: bool, completion: Report)

  const VACANT := Slot(false, 0, 0, 0, 0, 0, 0, 0, false, false, NO_REPORT)

  /** Where ProcessThread stands: between passes, writing its retire list to the dequeue FIFO, or
      stopped by a reported barrier deadlock. */
  datatype Phase = Waiting | Retiring(list: seq<(nat, Report)>) | Halted(slot: nat)

  /** `credit` is how many further commands the core accepts before it refuses; a core that refused
      stays refusing until ProcessThread waits. The last six fields are history. */
  datatype State = State(
    limit: nat, threadsPerWarp: nat, fifoSize: nat,
    slots: seq<Slot>, owner: seq<int>, pending: seq<bool>, order: seq<nat>, count: int,
    dispatch: seq<Group>, dequeue: seq<Report>,
    core: seq<Warp>, credit: nat, phase: Phase,
    enqueued: seq<Group>, arrivals: seq<Group>, log: seq<Command>,
    delivered: seq<(nat, Report)>, trapped: set<nat>, firstTrap: map<nat, Report>)

  // ---- Sets of warps ----------------------------------------------------------------------

  predicate Sized(s: State) {
    |s.core| == |s.owner| == |s.pending| && |s.slots| == s.limit && s.threadsPerWarp > 0
  }

  function Owned(s: State, k: int): set<nat> {
    set i | 0 <= i < |s.owner| && s.owner[i] == k
  }

  /** Owned, trapped and not yet being released. */
  function Raised(s: State, k: int): set<nat>
    requires Sized(s)
  {
    set i | 0 <= i < |s.owner| && s.owner[i] == k && s.core[i].status.Trapped? && !s.pending[i]
  }

  function RaisedErrors(s: State, k: int): set<nat>
    requires Sized(s)
  {
    set i | i in Raised(s, k) && s.core[i].mcause != ECALL
  }

  function AtBarrier(s: State, k: int): set<nat>
    requires Sized(s)
  {
    Waiters(s.core, s.owner, k)
  }

  function Waiters(core: seq<Warp>, owner: seq<int>, k: int): set<nat>
    requires |core| == |owner|
  {
    set i | 0 <= i < |owner| && owner[i] == k && core[i].status.Barrier?
  }

  function FreeWarps(s: State): set<nat>
    requires Sized(s)
  {
    Free(s.core, s.owner)
  }

  function Free(core: seq<Warp>, owner: seq<int>): set<nat>
    requires |core| == |owner|
  {
    set i | 0 <= i < |owner| && core[i].status.Idle? && owner[i] < 0
  }

  ghost predicate IsLeast(m: nat, xs: set<nat>) {
    m in xs && forall x | x in xs :: m <= x
  }

  /** The first index in `xs` at or after `from`. */
  function LeastFrom(xs: set<nat>, from: nat, bound: nat): (m: nat)
    requires from <= bound
    requires exists x :: x in xs && from <= x < bound
    requires forall x | x in xs :: from <= x
    ensures IsLeast(m, xs)
    decreases bound - from
  {
    if from in xs then from else LeastFrom(xs, from + 1, bound)
  }

  function Least(xs: set<nat>, bound: nat): (m: nat)
    requires xs != {} && forall x | x in xs :: x < bound
    ensures IsLeast(m, xs)
  {
    assert exists x :: x in xs && 0 <= x < bound;
    LeastFrom(xs, 0, bound)
  }

  /** The `n` lowest members of `xs` in [from, bound), or all of them when there are fewer. */
  function Lowest(xs: set<nat>, from: nat, bound: nat, n: nat): set<nat>
    decreases bound - from
  {
    if from >= bound || n == 0 then {}
    else if from in xs then {from} + Lowest(xs, from + 1, bound, n - 1)
    else Lowest(xs, from + 1, bound, n)
  }

  // ---- Commands ---------------------------------------------------------------------------

  /** TryWarpCtrlCommand: a refused command has no effect, an accepted one is applied at once. */
  function Try(s: State, c: Command): State {
    if s.credit == 0 then s
    else s.(credit := s.credit - 1, core := Apply(s.core, c), log := s.log + [c])
  }

  // ---- HandleExceptionWarps ---------------------------------------------------------------

  function ReportOf(s: State, k: nat, status: WgStatus, i: nat): Report
    requires Sized(s) && k < s.limit && i < |s.core|
  {
    Report(s.slots[k].kernelPc, s.slots[k].infoPtr, status,
           s.core[i].mcause % 0x1_0000_0000, s.core[i].mepc, s.core[i].mtval)
  }

  function ExceptionSlot(s: State, k: nat): Slot
    requires Sized(s) && k < s.limit
  {
    var slot := s.slots[k];
    if !slot.busy || Raised(s, k) == {} || slot.aborting then slot
    else if RaisedErrors(s, k) != {} then
      slot.(aborting := true,
            completion := ReportOf(s, k, Exception, Least(RaisedErrors(s, k), |s.owner|)),
            completed := slot.completed + NatDiff(slot.warpCount, slot.activated),
            activated := slot.warpCount)
    else
      slot.(completion := ReportOf(s, k, Okay, Least(Raised(s, k), |s.owner|)))
  }

  function NatDiff(a: nat, b: nat): nat {
    if a >= b then a - b else 0
  }

  function HandleExceptions(s: State): State
    requires Sized(s)
  {
    s.(slots := seq(|s.slots|, k requires 0 <= k < |s.slots| => ExceptionSlot(s, k)))
  }

  // ---- IssueTerminations ------------------------------------------------------------------

  predicate Releasable(s: State, i: nat)
    requires Sized(s) && i < |s.owner|
  {
    s.owner[i] >= 0 && !s.pending[i] && s.core[i].status.Trapped?
  }

  predicate Abortable(s: State, i: nat)
    requires Sized(s) && i < |s.owner|
  {
    0 <= s.owner[i] < s.limit && !s.pending[i] && s.slots[s.owner[i]].aborting
    && (s.core[i].status.Active? || s.core[i].status.Barrier?)
  }

  function ReleaseSet(s: State): set<nat>
    requires Sized(s)
  {
    set i: nat | i < |s.owner| && Releasable(s, i)
  }

  function AbortSet(s: State): set<nat>
    requires Sized(s)
  {
    set i: nat | i < |s.owner| && Abortable(s, i)
  }

  /** Issues a terminating command when its mask is not empty, and marks the mask pending if accepted. */
  function Terminate(s: State, c: Command): State {
    if c.mask == {} || s.credit == 0 then s
    else Try(s, c).(pending := Marked(s.pending, c.mask))
  }

  function Marked(pending: seq<bool>, mask: set<nat>): seq<bool> {
    seq(|pending|, i requires 0 <= i < |pending| => pending[i] || i in mask)
  }

  function IssueTerminations(s: State): State
    requires Sized(s)
  {
    Terminate(Terminate(s, Abort(AbortSet(s))), Release(ReleaseSet(s)))
  }

  // ---- HandleStoppedWarps -----------------------------------------------------------------

  /** A warp whose Abort or Release has completed. */
  predicate Drained(s: State, i: nat)
    requires Sized(s) && i < |s.owner|
  {
    s.owner[i] >= 0 && s.core[i].status.Idle? && s.pending[i]
  }

  function DrainedOf(s: State, k: nat): set<nat>
    requires Sized(s)
  {
    set i | 0 <= i < |s.owner| && s.owner[i] == k && Drained(s, i)
  }

  function StoppedSlot(s: State, k: nat): Slot
    requires Sized(s) && k < s.limit
  {
    if s.slots[k].busy
    then s.slots[k].(completed := s.slots[k].completed + |DrainedOf(s, k)|)
    else s.slots[k]
  }

  /** The busy slots below `n` with every warp completed, in slot order, with their reports. */
  function RetireList(slots: seq<Slot>, n: nat): (list: seq<(nat, Report)>)
    requires n <= |slots|
  {
    if n == 0 then []
    else if Finished(slots[n - 1]) then RetireList(slots, n - 1) + [(n - 1, slots[n - 1].completion)]
    else RetireList(slots, n - 1)
  }

  predicate Finished(slot: Slot) {
    slot.busy && slot.completed == slot.warpCount
  }

  function HandleStopped(s: State): State
    requires Sized(s)
  {
    var slots := seq(|s.slots|, k requires 0 <= k < |s.slots| => StoppedSlot(s, k));
    s.(slots := slots,
       owner := seq(|s.owner|, i requires 0 <= i < |s.owner| => if Drained(s, i) then -1 else s.owner[i]),
       pending := seq(|s.owner|, i requires 0 <= i < |s.owner| => s.pending[i] && !Drained(s, i)),
       phase := Retiring(RetireList(slots, |slots|)))
  }

  function Without(order: seq<nat>, k: nat): (r: seq<nat>)
  {
    if order == [] then []
    else
      if order[0] == k then Without(order[1..], k)
      else [order[0]] + Without(order[1..], k)
  }

  /** RetireWG of the head of the retire list, once the dequeue FIFO has room. */
  function Retire(s: State): State
    requires Sized(s) && s.phase.Retiring? && s.phase.list != [] && s.phase.list[0].0 < s.limit
  {
    var (k, report) := s.phase.list[0];
    s.(dequeue := s.dequeue + [report],
       slots := s.slots[k := s.slots[k].(busy := false)],
       count := s.count - 1,
       order := Without(s.order, k),
       phase := Retiring(s.phase.list[1..]),
       delivered := s.delivered + [(s.slots[k].ticket, report)])
  }

  // ---- HandleBarrierWarps -----------------------------------------------------------------

  predicate Deadlocked(s: State, k: nat)
    requires Sized(s) && k < s.limit
  {
    var slot := s.slots[k];
    slot.busy && !slot.aborting && slot.completed > 0 && |AtBarrier(s, k)| + slot.completed == slot.warpCount
  }

  predicate Assembled(s: State, k: nat)
    requires Sized(s) && k < s.limit
  {
    s.slots[k].busy && !s.slots[k].aborting && |AtBarrier(s, k)| == s.slots[k].warpCount
  }

  predicate PcsDiffer(core: seq<Warp>, owner: seq<int>, k: int)
    requires |core| == |owner|
  {
    exists i, j | i in Waiters(core, owner, k) && j in Waiters(core, owner, k) :: core[i].barrierPc != core[j].barrierPc
  }

  predicate AnyAtBarrier(s: State) {
    exists i | 0 <= i < |s.core| :: s.core[i].status.Barrier?
  }

  function ResumeSet(s: State): set<nat>
    requires Sized(s)
  {
    set i: nat | i < |s.owner| && 0 <= s.owner[i] < s.limit
                 && s.core[i].status.Barrier? && Assembled(s, s.owner[i])
  }

  function BarrierSlot(s: State, k: nat): Slot
    requires Sized(s) && k < s.limit
  {
    if Assembled(s, k) && PcsDiffer(s.core, s.owner, k) then s.slots[k].(divergenceReported := true) else s.slots[k]
  }

  function DeadlockSet(s: State): set<nat>
    requires Sized(s)
  {
    set k: nat | k < s.limit && Deadlocked(s, k)
  }

  /** A deadlock is fatal at the first slot that shows one; slots before it may have been marked. */
  function HandleBarriers(s: State): State
    requires Sized(s)
  {
    if !AnyAtBarrier(s) then s
    else if DeadlockSet(s) != {} then
      var k := Least(DeadlockSet(s), s.limit);
      s.(phase := Halted(k),
         slots := seq(|s.slots|, j requires 0 <= j < |s.slots| => if j < k then BarrierSlot(s, j) else s.slots[j]))
    else
      var s' := s.(slots := seq(|s.slots|, j requires 0 <= j < |s.slots| => BarrierSlot(s, j)));
      if ResumeSet(s) == {} then s' else Try(s', Resume(ResumeSet(s)))
  }

  // ---- DispatchRemainingWarps -------------------------------------------------------------

  function FirstPartial(slots: seq<Slot>, order: seq<nat>): (r: Option<nat>)
    requires forall j | 0 <= j < |order| :: order[j] < |slots|
    ensures r.Some? ==> r.value < |slots| && slots[r.value].activated < slots[r.value].warpCount
  {
    if order == [] then None
    else if slots[order[0]].activated < slots[order[0]].warpCount then Some(order[0])
    else FirstPartial(slots, order[1..])
  }

  predicate OrderInRange(s: State) {
    forall j | 0 <= j < |s.order| :: s.order[j] < |s.slots|
  }

  function Assign(owner: seq<int>, mask: set<nat>, k: int): seq<int> {
    seq(|owner|, i requires 0 <= i < |owner| => if i in mask then k else owner[i])
  }

  /** Activates the warps in `mask` for the group in slot `k`, whose cwids continue after the warps
      already activated. */
  function Place(s: State, k: nat, mask: set<nat>): State
    requires k < |s.slots|
  {
    var slot := s.slots[k];
    Try(s, Activate(slot.ticket, mask, slot.kernelPc, slot.infoPtr, slot.activated))
    .(slots := s.slots[k := slot.(activated := slot.activated + |mask|)],
      owner := Assign(s.owner, mask, k))
  }

  /** The warps the group in slot `k` gets next: the lowest free ones, as many as it lacks. */
  function Chosen(s: State, k: nat): set<nat>
    requires Sized(s) && k < s.limit && s.slots[k].activated < s.slots[k].warpCount
  {
    Lowest(FreeWarps(s), 0, |s.owner|, s.slots[k].warpCount - s.slots[k].activated)
  }

  function PlaceMore(s: State, k: nat, mask: set<nat>): State
    requires k < |s.slots|
  {
    if mask == {} || s.credit == 0 then s else Place(s, k, mask)
  }

  function DispatchRemaining(s: State): State
    requires Sized(s) && OrderInRange(s)
  {
    match FirstPartial(s.slots, s.order)
    case None => s
    case Some(k) => PlaceMore(s, k, Chosen(s, k))
  }

  // ---- DispatchNewWG ----------------------------------------------------------------------

  function WarpCount(s: State, g: Group): nat
    requires s.threadsPerWarp > 0
  {
    (g.groupSize + s.threadsPerWarp - 1) / s.threadsPerWarp
  }

  function Vacancies(s: State): set<nat> {
    VacantIn(s.slots)
  }

  function VacantIn(slots: seq<Slot>): set<nat> {
    set k: nat | k < |slots| && !slots[k].busy
  }

  /** Gives slot `k` to the group at the head of the dispatch FIFO, with no warp activated yet. */
  function Install(s: State, k: nat): State
    requires Sized(s) && s.dispatch != [] && k < s.limit
  {
    var g := s.dispatch[0];
    ReadGroup(s).(
      slots := s.slots[k := VACANT.(busy := true, ticket := |s.arrivals|, kernelPc := g.kernelPc, infoPtr := g.infoPtr,
                                    groupSize := g.groupSize, warpCount := WarpCount(s, g))],
      count := s.count + 1,
      order := s.order + [k])
  }

  function ReadGroup(s: State): State
    requires s.dispatch != []
  {
    s.(dispatch := s.dispatch[1..], arrivals := s.arrivals + [s.dispatch[0]])
  }

  /** A group with no warp to run is read from the FIFO and dropped. */
  function DispatchNew(s: State): State
    requires Sized(s)
  {
    if s.dispatch == [] || s.count >= s.limit || FreeWarps(s) == {} || Vacancies(s) == {} || s.credit == 0 then s
    else
      var k := Least(Vacancies(s), s.limit);
      var mask := Lowest(FreeWarps(s), 0, |s.owner|, WarpCount(s, s.dispatch[0]));
      if mask == {} then ReadGroup(s) else Place(Install(s, k), k, mask)
  }

  // ---- Passes of ProcessThread ------------------------------------------------------------

  /** History: the groups whose first trap this pass is the first to see, with the CSRs of the
      lowest-numbered warp that trapped. */
  ghost predicate FirstSees(s: State, ticket: nat, r: Report)
    requires Sized(s)
  {
    ticket !in s.firstTrap
    && exists k: nat, i: nat | k < s.limit && i < |s.core| ::
         s.slots[k].busy && s.slots[k].ticket == ticket && IsLeast(i, RaisedErrors(s, k))
         && r.status.Exception? && (r.kernelPc, r.infoPtr) == (s.slots[k].kernelPc, s.slots[k].infoPtr)
         && (r.mcause, r.mepc, r.mtval) == (s.core[i].mcause % 0x1_0000_0000, s.core[i].mepc, s.core[i].mtval)
  }

  function Sightings(s: State, n: nat): map<nat, Report>
    requires Sized(s) && n <= s.limit
  {
    if n == 0 then s.firstTrap
    else
      var seen := Sightings(s, n - 1);
      var slot := s.slots[n - 1];
      if slot.busy && slot.ticket !in seen && RaisedErrors(s, n - 1) != {}
      then seen[slot.ticket := ReportOf(s, n - 1, Exception, Least(RaisedErrors(s, n - 1), |s.owner|))]
      else seen
  }

  /** The part of a pass up to the retire list, which no wait interrupts. */
  function BeginPass(s: State): State
    requires Sized(s)
  {
    HandleStopped(IssueTerminations(HandleExceptions(s.(firstTrap := Sightings(s, s.limit)))))
  }

  /** The part of a pass after the last retirement; ends the pass unless it reports a deadlock. */
  function EndPass(s: State): State
    requires Sized(s) && OrderInRange(s)
  {
    var b := HandleBarriers(s);
    if b.phase.Halted? then b else DispatchNew(DispatchRemaining(b)).(phase := Waiting)
  }

  // ---- The environment --------------------------------------------------------------------

  ghost predicate CoreStep(s: State, s': State)
    requires Sized(s)
  {
    && |s'.core| == |s.core|
    && (forall i | 0 <= i < |s.core| :: Evolves(s.core[i], s'.core[i]))
    && s' == s.(core := s'.core, credit := s'.credit,
                trapped := s.trapped + NewTraps(s, s'.core))
  }

  /** History: the tickets of the groups that own a warp trapping, with a cause other than ecall, in
      this step. */
  ghost function NewTraps(s: State, core: seq<Warp>): set<nat>
    requires Sized(s) && |core| == |s.core|
  {
    set i: nat | i < |core| && 0 <= s.owner[i] < s.limit && s.core[i].status.Active?
                 && core[i].status.Trapped? && core[i].mcause != ECALL :: s.slots[s.owner[i]].ticket
  }

  ghost predicate Enqueue(s: State, s': State)
    requires Sized(s)
  {
    exists g: Group ::
      WarpCount(s, g) <= |s.core| && |s.dispatch| < s.fifoSize
      && s' == s.(dispatch := s.dispatch + [g], enqueued := s.enqueued + [g])
  }

  ghost predicate Dequeue(s: State, s': State) {
    s.dequeue != [] && s' == s.(dequeue := s.dequeue[1..])
  }

  ghost predicate Next(s: State, s': State)
    requires Sized(s) && OrderInRange(s)
  {
    || CoreStep(s, s')
    || Enqueue(s, s')
    || Dequeue(s, s')
    || (s.phase.Waiting? && s' == BeginPass(s))
    || (s.phase.Retiring? && s.phase.list != [] && s.phase.list[0].0 < s.limit
        && |s.dequeue| < s.fifoSize && s' == Retire(s))
    || (s.phase.Retiring? && s.phase.list == [] && s' == EndPass(s))
  }

  ghost predicate Init(s: State) {
    && s.threadsPerWarp > 0
    && s.slots == seq(s.limit, k => VACANT)
    && s.owner == seq(|s.core|, i => -1)
    && (forall i | 0 <= i < |s.core| :: s.core[i].status.Idle? && !s.core[i].stopping)
    && s.pending == seq(|s.core|, i => false) && s.order == [] && s.count == 0
    && s.dispatch == [] && s.dequeue == [] && s.phase == Waiting
    && s.enqueued == [] && s.arrivals == [] && s.log == []
    && s.delivered == [] && s.trapped == {} && s.firstTrap == map[]
  }
}
