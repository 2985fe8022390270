/** The work-group initializer as an object whose handlers loop over slots and warps and update its
    fields; each is proved to do what its function in `WgScheduler` says. */
module WgInitializer {
  import opened Options
  import opened WarpCore
  import opened WgScheduler

  // ---- Read-only scans --------------------------------------------------------------------

  function Candidates(mask: set<nat>, owner: seq<int>, k: int): set<nat> {
    set i | 0 <= i < |owner| && i in mask && owner[i] == k
  }

  function Errors(mask: set<nat>, core: seq<Warp>, owner: seq<int>, k: int): set<nat>
    requires |core| == |owner|
  {
    set i | i in Candidates(mask, owner, k) && core[i].mcause != ECALL
  }

  /** Whether a warp of the group in slot `k` raised something other than an ecall. */
  method CheckForErrorException(mask: set<nat>, core: seq<Warp>, owner: seq<int>, k: int) returns (found: bool)
    requires |core| == |owner|
    ensures found <==> Errors(mask, core, owner, k) != {}
  {
    for i := 0 to |owner|
      invariant forall j | 0 <= j < i :: j !in Errors(mask, core, owner, k)
    {
      if i in mask && owner[i] == k && core[i].mcause != ECALL {
        assert i in Errors(mask, core, owner, k);
        return true;
      }
    }
    return false;
  }

  /** The lowest-numbered warp of the group that raised an exception; with `preferError`, the
      lowest-numbered one that raised something other than an ecall, if there is one. */
  method FindFirstExceptionWarp(mask: set<nat>, core: seq<Warp>, owner: seq<int>, k: int, preferError: bool)
    returns (first: int)
    requires |core| == |owner|
    ensures Candidates(mask, owner, k) == {} ==> first == -1
    ensures Candidates(mask, owner, k) != {} ==>
              0 <= first < |owner|
              && IsLeast(first, if preferError && Errors(mask, core, owner, k) != {}
                                then Errors(mask, core, owner, k) else Candidates(mask, owner, k))
  {
    first := -1;
    for i := 0 to |owner|
      invariant -1 <= first < i
      invariant first == -1 ==> forall j | 0 <= j < i :: j !in Candidates(mask, owner, k)
      invariant first >= 0 ==>
                  first in Candidates(mask, owner, k) && forall j | 0 <= j < first :: j !in Candidates(mask, owner, k)
      invariant preferError ==> forall j | 0 <= j < i :: j !in Errors(mask, core, owner, k)
    {
      if i !in mask || owner[i] != k {
        continue;
      }
      if first < 0 {
        first := i;
      }
      if preferError && core[i].mcause != ECALL {
        assert i in Errors(mask, core, owner, k);
        return i;
      }
    }
  }

  /** Whether two warps of the group wait at barriers with different PCs. */
  method BarrierPCsDiffer(core: seq<Warp>, owner: seq<int>, k: int) returns (differ: bool)
    requires |core| == |owner|
    ensures differ <==> PcsDiffer(core, owner, k)
  {
    var first := -1;
    for i := 0 to |core|
      invariant -1 <= first < i
      invariant first == -1 ==> forall j | 0 <= j < i :: j !in Waiters(core, owner, k)
      invariant first >= 0 ==> first in Waiters(core, owner, k)
                               && forall j | j in Waiters(core, owner, k) && j < i ::
                                    core[j].barrierPc == core[first].barrierPc
    {
      if !core[i].status.Barrier? || owner[i] != k {
        continue;
      }
      assert i in Waiters(core, owner, k);
      if first < 0 {
        first := i;
      } else if core[i].barrierPc != core[first].barrierPc {
        return true;
      }
    }
    return false;
  }

  /** How many warps of the group in slot `k` wait at a barrier. */
  method BarrierCount(core: seq<Warp>, owner: seq<int>, k: int) returns (n: nat)
    requires |core| == |owner|
    ensures n == |Waiters(core, owner, k)|
  {
    n := 0;
    ghost var seen := {};
    for i := 0 to |core|
      invariant seen == set j | j in Waiters(core, owner, k) && j < i
      invariant n == |seen|
    {
      if owner[i] == k && core[i].status.Barrier? {
        seen := seen + {i};
        n := n + 1;
      }
    }
    assert seen == Waiters(core, owner, k);
  }

  /** The lowest-numbered free warps, at most `n` of them. */
  method PickFree(core: seq<Warp>, owner: seq<int>, n: nat) returns (mask: set<nat>)
    requires |core| == |owner|
    ensures mask == Lowest(Free(core, owner), 0, |owner|, n)
  {
    mask := {};
    var i := 0;
    ghost var free := Free(core, owner);
    while i < |core| && |mask| < n
      invariant 0 <= i <= |core|
      invariant |mask| <= n && forall x | x in mask :: x < i
      invariant mask + Lowest(free, i, |core|, n - |mask|) == Lowest(free, 0, |core|, n)
    {
      assert i in free <==> core[i].status.Idle? && owner[i] < 0;
      if core[i].status.Idle? && owner[i] < 0 {
        mask := mask + {i};
      }
      i := i + 1;
    }
  }

  /** The oldest group with warps left to activate, or -1. */
  method FindPartial(slots: seq<Slot>, order: seq<nat>) returns (k: int)
    requires forall j | 0 <= j < |order| :: order[j] < |slots|
    ensures FirstPartial(slots, order) == if k < 0 then None else Some(k)
  {
    var j := 0;
    while j < |order| && slots[order[j]].activated >= slots[order[j]].warpCount
      invariant 0 <= j <= |order|
      invariant FirstPartial(slots, order) == FirstPartial(slots, order[j..])
    {
      j := j + 1;
    }
    k := if j == |order| then -1 else order[j];
  }

  /** The first slot that is not busy, or -1. */
  method FindVacantProcessingWG(slots: seq<Slot>) returns (k: int)
    ensures k < 0 <==> VacantIn(slots) == {}
    ensures k >= 0 ==> IsLeast(k, VacantIn(slots))
  {
    for j := 0 to |slots|
      invariant forall i | 0 <= i < j :: slots[i].busy
    {
      if !slots[j].busy {
        assert j in VacantIn(slots);
        return j;
      }
    }
    return -1;
  }

  /** Ends the ownership of the warps of slot `k` that have drained, and counts them. `s` and `s0`
      are the states when the pass began handling stopped warps and when it reached slot `k`. */
  method StopWarpsOf(ghost s: State, ghost s0: State, core: seq<Warp>, owner: seq<int>, pending: seq<bool>, k: nat)
    returns (owner': seq<int>, pending': seq<bool>, n: nat)
    requires Sized(s) && k < s.limit && StoppedBelow(s, s0, k)
    requires core == s.core && owner == s0.owner && pending == s0.pending
    ensures |owner'| == |pending'| == |s.owner|
    ensures forall i | 0 <= i < |s.owner| :: Stopped(s, owner', pending', i, k, |s.owner|)
    ensures n == |DrainedOf(s, k)|
  {
    owner', pending', n := owner, pending, 0;
    ghost var mine := {};
    for i := 0 to |core|
      invariant mine == set j | j in DrainedOf(s, k) && j < i
      invariant n == |mine|
      invariant |owner'| == |s.owner| == |pending'|
      invariant forall j | 0 <= j < |s.owner| :: Stopped(s, owner', pending', j, k, i)
    {
      ghost var own, pend, next := owner', pending', i + 1;
      assert Stopped(s, own, pend, i, k, i);
      if owner'[i] == k && core[i].status.Idle? && pending'[i] {
        mine := mine + {i};
        pending' := pending'[i := false];
        owner' := owner'[i := -1];
        n := n + 1;
      }
      forall j | 0 <= j < |s.owner| ensures Stopped(s, owner', pending', j, k, next) {
        assert Stopped(s, own, pend, j, k, i);
      }
    }
    assert mine == DrainedOf(s, k);
  }

  /** The warps of the group in slot `k` that wait at a barrier, as a mask. */
  method BarrierMask(core: seq<Warp>, owner: seq<int>, k: int) returns (mask: set<nat>)
    requires |core| == |owner|
    ensures mask == Waiters(core, owner, k)
  {
    mask := {};
    for i := 0 to |core|
      invariant mask == set j | j in Waiters(core, owner, k) && j < i
    {
      if core[i].status.Barrier? && owner[i] == k {
        mask := mask + {i};
      }
    }
  }

  /** The loop of HandleStoppedWarps over the slots. */
  method StopWarps(ghost s: State, core: seq<Warp>, slots: seq<Slot>, owner: seq<int>, pending: seq<bool>)
    returns (slots': seq<Slot>, owner': seq<int>, pending': seq<bool>, list: seq<(nat, Report)>)
    requires Sized(s) && OwnersBusy(s) && core == s.core && slots == s.slots && owner == s.owner && pending == s.pending
    ensures StoppedBelow(s, s.(slots := slots', owner := owner', pending := pending'), s.limit)
    ensures list == RetireList(slots', |slots'|)
  {
    slots', owner', pending', list := slots, owner, pending, [];
    for k := 0 to |slots|
      invariant |slots'| == |slots|
      invariant StoppedBelow(s, s.(slots := slots', owner := owner', pending := pending'), k)
      invariant list == RetireList(slots', k)
    {
      ghost var s0 := s.(slots := slots', owner := owner', pending := pending');
      if slots'[k].busy {
        var n;
        owner', pending', n := StopWarpsOf(s, s0, core, owner', pending', k);
        slots' := slots'[k := slots'[k].(completed := slots'[k].completed + n)];
        if slots'[k].completed == slots'[k].warpCount {
          list := list + [(k, slots'[k].completion)];
        }
      }
      StoppedNext(s, s0, s.(slots := slots', owner := owner', pending := pending'), k, list);
    }
  }

  method AnyWaits(core: seq<Warp>) returns (any: bool)
    ensures any <==> exists i | 0 <= i < |core| :: core[i].status.Barrier?
  {
    any := false;
    for i := 0 to |core|
      invariant any <==> exists j | 0 <= j < i :: core[j].status.Barrier?
    {
      if core[i].status.Barrier? {
        any := true;
      }
    }
  }

  /** What HandleBarrierWarps does for one slot: the slot with its mark, and the warps to resume. */
  method VisitBarrier(ghost s: State, core: seq<Warp>, owner: seq<int>, slot: Slot, k: nat)
    returns (slot': Slot, waiters: set<nat>, deadlock: bool)
    requires Sized(s) && core == s.core && owner == s.owner && k < s.limit && slot == s.slots[k]
    ensures deadlock <==> Deadlocked(s, k)
    ensures !deadlock ==> slot' == BarrierSlot(s, k) && waiters == if Assembled(s, k) then AtBarrier(s, k) else {}
  {
    slot', waiters, deadlock := slot, {}, false;
    if slot.busy && !slot.aborting {
      var n := BarrierCount(core, owner, k);
      if slot.completed > 0 && n + slot.completed == slot.warpCount {
        deadlock := true;
      } else if n == slot.warpCount {
        var differ := BarrierPCsDiffer(core, owner, k);
        if !slot.divergenceReported && differ {
          slot' := slot.(divergenceReported := true);
        }
        waiters := BarrierMask(core, owner, k);
      }
    }
  }

  /** The loop of HandleBarrierWarps over the slots: the slots with their marks, whether any warp
      waits at all, the first deadlocked slot or -1, and the mask of the warps to resume. */
  method CollectBarriers(ghost s: State, core: seq<Warp>, slots: seq<Slot>, owner: seq<int>)
    returns (slots': seq<Slot>, any: bool, dead: int, mask: set<nat>)
    requires Sized(s) && core == s.core && slots == s.slots && owner == s.owner
    ensures dead < s.limit && (any <==> AnyAtBarrier(s))
    ensures dead >= 0 ==> HandleBarriers(s) == s.(slots := slots', phase := Halted(dead))
    ensures dead < 0 && (!any || mask == {}) ==> HandleBarriers(s) == s.(slots := slots')
    ensures dead < 0 && any && mask != {} ==> HandleBarriers(s) == Try(s.(slots := slots'), Resume(mask))
  {
    slots', dead, mask := slots, -1, {};
    any := AnyWaits(core);
    if !any {
      return;
    }
    for k := 0 to |slots|
      invariant |slots'| == |slots| && BarriersBelow(s, s.(slots := slots'), mask, k)
    {
      ghost var s0, mask0 := s.(slots := slots'), mask;
      var slot, waiters, deadlock := VisitBarrier(s, core, owner, slots'[k], k);
      if deadlock {
        DeadlockAt(s, s0, mask, k);
        dead := k;
        return;
      }
      slots', mask := slots'[k := slot], mask + waiters;
      BarriersNext(s, s0, s.(slots := slots'), mask0, mask, k);
    }
    BarriersAll(s, s.(slots := slots'), mask);
  }

  /** `order` without slot `k`. */
  method Erase(order: seq<nat>, k: nat) returns (kept: seq<nat>)
    ensures kept == Without(order, k)
  {
    kept := [];
    for j := 0 to |order|
      invariant kept + Without(order[j..], k) == Without(order, k)
    {
      assert order[j..] == [order[j]] + order[j + 1..];
      if order[j] != k {
        kept := kept + [order[j]];
      }
    }
  }

  class Initializer {
    const limit: nat
    const threadsPerWarp: nat
    const fifoSize: nat

    var slots: seq<Slot>
    var owner: seq<int>
    var pending: seq<bool>
    var order: seq<nat>
    var count: int
    var dispatch: seq<Group>
    var dequeue: seq<Report>

    // The core, as its masks, CSRs and readiness show it.
    var core: seq<Warp>
    var credit: nat

    // History; a group's ticket is its position in `arrivals`.
    var arrivals: seq<Group>
    ghost var phase: Phase
    ghost var enqueued: seq<Group>
    ghost var log: seq<Command>
    ghost var delivered: seq<(nat, Report)>
    ghost var trapped: set<nat>
    ghost var firstTrap: map<nat, Report>

    ghost function State(): WgScheduler.State
      reads this
    {
      WgScheduler.State(limit, threadsPerWarp, fifoSize, slots, owner, pending, order, count, dispatch, dequeue,
                        core, credit, phase, enqueued, arrivals, log, delivered, trapped, firstTrap)
    }

    constructor (limit: nat, threadsPerWarp: nat, fifoSize: nat, core: seq<Warp>, credit: nat)
      requires threadsPerWarp > 0
      requires forall i | 0 <= i < |core| :: core[i].status.Idle? && !core[i].stopping
      ensures Init(State()) && this.limit == limit && this.core == core && this.credit == credit
    {
      this.limit, this.threadsPerWarp, this.fifoSize := limit, threadsPerWarp, fifoSize;
      slots := seq(limit, k => VACANT);
      owner := seq(|core|, i => -1);
      pending := seq(|core|, i => false);
      order, count, dispatch, dequeue := [], 0, [], [];
      this.core, this.credit := core, credit;
      arrivals := [];
      phase, enqueued, log, delivered, trapped, firstTrap := Waiting, [], [], [], {}, map[];
    }

    /** Whether the core accepted, and so applied, the command. */
    method TryWarpCtrlCommand(c: Command) returns (accepted: bool)
      modifies this
      ensures accepted == (old(credit) > 0)
      ensures State() == Try(old(State()), c)
    {
      accepted := credit > 0;
      if accepted {
        credit := credit - 1;
        core := Apply(core, c);
        log := log + [c];
      }
    }

    method HandleExceptionWarps()
      requires Sized(State())
      modifies this
      ensures State() == HandleExceptions(old(State()))
    {
      ghost var s := State();
      var mask := set i | 0 <= i < |core| && core[i].status.Trapped? && !pending[i];
      for k := 0 to |slots|
        invariant State() == s.(slots := slots) && |slots| == |s.slots|
        invariant forall j | 0 <= j < k :: slots[j] == ExceptionSlot(s, j)
        invariant forall j | k <= j < |slots| :: slots[j] == s.slots[j]
      {
        if !slots[k].busy {
          continue;
        }
        ghost var raised, errors := Raised(s, k), RaisedErrors(s, k);
        assert Candidates(mask, owner, k) == raised && Errors(mask, core, owner, k) == errors;
        var first := FindFirstExceptionWarp(mask, core, owner, k, false);
        if first < 0 {
          continue;
        }
        var trap := CheckForErrorException(mask, core, owner, k);
        if !slots[k].aborting && trap {
          var i := FindFirstExceptionWarp(mask, core, owner, k, true);
          assert i == Least(errors, |s.owner|);
          slots := slots[k := slots[k].(
            aborting := true,
            completion := Report(slots[k].kernelPc, slots[k].infoPtr, Exception, core[i].mcause % 0x1_0000_0000,
                                 core[i].mepc, core[i].mtval),
            completed := slots[k].completed + NatDiff(slots[k].warpCount, slots[k].activated),
            activated := slots[k].warpCount)];
        }
        if !slots[k].aborting {
          assert first == Least(raised, |s.owner|);
          slots := slots[k := slots[k].(
            completion := Report(slots[k].kernelPc, slots[k].infoPtr, Okay, core[first].mcause % 0x1_0000_0000,
                                 core[first].mepc, core[first].mtval))];
        }
        assert slots[k] == ExceptionSlot(s, k);
      }
      assert slots == HandleExceptions(s).slots;
    }

    method IssueTerminations()
      requires Sized(State()) && forall i | 0 <= i < |owner| :: owner[i] < limit
      modifies this
      ensures State() == WgScheduler.IssueTerminations(old(State()))
    {
      ghost var s := State();
      var aborts, releases := {}, {};
      for i := 0 to |owner|
        invariant aborts == set j: nat | j < i && Abortable(s, j)
        invariant releases == set j: nat | j < i && Releasable(s, j)
      {
        if owner[i] < 0 || pending[i] {
          continue;
        }
        if core[i].status.Trapped? {
          releases := releases + {i};
        } else if slots[owner[i]].aborting && (core[i].status.Active? || core[i].status.Barrier?) {
          aborts := aborts + {i};
        }
      }
      assert aborts == AbortSet(s) && releases == ReleaseSet(s);
      if aborts != {} {
        var accepted := TryWarpCtrlCommand(Abort(aborts));
        if accepted {
          pending := Marked(pending, aborts);
        }
      }
      assert State() == Terminate(s, Abort(aborts));
      if releases != {} {
        var accepted := TryWarpCtrlCommand(Release(releases));
        if accepted {
          pending := Marked(pending, releases);
        }
      }
    }

    /** Ends the ownership of drained warps, and lists the groups that finished. */
    method HandleStoppedWarps() returns (list: seq<(nat, Report)>)
      requires Sized(State()) && OwnersBusy(State())
      modifies this
      ensures State() == HandleStopped(old(State())) && phase == Retiring(list)
    {
      ghost var s := State();
      slots, owner, pending, list := StopWarps(s, core, slots, owner, pending);
      StoppedAll(s, State());
      phase := Retiring(list);
    }

    /** Retires the first group on the list; the caller waits until the dequeue FIFO has room. */
    method RetireWG(list: seq<(nat, Report)>)
      requires Sized(State()) && phase == Retiring(list) && list != [] && list[0].0 < limit
      requires |dequeue| < fifoSize
      modifies this
      ensures State() == Retire(old(State()))
    {
      var (k, report) := list[0];
      var kept := Erase(order, k);
      dequeue, delivered := dequeue + [report], delivered + [(slots[k].ticket, report)];
      slots, count, order, phase := slots[k := slots[k].(busy := false)], count - 1, kept, Retiring(list[1..]);
    }

    /** Resumes every group whose barrier is complete. A deadlock is fatal: it ends the run. */
    method HandleBarrierWarps() returns (deadlock: bool)
      requires Sized(State()) && !phase.Halted?
      modifies this
      ensures State() == HandleBarriers(old(State())) && deadlock == phase.Halted?
    {
      ghost var s := State();
      var any, dead, mask;
      slots, any, dead, mask := CollectBarriers(s, core, slots, owner);
      deadlock := dead >= 0;
      if deadlock {
        phase := Halted(dead);
      } else if any && mask != {} {
        var accepted := TryWarpCtrlCommand(Resume(mask));
      }
    }

    /** Activates the warps in `mask` for the group in slot `k`, if the core accepts. */
    method ActivateWarps(k: nat, mask: set<nat>) returns (accepted: bool)
      requires k < |slots|
      modifies this
      ensures accepted == (old(credit) > 0)
      ensures State() == if accepted then Place(old(State()), k, mask) else old(State())
    {
      accepted := TryWarpCtrlCommand(Activate(slots[k].ticket, mask, slots[k].kernelPc, slots[k].infoPtr,
                                              slots[k].activated));
      if !accepted {
        return;
      }
      slots := slots[k := slots[k].(activated := slots[k].activated + |mask|)];
      AssignOwner(mask, k);
    }

    method DispatchRemainingWarps()
      requires Sized(State()) && OrderInRange(State())
      modifies this
      ensures State() == DispatchRemaining(old(State()))
    {
      ghost var s := State();
      var k := FindPartial(slots, order);
      if k >= 0 {
        var mask := PickFree(core, owner, slots[k].warpCount - slots[k].activated);
        RemainingIs(s, k, mask);
        if mask != {} {
          var accepted := ActivateWarps(k, mask);
        }
      }
    }

    method AssignOwner(mask: set<nat>, k: nat)
      modifies this`owner
      ensures owner == Assign(old(owner), mask, k)
    {
      ghost var before := owner;
      for i := 0 to |owner|
        invariant |owner| == |before|
        invariant forall j | 0 <= j < |owner| :: owner[j] == if j < i && j in mask then k else before[j]
      {
        if i in mask {
          owner := owner[i := k];
        }
      }
    }

    method DispatchNewWG()
      requires Sized(State())
      modifies this
      ensures State() == DispatchNew(old(State()))
    {
      ghost var s := State();
      if dispatch == [] || count >= limit {
        return;
      }
      var probe := PickFree(core, owner, 1);
      ProbeIs(s, probe);
      if probe == {} {
        return;
      }
      var k := FindVacantProcessingWG(slots);
      if k < 0 || credit == 0 {
        return;
      }
      var g := dispatch[0];
      var ticket := |arrivals|;
      dispatch := dispatch[1..];
      arrivals := arrivals + [g];
      var warpCount := (g.groupSize + threadsPerWarp - 1) / threadsPerWarp;
      var mask := PickFree(core, owner, warpCount);
      NewIs(s, k, mask);
      if mask == {} {
        return;
      }
      StartGroup(s, ticket, g, k, warpCount, mask);
    }

    /** Activates the first warps of a group just read from the FIFO, and gives it slot `k`. The core
        was seen to accept, so it does. */
    method StartGroup(ghost s: WgScheduler.State, ticket: nat, g: Group, k: nat, warpCount: nat, mask: set<nat>)
      requires Sized(s) && s.dispatch != [] && k < s.limit && s.credit > 0 && State() == ReadGroup(s)
      requires ticket == |s.arrivals| && g == s.dispatch[0] && warpCount == WarpCount(s, g)
      modifies this
      ensures State() == Place(Install(s, k), k, mask)
    {
      PlaceInstalled(s, k, mask);
      var accepted := TryWarpCtrlCommand(Activate(ticket, mask, g.kernelPc, g.infoPtr, 0));
      assert accepted;
      slots := slots[k := VACANT.(busy := true, ticket := ticket, kernelPc := g.kernelPc, infoPtr := g.infoPtr,
                                  groupSize := g.groupSize, warpCount := warpCount, activated := |mask|)];
      count := count + 1;
      AssignOwner(mask, k);
      order := order + [k];
    }

    /** ProcessThread up to the retire list. */
    method BeginProcess() returns (list: seq<(nat, Report)>)
      requires Sized(State()) && OwnersBusy(State())
      modifies this
      ensures State() == BeginPass(old(State())) && phase == Retiring(list)
    {
      firstTrap := Sightings(State(), limit);
      ghost var s := State();
      OwnersStayBusy(s);
      HandleExceptionWarps();
      IssueTerminations();
      list := HandleStoppedWarps();
    }

    /** ProcessThread after the last retirement. */
    method EndProcess() returns (deadlock: bool)
      requires Sized(State()) && OrderInRange(State()) && phase == Retiring([])
      modifies this
      ensures State() == EndPass(old(State())) && deadlock == phase.Halted?
    {
      deadlock := HandleBarrierWarps();
      if !deadlock {
        DispatchRemainingWarps();
        DispatchNewWG();
        phase := Waiting;
      }
    }
  }

  // ---- Loop bookkeeping -------------------------------------------------------------------

  ghost predicate OwnersBusy(s: State)
    requires Sized(s)
  {
    forall i | 0 <= i < |s.owner| :: s.owner[i] < s.limit && (s.owner[i] >= 0 ==> s.slots[s.owner[i]].busy)
  }

  lemma {:induction false} OwnersStayBusy(s: State)
    requires Sized(s) && OwnersBusy(s)
    ensures var s1 := HandleExceptions(s);
            Sized(s1) && OwnersBusy(s1) && Sized(IssueTerminations(s1)) && OwnersBusy(IssueTerminations(s1))
  {
    var s1 := HandleExceptions(s);
    forall i | 0 <= i < |s.owner| && s.owner[i] >= 0 ensures s1.slots[s.owner[i]].busy {
      assert s1.slots[s.owner[i]] == ExceptionSlot(s, s.owner[i]);
    }
  }

  /** Warp `i` once the loop has gone through the slots below `k`, and the warps below `n` of slot `k`. */
  ghost predicate Stopped(s: State, owner: seq<int>, pending: seq<bool>, i: nat, k: nat, n: nat)
    requires Sized(s) && |owner| == |s.owner| == |pending| && i < |s.owner|
  {
    var done := Drained(s, i) && (s.owner[i] < k || (s.owner[i] == k && i < n));
    owner[i] == (if done then -1 else s.owner[i]) && pending[i] == (s.pending[i] && !done)
  }

  ghost predicate StoppedBelow(s: State, s': State, k: nat)
    requires Sized(s) && k <= s.limit
  {
    && s' == s.(slots := s'.slots, owner := s'.owner, pending := s'.pending)
    && |s'.slots| == |s.slots| && |s'.owner| == |s.owner| == |s'.pending|
    && (forall j | 0 <= j < k :: s'.slots[j] == StoppedSlot(s, j))
    && (forall j | k <= j < |s.slots| :: s'.slots[j] == s.slots[j])
    && (forall i | 0 <= i < |s.owner| :: Stopped(s, s'.owner, s'.pending, i, k, 0))
  }

  lemma {:induction false} StoppedNext(s: State, s0: State, s': State, k: nat, list: seq<(nat, Report)>)
    requires Sized(s) && OwnersBusy(s) && k < s.limit && StoppedBelow(s, s0, k)
    requires s' == s.(slots := s'.slots, owner := s'.owner, pending := s'.pending)
    requires |s'.owner| == |s.owner| == |s'.pending|
    requires !s.slots[k].busy ==> s' == s0
    requires s.slots[k].busy ==> forall i | 0 <= i < |s.owner| :: Stopped(s, s'.owner, s'.pending, i, k, |s.owner|)
    requires s'.slots == s0.slots[k := StoppedSlot(s, k)]
    requires list == RetireList(s0.slots, k) + if Finished(s'.slots[k]) then [(k, s'.slots[k].completion)] else []
    ensures StoppedBelow(s, s', k + 1) && list == RetireList(s'.slots, k + 1)
  {
    var next := k + 1;
    forall i | 0 <= i < |s.owner| ensures Stopped(s, s'.owner, s'.pending, i, next, 0) {
      assert s.slots[k].busy ==> Stopped(s, s'.owner, s'.pending, i, k, |s.owner|);
      assert Stopped(s, s0.owner, s0.pending, i, k, 0);
    }
    RetireListPrefix(s0.slots, s'.slots, k);
  }

  lemma {:induction false} StoppedAll(s: State, s': State)
    requires Sized(s) && OwnersBusy(s) && StoppedBelow(s, s', s.limit)
    ensures HandleStopped(s) == s'.(phase := Retiring(RetireList(s'.slots, |s'.slots|)))
  {
    forall i | 0 <= i < |s.owner|
      ensures s'.owner[i] == HandleStopped(s).owner[i] && s'.pending[i] == HandleStopped(s).pending[i]
    {
      assert Stopped(s, s'.owner, s'.pending, i, s.limit, 0);
    }
    assert s'.slots == HandleStopped(s).slots;
    assert s'.owner == HandleStopped(s).owner && s'.pending == HandleStopped(s).pending;
  }

  lemma RetireListPrefix(slots: seq<Slot>, slots': seq<Slot>, n: nat)
    requires n <= |slots| == |slots'| && slots[..n] == slots'[..n]
    ensures RetireList(slots, n) == RetireList(slots', n)
  {
    if n > 0 {
      assert slots[n - 1] == slots[..n][n - 1] == slots'[n - 1];
      assert slots[..n - 1] == slots[..n][..n - 1] == slots'[..n - 1];
    }
  }

  ghost function ResumeBelow(s: State, k: nat): set<nat>
    requires Sized(s) && k <= s.limit
  {
    set i | i in ResumeSet(s) && s.owner[i] < k
  }

  /** The state, and the Resume mask, once the loop has gone through the slots below `k`. */
  ghost predicate BarriersBelow(s: State, s': State, mask: set<nat>, k: nat)
    requires Sized(s) && k <= s.limit
  {
    && s' == s.(slots := s'.slots) && |s'.slots| == |s.slots|
    && (forall j | 0 <= j < k :: s'.slots[j] == BarrierSlot(s, j) && !Deadlocked(s, j))
    && (forall j | k <= j < |s.slots| :: s'.slots[j] == s.slots[j])
    && mask == ResumeBelow(s, k)
  }

  lemma {:induction false} BarriersNext(s: State, s0: State, s': State, mask0: set<nat>, mask: set<nat>, k: nat)
    requires Sized(s) && k < s.limit && BarriersBelow(s, s0, mask0, k) && !Deadlocked(s, k)
    requires s' == s.(slots := s'.slots) && s'.slots == s0.slots[k := BarrierSlot(s, k)]
    requires mask == if Assembled(s, k) then mask0 + AtBarrier(s, k) else mask0
    ensures BarriersBelow(s, s', mask, k + 1)
  {
    assert ResumeBelow(s, k + 1) == if Assembled(s, k) then ResumeBelow(s, k) + AtBarrier(s, k) else ResumeBelow(s, k);
  }

  lemma {:induction false} BarriersAll(s: State, s': State, mask: set<nat>)
    requires Sized(s) && AnyAtBarrier(s) && BarriersBelow(s, s', mask, s.limit)
    ensures HandleBarriers(s) == if mask == {} then s' else Try(s', Resume(mask))
  {
    assert ResumeBelow(s, s.limit) == ResumeSet(s);
    assert DeadlockSet(s) == {};
    assert s'.slots == seq(|s.slots|, j requires 0 <= j < |s.slots| => BarrierSlot(s, j));
  }

  lemma {:induction false} RemainingIs(s: State, k: nat, mask: set<nat>)
    requires Sized(s) && OrderInRange(s) && FirstPartial(s.slots, s.order) == Some(k)
    requires mask == Lowest(Free(s.core, s.owner), 0, |s.owner|, s.slots[k].warpCount - s.slots[k].activated)
    ensures mask == {} || s.credit == 0 ==> DispatchRemaining(s) == s
    ensures mask != {} && s.credit > 0 ==> DispatchRemaining(s) == Place(s, k, mask)
  {
    assert mask == Chosen(s, k);
    assert DispatchRemaining(s) == PlaceMore(s, k, mask);
  }

  lemma {:induction false} NewIs(s: State, k: nat, mask: set<nat>)
    requires Sized(s) && s.dispatch != [] && s.count < s.limit && FreeWarps(s) != {} && s.credit > 0
    requires IsLeast(k, VacantIn(s.slots))
    requires mask == Lowest(Free(s.core, s.owner), 0, |s.owner|, WarpCount(s, s.dispatch[0]))
    ensures k < s.limit && DispatchNew(s) == if mask == {} then ReadGroup(s) else Place(Install(s, k), k, mask)
  {
    assert Vacancies(s) != {} && k == Least(Vacancies(s), s.limit);
  }

  /** Installing a group and placing its first warps, field by field. */
  lemma {:induction false} PlaceInstalled(s: State, k: nat, mask: set<nat>)
    requires Sized(s) && s.dispatch != [] && k < s.limit && s.credit > 0
    ensures var g := s.dispatch[0];
            var c := Activate(|s.arrivals|, mask, g.kernelPc, g.infoPtr, 0);
            Place(Install(s, k), k, mask)
            == s.(dispatch := s.dispatch[1..], arrivals := s.arrivals + [g],
                  credit := s.credit - 1, core := Apply(s.core, c), log := s.log + [c],
                  slots := s.slots[k := VACANT.(busy := true, ticket := |s.arrivals|,
                                                kernelPc := g.kernelPc, infoPtr := g.infoPtr, groupSize := g.groupSize,
                                                warpCount := WarpCount(s, g), activated := |mask|)],
                  count := s.count + 1, owner := Assign(s.owner, mask, k), order := s.order + [k])
  {
  }

  lemma {:induction false} DeadlockAt(s: State, s0: State, mask: set<nat>, k: nat)
    requires Sized(s) && AnyAtBarrier(s) && k < s.limit && BarriersBelow(s, s0, mask, k) && Deadlocked(s, k)
    ensures HandleBarriers(s) == s0.(phase := Halted(k))
  {
    assert k in DeadlockSet(s);
    assert IsLeast(k, DeadlockSet(s));
    assert s0.slots == HandleBarriers(s).slots;
  }

  lemma {:induction false} LowestReaches(xs: set<nat>, from: nat, bound: nat, x: nat)
    requires from <= x < bound && x in xs
    ensures Lowest(xs, from, bound, 1) != {}
    decreases bound - from
  {
    if from !in xs {
      LowestReaches(xs, from + 1, bound, x);
    } else {
      assert from in Lowest(xs, from, bound, 1);
    }
  }

  lemma {:induction false} LowestWithin(xs: set<nat>, from: nat, bound: nat, n: nat)
    ensures Lowest(xs, from, bound, n) <= xs
    decreases bound - from
  {
    if from < bound && n > 0 {
      LowestWithin(xs, from + 1, bound, if from in xs then n - 1 else n);
    }
  }

  lemma {:induction false} ProbeIs(s: State, probe: set<nat>)
    requires Sized(s) && probe == Lowest(Free(s.core, s.owner), 0, |s.owner|, 1)
    ensures probe == {} <==> FreeWarps(s) == {}
  {
    var free := Free(s.core, s.owner);
    LowestWithin(free, 0, |s.owner|, 1);
    if i :| i in free {
      LowestReaches(free, 0, |s.owner|, i);
    }
  }
}
