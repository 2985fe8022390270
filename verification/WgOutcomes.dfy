/** What the command processor can rely on: warps go out in arrival order, every group comes back
    exactly once, and it comes back with the right report. */
module WgOutcomes {
  import Runs
  import opened WarpCore
  import opened WgInvariant
  import opened WgPasses
  import opened WgScheduler
  import opened WgTheorems

  // ---- Arrival order ----------------------------------------------------------------------

  ghost predicate Ordered(log: seq<Command>) {
    forall i, j | 0 <= i < j < |log| :: log[i].Activate? && log[j].Activate? ==> log[i].ticket <= log[j].ticket
  }

  ghost predicate NoneAfter(log: seq<Command>, ticket: nat) {
    forall j | 0 <= j < |log| :: log[j].Activate? ==> log[j].ticket <= ticket
  }

  ghost predicate InOrder(s: State) {
    Ordered(s.log) && forall k | 0 <= k < |s.slots| && Partial(s.slots[k]) :: NoneAfter(s.log, s.slots[k].ticket)
  }

  /** The log grows only by commands that activate nothing. */
  ghost predicate Quiet(log: seq<Command>, log': seq<Command>) {
    |log| <= |log'| && log'[..|log|] == log && forall j | |log| <= j < |log'| :: !log'[j].Activate?
  }

  lemma {:induction false} QuietInOrder(s: State, s': State)
    requires InOrder(s) && |s.slots| == |s'.slots| && Quiet(s.log, s'.log)
    requires forall k | 0 <= k < |s.slots| && Partial(s'.slots[k]) ::
               Partial(s.slots[k]) && s'.slots[k].ticket == s.slots[k].ticket
    ensures InOrder(s')
  {
    assert forall j | 0 <= j < |s.log| :: s'.log[j] == s.log[j];
    forall k | 0 <= k < |s.slots| && Partial(s'.slots[k]) ensures NoneAfter(s'.log, s'.slots[k].ticket) {
      assert NoneAfter(s.log, s.slots[k].ticket);
    }
  }

  lemma {:induction false} BeginInOrder(s: State)
    requires Sized(s) && InOrder(s) && forall k | 0 <= k < s.limit :: SlotOk(s, k)
    ensures InOrder(BeginPass(s))
  {
    var s1 := HandleExceptions(s.(firstTrap := Sightings(s, s.limit)));
    TerminationsQuiet(s1);
    forall k | 0 <= k < s.limit
      ensures Partial(BeginPass(s).slots[k]) ==> Partial(s.slots[k])
      ensures BeginPass(s).slots[k].ticket == s.slots[k].ticket
    {
      assert SlotOk(s, k);
      BeginSlot(s, k);
    }
    QuietInOrder(s, BeginPass(s));
  }

  lemma {:induction false} TerminationsQuiet(s: State)
    requires Sized(s)
    ensures Quiet(s.log, IssueTerminations(s).log) && IssueTerminations(s).slots == s.slots
    ensures Sized(IssueTerminations(s))
  {
    var a := Terminate(s, Abort(AbortSet(s)));
    TerminateQuiet(s, Abort(AbortSet(s)));
    TerminateQuiet(a, Release(ReleaseSet(s)));
  }

  lemma {:induction false} TerminateQuiet(s: State, c: Command)
    requires Sized(s) && !c.Activate?
    ensures var s' := Terminate(s, c); Quiet(s.log, s'.log) && s'.slots == s.slots && Sized(s') && s'.limit == s.limit
  {
  }

  lemma {:induction false} BeginSlot(s: State, k: nat)
    requires Sized(s) && k < s.limit && SlotOk(s, k)
    ensures Partial(BeginPass(s).slots[k]) ==> Partial(s.slots[k])
    ensures BeginPass(s).slots[k].ticket == s.slots[k].ticket
  {
    var s1 := HandleExceptions(s.(firstTrap := Sightings(s, s.limit)));
    ExceptionsKeepWhole(s, k);
    TerminationsQuiet(s1);
    StoppedKeepsWhole(IssueTerminations(s1), k);
  }

  lemma {:induction false} ExceptionsKeepWhole(s: State, k: nat)
    requires Sized(s) && k < s.limit && SlotOk(s, k)
    ensures var slot := HandleExceptions(s.(firstTrap := Sightings(s, s.limit))).slots[k];
            (Partial(slot) ==> Partial(s.slots[k])) && slot.ticket == s.slots[k].ticket
  {
  }

  lemma {:induction false} StoppedKeepsWhole(s: State, k: nat)
    requires Sized(s) && k < s.limit
    ensures var slot := HandleStopped(s).slots[k];
            (Partial(slot) ==> Partial(s.slots[k])) && slot.ticket == s.slots[k].ticket
  {
  }

  lemma {:induction false} PlaceInOrder(s: State, k: nat, mask: set<nat>)
    requires InOrder(s) && k < |s.slots| && Partial(s.slots[k]) && s.credit > 0
    requires forall j | 0 <= j < |s.slots| && Partial(s.slots[j]) :: j == k
    ensures InOrder(Place(s, k, mask))
  {
    var s' := Place(s, k, mask);
    assert NoneAfter(s.log, s.slots[k].ticket);
    forall j | 0 <= j < |s'.slots| && Partial(s'.slots[j]) ensures NoneAfter(s'.log, s'.slots[j].ticket) {
      assert j == k;
    }
  }

  lemma {:induction false} EndInOrder(s: State)
    requires Inv(s) && s.phase == Retiring([]) && InOrder(s)
    ensures InOrder(EndPass(s))
  {
    var b := HandleBarriers(s);
    BarriersInv(s);
    BarriersStep(s);
    QuietInOrder(s, b);
    if !b.phase.Halted? {
      RemainingInv(b);
      RemainingInOrder(b);
      NewInOrder(DispatchRemaining(b));
    }
  }

  lemma {:induction false} RemainingInOrder(s: State)
    requires Scheduling(s) && InOrder(s)
    ensures InOrder(DispatchRemaining(s))
  {
    FirstPartialIs(s);
    var first := FirstPartial(s.slots, s.order);
    if first.Some? {
      var k := first.value;
      var mask := Chosen(s, k);
      assert DispatchRemaining(s) == PlaceMore(s, k, mask);
      if mask != {} && s.credit > 0 {
        PlaceInOrder(s, k, mask);
      }
    }
  }

  lemma {:induction false} NewInOrder(s: State)
    requires Scheduling(s) && InOrder(s) && Settled(s)
    ensures InOrder(DispatchNew(s))
  {
    var s' := DispatchNew(s);
    if |s'.log| == |s.log| {
      QuietInOrder(s, s');
    } else {
      var k := Least(Vacancies(s), s.limit);
      var mask := Lowest(FreeWarps(s), 0, |s.owner|, WarpCount(s, s.dispatch[0]));
      var s1 := Install(s, k);
      NewMask(s, mask);
      WarpCountIs(s, s.dispatch[0]);
      assert forall j | 0 <= j < s.limit && Partial(s1.slots[j]) :: j == k;
      assert InOrder(s1);
      PlaceInOrder(s1, k, mask);
    }
  }

  lemma {:induction false} StepInOrder(s: State, s': State)
    requires Inv(s) && Step(s, s') && InOrder(s)
    ensures InOrder(s')
  {
    if CoreStep(s, s') || Enqueue(s, s') || Dequeue(s, s') {
      QuietInOrder(s, s');
    } else if s.phase.Waiting? {
      forall k | 0 <= k < s.limit ensures SlotOk(s, k) { assert SlotInv(s, k); }
      BeginInOrder(s);
    } else if s.phase.list != [] {
      QuietInOrder(s, s');
    } else {
      EndInOrder(s);
    }
  }

  ghost predicate OrderInv(s: State) {
    Inv(s) && InOrder(s) && Ordered(s.log)
  }

  /** Warps go to work-groups in arrival order: over a whole run, no Activate is accepted for a group
      after one for a group that arrived later. */
  lemma {:induction false} ActivatesInArrivalOrder(s: State)
    requires Reachable(s)
    ensures InOrder(s) && Ordered(s.log)
  {
    forall s | Init(s) ensures OrderInv(s) {
      InitInv(s);
    }
    forall s, s' | OrderInv(s) && Step(s, s') ensures OrderInv(s') {
      StepInv(s, s');
      StepInOrder(s, s');
    }
    Runs.HoldsWhenReached(Init, Step, OrderInv, s);
  }

  /** At most one resident group is partly activated, and it is the youngest. */
  lemma {:induction false} PartialGroupIsYoungest(s: State, j: nat, k: nat)
    requires Reachable(s) && j < |s.slots| && k < |s.slots| && Partial(s.slots[k]) && s.slots[j].busy && j != k
    ensures !Partial(s.slots[j]) && s.slots[j].ticket < s.slots[k].ticket
  {
    ReachableInv(s);
    var p :| 0 <= p < |s.order| && s.order[p] == j;
    assert p < |s.order| - 1;
  }

  // ---- Delivery ---------------------------------------------------------------------------

  /** A group that was read from the dispatch FIFO is, from then on, in exactly one of two places: in
      one slot, or once among the delivered reports, under its own kernel and info pointer. A group
      of size 0 is in neither: it is dropped. */
  lemma {:induction false} DeliveredExactlyOnce(s: State, t: nat)
    requires Reachable(s) && t < |s.arrivals|
    ensures s.arrivals[t].groupSize == 0 ==> !Resident(s, t) && !Delivered(s, t)
    ensures s.arrivals[t].groupSize > 0 ==> (Resident(s, t) <==> !Delivered(s, t))
    ensures forall i, j | 0 <= i < |s.delivered| && 0 <= j < |s.delivered| ::
              s.delivered[i].0 == s.delivered[j].0 == t ==> i == j
    ensures forall j | 0 <= j < |s.delivered| && s.delivered[j].0 == t ::
              s.delivered[j].1.kernelPc == s.arrivals[t].kernelPc && s.delivered[j].1.infoPtr == s.arrivals[t].infoPtr
    ensures s.arrivals <= s.enqueued
  {
    ReachableInv(s);
    if Resident(s, t) {
      var k :| 0 <= k < |s.slots| && s.slots[k].busy && s.slots[k].ticket == t;
      assert SlotInv(s, k);
      WarpCountIs(s, s.arrivals[t]);
    }
    if Delivered(s, t) {
      var j :| 0 <= j < |s.delivered| && s.delivered[j].0 == t;
      assert DeliveryOk(s, s.delivered[j]);
    }
    forall j | 0 <= j < |s.delivered| && s.delivered[j].0 == t
      ensures s.delivered[j].1.kernelPc == s.arrivals[t].kernelPc && s.delivered[j].1.infoPtr == s.arrivals[t].infoPtr
    {
      assert DeliveryOk(s, s.delivered[j]);
    }
    assert Fifos(s);
  }

  /** The accepted Activates of the group gave its kernel to the warps 0 to n - 1, each once, and n
      warps are just enough for its threads. */
  ghost predicate Covered(s: State, t: nat)
    requires t < |s.arrivals|
  {
    exists n: nat | Tiles(s.log, t, s.arrivals[t], n) :: JustHolds(n, s.threadsPerWarp, s.arrivals[t].groupSize)
  }

  /** A report says Exception exactly when a warp of the group trapped with a cause other than ecall,
      and then it is the report of the group's first trap; otherwise the accepted Activates covered
      every cwid of the group, each once, with its own kernel. */
  lemma {:induction false} ReportIsTrue(s: State, j: nat)
    requires Reachable(s) && j < |s.delivered|
    ensures Sized(s)
    ensures var (t, r) := s.delivered[j];
            && t < |s.arrivals|
            && (r.status.Exception? <==> t in s.trapped)
            && (r.status.Exception? ==> t in s.firstTrap && r == s.firstTrap[t])
            && (r.status.Okay? ==> r.mcause == ECALL && Covered(s, t))
  {
    ReachableInv(s);
    var (t, r) := s.delivered[j];
    assert DeliveryOk(s, s.delivered[j]);
    if r.status.Okay? {
      var n := WarpCount(s, s.arrivals[t]);
      WarpCountIs(s, s.arrivals[t]);
      assert Tiles(s.log, t, s.arrivals[t], n);
    }
  }

  /** A resident group is given as many warps as its threads fill, the last of them perhaps in part. */
  lemma {:induction false} WarpsHoldTheThreads(s: State, k: nat)
    requires Reachable(s) && k < |s.slots| && s.slots[k].busy
    ensures s.slots[k].ticket < |s.arrivals|
    ensures JustHolds(s.slots[k].warpCount, s.threadsPerWarp, s.arrivals[s.slots[k].ticket].groupSize)
  {
    ReachableInv(s);
    assert SlotInv(s, k);
    WarpCountIs(s, s.arrivals[s.slots[k].ticket]);
  }

  /** What a group reports for its trap is decided by the first pass that sees one: the CSRs then of
      the lowest-numbered warp that trapped. */
  lemma {:induction false} FirstSightDecides(s: State, t: nat, r: Report)
    requires Reachable(s) && s.phase.Waiting? && Sized(s)
    ensures t in BeginPass(s).firstTrap && BeginPass(s).firstTrap[t] == r
            <==> (t in s.firstTrap && s.firstTrap[t] == r) || FirstSees(s, t, r)
  {
    ReachableInv(s);
    SightIsFirst(s, t, r);
  }

  lemma {:induction false} SightIsFirst(s: State, t: nat, r: Report)
    requires Sized(s) && TicketsDistinct(s)
    ensures var seen := Sightings(s, s.limit);
            t in seen && seen[t] == r <==> (t in s.firstTrap && s.firstTrap[t] == r) || FirstSees(s, t, r)
  {
    SightingsAre(s, s.limit);
    var seen := Sightings(s, s.limit);
    if t !in s.firstTrap {
      if t in seen {
        var k :| 0 <= k < |s.slots| && s.slots[k].busy && s.slots[k].ticket == t;
        assert Sighted(s, seen, k);
        assert IsLeast(Least(RaisedErrors(s, k), |s.owner|), RaisedErrors(s, k));
      }
      if FirstSees(s, t, r) {
        var k: nat, i: nat :| k < s.limit && i < |s.core| && s.slots[k].busy && s.slots[k].ticket == t
                              && IsLeast(i, RaisedErrors(s, k)) && r == ReportOf(s, k, Exception, i);
        assert Sighted(s, seen, k);
        LeastIsOne(i, Least(RaisedErrors(s, k), |s.owner|), RaisedErrors(s, k));
      }
    }
  }

  lemma {:induction false} LeastIsOne(m: nat, n: nat, xs: set<nat>)
    requires IsLeast(m, xs) && IsLeast(n, xs)
    ensures m == n
  {
  }

  /** Later passes, whatever the core refuses or raises, never change that report. */
  lemma {:induction false} FirstTrapStays(s: State, s': State, t: nat)
    requires Reachable(s) && Step(s, s') && t in s.firstTrap
    ensures t in s'.firstTrap && s'.firstTrap[t] == s.firstTrap[t]
  {
    ReachableInv(s);
    FirstTrapGrows(s, s');
  }

  lemma {:induction false} FirstTrapGrows(s: State, s': State)
    requires Step(s, s') && TicketsDistinct(s)
    ensures forall t | t in s.firstTrap :: t in s'.firstTrap && s'.firstTrap[t] == s.firstTrap[t]
  {
    SightingsAre(s, s.limit);
    EndKeepsFirstTrap(s);
  }

  lemma {:induction false} EndKeepsFirstTrap(s: State)
    requires Sized(s) && OrderInRange(s)
    ensures EndPass(s).firstTrap == s.firstTrap
  {
    var b := HandleBarriers(s);
    assert b.firstTrap == s.firstTrap;
    if !b.phase.Halted? {
      var r := DispatchRemaining(b);
      assert r.firstTrap == b.firstTrap;
      assert DispatchNew(r).firstTrap == r.firstTrap;
    }
  }

  // ---- Stopping ---------------------------------------------------------------------------

  /** A warp that runs for a group, and that has trapped itself or whose group has. */
  ghost predicate MustStop(s: State, seen: map<nat, Report>, i: nat)
    requires Sized(s) && i < |s.owner|
  {
    && 0 <= s.owner[i] < s.limit && !s.core[i].status.Idle?
    && (s.core[i].status.Trapped? || s.slots[s.owner[i]].ticket in seen)
  }

  /** A pass stops every warp of a group that has trapped, whatever the warp is doing, and every warp
      that trapped itself; it stops no other. The core has to take two commands, one to abort the
      warps that still run and one to release those that trapped. */
  lemma {:induction false} TrapStopsTheGroup(s: State, i: nat)
    requires Reachable(s) && s.phase.Waiting? && i < |s.owner|
    ensures Sized(s) && |BeginPass(s).core| == |s.owner|
    ensures BeginPass(s).core[i].stopping ==> MustStop(s, BeginPass(s).firstTrap, i)
    ensures s.credit >= 2 && MustStop(s, BeginPass(s).firstTrap, i) ==> BeginPass(s).core[i].stopping
  {
    ReachableInv(s);
    var e := HandleExceptions(s.(firstTrap := Sightings(s, s.limit)));
    assert Inv(e) by { ExceptionsInv(s); }
    StoppedByTermination(e, i);
    SameWarps(s, e, i);
  }

  lemma {:induction false} SameWarps(s: State, e: State, i: nat)
    requires Sized(s) && i < |s.owner| && e == HandleExceptions(s.(firstTrap := Sightings(s, s.limit)))
    ensures Sized(e) && (e.owner, e.core, e.credit, e.limit) == (s.owner, s.core, s.credit, s.limit)
    ensures MustStop(e, e.firstTrap, i) <==> MustStop(s, e.firstTrap, i)
    ensures (BeginPass(s).firstTrap, BeginPass(s).core) == (e.firstTrap, IssueTerminations(e).core)
  {
  }

  lemma {:induction false} StoppedByTermination(s: State, i: nat)
    requires Inv(s) && i < |s.owner|
    ensures Sized(s) && |IssueTerminations(s).core| == |s.owner|
    ensures IssueTerminations(s).core[i].stopping ==> MustStop(s, s.firstTrap, i)
    ensures s.credit >= 2 && MustStop(s, s.firstTrap, i) ==> IssueTerminations(s).core[i].stopping
  {
    assert WarpOk(s, i);
    if s.owner[i] >= 0 {
      assert SlotInv(s, s.owner[i]);
    }
    assert i in AbortSet(s) <==> Abortable(s, i);
    assert i in ReleaseSet(s) <==> Releasable(s, i);
    var a := Terminate(s, Abort(AbortSet(s)));
    TerminateStops(s, Abort(AbortSet(s)), i);
    TerminateStops(a, Release(ReleaseSet(s)), i);
  }

  lemma {:induction false} TerminateStops(s: State, c: Command, i: nat)
    requires i < |s.core| && (c.Abort? || c.Release?)
    ensures var s' := Terminate(s, c);
            && |s'.core| == |s.core| && s'.credit >= s.credit - 1
            && (s'.core[i].stopping <==> s.core[i].stopping || (s.credit > 0 && i in c.mask))
  {
  }
}
