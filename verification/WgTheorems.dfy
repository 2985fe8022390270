/** What holds in every reachable state of the work-group initializer, and that it never gets stuck. */
module WgTheorems {
  import Arithmetic
  import opened Options
  import Runs
  import opened WarpCore
  import opened WgInvariant
  import opened WgPasses
  import opened WgScheduler

  // ---- Every run keeps the invariant ------------------------------------------------------

  ghost predicate Step(s: State, s': State) {
    Sized(s) && OrderInRange(s) && Next(s, s')
  }

  lemma {:induction false} BeginPassInv(s: State)
    requires Inv(s) && s.phase.Waiting?
    ensures Inv(BeginPass(s)) && BeginPass(s).phase.Retiring?
  {
    ExceptionsInv(s);
    TerminationsInv(HandleExceptions(s.(firstTrap := Sightings(s, s.limit))));
    StoppedInv(IssueTerminations(HandleExceptions(s.(firstTrap := Sightings(s, s.limit)))));
  }

  lemma {:induction false} PhaseFrame(s: State)
    requires Inv(s) && NoneFinished(s)
    ensures Inv(s.(phase := Waiting))
  {
    var s' := s.(phase := Waiting);
    forall k | 0 <= k < s.limit ensures SlotInv(s', k) {
      assert SlotInv(s, k);
      assert Owned(s', k) == Owned(s, k) && RaisedErrors(s', k) == RaisedErrors(s, k);
    }
    forall i | 0 <= i < |s.owner| ensures WarpOk(s', i) { assert WarpOk(s, i); }
    DeliveryFrame(s, s');
  }

  lemma {:induction false} EndPassInv(s: State)
    requires Inv(s) && s.phase == Retiring([])
    ensures Inv(EndPass(s))
  {
    var b := HandleBarriers(s);
    BarriersInv(s);
    if !b.phase.Halted? {
      RemainingInv(b);
      NewInv(DispatchRemaining(b));
      PhaseFrame(DispatchNew(DispatchRemaining(b)));
    }
  }

  lemma {:induction false} StepInv(s: State, s': State)
    requires Inv(s) && Step(s, s')
    ensures Inv(s')
  {
    if CoreStep(s, s') {
      CoreStepInv(s, s');
    } else if Enqueue(s, s') || Dequeue(s, s') {
      QueueStepInv(s, s');
    } else if s.phase.Waiting? {
      BeginPassInv(s);
    } else if s.phase.list != [] {
      RetireInv(s);
    } else {
      EndPassInv(s);
    }
  }

  ghost predicate Reachable(s: State) {
    Runs.Reachable(Init, Step, s)
  }

  lemma {:induction false} ReachableInv(s: State)
    requires Reachable(s)
    ensures Inv(s)
  {
    forall s | Init(s) ensures Inv(s) {
      InitInv(s);
    }
    forall s, s' | Inv(s) && Step(s, s') ensures Inv(s') {
      StepInv(s, s');
    }
    Runs.HoldsWhenReached(Init, Step, Inv, s);
  }

  // ---- Barriers ---------------------------------------------------------------------------

  /** Resume names only warps of groups whose every warp was activated, none has exited, and all
      wait at a barrier, none of them being terminated. */
  lemma {:induction false} ResumeOnlyWholeGroups(s: State, i: nat)
    requires Reachable(s) && Sized(s) && i in ResumeSet(s)
    ensures var k := s.owner[i];
            && s.slots[k].activated == s.slots[k].warpCount == |Owned(s, k)| && s.slots[k].completed == 0
            && forall w | w in Owned(s, k) :: s.core[w].status.Barrier? && !s.pending[w] && w in ResumeSet(s)
  {
    ReachableInv(s);
    var k := s.owner[i];
    assert SlotInv(s, k);
    assert AtBarrier(s, k) <= Owned(s, k);
    Arithmetic.SubsetCard(AtBarrier(s, k), Owned(s, k));
    forall w | w in Owned(s, k) ensures s.core[w].status.Barrier? && !s.pending[w] && w in ResumeSet(s) {
      assert w in AtBarrier(s, k);
      assert WarpOk(s, w);
    }
  }

  /** Some warps of the group exited and every other one waits at a barrier, so none can ever be resumed. */
  ghost predicate Stranded(s: State, k: nat)
    requires Sized(s) && k < s.limit
  {
    && s.slots[k].busy && !s.slots[k].aborting && s.slots[k].completed > 0
    && s.slots[k].activated == s.slots[k].warpCount
    && forall w | w in Owned(s, k) :: s.core[w].status.Barrier?
  }

  /** The test on the counts finds exactly the stranded groups. */
  lemma {:induction false} DeadlockIsReal(s: State, k: nat)
    requires Reachable(s) && Sized(s) && k < s.limit
    ensures Deadlocked(s, k) <==> Stranded(s, k)
    ensures Deadlocked(s, k) ==> !Assembled(s, k)
  {
    ReachableInv(s);
    assert SlotInv(s, k);
    assert AtBarrier(s, k) <= Owned(s, k);
    Arithmetic.SubsetCard(AtBarrier(s, k), Owned(s, k));
    if (forall w | w in Owned(s, k) :: s.core[w].status.Barrier?) {
      assert AtBarrier(s, k) == Owned(s, k);
    } else {
      var w :| w in Owned(s, k) && !s.core[w].status.Barrier?;
      assert w !in AtBarrier(s, k);
    }
  }

  /** A stranded group that has not finished has a warp at a barrier. */
  lemma {:induction false} StrandedWaits(s: State, k: nat)
    requires Inv(s) && k < s.limit && Deadlocked(s, k) && !Finished(s.slots[k])
    ensures AnyAtBarrier(s)
  {
    assert AtBarrier(s, k) != {};
    var i :| i in AtBarrier(s, k);
    assert s.core[i].status.Barrier?;
  }

  /** A pass ends with a deadlock report exactly when a group is stranded, and reports the lowest such slot. */
  lemma {:induction false} DeadlockIsReported(s: State)
    requires Reachable(s) && s.phase == Retiring([])
    ensures Inv(s)
    ensures EndPass(s).phase.Halted? <==> exists k: nat | k < s.limit :: Stranded(s, k)
    ensures EndPass(s).phase.Halted? ==>
              var j := EndPass(s).phase.slot;
              j < s.limit && Stranded(s, j) && forall k: nat | k < j :: !Stranded(s, k)
  {
    ReachableInv(s);
    forall k: nat | k < s.limit
      ensures (k in DeadlockSet(s) <==> Stranded(s, k)) && (Stranded(s, k) ==> AnyAtBarrier(s))
    {
      DeadlockIsReal(s, k);
      if Stranded(s, k) {
        StrandedWaits(s, k);
      }
    }
    HaltsOnDeadlock(s);
  }

  lemma {:induction false} HaltsOnDeadlock(s: State)
    requires Inv(s) && s.phase == Retiring([])
    ensures EndPass(s).phase.Halted? <==> AnyAtBarrier(s) && DeadlockSet(s) != {}
    ensures EndPass(s).phase.Halted? ==> IsLeast(EndPass(s).phase.slot, DeadlockSet(s))
  {
  }

  // ---- No stuck state ---------------------------------------------------------------------

  /** Retires the whole list, as a pass does when the dequeue FIFO has room for it. */
  function RetireAll(s: State): State
    requires Sized(s) && s.phase.Retiring?
    decreases if s.phase.Retiring? then |s.phase.list| else 0
  {
    if s.phase.list == [] || s.phase.list[0].0 >= s.limit then s else RetireAll(Retire(s))
  }

  lemma {:induction false} RetireAllInv(s: State)
    requires Inv(s) && s.phase.Retiring?
    ensures Inv(RetireAll(s)) && RetireAll(s).phase == Retiring([])
    ensures RetireAll(s).log == s.log && |RetireAll(s).delivered| == |s.delivered| + |s.phase.list|
    decreases |s.phase.list|
  {
    if s.phase.list != [] {
      RetireInv(s);
      RetireAllInv(Retire(s));
    }
  }

  /** One whole pass with no wait in it. */
  ghost function Pass(s: State): State
    requires Inv(s) && s.phase.Waiting?
  {
    BeginPassInv(s);
    RetireAllInv(BeginPass(s));
    EndPass(RetireAll(BeginPass(s)))
  }

  ghost predicate Progress(s: State, s': State) {
    |s'.log| > |s.log| || |s'.delivered| > |s.delivered| || s'.phase.Halted?
  }

  /** A resident group, and no warp that runs or is being terminated. */
  ghost predicate Quiescent(s: State) {
    && (exists k | 0 <= k < |s.slots| :: s.slots[k].busy)
    && (forall i | 0 <= i < |s.core| :: !s.core[i].status.Active?)
    && (forall i | 0 <= i < |s.pending| :: !s.pending[i])
  }

  lemma {:induction false} NewLogGrows(s: State)
    requires Sized(s)
    ensures |DispatchNew(s).log| >= |s.log|
  {
  }

  lemma {:induction false} RemainingLogGrows(s: State)
    requires Sized(s) && OrderInRange(s)
    ensures |DispatchRemaining(s).log| >= |s.log| && Sized(DispatchRemaining(s))
  {
  }

  lemma {:induction false} BarriersLogGrows(s: State)
    requires Sized(s) && OrderInRange(s)
    ensures |HandleBarriers(s).log| >= |s.log| && Sized(HandleBarriers(s)) && OrderInRange(HandleBarriers(s))
  {
  }

  lemma {:induction false} LogGrows(s: State)
    requires Sized(s) && OrderInRange(s)
    ensures |EndPass(s).log| >= |s.log|
  {
    var b := HandleBarriers(s);
    BarriersLogGrows(s);
    if !b.phase.Halted? {
      RemainingLogGrows(b);
      NewLogGrows(DispatchRemaining(b));
    }
  }

  /** With nothing raised and nothing to abort, a pass reaches its barriers unchanged. */
  lemma {:induction false} QuietBegin(s: State)
    requires Inv(s) && s.phase.Waiting? && (forall i | 0 <= i < |s.pending| :: !s.pending[i])
    requires forall k | 0 <= k < s.limit && s.slots[k].busy :: Raised(s, k) == {}
    requires AbortSet(s) == {} && ReleaseSet(s) == {}
    ensures BeginPass(s) == s.(phase := Retiring([]))
  {
    assert forall n | 0 <= n <= s.limit :: Sightings(s, n) == s.firstTrap by { QuietSightings(s, s.limit); }
    var s0 := s.(firstTrap := Sightings(s, s.limit));
    assert s0 == s;
    assert HandleExceptions(s0).slots == s.slots by {
      forall k | 0 <= k < s.limit ensures ExceptionSlot(s, k) == s.slots[k] {}
    }
    QuietStopped(s);
  }

  lemma {:induction false} QuietSightings(s: State, n: nat)
    requires Sized(s) && n <= s.limit
    requires forall k | 0 <= k < s.limit && s.slots[k].busy :: Raised(s, k) == {}
    ensures forall m | 0 <= m <= n :: Sightings(s, m) == s.firstTrap
  {
    if n > 0 {
      QuietSightings(s, n - 1);
      assert s.slots[n - 1].busy ==> Raised(s, n - 1) == {};
    }
  }

  lemma {:induction false} QuietStopped(s: State)
    requires Sized(s) && NoneFinished(s) && (forall i | 0 <= i < |s.pending| :: !s.pending[i])
    ensures HandleStopped(s) == s.(phase := Retiring([]))
  {
    forall k | 0 <= k < s.limit ensures StoppedSlot(s, k) == s.slots[k] {
      assert DrainedOf(s, k) == {};
    }
    assert HandleStopped(s).slots == s.slots;
    assert HandleStopped(s).owner == s.owner && HandleStopped(s).pending == s.pending;
    NothingToRetire(s.slots, |s.slots|);
  }

  lemma NothingToRetire(slots: seq<Slot>, n: nat)
    requires n <= |slots| && forall k | 0 <= k < |slots| :: !Finished(slots[k])
    ensures RetireList(slots, n) == []
  {
  }

  /** A raised trap, or a running warp of an aborting group, gets a command accepted. */
  lemma {:induction false} TerminationAccepted(s: State)
    requires Inv(s) && s.phase.Waiting? && s.credit > 0
    requires ReleaseSet(s) != {} || AbortSet(s) != {}
    ensures |BeginPass(s).log| > |s.log|
  {
    var s1 := HandleExceptions(s.(firstTrap := Sightings(s, s.limit)));
    assert ReleaseSet(s1) == ReleaseSet(s);
    forall i | i in AbortSet(s) ensures i in AbortSet(s1) { assert Abortable(s, i); }
  }

  /** Every warp of every resident group waits at a barrier. */
  ghost predicate AllWait(s: State)
    requires Sized(s)
  {
    forall i | 0 <= i < |s.owner| && s.owner[i] >= 0 :: s.core[i].status.Barrier?
  }

  lemma {:induction false} QuietWarps(s: State)
    requires Inv(s) && Quiescent(s) && ReleaseSet(s) == {}
    ensures AllWait(s)
    ensures forall k | 0 <= k < s.limit && s.slots[k].busy :: Raised(s, k) == {}
  {
    forall i | 0 <= i < |s.owner| && s.owner[i] >= 0 ensures s.core[i].status.Barrier? {
      assert WarpOk(s, i);
      assert i !in ReleaseSet(s);
    }
  }

  lemma {:induction false} WholeGroupMoves(s: State, k: nat)
    requires Inv(s) && s.phase == Retiring([]) && s.credit > 0 && AllWait(s)
    requires k < s.limit && s.slots[k].busy && !Partial(s.slots[k]) && !s.slots[k].aborting
    ensures var b := HandleBarriers(s); |b.log| > |s.log| || b.phase.Halted?
  {
    assert SlotInv(s, k) && !Finished(s.slots[k]);
    assert AtBarrier(s, k) == Owned(s, k);
    var i :| i in Owned(s, k);
    assert s.core[i].status.Barrier?;
    if s.slots[k].completed > 0 {
      assert k in DeadlockSet(s);
    } else {
      assert i in ResumeSet(s);
    }
  }

  lemma {:induction false} LonePartialMoves(s: State, k: nat)
    requires Inv(s) && NoneFinished(s) && s.credit > 0
    requires k < s.limit && Partial(s.slots[k])
    requires forall j | 0 <= j < s.limit && s.slots[j].busy :: j == k
    ensures |DispatchRemaining(s).log| > |s.log|
  {
    assert SlotInv(s, k);
    FreeWarpExists(s, k);
    FirstPartialIs(s);
    assert FirstPartial(s.slots, s.order) == Some(k);
    assert DispatchRemaining(s) == PlaceMore(s, k, Chosen(s, k));
    ChosenIs(s, k);
  }

  lemma {:induction false} FreeWarpExists(s: State, k: nat)
    requires Scheduling(s) && k < s.limit && s.slots[k].busy && |Owned(s, k)| < |s.core|
    requires forall j | 0 <= j < s.limit && s.slots[j].busy :: j == k
    ensures FreeWarps(s) != {}
  {
    if FreeWarps(s) == {} {
      forall i | 0 <= i < |s.owner| ensures i in Owned(s, k) {
        assert WarpOk(s, i);
        assert i !in FreeWarps(s);
      }
      RangeCard(|s.owner|, Owned(s, k));
    }
  }

  lemma {:induction false} RangeCard(n: nat, xs: set<nat>)
    requires forall i | 0 <= i < n :: i in xs
    ensures |xs| >= n
  {
    if n > 0 {
      RangeCard(n - 1, xs - {n - 1});
    }
  }

  /** No stuck state: a pass from a state with a resident group, a core that accepts a command, no
      running warp and nothing pending gets a command accepted, retires a group or reports a
      barrier deadlock. */
  lemma {:induction false} NoStuckState(s: State)
    requires Reachable(s) && s.phase.Waiting? && s.credit > 0 && Quiescent(s)
    ensures Inv(s) && Progress(s, Pass(s))
  {
    ReachableInv(s);
    QuiescentMoves(s);
  }

  lemma {:induction false} QuiescentMoves(s: State)
    requires Inv(s) && s.phase.Waiting? && s.credit > 0 && Quiescent(s)
    ensures Progress(s, Pass(s))
  {
    BeginPassInv(s);
    var s1 := BeginPass(s);
    RetireAllInv(s1);
    var s2 := RetireAll(s1);
    LogGrows(s2);
    if ReleaseSet(s) != {} || AbortSet(s) != {} {
      TerminationAccepted(s);
    } else {
      QuietWarps(s);
      QuietBegin(s);
      assert s2 == s1 == s.(phase := Retiring([]));
      QuietEnd(s, s2);
    }
  }

  lemma {:induction false} QuietEnd(s: State, s2: State)
    requires Inv(s) && s.phase.Waiting? && Inv(s2) && s2 == s.(phase := Retiring([])) && s.credit > 0 && Quiescent(s)
    requires AbortSet(s) == {} && AllWait(s)
    ensures Progress(s, EndPass(s2))
  {
    if exists j | 0 <= j < s.limit :: s.slots[j].busy && !Partial(s.slots[j]) {
      var j :| 0 <= j < s.limit && s.slots[j].busy && !Partial(s.slots[j]);
      NotAborting(s, j);
      WholeGroupMoves(s2, j);
      BarriersInv(s2);
      LogGrows(HandleBarriers(s2));
      EndPassLog(s2);
    } else {
      var k :| 0 <= k < |s.slots| && s.slots[k].busy;
      forall j | 0 <= j < s.limit && s.slots[j].busy ensures j == k {
        assert Partial(s.slots[j]) && Partial(s.slots[k]);
      }
      PartialEnd(s2, k);
    }
  }

  lemma {:induction false} EndPassLog(s: State)
    requires Sized(s) && OrderInRange(s) && Sized(HandleBarriers(s)) && OrderInRange(HandleBarriers(s))
    ensures var b := HandleBarriers(s);
            if b.phase.Halted? then EndPass(s).phase.Halted?
            else |EndPass(s).log| >= |DispatchRemaining(b).log| >= |b.log| >= |s.log|
  {
    var b := HandleBarriers(s);
    BarriersLogGrows(s);
    if !b.phase.Halted? {
      RemainingLogGrows(b);
      NewLogGrows(DispatchRemaining(b));
    }
  }

  lemma {:induction false} PartialEnd(s: State, k: nat)
    requires Inv(s) && s.phase == Retiring([]) && s.credit > 0
    requires k < s.limit && Partial(s.slots[k])
    requires forall j | 0 <= j < s.limit && s.slots[j].busy :: j == k
    ensures Progress(s, EndPass(s))
  {
    var b := HandleBarriers(s);
    BarriersInv(s);
    BarriersStep(s);
    EndPassLog(s);
    if !b.phase.Halted? && b.credit > 0 {
      LonePartialMoves(b, k);
    }
  }

  lemma {:induction false} NotAborting(s: State, k: nat)
    requires Inv(s) && s.phase.Waiting? && AllWait(s) && AbortSet(s) == {}
    requires forall i | 0 <= i < |s.pending| :: !s.pending[i]
    requires k < s.limit && s.slots[k].busy
    ensures !s.slots[k].aborting
  {
    assert SlotInv(s, k) && !Finished(s.slots[k]);
    if i :| i in Owned(s, k) {
      assert i !in AbortSet(s);
    }
  }
}
