/** Whom a pass serves: stopped warps are given up, whole groups pass their barrier, and free warps go to
    the groups that wait for them. */
module WgService {
  import A = Arithmetic
  import opened Options
  import opened WarpCore
  import opened WgInvariant
  import opened WgPasses
  import opened WgScheduler
  import opened WgTheorems

  // ---- Stopped warps --------------------------------------------------------------------------

  /** After the first half of a pass a warp belongs to a group exactly when it did before and still runs. */
  lemma {:induction false} StoppedWarpsAreGivenUp(s: State, i: nat)
    requires Reachable(s) && s.phase.Waiting? && i < |s.owner|
    ensures Sized(s) && |BeginPass(s).owner| == |s.owner|
    ensures BeginPass(s).owner[i] >= 0 <==> s.owner[i] >= 0 && !s.core[i].status.Idle?
    ensures BeginPass(s).owner[i] >= 0 ==> BeginPass(s).owner[i] == s.owner[i]
  {
    ReachableInv(s);
    assert WarpOk(s, i);
    var e := HandleExceptions(s.(firstTrap := Sightings(s, s.limit)));
    IdleStaysPending(e, i);
  }

  lemma {:induction false} IdleStaysPending(s: State, i: nat)
    requires Sized(s) && i < |s.owner| && (s.owner[i] >= 0 && s.core[i].status.Idle? ==> s.pending[i])
    ensures var s' := IssueTerminations(s);
            && Sized(s') && s'.owner == s.owner && s'.core[i].status == s.core[i].status
            && (s'.owner[i] >= 0 && s'.core[i].status.Idle? ==> s'.pending[i])
  {
    var a := Terminate(s, Abort(AbortSet(s)));
    TerminateKeeps(s, Abort(AbortSet(s)), i);
    TerminateKeeps(a, Release(ReleaseSet(s)), i);
  }

  lemma {:induction false} TerminateKeeps(s: State, c: Command, i: nat)
    requires Sized(s) && i < |s.owner| && (c.Abort? || c.Release?)
    ensures var s' := Terminate(s, c);
            && Sized(s') && s'.owner == s.owner && s'.core[i].status == s.core[i].status
            && (s.pending[i] ==> s'.pending[i])
  {
  }

  // ---- Barriers ---------------------------------------------------------------------------------

  /** All warps of the group were activated, none has exited, and all of them wait at a barrier. */
  ghost predicate Together(s: State, k: nat)
    requires Sized(s) && k < s.limit
  {
    && s.slots[k].busy && !s.slots[k].aborting
    && s.slots[k].activated == s.slots[k].warpCount && s.slots[k].completed == 0
    && forall w | w in Owned(s, k) :: s.core[w].status.Barrier?
  }

  lemma {:induction false} AssembledIsTogether(s: State, k: nat)
    requires Inv(s) && k < s.limit
    ensures Assembled(s, k) <==> Together(s, k)
  {
    assert SlotInv(s, k);
    assert AtBarrier(s, k) <= Owned(s, k);
    A.SubsetCard(AtBarrier(s, k), Owned(s, k));
    if Together(s, k) {
      assert AtBarrier(s, k) == Owned(s, k);
    }
    if Assembled(s, k) {
      assert AtBarrier(s, k) == Owned(s, k);
    }
  }

  lemma {:induction false} ResumesExactly(s: State, i: nat)
    requires Sized(s) && s.credit > 0 && i < |s.core| && s.core[i].status.Barrier? && s.phase == Retiring([])
    ensures var b := HandleBarriers(s);
            && Sized(b) && b.owner == s.owner
            && (!b.phase.Halted? ==> (b.core[i].status.Active? <==> i in ResumeSet(s)) && !b.core[i].status.Idle?)
  {
    assert AnyAtBarrier(s);
  }

  /** Warps are given out only from the free ones. */
  lemma {:induction false} DispatchSpares(s: State, i: nat)
    requires Inv(s) && NoneFinished(s) && i < |s.core| && !s.core[i].status.Idle?
    ensures var n := DispatchNew(DispatchRemaining(s)); i < |n.core| && n.core[i] == s.core[i]
  {
    forall k | 0 <= k < s.limit && Partial(s.slots[k]) ensures !s.slots[k].aborting { assert SlotInv(s, k); }
    var k, mask := RemainingCases(s);
    var r := DispatchRemaining(s);
    assert r.core[i] == s.core[i];
    RemainingInv(s);
    NewSpares(r, i);
  }

  lemma {:induction false} NewSpares(s: State, i: nat)
    requires Sized(s) && i < |s.core| && !s.core[i].status.Idle?
    ensures i < |DispatchNew(s).core| && DispatchNew(s).core[i] == s.core[i]
  {
    if s.dispatch != [] {
      LowestIs(FreeWarps(s), 0, |s.owner|, WarpCount(s, s.dispatch[0]));
    }
  }

  /** A pass that meets no deadlock, with a willing core, lets a waiting warp go on exactly when its whole
      group waits. */
  lemma {:induction false} BarrierOpens(s: State, i: nat)
    requires Reachable(s) && s.phase == Retiring([]) && s.credit > 0 && i < |s.core| && s.core[i].status.Barrier?
    ensures Sized(s) && OrderInRange(s) && 0 <= s.owner[i] < s.limit && i < |EndPass(s).core|
    ensures !EndPass(s).phase.Halted? ==> (EndPass(s).core[i].status.Active? <==> Together(s, s.owner[i]))
  {
    ReachableInv(s);
    assert WarpOk(s, i);
    AssembledIsTogether(s, s.owner[i]);
    ResumesExactly(s, i);
    var b := HandleBarriers(s);
    if !b.phase.Halted? {
      BarriersInv(s);
      DispatchSpares(b, i);
    }
  }

  // ---- Free warps -----------------------------------------------------------------------------------

  function Below(n: nat): (r: set<nat>)
    ensures |r| == n && forall k: nat :: k in r <==> k < n
  {
    if n == 0 then {} else Below(n - 1) + {n - 1}
  }

  function InOrder(order: seq<nat>): set<nat> {
    set k | k in order
  }

  lemma {:induction false} OrderCount(order: seq<nat>)
    requires forall i, j | 0 <= i < j < |order| :: order[i] != order[j]
    ensures |InOrder(order)| == |order|
  {
    if order != [] {
      var n := |order| - 1;
      OrderCount(order[..n]);
      assert InOrder(order) == InOrder(order[..n]) + {order[n]};
      assert order[n] !in order[..n];
    }
  }

  lemma {:induction false} OneIsLeft(order: seq<nat>, n: nat)
    requires forall i, j | 0 <= i < j < |order| :: order[i] != order[j]
    requires forall i | 0 <= i < |order| :: order[i] < n
    ensures |order| < n <==> Below(n) - InOrder(order) != {}
  {
    OrderCount(order);
    var (xs, all) := (InOrder(order), Below(n));
    A.SubsetCard(xs, all);
    if all - xs == {} {
      assert all == xs;
    }
  }

  /** The count of resident groups is below the limit exactly when a slot is vacant. */
  lemma {:induction false} RoomIsVacancy(s: State)
    requires Sized(s) && OrderOk(s)
    ensures s.count < s.limit <==> Vacancies(s) != {}
  {
    OneIsLeft(s.order, s.limit);
    assert Vacancies(s) == Below(s.limit) - InOrder(s.order) by {
      forall k: nat | k < s.limit ensures k in s.order <==> s.slots[k].busy {
      }
    }
  }

  /** The head of the dispatch FIFO can start: a slot is vacant, and more warps are free than the group
      that is partly activated, if there is one, still lacks. */
  ghost predicate HeadFits(s: State)
    requires Sized(s)
  {
    s.dispatch != [] && (exists k | 0 <= k < |s.slots| :: !s.slots[k].busy) && ToSpare(s)
  }

  lemma {:induction false} PlacedFree(s: State, k: nat, mask: set<nat>)
    requires Sized(s) && k < |s.slots| && Activates(s, Place(s, k, mask), k, mask)
    ensures Sized(Place(s, k, mask)) && FreeWarps(Place(s, k, mask)) == FreeWarps(s) - mask
  {
  }

  /** More warps are free than any partly activated group lacks. */
  ghost predicate ToSpare(s: State)
    requires Sized(s)
  {
    && FreeWarps(s) != {}
    && forall k | 0 <= k < |s.slots| && Partial(s.slots[k]) ::
         |FreeWarps(s)| > s.slots[k].warpCount - s.slots[k].activated
  }

  /** The group that is partly activated is served first, and some warp stays free exactly when there were
      more than it lacked. */
  lemma {:induction false} RemainingLeaves(s: State)
    requires Sized(s) && OrderOk(s) && PartialIsLast(s) && s.credit >= 2
    requires forall k | 0 <= k < s.limit && Partial(s.slots[k]) :: !s.slots[k].aborting
    ensures var r := DispatchRemaining(s);
            && Sized(r) && r.credit >= 1
            && r.dispatch == s.dispatch && r.arrivals == s.arrivals && Vacancies(r) == Vacancies(s)
            && (FreeWarps(r) != {} <==> ToSpare(s))
  {
    FirstPartialIs(s);
    var first := FirstPartial(s.slots, s.order);
    if first.Some? {
      var k := first.value;
      ChosenIs(s, k);
      assert DispatchRemaining(s) == PlaceMore(s, k, Chosen(s, k));
      OnlyPartial(s, k);
      if Chosen(s, k) != {} {
        PlacedLeaves(s, k, Chosen(s, k));
      }
    }
  }

  lemma {:induction false} OnlyPartial(s: State, k: nat)
    requires Sized(s) && OrderOk(s) && PartialIsLast(s) && k < s.limit && Partial(s.slots[k])
    ensures ToSpare(s) <==> |FreeWarps(s)| > s.slots[k].warpCount - s.slots[k].activated
  {
  }

  lemma {:induction false} PlacedLeaves(s: State, k: nat, mask: set<nat>)
    requires Sized(s) && k < s.limit && Partial(s.slots[k]) && !s.slots[k].aborting && mask != {} && s.credit >= 2
    requires mask <= FreeWarps(s) && |mask| <= s.slots[k].warpCount - s.slots[k].activated
    requires |mask| < s.slots[k].warpCount - s.slots[k].activated ==> forall i | i in FreeWarps(s) :: i in mask
    ensures var r := Place(s, k, mask);
            && r.credit >= 1 && r.dispatch == s.dispatch && r.arrivals == s.arrivals && Vacancies(r) == Vacancies(s)
            && Sized(r)
            && (FreeWarps(r) != {} <==> |FreeWarps(s)| > s.slots[k].warpCount - s.slots[k].activated)
  {
    PlaceActivates(s, k, mask);
    PlacedFree(s, k, mask);
    A.SubsetCard(mask, FreeWarps(s));
    assert |FreeWarps(s) - mask| == |FreeWarps(s)| - |mask|;
  }

  lemma {:induction false} BarriersLeave(s: State)
    requires Sized(s) && s.phase == Retiring([])
    ensures var b := HandleBarriers(s);
            && Sized(b) && FreeWarps(b) == FreeWarps(s) && b.credit >= s.credit - 1
            && (b.dispatch, b.arrivals, b.limit) == (s.dispatch, s.arrivals, s.limit)
            && |b.slots| == |s.slots| && forall k | 0 <= k < |s.slots| :: SameNeed(s.slots[k], b.slots[k])
  {
    forall k | 0 <= k < |s.slots| ensures SameNeed(s.slots[k], HandleBarriers(s).slots[k]) {
    }
  }

  predicate SameNeed(slot: Slot, slot': Slot) {
    (slot'.busy, slot'.activated, slot'.warpCount) == (slot.busy, slot.activated, slot.warpCount)
  }

  lemma {:induction false} NewServes(s: State)
    requires Inv(s) && Settled(s) && s.credit >= 1
    ensures var n := DispatchNew(s);
            && Sized(n)
            && (if s.dispatch != [] && Vacancies(s) != {} && FreeWarps(s) != {}
                then n.arrivals == s.arrivals + [s.dispatch[0]] && n.dispatch == s.dispatch[1..]
                else n.arrivals == s.arrivals && n.dispatch == s.dispatch)
            && (forall k | 0 <= k < |n.slots| && Partial(n.slots[k]) :: FreeWarps(n) == {})
  {
    RoomIsVacancy(s);
    if s.dispatch != [] && Vacancies(s) != {} && FreeWarps(s) != {} {
      var k := Least(Vacancies(s), s.limit);
      var mask := Lowest(FreeWarps(s), 0, |s.owner|, WarpCount(s, s.dispatch[0]));
      LowestIs(FreeWarps(s), 0, |s.owner|, WarpCount(s, s.dispatch[0]));
      if mask != {} {
        NewLeaves(s, k, mask);
      }
    }
  }

  lemma {:induction false} NewLeaves(s: State, k: nat, mask: set<nat>)
    requires Sized(s) && s.dispatch != [] && k < s.limit && !s.slots[k].busy && s.credit >= 1 && mask != {}
    requires forall j | 0 <= j < s.limit :: !Partial(s.slots[j])
    requires mask <= FreeWarps(s) && |mask| <= WarpCount(s, s.dispatch[0])
    requires |mask| < WarpCount(s, s.dispatch[0]) ==> forall i | i in FreeWarps(s) && i < |s.owner| :: i in mask
    ensures var n := Place(Install(s, k), k, mask);
            Sized(n) && forall j | 0 <= j < |n.slots| && Partial(n.slots[j]) :: FreeWarps(n) == {}
  {
    var s1 := Install(s, k);
    assert Sized(s1) && FreeWarps(s1) == FreeWarps(s);
    PlacedFree(s1, k, mask);
    var n := Place(s1, k, mask);
    if Partial(n.slots[k]) {
      assert FreeWarps(n) == {};
    }
  }

  /** With a core that takes three commands, a pass that meets no deadlock starts the group at the head of
      the dispatch FIFO exactly when it fits, and leaves a group partly activated only if no warp is free. */
  lemma {:induction false} PassServes(s: State)
    requires Reachable(s) && s.phase == Retiring([]) && s.credit >= 3
    ensures Sized(s) && OrderInRange(s)
    ensures var e := EndPass(s);
            !e.phase.Halted? ==>
              && Sized(e)
              && (if HeadFits(s) then e.arrivals == s.arrivals + [s.dispatch[0]] && e.dispatch == s.dispatch[1..]
                  else e.arrivals == s.arrivals && e.dispatch == s.dispatch)
              && (forall k | 0 <= k < |e.slots| && Partial(e.slots[k]) :: FreeWarps(e) == {})
  {
    ReachableInv(s);
    var b := HandleBarriers(s);
    if !b.phase.Halted? {
      BarriersInv(s);
      BarriersLeave(s);
      FitsStill(s, b);
      RemainingInv(b);
      forall k | 0 <= k < b.limit && Partial(b.slots[k]) ensures !b.slots[k].aborting { assert SlotInv(b, k); }
      RemainingLeaves(b);
      NewServes(DispatchRemaining(b));
    }
  }

  lemma {:induction false} FitsStill(s: State, b: State)
    requires Sized(s) && Sized(b) && FreeWarps(b) == FreeWarps(s) && b.dispatch == s.dispatch
    requires |b.slots| == |s.slots| && forall k | 0 <= k < |s.slots| :: SameNeed(s.slots[k], b.slots[k])
    ensures HeadFits(s) <==> b.dispatch != [] && Vacancies(b) != {} && ToSpare(b)
  {
    if HeadFits(s) {
      var k :| 0 <= k < |s.slots| && !s.slots[k].busy;
      assert k in Vacancies(b);
    }
    if Vacancies(b) != {} {
      var k :| k in Vacancies(b);
      assert !s.slots[k].busy;
    }
  }
}
