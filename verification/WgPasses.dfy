/** Each handler of a ProcessThread pass keeps the work-group initializer's invariant. */
module WgPasses {
  import A = Arithmetic
  import opened Options
  import opened WarpCore
  import opened WgInvariant
  import opened WgScheduler

  // ---- IssueTerminations ------------------------------------------------------------------

  /** A warp that an Abort or Release may name: running or trapped, not yet terminating, and its
      group's report is decided. */
  ghost predicate Terminable(s: State, i: nat)
    requires Sized(s)
  {
    && i < |s.owner| && 0 <= s.owner[i] < s.limit && !s.pending[i] && !s.core[i].status.Idle?
    && (s.slots[s.owner[i]].aborting || (ExitReport(s.slots[s.owner[i]]) && s.core[i].status.Trapped?))
  }

  lemma {:induction false} TerminateScheduling(s: State, c: Command)
    requires Scheduling(s) && AllSeen(s)
    requires c.Abort? || c.Release?
    requires forall i | i in c.mask :: Terminable(s, i)
    ensures var s' := Terminate(s, c); Scheduling(s') && AllSeen(s') && s'.slots == s.slots
  {
    TerminateOrder(s, c);
    forall k | 0 <= k < s.limit ensures SlotInv(Terminate(s, c), k) && Seen(Terminate(s, c), k) {
      assert SlotInv(s, k) && Seen(s, k);
      TerminateSlot(s, c, k);
    }
    forall i: nat | i < |s.owner| ensures WarpOk(Terminate(s, c), i) {
      TerminateWarp(s, c, i);
    }
  }

  lemma {:induction false} TerminateOrder(s: State, c: Command)
    requires Sized(s) && OrderOk(s) && PartialIsLast(s) && Dated(s) && (c.Abort? || c.Release?)
    ensures var s' := Terminate(s, c);
            Sized(s') && OrderOk(s') && PartialIsLast(s') && Dated(s') && s'.slots == s.slots && s'.limit == s.limit
            && |s'.owner| == |s.owner|
  {
    OrderFrame(s, Terminate(s, c));
  }

  lemma {:induction false} TerminateWarp(s: State, c: Command, i: nat)
    requires Scheduling(s) && (c.Abort? || c.Release?) && i < |s.owner|
    requires i in c.mask ==> Terminable(s, i)
    ensures Sized(Terminate(s, c)) && WarpOk(Terminate(s, c), i)
  {
    assert WarpOk(s, i);
  }

  lemma {:induction false} TerminateSlot(s: State, c: Command, k: nat)
    requires Sized(s) && k < s.limit && SlotInv(s, k) && Seen(s, k)
    requires c.Abort? || c.Release?
    requires forall i | i in c.mask :: Terminable(s, i)
    ensures SlotInv(Terminate(s, c), k) && Seen(Terminate(s, c), k)
  {
    TerminateCounts(s, c, k);
    TerminateReport(s, c, k);
    TerminateTrap(s, c, k);
  }

  lemma {:induction false} TerminateCounts(s: State, c: Command, k: nat)
    requires Sized(s) && k < s.limit && SlotOk(s, k) && TileOk(s, k)
    requires c.Abort? || c.Release?
    ensures SlotOk(Terminate(s, c), k) && TileOk(Terminate(s, c), k)
  {
    var s' := Terminate(s, c);
    assert SlotOk(s', k) by { assert Owned(s', k) == Owned(s, k); }
    AppendKeeps(s.log, c, s.slots[k].ticket);
    TileFrame(s, s', k);
  }

  lemma {:induction false} TerminateTrap(s: State, c: Command, k: nat)
    requires Sized(s) && k < s.limit && TrapOk(s, k) && Seen(s, k)
    requires c.Abort? || c.Release?
    requires forall i | i in c.mask :: i < |s.owner|
    ensures TrapOk(Terminate(s, c), k) && Seen(Terminate(s, c), k)
  {
    var s' := Terminate(s, c);
    assert Raised(s', k) <= Raised(s, k);
    assert RaisedErrors(s', k) <= RaisedErrors(s, k);
  }

  lemma {:induction false} TerminateReport(s: State, c: Command, k: nat)
    requires Sized(s) && k < s.limit && ReportOk(s, k)
    requires c.Abort? || c.Release?
    requires forall i | i in c.mask :: Terminable(s, i)
    ensures ReportOk(Terminate(s, c), k)
  {
    var s' := Terminate(s, c);
    if s.slots[k].busy && !s.slots[k].aborting && Terminating(s', k) {
      var i :| 0 <= i < |s.owner| && s.owner[i] == k && s'.pending[i];
      if s.pending[i] {
        assert Terminating(s, k);
      } else {
        assert Terminable(s, i) && s.owner[i] == k;
      }
      assert ExitReport(s.slots[k]);
    }
  }

  lemma {:induction false} TerminationsInv(s: State)
    requires Inv(s) && s.phase.Waiting? && AllSeen(s)
    ensures var s' := IssueTerminations(s); Inv(s') && s'.slots == s.slots && s'.phase == s.phase
  {
    var a := Abort(AbortSet(s));
    var r := Release(ReleaseSet(s));
    var s1 := Terminate(s, a);
    forall i | i in a.mask ensures Terminable(s, i) { assert Abortable(s, i) && WarpOk(s, i); }
    TerminateScheduling(s, a);
    forall i | i in r.mask ensures Terminable(s1, i) {
      assert Releasable(s, i) && WarpOk(s, i) && i !in a.mask;
      assert Seen(s, s.owner[i]);
      assert i in Raised(s, s.owner[i]);
    }
    TerminateScheduling(s1, r);
    TerminationsDelivery(s);
  }

  lemma {:induction false} TerminationsDelivery(s: State)
    requires Sized(s) && Delivery(s)
    ensures Delivery(IssueTerminations(s))
  {
    var a := Abort(AbortSet(s));
    var r := Release(ReleaseSet(s));
    var s1 := Terminate(s, a);
    forall j | 0 <= j < |s.delivered| ensures LogKeeps(s.log, s1.log, s.delivered[j].0) {
      AppendKeeps(s.log, a, s.delivered[j].0);
    }
    DeliveryFrame(s, s1);
    forall j | 0 <= j < |s.delivered| ensures LogKeeps(s1.log, IssueTerminations(s).log, s.delivered[j].0) {
      AppendKeeps(s1.log, r, s.delivered[j].0);
    }
    DeliveryFrame(s1, IssueTerminations(s));
  }

  // ---- HandleStoppedWarps -----------------------------------------------------------------

  lemma {:induction false} StoppedSlotInv(s: State, s': State, k: nat)
    requires Sized(s) && k < s.limit && SlotInv(s, k) && s' == HandleStopped(s)
    ensures SlotInv(s', k)
  {
    assert s'.slots[k] == StoppedSlot(s, k);
    StoppedCount(s, k);
    assert RaisedErrors(s', k) == RaisedErrors(s, k);
  }

  lemma {:induction false} StoppedCount(s: State, k: nat)
    requires Sized(s) && k < s.limit
    ensures var s' := HandleStopped(s);
            && |Owned(s', k)| + |DrainedOf(s, k)| == |Owned(s, k)|
            && (Terminating(s', k) || DrainedOf(s, k) != {} ==> Terminating(s, k))
  {
    var s' := HandleStopped(s);
    assert Owned(s, k) == Owned(s', k) + DrainedOf(s, k);
    assert Owned(s', k) !! DrainedOf(s, k);
    if i :| i in DrainedOf(s, k) {
      assert s.owner[i] == k && s.pending[i];
    }
    if Terminating(s', k) {
      var i :| 0 <= i < |s.owner| && s'.owner[i] == k && s'.pending[i];
      assert s.owner[i] == k && s.pending[i];
    }
  }

  lemma {:induction false} StoppedInv(s: State)
    requires Inv(s) && s.phase.Waiting?
    ensures Inv(HandleStopped(s))
  {
    var s' := HandleStopped(s);
    StoppedScheduling(s);
    DeliveryFrame(s, s');
    StoppedListed(s);
  }

  lemma {:induction false} StoppedScheduling(s: State)
    requires Scheduling(s)
    ensures Scheduling(HandleStopped(s)) && SameGroups(s, HandleStopped(s))
  {
    var s' := HandleStopped(s);
    forall k | 0 <= k < s.limit ensures SlotInv(s', k) {
      assert SlotInv(s, k);
      StoppedSlotInv(s, s', k);
    }
    forall i | 0 <= i < |s.owner| ensures WarpOk(s', i) { assert WarpOk(s, i); }
    OrderFrame(s, s');
  }

  lemma RetireListIs(slots: seq<Slot>, n: nat)
    requires n <= |slots|
    ensures ListsFinished(RetireList(slots, n), slots, n)
  {
  }

  lemma {:induction false} StoppedListed(s: State)
    requires Sized(s)
    ensures Listed(HandleStopped(s))
  {
    var s' := HandleStopped(s);
    assert s'.phase == Retiring(RetireList(s'.slots, |s'.slots|)) && |s'.slots| == s'.limit;
    RetireListIs(s'.slots, |s'.slots|);
  }

  // ---- RetireWG ---------------------------------------------------------------------------

  lemma WithoutNone(order: seq<nat>, k: nat)
    requires forall j | 0 <= j < |order| :: order[j] != k
    ensures Without(order, k) == order
  {
  }

  /** Removing the slot at index `p`, which occurs only there, keeps the rest in order. */
  lemma {:induction false} WithoutAt(order: seq<nat>, k: nat, p: nat)
    requires p < |order| && order[p] == k
    requires forall j | 0 <= j < |order| && j != p :: order[j] != k
    ensures Without(order, k) == order[..p] + order[p + 1..]
  {
    if p == 0 {
      WithoutNone(order[1..], k);
    } else {
      WithoutAt(order[1..], k, p - 1);
      assert order[..p] == [order[0]] + order[1..][..p - 1];
    }
  }

  lemma {:induction false} RetireInv(s: State)
    requires Inv(s) && s.phase.Retiring? && s.phase.list != []
    ensures Inv(Retire(s))
  {
    var k := s.phase.list[0].0;
    assert SlotInv(s, k) && Finished(s.slots[k]);
    RetireScheduling(s, k);
    RetireDelivery(s, k);
    RetireListed(s);
  }

  lemma {:induction false} RetireListed(s: State)
    requires Sized(s) && Listed(s) && s.phase.Retiring? && s.phase.list != []
    ensures Listed(Retire(s))
  {
    var s' := Retire(s);
    var list := s.phase.list;
    assert list == [list[0]] + list[1..];
    forall j | 0 <= j < s.limit && Finished(s'.slots[j]) ensures (j, s'.slots[j].completion) in list[1..] {
      assert j != list[0].0;
      assert (j, s.slots[j].completion) in list;
    }
  }

  lemma {:induction false} RetireScheduling(s: State, k: nat)
    requires Scheduling(s) && s.phase.Retiring? && s.phase.list != [] && s.phase.list[0].0 == k < s.limit
    requires Finished(s.slots[k])
    ensures Scheduling(Retire(s))
  {
    var s' := Retire(s);
    assert Owned(s, k) == {} by { assert SlotInv(s, k); }
    forall j | 0 <= j < s.limit ensures SlotInv(s', j) {
      assert SlotInv(s, j);
      assert Owned(s', j) == Owned(s, j) && RaisedErrors(s', j) == RaisedErrors(s, j);
    }
    forall i | 0 <= i < |s.owner| ensures WarpOk(s', i) {
      assert WarpOk(s, i);
      assert s.owner[i] == k ==> i in Owned(s, k);
    }
    var p :| 0 <= p < |s.order| && s.order[p] == k;
    WithoutDrops(s.order, k, p);
    RetireOrder(s, s', k, p);
  }

  /** `w` is `order` without its entry at `p`. */
  ghost predicate Drops(order: seq<nat>, w: seq<nat>, p: nat) {
    |w| == |order| - 1 && p < |order| && forall j | 0 <= j < |w| :: w[j] == order[if j < p then j else j + 1]
  }

  lemma {:induction false} WithoutDrops(order: seq<nat>, k: nat, p: nat)
    requires p < |order| && order[p] == k
    requires forall j | 0 <= j < |order| && j != p :: order[j] != k
    ensures Drops(order, Without(order, k), p)
  {
    WithoutAt(order, k, p);
  }

  lemma {:induction false} DropsOnly(order: seq<nat>, w: seq<nat>, p: nat, x: nat)
    requires Drops(order, w, p) && x in order && x != order[p]
    ensures x in w
  {
    var q :| 0 <= q < |order| && order[q] == x;
    assert w[if q < p then q else q - 1] == x;
  }

  lemma {:induction false} RetireOrder(s: State, s': State, k: nat, p: nat)
    requires Sized(s) && OrderOk(s) && PartialIsLast(s) && Sized(s') && k < s.limit == s'.limit
    requires s'.slots == s.slots[k := s.slots[k].(busy := false)] && s'.count == s.count - 1
    requires Drops(s.order, s'.order, p) && s.order[p] == k
    ensures OrderOk(s') && PartialIsLast(s')
  {
    forall j | 0 <= j < s.limit && s'.slots[j].busy ensures j in s'.order {
      DropsOnly(s.order, s'.order, p, j);
    }
    if p != |s.order| - 1 {
      assert s'.order[|s'.order| - 1] == s.order[|s.order| - 1];
    }
  }

  lemma {:induction false} RetireDelivery(s: State, k: nat)
    requires Sized(s) && s.phase.Retiring? && s.phase.list != [] && s.phase.list[0].0 == k < s.limit
    requires Delivery(s) && SlotInv(s, k) && Finished(s.slots[k])
    requires s.phase.list[0].1 == s.slots[k].completion
    ensures Delivery(Retire(s))
  {
    var s' := Retire(s);
    var d := (s.slots[k].ticket, s.slots[k].completion);
    assert s'.delivered == s.delivered + [d];
    RetiredOk(s, k);
    forall j | 0 <= j < |s'.delivered| ensures DeliveryOk(s', s'.delivered[j]) {
      assert j < |s.delivered| ==> DeliveryOk(s, s.delivered[j]);
      DeliveryOkFrame(s, s', s'.delivered[j]);
    }
    forall t | 0 <= t < |s.arrivals| && s.arrivals[t].groupSize > 0 ensures Resident(s', t) || Delivered(s', t) {
      RetireResident(s, k, t);
    }
    RetireBookkeeping(s, k);
  }

  lemma {:induction false} RetireBookkeeping(s: State, k: nat)
    requires Sized(s) && s.phase.Retiring? && s.phase.list != [] && s.phase.list[0].0 == k < s.limit
    requires TicketsDistinct(s) && Fifos(s) && s.slots[k].busy
    ensures TicketsDistinct(Retire(s)) && Fifos(Retire(s))
  {
  }

  lemma {:induction false} RetireResident(s: State, k: nat, t: nat)
    requires Sized(s) && s.phase.Retiring? && s.phase.list != [] && s.phase.list[0].0 == k < s.limit
    requires Resident(s, t) || Delivered(s, t)
    ensures Resident(Retire(s), t) || Delivered(Retire(s), t)
  {
    var s' := Retire(s);
    if Delivered(s, t) {
      var j :| 0 <= j < |s.delivered| && s.delivered[j].0 == t;
      assert s'.delivered[j].0 == t;
    } else if s.slots[k].ticket == t {
      assert s'.delivered[|s.delivered|].0 == t;
    } else {
      var j :| 0 <= j < |s.slots| && s.slots[j].busy && s.slots[j].ticket == t;
      assert s'.slots[j].busy;
    }
  }

  /** What the slot of a finished group reports is right for the group. */
  lemma {:induction false} RetiredOk(s: State, k: nat)
    requires Sized(s) && k < s.limit && SlotInv(s, k) && Finished(s.slots[k])
    ensures DeliveryOk(s, (s.slots[k].ticket, s.slots[k].completion))
  {
    assert Owned(s, k) == {};
    assert RaisedErrors(s, k) <= Owned(s, k);
  }

  // ---- HandleBarrierWarps -----------------------------------------------------------------

  /** What handling barriers may change: marks on slots, and resumed warps. */
  ghost predicate BarrierStep(s: State, s': State)
    requires Sized(s) && Sized(s')
  {
    && SameWorld(s, s') && s'.owner == s.owner && s'.pending == s.pending && s'.firstTrap == s.firstTrap
    && s'.trapped == s.trapped && s'.order == s.order && s'.count == s.count && |s'.slots| == |s.slots|
    && (s'.log == s.log || s'.log == s.log + [Resume(ResumeSet(s))])
    && (forall k | 0 <= k < s.limit ::
          s'.slots[k] == s.slots[k] || s'.slots[k] == s.slots[k].(divergenceReported := true))
    && (forall i | 0 <= i < |s.core| :: ResumeOnly(s, s', i))
  }

  ghost predicate ResumeOnly(s: State, s': State, i: nat)
    requires Sized(s) && Sized(s') && |s.core| == |s'.core| && i < |s.core|
  {
    s'.core[i] == s.core[i]
    || (s.core[i].status.Barrier? && 0 <= s.owner[i] && !s.pending[i] && s'.core[i] == s.core[i].(status := Active))
  }

  lemma {:induction false} BarriersStep(s: State)
    requires Scheduling(s)
    ensures BarrierStep(s, HandleBarriers(s))
  {
    forall i | 0 <= i < |s.core| ensures ResumeOnly(s, HandleBarriers(s), i) {
      assert WarpOk(s, i);
    }
  }

  lemma {:induction false} BarrierLog(s: State, s': State, t: nat)
    requires Sized(s) && Sized(s') && BarrierStep(s, s')
    ensures LogKeeps(s.log, s'.log, t)
  {
    AppendKeeps(s.log, Resume(ResumeSet(s)), t);
  }

  lemma {:induction false} BarrierSlotInv(s: State, s': State, k: nat)
    requires Sized(s) && Sized(s') && k < s.limit == s'.limit && SlotInv(s, k) && BarrierStep(s, s')
    ensures SlotInv(s', k)
  {
    assert Owned(s', k) == Owned(s, k);
    assert TrapOk(s', k) by {
      forall i | 0 <= i < |s.core|
        ensures s.core[i].status.Trapped? || s'.core[i].status.Trapped? ==> s'.core[i] == s.core[i]
      {
        assert ResumeOnly(s, s', i);
      }
      assert RaisedErrors(s', k) == RaisedErrors(s, k);
    }
    assert TileOk(s', k) by {
      BarrierLog(s, s', s.slots[k].ticket);
      TileFrame(s, s', k);
    }
  }

  lemma {:induction false} BarriersScheduling(s: State, s': State)
    requires Scheduling(s) && Sized(s') && BarrierStep(s, s')
    ensures Scheduling(s') && SameGroups(s, s')
    ensures forall k | 0 <= k < s.limit :: Finished(s'.slots[k]) == Finished(s.slots[k])
  {
    forall k | 0 <= k < s.limit ensures SlotInv(s', k) {
      assert SlotInv(s, k);
      BarrierSlotInv(s, s', k);
    }
    forall i | 0 <= i < |s.owner| ensures WarpOk(s', i) { assert WarpOk(s, i) && ResumeOnly(s, s', i); }
    OrderFrame(s, s');
  }

  lemma {:induction false} BarriersInv(s: State)
    requires Inv(s) && s.phase == Retiring([])
    ensures Inv(HandleBarriers(s)) && NoneFinished(HandleBarriers(s))
  {
    var s' := HandleBarriers(s);
    BarriersStep(s);
    BarriersScheduling(s, s');
    assert Delivery(s') by {
      forall j | 0 <= j < |s.delivered| ensures LogKeeps(s.log, s'.log, s.delivered[j].0) {
        BarrierLog(s, s', s.delivered[j].0);
      }
      DeliveryFrame(s, s');
    }
  }

  // ---- Choosing warps ---------------------------------------------------------------------

  /** Lowest takes at most `n`, and when it takes fewer it takes them all. */
  lemma {:induction false} LowestIs(xs: set<nat>, from: nat, bound: nat, n: nat)
    ensures var r := Lowest(xs, from, bound, n);
            && r <= xs && |r| <= n
            && (forall x | x in r :: from <= x)
            && (|r| < n ==> forall x | x in xs && from <= x < bound :: x in r)
    decreases bound - from
  {
    if from < bound && n > 0 {
      var m := if from in xs then n - 1 else n;
      LowestIs(xs, from + 1, bound, m);
      var rest := Lowest(xs, from + 1, bound, m);
      assert from !in rest;
      if from in xs {
        assert Lowest(xs, from, bound, n) == rest + {from};
      }
    }
  }

  // ---- DispatchRemainingWarps -------------------------------------------------------------

  lemma {:induction false} FirstPartialScan(slots: seq<Slot>, order: seq<nat>)
    requires forall j | 0 <= j < |order| :: order[j] < |slots|
    ensures FirstPartial(slots, order).Some? ==> FirstPartial(slots, order).value in order
    ensures FirstPartial(slots, order).None? ==>
              forall j | 0 <= j < |order| :: slots[order[j]].activated >= slots[order[j]].warpCount
  {
    if order != [] {
      FirstPartialScan(slots, order[1..]);
      assert forall j | 1 <= j < |order| :: order[j] == order[1..][j - 1];
    }
  }

  lemma {:induction false} FirstPartialIs(s: State)
    requires Sized(s) && OrderOk(s)
    ensures FirstPartial(s.slots, s.order).None? ==> forall k | 0 <= k < s.limit :: !Partial(s.slots[k])
    ensures FirstPartial(s.slots, s.order).Some? ==>
              var k := FirstPartial(s.slots, s.order).value; k < s.limit && Partial(s.slots[k])
  {
    FirstPartialScan(s.slots, s.order);
    if FirstPartial(s.slots, s.order).None? {
      forall k | 0 <= k < s.limit ensures !Partial(s.slots[k]) {
        if s.slots[k].busy {
          var j :| 0 <= j < |s.order| && s.order[j] == k;
        }
      }
    }
  }

  /** An accepted Activate of the free warps `mask` for the group in slot `k`. */
  ghost predicate Activates(s: State, s': State, k: nat, mask: set<nat>)
    requires Sized(s)
  {
    && k < s.limit && s.slots[k].busy && !s.slots[k].aborting
    && mask != {} && mask <= FreeWarps(s) && |mask| <= s.slots[k].warpCount - s.slots[k].activated
    && s.credit > 0 && s' == Place(s, k, mask)
  }

  lemma {:induction false} ActivatesSlot(s: State, s': State, k: nat, mask: set<nat>, j: nat)
    requires Sized(s) && j < s.limit && Activates(s, s', k, mask) && SlotInv(s, k) && SlotInv(s, j)
    requires s.slots[j].busy && j != k ==> s.slots[j].ticket != s.slots[k].ticket
    requires forall i | i in mask :: i < |s.pending| && !s.pending[i]
    ensures SlotInv(s', j)
  {
    ActivatesCount(s, s', k, mask, j);
    ActivatesTrap(s, s', k, mask, j);
    ActivatesTile(s, s', k, mask, j);
  }

  lemma {:induction false} ActivatesCount(s: State, s': State, k: nat, mask: set<nat>, j: nat)
    requires Sized(s) && j < s.limit && Activates(s, s', k, mask) && SlotOk(s, j) && ReportOk(s, j)
    requires forall i | i in mask :: i < |s.pending| && !s.pending[i]
    ensures SlotOk(s', j) && ReportOk(s', j)
  {
    AssignCount(s, s', k, mask, j);
  }

  lemma {:induction false} AssignCount(s: State, s': State, k: nat, mask: set<nat>, j: nat)
    requires Sized(s) && mask <= FreeWarps(s) && s'.owner == Assign(s.owner, mask, k) && s'.pending == s.pending
    requires forall i | i in mask :: i < |s.pending| && !s.pending[i]
    ensures |Owned(s', j)| == |Owned(s, j)| + (if j == k then |mask| else 0)
    ensures Sized(s') ==> (Terminating(s', j) ==> Terminating(s, j))
  {
    forall i | i in mask ensures i < |s.owner| && s.owner[i] < 0 {}
    assert Owned(s, j) !! mask;
    assert Owned(s', j) == if j == k then Owned(s, j) + mask else Owned(s, j);
    if Sized(s') && Terminating(s', j) {
      var i :| 0 <= i < |s.owner| && s'.owner[i] == j && s'.pending[i];
      assert s.owner[i] == j;
    }
  }

  lemma {:induction false} ActivatesTrap(s: State, s': State, k: nat, mask: set<nat>, j: nat)
    requires Sized(s) && j < s.limit && Activates(s, s', k, mask) && TrapOk(s, j)
    ensures TrapOk(s', j)
  {
    forall i | i in mask ensures s.core[i].status.Idle? && s'.core[i].status.Active? {}
    assert RaisedErrors(s', j) == RaisedErrors(s, j);
  }

  lemma {:induction false} ActivatesTile(s: State, s': State, k: nat, mask: set<nat>, j: nat)
    requires Sized(s) && j < s.limit && Activates(s, s', k, mask) && SlotInv(s, k) && TileOk(s, j)
    requires s.slots[j].busy && j != k ==> s.slots[j].ticket != s.slots[k].ticket
    ensures TileOk(s', j)
  {
    var c := s'.log[|s.log|];
    assert s'.log[..|s.log|] == s.log;
    if j != k && s.slots[j].busy {
      AppendKeeps(s.log, c, s.slots[j].ticket);
      TileFrame(s, s', j);
    }
  }

  lemma {:induction false} ActivatesScheduling(s: State, s': State, k: nat, mask: set<nat>)
    requires Scheduling(s) && TicketsDistinct(s) && Activates(s, s', k, mask)
    ensures Scheduling(s') && SameGroups(s, s')
    ensures NoneFinished(s) ==> NoneFinished(s')
  {
    assert SlotInv(s, k);
    forall i | i in mask ensures i < |s.pending| && !s.pending[i] { assert WarpOk(s, i); }
    forall j | 0 <= j < s.limit ensures SlotInv(s', j) {
      assert SlotInv(s, j);
      ActivatesSlot(s, s', k, mask, j);
    }
    forall i | 0 <= i < |s.owner| ensures WarpOk(s', i) { assert WarpOk(s, i); }
    OrderFrame(s, s');
  }

  /** Dispatching the remaining warps leaves a partly placed group only if no free warp is left or
      the core refuses. */
  ghost predicate Settled(s: State)
    requires Sized(s)
  {
    s.credit == 0 || FreeWarps(s) == {} || forall k | 0 <= k < s.limit :: !Partial(s.slots[k])
  }

  /** The warps that are taken are the lowest of the free ones, and as many as are asked for. */
  lemma {:induction false} LowestComeFirst(xs: set<nat>, from: nat, bound: nat, n: nat)
    ensures var r := Lowest(xs, from, bound, n);
            && r <= xs && |r| <= n
            && (forall x, y | x in r && y in xs && from <= y < x :: y in r)
            && (|r| < n ==> forall x | x in xs && from <= x < bound :: x in r)
    decreases bound - from
  {
    LowestIs(xs, from, bound, n);
    if from < bound && n > 0 {
      LowestComeFirst(xs, from + 1, bound, if from in xs then n - 1 else n);
    }
  }

  /** The chosen warps are free, no more than the group lacks, and all there are when they are fewer. */
  lemma {:induction false} ChosenIs(s: State, k: nat)
    requires Sized(s) && k < s.limit && Partial(s.slots[k])
    ensures var (mask, n) := (Chosen(s, k), s.slots[k].warpCount - s.slots[k].activated);
            && mask <= FreeWarps(s) && |mask| <= n && (|mask| < n ==> forall i | i in FreeWarps(s) :: i in mask)
            && (mask == {} ==> FreeWarps(s) == {})
  {
    LowestIs(FreeWarps(s), 0, |s.owner|, s.slots[k].warpCount - s.slots[k].activated);
    forall i | i in FreeWarps(s) ensures Chosen(s, k) != {} {
      assert i < |s.owner|;
    }
  }

  lemma {:induction false} RemainingCases(s: State) returns (k: nat, mask: set<nat>)
    requires Sized(s) && OrderOk(s) && PartialIsLast(s)
    requires forall k | 0 <= k < s.limit && Partial(s.slots[k]) :: !s.slots[k].aborting
    ensures Sized(DispatchRemaining(s)) && Settled(DispatchRemaining(s))
    ensures DispatchRemaining(s) == s || Activates(s, DispatchRemaining(s), k, mask)
  {
    FirstPartialIs(s);
    k, mask := 0, {};
    var first := FirstPartial(s.slots, s.order);
    if first.Some? {
      k := first.value;
      mask := Chosen(s, k);
      ChosenIs(s, k);
      assert DispatchRemaining(s) == PlaceMore(s, k, mask);
      if mask != {} && s.credit > 0 {
        PlaceActivates(s, k, mask);
        RemainingSettled(s, Place(s, k, mask), k, mask);
      }
    }
  }

  lemma {:induction false} PlaceActivates(s: State, k: nat, mask: set<nat>)
    requires Sized(s) && k < s.limit && Partial(s.slots[k]) && !s.slots[k].aborting && mask != {} && s.credit > 0
    requires mask <= FreeWarps(s) && |mask| <= s.slots[k].warpCount - s.slots[k].activated
    ensures Activates(s, Place(s, k, mask), k, mask)
  {
  }

  lemma {:induction false} RemainingSettled(s: State, s': State, k: nat, mask: set<nat>)
    requires Sized(s) && OrderOk(s) && PartialIsLast(s) && Activates(s, s', k, mask) && Partial(s.slots[k])
    requires |mask| < s.slots[k].warpCount - s.slots[k].activated ==> forall i | i in FreeWarps(s) :: i in mask
    ensures Settled(s')
  {
    if Partial(s'.slots[k]) {
      assert forall i | i in mask :: s'.owner[i] == k;
      assert forall i | i in FreeWarps(s') :: i in FreeWarps(s);
      assert FreeWarps(s') == {};
    }
  }

  lemma {:induction false} RemainingInv(s: State)
    requires Inv(s) && NoneFinished(s)
    ensures Inv(DispatchRemaining(s)) && NoneFinished(DispatchRemaining(s)) && Settled(DispatchRemaining(s))
  {
    forall k | 0 <= k < s.limit && Partial(s.slots[k]) ensures !s.slots[k].aborting { assert SlotInv(s, k); }
    var k, mask := RemainingCases(s);
    if DispatchRemaining(s) != s {
      ActivatesInv(s, DispatchRemaining(s), k, mask);
    }
  }

  lemma {:induction false} ActivatesInv(s: State, s': State, k: nat, mask: set<nat>)
    requires Inv(s) && NoneFinished(s) && Activates(s, s', k, mask)
    ensures Inv(s') && NoneFinished(s')
  {
    ActivatesScheduling(s, s', k, mask);
    ActivatesDelivery(s, s', k, mask);
    assert Listed(s');
  }

  lemma {:induction false} ActivatesDelivery(s: State, s': State, k: nat, mask: set<nat>)
    requires Sized(s) && Sized(s') && Delivery(s) && Activates(s, s', k, mask)
    ensures Delivery(s')
  {
    var c := s'.log[|s.log|];
    forall j | 0 <= j < |s.delivered| ensures LogKeeps(s.log, s'.log, s.delivered[j].0) {
      AppendKeeps(s.log, c, s.delivered[j].0);
    }
    DeliveryFrame(s, s');
  }

  // ---- DispatchNewWG ----------------------------------------------------------------------

  /** n warps of so many threads hold the group, and one warp fewer does not. */
  ghost predicate JustHolds(n: int, threadsPerWarp: nat, groupSize: nat) {
    (n - 1) * threadsPerWarp < groupSize <= n * threadsPerWarp
  }

  lemma {:induction false} WarpCountIs(s: State, g: Group)
    requires s.threadsPerWarp > 0
    ensures WarpCount(s, g) == 0 <==> g.groupSize == 0
    ensures g.groupSize > 0 ==> JustHolds(WarpCount(s, g), s.threadsPerWarp, g.groupSize)
  {
    var n, tpw := WarpCount(s, g), s.threadsPerWarp;
    A.Split(g.groupSize + tpw - 1, tpw);
    assert g.groupSize + tpw - 1 == tpw * n + (g.groupSize + tpw - 1) % tpw;
    assert (n - 1) * tpw == n * tpw - tpw;
    if n <= 0 {
      assert n * tpw <= 0;
    }
  }

  /** History of arrivals grows; every other invariant reads only groups that had arrived. */
  lemma {:induction false} ReadSlot(s: State, s': State, k: nat)
    requires Sized(s) && Sized(s') && k < s.limit == s'.limit && SlotInv(s, k)
    requires |s'.arrivals| == |s.arrivals| + 1 && s'.arrivals[..|s.arrivals|] == s.arrivals
    requires s' == s.(arrivals := s'.arrivals, dispatch := s'.dispatch, slots := s'.slots, count := s'.count,
                      order := s'.order)
    requires s'.slots[k] == s.slots[k]
    ensures SlotInv(s', k)
  {
    assert Owned(s', k) == Owned(s, k) && RaisedErrors(s', k) == RaisedErrors(s, k);
    assert s.slots[k].busy ==> s'.arrivals[s.slots[k].ticket] == s.arrivals[s.slots[k].ticket];
  }

  lemma NoTicketYet(log: seq<Command>, t: nat, g: Group)
    requires forall j | 0 <= j < |log| :: log[j].Activate? ==> log[j].ticket < t
    ensures Tiles(log, t, g, 0)
  {
  }

  lemma {:induction false} InstallSlot(s: State, k: nat)
    requires Scheduling(s) && s.dispatch != [] && k < s.limit && !s.slots[k].busy
    requires s.dispatch[0].groupSize > 0 && WarpCount(s, s.dispatch[0]) <= |s.core|
    ensures SlotInv(Install(s, k), k)
  {
    var s' := Install(s, k);
    WarpCountIs(s, s.dispatch[0]);
    forall i | 0 <= i < |s.owner| ensures s.owner[i] != k { assert WarpOk(s, i); }
    assert Owned(s', k) == {};
    assert RaisedErrors(s', k) <= Owned(s', k);
    NoTicketYet(s.log, |s.arrivals|, s.dispatch[0]);
  }

  lemma {:induction false} InstallScheduling(s: State, k: nat)
    requires Scheduling(s) && s.dispatch != [] && k < s.limit && !s.slots[k].busy
    requires s.dispatch[0].groupSize > 0 && WarpCount(s, s.dispatch[0]) <= |s.core|
    requires forall j | 0 <= j < s.limit :: !Partial(s.slots[j])
    ensures Scheduling(Install(s, k))
  {
    var s' := Install(s, k);
    InstallSlot(s, k);
    forall j | 0 <= j < s.limit ensures SlotInv(s', j) {
      assert SlotInv(s, j);
      if j != k { ReadSlot(s, s', j); }
    }
    forall i | 0 <= i < |s.owner| ensures WarpOk(s', i) { assert WarpOk(s, i); }
    forall j | 0 <= j < s.limit && s.slots[j].busy ensures s.slots[j].ticket < |s.arrivals| { assert SlotInv(s, j); }
    InstallOrder(s, k);
  }

  lemma {:induction false} InstallOrder(s: State, k: nat)
    requires Sized(s) && OrderOk(s) && s.dispatch != [] && k < s.limit && !s.slots[k].busy
    requires forall j | 0 <= j < s.limit && s.slots[j].busy :: s.slots[j].ticket < |s.arrivals|
    requires forall j | 0 <= j < s.limit :: !Partial(s.slots[j])
    ensures OrderOk(Install(s, k)) && PartialIsLast(Install(s, k))
  {
  }

  lemma {:induction false} ReadFifos(s: State, s': State)
    requires Sized(s) && Sized(s') && Fifos(s) && s.dispatch != []
    requires s'.arrivals == s.arrivals + [s.dispatch[0]] && s'.dispatch == s.dispatch[1..] && s'.enqueued == s.enqueued
    requires s'.delivered == s.delivered && s'.dequeue == s.dequeue && s'.threadsPerWarp == s.threadsPerWarp
    requires |s'.core| == |s.core|
    ensures Fifos(s') && WarpCount(s, s.dispatch[0]) <= |s.core|
  {
    assert s.dispatch == [s.dispatch[0]] + s.dispatch[1..];
    assert s.enqueued[|s.arrivals|] == s.dispatch[0];
  }

  lemma {:induction false} ReadDeliveries(s: State, s': State)
    requires Sized(s) && Sized(s') && Delivery(s)
    requires |s'.arrivals| == |s.arrivals| + 1 && s'.arrivals[..|s.arrivals|] == s.arrivals
    requires s'.delivered == s.delivered && s'.log == s.log && s'.trapped == s.trapped && s'.firstTrap == s.firstTrap
    requires s'.threadsPerWarp == s.threadsPerWarp
    ensures forall j | 0 <= j < |s'.delivered| :: DeliveryOk(s', s'.delivered[j])
  {
    forall j | 0 <= j < |s'.delivered| ensures DeliveryOk(s', s'.delivered[j]) {
      var d := s.delivered[j];
      assert DeliveryOk(s, d);
      assert s'.arrivals[d.0] == s.arrivals[d.0];
    }
  }

  lemma {:induction false} InstallDelivery(s: State, k: nat)
    requires Scheduling(s) && Delivery(s) && s.dispatch != [] && k < s.limit && !s.slots[k].busy
    ensures Delivery(Install(s, k))
  {
    var s' := Install(s, k);
    ReadFifos(s, s');
    ReadDeliveries(s, s');
    InstallTickets(s, k);
    forall t | 0 <= t < |s'.arrivals| && s'.arrivals[t].groupSize > 0 ensures Resident(s', t) || Delivered(s', t) {
      if t == |s.arrivals| {
        assert s'.slots[k].busy && s'.slots[k].ticket == t;
      } else {
        assert s'.arrivals[t] == s.arrivals[t];
        InstallResident(s, k, t);
      }
    }
  }

  lemma {:induction false} InstallResident(s: State, k: nat, t: nat)
    requires Sized(s) && s.dispatch != [] && k < s.limit && !s.slots[k].busy
    requires Resident(s, t) || Delivered(s, t)
    ensures Resident(Install(s, k), t) || Delivered(Install(s, k), t)
  {
    var s' := Install(s, k);
    if Resident(s, t) {
      var j :| 0 <= j < |s.slots| && s.slots[j].busy && s.slots[j].ticket == t;
      assert s'.slots[j].busy && s'.slots[j].ticket == t;
    }
  }

  lemma {:induction false} InstallTickets(s: State, k: nat)
    requires Sized(s) && TicketsDistinct(s) && s.dispatch != [] && k < s.limit && !s.slots[k].busy
    requires forall j | 0 <= j < s.limit :: SlotInv(s, j)
    requires forall j | 0 <= j < |s.delivered| :: DeliveryOk(s, s.delivered[j])
    ensures TicketsDistinct(Install(s, k))
  {
    forall j | 0 <= j < s.limit && s.slots[j].busy ensures s.slots[j].ticket < |s.arrivals| { assert SlotInv(s, j); }
  }

  /** Dropping an empty group changes nothing but the history of arrivals. */
  lemma {:induction false} DropInv(s: State)
    requires Inv(s) && NoneFinished(s) && s.dispatch != [] && s.dispatch[0].groupSize == 0
    ensures Inv(ReadGroup(s)) && NoneFinished(ReadGroup(s))
  {
    var s' := ReadGroup(s);
    forall k | 0 <= k < s.limit ensures SlotInv(s', k) {
      assert SlotInv(s, k);
      ReadSlot(s, s', k);
    }
    forall i | 0 <= i < |s.owner| ensures WarpOk(s', i) { assert WarpOk(s, i); }
    DropDelivery(s);
  }

  lemma {:induction false} DropDelivery(s: State)
    requires Sized(s) && Delivery(s) && s.dispatch != [] && s.dispatch[0].groupSize == 0
    ensures Delivery(ReadGroup(s))
  {
    var s' := ReadGroup(s);
    ReadFifos(s, s');
    ReadDeliveries(s, s');
    forall t | 0 <= t < |s'.arrivals| && s'.arrivals[t].groupSize > 0 ensures Resident(s', t) || Delivered(s', t) {
      assert t < |s.arrivals| && s'.arrivals[t] == s.arrivals[t];
      SameResident(s, s', t);
    }
  }

  lemma {:induction false} NewInv(s: State)
    requires Inv(s) && NoneFinished(s) && Settled(s)
    ensures Inv(DispatchNew(s)) && NoneFinished(DispatchNew(s))
  {
    if s.dispatch != [] && s.count < s.limit && FreeWarps(s) != {} && Vacancies(s) != {} && s.credit > 0 {
      var k := Least(Vacancies(s), s.limit);
      var mask := Lowest(FreeWarps(s), 0, |s.owner|, WarpCount(s, s.dispatch[0]));
      NewMask(s, mask);
      if mask == {} {
        DropInv(s);
      } else {
        NewPlaceInv(s, k, mask);
      }
    }
  }

  lemma {:induction false} NewMask(s: State, mask: set<nat>)
    requires Sized(s) && s.dispatch != [] && FreeWarps(s) != {}
    requires mask == Lowest(FreeWarps(s), 0, |s.owner|, WarpCount(s, s.dispatch[0]))
    ensures mask == {} <==> s.dispatch[0].groupSize == 0
  {
    WarpCountIs(s, s.dispatch[0]);
    LowestIs(FreeWarps(s), 0, |s.owner|, WarpCount(s, s.dispatch[0]));
    var i :| i in FreeWarps(s);
    assert i < |s.owner|;
  }

  lemma {:induction false} NewPlaceInv(s: State, k: nat, mask: set<nat>)
    requires Inv(s) && NoneFinished(s) && s.dispatch != [] && s.credit > 0
    requires k < s.limit && !s.slots[k].busy && s.dispatch[0].groupSize > 0
    requires forall j | 0 <= j < s.limit :: !Partial(s.slots[j])
    requires mask == Lowest(FreeWarps(s), 0, |s.owner|, WarpCount(s, s.dispatch[0])) && mask != {}
    ensures Inv(Place(Install(s, k), k, mask)) && NoneFinished(Place(Install(s, k), k, mask))
  {
    var s1 := Install(s, k);
    var s' := Place(s1, k, mask);
    assert WarpCount(s, s.dispatch[0]) <= |s.core| by { ReadFifos(s, s1); }
    InstallScheduling(s, k);
    InstallDelivery(s, k);
    assert FreeWarps(s1) == FreeWarps(s);
    LowestIs(FreeWarps(s), 0, |s.owner|, WarpCount(s, s.dispatch[0]));
    assert Activates(s1, s', k, mask);
    ActivatesScheduling(s1, s', k, mask);
    ActivatesDelivery(s1, s', k, mask);
    WarpCountIs(s, s.dispatch[0]);
    assert NoneFinished(s1);
  }
}
