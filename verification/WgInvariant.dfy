/** What every step of the work-group initializer keeps, whatever the core does between passes. */
module WgInvariant {
  import opened WarpCore
  import opened WgScheduler

  // ---- Ownership --------------------------------------------------------------------------

  /** An unowned warp is idle, an owned idle warp is pending, the core is stopping exactly the
      pending warps that are not idle yet, and only an aborting group has a running warp pending. */
  ghost predicate WarpOk(s: State, i: nat)
    requires Sized(s) && i < |s.owner|
  {
    && -1 <= s.owner[i] < s.limit
    && (s.owner[i] < 0 ==> s.core[i].status.Idle? && !s.pending[i])
    && (s.owner[i] >= 0 ==> s.slots[s.owner[i]].busy && (s.core[i].status.Idle? ==> s.pending[i]))
    && (s.core[i].stopping <==> s.pending[i] && !s.core[i].status.Idle?)
    && (s.pending[i] && (s.core[i].status.Active? || s.core[i].status.Barrier?) ==> s.slots[s.owner[i]].aborting)
  }

  /** A resident group owns exactly its activated, not yet completed warps, and runs what arrived. */
  ghost predicate SlotOk(s: State, k: nat)
    requires Sized(s) && k < s.limit
  {
    var slot := s.slots[k];
    slot.busy ==>
      && 1 <= slot.warpCount <= |s.core|
      && slot.completed <= slot.activated <= slot.warpCount
      && |Owned(s, k)| == slot.activated - slot.completed
      && (slot.aborting ==> slot.activated == slot.warpCount)
      && slot.ticket < |s.arrivals|
      && slot.kernelPc == s.arrivals[slot.ticket].kernelPc
      && slot.infoPtr == s.arrivals[slot.ticket].infoPtr
      && slot.warpCount == WarpCount(s, s.arrivals[slot.ticket])
  }

  /** The order holds the resident groups, oldest first. */
  ghost predicate OrderOk(s: State)
    requires Sized(s)
  {
    && s.count == |s.order|
    && (forall j | 0 <= j < |s.order| :: s.order[j] < s.limit && s.slots[s.order[j]].busy)
    && (forall k | 0 <= k < s.limit && s.slots[k].busy :: k in s.order)
    && (forall i, j | 0 <= i < j < |s.order| :: s.slots[s.order[i]].ticket < s.slots[s.order[j]].ticket)
  }

  predicate Partial(slot: Slot) {
    slot.busy && slot.activated < slot.warpCount
  }

  /** Only the last group in arrival order may still have warps to activate. */
  ghost predicate PartialIsLast(s: State)
    requires Sized(s)
  {
    forall k | 0 <= k < s.limit && Partial(s.slots[k]) :: s.order != [] && s.order[|s.order| - 1] == k
  }

  // ---- Traps and reports ------------------------------------------------------------------

  predicate ExitReport(slot: Slot) {
    slot.completion == Report(slot.kernelPc, slot.infoPtr, Okay, ECALL, slot.completion.mepc, slot.completion.mtval)
  }

  ghost predicate Terminating(s: State, k: nat)
    requires Sized(s)
  {
    exists i | 0 <= i < |s.owner| && s.owner[i] == k :: s.pending[i]
  }

  /** A group that trapped carries the report of its first trap; one that has not, and whose warps
      started to exit, carries the report of an ecall. */
  ghost predicate ReportOk(s: State, k: nat)
    requires Sized(s) && k < s.limit
  {
    var slot := s.slots[k];
    slot.busy ==>
      && (slot.aborting <==> slot.ticket in s.firstTrap)
      && (slot.aborting ==> slot.completion == s.firstTrap[slot.ticket])
      && (slot.aborting ==>
            slot.completion.kernelPc == slot.kernelPc && slot.completion.infoPtr == slot.infoPtr
            && slot.completion.status.Exception?)
      && (!slot.aborting && (slot.completed > 0 || Terminating(s, k)) ==> ExitReport(slot))
  }

  /** A group has trapped exactly when it is aborting or an unprocessed trap of it is raised. */
  ghost predicate TrapOk(s: State, k: nat)
    requires Sized(s) && k < s.limit
  {
    var slot := s.slots[k];
    slot.busy ==> (slot.ticket in s.trapped <==> slot.aborting || RaisedErrors(s, k) != {})
  }

  // ---- Activation -------------------------------------------------------------------------

  /** The Activates of `ticket` in the log cover [0, n) in consecutive spans, by cwid base, each
      with that group's kernel and info pointer. */
  ghost predicate Tiles(log: seq<Command>, ticket: nat, g: Group, n: int)
    decreases |log|
  {
    if log == [] then n == 0
    else
      var last, rest := log[|log| - 1], log[..|log| - 1];
      if last.Activate? && last.ticket == ticket
      then last.pc == g.kernelPc && last.wgInfo == g.infoPtr && last.mask != {}
           && last.cwidBase + |last.mask| == n && Tiles(rest, ticket, g, last.cwidBase)
      else Tiles(rest, ticket, g, n)
  }

  ghost predicate TileOk(s: State, k: nat)
    requires Sized(s) && k < s.limit
  {
    var slot := s.slots[k];
    slot.busy && !slot.aborting ==>
      slot.ticket < |s.arrivals| && Tiles(s.log, slot.ticket, s.arrivals[slot.ticket], slot.activated)
  }

  // ---- All of it together -----------------------------------------------------------------

  ghost predicate SlotInv(s: State, k: nat)
    requires Sized(s) && k < s.limit
  {
    SlotOk(s, k) && ReportOk(s, k) && TrapOk(s, k) && TileOk(s, k)
  }

  /** History mentions only groups that have arrived. */
  ghost predicate Dated(s: State) {
    && (forall t | t in s.firstTrap :: t < |s.arrivals|)
    && (forall t | t in s.trapped :: t < |s.arrivals|)
    && (forall j | 0 <= j < |s.log| :: s.log[j].Activate? ==> s.log[j].ticket < |s.arrivals|)
  }

  ghost predicate Scheduling(s: State) {
    && Sized(s)
    && (forall i | 0 <= i < |s.owner| :: WarpOk(s, i))
    && (forall k | 0 <= k < s.limit :: SlotInv(s, k))
    && OrderOk(s)
    && PartialIsLast(s)
    && Dated(s)
  }

  // ---- Delivery ---------------------------------------------------------------------------

  ghost predicate Resident(s: State, ticket: nat) {
    exists k | 0 <= k < |s.slots| :: s.slots[k].busy && s.slots[k].ticket == ticket
  }

  ghost predicate Delivered(s: State, ticket: nat) {
    exists j | 0 <= j < |s.delivered| :: s.delivered[j].0 == ticket
  }

  ghost predicate DeliveryOk(s: State, d: (nat, Report))
    requires Sized(s)
  {
    && d.0 < |s.arrivals|
    && s.arrivals[d.0].groupSize > 0
    && d.1.kernelPc == s.arrivals[d.0].kernelPc && d.1.infoPtr == s.arrivals[d.0].infoPtr
    && (d.1.status.Exception? <==> d.0 in s.trapped)
    && (d.1.status.Exception? ==> d.0 in s.firstTrap && d.1 == s.firstTrap[d.0])
    && (d.1.status.Okay? ==> d.1.mcause == ECALL && Tiles(s.log, d.0, s.arrivals[d.0], WarpCount(s, s.arrivals[d.0])))
  }

  ghost predicate TicketsDistinct(s: State) {
    && (forall j, k | 0 <= j < k < |s.slots| ::
          s.slots[j].busy && s.slots[k].busy ==> s.slots[j].ticket != s.slots[k].ticket)
    && (forall j, k | 0 <= j < k < |s.delivered| :: s.delivered[j].0 != s.delivered[k].0)
    && (forall j, k | 0 <= j < |s.delivered| && 0 <= k < |s.slots| ::
          s.slots[k].busy ==> s.delivered[j].0 != s.slots[k].ticket)
  }

  ghost predicate Fifos(s: State)
    requires Sized(s)
  {
    && s.arrivals + s.dispatch == s.enqueued
    && (forall j | 0 <= j < |s.enqueued| :: WarpCount(s, s.enqueued[j]) <= |s.core|)
    && |s.dequeue| <= |s.delivered|
    && (forall j | 0 <= j < |s.dequeue| :: s.dequeue[j] == s.delivered[|s.delivered| - |s.dequeue| + j].1)
  }

  ghost predicate Delivery(s: State)
    requires Sized(s)
  {
    && (forall j | 0 <= j < |s.delivered| :: DeliveryOk(s, s.delivered[j]))
    && TicketsDistinct(s)
    && (forall t | 0 <= t < |s.arrivals| && s.arrivals[t].groupSize > 0 :: Resident(s, t) || Delivered(s, t))
    && Fifos(s)
  }

  // ---- The retire list --------------------------------------------------------------------

  ghost predicate Listed(s: State)
    requires Sized(s)
  {
    match s.phase
    case Retiring(list) => ListsFinished(list, s.slots, s.limit)
    case _ => NoneFinished(s)
  }

  /** `list` names each finished slot below `n` once, with its report. */
  ghost predicate ListsFinished(list: seq<(nat, Report)>, slots: seq<Slot>, n: nat)
    requires n <= |slots|
  {
    && (forall j | 0 <= j < |list| ::
          list[j].0 < n && Finished(slots[list[j].0]) && list[j].1 == slots[list[j].0].completion)
    && (forall i, j | 0 <= i < j < |list| :: list[i].0 != list[j].0)
    && (forall k | 0 <= k < n && Finished(slots[k]) :: (k, slots[k].completion) in list)
  }

  ghost predicate NoneFinished(s: State)
    requires Sized(s)
  {
    forall k | 0 <= k < s.limit :: !Finished(s.slots[k])
  }

  ghost predicate Inv(s: State) {
    Scheduling(s) && Delivery(s) && Listed(s)
  }

  // ---- Initial state and the environment --------------------------------------------------

  lemma {:induction false} InitScheduling(s: State)
    requires Init(s)
    ensures Scheduling(s)
  {
    assert forall k | 0 <= k < s.limit :: s.slots[k] == VACANT;
    forall k | 0 <= k < s.limit ensures SlotInv(s, k) {
      assert !s.slots[k].busy;
    }
  }

  lemma {:induction false} InitDelivery(s: State)
    requires Init(s)
    ensures Sized(s) && Delivery(s) && Listed(s)
  {
    assert forall k | 0 <= k < s.limit :: s.slots[k] == VACANT;
  }

  lemma {:induction false} InitInv(s: State)
    requires Init(s)
    ensures Inv(s)
  {
    InitScheduling(s);
    InitDelivery(s);
  }

  lemma {:induction false} CoreStepInv(s: State, s': State)
    requires Inv(s) && CoreStep(s, s')
    ensures Inv(s')
  {
    CoreStepScheduling(s, s');
    CoreStepDelivery(s, s');
  }

  lemma {:induction false} CoreStepScheduling(s: State, s': State)
    requires Scheduling(s) && TicketsDistinct(s) && CoreStep(s, s')
    ensures Scheduling(s')
  {
    forall k | 0 <= k < s.limit ensures SlotInv(s', k) {
      assert SlotInv(s, k);
      assert Owned(s', k) == Owned(s, k);
      CoreStepTrap(s, s', k);
    }
    forall i | 0 <= i < |s.owner| ensures WarpOk(s', i) { assert WarpOk(s, i); }
    forall t | t in NewTraps(s, s'.core) ensures t < |s.arrivals| { NewTrapsResident(s, s'.core, t); }
  }

  lemma {:induction false} CoreStepDelivery(s: State, s': State)
    requires Scheduling(s) && Delivery(s) && CoreStep(s, s')
    ensures Delivery(s')
  {
    forall j | 0 <= j < |s.delivered| ensures s.delivered[j].0 in s.trapped <==> s.delivered[j].0 in s'.trapped {
      NewTrapsResident(s, s'.core, s.delivered[j].0);
    }
    DeliveryFrame(s, s');
  }

  lemma {:induction false} NewTrapsResident(s: State, core: seq<Warp>, t: nat)
    requires Scheduling(s) && |core| == |s.core|
    ensures t in NewTraps(s, core) ==> t < |s.arrivals| && Resident(s, t)
  {
    if t in NewTraps(s, core) {
      var i: nat :| i < |core| && 0 <= s.owner[i] < s.limit && t == s.slots[s.owner[i]].ticket;
      assert WarpOk(s, i) && SlotInv(s, s.owner[i]);
    }
  }

  lemma {:induction false} CoreStepTrap(s: State, s': State, k: nat)
    requires Scheduling(s) && TicketsDistinct(s) && CoreStep(s, s') && k < s.limit
    ensures TrapOk(s', k)
  {
    assert SlotInv(s, k);
    forall i | i in RaisedErrors(s, k) ensures i in RaisedErrors(s', k) {
      assert WarpOk(s, i) && Evolves(s.core[i], s'.core[i]);
    }
    if s.slots[k].busy && s.slots[k].ticket in NewTraps(s, s'.core) {
      var i: nat :| i < |s.core| && 0 <= s.owner[i] < s.limit && s.core[i].status.Active?
                    && s'.core[i].status.Trapped? && s'.core[i].mcause != ECALL
                    && s.slots[s.owner[i]].ticket == s.slots[k].ticket;
      assert !s.pending[i] by { assert WarpOk(s, i) && Evolves(s.core[i], s'.core[i]); }
      assert s.owner[i] == k by { assert WarpOk(s, i); }
      assert i in RaisedErrors(s', k);
    }
    if s.slots[k].busy && RaisedErrors(s', k) != RaisedErrors(s, k) {
      var i :| i in RaisedErrors(s', k) && i !in RaisedErrors(s, k);
      assert WarpOk(s, i) && Evolves(s.core[i], s'.core[i]);
      assert s.slots[s.owner[i]].ticket in NewTraps(s, s'.core);
    }
  }

  lemma {:induction false} QueueStepInv(s: State, s': State)
    requires Inv(s) && (Enqueue(s, s') || Dequeue(s, s'))
    ensures Inv(s')
  {
    QueueStepFifos(s, s');
    QueueFrame(s, s');
  }

  lemma {:induction false} QueueStepFifos(s: State, s': State)
    requires Sized(s) && Fifos(s) && (Enqueue(s, s') || Dequeue(s, s'))
    ensures Fifos(s')
  {
    if Enqueue(s, s') {
      assert s'.arrivals + s'.dispatch == s'.enqueued;
    }
  }

  lemma {:induction false} QueueFrame(s: State, s': State)
    requires Inv(s)
    requires s' == s.(dispatch := s'.dispatch, dequeue := s'.dequeue, enqueued := s'.enqueued)
    requires Fifos(s')
    ensures Inv(s')
  {
    forall k | 0 <= k < s.limit ensures SlotInv(s', k) {
      assert SlotInv(s, k);
      assert Owned(s', k) == Owned(s, k) && Raised(s', k) == Raised(s, k) && RaisedErrors(s', k) == RaisedErrors(s, k);
    }
    forall i | 0 <= i < |s.owner| ensures WarpOk(s', i) { assert WarpOk(s, i); }
    forall j | 0 <= j < |s.delivered| ensures DeliveryOk(s', s'.delivered[j]) { assert DeliveryOk(s, s.delivered[j]); }
    forall t | 0 <= t < |s.arrivals| && s.arrivals[t].groupSize > 0 ensures Resident(s', t) || Delivered(s', t) {
      assert Resident(s, t) || Delivered(s, t);
    }
  }

  // ---- Frames -----------------------------------------------------------------------------

  /** No slot was filled or emptied. */
  ghost predicate SameGroups(s: State, s': State) {
    && |s'.slots| == |s.slots|
    && (forall k | 0 <= k < |s.slots| :: s'.slots[k].busy == s.slots[k].busy && s'.slots[k].ticket == s.slots[k].ticket)
  }

  /** Sizes, FIFOs, arrivals and deliveries are as before. */
  ghost predicate SameWorld(s: State, s': State) {
    && s'.limit == s.limit && s'.threadsPerWarp == s.threadsPerWarp && |s'.core| == |s.core|
    && |s'.owner| == |s.owner| && |s'.pending| == |s.pending|
    && s'.dispatch == s.dispatch && s'.dequeue == s.dequeue && s'.enqueued == s.enqueued && s'.arrivals == s.arrivals
    && s'.delivered == s.delivered
  }

  lemma {:induction false} OrderFrame(s: State, s': State)
    requires Sized(s) && Sized(s') && OrderOk(s) && PartialIsLast(s)
    requires SameGroups(s, s') && s'.limit == s.limit && s'.order == s.order && s'.count == s.count
    requires forall k | 0 <= k < s.limit && Partial(s'.slots[k]) :: Partial(s.slots[k])
    ensures OrderOk(s') && PartialIsLast(s')
  {
  }

  ghost predicate LogKeeps(log: seq<Command>, log': seq<Command>, t: nat) {
    forall g, n :: Tiles(log, t, g, n) ==> Tiles(log', t, g, n)
  }

  lemma {:induction false} AppendKeeps(log: seq<Command>, c: Command, t: nat)
    requires !(c.Activate? && c.ticket == t)
    ensures LogKeeps(log, log + [c], t)
  {
    assert (log + [c])[..|log|] == log;
  }

  lemma {:induction false} TileFrame(s: State, s': State, k: nat)
    requires Sized(s) && Sized(s') && k < s.limit == s'.limit && TileOk(s, k)
    requires s'.arrivals == s.arrivals && LogKeeps(s.log, s'.log, s.slots[k].ticket)
    requires s'.slots[k].busy && !s'.slots[k].aborting ==>
               s.slots[k].busy && !s.slots[k].aborting && s'.slots[k].ticket == s.slots[k].ticket
               && s'.slots[k].activated == s.slots[k].activated
    ensures TileOk(s', k)
  {
  }

  lemma {:induction false} DeliveryFrame(s: State, s': State)
    requires Sized(s) && Sized(s') && Delivery(s) && SameGroups(s, s') && SameWorld(s, s')
    requires forall t | t in s.firstTrap :: t in s'.firstTrap && s'.firstTrap[t] == s.firstTrap[t]
    requires forall j | 0 <= j < |s.delivered| :: LogKeeps(s.log, s'.log, s.delivered[j].0)
    requires forall j | 0 <= j < |s.delivered| :: s.delivered[j].0 in s.trapped <==> s.delivered[j].0 in s'.trapped
    ensures Delivery(s')
  {
    DeliveriesFrame(s, s');
    forall t | 0 <= t < |s.arrivals| && s.arrivals[t].groupSize > 0 ensures Resident(s', t) || Delivered(s', t) {
      SameResident(s, s', t);
    }
    TicketsFrame(s, s');
    FifosFrame(s, s');
  }

  lemma {:induction false} DeliveriesFrame(s: State, s': State)
    requires Sized(s) && Sized(s') && SameWorld(s, s')
    requires forall j | 0 <= j < |s.delivered| :: DeliveryOk(s, s.delivered[j])
    requires forall t | t in s.firstTrap :: t in s'.firstTrap && s'.firstTrap[t] == s.firstTrap[t]
    requires forall j | 0 <= j < |s.delivered| :: LogKeeps(s.log, s'.log, s.delivered[j].0)
    requires forall j | 0 <= j < |s.delivered| :: s.delivered[j].0 in s.trapped <==> s.delivered[j].0 in s'.trapped
    ensures forall j | 0 <= j < |s'.delivered| :: DeliveryOk(s', s'.delivered[j])
  {
    forall j | 0 <= j < |s.delivered| ensures DeliveryOk(s', s'.delivered[j]) {
      assert DeliveryOk(s, s.delivered[j]);
      DeliveryOkFrame(s, s', s.delivered[j]);
    }
  }

  lemma {:induction false} FifosFrame(s: State, s': State)
    requires Sized(s) && Sized(s') && SameWorld(s, s') && Fifos(s)
    ensures Fifos(s')
  {
  }

  lemma {:induction false} TicketsFrame(s: State, s': State)
    requires TicketsDistinct(s) && SameGroups(s, s') && s'.delivered == s.delivered
    ensures TicketsDistinct(s')
  {
  }

  lemma {:induction false} DeliveryOkFrame(s: State, s': State, d: (nat, Report))
    requires Sized(s) && Sized(s') && DeliveryOk(s, d)
    requires s'.arrivals == s.arrivals && s'.threadsPerWarp == s.threadsPerWarp
    requires d.0 in s.firstTrap ==> d.0 in s'.firstTrap && s'.firstTrap[d.0] == s.firstTrap[d.0]
    requires LogKeeps(s.log, s'.log, d.0)
    requires d.0 in s.trapped <==> d.0 in s'.trapped
    ensures DeliveryOk(s', d)
  {
  }

  lemma {:induction false} SameResident(s: State, s': State, t: nat)
    requires SameGroups(s, s') && s'.delivered == s.delivered
    ensures Resident(s, t) ==> Resident(s', t)
    ensures Delivered(s, t) ==> Delivered(s', t)
  {
    if Resident(s, t) {
      var k :| 0 <= k < |s.slots| && s.slots[k].busy && s.slots[k].ticket == t;
      assert s'.slots[k].busy && s'.slots[k].ticket == t;
    }
  }

  // ---- HandleExceptionWarps ---------------------------------------------------------------

  /** Every raised trap of the group in slot `k` has been recorded in it. */
  ghost predicate Seen(s: State, k: nat)
    requires Sized(s) && k < s.limit
  {
    s.slots[k].busy ==>
      && (RaisedErrors(s, k) != {} ==> s.slots[k].aborting)
      && (Raised(s, k) != {} ==> s.slots[k].aborting || ExitReport(s.slots[k]))
  }

  ghost predicate AllSeen(s: State)
    requires Sized(s)
  {
    forall k | 0 <= k < s.limit :: Seen(s, k)
  }

  lemma {:induction false} SightingsAre(s: State, n: nat)
    requires Sized(s) && n <= s.limit && TicketsDistinct(s)
    ensures forall t | t in s.firstTrap :: t in Sightings(s, n) && Sightings(s, n)[t] == s.firstTrap[t]
    ensures forall k | n <= k < s.limit && s.slots[k].busy ::
              s.slots[k].ticket in Sightings(s, n) ==> s.slots[k].ticket in s.firstTrap
    ensures forall k | 0 <= k < n :: Sighted(s, Sightings(s, n), k)
    ensures forall t | t in Sightings(s, n) :: t in s.firstTrap || Resident(s, t)
  {
    if n > 0 {
      SightingsAre(s, n - 1);
      forall k | 0 <= k < n ensures Sighted(s, Sightings(s, n), k) {
        assert k < n - 1 ==> Sighted(s, Sightings(s, n - 1), k);
      }
    }
  }

  ghost predicate Sighted(s: State, seen: map<nat, Report>, k: nat)
    requires Sized(s) && k < s.limit
  {
    var t := s.slots[k].ticket;
    s.slots[k].busy && t !in s.firstTrap ==>
      && (t in seen <==> RaisedErrors(s, k) != {})
      && (t in seen ==> seen[t] == ReportOf(s, k, Exception, Least(RaisedErrors(s, k), |s.owner|)))
  }

  lemma {:induction false} ExceptionSlotInv(s: State, s': State, k: nat)
    requires Sized(s) && k < s.limit && SlotInv(s, k) && !Finished(s.slots[k])
    requires s' == s.(firstTrap := s'.firstTrap, slots := s'.slots) && |s'.slots| == |s.slots|
    requires s'.slots[k] == ExceptionSlot(s, k)
    requires forall t | t in s.firstTrap :: t in s'.firstTrap && s'.firstTrap[t] == s.firstTrap[t]
    requires Sighted(s, s'.firstTrap, k)
    ensures SlotInv(s', k) && Seen(s', k) && !Finished(s'.slots[k])
    ensures s'.slots[k].busy == s.slots[k].busy && s'.slots[k].ticket == s.slots[k].ticket
    ensures Partial(s'.slots[k]) ==> Partial(s.slots[k])
  {
    assert Owned(s', k) == Owned(s, k) && Raised(s', k) == Raised(s, k) && RaisedErrors(s', k) == RaisedErrors(s, k);
    assert Raised(s, k) <= Owned(s, k);
    if Raised(s, k) != {} {
      assert |Owned(s, k)| > 0;
      var i := Least(Raised(s, k), |s.owner|);
      assert i in RaisedErrors(s, k) || s.core[i].mcause == ECALL;
    }
  }

  lemma {:induction false} ExceptionsInv(s: State)
    requires Inv(s) && s.phase.Waiting?
    ensures var s' := HandleExceptions(s.(firstTrap := Sightings(s, s.limit))); Inv(s') && AllSeen(s')
  {
    ExceptionsScheduling(s);
    SightingsAre(s, s.limit);
    DeliveryFrame(s, HandleExceptions(s.(firstTrap := Sightings(s, s.limit))));
  }

  lemma {:induction false} ExceptionsScheduling(s: State)
    requires Scheduling(s) && TicketsDistinct(s) && NoneFinished(s)
    ensures var s' := HandleExceptions(s.(firstTrap := Sightings(s, s.limit)));
            Scheduling(s') && AllSeen(s') && NoneFinished(s') && SameGroups(s, s')
  {
    var s' := HandleExceptions(s.(firstTrap := Sightings(s, s.limit)));
    forall k | 0 <= k < s.limit
      ensures SlotInv(s', k) && Seen(s', k) && !Finished(s'.slots[k])
      ensures s'.slots[k].busy == s.slots[k].busy && s'.slots[k].ticket == s.slots[k].ticket
      ensures Partial(s'.slots[k]) ==> Partial(s.slots[k])
    {
      ExceptionsSlot(s, k);
    }
    OrderFrame(s, s');
    ExceptionsArrived(s);
    forall i | 0 <= i < |s.owner| ensures WarpOk(s', i) {
      assert WarpOk(s, i);
    }
  }

  lemma {:induction false} ExceptionsSlot(s: State, k: nat)
    requires Scheduling(s) && TicketsDistinct(s) && NoneFinished(s) && k < s.limit
    ensures var s' := HandleExceptions(s.(firstTrap := Sightings(s, s.limit)));
            && Sized(s') && SlotInv(s', k) && Seen(s', k) && !Finished(s'.slots[k])
            && s'.slots[k].busy == s.slots[k].busy && s'.slots[k].ticket == s.slots[k].ticket
            && (Partial(s'.slots[k]) ==> Partial(s.slots[k]))
  {
    var s0 := s.(firstTrap := Sightings(s, s.limit));
    SightingsAre(s, s.limit);
    assert SlotInv(s, k);
    assert Raised(s0, k) == Raised(s, k) && RaisedErrors(s0, k) == RaisedErrors(s, k);
    ExceptionSlotInv(s, HandleExceptions(s0), k);
  }

  lemma {:induction false} ExceptionsArrived(s: State)
    requires Scheduling(s) && TicketsDistinct(s)
    ensures forall t | t in Sightings(s, s.limit) :: t < |s.arrivals|
  {
    SightingsAre(s, s.limit);
    forall t | t in Sightings(s, s.limit) && Resident(s, t) ensures t < |s.arrivals| {
      var k :| 0 <= k < |s.slots| && s.slots[k].busy && s.slots[k].ticket == t;
      assert SlotInv(s, k);
    }
  }
}
