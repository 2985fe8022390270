/** What every interleaving of a launch's dispatch and retirement keeps. */
module LaunchTheorems {
  import opened Launch
  import opened LaunchIds
  import LmemTable
  import LmemTheorems
  import opened Options
  import Runs

  // ---- Local-memory bases -------------------------------------------------------------------

  ghost predicate HasBase(t: LmemTable.Table, b: nat) {
    exists k | 0 <= k < |t.active| :: LmemTable.IsAt(t.active[k], b)
  }

  lemma {:induction false} AllocBases(t: LmemTable.Table, size: nat, b: nat)
    requires LmemTable.Inv(t) && size < 0x1_0000 && LmemTable.Alloc(t, size).1.Some?
    ensures var (t', r) := LmemTable.Alloc(t, size);
            !HasBase(t, r.value) && (HasBase(t', b) <==> HasBase(t, b) || b == r.value)
  {
    var (t', r) := LmemTable.Alloc(t, size);
    LmemTheorems.AllocInv(t, size);
    LmemTable.AlignUpCovers(size);
    var slot := LmemTable.FirstUnused(t.active, 0);
    assert LmemTable.IsAt(t'.active[slot], r.value);
    forall k | 0 <= k < |t.active| ensures !LmemTable.IsAt(t.active[k], r.value) {
      assert k != slot && t.active[k].valid ==> t'.active[k] == t.active[k];
      assert k < slot ==> t'.active[k].valid ==> LmemTable.Disjoint(t'.active[k].block, t'.active[slot].block);
      assert k > slot ==> t'.active[k].valid ==> LmemTable.Disjoint(t'.active[slot].block, t'.active[k].block);
    }
    if HasBase(t, b) {
      var k :| 0 <= k < |t.active| && LmemTable.IsAt(t.active[k], b);
      assert LmemTable.IsAt(t'.active[k], b);
    }
  }

  lemma {:induction false} FreeBases(t: LmemTable.Table, base: nat, b: nat)
    requires LmemTable.Inv(t) && HasBase(t, base)
    ensures var (t', ok) := LmemTable.Free(t, base); ok && (HasBase(t', b) <==> HasBase(t, b) && b != base)
  {
    var (t', ok) := LmemTable.Free(t, base);
    var slot := LmemTable.Lookup(t.active, base, 0);
    forall k | 0 <= k < |t.active| && k != slot ensures !LmemTable.IsAt(t.active[k], base) {
      assert k < slot && t.active[k].valid ==> LmemTable.Disjoint(t.active[k].block, t.active[slot].block);
      assert k > slot && t.active[k].valid ==> LmemTable.Disjoint(t.active[slot].block, t.active[k].block);
    }
    if HasBase(t, b) && b != base {
      var k :| 0 <= k < |t.active| && LmemTable.IsAt(t.active[k], b);
      assert LmemTable.IsAt(t'.active[k], b);
    }
    if HasBase(t', b) {
      var k :| 0 <= k < |t'.active| && LmemTable.IsAt(t'.active[k], b);
      assert LmemTable.IsAt(t.active[k], b);
    }
  }

  // ---- The invariant --------------------------------------------------------------------------

  predicate DispatchHas(pc: DispatchPc, w: nat) {
    (pc.LFill? || pc.LPlace? || pc.LStore? || pc.LEnqueue?) && pc.w == w
  }

  predicate RetireHas(pc: RetirePc, w: nat) {
    (pc.RTaken? || pc.RLmem?) && pc.w == w
  }

  /** A slot is in use exactly while one of the dispatch task, an SM and the retire task has it. */
  predicate SlotOk(s: State, w: nat)
    requires w < |s.slots|
  {
    && (s.slots[w].inUse <==> w in s.flight || DispatchHas(s.dispatch, w) || RetireHas(s.retire, w))
    && !(w in s.flight && DispatchHas(s.dispatch, w))
    && !(w in s.flight && RetireHas(s.retire, w))
    && !(DispatchHas(s.dispatch, w) && RetireHas(s.retire, w))
  }

  predicate FlightOk(s: State, w: nat)
    requires w in s.flight
  {
    w < |s.slots| && s.slots[w].kid == s.kid && s.slots[w].smid == s.flight[w].sm < |s.lmem|
  }

  /** The slot says which launch, and which work-group of it, comes next. */
  predicate Filled(s: State, w: nat) {
    w < |s.slots| && s.slots[w].kid == s.kid && s.slots[w].id == s.cursor
  }

  ghost predicate SlotsOk(s: State) {
    && (forall w: nat | w < |s.slots| :: SlotOk(s, w))
    && (forall w: nat | w in s.flight :: FlightOk(s, w))
    && DispatchAt(s) && RetireAt(s)
  }

  predicate DispatchAt(s: State) {
    match s.dispatch
    case LFill(w) => w < |s.slots|
    case LPlace(w) => Filled(s, w)
    case LStore(w, sm, _) => Filled(s, w) && sm < |s.lmem|
    case LEnqueue(w, sm) => Filled(s, w) && s.slots[w].smid == sm < |s.lmem|
    case _ => true
  }

  predicate RetireAt(s: State) {
    match s.retire
    case RLook(w) => w in s.flight && s.flight[w].Finished?
    case RTaken(w, _) => w < |s.slots| && s.slots[w].smid < |s.lmem|
    case RLmem(w, _) => w < |s.slots|
    case RIgnored => false
    case _ => true
  }

  /** Slot `w` holds the block at `b` of the local memory of SM `sm`. */
  predicate OwnsBlock(s: State, w: nat, sm: nat, b: nat) {
    s.localSize > 0
    && (|| (w in s.flight && w < |s.slots| && s.flight[w].sm == sm && s.slots[w].base == b)
        || s.dispatch == LStore(w, sm, b)
        || (s.dispatch == LEnqueue(w, sm) && w < |s.slots| && s.slots[w].base == b)
        || (s.retire.RTaken? && s.retire.w == w && w < |s.slots| && s.slots[w].smid == sm && s.slots[w].base == b))
  }

  /** The live blocks of an SM are those that slots in use hold, one each. */
  ghost predicate BlocksOk(s: State) {
    && s.localSize < 0x1_0000
    && (forall sm: nat | sm < |s.lmem| :: LmemTable.Inv(s.lmem[sm]))
    && (forall sm: nat, b: nat | sm < |s.lmem| :: HasBase(s.lmem[sm], b) <==> exists w: nat :: OwnsBlock(s, w, sm, b))
    && (forall v: nat, w: nat, sm: nat, b: nat | OwnsBlock(s, v, sm, b) && OwnsBlock(s, w, sm, b) :: v == w)
  }

  /** How many work-groups the retire task has taken and not yet counted. */
  function InHand(pc: RetirePc): nat {
    if pc.RTaken? || pc.RLmem? || pc.RCount? then 1 else 0
  }

  ghost predicate CountsOk(s: State) {
    && s.kid < s.poolSize && s.grid.Proper()
    && InRankOrder(s.grid, s.enqueued) && |s.enqueued| <= s.grid.Total()
    && |s.enqueued| == |s.flight| + InHand(s.retire) + |s.retired|
    && s.wgLeft == s.grid.Total() - |s.retired|
    && (match s.dispatch
        case LUpdate => s.grid.Holds(s.cursor) && Rank(s.grid, s.cursor) + 1 == |s.enqueued|
        case LDone => |s.enqueued| == s.grid.Total()
        case _ => s.grid.Holds(s.cursor) && Rank(s.grid, s.cursor) == |s.enqueued|)
    && s.outcome == FoldAll(s.retired)
  }

  /** The result is published when, and only when, the last work-group has been counted. */
  ghost predicate PublishOk(s: State) {
    && (s.retire.RPublish? ==> s.wgLeft == 0 && s.active && s.published == [])
    && (s.retire.RFree? ==> s.wgLeft == 0 && s.active && s.published == [s.outcome])
    && (!s.retire.RPublish? && !s.retire.RFree? && s.wgLeft == 0 ==> !s.active && s.published == [s.outcome])
    && (s.wgLeft > 0 ==> s.active && s.published == [])
  }

  /** Every live block has the size asked for, rounded up. */
  ghost predicate SizesOk(s: State) {
    forall sm: nat, k: nat | sm < |s.lmem| && k < |s.lmem[sm].active| :: SizeOk(s.lmem[sm].active[k], s.localSize)
  }

  predicate SizeOk(e: LmemTable.Entry, size: nat) {
    e.valid ==> e.block.size == LmemTable.AlignUp(size)
  }

  ghost predicate Inv(s: State) {
    SlotsOk(s) && BlocksOk(s) && SizesOk(s) && CountsOk(s) && PublishOk(s)
  }

  // ---- Initially ------------------------------------------------------------------------------

  lemma {:induction false} InitInv(s: State)
    requires Init(s)
    ensures Inv(s)
  {
    assert Rank(s.grid, Id(0, 0, 0)) == 0;
    RankBound(s.grid, Id(0, 0, 0));
    forall sm: nat | sm < |s.lmem| ensures LmemTable.Inv(s.lmem[sm]) {
      assert Empty(s.lmem[sm]);
    }
    forall sm: nat, b: nat | sm < |s.lmem| ensures !HasBase(s.lmem[sm], b) {
      assert Empty(s.lmem[sm]);
    }
    forall sm: nat, k: nat | sm < |s.lmem| && k < |s.lmem[sm].active| ensures !s.lmem[sm].active[k].valid {
      assert Empty(s.lmem[sm]);
    }
  }

  // ---- Slots ----------------------------------------------------------------------------------

  lemma {:induction false} DispatchSlots(s: State, s': State)
    requires SlotsOk(s) && DispatchStep(s, s')
    ensures SlotsOk(s')
  {
    forall w: nat | w < |s'.slots| ensures SlotOk(s', w) {
      assert SlotOk(s, w);
      DispatchSlot(s, s', w);
    }
    forall w: nat | w in s'.flight ensures FlightOk(s', w) {
      DispatchFlight(s, s', w);
    }
    RetireApart(s);
    DispatchMoves(s, s');
    RetireStays(s, s');
  }

  lemma {:induction false} DispatchMoves(s: State, s': State)
    requires DispatchAt(s) && DispatchStep(s, s')
    ensures DispatchAt(s')
  {
  }

  lemma {:induction false} RetireStays(s: State, s': State)
    requires RetireAt(s) && DispatchStep(s, s')
    requires s.retire.RTaken? || s.retire.RLook? ==> !DispatchHas(s.dispatch, s.retire.w)
    ensures RetireAt(s')
  {
  }

  lemma {:induction false} DispatchStays(s: State, s': State)
    requires DispatchAt(s) && RetireStep(s, s')
    ensures DispatchAt(s')
  {
  }

  lemma {:induction false} RetireAdvances(s: State, s': State)
    requires RetireAt(s) && RetireStep(s, s') && !s'.retire.RIgnored?
    requires s.retire.RLook? ==> FlightOk(s, s.retire.w)
    ensures RetireAt(s')
  {
  }

  /** The dispatch task has nothing to do with the slot the retire task looks at. */
  lemma {:induction false} RetireApart(s: State)
    requires SlotsOk(s)
    ensures s.retire.RTaken? || s.retire.RLook? ==> !DispatchHas(s.dispatch, s.retire.w)
  {
    if s.retire.RTaken? || s.retire.RLook? {
      assert s.retire.RLook? ==> FlightOk(s, s.retire.w);
      assert SlotOk(s, s.retire.w);
    }
  }

  lemma {:induction false} DispatchSlot(s: State, s': State, w: nat)
    requires DispatchStep(s, s') && w < |s.slots| && SlotOk(s, w)
    ensures |s'.slots| == |s.slots| && SlotOk(s', w)
  {
  }

  lemma {:induction false} DispatchFlight(s: State, s': State, w: nat)
    requires SlotsOk(s) && DispatchStep(s, s') && w in s'.flight
    ensures FlightOk(s', w)
  {
    if w in s.flight {
      assert FlightOk(s, w) && SlotOk(s, w);
    }
  }

  /** A finished work-group is never ignored. */
  lemma {:induction false} NeverIgnored(s: State, w: nat)
    requires SlotsOk(s) && CountsOk(s) && PublishOk(s) && w in s.flight
    ensures !Ignored(s, w) && s.wgLeft > 0
  {
    assert FlightOk(s, w) && SlotOk(s, w);
    assert |s.flight| > 0;
  }

  /** Its local memory is always released. */
  lemma {:induction false} ReleaseSucceeds(s: State)
    requires SlotsOk(s) && BlocksOk(s) && s.retire.RTaken? && s.localSize > 0
    ensures var slot := s.slots[s.retire.w];
            LmemTable.Inv(s.lmem[slot.smid]) && HasBase(s.lmem[slot.smid], slot.base)
            && LmemTable.Free(s.lmem[slot.smid], slot.base).1
  {
    var w := s.retire.w;
    var slot := s.slots[w];
    assert OwnsBlock(s, w, slot.smid, slot.base);
    FreeBases(s.lmem[slot.smid], slot.base, 0);
  }

  lemma {:induction false} RetireSlots(s: State, s': State)
    requires Inv(s) && RetireStep(s, s')
    ensures SlotsOk(s')
  {
    match s.retire
    case RIdle =>
      var w :| w in s.flight && s.flight[w].Finished?
               && s' == s.(retire := if Ignored(s, w) then RIgnored else RLook(w));
      NeverIgnored(s, w);
      RetireMoves(s, s');
    case RTaken(w, c) =>
      if s.localSize > 0 {
        ReleaseSucceeds(s);
      }
      RetireMoves(s, s');
    case _ => RetireMoves(s, s');
  }

  lemma {:induction false} RetireMoves(s: State, s': State)
    requires SlotsOk(s) && RetireStep(s, s') && !s'.retire.RIgnored?
    ensures SlotsOk(s')
  {
    forall w: nat | w < |s'.slots| ensures SlotOk(s', w) {
      assert SlotOk(s, w);
      RetireSlot(s, s', w);
    }
    forall w: nat | w in s'.flight ensures FlightOk(s', w) {
      RetireFlight(s, s', w);
    }
    assert s.retire.RLook? ==> FlightOk(s, s.retire.w);
    DispatchStays(s, s');
    RetireAdvances(s, s');
  }

  lemma {:induction false} RetireSlot(s: State, s': State, w: nat)
    requires RetireStep(s, s') && w < |s.slots| && SlotOk(s, w) && !s'.retire.RIgnored?
    requires s.retire.RLook? ==> s.retire.w < |s.slots|
    ensures |s'.slots| == |s.slots| && SlotOk(s', w)
  {
  }

  lemma {:induction false} RetireFlight(s: State, s': State, w: nat)
    requires SlotsOk(s) && RetireStep(s, s') && w in s'.flight
    ensures FlightOk(s', w)
  {
    assert FlightOk(s, w) && SlotOk(s, w);
  }

  lemma {:induction false} SmSlots(s: State, s': State)
    requires SlotsOk(s) && SmStep(s, s')
    ensures SlotsOk(s')
  {
    forall w: nat | w < |s'.slots| ensures SlotOk(s', w) {
      assert SlotOk(s, w);
    }
    forall w: nat | w in s'.flight ensures FlightOk(s', w) {
      assert FlightOk(s, w);
    }
  }

  // ---- Blocks -----------------------------------------------------------------------------------

  /** A step that leaves the tables and every ownership as they were. */
  lemma {:induction false} BlocksFrame(s: State, s': State)
    requires BlocksOk(s) && s'.lmem == s.lmem && s'.localSize == s.localSize
    requires forall w: nat, sm: nat, b: nat :: OwnsBlock(s', w, sm, b) <==> OwnsBlock(s, w, sm, b)
    ensures BlocksOk(s')
  {
  }

  lemma {:induction false} PlaceBlocks(s: State, w: nat, sm: nat)
    requires SlotsOk(s) && BlocksOk(s) && s.dispatch == LPlace(w) && sm < |s.lmem|
    ensures BlocksOk(PlaceOn(s, w, sm))
  {
    var s' := PlaceOn(s, w, sm);
    if s.localSize == 0 || LmemTable.Alloc(s.lmem[sm], s.localSize).1.None? {
      BlocksFrame(s, s');
    } else {
      var (t', r) := LmemTable.Alloc(s.lmem[sm], s.localSize);
      var base := r.value;
      LmemTheorems.AllocInv(s.lmem[sm], s.localSize);
      forall v: nat, m: nat, b: nat
        ensures OwnsBlock(s', v, m, b) <==> OwnsBlock(s, v, m, b) || (v == w && m == sm && b == base)
      {
      }
      forall m: nat, b: nat | m < |s.lmem| ensures HasBase(s'.lmem[m], b) <==> exists v: nat :: OwnsBlock(s', v, m, b) {
        PlacedBase(s, s', w, sm, base, m, b);
      }
      AllocBases(s.lmem[sm], s.localSize, base);
      assert !exists v: nat :: OwnsBlock(s, v, sm, base);
    }
  }

  lemma {:induction false} PlacedBase(s: State, s': State, w: nat, sm: nat, base: nat, m: nat, b: nat)
    requires BlocksOk(s) && sm < |s.lmem| && m < |s.lmem|
    requires LmemTable.Alloc(s.lmem[sm], s.localSize).1 == Some(base)
    requires s'.lmem == s.lmem[sm := LmemTable.Alloc(s.lmem[sm], s.localSize).0]
    requires forall v: nat :: OwnsBlock(s', v, m, b) <==> OwnsBlock(s, v, m, b) || (v == w && m == sm && b == base)
    ensures HasBase(s'.lmem[m], b) <==> exists v: nat :: OwnsBlock(s', v, m, b)
  {
    assert HasBase(s.lmem[m], b) <==> exists v: nat :: OwnsBlock(s, v, m, b);
    if m == sm {
      AllocBases(s.lmem[sm], s.localSize, b);
      if b == base {
        assert OwnsBlock(s', w, m, b);
      }
    }
  }

  lemma {:induction false} FreeBlocks(s: State)
    requires SlotsOk(s) && BlocksOk(s) && s.retire.RTaken? && s.localSize > 0
    ensures BlocksOk(FreeLmem(s, s.retire.w, s.retire.completion))
  {
    var w := s.retire.w;
    var s' := FreeLmem(s, w, s.retire.completion);
    var sm, base := s.slots[w].smid, s.slots[w].base;
    ReleaseSucceeds(s);
    LmemTheorems.FreeInv(s.lmem[sm], base);
    assert SlotOk(s, w);
    forall v: nat, m: nat, b: nat ensures OwnsBlock(s', v, m, b) <==> OwnsBlock(s, v, m, b) && v != w {
    }
    forall m: nat, b: nat | m < |s.lmem| ensures HasBase(s'.lmem[m], b) <==> exists v: nat :: OwnsBlock(s', v, m, b) {
      FreedBase(s, s', w, sm, base, m, b);
    }
  }

  lemma {:induction false} FreedBase(s: State, s': State, w: nat, sm: nat, base: nat, m: nat, b: nat)
    requires BlocksOk(s) && sm < |s.lmem| && m < |s.lmem| && OwnsBlock(s, w, sm, base)
    requires forall k: nat, c: nat | OwnsBlock(s, w, k, c) :: k == sm && c == base
    requires s'.lmem == s.lmem[sm := LmemTable.Free(s.lmem[sm], base).0]
    requires forall v: nat :: OwnsBlock(s', v, m, b) <==> OwnsBlock(s, v, m, b) && v != w
    ensures HasBase(s'.lmem[m], b) <==> exists v: nat :: OwnsBlock(s', v, m, b)
  {
    assert HasBase(s.lmem[m], b) <==> exists v: nat :: OwnsBlock(s, v, m, b);
    if m == sm {
      assert HasBase(s.lmem[sm], base);
      FreeBases(s.lmem[sm], base, b);
    }
    if HasBase(s.lmem[m], b) && !(m == sm && b == base) {
      var v: nat :| OwnsBlock(s, v, m, b);
      assert OwnsBlock(s', v, m, b);
    }
    if m == sm && b == base {
      forall v: nat ensures !OwnsBlock(s', v, m, b) {
        assert OwnsBlock(s, v, m, b) ==> v == w;
      }
    }
  }

  lemma {:induction false} DispatchBlocks(s: State, s': State)
    requires SlotsOk(s) && BlocksOk(s) && DispatchStep(s, s')
    ensures BlocksOk(s')
  {
    if s.dispatch.LPlace? {
      var sm: nat :| sm < |s.lmem| && s' == PlaceOn(s, s.dispatch.w, sm);
      PlaceBlocks(s, s.dispatch.w, sm);
    } else {
      forall w: nat, sm: nat, b: nat ensures OwnsBlock(s', w, sm, b) <==> OwnsBlock(s, w, sm, b) {
        if w < |s.slots| {
          assert SlotOk(s, w);
        }
      }
      BlocksFrame(s, s');
    }
  }

  lemma {:induction false} RetireBlocks(s: State, s': State)
    requires SlotsOk(s) && BlocksOk(s) && RetireStep(s, s')
    ensures BlocksOk(s')
  {
    if s.retire.RTaken? && s.localSize > 0 {
      FreeBlocks(s);
    } else {
      forall w: nat, sm: nat, b: nat ensures OwnsBlock(s', w, sm, b) <==> OwnsBlock(s, w, sm, b) {
        if w < |s.slots| {
          assert SlotOk(s, w);
        }
        if w in s.flight {
          assert FlightOk(s, w);
        }
      }
      BlocksFrame(s, s');
    }
  }

  lemma {:induction false} SmBlocks(s: State, s': State)
    requires BlocksOk(s) && SmStep(s, s')
    ensures BlocksOk(s')
  {
    forall w: nat, sm: nat, b: nat ensures OwnsBlock(s', w, sm, b) <==> OwnsBlock(s, w, sm, b) {
    }
    BlocksFrame(s, s');
  }

  lemma {:induction false} StepSizes(s: State, s': State)
    requires SizesOk(s) && Next(s, s')
    ensures SizesOk(s')
  {
    if DispatchStep(s, s') {
      DispatchSizes(s, s');
    } else if RetireStep(s, s') {
      RetireSizes(s, s');
    } else {
      assert s'.lmem == s.lmem && s'.localSize == s.localSize;
    }
  }

  lemma {:induction false} DispatchSizes(s: State, s': State)
    requires SizesOk(s) && DispatchStep(s, s')
    ensures SizesOk(s')
  {
    if s.dispatch.LPlace? {
      var sm: nat :| sm < |s.lmem| && s' == PlaceOn(s, s.dispatch.w, sm);
      PlaceSizes(s, s.dispatch.w, sm);
    } else {
      assert s'.lmem == s.lmem && s'.localSize == s.localSize;
    }
  }

  lemma {:induction false} PlaceSizes(s: State, w: nat, sm: nat)
    requires SizesOk(s) && sm < |s.lmem|
    ensures SizesOk(PlaceOn(s, w, sm))
  {
    var s' := PlaceOn(s, w, sm);
    assert forall m: nat | m < |s.lmem| && m != sm :: s'.lmem[m] == s.lmem[m];
  }

  lemma {:induction false} RetireSizes(s: State, s': State)
    requires SizesOk(s) && RetireStep(s, s')
    ensures SizesOk(s')
  {
    if s.retire.RTaken? {
      assert forall m: nat | m < |s.lmem| && m != s.slots[s.retire.w].smid :: s'.lmem[m] == s.lmem[m];
    } else {
      assert s'.lmem == s.lmem && s'.localSize == s.localSize;
    }
  }

  // ---- Counts -------------------------------------------------------------------------------------

  lemma {:induction false} DispatchCounts(s: State, s': State)
    requires SlotsOk(s) && CountsOk(s) && DispatchStep(s, s')
    ensures CountsOk(s')
  {
    if s.dispatch.LUpdate? {
      UpdateCounts(s, s');
    } else if s.dispatch.LEnqueue? {
      assert SlotOk(s, s.dispatch.w);
      EnqueueCounts(s, s');
    } else {
      DispatchSpares(s, s');
      CountsFrame(s, s');
    }
  }

  lemma {:induction false} UpdateCounts(s: State, s': State)
    requires CountsOk(s) && s.dispatch.LUpdate? && DispatchStep(s, s')
    ensures CountsOk(s')
  {
    UpdateIsSuccessor(s.grid, s.cursor);
  }

  lemma {:induction false} EnqueueCounts(s: State, s': State)
    requires CountsOk(s) && s.dispatch.LEnqueue? && s.dispatch.w !in s.flight && DispatchStep(s, s')
    requires Filled(s, s.dispatch.w)
    ensures CountsOk(s')
  {
    assert |s'.flight| == |s.flight| + 1;
    RankBound(s.grid, s.cursor);
  }

  /** The steps that enqueue nothing and count nothing. */
  lemma {:induction false} CountsFrame(s: State, s': State)
    requires CountsOk(s) && InHand(s'.retire) == InHand(s.retire)
    requires (s'.kid, s'.poolSize, s'.grid, s'.cursor) == (s.kid, s.poolSize, s.grid, s.cursor)
    requires (s'.enqueued, s'.retired, s'.flight) == (s.enqueued, s.retired, s.flight)
    requires s'.wgLeft == s.wgLeft && s'.outcome == s.outcome
    requires s'.dispatch == s.dispatch
             || !(s.dispatch.LUpdate? || s.dispatch.LDone? || s'.dispatch.LUpdate? || s'.dispatch.LDone?)
    ensures CountsOk(s')
  {
  }

  lemma {:induction false} DispatchSpares(s: State, s': State)
    requires DispatchStep(s, s') && !s.dispatch.LUpdate? && !s.dispatch.LEnqueue?
    ensures s'.retire == s.retire
    ensures (s'.kid, s'.poolSize, s'.grid, s'.cursor) == (s.kid, s.poolSize, s.grid, s.cursor)
    ensures (s'.enqueued, s'.retired, s'.flight) == (s.enqueued, s.retired, s.flight)
    ensures s'.wgLeft == s.wgLeft && s'.outcome == s.outcome
    ensures s'.dispatch == s.dispatch || !(s.dispatch.LDone? || s'.dispatch.LUpdate? || s'.dispatch.LDone?)
  {
  }

  lemma {:induction false} RetireCounts(s: State, s': State)
    requires SlotsOk(s) && CountsOk(s) && RetireStep(s, s') && !s'.retire.RIgnored?
    ensures CountsOk(s')
  {
    if s.retire.RLook? {
      RemoveOne(s.flight, s'.flight, s.retire.w);
    } else if s.retire.RCount? {
      CountOne(s, s');
    } else {
      SameCounts(s, s');
    }
  }

  lemma {:induction false} SameCounts(s: State, s': State)
    requires CountsOk(s) && RetireStep(s, s') && !s'.retire.RIgnored? && !s.retire.RLook? && !s.retire.RCount?
    ensures CountsOk(s')
  {
    RetireSpares(s, s');
    CountsFrame(s, s');
  }

  lemma {:induction false} RetireSpares(s: State, s': State)
    requires RetireStep(s, s') && !s'.retire.RIgnored? && !s.retire.RLook? && !s.retire.RCount?
    ensures InHand(s'.retire) == InHand(s.retire) && s'.dispatch == s.dispatch
    ensures (s'.kid, s'.poolSize, s'.grid, s'.cursor) == (s.kid, s.poolSize, s.grid, s.cursor)
    ensures (s'.enqueued, s'.retired, s'.flight) == (s.enqueued, s.retired, s.flight)
    ensures s'.wgLeft == s.wgLeft && s'.outcome == s.outcome
  {
  }

  lemma {:induction false} CountOne(s: State, s': State)
    requires CountsOk(s) && s.retire.RCount? && RetireStep(s, s')
    ensures CountsOk(s')
  {
    assert |s.retired| < |s.enqueued|;
    assert s'.retired[..|s.retired|] == s.retired;
  }

  lemma {:induction false} RemoveOne(m: map<nat, Flight>, m': map<nat, Flight>, w: nat)
    requires w in m && m' == m - {w}
    ensures |m'| == |m| - 1
  {
    assert m'[w := m[w]] == m;
  }

  lemma {:induction false} SmCounts(s: State, s': State)
    requires CountsOk(s) && SmStep(s, s')
    ensures CountsOk(s')
  {
    var w: nat, c: Completion :| w in s.flight && s.flight[w].Running?
                                 && s' == s.(flight := s.flight[w := Finished(s.flight[w].sm, c)]);
    assert s'.flight.Keys == s.flight.Keys;
    assert |s'.flight| == |s.flight| by {
      KeysCount(s.flight); KeysCount(s'.flight);
    }
  }

  lemma {:induction false} KeysCount(m: map<nat, Flight>)
    ensures |m| == |m.Keys|
  {
  }

  lemma {:induction false} RetirePublish(s: State, s': State)
    requires SlotsOk(s) && CountsOk(s) && PublishOk(s) && RetireStep(s, s')
    ensures PublishOk(s')
  {
    if s.retire.RIdle? && s.flight.Keys != {} {
      assert |s.flight| > 0;
    }
  }

  // ---- Every run ----------------------------------------------------------------------------------

  lemma {:induction false} StepInv(s: State, s': State)
    requires Inv(s) && Next(s, s')
    ensures Inv(s')
  {
    StepSizes(s, s');
    if DispatchStep(s, s') {
      DispatchSlots(s, s');
      DispatchBlocks(s, s');
      DispatchCounts(s, s');
      DispatchPublish(s, s');
    } else if RetireStep(s, s') {
      RetireSlots(s, s');
      RetireBlocks(s, s');
      RetireCounts(s, s');
      RetirePublish(s, s');
    } else {
      SmSlots(s, s');
      SmBlocks(s, s');
      SmCounts(s, s');
      assert PublishOk(s');
    }
  }

  lemma {:induction false} DispatchPublish(s: State, s': State)
    requires PublishOk(s) && DispatchStep(s, s')
    ensures PublishOk(s')
  {
  }

  ghost predicate Reachable(s: State) {
    Runs.Reachable(Init, Next, s)
  }

  lemma {:induction false} ReachableInv(s: State)
    requires Reachable(s)
    ensures Inv(s)
  {
    forall s | Init(s) ensures Inv(s) {
      InitInv(s);
    }
    forall s, s' | Inv(s) && Next(s, s') ensures Inv(s') {
      StepInv(s, s');
    }
    Runs.HoldsWhenReached(Init, Next, Inv, s);
  }

  // ---- What a launch promises ---------------------------------------------------------------------

  /** At every step, wg_left counts the work-groups not yet enqueued and those not yet retired. */
  lemma {:induction false} LeftIsConserved(s: State)
    requires Reachable(s)
    ensures s.wgLeft == (s.grid.Total() - |s.enqueued|) + |s.flight| + InHand(s.retire)
    ensures s.wgLeft + |s.retired| == s.grid.Total()
  {
    ReachableInv(s);
  }

  /** None of the branches that ignore a dequeued work-group is ever taken, and its local memory is
      always released. */
  lemma {:induction false} NothingIsIgnored(s: State)
    requires Reachable(s)
    ensures !s.retire.RIgnored?
  {
    ReachableInv(s);
  }

  /** A work-group is handed to an SM only when no SM has its slot. */
  lemma {:induction false} EnqueueIsFresh(s: State)
    requires Reachable(s) && s.dispatch.LEnqueue?
    ensures s.dispatch.w !in s.flight
  {
    ReachableInv(s);
    assert SlotOk(s, s.dispatch.w);
  }

  /** Live local-memory blocks and the slots in use that hold one match, SM by SM. */
  lemma {:induction false} BlocksMatchSlots(s: State, sm: nat, b: nat)
    requires Reachable(s) && sm < |s.lmem|
    ensures HasBase(s.lmem[sm], b) <==> exists w: nat :: OwnsBlock(s, w, sm, b)
    ensures forall v: nat, w: nat | OwnsBlock(s, v, sm, b) && OwnsBlock(s, w, sm, b) :: v == w
    ensures forall w: nat | OwnsBlock(s, w, sm, b) :: w < |s.slots| && s.slots[w].inUse
  {
    ReachableInv(s);
    forall w: nat | OwnsBlock(s, w, sm, b) ensures w < |s.slots| && s.slots[w].inUse {
      assert w in s.flight ==> FlightOk(s, w);
      assert SlotOk(s, w);
    }
  }

  /** Work-groups that share an SM share no byte of local memory: each has the bytes it asked for, in
      the SM's window. */
  lemma {:induction false} LocalMemoryIsPrivate(s: State, v: nat, w: nat)
    requires Reachable(s) && s.localSize > 0 && v in s.flight && w in s.flight
    ensures v < |s.slots| && w < |s.slots| && s.flight[w].sm < |s.lmem|
    ensures var (base, window) := (s.slots[w].base, s.lmem[s.flight[w].sm].window);
            window.base <= base && base + s.localSize <= window.End()
    ensures v != w && s.flight[v].sm == s.flight[w].sm ==>
              s.slots[v].base + s.localSize <= s.slots[w].base || s.slots[w].base + s.localSize <= s.slots[v].base
  {
    ReachableInv(s);
    var sm := s.flight[w].sm;
    assert FlightOk(s, v) && FlightOk(s, w);
    var k := BlockOf(s, w);
    if v != w && s.flight[v].sm == sm {
      var j := BlockOf(s, v);
      assert OwnsBlock(s, v, sm, s.slots[v].base) && OwnsBlock(s, w, sm, s.slots[w].base);
      BlocksApart(s.lmem[sm], j, k);
    }
  }

  lemma {:induction false} BlockOf(s: State, w: nat) returns (k: nat)
    requires SlotsOk(s) && BlocksOk(s) && SizesOk(s) && s.localSize > 0 && w in s.flight && FlightOk(s, w)
    ensures var t := s.lmem[s.flight[w].sm];
            && k < |t.active| && LmemTable.IsAt(t.active[k], s.slots[w].base)
            && LmemTable.EntryOk(t.active[k], t.window) && t.active[k].block.size >= s.localSize
  {
    var sm := s.flight[w].sm;
    var t := s.lmem[sm];
    assert OwnsBlock(s, w, sm, s.slots[w].base);
    assert HasBase(t, s.slots[w].base);
    k :| 0 <= k < |t.active| && LmemTable.IsAt(t.active[k], s.slots[w].base);
    assert SizeOk(t.active[k], s.localSize);
    LmemTable.AlignUpCovers(s.localSize);
    assert LmemTable.Inv(t);
  }

  lemma {:induction false} BlocksApart(t: LmemTable.Table, j: nat, k: nat)
    requires LmemTable.Inv(t) && j < |t.active| && k < |t.active| && j != k
    requires t.active[j].valid && t.active[k].valid
    ensures LmemTable.Disjoint(t.active[j].block, t.active[k].block)
  {
    if j < k {
      assert LmemTable.Disjoint(t.active[j].block, t.active[k].block);
    } else {
      assert LmemTable.Disjoint(t.active[k].block, t.active[j].block);
    }
  }

  lemma {:induction false} NothingInFlight(s: State)
    requires Inv(s) && s.wgLeft == 0
    ensures s.flight == map[] && InHand(s.retire) == 0 && |s.enqueued| == s.grid.Total()
    ensures s.dispatch.LDone? || s.dispatch.LUpdate?
  {
    assert |s.flight| == 0;
    if s.grid.Holds(s.cursor) {
      RankBound(s.grid, s.cursor);
    }
  }

  /** A slot an SM has says which work-group it is, and goes on saying so for as long as the SM has it. */
  lemma {:induction false} SlotKeepsItsId(run: seq<State>, i: nat, j: nat, w: nat)
    requires Runs.IsRun(Init, Next, run) && i <= j < |run|
    requires forall k | i <= k <= j :: w in run[k].flight
    ensures w < |run[i].slots| && w < |run[j].slots|
    ensures run[j].slots[w] == run[i].slots[w]
  {
    Runs.PrefixIsReached(Init, Next, run, i);
    FlightHasSlot(run[i], w);
    forall k | i <= k < j ensures SameSlot(run[k], run[k + 1], w) {
      Runs.PrefixIsReached(Init, Next, run, k);
      assert Runs.StepAt(Next, run, k);
      FlightIsUntouched(run[k], run[k + 1], w);
    }
    SameSlotAlong(run, i, j, w);
  }

  predicate SameSlot(s: State, s': State, w: nat) {
    w < |s.slots| == |s'.slots| && s'.slots[w] == s.slots[w]
  }

  lemma {:induction false} SameSlotAlong(run: seq<State>, i: nat, j: nat, w: nat)
    requires i <= j < |run| && w < |run[i].slots|
    requires forall k | i <= k < j :: SameSlot(run[k], run[k + 1], w)
    ensures SameSlot(run[i], run[j], w)
  {
    if i < j {
      SameSlotAlong(run, i, j - 1, w);
      assert SameSlot(run[j - 1], run[j - 1 + 1], w);
    }
  }

  lemma {:induction false} FlightHasSlot(s: State, w: nat)
    requires Reachable(s) && w in s.flight
    ensures w < |s.slots| && SlotOk(s, w)
  {
    ReachableInv(s);
    assert FlightOk(s, w) && SlotOk(s, w);
  }

  lemma {:induction false} FlightIsUntouched(s: State, s': State, w: nat)
    requires Reachable(s) && Next(s, s') && w in s.flight
    ensures SameSlot(s, s', w)
  {
    FlightHasSlot(s, w);
    if DispatchStep(s, s') {
      DispatchLeavesFlight(s, s', w);
    } else if RetireStep(s, s') {
      RetireLeavesFlight(s, s', w);
    }
  }

  lemma {:induction false} DispatchLeavesFlight(s: State, s': State, w: nat)
    requires DispatchStep(s, s') && w < |s.slots| && s.slots[w].inUse && !DispatchHas(s.dispatch, w)
    ensures |s'.slots| == |s.slots| && s'.slots[w] == s.slots[w]
  {
  }

  lemma {:induction false} RetireLeavesFlight(s: State, s': State, w: nat)
    requires RetireStep(s, s') && w < |s.slots| && !RetireHas(s.retire, w)
    ensures |s'.slots| == |s.slots| && s'.slots[w] == s.slots[w]
  {
  }

  /** A published result: there is one, it is the first failure or success, every resource of the
      launch has been given back, and every work-group of the grid was handed over exactly once. */
  lemma {:induction false} PublishedWhenAllIsFreed(s: State)
    requires Reachable(s) && (s.published != [] || s.retire.RPublish?)
    ensures s.published == [] || s.published == [FoldAll(s.retired)]
    ensures |s.retired| == |s.enqueued| == s.grid.Total()
    ensures forall id | s.grid.Holds(id) :: HandedOverOnce(s, id)
    ensures forall w: nat | w < |s.slots| :: !s.slots[w].inUse
    ensures forall sm: nat | sm < |s.lmem| :: Empty(s.lmem[sm])
  {
    ReachableInv(s);
    NothingInFlight(s);
    forall id | s.grid.Holds(id) ensures HandedOverOnce(s, id) {
      EveryIdOnce(s.grid, s.enqueued, id);
      assert s.enqueued[Rank(s.grid, id)] == id;
    }
    forall w: nat | w < |s.slots| ensures !s.slots[w].inUse {
      assert SlotOk(s, w);
    }
    forall sm: nat | sm < |s.lmem| ensures Empty(s.lmem[sm]) {
      NoBlocks(s, sm);
    }
  }

  /** Exactly one of the slots handed to the SMs said `id`. */
  ghost predicate HandedOverOnce(s: State, id: Id) {
    exists i | 0 <= i < |s.enqueued| ::
      s.enqueued[i] == id && forall j | 0 <= j < |s.enqueued| && j != i :: s.enqueued[j] != id
  }

  lemma {:induction false} SomethingCounted(s: State)
    requires Reachable(s) && s.published != []
    ensures s.retired != []
  {
    PublishedWhenAllIsFreed(s);
    assert s.grid.Proper() by {
      ReachableInv(s);
    }
    RankBound(s.grid, Id(0, 0, 0));
  }

  /** An SM whose blocks no slot holds has none live. */
  lemma {:induction false} UnownedIsEmpty(s: State, sm: nat)
    requires BlocksOk(s) && sm < |s.lmem| && forall w: nat, b: nat :: !OwnsBlock(s, w, sm, b)
    ensures Empty(s.lmem[sm])
  {
    forall k | 0 <= k < |s.lmem[sm].active| ensures !s.lmem[sm].active[k].valid {
      var e := s.lmem[sm].active[k];
      assert !HasBase(s.lmem[sm], e.block.base);
      assert !LmemTable.IsAt(e, e.block.base);
    }
  }

  lemma {:induction false} NoBlocks(s: State, sm: nat)
    requires Inv(s) && s.wgLeft == 0 && sm < |s.lmem|
    ensures Empty(s.lmem[sm])
  {
    NothingInFlight(s);
    UnownedIsEmpty(s, sm);
  }

  /** A launch that ends leaves each SM's free array as a fresh allocator has it. */
  lemma {:induction false} LocalMemoryIsWhole(s: State, sm: nat)
    requires Reachable(s) && s.published != [] && sm < |s.lmem| && s.lmem[sm].window.size > 0
    ensures s.lmem[sm].free == [s.lmem[sm].window]
  {
    PublishedWhenAllIsFreed(s);
    var t := s.lmem[sm];
    var u := LmemTable.Fresh(t.window, t.limit);
    assert Empty(t);
    LmemTheorems.FreshInv(t.window, t.limit);
    assert forall x: int :: !LmemTable.LiveAt(t.active, x) && !LmemTable.LiveAt(u.active, x);
    LmemTheorems.FreeArrayIsCanonical(t, u);
  }
}
