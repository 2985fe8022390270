/** What a memory copy leaves in memory, in the caches and in the view of the device. */
module CopyTheorems {
  import opened Arithmetic
  import opened CopyCoherence
  import Runs

  // ---- The invariant --------------------------------------------------------------------------

  /** Every byte outside the destination looks to the device as it did before the copy. */
  ghost predicate Kept(s: State)
    requires Shape(s)
  {
    forall a: nat | a < |s.mem| && !InDestination(s, a) :: Visible(s, a) == s.before[a]
  }

  predicate PastFlush(p: Phase) {
    p.WaitDma? || p.InvalidateDestination? || p.Succeeded?
  }

  predicate Settled(s: State, a: nat)
    requires s.width > 0
  {
    a / s.width in s.dcache && !s.dcache[a / s.width].dirty && !(PastFlush(s.phase) && InDestination(s, a))
  }

  /** A clean line agrees with memory, except where the DMA engine may have written. */
  ghost predicate CleanOk(s: State)
    requires Shape(s)
  {
    forall a: nat | a < |s.mem| && Settled(s, a) :: Visible(s, a) == s.mem[a]
  }

  predicate Dirty(s: State, l: nat) {
    l in s.dcache && s.dcache[l].dirty
  }

  /** The lines known to be clean: those flushed so far, and whole ranges once flushed. */
  predicate Flushed(s: State, l: nat) {
    match s.phase
    case Begin => false
    case FlushSource(lines) => l in lines
    case FlushDestination(lines) => l in lines || (FromDevice(s) && Touches(s, s.src, l))
    case _ => (FromDevice(s) && Touches(s, s.src, l)) || (ToDevice(s) && Touches(s, s.dst, l))
  }

  ghost predicate FlushOk(s: State) {
    forall l: nat | Flushed(s, l) :: !Dirty(s, l)
  }

  predicate Moved(s: State, i: nat) {
    i < s.size && (s.phase.InvalidateDestination? || s.phase.Succeeded? || (s.phase.WaitDma? && i in s.phase.bytes))
  }

  /** A moved byte holds the source as the device, or the host, saw it. */
  predicate Arrived(s: State, i: nat)
    requires Shape(s) && i < s.size
  {
    (if ToDevice(s) then s.mem[s.dst + i] else s.host[s.dst + i])
    == (if FromDevice(s) then s.before[s.src + i] else s.outside[s.src + i])
  }

  ghost predicate MovedOk(s: State)
    requires Shape(s)
  {
    forall i: nat | Moved(s, i) :: Arrived(s, i)
  }

  predicate Dropped(s: State, l: nat) {
    (s.phase.InvalidateDestination? && l in s.phase.lines)
    || (s.phase.Succeeded? && ToDevice(s) && Touches(s, s.dst, l))
  }

  ghost predicate DropOk(s: State) {
    forall l: nat | Dropped(s, l) :: l !in s.dcache && l !in s.icache
  }

  ghost predicate Inv(s: State) {
    Shape(s) && Kept(s) && CleanOk(s) && FlushOk(s) && MovedOk(s) && DropOk(s)
    && (s.phase.InvalidateDestination? ==> ToDevice(s))
  }

  // ---- Lines ------------------------------------------------------------------------------------

  lemma {:induction false} ByteTouches(s: State, base: nat, a: nat)
    requires s.width > 0 && base <= a < base + s.size
    ensures Touches(s, base, a / s.width)
  {
    DivMonotone(base, a, s.width);
    DivMonotone(a, base + s.size - 1, s.width);
  }

  /** Writing a line back, and dropping or keeping it, does not change what the device sees outside
      the destination. */
  lemma {:induction false} WriteBackVisible(s: State, l: nat, keep: bool, a: nat)
    requires Shape(s) && CleanOk(s) && a < |s.mem| && (!InDestination(s, a) || !PastFlush(s.phase))
    ensures var s' := WriteBack(s, l, keep);
            Shape(s') && Visible(s', a) == Visible(s, a) && (Settled(s', a) ==> Visible(s', a) == s'.mem[a])
  {
    if a / s.width == l && l in s.dcache && !s.dcache[l].dirty {
      assert Settled(s, a);
    }
    if a / s.width in s.dcache && !s.dcache[a / s.width].dirty {
      assert Settled(s, a);
    }
  }

  lemma {:induction false} WriteBackView(s: State, l: nat, keep: bool)
    requires Shape(s) && Kept(s) && CleanOk(s)
    ensures var s' := WriteBack(s, l, keep); Shape(s') && Kept(s') && CleanOk(s')
  {
    var s' := WriteBack(s, l, keep);
    assert Shape(s');
    forall a: nat | a < |s.mem| && (!InDestination(s, a) || !PastFlush(s.phase))
      ensures Visible(s', a) == Visible(s, a) && (Settled(s', a) ==> Visible(s', a) == s'.mem[a])
    {
      WriteBackVisible(s, l, keep, a);
    }
  }

  /** Memory under a line that is not dirty is not written back to. */
  lemma {:induction false} WriteBackSpares(s: State, l: nat, keep: bool, a: nat)
    requires Shape(s) && a < |s.mem| && !Dirty(s, a / s.width)
    ensures var s' := WriteBack(s, l, keep); |s'.mem| == |s.mem| && s'.mem[a] == s.mem[a]
  {
  }

  lemma {:induction false} DestinationClean(s: State, i: nat)
    requires Shape(s) && FlushOk(s) && Moved(s, i) && ToDevice(s)
    ensures !Dirty(s, (s.dst + i) / s.width)
  {
    var a := s.dst + i;
    ByteTouches(s, s.dst, a);
    assert Flushed(s, a / s.width);
  }

  lemma {:induction false} WriteBackMoved(s: State, l: nat, keep: bool, i: nat)
    requires Shape(s) && FlushOk(s) && Moved(s, i) && Arrived(s, i) && Shape(WriteBack(s, l, keep))
    ensures Arrived(WriteBack(s, l, keep), i)
  {
    if ToDevice(s) {
      DestinationClean(s, i);
      WriteBackSpares(s, l, keep, s.dst + i);
    }
  }

  lemma {:induction false} WriteBackKeeps(s: State, l: nat, keep: bool)
    requires Inv(s)
    ensures Inv(WriteBack(s, l, keep))
  {
    var s' := WriteBack(s, l, keep);
    WriteBackView(s, l, keep);
    forall i: nat | Moved(s', i) ensures Arrived(s', i) {
      assert Moved(s, i);
      WriteBackMoved(s, l, keep, i);
    }
    forall m: nat | Flushed(s', m) ensures !Dirty(s', m) {
      assert Flushed(s, m);
    }
    forall m: nat | Dropped(s', m) ensures m !in s'.dcache && m !in s'.icache {
      assert Dropped(s, m);
    }
  }

  lemma {:induction false} FlushLineKeeps(s: State, l: nat, keep: bool)
    requires Inv(s) && (s.phase.FlushSource? || s.phase.FlushDestination?)
    ensures Inv(FlushLine(s, l, keep))
  {
    WriteBackKeeps(s, l, keep);
    var t := WriteBack(s, l, keep);
    var s' := FlushLine(s, l, keep);
    assert !Dirty(t, l);
    forall m: nat | Flushed(s', m) ensures !Dirty(s', m) {
      assert m == l || Flushed(t, m);
    }
    SameView(t, s');
  }

  /** Moving on within the flush phases changes nothing the other clauses speak of. */
  lemma {:induction false} SameView(s: State, s': State)
    requires Shape(s) && Kept(s) && CleanOk(s) && s' == s.(phase := s'.phase)
    requires PastFlush(s.phase) ==> PastFlush(s'.phase)
    ensures Shape(s') && Kept(s') && CleanOk(s')
  {
    forall a: nat | a < |s.mem| ensures Visible(s', a) == Visible(s, a) && (Settled(s', a) ==> Settled(s, a)) {
    }
  }

  // ---- DMA and invalidation -----------------------------------------------------------------------

  lemma {:induction false} SourceInMemory(s: State, i: nat)
    requires Inv(s) && s.phase.WaitDma? && i < s.size && FromDevice(s)
    ensures s.mem[s.src + i] == s.before[s.src + i]
  {
    var a := s.src + i;
    ByteTouches(s, s.src, a);
    assert Flushed(s, a / s.width);
    assert !InDestination(s, a);
    if a / s.width in s.dcache {
      assert Settled(s, a);
    }
  }

  lemma {:induction false} MoveByteView(s: State, i: nat)
    requires Shape(s) && Kept(s) && CleanOk(s) && s.phase.WaitDma? && i < s.size
    ensures var s' := MoveByte(s, i); Shape(s') && Kept(s') && CleanOk(s')
  {
    var s' := MoveByte(s, i);
    assert Shape(s');
    forall a: nat | a < |s.mem| && !InDestination(s, a)
      ensures Visible(s', a) == Visible(s, a) && s'.mem[a] == s.mem[a]
    {
    }
    forall a: nat | a < |s'.mem| && Settled(s', a) ensures Visible(s', a) == s'.mem[a] {
      assert Settled(s, a);
    }
  }

  lemma {:induction false} MoveByteArrives(s: State, i: nat, j: nat)
    requires Shape(s) && s.phase.WaitDma? && i < s.size && Shape(MoveByte(s, i)) && j < s.size
    requires j == i || Arrived(s, j)
    requires FromDevice(s) ==> s.mem[s.src + i] == s.before[s.src + i]
    ensures Arrived(MoveByte(s, i), j)
  {
  }

  lemma {:induction false} MoveByteKeeps(s: State, i: nat)
    requires Inv(s) && s.phase.WaitDma? && i < s.size
    ensures Inv(MoveByte(s, i))
  {
    var s' := MoveByte(s, i);
    MoveByteView(s, i);
    if FromDevice(s) {
      SourceInMemory(s, i);
    }
    forall j: nat | Moved(s', j) ensures Arrived(s', j) {
      assert j == i || Moved(s, j);
      MoveByteArrives(s, i, j);
    }
    forall m: nat | Flushed(s', m) ensures !Dirty(s', m) {
      assert Flushed(s, m);
    }
  }

  lemma {:induction false} DropLineKeeps(s: State, l: nat)
    requires Inv(s) && s.phase.InvalidateDestination? && ToDevice(s) && Touches(s, s.dst, l)
    ensures Inv(DropLine(s, l))
  {
    var s' := DropLine(s, l);
    assert Flushed(s, l);
    forall a: nat | a < |s.mem| && !InDestination(s, a) ensures Visible(s', a) == Visible(s, a) {
      if a / s.width == l && l in s.dcache {
        assert Settled(s, a);
      }
    }
    forall a: nat | a < |s'.mem| && Settled(s', a) ensures Visible(s', a) == s'.mem[a] {
      assert Settled(s, a);
    }
    forall j: nat | Moved(s', j) ensures Arrived(s', j) {
      assert Moved(s, j);
    }
    forall m: nat | Flushed(s', m) ensures !Dirty(s', m) {
      assert Flushed(s, m);
    }
    forall m: nat | Dropped(s', m) ensures m !in s'.dcache && m !in s'.icache {
      assert m == l || Dropped(s, m);
    }
  }

  // ---- Every run ------------------------------------------------------------------------------------

  lemma {:induction false} AdvanceKeeps(s: State)
    requires Inv(s) && NothingLeft(s)
    ensures Inv(s.(phase := NextPhase(s)))
  {
    var s' := s.(phase := NextPhase(s));
    SameView(s, s');
    forall l: nat | Flushed(s', l) ensures !Dirty(s', l) {
      assert Flushed(s, l);
    }
    forall i: nat | Moved(s', i) ensures Arrived(s', i) {
      assert Moved(s, i);
    }
    forall l: nat | Dropped(s', l) ensures l !in s'.dcache && l !in s'.icache {
      assert Dropped(s, l);
    }
  }

  lemma {:induction false} InitInv(s: State)
    requires Init(s)
    ensures Inv(s)
  {
    forall a: nat | a < |s.mem| && Settled(s, a) ensures Visible(s, a) == s.mem[a] {
    }
  }

  lemma {:induction false} StepInv(s: State, s': State)
    requires Inv(s) && Step(s, s')
    ensures Inv(s')
  {
    if NothingLeft(s) && s' == s.(phase := NextPhase(s)) {
      AdvanceKeeps(s);
    } else if s' == s.(failed := true) {
      GiveUpKeeps(s);
    } else {
      HardwareInv(s, s');
    }
  }

  lemma {:induction false} GiveUpKeeps(s: State)
    requires Inv(s)
    ensures Inv(s.(failed := true))
  {
    var s' := s.(failed := true);
    GiveUpView(s);
    forall l: nat
      ensures (Flushed(s', l) <==> Flushed(s, l)) && (Dropped(s', l) <==> Dropped(s, l))
      ensures Dirty(s', l) <==> Dirty(s, l)
    {
    }
    forall i: nat | Moved(s', i) ensures Arrived(s', i) {
      assert Moved(s, i);
    }
  }

  lemma {:induction false} GiveUpView(s: State)
    requires Shape(s) && Kept(s) && CleanOk(s)
    ensures var s' := s.(failed := true); Shape(s') && Kept(s') && CleanOk(s')
  {
    var s' := s.(failed := true);
    forall a: nat | a < |s.mem| ensures Visible(s', a) == Visible(s, a) && (Settled(s', a) <==> Settled(s, a)) {
    }
  }

  lemma {:induction false} HardwareInv(s: State, s': State)
    requires Inv(s) && (Evict(s, s') || Flush(s, s') || Move(s, s') || Invalidate(s, s'))
    ensures Inv(s')
  {
    if l: nat :| s' == WriteBack(s, l, false) {
      WriteBackKeeps(s, l, false);
    } else if l: nat, keep: bool :| (s.phase.FlushSource? || s.phase.FlushDestination?) && s' == FlushLine(s, l, keep) {
      FlushLineKeeps(s, l, keep);
    } else if i: nat :| s.phase.WaitDma? && i < s.size && s' == MoveByte(s, i) {
      MoveByteKeeps(s, i);
    } else if l: nat :| s.phase.InvalidateDestination? && Touches(s, s.dst, l) && s' == DropLine(s, l) {
      DropLineKeeps(s, l);
    }
  }

  ghost predicate Goes(s: State, s': State) {
    Shape(s) && Step(s, s')
  }

  ghost predicate Reachable(s: State) {
    Runs.Reachable(Init, Goes, s)
  }

  lemma {:induction false} ReachableInv(s: State)
    requires Reachable(s)
    ensures Inv(s)
  {
    forall s | Init(s) ensures Inv(s) {
      InitInv(s);
    }
    forall s, s' | Inv(s) && Goes(s, s') ensures Inv(s') {
      StepInv(s, s');
    }
    Runs.HoldsWhenReached(Init, Goes, Inv, s);
  }

  // ---- What a copy promises ---------------------------------------------------------------------------

  /** At every moment of a copy, whether it succeeds or fails, no byte outside the destination looks
      different to the device, not even one that shares a line with the destination. */
  lemma {:induction false} OtherBytesNeverChange(s: State, a: nat)
    requires Reachable(s) && a < |s.mem| && !InDestination(s, a)
    ensures Shape(s) && Visible(s, a) == s.before[a]
  {
    ReachableInv(s);
  }

  /** When a copy succeeds, each destination byte is the source byte as it looked when the copy began,
      in memory and to the device, and no cache holds a destination line. */
  lemma {:induction false} SuccessMeansCopied(s: State, i: nat)
    requires Reachable(s) && s.phase.Succeeded? && i < s.size
    ensures Shape(s)
    ensures s.kind.DeviceToHost? ==> s.host[s.dst + i] == s.before[s.src + i]
    ensures s.kind.DeviceToDevice? ==> Visible(s, s.dst + i) == s.mem[s.dst + i] == s.before[s.src + i]
    ensures s.kind.HostToDevice? ==> Visible(s, s.dst + i) == s.mem[s.dst + i] == s.outside[s.src + i]
    ensures ToDevice(s) ==> (s.dst + i) / s.width !in s.dcache && (s.dst + i) / s.width !in s.icache
  {
    ReachableInv(s);
    assert Moved(s, i) && Arrived(s, i);
    if ToDevice(s) {
      DestinationGone(s, s.dst + i);
    }
  }

  lemma {:induction false} DestinationGone(s: State, a: nat)
    requires Inv(s) && s.phase.Succeeded? && InDestination(s, a)
    ensures a / s.width !in s.dcache && a / s.width !in s.icache
  {
    ByteTouches(s, s.dst, a);
    assert Dropped(s, a / s.width);
  }

  /** A finished copy leaves the caches as coherent as it found them, ready for the next one. */
  lemma {:induction false} SuccessIsCoherent(s: State)
    requires Reachable(s) && s.phase.Succeeded?
    ensures Shape(s) && Coherent(s)
  {
    ReachableInv(s);
    forall a: nat | a < |s.mem| && a / s.width in s.dcache && !s.dcache[a / s.width].dirty
      ensures Visible(s, a) == s.mem[a]
    {
      if InDestination(s, a) {
        DestinationGone(s, a);
      } else {
        assert Settled(s, a);
      }
    }
  }
}
