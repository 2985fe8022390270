/** When ProcessThread runs a pass: StateChangeThread sets a flag whenever a mask changes, a work-group
    arrives or the core can take commands again, and a pass starts only when the flag is set. */
module WgWakeups {
  import opened Options
  import Runs
  import opened WarpCore
  import opened WgInvariant
  import opened WgPasses
  import opened WgScheduler
  import opened WgTheorems

  /** `wake` is process_pending_. `dropped` is history: the last pass read an empty group and dropped it. */
  datatype Node = Node(s: State, wake: bool, dropped: bool)

  predicate MasksChange(a: seq<Warp>, b: seq<Warp>)
    requires |a| == |b|
  {
    exists i | 0 <= i < |a| :: a[i].status != b[i].status
  }

  /** Whether the step from `s` to `s'` notifies one of the events StateChangeThread waits for. */
  predicate Notifies(s: State, s': State)
    requires |s.core| == |s'.core|
  {
    MasksChange(s.core, s'.core) || (s.credit == 0 && s'.credit > 0) || |s'.dispatch| > |s.dispatch|
  }

  /** A step of the initializer or its environment. Only the start of a pass waits for the flag, and takes it. */
  ghost predicate Next(w: Node, w': Node) {
    && Sized(w.s) && OrderInRange(w.s) && Step(w.s, w'.s) && |w.s.core| == |w'.s.core|
    && (w.s.phase.Waiting? && w'.s.phase.Retiring? ==> w.wake)
    && w'.wake == ((w.wake && !(w.s.phase.Waiting? && w'.s.phase.Retiring?)) || Notifies(w.s, w'.s))
    && w'.dropped == if w.s.phase.Retiring? && w'.s.phase.Waiting? then Drops(w.s, w'.s) else w.dropped
  }

  predicate Drops(s: State, s': State) {
    |s'.dispatch| < |s.dispatch| && s'.count == s.count
  }

  ghost predicate Start(w: Node) {
    Init(w.s) && !w.wake && !w.dropped
  }

  // ---- Nothing left to do ---------------------------------------------------------------------

  /** Every trap has been looked at. */
  ghost predicate Seen(s: State)
    requires Sized(s)
  {
    forall k: nat | k < s.limit :: ExceptionSlot(s, k) == s.slots[k]
  }

  /** Every termination has been issued, or the core refuses commands. */
  ghost predicate Issued(s: State)
    requires Sized(s)
  {
    s.credit > 0 ==> ReleaseSet(s) == {} && AbortSet(s) == {}
  }

  ghost predicate NoneDrained(s: State)
    requires Sized(s)
  {
    forall i: nat | i < |s.owner| :: !Drained(s, i)
  }

  /** The first half of a pass would find nothing to do. */
  ghost predicate Begun(s: State) {
    Sized(s) && Seen(s) && Issued(s) && NoneDrained(s)
  }

  ghost predicate BarriersDone(s: State)
    requires Sized(s)
  {
    AnyAtBarrier(s) ==> DeadlockSet(s) == {} && (s.credit > 0 ==> ResumeSet(s) == {})
  }

  predicate CanTake(s: State)
    requires Sized(s)
  {
    s.count < s.limit && FreeWarps(s) != {} && Vacancies(s) != {}
  }

  ghost predicate NonePartial(s: State)
    requires Sized(s)
  {
    forall k: nat | k < s.limit :: !Partial(s.slots[k])
  }

  ghost predicate Dispatched(s: State, dropped: bool)
    requires Sized(s)
  {
    && (s.credit > 0 ==> NonePartial(s) || FreeWarps(s) == {})
    && (if dropped then CanTake(s) else s.credit > 0 ==> s.dispatch == [] || !CanTake(s))
  }

  ghost predicate Still(s: State, dropped: bool) {
    Begun(s) && BarriersDone(s) && Dispatched(s, dropped)
  }

  // ---- The first half of a pass ---------------------------------------------------------------

  lemma {:induction false} ExceptionsSeen(s: State)
    requires Sized(s)
    ensures Seen(HandleExceptions(s))
  {
    var s' := HandleExceptions(s);
    forall k: nat | k < s.limit ensures ExceptionSlot(s', k) == s'.slots[k] {
      assert Raised(s', k) == Raised(s, k) && RaisedErrors(s', k) == RaisedErrors(s, k);
    }
  }

  /** What a terminating command leaves raised. */
  lemma {:induction false} TerminateSeen(s: State, c: Command)
    requires Sized(s) && Seen(s) && (c == Abort(AbortSet(s)) || c == Release(ReleaseSet(s)))
    ensures Sized(Terminate(s, c)) && Seen(Terminate(s, c))
  {
    var s' := Terminate(s, c);
    forall k: nat | k < s.limit ensures ExceptionSlot(s', k) == s'.slots[k] {
      assert ExceptionSlot(s, k) == s.slots[k];
      TerminateRaised(s, c, k);
    }
  }

  lemma {:induction false} TerminateRaised(s: State, c: Command, k: nat)
    requires Sized(s) && k < s.limit && (c == Abort(AbortSet(s)) || c == Release(ReleaseSet(s)))
    ensures var s' := Terminate(s, c);
            && Sized(s')
            && (Raised(s', k) == {} || (Raised(s', k) == Raised(s, k) && RaisedErrors(s', k) == RaisedErrors(s, k)))
  {
    var s' := Terminate(s, c);
    if s' != s {
      assert forall i | 0 <= i < |s.core| ::
               s'.core[i].status == s.core[i].status && s'.core[i].mcause == s.core[i].mcause;
      if c.Release? {
        forall i | 0 <= i < |s.owner| && s.owner[i] == k && s.core[i].status.Trapped? ensures s'.pending[i] {
          assert s.pending[i] || i in ReleaseSet(s);
        }
      } else {
        assert forall i | 0 <= i < |s.owner| && s.core[i].status.Trapped? :: i !in AbortSet(s);
        assert Raised(s', k) == Raised(s, k);
      }
    }
  }

  lemma {:induction false} TerminationsIssued(s: State)
    requires Sized(s)
    ensures var s' := IssueTerminations(s); Sized(s') && Issued(s')
  {
    var a := Terminate(s, Abort(AbortSet(s)));
    var s' := Terminate(a, Release(ReleaseSet(s)));
    if s'.credit > 0 {
      forall i: nat | i < |s.owner| ensures i !in ReleaseSet(s') && i !in AbortSet(s') {
        assert a.core[i].status == s.core[i].status == s'.core[i].status;
        assert i in AbortSet(s) ==> a.pending[i];
        assert i in ReleaseSet(s) ==> s'.pending[i];
        assert a.pending[i] ==> s'.pending[i];
        assert s.pending[i] ==> a.pending[i];
      }
    }
  }

  lemma {:induction false} AbortKeepsReleases(s: State)
    requires Sized(s)
    ensures var a := Terminate(s, Abort(AbortSet(s))); Sized(a) && ReleaseSet(a) == ReleaseSet(s)
  {
    var a := Terminate(s, Abort(AbortSet(s)));
    assert forall i | 0 <= i < |s.core| :: a.core[i].status == s.core[i].status;
    assert forall i | 0 <= i < |s.owner| && s.core[i].status.Trapped? :: i !in AbortSet(s);
  }

  lemma {:induction false} StoppedBegun(s: State)
    requires Sized(s) && Seen(s) && Issued(s)
    ensures Begun(HandleStopped(s))
  {
    var s' := HandleStopped(s);
    forall k: nat | k < s.limit ensures ExceptionSlot(s', k) == s'.slots[k] {
      assert ExceptionSlot(s, k) == s.slots[k];
      assert Raised(s', k) == Raised(s, k) && RaisedErrors(s', k) == RaisedErrors(s, k);
    }
    forall i: nat | i < |s.owner| && s.credit > 0 ensures i !in ReleaseSet(s') && i !in AbortSet(s') {
      assert i !in ReleaseSet(s) && i !in AbortSet(s);
    }
  }

  lemma {:induction false} BeginPassBegun(s: State)
    requires Sized(s)
    ensures Begun(BeginPass(s))
  {
    var s0 := HandleExceptions(s.(firstTrap := Sightings(s, s.limit)));
    ExceptionsSeen(s.(firstTrap := Sightings(s, s.limit)));
    TerminateSeen(s0, Abort(AbortSet(s0)));
    AbortKeepsReleases(s0);
    TerminateSeen(Terminate(s0, Abort(AbortSet(s0))), Release(ReleaseSet(s0)));
    TerminationsIssued(s0);
    StoppedBegun(IssueTerminations(s0));
  }

  lemma {:induction false} RetireBegun(s: State)
    requires Begun(s) && s.phase.Retiring? && s.phase.list != [] && s.phase.list[0].0 < s.limit
    ensures Begun(Retire(s))
  {
    var s' := Retire(s);
    forall k: nat | k < s.limit ensures ExceptionSlot(s', k) == s'.slots[k] {
      assert ExceptionSlot(s, k) == s.slots[k];
      assert Raised(s', k) == Raised(s, k) && RaisedErrors(s', k) == RaisedErrors(s, k);
    }
    forall i: nat | i < |s.owner|
      ensures (i in ReleaseSet(s') ==> i in ReleaseSet(s)) && (i in AbortSet(s') ==> i in AbortSet(s))
    {
    }
    forall i: nat | i < |s.owner| ensures !Drained(s', i) {
      assert !Drained(s, i);
    }
  }

  // ---- What leaves it so ------------------------------------------------------------------------

  /** Nothing that a handler decides by has changed: masks, traps, owners and slots, but for the mark that
      a divergent barrier was reported. */
  ghost predicate Alike(s: State, s': State)
    requires Sized(s) && Sized(s')
  {
    && (s'.limit, s'.threadsPerWarp, s'.owner, s'.pending) == (s.limit, s.threadsPerWarp, s.owner, s.pending)
    && (s'.credit > 0 ==> s.credit > 0)
    && (forall k: nat | k < s.limit :: s'.slots[k] == s.slots[k].(divergenceReported := s'.slots[k].divergenceReported))
    && (forall i: nat | i < |s.core| ::
          s'.core[i].status == s.core[i].status && (s.core[i].status.Trapped? ==> s'.core[i] == s.core[i]))
  }

  lemma {:induction false} AlikeBegun(s: State, s': State)
    requires Begun(s) && Sized(s') && Alike(s, s')
    ensures Begun(s')
  {
    forall k: nat | k < s.limit ensures ExceptionSlot(s', k) == s'.slots[k] {
      assert ExceptionSlot(s, k) == s.slots[k];
      assert Raised(s', k) == Raised(s, k) && RaisedErrors(s', k) == RaisedErrors(s, k);
    }
    forall i: nat | i < |s.owner|
      ensures (i in ReleaseSet(s') ==> i in ReleaseSet(s)) && (i in AbortSet(s') ==> i in AbortSet(s))
    {
    }
    forall i: nat | i < |s.owner| ensures !Drained(s', i) {
      assert !Drained(s, i);
    }
  }

  lemma {:induction false} AlikeSets(s: State, s': State)
    requires Sized(s) && Sized(s') && Alike(s, s')
    ensures FreeWarps(s') == FreeWarps(s) && Vacancies(s') == Vacancies(s)
    ensures AnyAtBarrier(s') <==> AnyAtBarrier(s)
    ensures DeadlockSet(s') == DeadlockSet(s) && ResumeSet(s') == ResumeSet(s)
  {
    forall k: nat | k < s.limit ensures Deadlocked(s', k) == Deadlocked(s, k) && Assembled(s', k) == Assembled(s, k) {
      assert AtBarrier(s', k) == AtBarrier(s, k);
    }
  }

  lemma {:induction false} AlikeStill(s: State, s': State, dropped: bool)
    requires Still(s, dropped) && Sized(s') && Alike(s, s') && s'.dispatch == s.dispatch && s'.count == s.count
    ensures Still(s', dropped)
  {
    AlikeBegun(s, s');
    AlikeSets(s, s');
  }

  /** A step of the core that notifies nothing. */
  lemma {:induction false} SilentCore(s: State, s': State)
    requires Sized(s) && CoreStep(s, s') && !Notifies(s, s')
    ensures Sized(s') && Alike(s, s') && s'.dispatch == s.dispatch && s'.count == s.count
  {
    forall i: nat | i < |s.core|
      ensures s'.core[i].status == s.core[i].status && (s.core[i].status.Trapped? ==> s'.core[i] == s.core[i])
    {
      assert Evolves(s.core[i], s'.core[i]);
    }
  }

  // ---- The second half of a pass ----------------------------------------------------------------

  predicate Starts(a: seq<Warp>, b: seq<Warp>, i: nat) {
    i < |a| && i < |b| && !a[i].status.Active? && b[i].status.Active?
  }

  /** A running warp keeps running through a dispatch. */
  predicate RunningStays(a: seq<Warp>, b: seq<Warp>) {
    |a| == |b| && forall i: nat | i < |a| && a[i].status.Active? :: b[i].status.Active?
  }

  lemma {:induction false} PlaceStarts(s: State, k: nat, mask: set<nat>)
    requires Sized(s) && k < |s.slots| && mask != {} && mask <= FreeWarps(s) && s.credit > 0
    ensures var s' := Place(s, k, mask); RunningStays(s.core, s'.core) && exists i: nat :: Starts(s.core, s'.core, i)
  {
    var i :| i in mask;
    assert Starts(s.core, Place(s, k, mask).core, i);
  }

  lemma {:induction false} BarriersQuiet(s: State)
    requires Sized(s) && !HandleBarriers(s).phase.Halted?
    ensures var b := HandleBarriers(s);
            && Sized(b) && RunningStays(s.core, b.core)
            && ((exists i: nat :: Starts(s.core, b.core, i))
                || (BarriersDone(s) && b == s.(slots := b.slots) && Alike(s, b)))
  {
    var b := HandleBarriers(s);
    if AnyAtBarrier(s) && ResumeSet(s) != {} && s.credit > 0 {
      var i :| i in ResumeSet(s);
      assert Starts(s.core, b.core, i);
    }
  }

  lemma {:induction false} RemainingPlaces(s: State, k: nat)
    requires Sized(s) && OrderInRange(s) && s.credit > 0 && FirstPartial(s.slots, s.order) == Some(k)
    requires Partial(s.slots[k])
    ensures var r := DispatchRemaining(s);
            && RunningStays(s.core, r.core)
            && ((exists i: nat :: Starts(s.core, r.core, i)) || (r == s && FreeWarps(s) == {}))
  {
    var mask := Chosen(s, k);
    assert DispatchRemaining(s) == PlaceMore(s, k, mask);
    ChosenIs(s, k);
    if mask != {} {
      PlaceStarts(s, k, mask);
    }
  }

  lemma {:induction false} RemainingQuiet(s: State)
    requires Sized(s) && OrderOk(s)
    ensures var r := DispatchRemaining(s);
            && RunningStays(s.core, r.core)
            && ((exists i: nat :: Starts(s.core, r.core, i))
                || (r == s && (s.credit > 0 ==> NonePartial(s) || FreeWarps(s) == {})))
  {
    FirstPartialIs(s);
    var first := FirstPartial(s.slots, s.order);
    if first.Some? && s.credit > 0 {
      RemainingPlaces(s, first.value);
    }
  }

  lemma {:induction false} NewQuiet(s: State)
    requires Sized(s)
    ensures var n := DispatchNew(s);
            && RunningStays(s.core, n.core)
            && ((exists i: nat :: Starts(s.core, n.core, i))
                || (n == s && (s.credit > 0 ==> s.dispatch == [] || !CanTake(s)))
                || (s.dispatch != [] && n == ReadGroup(s) && CanTake(s)))
  {
    if s.dispatch != [] && CanTake(s) && s.credit > 0 {
      var k := Least(Vacancies(s), s.limit);
      var mask := Lowest(FreeWarps(s), 0, |s.owner|, WarpCount(s, s.dispatch[0]));
      LowestIs(FreeWarps(s), 0, |s.owner|, WarpCount(s, s.dispatch[0]));
      if mask != {} {
        assert FreeWarps(Install(s, k)) == FreeWarps(s);
        PlaceStarts(Install(s, k), k, mask);
      }
    }
  }

  /** A warp that starts is seen at the end of the pass. */
  lemma {:induction false} StartIsSeen(a: seq<Warp>, b: seq<Warp>, c: seq<Warp>, i: nat)
    requires |a| == |b| && Starts(a, b, i) && RunningStays(b, c)
    ensures MasksChange(a, c)
  {
    assert a[i].status != c[i].status;
  }

  /** The second half of a pass starts a warp, or does nothing but mark divergent barriers and drop a group. */
  lemma {:induction false} EndCases(s: State)
    requires Inv(s) && s.phase == Retiring([]) && !EndPass(s).phase.Halted?
    ensures var b := HandleBarriers(s);
            && Sized(b) && OrderInRange(b) && |EndPass(s).core| == |s.core|
            && (|| MasksChange(s.core, EndPass(s).core)
                || (BarriersDone(s) && b == s.(slots := b.slots) && Alike(s, b)
                    && Leaves(b, DispatchNew(DispatchRemaining(b)))))
  {
    var b := HandleBarriers(s);
    BarriersInv(s);
    BarriersQuiet(s);
    var r := DispatchRemaining(b);
    RemainingQuiet(b);
    RemainingInv(b);
    var n := DispatchNew(r);
    NewQuiet(r);
    if i: nat :| Starts(s.core, b.core, i) {
      StartIsSeen(s.core, b.core, n.core, i);
    } else if i: nat :| Starts(b.core, r.core, i) {
      StartIsSeen(b.core, r.core, n.core, i);
    } else if i: nat :| Starts(r.core, n.core, i) {
      StartIsSeen(b.core, n.core, n.core, i);
    }
  }

  /** Dispatching leaves `b` as it is, or drops the first group. */
  ghost predicate Leaves(b: State, n: State)
    requires Sized(b)
  {
    && (b.credit > 0 ==> NonePartial(b) || FreeWarps(b) == {})
    && (|| (n == b && (b.credit > 0 ==> b.dispatch == [] || !CanTake(b)))
        || (b.dispatch != [] && n == ReadGroup(b) && CanTake(b)))
  }

  /** A pass that ends with no event leaves nothing to do, but for groups behind one it dropped. */
  lemma {:induction false} EndStill(s: State)
    requires Inv(s) && s.phase == Retiring([]) && Begun(s) && !EndPass(s).phase.Halted?
    requires |EndPass(s).core| == |s.core| && !Notifies(s, EndPass(s))
    ensures Still(EndPass(s), Drops(s, EndPass(s)))
  {
    EndCases(s);
    var b := HandleBarriers(s);
    QuietEndStill(s, b, DispatchNew(DispatchRemaining(b)));
  }

  lemma {:induction false} QuietEndStill(s: State, b: State, n: State)
    requires Begun(s) && BarriersDone(s) && Sized(b) && b == s.(slots := b.slots) && Alike(s, b)
    requires Leaves(b, n)
    ensures Still(n.(phase := Waiting), Drops(s, n.(phase := Waiting)))
  {
    var s' := n.(phase := Waiting);
    AlikeBegun(s, s');
    AlikeSets(s, s');
    AlikeSets(b, s');
  }

  // ---- What a pass would do -----------------------------------------------------------------------

  lemma {:induction false} StoppedQuiet(s: State)
    requires Sized(s) && NoneFinished(s) && NoneDrained(s)
    ensures HandleStopped(s) == s.(phase := Retiring([]))
  {
    forall k: nat | k < s.limit ensures StoppedSlot(s, k) == s.slots[k] {
      assert DrainedOf(s, k) == {};
    }
    assert HandleStopped(s).slots == s.slots;
    assert HandleStopped(s).owner == s.owner && HandleStopped(s).pending == s.pending;
    NothingToRetire(s.slots, |s.slots|);
  }

  lemma {:induction false} BeginQuiet(s: State)
    requires Begun(s) && NoneFinished(s)
    ensures BeginPass(s) == s.(phase := Retiring([]), firstTrap := Sightings(s, s.limit))
  {
    var s0 := s.(firstTrap := Sightings(s, s.limit));
    AlikeBegun(s, s0);
    assert HandleExceptions(s0).slots == s0.slots;
    assert HandleExceptions(s0) == s0;
    assert IssueTerminations(s0) == s0;
    StoppedQuiet(s0);
  }

  /** A pass that gets a command accepted, retires or takes a group, or reports a deadlock. */
  ghost predicate Useful(s: State)
    requires Inv(s) && s.phase.Waiting?
  {
    Progress(s, Pass(s)) || |Pass(s).arrivals| > |s.arrivals|
  }

  lemma {:induction false} BarriersIdle(s: State)
    requires Sized(s) && s.phase == Retiring([]) && BarriersDone(s)
    ensures var b := HandleBarriers(s); Sized(b) && b == s.(slots := b.slots) && Alike(s, b)
  {
  }

  lemma {:induction false} RemainingIdle(s: State)
    requires Sized(s) && OrderOk(s) && (s.credit > 0 ==> NonePartial(s) || FreeWarps(s) == {})
    ensures DispatchRemaining(s) == s
  {
    FirstPartialIs(s);
    var first := FirstPartial(s.slots, s.order);
    if first.Some? {
      ChosenIs(s, first.value);
    }
  }

  lemma {:induction false} EndQuiet(s: State, dropped: bool)
    requires Inv(s) && s.phase == Retiring([]) && Still(s, dropped)
    ensures var e := EndPass(s);
            Progress(s, e) || |e.arrivals| > |s.arrivals| <==> dropped && s.dispatch != [] && s.credit > 0
    ensures |EndPass(s).delivered| == |s.delivered|
  {
    var b := HandleBarriers(s);
    BarriersIdle(s);
    assert OrderOk(b) && Still(b, dropped) by {
      BarriersInv(s);
      AlikeStill(s, b, dropped);
    }
    RemainingIdle(b);
    NewTakes(b);
  }

  lemma {:induction false} NewTakes(s: State)
    requires Sized(s)
    ensures var n := DispatchNew(s);
            && n.delivered == s.delivered && n.phase == s.phase
            && (if s.dispatch != [] && CanTake(s) && s.credit > 0 then |n.arrivals| == |s.arrivals| + 1 else n == s)
  {
  }

  lemma {:induction false} StillMeans(s: State, dropped: bool)
    requires Inv(s) && s.phase.Waiting? && Still(s, dropped)
    ensures Useful(s) <==> dropped && s.dispatch != [] && s.credit > 0
  {
    BeginPassInv(s);
    BeginQuiet(s);
    var s1 := BeginPass(s);
    AlikeStill(s, s1, dropped);
    EndQuiet(s1, dropped);
  }

  // ---- Every run ------------------------------------------------------------------------------------

  ghost predicate NodeInv(w: Node) {
    && Inv(w.s)
    && (!w.wake && w.s.phase.Waiting? ==> Still(w.s, w.dropped))
    && (!w.wake && w.s.phase.Retiring? ==> Begun(w.s))
  }

  lemma {:induction false} StartInv(w: Node)
    requires Start(w)
    ensures NodeInv(w)
  {
    InitInv(w.s);
    var s := w.s;
    assert Begun(s) by {
      forall k: nat | k < s.limit ensures ExceptionSlot(s, k) == s.slots[k] {
        assert !s.slots[k].busy;
      }
      assert forall i: nat | i < |s.owner| :: s.owner[i] == -1;
    }
  }

  lemma {:induction false} EnvironmentInv(w: Node, w': Node)
    requires NodeInv(w) && Next(w, w') && !w'.wake && (CoreStep(w.s, w'.s) || Dequeue(w.s, w'.s))
    ensures w'.s.phase == w.s.phase
    ensures w.s.phase.Waiting? ==> Still(w'.s, w'.dropped)
    ensures w.s.phase.Retiring? ==> Begun(w'.s)
  {
    if CoreStep(w.s, w'.s) {
      SilentCore(w.s, w'.s);
    }
    QuietStep(w, w');
  }

  lemma {:induction false} EndInv(w: Node, w': Node)
    requires NodeInv(w) && Next(w, w') && !w'.wake && w.s.phase == Retiring([]) && w'.s == EndPass(w.s)
    ensures !w'.s.phase.Retiring? && (w'.s.phase.Waiting? ==> Still(w'.s, w'.dropped))
  {
    BarriersInv(w.s);
    EndPhase(w.s);
    if !w'.s.phase.Halted? {
      EndStill(w.s);
    }
  }

  lemma {:induction false} PassInv(w: Node, w': Node)
    requires NodeInv(w) && Next(w, w') && !w'.wake && !CoreStep(w.s, w'.s) && !Dequeue(w.s, w'.s)
    ensures w'.s.phase.Waiting? ==> Still(w'.s, w'.dropped)
    ensures w'.s.phase.Retiring? ==> Begun(w'.s)
  {
    assert !Enqueue(w.s, w'.s);
    if w.s.phase.Waiting? {
      BeginPassInv(w.s);
      BeginPassBegun(w.s);
    } else if w.s.phase.list != [] {
      RetireBegun(w.s);
    } else {
      EndInv(w, w');
    }
  }

  lemma {:induction false} EndPhase(s: State)
    requires Sized(s) && OrderInRange(s) && Sized(HandleBarriers(s)) && OrderInRange(HandleBarriers(s))
    ensures EndPass(s).phase.Waiting? || EndPass(s).phase.Halted?
  {
  }

  lemma {:induction false} NextInv(w: Node, w': Node)
    requires NodeInv(w) && Next(w, w')
    ensures NodeInv(w')
  {
    StepInv(w.s, w'.s);
    if !w'.wake {
      if CoreStep(w.s, w'.s) || Dequeue(w.s, w'.s) {
        EnvironmentInv(w, w');
      } else {
        PassInv(w, w');
      }
    }
  }

  lemma {:induction false} QuietStep(w: Node, w': Node)
    requires NodeInv(w) && Next(w, w') && !w'.wake && w'.s.phase == w.s.phase
    requires Sized(w'.s) && Alike(w.s, w'.s) && w'.s.dispatch == w.s.dispatch && w'.s.count == w.s.count
    ensures w.s.phase.Waiting? ==> Still(w'.s, w'.dropped)
    ensures w.s.phase.Retiring? ==> Begun(w'.s)
  {
    if w.s.phase.Waiting? {
      AlikeStill(w.s, w'.s, w.dropped);
    } else if w.s.phase.Retiring? {
      AlikeBegun(w.s, w'.s);
    }
  }

  ghost predicate Reached(w: Node) {
    Runs.Reachable(Start, Next, w)
  }

  lemma {:induction false} ReachedInv(w: Node)
    requires Reached(w)
    ensures NodeInv(w)
  {
    forall w | Start(w) ensures NodeInv(w) {
      StartInv(w);
    }
    forall w, w' | NodeInv(w) && Next(w, w') ensures NodeInv(w') {
      NextInv(w, w');
    }
    Runs.HoldsWhenReached(Start, Next, NodeInv, w);
  }

  /** No wake-up is lost: while ProcessThread waits with its flag down, a pass would be of use only to groups
      behind an empty one that the last pass dropped. */
  lemma {:induction false} NoLostWakeup(w: Node)
    requires Reached(w) && w.s.phase.Waiting? && !w.wake
    ensures Inv(w.s) && (Useful(w.s) <==> w.dropped && w.s.dispatch != [] && w.s.credit > 0)
  {
    ReachedInv(w);
    StillMeans(w.s, w.dropped);
  }

  /** So a resident group is never left alone: when no warp runs, none is being stopped and the core takes
      commands, ProcessThread is awake, but for the same exception. */
  lemma {:induction false} QuiescentIsAwake(w: Node)
    requires Reached(w) && w.s.phase.Waiting? && w.s.credit > 0 && Quiescent(w.s)
    ensures w.wake || (w.dropped && w.s.dispatch != [])
  {
    ReachedInv(w);
    QuiescentMoves(w.s);
    if !w.wake {
      StillMeans(w.s, w.dropped);
    }
  }

  lemma {:induction false} SomeResident(s: State)
    requires Sized(s) && OrderOk(s)
    ensures s.count == 0 || exists k | 0 <= k < |s.slots| :: s.slots[k].busy
  {
    if s.order != [] {
      assert s.slots[s.order[0]].busy;
    }
  }

  /** A group that waits with none resident, and a core that takes commands, has ProcessThread awake, unless
      it is behind a group that was dropped. */
  lemma {:induction false} WaitingGroupWakes(w: Node)
    requires Reached(w) && w.s.phase.Waiting? && w.s.dispatch != [] && w.s.credit > 0 && |w.s.core| > 0 && w.s.limit > 0
    requires forall k | 0 <= k < |w.s.slots| :: !w.s.slots[k].busy
    ensures w.wake || w.dropped
  {
    ReachedInv(w);
    var s := w.s;
    if !w.wake {
      assert WarpOk(s, 0);
      assert 0 in FreeWarps(s) && 0 in Vacancies(s);
      SomeResident(s);
    }
  }

  // ---- The exception is real ------------------------------------------------------------------------

  const IDLE_CORE := [Warp(Idle, false, 0, 0, 0, 0)]

  /** One warp, one slot and room for two groups; `groups` wait. */
  function Fresh(groups: seq<Group>): State {
    State(1, 1, 2, [VACANT], [-1], [false], [], 0, groups, [], IDLE_CORE, 1, Waiting, groups, [], [], [], {}, map[])
  }

  lemma {:induction false} FreshPass(groups: seq<Group>)
    ensures Sized(Fresh(groups)) && BeginPass(Fresh(groups)) == Fresh(groups).(phase := Retiring([]))
  {
    var s := Fresh(groups);
    assert Sightings(s, 1) == map[];
    BeginQuiet(s);
  }

  lemma {:induction false} FreshEnd(g: Group, rest: seq<Group>)
    requires g.groupSize == 0
    ensures var s := Fresh([g] + rest).(phase := Retiring([]));
            Sized(s) && OrderInRange(s) && EndPass(s) == Fresh([g] + rest).(dispatch := rest, arrivals := [g])
  {
    var s := Fresh([g] + rest).(phase := Retiring([]));
    assert !AnyAtBarrier(s);
    assert HandleBarriers(s) == s && DispatchRemaining(s) == s;
    assert 0 in FreeWarps(s) && 0 in Vacancies(s);
    NewMask(s, Lowest(FreeWarps(s), 0, 1, WarpCount(s, g)));
    assert ([g] + rest)[1..] == rest;
  }

  lemma {:induction false} FreshEnqueue(groups: seq<Group>, g: Group, wake: bool)
    requires |groups| < 2 && g.groupSize <= 1 && Reached(Node(Fresh(groups), wake, false))
    ensures Reached(Node(Fresh(groups + [g]), true, false))
  {
    var w, w' := Node(Fresh(groups), wake, false), Node(Fresh(groups + [g]), true, false);
    assert Enqueue(w.s, w'.s);
    Runs.NextIsReached(Start, Next, w, w');
  }

  /** A pass over waiting groups of which the first is empty drops it and ends with the flag down. */
  lemma {:induction false} FreshDrops(g: Group, rest: seq<Group>)
    requires g.groupSize == 0 && Reached(Node(Fresh([g] + rest), true, false))
    ensures Reached(Node(Fresh([g] + rest).(dispatch := rest, arrivals := [g]), false, true))
  {
    var w := Node(Fresh([g] + rest), true, false);
    FreshPass([g] + rest);
    var w1 := w.(s := BeginPass(w.s), wake := false);
    assert Next(w, w1);
    Runs.NextIsReached(Start, Next, w, w1);
    FreshEnd(g, rest);
    var w2 := Node(EndPass(w1.s), false, true);
    assert Next(w1, w2);
    Runs.NextIsReached(Start, Next, w1, w2);
  }

  /** A group behind an empty one can wait with no work-group resident, the core willing and the flag down. */
  lemma {:induction false} DroppedGroupStalls() returns (w: Node)
    ensures Reached(w) && w.s.phase.Waiting? && !w.wake && w.s.dispatch != [] && w.s.credit > 0
    ensures forall k | 0 <= k < |w.s.slots| :: !w.s.slots[k].busy
  {
    var g, h := Group(0, 0, 0), Group(0, 0, 1);
    assert Start(Node(Fresh([]), false, false));
    Runs.InitialIsReached(Start, Next, Node(Fresh([]), false, false));
    FreshEnqueue([], g, false);
    assert [] + [g] == [g];
    FreshEnqueue([g], h, true);
    FreshDrops(g, [h]);
    w := Node(Fresh([g] + [h]).(dispatch := [h], arrivals := [g]), false, true);
  }
}
