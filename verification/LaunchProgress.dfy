/** A launch never gets stuck and always ends: every step brings it nearer to its result, and until the
    result is published some step can be taken. */
module LaunchProgress {
  import A = Arithmetic
  import opened Launch
  import opened LaunchIds
  import opened LaunchTheorems
  import LmemTable
  import LmemTheorems
  import opened Options
  import Runs

  // ---- How far a launch has come ----------------------------------------------------------------

  /** The place in the loop of the dispatch task; it counts a work-group once it is enqueued. */
  function DispatchPlace(pc: DispatchPc): int {
    match pc
    case LAlloc => 0
    case LFill(_) => 1
    case LPlace(_) => 2
    case LStore(_, _, _) => 3
    case LEnqueue(_, _) => 4
    case LUpdate => -1
    case LDone => 0
  }

  function RetirePlace(pc: RetirePc, published: bool): int {
    match pc
    case RIdle => if published then 2 else 0
    case RLook(_) => 1
    case RTaken(_, _) => 2
    case RLmem(_, _) => 3
    case RCount(_) => 4
    case RPublish => 0
    case RFree => 1
    case RIgnored => 0
  }

  function Done(flight: map<nat, Flight>): set<nat> {
    set w | w in flight && flight[w].Finished?
  }

  /** Steps of the dispatch task, work-groups that have finished, and steps of the retire task. */
  function Progress(s: State): int {
    6 * |s.enqueued| + DispatchPlace(s.dispatch)
    + |Done(s.flight)| + InHand(s.retire) + |s.retired|
    + 5 * |s.retired| + RetirePlace(s.retire, s.published != [])
  }

  lemma {:induction false} DispatchAdvances(s: State, s': State)
    requires SlotsOk(s) && DispatchStep(s, s') && s' != s
    ensures Progress(s') == Progress(s) + 1
  {
    if s.dispatch.LEnqueue? {
      assert SlotOk(s, s.dispatch.w);
      assert Done(s'.flight) == Done(s.flight);
    } else {
      DispatchKeeps(s, s');
    }
  }

  lemma {:induction false} DispatchKeeps(s: State, s': State)
    requires DispatchStep(s, s') && !s.dispatch.LEnqueue?
    ensures (s'.enqueued, s'.flight, s'.retire) == (s.enqueued, s.flight, s.retire)
    ensures (s'.retired, s'.published) == (s.retired, s.published)
    ensures s' == s || DispatchPlace(s'.dispatch) == DispatchPlace(s.dispatch) + 1
  {
  }

  /** The retire task has counted no work-group of a launch that is over. */
  predicate InTime(s: State) {
    && (s.retire.RIdle? && s.flight != map[] ==> s.published == [])
    && (s.retire.RCount? ==> s.published == [])
    && (s.retire.RFree? ==> s.published != [])
  }

  lemma {:induction false} RetiresInTime(s: State)
    requires CountsOk(s) && PublishOk(s)
    ensures InTime(s)
  {
    if s.flight != map[] {
      assert |s.flight| > 0;
    }
  }

  lemma {:induction false} RetireMovesOn(s: State, s': State)
    requires InTime(s) && RetireStep(s, s') && !s'.retire.RIgnored? && !s.retire.RLook?
    ensures (s'.enqueued, s'.flight, s'.dispatch) == (s.enqueued, s.flight, s.dispatch)
    ensures 6 * |s'.retired| + InHand(s'.retire) + RetirePlace(s'.retire, s'.published != [])
            == 6 * |s.retired| + InHand(s.retire) + RetirePlace(s.retire, s.published != []) + 1
  {
    match s.retire
    case RIdle => assert s.flight != map[];
    case RCount(_) =>
    case _ =>
  }

  lemma {:induction false} RetireAdvances(s: State, s': State)
    requires Inv(s) && RetireStep(s, s')
    ensures Progress(s') == Progress(s) + 1
  {
    assert !s'.retire.RIgnored? by {
      RetireSlots(s, s');
    }
    if s.retire.RLook? {
      assert Done(s'.flight) == Done(s.flight) - {s.retire.w};
    } else {
      RetiresInTime(s);
      RetireMovesOn(s, s');
    }
  }

  lemma {:induction false} SmAdvances(s: State, s': State)
    requires SmStep(s, s')
    ensures Progress(s') == Progress(s) + 1
  {
    var w: nat, c: Completion :| w in s.flight && s.flight[w].Running?
                                 && s' == s.(flight := s.flight[w := Finished(s.flight[w].sm, c)]);
    assert Done(s'.flight) == Done(s.flight) + {w};
  }

  lemma {:induction false} StepAdvances(s: State, s': State)
    requires Inv(s) && Next(s, s') && s' != s
    ensures Progress(s') == Progress(s) + 1
  {
    if DispatchStep(s, s') {
      DispatchAdvances(s, s');
    } else if RetireStep(s, s') {
      RetireAdvances(s, s');
    } else {
      SmAdvances(s, s');
    }
  }

  lemma {:induction false} ProgressIsBounded(s: State)
    requires Inv(s)
    ensures Progress(s) <= 12 * s.grid.Total() + 2
  {
    assert |Done(s.flight)| <= |s.flight| by {
      A.SubsetCard(Done(s.flight), s.flight.Keys);
      KeysCount(s.flight);
    }
    if s.grid.Holds(s.cursor) {
      RankBound(s.grid, s.cursor);
    }
  }

  // ---- It ends ------------------------------------------------------------------------------------

  lemma {:induction false} ProgressAt(run: seq<State>, n: nat)
    requires Runs.IsRun(Init, Next, run) && n < |run|
    requires forall i | 0 <= i < n :: run[i] != run[i + 1]
    ensures Progress(run[n]) == n && run[n].grid == run[0].grid
  {
    if n == 0 {
      BeginsAtZero(run[0]);
    } else {
      ProgressAt(run, n - 1);
      assert run[n - 1] != run[n - 1 + 1];
      Runs.StepIsTaken(Init, Next, run, n - 1);
      OneFurther(run[n - 1], run[n]);
    }
  }

  lemma {:induction false} BeginsAtZero(s: State)
    requires Init(s)
    ensures Progress(s) == 0
  {
    assert Done(s.flight) == {};
  }

  lemma {:induction false} OneFurther(s: State, s': State)
    requires Reachable(s) && Next(s, s') && s' != s
    ensures Progress(s') == Progress(s) + 1 && s'.grid == s.grid
  {
    ReachableInv(s);
    StepAdvances(s, s');
    GridStays(s, s');
  }

  lemma {:induction false} GridStays(s: State, s': State)
    requires Next(s, s')
    ensures s'.grid == s.grid
  {
  }

  /** No run of a launch goes on for ever: but for attempts to place a work-group while local memory is
      short, it takes at most twelve steps for each work-group, and two. */
  lemma {:induction false} LaunchEnds(run: seq<State>)
    requires Runs.IsRun(Init, Next, run) && forall i | 0 <= i < |run| - 1 :: run[i] != run[i + 1]
    ensures |run| - 1 <= 12 * run[0].grid.Total() + 2
  {
    var n := |run| - 1;
    ProgressAt(run, n);
    Runs.PrefixIsReached(Init, Next, run, n);
    ReachableInv(run[n]);
    ProgressIsBounded(run[n]);
  }

  // ---- It does not get stuck ------------------------------------------------------------------------

  ghost predicate CanMove(s: State) {
    exists s' :: Next(s, s') && s' != s
  }

  lemma {:induction false} Moves(s: State, s': State)
    requires Next(s, s') && s' != s
    ensures CanMove(s)
  {
  }

  /** The retire task goes on unless it waits for a work-group to finish. */
  lemma {:induction false} RetireCanMove(s: State)
    requires SlotsOk(s) && !s.retire.RIdle?
    ensures CanMove(s)
  {
    match s.retire
    case RLook(w) => Moves(s, s.(flight := s.flight - {w}, retire := RTaken(w, s.flight[w].completion)));
    case RTaken(w, c) => Moves(s, FreeLmem(s, w, c));
    case RLmem(w, c) =>
      Moves(s, s.(slots := s.slots[w := s.slots[w].(inUse := false)], retire := RCount(c)));
    case RCount(c) =>
      if s.wgLeft == 0 {
        Moves(s, s.(retire := RIgnored));
      } else {
        Moves(s, s.(wgLeft := s.wgLeft - 1, outcome := Fold(s.outcome, c), retired := s.retired + [c],
                    retire := if s.wgLeft == 1 then RPublish else RIdle));
      }
    case RPublish => Moves(s, s.(published := s.published + [s.outcome], retire := RFree));
    case RFree => Moves(s, s.(active := false, retire := RIdle));
  }

  /** A work-group that an SM has finishes, or is retired. */
  lemma {:induction false} FlightCanMove(s: State, w: nat)
    requires SlotsOk(s) && s.retire.RIdle? && w in s.flight
    ensures CanMove(s)
  {
    if s.flight[w].Running? {
      var s' := s.(flight := s.flight[w := Finished(s.flight[w].sm, Completion(0, 0, 0, 0))]);
      assert s'.flight[w] != s.flight[w];
      Moves(s, s');
    } else {
      Moves(s, s.(retire := if Ignored(s, w) then RIgnored else RLook(w)));
    }
  }

  /** Some SM could hold the local memory of one work-group. */
  ghost predicate Roomy(s: State) {
    |s.lmem| > 0
    && (s.localSize > 0 ==> exists sm: nat | sm < |s.lmem| :: HasRoom(s.lmem[sm], s.localSize))
  }

  predicate HasRoom(t: LmemTable.Table, size: nat) {
    t.limit > 0 && LmemTable.AlignUp(size) <= t.window.size
  }

  lemma {:induction false} EmptyTableServes(t: LmemTable.Table, size: nat)
    requires Empty(t) && HasRoom(t, size) && 0 < size < 0x1_0000
    ensures LmemTable.Alloc(t, size).1.Some?
  {
    assert LmemTable.ValidSlots(t.active) == {};
    LmemTable.AlignUpCovers(size);
    assert forall x: int :: !LmemTable.LiveAt(t.active, x);
    assert LmemTheorems.Fits(t, t.window.base, LmemTable.AlignUp(size));
    LmemTheorems.AllocIsLeastFit(t, size);
  }

  lemma {:induction false} PlaceCanMove(s: State)
    requires Inv(s) && Roomy(s) && s.dispatch.LPlace? && s.retire.RIdle? && s.flight == map[]
    ensures CanMove(s)
  {
    var w := s.dispatch.w;
    if s.localSize == 0 {
      Moves(s, PlaceOn(s, w, 0));
    } else {
      var sm: nat :| sm < |s.lmem| && HasRoom(s.lmem[sm], s.localSize);
      assert forall v: nat, b: nat :: !OwnsBlock(s, v, sm, b);
      UnownedIsEmpty(s, sm);
      EmptyTableServes(s.lmem[sm], s.localSize);
      Moves(s, PlaceOn(s, w, sm));
    }
  }

  lemma {:induction false} DispatchCanMove(s: State)
    requires Inv(s) && Roomy(s) && |s.slots| > 0 && s.retire.RIdle? && s.flight == map[] && !s.dispatch.LDone?
    ensures CanMove(s)
  {
    match s.dispatch
    case LAlloc =>
      assert SlotOk(s, 0);
      Moves(s, s.(slots := s.slots[0 := s.slots[0].(inUse := true)], dispatch := LFill(0)));
    case LFill(w) =>
      Moves(s, s.(slots := s.slots[w := s.slots[w].(kid := s.kid, id := s.cursor)], dispatch := LPlace(w)));
    case LPlace(_) => PlaceCanMove(s);
    case LStore(w, sm, base) =>
      Moves(s, s.(slots := s.slots[w := s.slots[w].(smid := sm, base := base)], dispatch := LEnqueue(w, sm)));
    case LEnqueue(w, sm) =>
      Moves(s, s.(flight := s.flight[w := Running(sm)], enqueued := s.enqueued + [s.slots[w].id], dispatch := LUpdate));
    case LUpdate =>
      var (next, more) := UpdateId(s.grid, s.cursor);
      Moves(s, s.(cursor := next, dispatch := if more then LAlloc else LDone));
  }

  /** Until its result is published a launch can go on, given a WGI slot and an SM whose local memory holds
      one work-group. */
  lemma {:induction false} NeverStuck(s: State)
    requires Reachable(s) && s.published == [] && |s.slots| > 0 && Roomy(s)
    ensures CanMove(s)
  {
    ReachableInv(s);
    if !s.retire.RIdle? {
      RetireCanMove(s);
    } else if s.flight.Keys != {} {
      var w :| w in s.flight.Keys;
      FlightCanMove(s, w);
    } else {
      assert s.flight == map[];
      assert !s.dispatch.LDone?;
      DispatchCanMove(s);
    }
  }
}
