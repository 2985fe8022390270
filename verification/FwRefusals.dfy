/** What the command processor may fail a command for. */
module FwRefusals {
  import opened FwInvariant
  import FwMaintenance
  import opened FwTasks
  import opened FwTheorems
  import opened Options
  import Runs
  import Tokens

  /** An unknown packet, one that fails its handler's checks, or a copy after an engine or cache hung. */
  predicate Refusable(p: Packet, faulted: bool) {
    p.valid && (p.kind.Unknown? || (!p.sound && !p.kind.Barrier?) || (p.kind.MemoryCopy? && faulted))
  }

  predicate DispatchRefuses(s: State) {
    match s.dispatch
    case DPublish(n, result) => result == FAILURE && n < |s.packets| && Refusable(s.packets[n], s.faulted)
    case DSubmit(n) => n < |s.packets| && s.packets[n].valid && s.packets[n].kind.MemoryCopy?
    case _ => true
  }

  predicate Failed(e: Engine) {
    e.BusError? || e.InvalidDescriptor?
  }

  /** The copy task fails a copy that timed out, which it remembers, or whose engine reported an error. */
  predicate CopyRefuses(s: State) {
    s.copyTask.MPublish? ==>
      if s.copyTask.result == Tokens.SUCCESS then !s.copyTask.fail
      else
        && s.copyTask.result == FAILURE
        && if s.copyTask.fail then s.faulted else s.copy.phase.WaitDma? && Failed(UsedEngine(s))
  }

  ghost predicate RefusalsOk(s: State) {
    DispatchRefuses(s) && CopyRefuses(s)
  }

  // ---- Steps ----------------------------------------------------------------------------------------

  lemma {:induction false} RefusalsFrame(s: State, s': State)
    requires RefusalsOk(s) && s.packets <= s'.packets && (s.faulted ==> s'.faulted)
    requires (s'.dispatch, s'.copyTask, s'.copy) == (s.dispatch, s.copyTask, s.copy)
    requires s'.dma == s.dma || EngineFinishes(s, s')
    ensures RefusalsOk(s')
  {
  }

  lemma {:induction false} GotoRefuses(s: State)
    requires Apart(s) && RefusalsOk(s)
    ensures RefusalsOk(s.(dispatch := Goto(s)))
  {
  }

  lemma {:induction false} TakeRefuses(s: State)
    requires RefusalsOk(s) && |s.slots| < |s.packets|
    ensures RefusalsOk(Take(s))
  {
  }

  lemma {:induction false} OpRefuses(s: State)
    requires RefusalsOk(s) && s.dispatch.DOp?
    ensures RefusalsOk(DispatchOp(s))
  {
  }

  lemma {:induction false} LaunchRefuses(s: State, s': State)
    requires RefusalsOk(s) && LaunchStep(s, s')
    ensures RefusalsOk(s')
  {
  }

  lemma {:induction false} SubmitRefuses(s: State, s': State)
    requires Apart(s) && RefusalsOk(s) && SubmitStep(s, s')
    ensures RefusalsOk(s')
  {
  }

  lemma {:induction false} DispatchRefusesStep(s: State, s': State)
    requires Apart(s) && RefusalsOk(s) && DispatchStep(s, s')
    ensures RefusalsOk(s')
  {
    if s' == s.(dispatch := Goto(s)) {
      GotoRefuses(s);
    } else if s.dispatch.DTake? && !s.reboot {
      TakeRefuses(s);
    } else if s.dispatch.DOp? {
      OpRefuses(s);
    } else if LaunchStep(s, s') {
      LaunchRefuses(s, s');
    } else if SubmitStep(s, s') {
      SubmitRefuses(s, s');
    }
  }

  lemma {:induction false} SwitchRefuses(s: State)
    requires RefusalsOk(s)
    ensures RefusalsOk(s.(copyTask := CopyGoto(s)))
  {
    match s.copyTask
    case MSwitch =>
    case MBegin =>
    case _ =>
  }

  lemma {:induction false} CopyRefusesStep(s: State, s': State)
    requires RefusalsOk(s) && CopyStep(s, s')
    ensures RefusalsOk(s')
  {
    if s' == s.(copyTask := CopyGoto(s)) {
      SwitchRefuses(s);
    } else if s.copyTask.MOp? && s' == CopyOp(s) {
      assert !s'.copyTask.MPublish?;
    }
  }

  lemma {:induction false} OthersRefuse(s: State, s': State)
    requires |s.cache.done| == |s.cache.run| && RefusalsOk(s)
    requires EnvStep(s, s') || RetireStep(s, s') || s' == CacheRetire(s)
    ensures RefusalsOk(s')
  {
    if EnvStep(s, s') {
      assert s.packets <= s'.packets;
      RefusalsFrame(s, s');
    } else if RetireStep(s, s') {
      RefusalsFrame(s, s');
    } else {
      FwMaintenance.CacheRetireTouches(s);
      RefusalsFrame(s, s');
    }
  }

  ghost predicate Both(s: State) {
    Inv(s) && RefusalsOk(s)
  }

  lemma {:induction false} ReachableRefusals(s: State)
    requires Reachable(s)
    ensures RefusalsOk(s)
  {
    forall s | Init(s) ensures Both(s) {
      InitInv(s);
    }
    forall s, s' | Both(s) && Step(s, s') ensures Both(s') {
      StepInv(s, s');
      if EnvStep(s, s') || RetireStep(s, s') || s' == CacheRetire(s) {
        OthersRefuse(s, s');
      } else if DispatchStep(s, s') {
        DispatchRefusesStep(s, s');
      } else {
        CopyRefusesStep(s, s');
      }
    }
    Runs.HoldsWhenReached(Init, Step, Both, s);
  }

  // ---- What a command is failed for -------------------------------------------------------------------

  /** The dispatch task fails a command only for what its packet says, or a copy after a fault. */
  lemma {:induction false} RefusedForCause(s: State)
    requires Reachable(s) && s.dispatch.DPublish?
    ensures s.dispatch.result == FAILURE && s.dispatch.n < |s.packets|
    ensures Refusable(s.packets[s.dispatch.n], s.faulted)
  {
    ReachableRefusals(s);
  }

  /** The copy task fails a copy only after a timeout, which is remembered as a fault, or when the engine
      that moved its data reports an error. */
  lemma {:induction false} CopyFailsForCause(s: State)
    requires Reachable(s) && s.copyTask.MPublish? && s.copyTask.result != Tokens.SUCCESS
    ensures s.copyTask.result == FAILURE
    ensures s.copyTask.fail ==> s.faulted
    ensures !s.copyTask.fail ==> s.copy.phase.WaitDma? && Failed(UsedEngine(s))
  {
    ReachableRefusals(s);
  }

  // ---- Who gets an answer -------------------------------------------------------------------------------

  /** A command has a slot exactly when its token was valid. */
  predicate SlotGiven(s: State, n: nat) {
    n < |s.slots| ==> n < |s.packets| && (s.slots[n].NoSlot? <==> !s.packets[n].valid)
  }

  ghost predicate SlotsGiven(s: State) {
    Inv(s) && forall n: nat :: SlotGiven(s, n)
  }

  /** A step that takes no packet adds no slot and withdraws none. */
  predicate KeepsSlots(s: State, s': State) {
    |s'.slots| == |s.slots| && forall n | 0 <= n < |s.slots| && s'.slots[n] != s.slots[n] :: !s'.slots[n].NoSlot?
  }

  lemma {:induction false} DispatchKeepsSlots(s: State, s': State)
    requires DispatchStep(s, s') && !(s.dispatch.DTake? && !s.reboot)
    ensures s'.packets == s.packets && KeepsSlots(s, s')
  {
    if s' == s.(dispatch := Goto(s)) {
    } else if s.dispatch.DOp? {
      assert s' == DispatchOp(s);
    } else if LaunchStep(s, s') {
      LaunchKeepsSlots(s, s');
    } else if SubmitStep(s, s') {
      SubmitKeepsSlots(s, s');
    }
  }

  lemma {:induction false} LaunchKeepsSlots(s: State, s': State)
    requires LaunchStep(s, s')
    ensures s'.packets == s.packets && KeepsSlots(s, s')
  {
  }

  lemma {:induction false} SubmitKeepsSlots(s: State, s': State)
    requires SubmitStep(s, s')
    ensures s'.packets == s.packets && KeepsSlots(s, s')
  {
  }

  lemma {:induction false} CopyKeepsSlots(s: State, s': State)
    requires CopyStep(s, s')
    ensures s'.packets == s.packets && KeepsSlots(s, s')
  {
  }

  lemma {:induction false} OthersKeepSlots(s: State, s': State)
    requires |s.cache.done| == |s.cache.run|
    requires EnvStep(s, s') || RetireStep(s, s') || s' == CacheRetire(s)
    ensures s.packets <= s'.packets && KeepsSlots(s, s')
  {
    if EnvStep(s, s') {
      assert s'.slots == s.slots;
    } else if RetireStep(s, s') {
      assert s'.packets == s.packets;
    } else {
      assert s'.packets == s.packets && (s'.slots == s.slots || s.cacheRetire.CPublish?);
    }
  }

  lemma {:induction false} SlotsGivenStep(s: State, s': State)
    requires SlotsGiven(s) && Step(s, s')
    ensures SlotsGiven(s')
  {
    StepInv(s, s');
    if s.dispatch.DTake? && !s.reboot && DispatchStep(s, s') {
      assert s' == s.(dispatch := Goto(s)) || s' == Take(s);
      forall n: nat ensures SlotGiven(s', n) {
        assert SlotGiven(s, n);
      }
    } else {
      assert s.packets <= s'.packets && KeepsSlots(s, s') by {
        StepKeepsSlots(s, s');
      }
      var who := SomeTaskMoves(s, s');
      forall n: nat ensures SlotGiven(s', n) {
        assert SlotGiven(s, n);
        if n < |s.slots| && s'.slots[n] != s.slots[n] {
          assert Owes(s, who, n);
        }
      }
    }
  }

  lemma {:induction false} StepKeepsSlots(s: State, s': State)
    requires Step(s, s') && !(s.dispatch.DTake? && !s.reboot && DispatchStep(s, s'))
    ensures s.packets <= s'.packets && KeepsSlots(s, s')
  {
    if EnvStep(s, s') || RetireStep(s, s') || s' == CacheRetire(s) {
      OthersKeepSlots(s, s');
    } else if DispatchStep(s, s') {
      DispatchKeepsSlots(s, s');
    } else {
      CopyKeepsSlots(s, s');
    }
  }

  /** Every command taken with a valid token is pending on a task or has its result, and no other has a
      slot. */
  lemma {:induction false} ValidCommandsAreAnswered(s: State, n: nat)
    requires Reachable(s) && n < |s.slots|
    ensures n < |s.packets| && (s.slots[n].NoSlot? <==> !s.packets[n].valid)
  {
    forall s | Init(s) ensures SlotsGiven(s) {
      InitInv(s);
    }
    forall s, s' | SlotsGiven(s) && Step(s, s') ensures SlotsGiven(s') {
      SlotsGivenStep(s, s');
    }
    Runs.HoldsWhenReached(Init, Step, SlotsGiven, s);
    assert SlotGiven(s, n);
  }
}
