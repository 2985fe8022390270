/** Which kind of command each task of the firmware works on, and what its steps look like from outside. */
module FwKinds {
  import opened FwInvariant
  import opened FwTasks
  import opened FwTheorems
  import opened Options
  import Runs
  import Tokens

  predicate KindAt(packets: seq<Packet>, n: nat, kind: Kind -> bool) {
    n < |packets| && kind(packets[n].kind)
  }

  predicate IsCacheOp(kind: Kind) { kind.CacheOp? }

  predicate IsCopy(kind: Kind) { kind.MemoryCopy? }

  predicate IsBarrier(kind: Kind) { kind.Barrier? }

  /** The dispatch task handles a packet as its kind says, and publishes by itself only failures and the
      success of a barrier. */
  predicate HandlesKind(pc: DispatchPc, packets: seq<Packet>) {
    match pc
    case DOp(n, launch, _) => launch || KindAt(packets, n, IsCacheOp)
    case DBarrier(n) => KindAt(packets, n, IsBarrier)
    case DBarrierKernel(n, _) => KindAt(packets, n, IsBarrier)
    case DBarrierCopy(n) => KindAt(packets, n, IsBarrier)
    case DBarrierDone(n) => KindAt(packets, n, IsBarrier)
    case DPublish(_, result) => result == FAILURE
    case _ => true
  }

  /** What is pending on the cache retirer or the copy task is theirs. */
  predicate OwedKind(slots: seq<Slot>, packets: seq<Packet>, n: nat) {
    n < |slots| ==>
      && (slots[n] == Pending(ByCache) ==> KindAt(packets, n, IsCacheOp))
      && (slots[n] == Pending(ByCopy) ==> KindAt(packets, n, IsCopy))
  }

  ghost predicate KindsOk(s: State) {
    HandlesKind(s.dispatch, s.packets) && forall n: nat :: OwedKind(s.slots, s.packets, n)
  }

  lemma {:induction false} KindsFrame(s: State, s': State)
    requires KindsOk(s) && s.packets <= s'.packets && s'.dispatch == s.dispatch
    requires forall n | 0 <= n < |s'.slots| && s'.slots[n].Pending? :: n < |s.slots| && s.slots[n] == s'.slots[n]
    ensures KindsOk(s')
  {
    forall n: nat ensures OwedKind(s'.slots, s'.packets, n) {
      assert OwedKind(s.slots, s.packets, n);
    }
  }

  lemma {:induction false} GotoKinds(s: State)
    requires KindsOk(s)
    ensures KindsOk(s.(dispatch := Goto(s)))
  {
  }

  lemma {:induction false} TakeKinds(s: State)
    requires KindsOk(s) && |s.slots| < |s.packets|
    ensures KindsOk(Take(s))
  {
    var s' := Take(s);
    forall n: nat ensures OwedKind(s'.slots, s'.packets, n) {
      assert OwedKind(s.slots, s.packets, n);
    }
  }

  lemma {:induction false} OpKinds(s: State)
    requires KindsOk(s) && s.dispatch.DOp?
    ensures KindsOk(DispatchOp(s))
  {
    var s' := DispatchOp(s);
    forall n: nat ensures OwedKind(s'.slots, s'.packets, n) {
      assert OwedKind(s.slots, s.packets, n);
    }
  }

  lemma {:induction false} LaunchKinds(s: State, s': State)
    requires KindsOk(s) && LaunchStep(s, s')
    ensures KindsOk(s')
  {
    forall n: nat ensures OwedKind(s'.slots, s'.packets, n) {
      assert OwedKind(s.slots, s.packets, n);
    }
  }

  lemma {:induction false} SubmitKinds(s: State, s': State)
    requires KindsOk(s) && BarrierOk(s) && SubmitStep(s, s')
    ensures KindsOk(s')
  {
    forall n: nat ensures OwedKind(s'.slots, s'.packets, n) {
      assert OwedKind(s.slots, s.packets, n);
    }
  }

  lemma {:induction false} PublishKinds(s: State, n: nat, result: nat)
    requires KindsOk(s)
    ensures KindsOk(s.(slots := Set(s.slots, n, Terminal(result)), dispatch := DTop))
  {
    KindsFrame(s, s.(slots := Set(s.slots, n, Terminal(result))));
  }

  lemma {:induction false} DispatchKinds(s: State, s': State)
    requires BarrierOk(s) && KindsOk(s) && DispatchStep(s, s')
    ensures KindsOk(s')
  {
    if s' == s.(dispatch := Goto(s)) {
      GotoKinds(s);
    } else if s.dispatch.DTake? && !s.reboot {
      TakeKinds(s);
    } else if s.dispatch.DOp? {
      OpKinds(s);
    } else if LaunchStep(s, s') {
      LaunchKinds(s, s');
    } else if SubmitStep(s, s') {
      SubmitKinds(s, s');
    } else if s.dispatch.DBarrierDone? {
      PublishKinds(s, s.dispatch.n, Tokens.SUCCESS);
    } else if s.dispatch.DPublish? {
      PublishKinds(s, s.dispatch.n, s.dispatch.result);
    }
  }

  lemma {:induction false} RetireKinds(s: State, s': State)
    requires KindsOk(s) && RetireStep(s, s')
    ensures KindsOk(s')
  {
    KindsFrame(s, s');
  }

  lemma {:induction false} CacheRetireKinds(s: State)
    requires KindsOk(s)
    ensures KindsOk(CacheRetire(s))
  {
    KindsFrame(s, CacheRetire(s));
  }

  lemma {:induction false} CopyKinds(s: State, s': State)
    requires KindsOk(s) && CopyStep(s, s')
    ensures KindsOk(s')
  {
    KindsFrame(s, s');
  }

  /** No other task makes a slot pending or moves the dispatch task. */
  lemma {:induction false} OthersKinds(s: State, s': State)
    requires |s.cache.done| == |s.cache.run| && KindsOk(s)
    requires EnvStep(s, s') || RetireStep(s, s') || s' == CacheRetire(s) || CopyStep(s, s')
    ensures KindsOk(s')
  {
    if EnvStep(s, s') {
      KindsFrame(s, s');
    } else if RetireStep(s, s') {
      RetireKinds(s, s');
    } else if s' == CacheRetire(s) {
      CacheRetireKinds(s);
    } else {
      CopyKinds(s, s');
    }
  }

  ghost predicate Both(s: State) {
    Inv(s) && KindsOk(s)
  }

  lemma {:induction false} ReachableKinds(s: State)
    requires Reachable(s)
    ensures Inv(s) && KindsOk(s)
  {
    forall s | Init(s) ensures Both(s) {
      InitInv(s);
    }
    forall s, s' | Both(s) && Step(s, s') ensures Both(s') {
      StepInv(s, s');
      if !EnvStep(s, s') && DispatchStep(s, s') {
        DispatchKinds(s, s');
      } else {
        OthersKinds(s, s');
      }
    }
    Runs.HoldsWhenReached(Init, Step, Both, s);
  }

  // ---- Seen from outside ----------------------------------------------------------------------------

  lemma {:induction false} NextReached(s: State, s': State)
    requires Reachable(s) && Step(s, s')
    ensures Reachable(s')
  {
    Runs.NextIsReached(Init, Step, s, s');
  }

  lemma {:induction false} AppendReached(s: State, p: Packet)
    requires Reachable(s)
    ensures Reachable(s.(packets := s.packets + [p]))
  {
    ReachableInv(s);
    var s' := s.(packets := s.packets + [p]);
    assert EnvStep(s, s');
    NextReached(s, s');
  }

  lemma {:induction false} TakeReached(s: State)
    requires Reachable(s) && s.dispatch.DTake? && !s.reboot && |s.slots| < |s.packets|
    requires |s.cache.done| == |s.cache.run|
    ensures Reachable(Take(s)) && |Take(s).slots| == |s.slots| + 1
    ensures Take(s).packets == s.packets && Take(s).retire == s.retire
  {
    assert DispatchStep(s, Take(s));
    NextReached(s, Take(s));
  }

  lemma {:induction false} RestartReached(s: State)
    requires Init(s)
    ensures Reachable(s) && s.packets == [] && s.slots == [] && s.retire.RIdle?
  {
    Runs.InitialIsReached(Init, Step, s);
  }

  lemma {:induction false} EnqueueAlone(s: State)
    requires KernelsOk(s) && s.dispatch.DEnqueue?
    ensures !s.retire.RPublish?
  {
    assert KernelOk(s, s.dispatch.kid);
    forall i: nat | i < |s.kernels| && s.kernels[i].launched ensures s.kernels[i].inUse {
      assert KernelOk(s, i);
    }
  }

  /** A kernel is not enqueued while one is being retired. */
  lemma {:induction false} OneOrTheOther(s: State)
    requires Reachable(s) && s.dispatch.DEnqueue?
    ensures !s.retire.RPublish?
  {
    ReachableInv(s);
    EnqueueAlone(s);
  }

  lemma {:induction false} StaysRetired(s: State, s': State)
    requires Step(s, s') && s.dispatch.DEnqueue? && s'.dispatch != s.dispatch
    ensures s'.retire == s.retire
  {
    if EnvStep(s, s') || RetireStep(s, s') || s' == CacheRetire(s) || CopyStep(s, s') {
      OthersKeepDispatch(s, s');
    }
  }

  lemma {:induction false} OthersKeepDispatch(s: State, s': State)
    requires |s.cache.done| == |s.cache.run|
    requires EnvStep(s, s') || RetireStep(s, s') || s' == CacheRetire(s) || CopyStep(s, s')
    ensures s'.dispatch == s.dispatch
  {
  }

  lemma {:induction false} CacheOwed(s: State)
    requires CacheOk(s) && Ledger(s) && s.cacheRetire.CPublish? && s.cache.token.Some?
    ensures s.cache.token.value < |s.slots| && s.slots[s.cache.token.value] == Pending(ByCache)
  {
    assert Owes(s, ByCache, s.cache.token.value);
  }

  lemma {:induction false} CopyOwed(s: State)
    requires Apart(s) && DmaOk(s) && Ledger(s) && s.copyTask.MPublish?
    ensures s.copy.token < |s.slots| && s.slots[s.copy.token] == Pending(ByCopy)
  {
    assert Owes(s, ByCopy, s.copy.token);
  }

  /** What a publishing step leaves of the firmware's state. */
  predicate OnlyStores(s: State, s': State) {
    && |s'.slots| == |s.slots| && s'.packets == s.packets && (s'.retire == s.retire || !s'.retire.RPublish?)
  }

  lemma {:induction false} CacheRetireStores(s: State)
    ensures OnlyStores(s, CacheRetire(s))
  {
  }

  lemma {:induction false} CopyStoreStores(s: State)
    ensures OnlyStores(s, CopyStore(s))
  {
  }

  /** A cache command is what the cache retirer publishes, and a copy what the copy task does. */
  lemma {:induction false} CacheKind(s: State)
    requires Reachable(s) && s.cacheRetire.CPublish? && s.cache.token.Some?
    ensures KindAt(s.packets, s.cache.token.value, IsCacheOp)
  {
    ReachableKinds(s);
    CacheOwed(s);
    assert OwedKind(s.slots, s.packets, s.cache.token.value);
  }

  lemma {:induction false} CopyKind(s: State)
    requires Reachable(s) && s.copyTask.MPublish?
    ensures KindAt(s.packets, s.copy.token, IsCopy)
  {
    ReachableKinds(s);
    CopyOwed(s);
    assert OwedKind(s.slots, s.packets, s.copy.token);
  }

  lemma {:induction false} DispatchKind(s: State)
    requires Reachable(s)
    ensures HandlesKind(s.dispatch, s.packets)
  {
    ReachableKinds(s);
  }
}
