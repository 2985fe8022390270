/** Which cache operation is done for which command, and what a command is refused for. */
module FwClaims {
  import opened FwInvariant
  import FwMaintenance
  import opened FwSteps
  import opened FwTasks
  import opened FwTheorems
  import opened Options
  import Runs
  import Tokens

  // ---- The operation of a command -------------------------------------------------------------------

  /** A launch invalidates the D-caches; a cache packet covers the D-caches, and to invalidate the
      I-caches too. */
  predicate OpSuits(packets: seq<Packet>, n: nat, launch: bool, op: Op) {
    if launch then op.invalidates && op.dcache
    else n < |packets| && packets[n].kind == CacheOp(op.invalidates) && op.icache == op.invalidates && op.dcache
  }

  predicate PastClaim(op: Op) {
    op.stage.Start? || op.stage.Mark? || op.stage.Poll? || op.stage.Release?
  }

  /** The last claimed operation is the one for command `n`. */
  predicate ClaimedFor(s: State, n: nat) {
    n in s.claimed && s.claimed[n] == s.cache.number
  }

  /** The dispatch task has its launch's operation behind it, unless there is only one SM. */
  predicate Launching(s: State, n: nat) {
    |s.cache.run| > 2 ==>
      ClaimedFor(s, n) && s.cache.number > 0 && !s.cache.pending && s.cache.invalidates && s.cache.dcache
  }

  predicate DispatchClaims(s: State) {
    match s.dispatch
    case DOp(n, launch, op) =>
      OpSuits(s.packets, n, launch, op)
      && (PastClaim(op) ==> ClaimedFor(s, n) && s.cache.number > 0 && s.cache.invalidates == op.invalidates)
    case DAlloc(n) => Launching(s, n)
    case DInUse(n, _) => Launching(s, n)
    case DFields(n, _) => Launching(s, n)
    case DEnqueue(n, _) => Launching(s, n)
    case _ => true
  }

  /** The command that waits for the caches is a cache packet, and the operation is its own. */
  predicate TokenClaims(s: State) {
    var k := s.cache;
    k.token.Some? ==>
      && k.token.value < |s.packets| && s.packets[k.token.value].kind == CacheOp(k.icache) && k.dcache
      && (k.pending ==> ClaimedFor(s, k.token.value) && k.invalidates == k.icache)
  }

  ghost predicate ClaimsOk(s: State) {
    DispatchClaims(s) && TokenClaims(s)
  }

  // ---- Steps ----------------------------------------------------------------------------------------

  lemma {:induction false} ClaimsFrame(s: State, s': State)
    requires ClaimsOk(s) && s.packets <= s'.packets && (s'.dispatch, s'.claimed) == (s.dispatch, s.claimed)
    requires |s'.cache.run| == |s.cache.run| && s'.cache.number == s.cache.number
    requires s'.cache.invalidates == s.cache.invalidates
    requires (s'.cache.icache, s'.cache.dcache) == (s.cache.icache, s.cache.dcache)
    requires s'.cache.pending ==> s.cache.pending
    requires s'.cache.token == s.cache.token || s'.cache.token == None
    ensures ClaimsOk(s')
  {
  }

  lemma {:induction false} TakeClaims(s: State)
    requires ClaimsOk(s) && |s.slots| < |s.packets|
    ensures ClaimsOk(Take(s))
  {
  }

  /** Most accesses of an operation leave the record of it alone. */
  lemma {:induction false} StepOpRecords(k: Cache, op: Op)
    ensures var k' := StepOp(k, op).0;
            && |k'.run| == |k.run|
            && (op.stage.Fill? || op.stage.Claim? || op.stage.Release?
                || k' == k.(run := k'.run, started := k'.started))
  {
  }

  lemma {:induction false} StepOpGoesOn(k: Cache, op: Op)
    ensures var next := StepOp(k, op).1;
            && (next.None? <==> op.stage.Mark? || op.stage.Release?)
            && (next.Some? ==> next.value.(stage := op.stage) == op)
            && (next.Some? ==> (PastClaim(next.value) <==> PastClaim(op) || op.stage.Claim?))
  {
  }

  lemma {:induction false} OpDispatchClaims(s: State)
    requires DispatchClaims(s) && s.dispatch.DOp? && StageOk(s.cache, s.dispatch.op)
    requires s.dispatch.op.waits == s.dispatch.launch
    ensures DispatchClaims(DispatchOp(s))
  {
    StepOpRecords(s.cache, s.dispatch.op);
    StepOpGoesOn(s.cache, s.dispatch.op);
  }

  lemma {:induction false} OpTokenClaims(s: State)
    requires ClaimsOk(s) && s.dispatch.DOp? && StageOk(s.cache, s.dispatch.op)
    requires s.dispatch.op.token == (if s.dispatch.launch then None else Some(s.dispatch.n))
    ensures TokenClaims(DispatchOp(s))
  {
    StepOpRecords(s.cache, s.dispatch.op);
    StepOpGoesOn(s.cache, s.dispatch.op);
  }

  lemma {:induction false} OpClaims(s: State)
    requires CacheOk(s) && ClaimsOk(s) && s.dispatch.DOp?
    ensures ClaimsOk(DispatchOp(s))
  {
    assert StageOk(s.cache, s.dispatch.op);
    OpDispatchClaims(s);
    OpTokenClaims(s);
  }

  lemma {:induction false} CopyOpClaims(s: State)
    requires Apart(s) && CacheOk(s) && ClaimsOk(s) && s.copyTask.MOp?
    ensures ClaimsOk(CopyOp(s))
  {
    assert !SawNoCopy(s.dispatch);
    assert StageOk(s.cache, s.copyTask.op);
  }

  lemma {:induction false} DispatchClaimsStep(s: State, s': State)
    requires CacheOk(s) && ClaimsOk(s) && DispatchStep(s, s')
    ensures ClaimsOk(s')
  {
    if s.dispatch.DOp? {
      assert s' == s.(dispatch := Goto(s)) || s' == DispatchOp(s);
      OpClaims(s);
    } else if LaunchStep(s, s') {
      LaunchClaims(s, s');
    } else if SubmitStep(s, s') {
      SubmitClaims(s, s');
    } else if s' == s.(dispatch := Goto(s)) {
      GotoClaims(s);
    } else if s.dispatch.DTake? && !s.reboot {
      TakeClaims(s);
    }
  }

  lemma {:induction false} GotoClaims(s: State)
    requires ClaimsOk(s)
    ensures ClaimsOk(s.(dispatch := Goto(s)))
  {
  }

  lemma {:induction false} LaunchClaims(s: State, s': State)
    requires ClaimsOk(s) && LaunchStep(s, s')
    ensures ClaimsOk(s')
  {
  }

  lemma {:induction false} SubmitClaims(s: State, s': State)
    requires ClaimsOk(s) && SubmitStep(s, s')
    ensures ClaimsOk(s')
  {
  }

  lemma {:induction false} CopyKeepsClaims(s: State, s': State)
    requires CopyStep(s, s')
    ensures (s'.packets, s'.dispatch, s'.claimed) == (s.packets, s.dispatch, s.claimed)
    ensures s'.cache == s.cache || (s.copyTask.MOp? && s' == CopyOp(s))
  {
  }

  lemma {:induction false} CopyClaims(s: State, s': State)
    requires Apart(s) && CacheOk(s) && ClaimsOk(s) && CopyStep(s, s')
    ensures ClaimsOk(s')
  {
    CopyKeepsClaims(s, s');
    if s'.cache == s.cache {
      ClaimsFrame(s, s');
    } else {
      CopyOpClaims(s);
    }
  }

  lemma {:induction false} EnvClaims(s: State, s': State)
    requires |s.cache.done| == |s.cache.run| && ClaimsOk(s) && EnvStep(s, s')
    ensures ClaimsOk(s')
  {
    assert s.packets <= s'.packets && s'.claimed == s.claimed;
    FwMaintenance.EnvTouches(s, s');
    ClaimsFrame(s, s');
  }

  lemma {:induction false} RetireClaims(s: State, s': State)
    requires ClaimsOk(s) && RetireStep(s, s')
    ensures ClaimsOk(s')
  {
    assert (s'.packets, s'.dispatch, s'.claimed, s'.cache) == (s.packets, s.dispatch, s.claimed, s.cache);
    ClaimsFrame(s, s');
  }

  lemma {:induction false} CacheRetireClaims(s: State)
    requires ClaimsOk(s)
    ensures ClaimsOk(CacheRetire(s))
  {
    FwMaintenance.CacheRetireTouches(s);
    RetirerKeeps(s);
    ClaimsFrame(s, CacheRetire(s));
  }

  lemma {:induction false} RetirerKeeps(s: State)
    ensures var s' := CacheRetire(s);
            && (s'.packets, s'.claimed) == (s.packets, s.claimed)
            && (s'.cache.token == s.cache.token || s'.cache.token == None)
  {
  }

  lemma {:induction false} OthersClaims(s: State, s': State)
    requires Apart(s) && CacheOk(s) && ClaimsOk(s)
    requires EnvStep(s, s') || RetireStep(s, s') || s' == CacheRetire(s) || CopyStep(s, s')
    ensures ClaimsOk(s')
  {
    if EnvStep(s, s') {
      EnvClaims(s, s');
    } else if RetireStep(s, s') {
      RetireClaims(s, s');
    } else if s' == CacheRetire(s) {
      CacheRetireClaims(s);
    } else {
      CopyClaims(s, s');
    }
  }

  ghost predicate Both(s: State) {
    Inv(s) && ClaimsOk(s)
  }

  lemma {:induction false} ReachableClaims(s: State)
    requires Reachable(s)
    ensures ClaimsOk(s)
  {
    forall s | Init(s) ensures Both(s) {
      InitInv(s);
    }
    forall s, s' | Both(s) && Step(s, s') ensures Both(s') {
      StepInv(s, s');
      if !EnvStep(s, s') && DispatchStep(s, s') {
        DispatchClaimsStep(s, s');
      } else {
        OthersClaims(s, s');
      }
    }
    Runs.HoldsWhenReached(Init, Step, Both, s);
  }

  // ---- What a command may rely on ---------------------------------------------------------------------

  /** A cache packet's result is published only once the D-cache of every SM, and to invalidate the I-cache
      too, has finished the operation that was claimed for this very packet. */
  lemma {:induction false} CachePacketIsDone(s: State, s': State, n: nat, invalidate: bool)
    requires Reachable(s) && Step(s, s') && n < |s.slots| && s.slots[n] == Pending(ByCache)
    requires n < |s'.slots| && s'.slots[n].Terminal?
    requires n < |s.packets| && s.packets[n].kind == CacheOp(invalidate)
    ensures n in s.claimed && FwMaintenance.Maintained(s.cache, invalidate, s.claimed[n])
  {
    TokenAfterEveryCache(s, s', n);
    ReachableClaims(s);
    ReachableInv(s);
    assert Owes(s, ByCache, n);
  }

  /** With several SMs, a launch's first work-group is enqueued only once every D-cache has been invalidated
      by the operation claimed for this very launch. */
  lemma {:induction false} LaunchAfterInvalidate(s: State)
    requires Reachable(s) && s.dispatch.DEnqueue? && |s.cache.run| > 2
    ensures s.dispatch.n in s.claimed && s.cache.invalidates && s.claimed[s.dispatch.n] == s.cache.number
    ensures |s.cache.done| == |s.cache.run|
    ensures forall c | 0 <= c < |s.cache.run| ::
              s.cache.run[c] == 0 && (c % 2 == 1 ==> s.cache.done[c] == s.claimed[s.dispatch.n])
  {
    ReachableClaims(s);
    FwMaintenance.ReachableKept(s);
  }
}
