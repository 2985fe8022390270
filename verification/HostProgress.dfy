/** What the host and the firmware do get done: when a command is accepted, when a result is stored, what a
    reset brings back, and that the tokens handed out in between differ. */
module HostProgress {
  import opened Arithmetic
  import opened HostProtocol
  import opened HostTheorems
  import opened HostTokens
  import opened Options
  import Runs
  import opened Tokens

  // ---- Submitting -----------------------------------------------------------------------------------

  predicate HasFreeSlot(slots: seq<Meta>) {
    exists k | 0 <= k < |slots| :: !slots[k].inUse
  }

  /** No stale token is of the boot generation the host is in. */
  predicate StaleIsOlder(s: State) {
    forall j | 0 <= j < |s.stale| :: s.stale[j].boot != s.boot % TWO_16
  }

  /** The ring has room exactly while it holds fewer commands than its size less one. */
  lemma {:induction false} RingHasRoom(s: State)
    requires Reachable(s) && s.ready && s.lock.Free?
    ensures s.hostWr < |s.ring| && (Wrap(s.hostWr + 1, |s.ring|) != s.rd <==> Queued(s) + 1 < |s.ring|)
  {
    ReachableInv(s);
  }

  predicate Accepts(s: State) {
    s.ready && s.lock.Free? && Queued(s) + 1 < |s.ring| && HasFreeSlot(s.slots)
  }

  /** A command is accepted only when the session is up, the ring has room and a slot is free; and then it
      always is, unless stale tokens of the host's own boot generation stand in the way. */
  lemma {:induction false} ReservesExactlyWhen(s: State)
    requires Reachable(s) && !s.lock.Submitting?
    ensures DoReserve(s, true, true).lock.Submitting? ==> Accepts(s)
    ensures StaleIsOlder(s) && Accepts(s) ==> DoReserve(s, true, true).lock.Submitting?
  {
    ReachableInv(s);
    if s.ready && s.lock.Free? {
      RingHasRoom(s);
      AllocateOk(s.slots, s.stale, s.boot, s.gen, 0);
      var k := Allocate(s.slots, s.stale, s.boot, s.gen, 0).2;
      assert k.Some? ==> !s.slots[k.value].inUse;
      if StaleIsOlder(s) {
        AllocateFinds(s.slots, s.stale, s.boot, s.gen, 0);
      }
    }
  }

  /** A submission whose transfers all succeed: the slot is reserved, the packet copied, the doorbell rung. */
  function Submitted(s: State): State {
    Do(Do(Do(s, Reserve(true, true)), Packet(true, Token(0, 0, 0))), Doorbell(true, true))
  }

  /** It puts one new command behind those in the ring, under a token nobody had, whose slot is pending, and
      leaves every other token as it was. */
  lemma {:induction false} SubmitsOneCommand(s: State) returns (t: Token)
    requires Reachable(s) && StaleIsOlder(s) && Accepts(s)
    ensures var s' := Submitted(s);
            && s'.submitted == s.submitted + [t] && s'.taken == s.taken && s'.ready && s'.lock.Free?
            && s'.log == s.log + [Written(t)] && LastAt(s'.log, t.slot) == Some(Written(t))
            && !Holds(s.slots, t) && t !in s.stale && s'.stale == s.stale
            && (forall u :: Holds(s'.slots, u) <==> Holds(s.slots, u) || u == t)
  {
    ReachableInv(s);
    ReservesExactlyWhen(s);
    var s1 := Do(s, Reserve(true, true));
    t := Reserved(s);
    assert Submitted(s) == Rings(s1, t);
  }

  function Rings(s: State, t: Token): State
    requires s.hostWr < |s.ring|
  {
    var next := Wrap(s.hostWr + 1, |s.ring|);
    s.(ring := s.ring[s.hostWr := t], wr := next, hostWr := next, submitted := s.submitted + [t], lock := Free)
  }

  lemma {:induction false} Reserved(s: State) returns (t: Token)
    requires OwnOk(s) && s.lock.Free? && DoReserve(s, true, true).lock.Submitting?
    ensures var s' := DoReserve(s, true, true);
            && s'.lock == Submitting(PacketNext, t) && s'.log == s.log + [Written(t)] && s.hostWr < |s.ring|
            && (s'.ring, s'.hostWr, s'.submitted, s'.taken) == (s.ring, s.hostWr, s.submitted, s.taken)
            && (s'.stale, s'.ready) == (s.stale, s.ready) && s.ready
            && !Holds(s.slots, t) && t !in s.stale
            && (forall u :: Holds(s'.slots, u) <==> Holds(s.slots, u) || u == t)
  {
    AllocateOk(s.slots, s.stale, s.boot, s.gen, 0);
    var (slots, gen, k) := Allocate(s.slots, s.stale, s.boot, s.gen, 0);
    t := slots[k.value].token;
    assert MetaOk(slots, k.value);
    forall u ensures Holds(slots, u) <==> Holds(s.slots, u) || u == t {
    }
  }

  // ---- Publishing -----------------------------------------------------------------------------------

  ghost predicate LogInPool(s: State) {
    OwnOk(s) && forall j | 0 <= j < |s.log| :: s.log[j].token.slot < |s.pool|
  }

  lemma {:induction false} LogInPoolStep(s: State, a: Act)
    requires LogInPool(s)
    ensures LogInPool(Do(s, a))
  {
    OwnStep(s, a);
    if a.Reserve? {
      AllocateOk(s.slots, s.stale, s.boot, s.gen, 0);
      var (slots, gen, k) := Allocate(s.slots, s.stale, s.boot, s.gen, 0);
      assert k.Some? ==> MetaOk(slots, k.value);
    }
  }

  lemma {:induction false} ReachableLogInPool(s: State)
    requires Reachable(s)
    ensures LogInPool(s)
  {
    forall s | Init(s) ensures LogInPool(s) {
      InitInv(s);
    }
    forall s, s' | LogInPool(s) && Step(s, s') ensures LogInPool(s') {
      var a: Act :| s' == Do(s, a);
      LogInPoolStep(s, a);
    }
    Runs.HoldsWhenReached(Init, Step, LogInPool, s);
  }

  /** The firmware's store of a result takes effect exactly when the command is one it took, is of its boot
      generation and its slot is still the pending word written for it; otherwise nothing changes. */
  lemma {:induction false} PublishesExactlyWhen(s: State, t: Token, result: nat)
    requires Reachable(s) && result != PENDING && result != REBOOTED
    ensures var s' := DoPublish(s, t, result);
            if t in s.taken && t.boot == s.fwBoot % TWO_16 && LastAt(s.log, t.slot) == Some(Written(t))
            then s'.log == s.log + [Published(t, result)] && s'.calls == s.calls && s'.slots == s.slots
            else s' == s
  {
    ReachableInv(s);
    ReachableLogInPool(s);
    LastPending(s.log, t.slot);
    assert CellOk(s, t.slot);
    if t in s.taken {
      var k :| 0 <= k < |s.taken| && s.taken[k] == t;
      assert s.submitted[k] == t;
    }
  }

  // ---- Coming back from a reset -----------------------------------------------------------------------

  /** A reset that finds the firmware restarted leaves the session up and the ring empty, no slot in use, and
      every token that held one stale. */
  lemma {:induction false} ResetRestores(s: State)
    requires Reachable(s) && s.lock.Resetting? && s.fwBoot != 0 && s.fwBoot != s.boot
    ensures var s' := DoResetEnds(s, true);
            && s'.ready && s'.lock.Free? && s'.boot == s.fwBoot && Queued(s') == 0
            && (forall t :: !Holds(s'.slots, t))
            && (forall t :: t in s'.stale <==> t in s.stale || Holds(s.slots, t))
            && (|s.slots| > 0 && |s.ring| > 1 ==> Accepts(s'))
  {
    ReachableInv(s);
    ResetOk(s.slots, s.stale);
    if |s.slots| > 0 {
      assert !AllUnused(|s.slots|)[0].inUse;
    }
  }

  // ---- Tokens of one boot generation ------------------------------------------------------------------

  /** A slot is reserved under token `t`. */
  predicate Grants(s: State, s': State, t: Token) {
    s.lock.Free? && s'.lock == Submitting(PacketNext, t)
  }

  /** The generations go round one by one, and the token handed out carries the one before the next. */
  lemma {:induction false} AllocateAdvances(slots: seq<Meta>, stale: seq<Token>, boot: nat, gen: nat, i: nat)
    returns (m: nat)
    requires i <= |slots|
    ensures var (slots', gen', k) := Allocate(slots, stale, boot, gen, i);
            && |slots'| == |slots|
            && (k.None? ==> gen' == Advanced(gen, m) && m <= |slots| - i)
            && (k.Some? ==> i <= k.value < |slots| && m < |slots| - i && gen' == Advanced(gen, m + 1)
                            && slots'[k.value].token == Make(boot, Advanced(gen, m), k.value))
    decreases |slots| - i
  {
    m := 0;
    if i < |slots| {
      if slots[i].inUse {
        m := AllocateAdvances(slots, stale, boot, gen, i + 1);
      } else if Make(boot, gen, i) in stale {
        var n := AllocateAdvances(slots[i := UNUSED], stale, boot, NextGeneration(gen), i + 1);
        m := n + 1;
        AdvancedSum(gen, 1, n);
        AdvancedSum(gen, 1, n + 1);
        assert Advanced(gen, 1) == NextGeneration(Advanced(gen, 0)) == NextGeneration(gen);
      } else {
        assert Advanced(gen, 1) == NextGeneration(Advanced(gen, 0)) == NextGeneration(gen);
      }
    }
  }

  lemma {:induction false} ReserveAdvances(s: State, written: bool, reported: bool) returns (m: nat)
    requires 0 < s.gen < TWO_32
    ensures var s' := DoReserve(s, written, reported);
            && s'.boot == s.boot && |s'.slots| == |s.slots| && m <= |s.slots| && s'.gen == Advanced(s.gen, m)
            && (s.lock.Free? && s'.lock.Submitting? ==> m > 0 && s'.lock.token.gen == Advanced(s.gen, m - 1))
  {
    m := 0;
    if DoReserve(s, written, reported) != s {
      var n := AllocateAdvances(s.slots, s.stale, s.boot, s.gen, 0);
      GenerationsDiffer(s.gen, n);
      m := if Allocate(s.slots, s.stale, s.boot, s.gen, 0).2.Some? then n + 1 else n;
    }
  }

  lemma {:induction false} OthersKeepGeneration(s: State, a: Act)
    requires !a.Reserve? && !ResetSucceeds(s, Do(s, a))
    ensures var s' := Do(s, a); s'.boot == s.boot && |s'.slots| == |s.slots| && s'.gen == s.gen
    ensures s.lock.Free? ==> !Do(s, a).lock.Submitting?
  {
    match a
    case Packet(_, _) =>
    case Proceeds(_) =>
    case ResetEnds(_) =>
    case _ =>
  }

  lemma {:induction false} StepAdvances(s: State, s': State) returns (m: nat)
    requires Step(s, s') && !ResetSucceeds(s, s') && 0 < s.gen < TWO_32
    ensures s'.boot == s.boot && |s'.slots| == |s.slots| && m <= |s.slots| && s'.gen == Advanced(s.gen, m)
    ensures s.lock.Free? && s'.lock.Submitting? ==> m > 0 && s'.lock.token.gen == Advanced(s.gen, m - 1)
    ensures 0 < s'.gen < TWO_32
  {
    var a: Act :| s' == Do(s, a);
    m := 0;
    if a.Reserve? {
      m := ReserveAdvances(s, a.written, a.reported);
    } else {
      OthersKeepGeneration(s, a);
    }
    GenerationsDiffer(s.gen, m);
  }

  lemma {:induction false} GenerationFits(run: seq<State>, n: nat)
    requires Runs.IsRun(Init, Step, run) && n < |run|
    ensures 0 < run[n].gen < TWO_32
  {
    if n == 0 {
      assert Init(run[0]);
    } else {
      GenerationFits(run, n - 1);
      Runs.StepIsTaken(Init, Step, run, n - 1);
      if !ResetSucceeds(run[n - 1], run[n]) {
        var m := StepAdvances(run[n - 1], run[n]);
      }
    }
  }

  lemma {:induction false} RunAdvances(run: seq<State>, i: nat, j: nat) returns (m: nat)
    requires Runs.IsRun(Init, Step, run) && i <= j < |run|
    requires forall k | i <= k < j :: !ResetSucceeds(run[k], run[k + 1])
    ensures |run[j].slots| == |run[i].slots|
    ensures m <= (j - i) * |run[i].slots| && run[j].gen == Advanced(run[i].gen, m)
  {
    m := 0;
    if i < j {
      var n := RunAdvances(run, i, j - 1);
      assert !ResetSucceeds(run[j - 1], run[j - 1 + 1]);
      var q := AdvanceAt(run, j - 1);
      m := n + q;
      AdvancedSum(run[i].gen, n, q);
      assert m <= (j - i) * |run[i].slots| by {
        MulNext(j - 1 - i, |run[i].slots|);
      }
    }
  }

  lemma {:induction false} AdvanceAt(run: seq<State>, k: nat) returns (m: nat)
    requires Runs.IsRun(Init, Step, run) && k + 1 < |run| && !ResetSucceeds(run[k], run[k + 1])
    ensures |run[k + 1].slots| == |run[k].slots| && m <= |run[k].slots| && run[k + 1].gen == Advanced(run[k].gen, m)
  {
    GenerationFits(run, k);
    Runs.StepIsTaken(Init, Step, run, k);
    m := StepAdvances(run[k], run[k + 1]);
  }

  /** Between two successful resets, tokens handed out in different steps differ, as long as the steps
      between them cannot have used up all 2^32 - 1 generations. */
  lemma {:induction false} GrantsDiffer(run: seq<State>, i: nat, j: nat, t: Token, u: Token)
    requires Runs.IsRun(Init, Step, run) && i < j < |run| - 1
    requires forall k | i <= k <= j :: !ResetSucceeds(run[k], run[k + 1])
    requires Grants(run[i], run[i + 1], t) && Grants(run[j], run[j + 1], u)
    requires (j - i) * |run[i].slots| < TWO_32 - 1
    ensures t != u
  {
    var slots := |run[i].slots|;
    var m := GrantAt(run, i, t);
    var n := RunAdvances(run, i + 1, j);
    var q := GrantAt(run, j, u);
    assert n + q <= (j - i) * slots by {
      MulNext(j - i - 1, slots);
    }
    GrantedApart(run[i].gen, m, n, q);
  }

  lemma {:induction false} GrantAt(run: seq<State>, i: nat, t: Token) returns (m: nat)
    requires Runs.IsRun(Init, Step, run) && i + 1 < |run| && !ResetSucceeds(run[i], run[i + 1])
    requires Grants(run[i], run[i + 1], t)
    ensures 0 < run[i].gen < TWO_32 && 0 < m <= |run[i].slots| == |run[i + 1].slots|
    ensures t.gen == Advanced(run[i].gen, m - 1) && run[i + 1].gen == Advanced(run[i].gen, m)
  {
    GenerationFits(run, i);
    Runs.StepIsTaken(Init, Step, run, i);
    m := StepAdvances(run[i], run[i + 1]);
  }

  lemma {:induction false} GrantedApart(gen: nat, m: nat, n: nat, q: nat)
    requires 0 < gen < TWO_32 && m > 0 && q > 0 && n + q < TWO_32 - 1
    ensures Advanced(gen, m - 1) != Advanced(Advanced(Advanced(gen, m), n), q - 1)
  {
    var g := Advanced(gen, m - 1);
    assert 0 < g < TWO_32 by {
      GenerationsDiffer(gen, m - 1);
    }
    GenerationMoves(g, n + q);
    assert Advanced(g, 1) == NextGeneration(Advanced(g, 0)) == Advanced(gen, m);
    AdvancedSum(g, 1, n);
    AdvancedSum(g, 1 + n, q - 1);
  }
}
