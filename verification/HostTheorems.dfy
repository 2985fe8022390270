/** What holds between host and firmware over every sequence of their steps. */
module HostTheorems {
  import opened Arithmetic
  import opened HostProtocol
  import opened HostTokens
  import opened Options
  import Runs
  import opened Tokens

  // ---- The invariant --------------------------------------------------------------------------

  ghost predicate OwnOk(s: State) {
    && TokensOk(s.slots, s.stale) && |s.pool| == |s.slots|
    && (s.lock.Submitting? ==> Holds(s.slots, s.lock.token))
  }

  /** Commands between the firmware's read pointer and its write pointer. */
  function Queued(s: State): int {
    |s.submitted| - |s.taken|
  }

  predicate InRing(s: State, k: nat) {
    s.rd < |s.ring| && k < |s.ring| && |s.taken| + k < |s.submitted|
    && s.ring[Wrap(s.rd + k, |s.ring|)] == s.submitted[|s.taken| + k]
  }

  ghost predicate RingOk(s: State) {
    && s.rd < |s.ring| && s.wr < |s.ring|
    && s.taken <= s.submitted && Queued(s) < |s.ring| && s.wr == Wrap(s.rd + Queued(s), |s.ring|)
    && (forall k: nat | k < Queued(s) :: InRing(s, k))
    && (s.ready || s.lock.Submitting? ==> s.hostWr == s.wr)
    && (s.lock.Submitting? ==>
          Queued(s) + 1 < |s.ring| && (s.lock.stage.DoorbellNext? ==> s.ring[s.hostWr] == s.lock.token))
    && (s.lock.Resetting? ==> !s.ready)
    && (!s.lost && !s.lock.Resetting? ==> s.fwBoot == s.boot)
    && (s.lock.Resetting? && s.fwBoot != s.boot ==> s.rd == 0 && s.wr == 0 && s.submitted == [] && s.taken == [])
    && (s.lost ==> !s.ready && s.lock.Free?)
  }

  function LastAt(log: seq<Event>, i: nat): Option<Event> {
    if log == [] then None
    else if log[|log| - 1].token.slot == i then Some(log[|log| - 1])
    else LastAt(log[..|log| - 1], i)
  }

  function CellOf(e: Event): Cell {
    match e
    case Written(t) => Cell(t, PENDING)
    case Published(t, result) => Cell(t, result)
  }

  predicate CellOk(s: State, i: nat) {
    i < |s.pool| && LastAt(s.log, i).Some? ==> s.pool[i] == CellOf(LastAt(s.log, i).value)
  }

  /** A result follows the pending word of its own token in its slot. */
  predicate EventOk(log: seq<Event>, j: nat) {
    j < |log| && log[j].Published? ==>
      LastAt(log[..j], log[j].token.slot) == Some(Written(log[j].token)) && log[j].result != PENDING
      && log[j].result != REBOOTED
  }

  ghost predicate LogOk(s: State) {
    && (forall i: nat :: CellOk(s, i))
    && (forall j: nat :: EventOk(s.log, j))
    && (forall i: nat | i < |s.slots| && s.slots[i].inUse :: LastAt(s.log, i).Some?)
    && (forall k | 0 <= k < |s.submitted| :: LastAt(s.log, s.submitted[k].slot).Some?)
  }

  /** When the pool's history was `seen` events long, the last of them for the token's slot was that the
      firmware published `result` for exactly this token. */
  predicate WasPublished(log: seq<Event>, seen: nat, t: Token, result: nat) {
    seen <= |log| && LastAt(log[..seen], t.slot) == Some(Published(t, result))
  }

  ghost predicate CallOk(s: State, c: Call) {
    match c
    case PollFound(t) => LastAt(s.log, t.slot).Some?
    case PollSame(t) => LastAt(s.log, t.slot).Some?
    case PollDone(t, poll, seen) =>
      poll.PollTerminal? && poll.result != REBOOTED ==> WasPublished(s.log, seen, t, poll.result)
    case ReleaseFound(t) => LastAt(s.log, t.slot).Some?
    case ReleaseSame(t) => LastAt(s.log, t.slot).Some?
    case ReleaseEnd(t, seen) => exists result :: WasPublished(s.log, seen, t, result)
    case _ => true
  }

  ghost predicate CallsOk(s: State) {
    forall id | id in s.calls :: CallOk(s, s.calls[id])
  }

  ghost predicate Inv(s: State) {
    OwnOk(s) && RingOk(s) && LogOk(s) && CallsOk(s)
  }

  // ---- Tokens -------------------------------------------------------------------------------------

  lemma {:induction false} ReserveOwn(s: State, written: bool, reported: bool)
    requires OwnOk(s)
    ensures OwnOk(DoReserve(s, written, reported))
  {
    AllocateOk(s.slots, s.stale, s.boot, s.gen, 0);
    var (slots, gen, k) := Allocate(s.slots, s.stale, s.boot, s.gen, 0);
    assert k.Some? ==> MetaOk(slots, k.value);
  }

  lemma {:induction false} ProceedOwn(s: State, id: nat)
    requires OwnOk(s)
    ensures OwnOk(DoProceeds(s, id))
  {
    if id in s.calls {
      FreedOk(s.slots, s.stale, s.calls[id].token, s.calls[id].token);
    }
  }

  lemma {:induction false} OwnStep(s: State, a: Act)
    requires OwnOk(s)
    ensures OwnOk(Do(s, a))
  {
    match a
    case Reserve(written, reported) => ReserveOwn(s, written, reported);
    case Packet(_, _) =>
      if s.lock.Submitting? {
        FreedOk(s.slots, s.stale, s.lock.token, s.lock.token);
      }
    case ResetEnds(_) => ResetOk(s.slots, s.stale);
    case ReleaseBegins(_, t) =>
      if t in s.stale {
        ErasedOk(s.slots, s.stale, t);
      }
    case Proceeds(id) => ProceedOwn(s, id);
    case _ =>
  }

  // ---- The ring -------------------------------------------------------------------------------------

  lemma {:induction false} TakeRing(s: State)
    requires RingOk(s)
    ensures RingOk(DoTake(s))
  {
    var s' := DoTake(s);
    if s.rd != s.wr {
      assert InRing(s, 0);
      assert s'.taken == s.submitted[..|s.taken| + 1];
      forall k: nat | k < Queued(s') ensures InRing(s', k) {
        assert InRing(s, k + 1);
      }
    }
  }

  lemma {:induction false} PacketRing(s: State, ok: bool, junk: Token)
    requires RingOk(s)
    ensures RingOk(DoPacket(s, ok, junk))
  {
    var s' := DoPacket(s, ok, junk);
    forall k: nat | k < Queued(s') ensures InRing(s', k) {
      assert InRing(s, k);
    }
  }

  /** The doorbell takes effect: the ring gains the command the host has just copied there. */
  lemma {:induction false} Rung(s: State, s': State)
    requires RingOk(s) && s.lock.Submitting? && s.lock.stage.DoorbellNext? && s.hostWr < |s.ring|
    requires (s'.ring, s'.rd, s'.taken) == (s.ring, s.rd, s.taken)
    requires (s'.fwBoot, s'.boot, s'.lost) == (s.fwBoot, s.boot, s.lost)
    requires s'.wr == Wrap(s.hostWr + 1, |s.ring|) && s'.submitted == s.submitted + [s.lock.token]
    requires s'.lock == Free && (s'.ready ==> s'.hostWr == s'.wr)
    ensures RingOk(s')
  {
    forall k: nat | k < Queued(s') ensures InRing(s', k) {
      assert k < Queued(s) ==> InRing(s, k);
    }
  }

  lemma {:induction false} DoorbellRing(s: State, took: bool, reported: bool)
    requires RingOk(s)
    ensures RingOk(DoDoorbell(s, took, reported))
  {
    var s' := DoDoorbell(s, took, reported);
    if s.lock.Submitting? && s.lock.stage.DoorbellNext? && (took || reported) {
      Rung(s, s');
    } else {
      forall k: nat | k < Queued(s') ensures InRing(s', k) {
        assert InRing(s, k);
      }
    }
  }

  lemma {:induction false} RingFrame(s: State, s': State)
    requires RingOk(s) && s'.ring == s.ring && s'.rd == s.rd && s'.wr == s.wr && s'.submitted == s.submitted
    requires s'.taken == s.taken
    requires s'.hostWr == s.hostWr && s'.lost == s.lost && s'.fwBoot == s.fwBoot && s'.boot == s.boot
    requires s'.lock == s.lock && (s'.ready ==> s.ready)
    ensures RingOk(s')
  {
    forall k: nat | k < Queued(s') ensures InRing(s', k) {
      assert InRing(s, k);
    }
  }

  /** Reserving a slot leaves the ring alone. */
  lemma {:induction false} ReserveTouches(s: State, written: bool, reported: bool)
    ensures var s' := DoReserve(s, written, reported);
            && (s'.ring, s'.rd, s'.wr, s'.submitted, s'.taken) == (s.ring, s.rd, s.wr, s.submitted, s.taken)
            && (s'.hostWr, s'.ready, s'.lost, s'.fwBoot, s'.boot) == (s.hostWr, s.ready, s.lost, s.fwBoot, s.boot)
            && (s'.lock == s.lock
                || (s'.lock.Submitting? && s'.lock.stage.PacketNext? && s.ready && s.lock.Free? && s.hostWr < |s.ring|
                    && Wrap(s.hostWr + 1, |s.ring|) != s.rd))
  {
  }

  lemma {:induction false} ReserveRing(s: State, written: bool, reported: bool)
    requires RingOk(s)
    ensures RingOk(DoReserve(s, written, reported))
  {
    ReserveTouches(s, written, reported);
    LockRing(s, DoReserve(s, written, reported));
  }

  lemma {:induction false} LockRing(s: State, s': State)
    requires RingOk(s)
    requires (s'.ring, s'.rd, s'.wr, s'.submitted, s'.taken) == (s.ring, s.rd, s.wr, s.submitted, s.taken)
    requires (s'.hostWr, s'.ready, s'.lost, s'.fwBoot, s'.boot) == (s.hostWr, s.ready, s.lost, s.fwBoot, s.boot)
    requires s'.lock == s.lock
             || (s'.lock.Submitting? && s'.lock.stage.PacketNext? && s.ready && s.lock.Free? && s.hostWr < |s.ring|
                 && Wrap(s.hostWr + 1, |s.ring|) != s.rd)
    ensures RingOk(s')
  {
    forall k: nat | k < Queued(s') ensures InRing(s', k) {
      assert InRing(s, k);
    }
  }

  lemma {:induction false} RebootRing(s: State, boot: nat)
    requires RingOk(s)
    ensures RingOk(DoReboot(s, boot))
  {
    var s' := DoReboot(s, boot);
    forall k: nat | k < Queued(s') ensures InRing(s', k) {
      assert InRing(s, k);
    }
  }

  lemma {:induction false} ResetEndsRing(s: State, ok: bool)
    requires RingOk(s)
    ensures RingOk(DoResetEnds(s, ok))
  {
    var s' := DoResetEnds(s, ok);
    forall k: nat | k < Queued(s') ensures InRing(s', k) {
      assert InRing(s, k);
    }
  }

  lemma {:induction false} ResetBeginsRing(s: State)
    requires RingOk(s)
    ensures RingOk(Do(s, ResetBegins))
  {
    var s' := Do(s, ResetBegins);
    forall k: nat | k < Queued(s') ensures InRing(s', k) {
      assert InRing(s, k);
    }
  }

  lemma {:induction false} RingStep(s: State, a: Act)
    requires RingOk(s)
    ensures RingOk(Do(s, a))
  {
    match a
    case Reserve(written, reported) => ReserveRing(s, written, reported);
    case Packet(ok, junk) => PacketRing(s, ok, junk);
    case Doorbell(took, reported) => DoorbellRing(s, took, reported);
    case ResetBegins => ResetBeginsRing(s);
    case FirmwareReboots(boot) => RebootRing(s, boot);
    case ResetEnds(ok) => ResetEndsRing(s, ok);
    case TakePacket => TakeRing(s);
    case _ => RestRing(s, a);
  }

  lemma {:induction false} RestRing(s: State, a: Act)
    requires RingOk(s) && (a.TransportFails? || a.Publish? || a.Fails? || Mover(a).Some?)
    ensures RingOk(Do(s, a))
  {
    RingFrame(s, Do(s, a));
  }

  // ---- The pool ---------------------------------------------------------------------------------------

  lemma {:induction false} LastAppend(log: seq<Event>, e: Event, i: nat)
    ensures LastAt(log + [e], i) == if e.token.slot == i then Some(e) else LastAt(log, i)
  {
    assert (log + [e])[..|log|] == log;
  }

  lemma {:induction false} EventAppend(log: seq<Event>, e: Event, j: nat)
    requires forall i: nat :: EventOk(log, i)
    requires e.Published? ==>
               LastAt(log, e.token.slot) == Some(Written(e.token)) && e.result != PENDING && e.result != REBOOTED
    ensures EventOk(log + [e], j)
  {
    assert EventOk(log, j);
    if j < |log| {
      assert (log + [e])[..j] == log[..j];
    } else if j == |log| {
      assert (log + [e])[..j] == log;
    }
  }

  /** The pool and its history gain an event. */
  lemma {:induction false} LogGrows(s: State, s': State, e: Event)
    requires LogOk(s) && e.token.slot < |s.pool| && s'.log == s.log + [e]
    requires s'.pool == s.pool[e.token.slot := CellOf(e)]
    requires e.Published? ==>
               LastAt(s.log, e.token.slot) == Some(Written(e.token)) && e.result != PENDING && e.result != REBOOTED
    requires |s'.slots| == |s.slots| && s'.submitted == s.submitted
    requires forall i: nat | i < |s'.slots| && s'.slots[i].inUse :: s.slots[i].inUse || i == e.token.slot
    ensures LogOk(s')
  {
    forall i: nat ensures CellOk(s', i) {
      LastAppend(s.log, e, i);
      assert CellOk(s, i);
    }
    forall j: nat ensures EventOk(s'.log, j) {
      EventAppend(s.log, e, j);
    }
    forall i: nat | LastAt(s.log, i).Some? || i == e.token.slot ensures LastAt(s'.log, i).Some? {
      LastAppend(s.log, e, i);
    }
  }

  lemma {:induction false} LogFrame(s: State, s': State)
    requires LogOk(s) && s'.log == s.log && s'.pool == s.pool && |s'.slots| == |s.slots|
    requires forall i: nat | i < |s'.slots| && s'.slots[i].inUse :: s.slots[i].inUse
    requires s'.submitted == s.submitted || s'.submitted == []
    ensures LogOk(s')
  {
    forall i: nat ensures CellOk(s', i) {
      assert CellOk(s, i);
    }
  }

  lemma {:induction false} ReserveLog(s: State, written: bool, reported: bool)
    requires OwnOk(s) && LogOk(s)
    ensures LogOk(DoReserve(s, written, reported))
  {
    var s' := DoReserve(s, written, reported);
    var (slots, gen, k) := Allocate(s.slots, s.stale, s.boot, s.gen, 0);
    AllocateOk(s.slots, s.stale, s.boot, s.gen, 0);
    if s'.log == s.log {
      LogFrame(s, s');
    } else {
      assert MetaOk(slots, k.value);
      LogGrows(s, s', Written(slots[k.value].token));
    }
  }

  lemma {:induction false} PublishLog(s: State, t: Token, result: nat)
    requires RingOk(s) && LogOk(s)
    ensures LogOk(DoPublish(s, t, result))
  {
    var s' := DoPublish(s, t, result);
    if s'.log != s.log {
      var k :| 0 <= k < |s.taken| && s.taken[k] == t;
      assert s.submitted[k] == t;
      assert CellOk(s, t.slot);
      LastPending(s.log, t.slot);
      LogGrows(s, s', Published(t, result));
    }
  }

  /** A slot whose last event left it pending was last written by the host. */
  lemma {:induction false} LastPending(log: seq<Event>, i: nat)
    requires forall j: nat :: EventOk(log, j)
    ensures LastAt(log, i).Some? && CellOf(LastAt(log, i).value).result == PENDING ==> LastAt(log, i).value.Written?
    ensures LastAt(log, i).Some? ==> LastAt(log, i).value in log && LastAt(log, i).value.token.slot == i
  {
    if log != [] {
      var n := |log| - 1;
      assert EventOk(log, n);
      forall j: nat ensures EventOk(log[..n], j) {
        assert EventOk(log, j);
        if j < n {
          assert log[..n][..j] == log[..j];
        }
      }
      LastPending(log[..n], i);
    }
  }

  lemma {:induction false} DoorbellLog(s: State, took: bool, reported: bool)
    requires OwnOk(s) && LogOk(s)
    ensures LogOk(DoDoorbell(s, took, reported))
  {
    var s' := DoDoorbell(s, took, reported);
    forall i: nat ensures CellOk(s', i) {
      assert CellOk(s, i);
    }
  }

  lemma {:induction false} LogStep(s: State, a: Act)
    requires OwnOk(s) && RingOk(s) && LogOk(s)
    ensures LogOk(Do(s, a))
  {
    match a
    case Reserve(written, reported) => ReserveLog(s, written, reported);
    case Doorbell(took, reported) => DoorbellLog(s, took, reported);
    case Publish(t, result) => PublishLog(s, t, result);
    case _ => QuietLog(s, a);
  }

  /** What no slot is written and nothing submitted by. */
  lemma {:induction false} LogSpared(s: State, a: Act)
    requires !a.Reserve? && !a.Doorbell? && !a.Publish?
    ensures var s' := Do(s, a);
            && s'.log == s.log && s'.pool == s.pool && |s'.slots| == |s.slots|
            && (s'.submitted == s.submitted || s'.submitted == [])
            && NoneTaken(s.slots, s'.slots)
  {
    match a
    case Packet(_, _) =>
      if s.lock.Submitting? {
        FreeingTakesNone(s.slots, s.lock.token);
      }
    case Proceeds(id) => ProceedSpares(s, id);
    case _ =>
  }

  predicate NoneTaken(slots: seq<Meta>, slots': seq<Meta>) {
    |slots'| == |slots| && forall i: nat | i < |slots'| && slots'[i].inUse :: slots[i].inUse
  }

  lemma {:induction false} FreeingTakesNone(slots: seq<Meta>, t: Token)
    ensures NoneTaken(slots, Freed(slots, t))
  {
  }

  lemma {:induction false} ProceedSpares(s: State, id: nat)
    ensures var s' := DoProceeds(s, id);
            s'.log == s.log && s'.pool == s.pool && s'.submitted == s.submitted && NoneTaken(s.slots, s'.slots)
  {
    if id in s.calls {
      FreeingTakesNone(s.slots, s.calls[id].token);
    }
  }

  lemma {:induction false} QuietLog(s: State, a: Act)
    requires LogOk(s) && !a.Reserve? && !a.Doorbell? && !a.Publish?
    ensures LogOk(Do(s, a))
  {
    LogSpared(s, a);
    LogFrame(s, Do(s, a));
  }

  // ---- Calls ------------------------------------------------------------------------------------------

  /** What calls rely on survives as the history grows. */
  lemma {:induction false} CallKept(s: State, s': State, c: Call)
    requires CallOk(s, c) && s.log <= s'.log <= s.log + s'.log[|s.log|..] && |s'.log| <= |s.log| + 1
    ensures CallOk(s', c)
  {
    if |s'.log| == |s.log| {
      assert s'.log == s.log;
    } else {
      assert s'.log == s.log + [s'.log[|s.log|]];
      LastAppend(s.log, s'.log[|s.log|], c.token.slot);
    }
    if c.ReleaseEnd? {
      var result :| WasPublished(s.log, c.seen, c.token, result);
      assert s'.log[..c.seen] == s.log[..c.seen];
      assert WasPublished(s'.log, c.seen, c.token, result);
    } else if c.PollDone? && c.seen <= |s.log| {
      assert s'.log[..c.seen] == s.log[..c.seen];
    }
  }

  lemma {:induction false} LogExtends(s: State, a: Act)
    ensures s.log <= Do(s, a).log && |Do(s, a).log| <= |s.log| + 1
  {
  }

  /** A terminal word read for a token was published for it. */
  lemma {:induction false} ReadIsTrue(s: State, t: Token)
    requires LogOk(s) && LastAt(s.log, t.slot).Some? && ReadSlot(s, t).PollTerminal?
    ensures WasPublished(s.log, |s.log|, t, ReadSlot(s, t).result)
  {
    assert CellOk(s, t.slot);
    LastPending(s.log, t.slot);
    assert s.log[..|s.log|] == s.log;
  }

  lemma {:induction false} AfterOk(s: State, c: Call)
    requires OwnOk(s) && LogOk(s) && CallOk(s, c)
    ensures CallOk(s, After(s, c))
  {
    if (c.PollSame? || c.ReleaseSame?) && ReadSlot(s, c.token).PollTerminal? {
      ReadIsTrue(s, c.token);
    }
  }

  lemma {:induction false} CallsKept(s: State, a: Act)
    requires CallsOk(s)
    ensures forall id | id in s.calls :: CallOk(Do(s, a), s.calls[id])
  {
    LogExtends(s, a);
    forall id | id in s.calls ensures CallOk(Do(s, a), s.calls[id]) {
      CallKept(s, Do(s, a), s.calls[id]);
    }
  }

  /** The one call that begins or moves on in a step, if any. */
  function Mover(a: Act): Option<nat> {
    match a
    case PollBegins(id, _) => Some(id)
    case ReleaseBegins(id, _) => Some(id)
    case Proceeds(id) => Some(id)
    case _ => None
  }

  lemma {:induction false} OnlyMoverMoves(s: State, a: Act, id: nat)
    requires id in Do(s, a).calls && Mover(a) != Some(id)
    ensures id in s.calls && Do(s, a).calls[id] == s.calls[id]
  {
  }

  lemma {:induction false} MoverOk(s: State, a: Act, id: nat)
    requires OwnOk(s) && LogOk(s) && CallsOk(s) && Mover(a) == Some(id) && id in Do(s, a).calls
    ensures CallOk(Do(s, a), Do(s, a).calls[id])
  {
    var s' := Do(s, a);
    MoverLog(s, a);
    if s'.calls == s.calls {
      CallKept(s, s', s.calls[id]);
    } else if a.Proceeds? {
      AfterOk(s, s.calls[id]);
      CallKept(s, s', After(s, s.calls[id]));
    }
  }

  lemma {:induction false} MoverLog(s: State, a: Act)
    requires Mover(a).Some?
    ensures Do(s, a).log == s.log
  {
  }

  lemma {:induction false} CallsStep(s: State, a: Act)
    requires OwnOk(s) && LogOk(s) && CallsOk(s)
    ensures CallsOk(Do(s, a))
  {
    CallsKept(s, a);
    forall id | id in Do(s, a).calls ensures CallOk(Do(s, a), Do(s, a).calls[id]) {
      if Mover(a) == Some(id) {
        MoverOk(s, a, id);
      } else {
        OnlyMoverMoves(s, a, id);
      }
    }
  }

  // ---- Every run ----------------------------------------------------------------------------------------

  lemma {:induction false} InitInv(s: State)
    requires Init(s)
    ensures Inv(s)
  {
    forall i: nat | i < |s.slots| ensures MetaOk(s.slots, i) {
    }
  }

  lemma {:induction false} StepInv(s: State, s': State)
    requires Inv(s) && Step(s, s')
    ensures Inv(s')
  {
    var a :| s' == Do(s, a);
    OwnStep(s, a);
    RingStep(s, a);
    LogStep(s, a);
    CallsStep(s, a);
  }

  lemma {:induction false} ReachableInv(s: State)
    requires Reachable(s)
    ensures Inv(s)
  {
    forall s | Init(s) ensures Inv(s) {
      InitInv(s);
    }
    forall s, s' | Inv(s) && Step(s, s') ensures Inv(s') {
      StepInv(s, s');
    }
    Runs.HoldsWhenReached(Init, Step, Inv, s);
  }

  // ---- What the protocol promises -------------------------------------------------------------------------

  /** Tokens in use are pairwise different and differ from every stale token; their words are not zero. */
  lemma {:induction false} TokensStayDistinct(s: State, t: Token, u: Token)
    requires Reachable(s) && Holds(s.slots, t) && (Holds(s.slots, u) || u in s.stale)
    ensures 0 < Word(t) < TWO_64
    ensures u in s.stale || t.slot != u.slot ==> Word(t) != Word(u)
  {
    ReachableInv(s);
    assert MetaOk(s.slots, t.slot);
    if Holds(s.slots, u) {
      assert MetaOk(s.slots, u.slot);
    }
    TokenRoundTrip(t);
    WordsAreTokens(t, u);
  }

  /** So are the stale tokens among themselves. */
  lemma {:induction false} StaleTokensStayDistinct(s: State, i: nat, j: nat)
    requires Reachable(s) && i < |s.stale| && j < |s.stale|
    ensures 0 < Word(s.stale[i]) < TWO_64
    ensures i != j ==> Word(s.stale[i]) != Word(s.stale[j])
  {
    ReachableInv(s);
    TokenRoundTrip(s.stale[i]);
    WordsAreTokens(s.stale[i], s.stale[j]);
  }

  /** A poll that ends with a result other than "rebooted" returns what the firmware had published for
      exactly that token, and nothing had happened to the slot since. */
  lemma {:induction false} PollIsTrue(s: State, id: nat)
    requires Reachable(s) && id in s.calls && s.calls[id].PollDone? && s.calls[id].poll.PollTerminal?
    requires s.calls[id].poll.result != REBOOTED
    ensures WasPublished(s.log, s.calls[id].seen, s.calls[id].token, s.calls[id].poll.result)
  {
    ReachableInv(s);
    assert CallOk(s, s.calls[id]);
  }

  /** The steps that may take a token's slot away: the last access of a release of that very token, the
      failed submission that allocated it, or a reset. */
  predicate Loses(s: State, a: Act, t: Token) {
    match a
    case Proceeds(id) =>
      id in s.calls && s.calls[id].token == t && (s.calls[id].ReleaseEnd? || s.calls[id].ReleaseReboot?)
    case Packet(ok, _) => !ok && s.lock.Submitting? && s.lock.token == t
    case ResetEnds(ok) => ok
    case _ => false
  }

  /** Whatever releases interleave, a token keeps its slot until a step of its own takes it away, and no
      step gives the slot of one token to another. */
  lemma {:induction false} HeldUntilReleased(s: State, a: Act, t: Token)
    requires Reachable(s) && Holds(s.slots, t)
    ensures Holds(Do(s, a).slots, t) || Loses(s, a, t)
  {
    ReachableInv(s);
    match a
    case Reserve(_, _) =>
      AllocateOk(s.slots, s.stale, s.boot, s.gen, 0);
      var (slots, gen, k) := Allocate(s.slots, s.stale, s.boot, s.gen, 0);
      assert k.Some? ==> k.value != t.slot && slots[t.slot] == s.slots[t.slot];
    case Packet(_, _) =>
      if s.lock.Submitting? {
        FreedOk(s.slots, s.stale, s.lock.token, t);
      }
    case Proceeds(id) =>
      if id in s.calls {
        FreedOk(s.slots, s.stale, s.calls[id].token, t);
      }
    case _ =>
  }

  /** A slot freed without a reboot was freed after the firmware published a result for its token. */
  lemma {:induction false} FreedAfterResult(s: State, id: nat)
    requires Reachable(s) && id in s.calls && s.calls[id].ReleaseEnd?
    ensures exists result :: WasPublished(s.log, s.calls[id].seen, s.calls[id].token, result)
  {
    ReachableInv(s);
    assert CallOk(s, s.calls[id]);
  }

  /** A publication follows the pending word the host wrote for the same token, with no event of the slot
      between, and is a command's result. */
  lemma {:induction false} PublishedIntoOwnSlot(s: State, j: nat)
    requires Reachable(s) && j < |s.log| && s.log[j].Published?
    ensures LastAt(s.log[..j], s.log[j].token.slot) == Some(Written(s.log[j].token))
    ensures s.log[j].result != PENDING && s.log[j].result != REBOOTED
  {
    ReachableInv(s);
    assert EventOk(s.log, j);
  }

  /** The firmware takes commands in submission order, each once, and what it copies next is the oldest
      command it has not taken, whatever became of the doorbells. */
  lemma {:induction false} RingIsFifo(s: State)
    requires Reachable(s)
    ensures s.taken <= s.submitted
    ensures s.rd != s.wr <==> |s.taken| < |s.submitted|
    ensures s.rd != s.wr ==> DoTake(s).taken == s.submitted[..|s.taken| + 1]
  {
    ReachableInv(s);
    if |s.taken| < |s.submitted| {
      assert InRing(s, 0);
    }
  }

  /** No step of the host overwrites a command the firmware has yet to copy. */
  lemma {:induction false} NeverOverwritten(s: State, a: Act, k: nat)
    requires Reachable(s) && k < Queued(s)
    ensures s.rd < |s.ring| == |Do(s, a).ring| && k < |s.ring|
    ensures Do(s, a).ring[Wrap(s.rd + k, |s.ring|)] == s.ring[Wrap(s.rd + k, |s.ring|)] == s.submitted[|s.taken| + k]
  {
    ReachableInv(s);
    QueuedIsElsewhere(s, k);
    OnlyPacketsWrite(s, a);
  }

  lemma {:induction false} QueuedIsElsewhere(s: State, k: nat)
    requires RingOk(s) && k < Queued(s)
    ensures var i := Wrap(s.rd + k, |s.ring|);
            s.ring[i] == s.submitted[|s.taken| + k] && (s.lock.Submitting? ==> i != s.hostWr)
  {
    assert InRing(s, k);
  }

  lemma {:induction false} OnlyPacketsWrite(s: State, a: Act)
    ensures |Do(s, a).ring| == |s.ring|
    ensures forall i | 0 <= i < |s.ring| :: Do(s, a).ring[i] == s.ring[i] || (s.lock.Submitting? && i == s.hostWr)
  {
    match a
    case Packet(_, _) =>
    case Reserve(written, reported) => ReserveTouches(s, written, reported);
    case _ => assert Do(s, a).ring == s.ring;
  }

  // ---- Ambiguous delivery -----------------------------------------------------------------------------------

  /** A reset that brings the firmware back. */
  predicate ResetSucceeds(s: State, s': State) {
    s.lock.Resetting? && s'.ready && s' == DoResetEnds(s, true)
  }

  /** `s'` has nothing more in the ring than `s`: what the firmware may take is as before, or was discarded
      when it rebooted. */
  predicate NothingMore(s: State, s': State) {
    s'.ring == s.ring && ((s'.submitted == s.submitted && s'.wr == s.wr) || (s'.submitted == [] && s'.wr == 0))
  }

  lemma {:induction false} SilentStep(s: State, a: Act)
    requires !s.ready && !s.lock.Submitting? && !ResetSucceeds(s, Do(s, a))
    ensures !Do(s, a).ready && !Do(s, a).lock.Submitting? && NothingMore(s, Do(s, a))
  {
  }

  /** After an ambiguous doorbell, until a reset brings the firmware back, nothing is submitted: not while
      the host waits, not while it resets, and not after a reset that failed. */
  lemma {:induction false} AmbiguityStopsSubmission(run: seq<State>, i: nat, j: nat)
    requires Runs.IsRun(Init, Step, run) && i <= j < |run| && !run[i].ready && run[i].lock.Free?
    requires forall k | i <= k < j :: !ResetSucceeds(run[k], run[k + 1])
    ensures !run[j].ready && !run[j].lock.Submitting? && NothingMore(run[i], run[j])
  {
    if i < j {
      AmbiguityStopsSubmission(run, i, j - 1);
      assert Runs.StepAt(Step, run, j - 1);
      assert !ResetSucceeds(run[j - 1], run[j - 1 + 1]);
      var a :| run[j] == Do(run[j - 1], a);
      SilentStep(run[j - 1], a);
    }
  }

  // ---- Releases that are accepted twice ---------------------------------------------------------------------

  lemma {:induction false} Then(s: State, a: Act, s': State)
    requires Reachable(s) && Do(s, a) == s'
    ensures Reachable(s')
  {
    Runs.NextIsReached(Init, Step, s, s');
  }

  /** A fresh session with one slot and a ring of two, one command submitted. */
  lemma {:induction false} OneCommand() returns (s: State, t: Token)
    ensures Reachable(s) && s.slots == [Meta(true, t)] && s.stale == [] && s.calls == map[]
    ensures s.lock.Free? && !s.lost && s.fwBoot == s.boot == 1 && t == Token(1, 1, 0) && s.tally == Grant(NO_TALLY, t)
  {
    t := Token(1, 1, 0);
    var none := Token(0, 0, 0);
    var s0 := State([UNUSED], [], 1, 1, 0, true, false, Free, [Cell(none, 0)], 1, [none, none], 0, 0, map[], [], [],
                    [], NO_TALLY);
    assert s0.slots == AllUnused(1);
    Runs.InitialIsReached(Init, Step, s0);
    var s1 := s0.(gen := 2, pool := [Cell(t, PENDING)], log := [Written(t)], slots := [Meta(true, t)],
                  lock := Submitting(PacketNext, t),
                  tally := Grant(NO_TALLY, t));
    assert Do(s0, Reserve(true, true)) == s1 by {
      assert s0.slots[0 := Meta(true, t)] == s1.slots && s0.pool[0 := Cell(t, PENDING)] == s1.pool;
      assert Make(1, 1, 0) == t && Allocate(s0.slots, [], 1, 1, 0) == ([Meta(true, t)], 2, Some(0));
    }
    Then(s0, Reserve(true, true), s1);
    s := Submits(s1, t, none);
  }

  /** A packet for the first entry of a ring of two is copied, and the doorbell rung. */
  lemma {:induction false} Submits(s1: State, t: Token, none: Token) returns (s: State)
    requires Reachable(s1) && s1.lock == Submitting(PacketNext, t) && s1.ring == [none, none] && s1.hostWr == 0
    requires s1.submitted == []
    ensures Reachable(s) && s == s1.(ring := [t, none], wr := 1, submitted := [t], lock := Free, hostWr := 1)
  {
    var s2 := s1.(ring := [t, none], lock := Submitting(DoorbellNext, t));
    assert Do(s1, Packet(true, t)) == s2 by {
      assert s1.ring[0 := t] == s2.ring;
    }
    Then(s1, Packet(true, t), s2);
    s := s2.(wr := 1, submitted := [t], lock := Free, hostWr := 1);
    assert s2.submitted + [t] == [t] && Wrap(1, 2) == 1;
    Then(s2, Doorbell(true, true), s);
  }

  /** Two releases of its token begin. */
  lemma {:induction false} TwoReleases() returns (s: State, t: Token)
    ensures Reachable(s) && s.lock.Free? && !s.lost && s.fwBoot == s.boot == 1 && t.boot == 1
    ensures s.calls == map[1 := ReleaseFound(t), 2 := ReleaseFound(t)] && s.tally == Grant(NO_TALLY, t)
  {
    var s0;
    s0, t := OneCommand();
    var s1 := s0.(calls := map[1 := ReleaseFound(t)]);
    Then(s0, ReleaseBegins(1, t), s1);
    s := s0.(calls := map[1 := ReleaseFound(t), 2 := ReleaseFound(t)]);
    Then(s1, ReleaseBegins(2, t), s);
  }

  lemma {:induction false} ResetStarts(s: State) returns (s': State)
    requires Reachable(s) && s.lock.Free? && !s.lost && s.fwBoot == s.boot == 1
    ensures Reachable(s') && s'.lock.Resetting? && s'.fwBoot == 2 && s'.boot == 1 && s'.calls == s.calls
    ensures s'.tally == s.tally && s'.slots == s.slots && s'.stale == s.stale
  {
    var s1 := s.(ready := false, lock := Resetting);
    Then(s, ResetBegins, s1);
    s' := s1.(fwBoot := 2, rd := 0, wr := 0, submitted := [], taken := []);
    Then(s1, FirmwareReboots(2), s');
  }

  /** A release reads another boot generation than its token's. */
  lemma {:induction false} SeesReboot(s: State, id: nat, t: Token) returns (s': State)
    requires Reachable(s) && id in s.calls && s.calls[id] == ReleaseFound(t) && s.fwBoot % TWO_16 != t.boot
    ensures Reachable(s') && s' == s.(calls := s.calls[id := ReleaseReboot(t)])
  {
    s' := s.(calls := s.calls[id := ReleaseReboot(t)]);
    Then(s, Proceeds(id), s');
  }

  /** Then the firmware reboots, and both releases notice. */
  lemma {:induction false} BothSeeReboot() returns (s: State, t: Token)
    ensures Reachable(s) && s.lock.Resetting? && s.fwBoot == 2 && s.boot == 1
    ensures s.calls == map[1 := ReleaseReboot(t), 2 := ReleaseReboot(t)] && s.tally == Grant(NO_TALLY, t)
  {
    var s0;
    s0, t := TwoReleases();
    var s2 := ResetStarts(s0);
    var s3 := SeesReboot(s2, 1, t);
    s := SeesReboot(s3, 2, t);
  }

  lemma {:induction false} ResetCompletes(s: State) returns (s': State)
    requires Reachable(s) && s.lock.Resetting? && s.fwBoot == 2 && s.boot == 1
    ensures Reachable(s') && s'.lock.Free? && s'.calls == s.calls && s'.tally == s.tally && s'.fwBoot == 2
    ensures s'.slots == AllUnused(|s.slots|) && s'.stale == s.stale + InUse(s.slots)
  {
    s' := Do(s, ResetEnds(true));
    Then(s, ResetEnds(true), s');
  }

  /** A release in the reboot branch ends after the reset, and is accepted. */
  lemma {:induction false} AcceptedAfterReset(s: State, id: nat, t: Token) returns (s': State)
    requires Reachable(s) && s.lock.Free? && !Holds(s.slots, t) && id in s.calls && s.calls[id] == ReleaseReboot(t)
    ensures Reachable(s')
    ensures s' == s.(calls := s.calls[id := ReleaseDone(t, ReleaseAccepted)], tally := Accept(s.tally, t, false))
  {
    s' := s.(calls := s.calls[id := ReleaseDone(t, ReleaseAccepted)], tally := Accept(s.tally, t, false));
    Then(s, Proceeds(id), s');
  }

  /** Two releases of one token, both begun before a reboot, are both accepted. */
  lemma {:induction false} AcceptedTwiceAfterReboot() returns (s: State, t: Token)
    ensures Reachable(s) && s.calls == map[1 := ReleaseDone(t, ReleaseAccepted), 2 := ReleaseDone(t, ReleaseAccepted)]
    ensures s.tally.granted[t] == 1 && s.tally.accepted[t] == 2
  {
    var s0;
    s0, t := BothSeeReboot();
    var s1 := ResetCompletes(s0);
    var s2 := AcceptedAfterReset(s1, 1, t);
    s := AcceptedAfterReset(s2, 2, t);
  }

  /** One release of a token begins, a reset makes the token stale, and the release sees the reboot. */
  lemma {:induction false} OneSpansReset() returns (s: State, t: Token)
    ensures Reachable(s) && s.lock.Free? && s.calls == map[1 := ReleaseReboot(t)] && s.tally == Grant(NO_TALLY, t)
    ensures s.slots == [UNUSED] && s.stale == [t]
  {
    var s0;
    s0, t := OneCommand();
    var s1 := s0.(calls := map[1 := ReleaseFound(t)]);
    Then(s0, ReleaseBegins(1, t), s1);
    var s2 := ResetStarts(s1);
    var s3 := ResetCompletes(s2);
    assert InUse(s2.slots) == [t] by {
      assert s2.slots[..0] == [] && InUse(s2.slots[..0]) == [];
    }
    assert s3.slots == [UNUSED];
    s := SeesReboot(s3, 1, t);
  }

  /** A release that spans a reset is accepted and leaves its token stale, so a second release, begun after
      the first has returned, is accepted as well. */
  lemma {:induction false} AcceptedTwiceInTurn() returns (s0: State, s: State, t: Token)
    ensures Reachable(s0) && s0.calls == map[1 := ReleaseDone(t, ReleaseAccepted)] && s == Do(s0, ReleaseBegins(2, t))
    ensures Reachable(s) && s.calls == map[1 := ReleaseDone(t, ReleaseAccepted), 2 := ReleaseDone(t, ReleaseAccepted)]
    ensures s.tally.granted[t] == 1 && s.tally.accepted[t] == 2
  {
    var s1;
    s1, t := OneSpansReset();
    s0 := AcceptedAfterReset(s1, 1, t);
    s := s0.(stale := Erased(s0.stale, t),
             calls := map[1 := ReleaseDone(t, ReleaseAccepted), 2 := ReleaseDone(t, ReleaseAccepted)],
             tally := Accept(s0.tally, t, true));
    Then(s0, ReleaseBegins(2, t), s);
  }

  // ---- Seen from outside --------------------------------------------------------------------------------------

  lemma {:induction false} OnlyWrites(h: State, a: Act)
    requires !a.Publish?
    ensures h.log <= Do(h, a).log
    ensures forall j | |h.log| <= j < |Do(h, a).log| :: Do(h, a).log[j].Written?
  {
  }

  lemma {:induction false} OnlyTaking(h: State, a: Act)
    requires !a.TakePacket? && Do(h, a).fwBoot == h.fwBoot
    ensures Do(h, a).taken == h.taken
  {
  }

  lemma {:induction false} PacketIsThere(h: State)
    requires Reachable(h) && |h.taken| < |h.submitted|
    ensures var h' := DoTake(h);
            Reachable(h') && |h'.taken| == |h.taken| + 1 && h'.submitted == h.submitted && h'.log == h.log
  {
    RingIsFifo(h);
    Then(h, TakePacket, DoTake(h));
  }

  lemma {:induction false} RebootReached(h: State, boot: nat)
    requires Reachable(h) && h.lock.Resetting? && boot != 0 && boot != h.fwBoot
    ensures var h' := DoReboot(h, boot); Reachable(h') && h'.taken == [] && h'.submitted == [] && h'.log == h.log
  {
    Then(h, FirmwareReboots(boot), DoReboot(h, boot));
  }

  lemma {:induction false} PublishReached(h: State, t: Token, r: nat)
    requires Reachable(h)
    ensures Reachable(DoPublish(h, t, r))
  {
    Then(h, Publish(t, r), DoPublish(h, t, r));
  }

  lemma {:induction false} DoorbellReached(h: State, took: bool, reported: bool)
    requires Reachable(h)
    ensures var h' := DoDoorbell(h, took, reported); Reachable(h') && h'.log == h.log && h'.taken == h.taken
  {
    Then(h, Doorbell(took, reported), DoDoorbell(h, took, reported));
  }

  lemma {:induction false} PublishAdds(h: State, t: Token, r: nat)
    ensures var h' := DoPublish(h, t, r);
            && h'.taken == h.taken && h'.submitted == h.submitted
            && (h'.log == h.log || h'.log == h.log + [Published(t, r)])
  {
  }

  /** Event `j` is the last one of slot `i` among the first `seen`. */
  predicate LastOf(log: seq<Event>, seen: nat, i: nat, j: nat) {
    j < seen <= |log| && log[j].token.slot == i && forall k | j < k < seen :: log[k].token.slot != i
  }

  lemma {:induction false} LastIndex(log: seq<Event>, seen: nat, i: nat) returns (j: nat)
    requires seen <= |log| && LastAt(log[..seen], i).Some?
    ensures LastOf(log, seen, i, j) && log[j] == LastAt(log[..seen], i).value
  {
    var part := log[..seen];
    if part[seen - 1].token.slot == i {
      j := seen - 1;
    } else {
      assert part[..seen - 1] == log[..seen - 1];
      j := LastIndex(log, seen - 1, i);
    }
  }
}
