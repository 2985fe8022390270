/** What a poll and a release answer, over every run: each answer is accounted for by what the call met
    between its first access and its last. */
module HostCalls {
  import opened HostProtocol
  import opened HostTheorems
  import opened HostTokens
  import opened Options
  import Runs
  import opened Tokens

  // ---- What a call may meet -----------------------------------------------------------------------

  predicate SameBoot(s: State, t: Token) {
    s.fwBoot % TWO_16 == t.boot
  }

  /** What the history of the pool says of a token: the last event of its slot is a result for it, or
      its pending word, or is of another token. */
  function Told(log: seq<Event>, t: Token): PollStatus {
    match LastAt(log, t.slot)
    case Some(Published(u, result)) => if u == t then PollTerminal(result) else PollInvalid
    case Some(Written(u)) => if u == t then PollPending else PollInvalid
    case None => PollInvalid
  }

  /** Call `id` begins in the step from `run[b]` and goes on through `run[n]`. */
  ghost predicate Open(run: seq<State>, id: nat, b: nat, n: nat) {
    b < n < |run| && id !in run[b].calls && forall k | b < k <= n :: id in run[k].calls
  }

  /** The firmware was in the token's boot generation in a state between `run[b]` and `run[n]`. */
  ghost predicate SawSame(run: seq<State>, b: nat, n: nat, t: Token) {
    exists c | b < c < n < |run| :: SameBoot(run[c], t)
  }

  ghost predicate SawOther(run: seq<State>, b: nat, n: nat, t: Token) {
    exists c | b < c < n < |run| :: !SameBoot(run[c], t)
  }

  /** After that, in another such state, the pool told `status` of the token. */
  ghost predicate ReadAs(run: seq<State>, b: nat, n: nat, t: Token, status: PollStatus) {
    exists d | b < d < n < |run| :: SawSame(run, b, d, t) && status == Told(run[d].log, t)
  }

  lemma {:induction false} ReadIsTold(s: State, t: Token)
    requires LogOk(s) && LastAt(s.log, t.slot).Some? && t.slot < |s.pool|
    ensures ReadSlot(s, t) == Told(s.log, t)
  {
    assert CellOk(s, t.slot);
    LastPending(s.log, t.slot);
  }

  lemma {:induction false} ToldIsNoReboot(s: State, t: Token)
    requires LogOk(s)
    ensures Told(s.log, t) != PollTerminal(REBOOTED)
  {
    LastPending(s.log, t.slot);
    forall j: nat | j < |s.log| && s.log[j].Published? ensures s.log[j].result != REBOOTED {
      assert EventOk(s.log, j);
    }
  }

  // ---- One step of a call ---------------------------------------------------------------------------

  predicate IsPoll(c: Call) {
    c.PollFound? || c.PollSame? || c.PollDone?
  }

  predicate PollStarts(s: State, c: Call) {
    var t := c.token;
    if Holds(s.slots, t) then c == PollFound(t)
    else c.PollDone? && c.poll == if t in s.stale then PollTerminal(REBOOTED) else PollInvalid
  }

  predicate ReleaseStarts(s: State, s': State, c: Call) {
    var t := c.token;
    if t in s.stale then c == ReleaseDone(t, ReleaseAccepted) && t !in s'.stale
    else if Holds(s.slots, t) then c == ReleaseFound(t)
    else c == ReleaseDone(t, ReleaseInvalid)
  }

  lemma {:induction false} CallStarts(s: State, a: Act, id: nat)
    requires OwnOk(s) && id !in s.calls && id in Do(s, a).calls
    ensures var c := Do(s, a).calls[id]; if IsPoll(c) then PollStarts(s, c) else ReleaseStarts(s, Do(s, a), c)
  {
    if Mover(a) != Some(id) {
      OnlyMoverMoves(s, a, id);
    } else if a.ReleaseBegins? && a.token in s.stale {
      ErasedOk(s.slots, s.stale, a.token);
    }
  }

  /** A call that goes on stays as it is or moves to where its next access takes it; a release that ends
      by taking the lock leaves its token without a slot. */
  lemma {:induction false} CallMoves(s: State, a: Act, id: nat)
    requires OwnOk(s) && id in s.calls && id in Do(s, a).calls
    ensures var (c, c') := (s.calls[id], Do(s, a).calls[id]);
            || c' == c
            || (c' == After(s, c) && (c.ReleaseEnd? || c.ReleaseReboot? ==> !Holds(Do(s, a).slots, c.token)))
  {
    if Mover(a) != Some(id) {
      OnlyMoverMoves(s, a, id);
    } else if a.Proceeds? {
      FreedOk(s.slots, s.stale, s.calls[id].token, s.calls[id].token);
    }
  }

  lemma {:induction false} PoolStays(s: State, a: Act)
    ensures |Do(s, a).pool| == |s.pool|
  {
    if a.Reserve? {
      ReserveKeepsPool(s, a.written, a.reported);
    }
  }

  lemma {:induction false} ReserveKeepsPool(s: State, written: bool, reported: bool)
    ensures |DoReserve(s, written, reported).pool| == |s.pool|
  {
    var (slots, gen, k) := Allocate(s.slots, s.stale, s.boot, s.gen, 0);
    if k.Some? && k.value < |s.pool| && k.value < |slots| {
      assert |s.pool[k.value := Cell(slots[k.value].token, PENDING)]| == |s.pool|;
    }
  }

  ghost predicate Moved(s: State, s': State, id: nat)
    requires id in s'.calls
  {
    var c' := s'.calls[id];
    && |s'.pool| == |s.pool| && OwnOk(s) && LogOk(s)
    && if id in s.calls then
         var c := s.calls[id];
         && CallOk(s, c)
         && (|| c' == c
             || (c' == After(s, c) && (c.ReleaseEnd? || c.ReleaseReboot? ==> !Holds(s'.slots, c.token))))
       else if IsPoll(c') then PollStarts(s, c') else ReleaseStarts(s, s', c')
  }

  lemma {:induction false} StepMoves(s: State, s': State, id: nat)
    requires Reachable(s) && Step(s, s') && id in s'.calls
    ensures Moved(s, s', id)
  {
    ReachableInv(s);
    var a: Act :| s' == Do(s, a);
    PoolStays(s, a);
    if id in s.calls {
      CallMoves(s, a, id);
    } else {
      CallStarts(s, a, id);
    }
  }

  lemma {:induction false} RunMoves(run: seq<State>, n: nat, id: nat)
    requires Runs.IsRun(Init, Step, run) && n < |run| && id in run[n].calls
    ensures n > 0 && Moved(run[n - 1], run[n], id)
  {
    BeginsWithoutCalls(run);
    Runs.StepIsTaken(Init, Step, run, n - 1);
    StepMoves(run[n - 1], run[n], id);
  }

  lemma {:induction false} BeginsWithoutCalls(run: seq<State>)
    requires Runs.IsRun(Init, Step, run)
    ensures run[0].calls == map[]
  {
    assert Init(run[0]);
  }

  /** What was met before `run[n]` was met before the next state too. */
  lemma {:induction false} MetBefore(run: seq<State>, b: nat, n: nat, t: Token)
    requires b < n < |run| - 1
    ensures SawSame(run, b, n, t) || SameBoot(run[n], t) ==> SawSame(run, b, n + 1, t)
    ensures SawOther(run, b, n, t) || !SameBoot(run[n], t) ==> SawOther(run, b, n + 1, t)
  {
    if SawSame(run, b, n, t) {
      var c :| b < c < n < |run| && SameBoot(run[c], t);
      assert b < c < n + 1;
    }
    if SawOther(run, b, n, t) {
      var c :| b < c < n < |run| && !SameBoot(run[c], t);
      assert b < c < n + 1;
    }
  }

  lemma {:induction false} ReadBefore(run: seq<State>, b: nat, n: nat, t: Token, status: PollStatus)
    requires b < n < |run| - 1
    requires ReadAs(run, b, n, t, status) || (SawSame(run, b, n, t) && status == Told(run[n].log, t))
    ensures ReadAs(run, b, n + 1, t, status)
  {
    if ReadAs(run, b, n, t, status) {
      var d :| b < d < n < |run| && SawSame(run, b, d, t) && status == Told(run[d].log, t);
      assert b < d < n + 1;
    } else {
      assert b < n < n + 1;
    }
  }

  // ---- Polls ------------------------------------------------------------------------------------------

  /** How a poll that began at `run[b]` may stand at `run[n]`. */
  ghost predicate PollStands(run: seq<State>, b: nat, n: nat, c: Call) {
    b < n < |run|
    && match c
       case PollFound(t) => Holds(run[b].slots, t) && t.slot < |run[n].pool|
       case PollSame(t) => Holds(run[b].slots, t) && t.slot < |run[n].pool| && SawSame(run, b, n, t)
       case PollDone(t, poll, _) =>
         if Holds(run[b].slots, t)
         then (poll == PollTerminal(REBOOTED) && SawOther(run, b, n, t)) || ReadAs(run, b, n, t, poll)
         else poll == if t in run[b].stale then PollTerminal(REBOOTED) else PollInvalid
       case _ => false
  }

  lemma {:induction false} PollGoesOn(run: seq<State>, b: nat, n: nat, c: Call, c': Call)
    requires n + 1 < |run| && PollStands(run, b, n, c) && LogOk(run[n]) && CallOk(run[n], c)
    requires |run[n + 1].pool| == |run[n].pool| && (c' == c || c' == After(run[n], c))
    ensures PollStands(run, b, n + 1, c')
  {
    var t := c.token;
    MetBefore(run, b, n, t);
    if c.PollSame? {
      ReadIsTold(run[n], t);
      ReadBefore(run, b, n, t, Told(run[n].log, t));
    } else if c.PollDone? && ReadAs(run, b, n, t, c.poll) {
      ReadBefore(run, b, n, t, c.poll);
    }
  }

  /** A poll of a token its host holds ends "rebooted" only after it met another boot generation, or else
      with what the pool told after it met the token's own; a poll of a stale token ends "rebooted", and of
      any other token invalid. */
  lemma {:induction false} PollAnswer(run: seq<State>, n: nat, id: nat) returns (b: nat)
    requires Runs.IsRun(Init, Step, run) && n < |run| && id in run[n].calls && IsPoll(run[n].calls[id])
    ensures Open(run, id, b, n) && PollStands(run, b, n, run[n].calls[id])
  {
    RunMoves(run, n, id);
    if id in run[n - 1].calls {
      b := PollAnswer(run, n - 1, id);
      PollGoesOn(run, b, n - 1, run[n - 1].calls[id], run[n].calls[id]);
    } else {
      b := n - 1;
    }
  }

  lemma {:induction false} NeverReadAsReboot(run: seq<State>, b: nat, n: nat, t: Token)
    requires Runs.IsRun(Init, Step, run)
    ensures !ReadAs(run, b, n, t, PollTerminal(REBOOTED))
  {
    forall d | b < d < n < |run| ensures Told(run[d].log, t) != PollTerminal(REBOOTED) {
      assert LogOk(run[d]) by {
        Runs.PrefixIsReached(Init, Step, run, d);
        ReachableInv(run[d]);
      }
      ToldIsNoReboot(run[d], t);
    }
  }

  /** So a poll says "rebooted" only of a token that was stale when the poll began, or after the firmware was
      in another boot generation while the poll was on. A poll of a token that held its slot, while the
      firmware stays in the token's boot generation, ends with a result exactly when that result is the last
      event of the slot at the poll's read, and ends pending exactly when that is the token's own pending
      word. */
  lemma {:induction false} PollReadsTheSlot(run: seq<State>, n: nat, id: nat) returns (b: nat, d: nat)
    requires Runs.IsRun(Init, Step, run) && n < |run| && id in run[n].calls && run[n].calls[id].PollDone?
    ensures Open(run, id, b, n)
    ensures PollReported(run, b, d, n, run[n].calls[id])
  {
    var PollDone(t, poll, _) := run[n].calls[id];
    b := PollAnswer(run, n, id);
    NeverReadAsReboot(run, b, n, t);
    d := b;
    if ReadAs(run, b, n, t, poll) {
      d :| b < d < n < |run| && SawSame(run, b, d, t) && poll == Told(run[d].log, t);
    }
  }

  ghost predicate PollReported(run: seq<State>, b: nat, d: nat, n: nat, c: Call)
    requires b < n < |run| && c.PollDone?
  {
    var PollDone(t, poll, _) := c;
    && (poll == PollTerminal(REBOOTED) ==> t in run[b].stale || SawOther(run, b, n, t))
    && (!Holds(run[b].slots, t) ==> poll == if t in run[b].stale then PollTerminal(REBOOTED) else PollInvalid)
    && (Holds(run[b].slots, t) && (forall k | b < k < n :: SameBoot(run[k], t)) ==>
          && b < d < n
          && (forall r :: poll == PollTerminal(r) <==> LastAt(run[d].log, t.slot) == Some(Published(t, r)))
          && (poll == PollPending <==> LastAt(run[d].log, t.slot) == Some(Written(t))))
  }

  // ---- Releases ---------------------------------------------------------------------------------------

  /** The step from `run[e]` is the last access of a release: it is accepted if another boot generation was
      met before or if the token still holds its slot, and leaves the token without one. */
  ghost predicate EndsIn(run: seq<State>, b: nat, e: nat, t: Token, release: ReleaseStatus) {
    && e + 1 < |run| && !Holds(run[e + 1].slots, t)
    && (|| (SawOther(run, b, e, t) && release == ReleaseAccepted)
        || (HasResult(run, b, e, t) && release == if Holds(run[e].slots, t) then ReleaseAccepted else ReleaseInvalid))
  }

  ghost predicate Ends(run: seq<State>, b: nat, n: nat, t: Token, release: ReleaseStatus) {
    exists e | b < e < n :: EndsIn(run, b, e, t, release)
  }

  ghost predicate HasResult(run: seq<State>, b: nat, n: nat, t: Token) {
    exists r :: ReadAs(run, b, n, t, PollTerminal(r))
  }

  /** How a release that began at `run[b]` may stand at `run[n]`. */
  ghost predicate ReleaseStands(run: seq<State>, b: nat, n: nat, c: Call) {
    b < n < |run| && !IsPoll(c)
    && if c.token in run[b].stale then c == ReleaseDone(c.token, ReleaseAccepted) && c.token !in run[b + 1].stale
       else if !Holds(run[b].slots, c.token) then c == ReleaseDone(c.token, ReleaseInvalid)
       else c.token.slot < |run[n].pool| && Releasing(run, b, n, c)
  }

  ghost predicate Releasing(run: seq<State>, b: nat, n: nat, c: Call)
    requires b < n < |run|
  {
    match c
    case ReleaseFound(t) => true
    case ReleaseSame(t) => SawSame(run, b, n, t)
    case ReleaseReboot(t) => SawOther(run, b, n, t)
    case ReleaseEnd(t, _) => HasResult(run, b, n, t)
    case ReleaseDone(t, release) =>
      || (release == ReleasePending && ReadAs(run, b, n, t, PollPending))
      || (release == ReleaseInvalid && ReadAs(run, b, n, t, PollInvalid))
      || Ends(run, b, n, t, release)
    case _ => false
  }

  lemma {:induction false} ResultBefore(run: seq<State>, b: nat, n: nat, t: Token)
    requires b < n < |run| - 1 && HasResult(run, b, n, t)
    ensures HasResult(run, b, n + 1, t)
  {
    var r :| ReadAs(run, b, n, t, PollTerminal(r));
    ReadBefore(run, b, n, t, PollTerminal(r));
  }

  lemma {:induction false} EndBefore(run: seq<State>, b: nat, n: nat, t: Token, release: ReleaseStatus)
    requires b < n < |run| - 1 && Ends(run, b, n, t, release)
    ensures Ends(run, b, n + 1, t, release)
  {
    var e :| b < e < n && EndsIn(run, b, e, t, release);
    assert b < e < n + 1;
  }

  lemma {:induction false} ReleaseStays(run: seq<State>, b: nat, n: nat, c: Call)
    requires b < n < |run| - 1 && Releasing(run, b, n, c)
    ensures Releasing(run, b, n + 1, c)
  {
    MetBefore(run, b, n, c.token);
    if c.ReleaseEnd? {
      ResultBefore(run, b, n, c.token);
    } else if c.ReleaseDone? {
      if Ends(run, b, n, c.token, c.release) {
        EndBefore(run, b, n, c.token, c.release);
      } else {
        ReadBefore(run, b, n, c.token, if c.release == ReleasePending then PollPending else PollInvalid);
      }
    }
  }

  lemma {:induction false} ReleaseReads(run: seq<State>, b: nat, n: nat, c: Call)
    requires n + 1 < |run| && b < n && c.ReleaseSame? && SawSame(run, b, n, c.token)
    requires LogOk(run[n]) && CallOk(run[n], c) && c.token.slot < |run[n].pool|
    ensures Releasing(run, b, n + 1, After(run[n], c))
  {
    ReadIsTold(run[n], c.token);
    ReadBefore(run, b, n, c.token, Told(run[n].log, c.token));
  }

  lemma {:induction false} ReleaseEnds(run: seq<State>, b: nat, n: nat, c: Call)
    requires n + 1 < |run| && b < n && (c.ReleaseEnd? || c.ReleaseReboot?) && Releasing(run, b, n, c)
    requires !Holds(run[n + 1].slots, c.token)
    ensures Releasing(run, b, n + 1, After(run[n], c))
  {
    assert EndsIn(run, b, n, c.token, After(run[n], c).release);
  }

  lemma {:induction false} ReleaseGoesOn(run: seq<State>, b: nat, n: nat, c: Call, c': Call)
    requires n + 1 < |run| && ReleaseStands(run, b, n, c) && LogOk(run[n]) && CallOk(run[n], c)
    requires |run[n + 1].pool| == |run[n].pool|
    requires c' == c || (c' == After(run[n], c)
                         && (c.ReleaseEnd? || c.ReleaseReboot? ==> !Holds(run[n + 1].slots, c.token)))
    ensures ReleaseStands(run, b, n + 1, c')
  {
    if Holds(run[b].slots, c.token) && c.token !in run[b].stale {
      if c' == c {
        ReleaseStays(run, b, n, c);
      } else if c.ReleaseFound? {
        MetBefore(run, b, n, c.token);
      } else if c.ReleaseSame? {
        ReleaseReads(run, b, n, c);
      } else {
        ReleaseEnds(run, b, n, c);
      }
    }
  }

  /** A release of a stale token is accepted and the token is stale no more; of a token that holds no slot it
      is invalid. Otherwise it is pending or invalid when the pool told so in the token's boot generation, is
      accepted after it met another boot generation, and after it read a result is accepted exactly when the
      token still holds its slot; once it ends so, the token holds none. */
  lemma {:induction false} ReleaseAnswer(run: seq<State>, n: nat, id: nat) returns (b: nat)
    requires Runs.IsRun(Init, Step, run) && n < |run| && id in run[n].calls && !IsPoll(run[n].calls[id])
    ensures Open(run, id, b, n) && ReleaseStands(run, b, n, run[n].calls[id])
  {
    RunMoves(run, n, id);
    if id in run[n - 1].calls {
      b := ReleaseAnswer(run, n - 1, id);
      ReleaseGoesOn(run, b, n - 1, run[n - 1].calls[id], run[n].calls[id]);
    } else {
      b := n - 1;
    }
  }
}
