/** How often a token's release is accepted, over every run. */
module HostAccounts {
  import opened HostProtocol
  import opened HostTheorems
  import opened HostTokens
  import opened Options
  import Runs
  import opened Tokens

  /** One when the token still holds its slot or is stale: its release is yet to be accepted. */
  function Owed(s: State, t: Token): nat {
    (if Holds(s.slots, t) then 1 else 0) + (if t in s.stale then 1 else 0)
  }

  predicate Balance(s: State, t: Token) {
    s.tally.accepted[t] + s.tally.undone[t] + Owed(s, t) == s.tally.granted[t] + s.tally.unheld[t]
  }

  ghost predicate Balanced(s: State) {
    OwnOk(s) && forall t :: Balance(s, t)
  }

  // ---- Conservation ---------------------------------------------------------------------------

  lemma {:induction false} ReserveBalance(s: State, written: bool, reported: bool, t: Token)
    requires OwnOk(s) && Balance(s, t)
    ensures Balance(DoReserve(s, written, reported), t)
  {
    AllocateOk(s.slots, s.stale, s.boot, s.gen, 0);
    var (slots, gen, k) := Allocate(s.slots, s.stale, s.boot, s.gen, 0);
    if k.Some? {
      assert MetaOk(slots, k.value);
      assert Holds(slots, t) <==> Holds(s.slots, t) || t == slots[k.value].token;
    }
  }

  lemma {:induction false} PacketBalance(s: State, ok: bool, junk: Token, t: Token)
    requires OwnOk(s) && Balance(s, t)
    ensures Balance(DoPacket(s, ok, junk), t)
  {
    if s.lock.Submitting? {
      FreedOk(s.slots, s.stale, s.lock.token, t);
      NotBoth(s, s.lock.token);
    }
  }

  lemma {:induction false} NotBoth(s: State, t: Token)
    requires OwnOk(s)
    ensures Owed(s, t) <= 1
  {
    if t in s.stale {
      var i :| 0 <= i < |s.stale| && s.stale[i] == t;
    }
  }

  lemma {:induction false} ResetBalance(s: State, ok: bool, t: Token)
    requires OwnOk(s) && Balance(s, t)
    ensures Balance(DoResetEnds(s, ok), t)
  {
    ResetOk(s.slots, s.stale);
    NotBoth(s, t);
    assert !Holds(AllUnused(|s.slots|), t);
  }

  lemma {:induction false} ReleaseBalance(s: State, id: nat, u: Token, t: Token)
    requires OwnOk(s) && Balance(s, t)
    ensures Balance(DoReleaseBegins(s, id, u), t)
  {
    if u in s.stale {
      ErasedOk(s.slots, s.stale, u);
      NotBoth(s, u);
    }
  }

  lemma {:induction false} ProceedBalance(s: State, id: nat, t: Token)
    requires OwnOk(s) && Balance(s, t)
    ensures Balance(DoProceeds(s, id), t)
  {
    if id in s.calls {
      FreedOk(s.slots, s.stale, s.calls[id].token, t);
    }
  }

  lemma {:induction false} BalanceStep(s: State, a: Act, t: Token)
    requires OwnOk(s) && Balance(s, t)
    ensures Balance(Do(s, a), t)
  {
    match a
    case Reserve(written, reported) => ReserveBalance(s, written, reported, t);
    case Packet(ok, junk) => PacketBalance(s, ok, junk, t);
    case ResetEnds(ok) => ResetBalance(s, ok, t);
    case ReleaseBegins(id, u) => ReleaseBalance(s, id, u, t);
    case Proceeds(id) => ProceedBalance(s, id, t);
    case _ =>
  }

  lemma {:induction false} ReachableBalance(s: State)
    requires Reachable(s)
    ensures Balanced(s)
  {
    forall s | Init(s) ensures Balanced(s) {
      InitInv(s);
    }
    forall s, s' | Balanced(s) && Step(s, s') ensures Balanced(s') {
      var a :| s' == Do(s, a);
      OwnStep(s, a);
      forall t ensures Balance(s', t) {
        assert Balance(s, t);
        BalanceStep(s, a, t);
      }
    }
    Runs.HoldsWhenReached(Init, Step, Balanced, s);
  }

  // ---- Once for each grant ----------------------------------------------------------------------

  /** Call `id` is a release of `t` in the reboot branch, and `t` holds no slot any more. */
  predicate Unheld(s: State, id: nat, t: Token) {
    id in s.calls && s.calls[id] == ReleaseReboot(t) && s.lock.Free? && !Holds(s.slots, t)
  }

  /** Such a release ends. */
  ghost predicate EndsUnheld(s: State, s': State, t: Token) {
    exists id :: Unheld(s, id, t) && s' == DoProceeds(s, id)
  }

  lemma {:induction false} ProceedUnheld(s: State, id: nat, t: Token)
    ensures DoProceeds(s, id).tally.unheld[t] == s.tally.unheld[t] + if Unheld(s, id, t) then 1 else 0
  {
  }

  lemma {:induction false} RestUnheld(s: State, a: Act, t: Token)
    requires !a.Proceeds?
    ensures Do(s, a).tally.unheld[t] == s.tally.unheld[t]
  {
  }

  lemma {:induction false} UnheldStep(s: State, a: Act, t: Token)
    ensures Do(s, a).tally.unheld[t] == s.tally.unheld[t] + if EndsUnheld(s, Do(s, a), t) then 1 else 0
  {
    var s' := Do(s, a);
    forall id ensures DoProceeds(s, id).tally.unheld[t] == s.tally.unheld[t] + if Unheld(s, id, t) then 1 else 0 {
      ProceedUnheld(s, id, t);
    }
    if a.Proceeds? {
      assert s' == DoProceeds(s, a.id);
    } else {
      RestUnheld(s, a, t);
    }
  }

  lemma {:induction false} UnheldOfRun(run: seq<State>, n: nat, t: Token)
    requires Runs.IsRun(Init, Step, run) && n < |run|
    ensures run[n].tally.unheld[t] == 0 <==> forall k | 0 <= k < n :: !EndsUnheld(run[k], run[k + 1], t)
  {
    if n > 0 {
      UnheldOfRun(run, n - 1, t);
      assert Runs.StepAt(Step, run, n - 1);
      var a :| run[n] == Do(run[n - 1], a);
      UnheldStep(run[n - 1], a, t);
      assert run[n - 1 + 1] == run[n];
    }
  }

  /** Along every run, each grant of a token that its submission kept is accepted once or still owed, exactly
      when no release of the token ends in the reboot branch without its slot. Every such ending is one
      acceptance too many. */
  lemma {:induction false} AcceptedOncePerGrant(run: seq<State>, n: nat, t: Token)
    requires Runs.IsRun(Init, Step, run) && n < |run|
    ensures var y := run[n].tally;
            && Owed(run[n], t) <= 1
            && y.accepted[t] + y.undone[t] + Owed(run[n], t) == y.granted[t] + y.unheld[t]
            && (y.accepted[t] + y.undone[t] + Owed(run[n], t) <= y.granted[t]
                <==> forall k | 0 <= k < n :: !EndsUnheld(run[k], run[k + 1], t))
            && (y.accepted[t] + y.undone[t] <= y.granted[t] <==> y.unheld[t] <= Owed(run[n], t))
  {
    Runs.PrefixIsReached(Init, Step, run, n);
    ReachableBalance(run[n]);
    assert Balance(run[n], t);
    NotBoth(run[n], t);
    UnheldOfRun(run, n, t);
  }

  // ---- What a caller does about it --------------------------------------------------------------

  predicate LastAccess(c: Call) {
    c.ReleaseEnd? || c.ReleaseReboot?
  }

  /** A release that has begun and not returned. */
  predicate Open(c: Call) {
    c.ReleaseFound? || c.ReleaseSame? || LastAccess(c)
  }

  predicate Releasing(s: State, id: nat, t: Token) {
    id in s.calls && s.calls[id].token == t && Open(s.calls[id])
  }

  /** The caller begins no release of `t` and completes no reset while a release of `t` is under way. */
  ghost predicate Orderly(s: State, a: Act, t: Token) {
    (a.ReleaseBegins? && a.token == t) || a == ResetEnds(true) ==> forall id :: !Releasing(s, id, t)
  }

  ghost predicate OrderlyStep(s: State, s': State, t: Token) {
    exists a :: s' == Do(s, a) && Orderly(s, a, t)
  }

  ghost predicate ReleasesOk(s: State, t: Token) {
    && (forall id | Releasing(s, id, t) :: Holds(s.slots, t) && !(s.lock.Submitting? && s.lock.token == t))
    && (forall id, id' | Releasing(s, id, t) && Releasing(s, id', t) :: id == id')
    && s.tally.unheld[t] == 0
  }

  lemma {:induction false} AfterOpen(s: State, c: Call)
    ensures After(s, c).token == c.token
    ensures Open(After(s, c)) ==> Open(c) && !LastAccess(c)
  {
  }

  lemma {:induction false} ReleaseMoves(s: State, id: nat, t: Token)
    requires Releasing(DoProceeds(s, id), id, t)
    ensures Releasing(s, id, t) && (s.lock.Free? ==> !LastAccess(s.calls[id]))
  {
    AfterOpen(s, s.calls[id]);
  }

  lemma {:induction false} StillReleasing(s: State, a: Act, id: nat, t: Token)
    requires Releasing(Do(s, a), id, t)
    ensures Releasing(s, id, t) || (a == ReleaseBegins(id, t) && Holds(s.slots, t) && s.lock.Free?)
    ensures Releasing(s, id, t) && s.lock.Free? && a == Proceeds(id) ==> !LastAccess(s.calls[id])
  {
    if a == Proceeds(id) {
      ReleaseMoves(s, id, t);
    } else if Mover(a) != Some(id) {
      OnlyMoverMoves(s, a, id);
    }
  }

  lemma {:induction false} StaysUsable(s: State, a: Act, id: nat, t: Token)
    requires OwnOk(s) && ReleasesOk(s, t) && Orderly(s, a, t) && Releasing(Do(s, a), id, t)
    ensures Holds(Do(s, a).slots, t) && !(Do(s, a).lock.Submitting? && Do(s, a).lock.token == t)
  {
    StillReleasing(s, a, id, t);
    match a
    case Reserve(_, _) =>
      AllocateOk(s.slots, s.stale, s.boot, s.gen, 0);
      var (slots, gen, k) := Allocate(s.slots, s.stale, s.boot, s.gen, 0);
      if k.Some? {
        assert slots[t.slot] == s.slots[t.slot] && slots[k.value].token != t;
      }
    case Packet(_, _) =>
      if s.lock.Submitting? {
        FreedOk(s.slots, s.stale, s.lock.token, t);
      }
    case Proceeds(i) =>
      if i in s.calls {
        FreedOk(s.slots, s.stale, s.calls[i].token, t);
        assert Releasing(s, i, t) ==> i == id;
      }
    case _ =>
  }

  lemma {:induction false} OrderlyStepOk(s: State, a: Act, t: Token)
    requires OwnOk(s) && ReleasesOk(s, t) && Orderly(s, a, t)
    ensures ReleasesOk(Do(s, a), t)
  {
    var s' := Do(s, a);
    forall id | Releasing(s', id, t) ensures Holds(s'.slots, t) && !(s'.lock.Submitting? && s'.lock.token == t) {
      StaysUsable(s, a, id, t);
    }
    forall id, id' | Releasing(s', id, t) && Releasing(s', id', t) ensures id == id' {
      StillReleasing(s, a, id, t);
      StillReleasing(s, a, id', t);
    }
    UnheldStep(s, a, t);
    if EndsUnheld(s, s', t) {
      var id :| Unheld(s, id, t) && s' == DoProceeds(s, id);
      assert Releasing(s, id, t);
    }
  }

  /** When no release of a token overlaps another one of it or the end of a reset, every grant of the token
      is accepted at most once, and once exactly when nothing is owed on it any more. */
  lemma {:induction false} OrderlyCallersReleaseOnce(s: State, t: Token)
    requires Runs.Reachable(Init, (s: State, s': State) => OrderlyStep(s, s', t), s)
    ensures s.tally.accepted[t] + s.tally.undone[t] + Owed(s, t) == s.tally.granted[t]
  {
    var next := (s: State, s': State) => OrderlyStep(s, s', t);
    var inv := (s: State) => OwnOk(s) && ReleasesOk(s, t) && Balance(s, t);
    forall s | Init(s) ensures inv(s) {
      InitInv(s);
    }
    forall s, s' | inv(s) && next(s, s') ensures inv(s') {
      var a :| s' == Do(s, a) && Orderly(s, a, t);
      OwnStep(s, a);
      OrderlyStepOk(s, a, t);
      BalanceStep(s, a, t);
    }
    Runs.HoldsWhenReached(Init, next, inv, s);
  }
}
