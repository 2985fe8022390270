/** A launch together with the work-group initializers of its SMs, from the warps to the published
    result. */
module EndToEnd {
  import Launch
  import LaunchTheorems
  import Runs
  import Tokens
  import WgInvariant
  import WgOutcomes
  import WgPasses
  import WgScheduler
  import WgTheorems

  /** A delivery of the initializer of one SM. */
  datatype Origin = Origin(sm: nat, delivery: nat)

  /** `threads` and `kernelPc` are what every work-group of the launch is enqueued with; its info pointer is
      its WGI slot. `lost` is set when an initializer hands back a work-group that no slot waits for. The
      last four fields are history: the SMs when the launch began, and where the completions waiting in
      dequeue registers, the one the retire task has in hand, and the counted ones came from. */
  datatype State = State(
    launch: Launch.State, sms: seq<WgScheduler.State>, kernelPc: nat, threads: nat, lost: bool,
    began: seq<WgScheduler.State>, waiting: map<nat, Origin>, hand: Origin, origins: seq<Origin>)

  /** The dequeue registers show a completion record; status 0 is okay and 1 is an exception. */
  function Shown(r: WgScheduler.Report): Launch.Completion {
    Launch.Completion(if r.status.Okay? then 0 else 1, r.mcause, r.mepc, r.mtval)
  }

  // ---- Steps ------------------------------------------------------------------------------------

  /** The dispatch task moves, except for handing a work-group over. */
  ghost predicate DispatchMoves(c: State, c': State) {
    !c.launch.dispatch.LEnqueue? && Launch.DispatchStep(c.launch, c'.launch) && c' == c.(launch := c'.launch)
  }

  ghost predicate RetireMoves(c: State, c': State) {
    Launch.RetireStep(c.launch, c'.launch)
    && c' == c.(launch := c'.launch,
                hand := if c.launch.retire.RLook? && c.launch.retire.w in c.waiting then c.waiting[c.launch.retire.w]
                        else c.hand,
                origins := if |c'.launch.retired| > |c.launch.retired| then c.origins + [c.hand] else c.origins)
  }

  /** ENQ_VALID: the work-group enters the dispatch FIFO of its SM. */
  ghost predicate Enqueues(c: State, c': State) {
    c.launch.dispatch.LEnqueue? && c.launch.dispatch.sm < |c.sms| && Launch.DispatchStep(c.launch, c'.launch)
    && (var sm, g := c.launch.dispatch.sm, WgScheduler.Group(c.kernelPc, c.launch.dispatch.w, c.threads);
        var s := c.sms[sm];
        s.threadsPerWarp > 0 && WgScheduler.WarpCount(s, g) <= |s.core| && |s.dispatch| < s.fifoSize
        && c' == c.(launch := c'.launch,
                    sms := c.sms[sm := s.(dispatch := s.dispatch + [g], enqueued := s.enqueued + [g])]))
  }

  function Consumed(s: WgScheduler.State): int {
    |s.delivered| - |s.dequeue|
  }

  /** An SM moves by itself: its core, or a part of a pass of its initializer. */
  ghost predicate SmMoves(c: State, c': State) {
    exists i: nat, s' | i < |c.sms| ::
      WgTheorems.Step(c.sms[i], s') && s'.enqueued == c.sms[i].enqueued && Consumed(s') == Consumed(c.sms[i])
      && c' == c.(sms := c.sms[i := s'])
  }

  /** DEQ_VALID: the oldest report of an SM moves to its dequeue registers. */
  ghost predicate Dequeues(c: State, c': State) {
    exists i: nat | i < |c.sms| :: c.sms[i].dequeue != [] && c' == Dequeued(c, i)
  }

  function Dequeued(c: State, i: nat): State
    requires i < |c.sms| && c.sms[i].dequeue != []
  {
    var s, r := c.sms[i], c.sms[i].dequeue[0];
    var c' := c.(sms := c.sms[i := s.(dequeue := s.dequeue[1..])]);
    if r.infoPtr !in c.launch.flight || c.launch.flight[r.infoPtr] != Launch.Running(i) || Consumed(s) < 0
    then c'.(lost := true)
    else
      c'.(launch := c.launch.(flight := c.launch.flight[r.infoPtr := Launch.Finished(i, Shown(r))]),
          waiting := c.waiting[r.infoPtr := Origin(i, Consumed(s))])
  }

  ghost predicate Step(c: State, c': State) {
    DispatchMoves(c, c') || RetireMoves(c, c') || Enqueues(c, c') || SmMoves(c, c') || Dequeues(c, c')
  }

  /** Nothing an SM was given earlier is still outstanding. */
  ghost predicate Init(c: State) {
    && Launch.Init(c.launch) && |c.sms| == |c.launch.lmem| && !c.lost
    && (forall i | 0 <= i < |c.sms| :: WgTheorems.Reachable(c.sms[i]))
    && (forall i: nat, e: nat | i < |c.sms| && e < |c.sms[i].enqueued| :: !Outstanding(c.sms[i], e))
    && c.began == c.sms && c.waiting == map[] && c.origins == []
  }

  ghost predicate Reachable(c: State) {
    Runs.Reachable(Init, Step, c)
  }

  // ---- The invariant --------------------------------------------------------------------------------

  /** Enqueued work-group `e` has not come back through the dequeue registers. */
  ghost predicate Outstanding(s: WgScheduler.State, e: nat) {
    forall j | 0 <= j < |s.delivered| && j < Consumed(s) :: s.delivered[j].0 != e
  }

  /** It runs, as far as the firmware is concerned, in the slot it was enqueued with. */
  ghost predicate CoupledAt(c: State, i: nat, e: nat) {
    i < |c.sms| && e < |c.sms[i].enqueued| && Outstanding(c.sms[i], e) ==>
      var w := c.sms[i].enqueued[e].infoPtr;
      w in c.launch.flight && c.launch.flight[w] == Launch.Running(i)
  }

  ghost predicate ApartAt(c: State, i: nat, e: nat, f: nat) {
    i < |c.sms| && e < f < |c.sms[i].enqueued| && Outstanding(c.sms[i], e) && Outstanding(c.sms[i], f) ==>
      c.sms[i].enqueued[e].infoPtr != c.sms[i].enqueued[f].infoPtr
  }

  ghost predicate Coupled(c: State) {
    && (forall i: nat, e: nat :: CoupledAt(c, i, e))
    && (forall i: nat, e: nat, f: nat :: ApartAt(c, i, e, f))
  }

  /** The record is a delivery of its SM, made since the launch began. */
  predicate FromDelivery(c: State, o: Origin, x: Launch.Completion) {
    o.sm < |c.sms| && o.sm < |c.began| && Consumed(c.began[o.sm]) <= o.delivery < |c.sms[o.sm].delivered|
    && x == Shown(c.sms[o.sm].delivered[o.delivery].1)
  }

  predicate WaitingOk(c: State, w: nat) {
    w in c.launch.flight && c.launch.flight[w].Finished? ==>
      w in c.waiting && FromDelivery(c, c.waiting[w], c.launch.flight[w].completion)
  }

  predicate CountedOk(c: State, j: nat) {
    j < |c.origins| && j < |c.launch.retired| ==> FromDelivery(c, c.origins[j], c.launch.retired[j])
  }

  ghost predicate Traced(c: State) {
    && |c.origins| == |c.launch.retired|
    && (forall w: nat :: WaitingOk(c, w))
    && (forall j: nat :: CountedOk(c, j))
    && (HasInHand(c.launch) ==> FromDelivery(c, c.hand, c.launch.retire.completion))
  }

  predicate HasInHand(l: Launch.State) {
    l.retire.RTaken? || l.retire.RLmem? || l.retire.RCount?
  }

  /** A consumed delivery waits in dequeue registers, is in the retire task's hand, or has been counted. */
  ghost predicate Tracked(c: State, o: Origin) {
    || (exists w: nat :: WaitsAs(c, w, o))
    || (HasInHand(c.launch) && c.hand == o)
    || o in c.origins
  }

  predicate WaitsAs(c: State, w: nat, o: Origin) {
    w in c.launch.flight && c.launch.flight[w].Finished? && w in c.waiting && c.waiting[w] == o
  }

  ghost predicate AllTracked(c: State) {
    forall i: nat, d: nat | i < |c.sms| && i < |c.began| && Consumed(c.began[i]) <= d < Consumed(c.sms[i]) ::
      Tracked(c, Origin(i, d))
  }

  /** What the SM had done when the launch began is a part of what it has done now, and was complete. */
  ghost predicate Since(s0: WgScheduler.State, s: WgScheduler.State) {
    && s0.delivered <= s.delivered && s0.enqueued <= s.enqueued && 0 <= Consumed(s0) <= Consumed(s)
    && (forall e: nat | e < |s0.enqueued| :: !Outstanding(s0, e))
    && (forall j | 0 <= j < |s0.delivered| :: s0.delivered[j].0 < |s0.enqueued|)
  }

  ghost predicate Links(c: State) {
    && |c.began| == |c.sms| && (forall i | 0 <= i < |c.sms| :: Since(c.began[i], c.sms[i]))
    && !c.lost && Coupled(c) && Traced(c) && AllTracked(c)
  }

  /** Launch and SMs are each in a state they reach on their own, and fit together. */
  ghost predicate Inv(c: State) {
    LaunchTheorems.Reachable(c.launch) && (forall i | 0 <= i < |c.sms| :: WgTheorems.Reachable(c.sms[i])) && Links(c)
  }

  // ---- Deliveries only accumulate ----------------------------------------------------------------------

  lemma {:induction false} BeginKeepsDelivered(s: WgScheduler.State)
    requires WgScheduler.Sized(s)
    ensures WgScheduler.BeginPass(s).delivered == s.delivered
  {
  }

  lemma {:induction false} EndKeepsDelivered(s: WgScheduler.State)
    requires WgScheduler.Sized(s) && WgScheduler.OrderInRange(s)
    ensures WgScheduler.EndPass(s).delivered == s.delivered
  {
    BarriersKeepDelivered(s);
    var b := WgScheduler.HandleBarriers(s);
    if !b.phase.Halted? {
      RemainingKeepsDelivered(b);
      NewKeepsDelivered(WgScheduler.DispatchRemaining(b));
    }
  }

  lemma {:induction false} BarriersKeepDelivered(s: WgScheduler.State)
    requires WgScheduler.Sized(s) && WgScheduler.OrderInRange(s)
    ensures var b := WgScheduler.HandleBarriers(s);
            b.delivered == s.delivered && WgScheduler.Sized(b) && WgScheduler.OrderInRange(b)
  {
  }

  lemma {:induction false} RemainingKeepsDelivered(s: WgScheduler.State)
    requires WgScheduler.Sized(s) && WgScheduler.OrderInRange(s)
    ensures var r := WgScheduler.DispatchRemaining(s); r.delivered == s.delivered && WgScheduler.Sized(r)
  {
  }

  lemma {:induction false} NewKeepsDelivered(s: WgScheduler.State)
    requires WgScheduler.Sized(s)
    ensures WgScheduler.DispatchNew(s).delivered == s.delivered
  {
  }

  lemma {:induction false} DeliveredGrows(s: WgScheduler.State, s': WgScheduler.State)
    requires WgTheorems.Step(s, s')
    ensures s.delivered <= s'.delivered
  {
    if s.phase.Waiting? && s' == WgScheduler.BeginPass(s) {
      BeginKeepsDelivered(s);
    } else if s.phase.Retiring? && s.phase.list == [] && s' == WgScheduler.EndPass(s) {
      EndKeepsDelivered(s);
    }
  }

  // ---- What an SM's own steps keep ------------------------------------------------------------------------

  lemma {:induction false} SmReached(s: WgScheduler.State, s': WgScheduler.State)
    requires WgTheorems.Reachable(s) && WgTheorems.Step(s, s')
    ensures WgTheorems.Reachable(s')
  {
    Runs.NextIsReached(WgScheduler.Init, WgTheorems.Step, s, s');
  }

  lemma {:induction false} LaunchReached(l: Launch.State, l': Launch.State)
    requires LaunchTheorems.Reachable(l) && Launch.Next(l, l')
    ensures LaunchTheorems.Reachable(l')
  {
    Runs.NextIsReached(Launch.Init, Launch.Next, l, l');
  }

  /** Records stay where they are when an SM moves on. */
  lemma {:induction false} TraceFrame(c: State, i: nat, s': WgScheduler.State)
    requires i < |c.sms| && c.sms[i].delivered <= s'.delivered && Traced(c)
    ensures Traced(c.(sms := c.sms[i := s']))
  {
    var c' := c.(sms := c.sms[i := s']);
    forall o, x | FromDelivery(c, o, x) ensures FromDelivery(c', o, x) {
    }
    forall w: nat ensures WaitingOk(c', w) {
      assert WaitingOk(c, w);
    }
    forall j: nat ensures CountedOk(c', j) {
      assert CountedOk(c, j);
    }
  }

  /** A step of an SM that consumes nothing leaves every record where it was. */
  lemma {:induction false} TrackedFrame(c: State, c': State)
    requires AllTracked(c) && c'.launch == c.launch && c'.began == c.began && |c'.sms| == |c.sms|
    requires c'.waiting == c.waiting && c'.hand == c.hand && c'.origins == c.origins
    requires forall i | 0 <= i < |c.sms| :: Consumed(c'.sms[i]) == Consumed(c.sms[i])
    ensures AllTracked(c')
  {
    forall i: nat, d: nat | i < |c.sms| && i < |c.began| && Consumed(c.began[i]) <= d < Consumed(c.sms[i])
      ensures Tracked(c', Origin(i, d))
    {
      assert Tracked(c, Origin(i, d));
      KeepsTrack(c, c', Origin(i, d));
    }
  }

  /** A record stays tracked when it keeps waiting, keeps being in hand or has been counted. */
  lemma {:induction false} KeepsTrack(c: State, c': State, o: Origin)
    requires Tracked(c, o)
    requires forall w: nat | WaitsAs(c, w, o) :: WaitsAs(c', w, o) || (HasInHand(c'.launch) && c'.hand == o)
    requires HasInHand(c.launch) && c.hand == o ==> (HasInHand(c'.launch) && c'.hand == o) || o in c'.origins
    requires c.origins <= c'.origins
    ensures Tracked(c', o)
  {
    if w: nat :| WaitsAs(c, w, o) {
      assert WaitsAs(c', w, o) || (HasInHand(c'.launch) && c'.hand == o);
    } else if o in c.origins {
      var j :| 0 <= j < |c.origins| && c.origins[j] == o;
      assert c'.origins[j] == o;
    }
  }

  lemma {:induction false} SmMovesInv(c: State, i: nat, s': WgScheduler.State)
    requires Inv(c) && i < |c.sms| && WgTheorems.Step(c.sms[i], s')
    requires s'.enqueued == c.sms[i].enqueued && Consumed(s') == Consumed(c.sms[i])
    ensures Inv(c.(sms := c.sms[i := s']))
  {
    SmReached(c.sms[i], s');
    assert c.sms[i].delivered <= s'.delivered by {
      DeliveredGrows(c.sms[i], s');
    }
    SmKeeps(c, i, s');
  }

  lemma {:induction false} SmKeeps(c: State, i: nat, s': WgScheduler.State)
    requires Links(c) && i < |c.sms| && c.sms[i].delivered <= s'.delivered
    requires s'.enqueued == c.sms[i].enqueued && Consumed(s') == Consumed(c.sms[i])
    ensures Links(c.(sms := c.sms[i := s']))
  {
    TraceFrame(c, i, s');
    TrackedFrame(c, c.(sms := c.sms[i := s']));
    SmCoupled(c, i, s');
    SinceFrame(c.began[i], c.sms[i], s');
  }

  lemma {:induction false} SinceFrame(s0: WgScheduler.State, s: WgScheduler.State, s': WgScheduler.State)
    requires Since(s0, s) && s.delivered <= s'.delivered && s.enqueued <= s'.enqueued && Consumed(s) <= Consumed(s')
    ensures Since(s0, s')
  {
  }

  lemma {:induction false} SmCoupled(c: State, i: nat, s': WgScheduler.State)
    requires Coupled(c) && i < |c.sms| && c.sms[i].delivered <= s'.delivered
    requires s'.enqueued == c.sms[i].enqueued && Consumed(s') == Consumed(c.sms[i])
    ensures Coupled(c.(sms := c.sms[i := s']))
  {
    var c' := c.(sms := c.sms[i := s']);
    var s := c.sms[i];
    forall e: nat ensures Outstanding(s', e) <==> Outstanding(s, e) {
      SameOutstanding(s, s', e);
    }
    forall k: nat, e: nat ensures CoupledAt(c', k, e) {
      assert CoupledAt(c, k, e);
    }
    forall k: nat, e: nat, f: nat ensures ApartAt(c', k, e, f) {
      assert ApartAt(c, k, e, f);
    }
  }

  lemma {:induction false} SameOutstanding(s: WgScheduler.State, s': WgScheduler.State, e: nat)
    requires s.delivered <= s'.delivered && Consumed(s') == Consumed(s)
    ensures Outstanding(s', e) <==> Outstanding(s, e)
  {
    if Outstanding(s', e) {
      forall j | 0 <= j < |s.delivered| && j < Consumed(s) ensures s.delivered[j].0 != e {
        assert s'.delivered[j] == s.delivered[j];
      }
    }
    if Outstanding(s, e) {
      forall j | 0 <= j < |s'.delivered| && j < Consumed(s') ensures s'.delivered[j].0 != e {
        assert s'.delivered[j] == s.delivered[j];
      }
    }
  }

  // ---- Handing a work-group over ---------------------------------------------------------------------------

  lemma {:induction false} EnqueueReached(s: WgScheduler.State, g: WgScheduler.Group)
    requires WgTheorems.Reachable(s) && s.threadsPerWarp > 0 && WgScheduler.WarpCount(s, g) <= |s.core|
    requires |s.dispatch| < s.fifoSize
    ensures WgTheorems.Reachable(s.(dispatch := s.dispatch + [g], enqueued := s.enqueued + [g]))
  {
    WgTheorems.ReachableInv(s);
    var s' := s.(dispatch := s.dispatch + [g], enqueued := s.enqueued + [g]);
    assert WgScheduler.Enqueue(s, s');
    SmReached(s, s');
  }

  lemma {:induction false} EnqueuesInv(c: State, c': State)
    requires Inv(c) && Enqueues(c, c')
    ensures Inv(c')
  {
    var sm := c.launch.dispatch.sm;
    LaunchTheorems.EnqueueIsFresh(c.launch);
    LaunchReached(c.launch, c'.launch);
    EnqueueReached(c.sms[sm], WgScheduler.Group(c.kernelPc, c.launch.dispatch.w, c.threads));
    EnqueuesLinks(c, c');
  }

  lemma {:induction false} EnqueuesLinks(c: State, c': State)
    requires Links(c) && Enqueues(c, c') && c.launch.dispatch.w !in c.launch.flight
    ensures Links(c')
  {
    var sm := c.launch.dispatch.sm;
    EnqueuesTrace(c, c');
    EnqueuesTracked(c, c');
    EnqueuesCoupled(c, c');
    SinceFrame(c.began[sm], c.sms[sm], c'.sms[sm]);
  }

  lemma {:induction false} EnqueuesCoupled(c: State, c': State)
    requires Coupled(c) && Enqueues(c, c') && c.launch.dispatch.w !in c.launch.flight
    ensures Coupled(c')
  {
    var w, sm := c.launch.dispatch.w, c.launch.dispatch.sm;
    var s, s' := c.sms[sm], c'.sms[sm];
    assert c'.launch.flight == c.launch.flight[w := Launch.Running(sm)];
    forall e: nat ensures Outstanding(s', e) <==> Outstanding(s, e) {
      SameOutstanding(s, s', e);
    }
    forall k: nat, e: nat ensures CoupledAt(c', k, e) {
      assert CoupledAt(c, k, e);
    }
    forall k: nat, e: nat, f: nat ensures ApartAt(c', k, e, f) {
      assert ApartAt(c, k, e, f) && CoupledAt(c, k, e) && CoupledAt(c, k, f);
    }
  }

  lemma {:induction false} EnqueuesTracked(c: State, c': State)
    requires AllTracked(c) && Enqueues(c, c') && c.launch.dispatch.w !in c.launch.flight
    ensures AllTracked(c')
  {
    forall i: nat, d: nat | i < |c'.sms| && i < |c.began| && Consumed(c.began[i]) <= d < Consumed(c'.sms[i])
      ensures Tracked(c', Origin(i, d))
    {
      assert Tracked(c, Origin(i, d));
      KeepsTrack(c, c', Origin(i, d));
    }
  }

  lemma {:induction false} EnqueuesTrace(c: State, c': State)
    requires Traced(c) && Enqueues(c, c')
    ensures Traced(c')
  {
    var sm := c.launch.dispatch.sm;
    TraceFrame(c, sm, c'.sms[sm]);
    var b := c.(sms := c'.sms);
    forall w: nat ensures WaitingOk(c', w) {
      assert WaitingOk(b, w);
    }
    forall j: nat ensures CountedOk(c', j) {
      assert CountedOk(b, j);
    }
  }

  // ---- Handing it back ------------------------------------------------------------------------------------

  /** The report at the head of the dequeue FIFO is the oldest delivery not consumed, and it belongs to an
      outstanding work-group with the slot it was enqueued with. */
  ghost predicate HeadsOut(s: WgScheduler.State) {
    var k := Consumed(s);
    && s.dequeue != [] && 0 <= k < |s.delivered| && s.delivered[k].1 == s.dequeue[0]
    && s.delivered[k].0 < |s.enqueued| && s.enqueued[s.delivered[k].0].infoPtr == s.dequeue[0].infoPtr
    && Outstanding(s, s.delivered[k].0)
  }

  lemma {:induction false} HeadIsOutstanding(s: WgScheduler.State)
    requires WgTheorems.Reachable(s) && s.dequeue != []
    ensures HeadsOut(s)
  {
    WgTheorems.ReachableInv(s);
    var k := Consumed(s);
    assert WgInvariant.Fifos(s);
    assert s.dequeue[0] == s.delivered[|s.delivered| - |s.dequeue| + 0].1;
    assert WgInvariant.DeliveryOk(s, s.delivered[k]);
    assert (s.arrivals + s.dispatch)[s.delivered[k].0] == s.arrivals[s.delivered[k].0];
    forall j | 0 <= j < |s.delivered| && j < k ensures s.delivered[j].0 != s.delivered[k].0 {
      assert WgInvariant.TicketsDistinct(s);
    }
  }

  lemma {:induction false} OneLess(s: WgScheduler.State, s': WgScheduler.State, e: nat)
    requires s'.delivered == s.delivered && Consumed(s') == Consumed(s) + 1 && 0 <= Consumed(s) < |s.delivered|
    ensures Outstanding(s', e) <==> Outstanding(s, e) && e != s.delivered[Consumed(s)].0
  {
    if Outstanding(s', e) {
      assert s'.delivered[Consumed(s)].0 != e;
      forall j | 0 <= j < |s.delivered| && j < Consumed(s) ensures s.delivered[j].0 != e {
        assert s'.delivered[j].0 != e;
      }
    }
  }

  lemma {:induction false} DequeueReached(s: WgScheduler.State)
    requires WgTheorems.Reachable(s) && s.dequeue != []
    ensures WgTheorems.Reachable(s.(dequeue := s.dequeue[1..]))
  {
    WgTheorems.ReachableInv(s);
    var s' := s.(dequeue := s.dequeue[1..]);
    assert WgScheduler.Dequeue(s, s');
    SmReached(s, s');
  }

  lemma {:induction false} DequeuedCoupled(c: State, i: nat)
    requires !c.lost && Coupled(c) && i < |c.sms| && HeadsOut(c.sms[i])
    ensures var c' := Dequeued(c, i);
            && !c'.lost && Coupled(c')
            && (var r := c.sms[i].dequeue[0];
                c'.launch == c.launch.(flight := c.launch.flight[r.infoPtr := Launch.Finished(i, Shown(r))]))
            && Launch.SmStep(c.launch, c'.launch)
  {
    var s, r, c' := c.sms[i], c.sms[i].dequeue[0], Dequeued(c, i);
    var t := s.delivered[Consumed(s)].0;
    assert CoupledAt(c, i, t);
    forall e: nat ensures Outstanding(c'.sms[i], e) <==> Outstanding(s, e) && e != t {
      OneLess(s, c'.sms[i], e);
    }
    forall k: nat, e: nat ensures CoupledAt(c', k, e) {
      assert CoupledAt(c, k, e) && ApartAt(c, k, e, t) && ApartAt(c, k, t, e);
    }
    forall k: nat, e: nat, f: nat ensures ApartAt(c', k, e, f) {
      assert ApartAt(c, k, e, f);
    }
  }

  lemma {:induction false} DequeuedTrace(c: State, i: nat)
    requires Traced(c) && i < |c.sms| && i < |c.began| && c.sms[i].dequeue != [] && !Dequeued(c, i).lost && !c.lost
    requires Consumed(c.began[i]) <= Consumed(c.sms[i])
    requires 0 <= Consumed(c.sms[i]) < |c.sms[i].delivered|
    requires c.sms[i].delivered[Consumed(c.sms[i])].1 == c.sms[i].dequeue[0]
    ensures Traced(Dequeued(c, i))
  {
    var c' := Dequeued(c, i);
    TraceFrame(c, i, c'.sms[i]);
    var b := c.(sms := c'.sms);
    forall w: nat ensures WaitingOk(c', w) {
      assert WaitingOk(b, w);
    }
    forall j: nat ensures CountedOk(c', j) {
      assert CountedOk(b, j);
    }
  }

  lemma {:induction false} DequeuedTracked(c: State, i: nat)
    requires AllTracked(c) && i < |c.sms| && c.sms[i].dequeue != [] && !c.lost && !Dequeued(c, i).lost
    ensures AllTracked(Dequeued(c, i))
  {
    var c' := Dequeued(c, i);
    var w := c.sms[i].dequeue[0].infoPtr;
    forall k: nat, d: nat | k < |c'.sms| && k < |c.began| && Consumed(c.began[k]) <= d < Consumed(c'.sms[k])
      ensures Tracked(c', Origin(k, d))
    {
      if k == i && d == Consumed(c.sms[i]) {
        assert WaitsAs(c', w, Origin(k, d));
      } else {
        assert Tracked(c, Origin(k, d));
        KeepsTrack(c, c', Origin(k, d));
      }
    }
  }

  lemma {:induction false} DequeuedLinks(c: State, i: nat)
    requires Links(c) && i < |c.sms| && HeadsOut(c.sms[i]) && !Dequeued(c, i).lost && Coupled(Dequeued(c, i))
    ensures Links(Dequeued(c, i))
  {
    assert Since(c.began[i], c.sms[i]);
    DequeuedTrace(c, i);
    DequeuedTracked(c, i);
    SinceFrame(c.began[i], c.sms[i], Dequeued(c, i).sms[i]);
  }

  lemma {:induction false} DequeuesInv(c: State, i: nat)
    requires Inv(c) && i < |c.sms| && c.sms[i].dequeue != []
    ensures Inv(Dequeued(c, i))
  {
    HeadIsOutstanding(c.sms[i]);
    DequeuedCoupled(c, i);
    DequeueReached(c.sms[i]);
    LaunchReached(c.launch, Dequeued(c, i).launch);
    DequeuedLinks(c, i);
  }

  // ---- The firmware ----------------------------------------------------------------------------------------

  lemma {:induction false} DispatchTrace(c: State, c': State)
    requires Traced(c) && DispatchMoves(c, c')
    ensures Traced(c')
  {
    assert c'.launch.flight == c.launch.flight && c'.launch.retired == c.launch.retired
           && c'.launch.retire == c.launch.retire;
    forall w: nat ensures WaitingOk(c', w) {
      assert WaitingOk(c, w);
    }
    forall j: nat ensures CountedOk(c', j) {
      assert CountedOk(c, j);
    }
  }

  lemma {:induction false} RetireFlight(l: Launch.State, l': Launch.State, w: nat)
    requires Launch.RetireStep(l, l') && w in l'.flight
    ensures w in l.flight && l'.flight[w] == l.flight[w]
  {
  }

  /** What the retire task has in hand, and what it has counted. */
  lemma {:induction false} RetireHand(l: Launch.State, l': Launch.State)
    requires Launch.RetireStep(l, l')
    ensures l'.retire.RTaken? ==>
              l.retire.RLook? && l.retire.w in l.flight
              && l.flight[l.retire.w] == Launch.Finished(l.flight[l.retire.w].sm, l'.retire.completion)
    ensures l'.retire.RLmem? ==> l.retire.RTaken? && l'.retire.completion == l.retire.completion
    ensures l'.retire.RCount? ==> l.retire.RLmem? && l'.retire.completion == l.retire.completion
    ensures l'.retired == l.retired || (l.retire.RCount? && l'.retired == l.retired + [l.retire.completion])
  {
  }

  lemma {:induction false} RetireTrace(c: State, c': State)
    requires Traced(c) && RetireMoves(c, c')
    ensures Traced(c')
  {
    RetireHand(c.launch, c'.launch);
    forall w: nat ensures WaitingOk(c', w) {
      assert WaitingOk(c, w);
      if w in c'.launch.flight {
        RetireFlight(c.launch, c'.launch, w);
      }
    }
    forall j: nat ensures CountedOk(c', j) {
      assert CountedOk(c, j);
    }
    if c.launch.retire.RLook? {
      assert WaitingOk(c, c.launch.retire.w);
    }
  }

  lemma {:induction false} FirmwareFlight(c: State, c': State, w: nat)
    requires (DispatchMoves(c, c') || RetireMoves(c, c')) && w in c.launch.flight && c.launch.flight[w].Running?
    ensures w in c'.launch.flight && c'.launch.flight[w] == c.launch.flight[w]
  {
  }

  lemma {:induction false} FirmwareInv(c: State, c': State)
    requires Inv(c) && (DispatchMoves(c, c') || RetireMoves(c, c'))
    ensures Inv(c')
  {
    LaunchReached(c.launch, c'.launch);
    LaunchTheorems.NothingIsIgnored(c'.launch);
    if DispatchMoves(c, c') {
      DispatchTrace(c, c');
    } else {
      RetireTrace(c, c');
    }
    FirmwareCoupled(c, c');
    FirmwareTracked(c, c');
  }

  lemma {:induction false} FirmwareTracked(c: State, c': State)
    requires Traced(c) && AllTracked(c) && (DispatchMoves(c, c') || RetireMoves(c, c')) && !c'.launch.retire.RIgnored?
    ensures AllTracked(c')
  {
    forall i: nat, d: nat | i < |c'.sms| && i < |c.began| && Consumed(c.began[i]) <= d < Consumed(c'.sms[i])
      ensures Tracked(c', Origin(i, d))
    {
      assert Tracked(c, Origin(i, d));
      if DispatchMoves(c, c') {
        DispatchKeepsTrack(c, c', Origin(i, d));
      } else {
        RetireKeepsTrack(c, c', Origin(i, d));
      }
    }
  }

  lemma {:induction false} DispatchKeepsTrack(c: State, c': State, o: Origin)
    requires Tracked(c, o) && DispatchMoves(c, c')
    ensures Tracked(c', o)
  {
    assert c'.launch.flight == c.launch.flight && c'.launch.retire == c.launch.retire;
    KeepsTrack(c, c', o);
  }

  lemma {:induction false} RetireKeepsTrack(c: State, c': State, o: Origin)
    requires Traced(c) && Tracked(c, o) && RetireMoves(c, c') && !c'.launch.retire.RIgnored?
    ensures Tracked(c', o)
  {
    RetireHand(c.launch, c'.launch);
    KeepsTrack(c, c', o);
  }

  lemma {:induction false} FirmwareCoupled(c: State, c': State)
    requires Coupled(c) && (DispatchMoves(c, c') || RetireMoves(c, c'))
    ensures Coupled(c')
  {
    forall i: nat, e: nat ensures CoupledAt(c', i, e) {
      assert CoupledAt(c, i, e);
      if i < |c.sms| && e < |c.sms[i].enqueued| && Outstanding(c.sms[i], e) {
        FirmwareFlight(c, c', c.sms[i].enqueued[e].infoPtr);
      }
    }
    forall i: nat, e: nat, f: nat ensures ApartAt(c', i, e, f) {
      assert ApartAt(c, i, e, f);
    }
  }

  // ---- Every run -------------------------------------------------------------------------------------------

  lemma {:induction false} InitInv(c: State)
    requires Init(c)
    ensures Inv(c)
  {
    Runs.InitialIsReached(Launch.Init, Launch.Next, c.launch);
    forall i | 0 <= i < |c.sms| ensures Since(c.began[i], c.sms[i]) {
      Consistent(c.sms[i]);
    }
    InitCoupled(c);
  }

  lemma {:induction false} Consistent(s: WgScheduler.State)
    requires WgTheorems.Reachable(s)
    ensures 0 <= Consumed(s) && forall j | 0 <= j < |s.delivered| :: s.delivered[j].0 < |s.enqueued|
  {
    WgTheorems.ReachableInv(s);
    assert WgInvariant.Fifos(s);
    forall j | 0 <= j < |s.delivered| ensures s.delivered[j].0 < |s.enqueued| {
      assert WgInvariant.DeliveryOk(s, s.delivered[j]);
    }
  }

  lemma {:induction false} InitCoupled(c: State)
    requires Init(c)
    ensures Coupled(c) && Traced(c) && AllTracked(c)
  {
    forall i: nat, e: nat ensures CoupledAt(c, i, e) {
    }
    forall i: nat, e: nat, f: nat ensures ApartAt(c, i, e, f) {
    }
  }

  lemma {:induction false} StepInv(c: State, c': State)
    requires Inv(c) && Step(c, c')
    ensures Inv(c')
  {
    if DispatchMoves(c, c') || RetireMoves(c, c') {
      FirmwareInv(c, c');
    } else if Enqueues(c, c') {
      EnqueuesInv(c, c');
    } else if SmMoves(c, c') {
      var i: nat, s' :| i < |c.sms| && WgTheorems.Step(c.sms[i], s') && s'.enqueued == c.sms[i].enqueued
                        && Consumed(s') == Consumed(c.sms[i]) && c' == c.(sms := c.sms[i := s']);
      SmMovesInv(c, i, s');
    } else {
      var i: nat :| i < |c.sms| && c.sms[i].dequeue != [] && c' == Dequeued(c, i);
      DequeuesInv(c, i);
    }
  }

  lemma {:induction false} ReachableInv(c: State)
    requires Reachable(c)
    ensures Inv(c)
  {
    forall c | Init(c) ensures Inv(c) {
      InitInv(c);
    }
    forall c, c' | Inv(c) && Step(c, c') ensures Inv(c') {
      StepInv(c, c');
    }
    Runs.HoldsWhenReached(Init, Step, Inv, c);
  }

  // ---- A launch with no threads --------------------------------------------------------------------------------

  /** The 32-bit product of the three 16-bit sizes of a work-group. */
  function NumThreads(x: nat, y: nat, z: nat): nat {
    x * y * z % Tokens.TWO_32
  }

  /** Every work-group of the launch is enqueued with the launch's kernel and number of threads. */
  ghost predicate SizedAlike(c: State) {
    forall i: nat, e: nat | OfLaunch(c, i, e) :: Alike(c, c.sms[i].enqueued[e])
  }

  predicate Alike(c: State, g: WgScheduler.Group) {
    g.kernelPc == c.kernelPc && g.groupSize == c.threads
  }

  lemma {:induction false} EnqueuedAt(c: State, c': State, i: nat)
    requires Step(c, c') && i < |c.sms|
    ensures (c'.kernelPc, c'.threads, c'.began) == (c.kernelPc, c.threads, c.began) && |c'.sms| == |c.sms|
    ensures c.sms[i].enqueued <= c'.sms[i].enqueued
    ensures forall e | |c.sms[i].enqueued| <= e < |c'.sms[i].enqueued| :: Alike(c, c'.sms[i].enqueued[e])
  {
    if Enqueues(c, c') {
      EnqueuedNow(c, c', i);
    }
  }

  lemma {:induction false} EnqueuedNow(c: State, c': State, i: nat)
    requires Enqueues(c, c') && i < |c.sms|
    ensures (c'.kernelPc, c'.threads, c'.began) == (c.kernelPc, c.threads, c.began) && |c'.sms| == |c.sms|
    ensures c.sms[i].enqueued <= c'.sms[i].enqueued
    ensures forall e | |c.sms[i].enqueued| <= e < |c'.sms[i].enqueued| :: Alike(c, c'.sms[i].enqueued[e])
  {
  }

  lemma {:induction false} SizesStep(c: State, c': State)
    requires SizedAlike(c) && Step(c, c')
    ensures SizedAlike(c')
  {
    forall i: nat, e: nat | OfLaunch(c', i, e) ensures Alike(c', c'.sms[i].enqueued[e]) {
      assert i < |c.sms| by {
        StepKeepsSms(c, c');
      }
      EnqueuedAt(c, c', i);
      assert e < |c.sms[i].enqueued| ==> OfLaunch(c, i, e);
    }
  }

  lemma {:induction false} StepKeepsSms(c: State, c': State)
    requires Step(c, c')
    ensures |c'.sms| == |c.sms|
  {
  }

  lemma {:induction false} ReachableSizes(c: State)
    requires Reachable(c)
    ensures SizedAlike(c)
  {
    forall c, c' | SizedAlike(c) && Step(c, c') ensures SizedAlike(c') {
      SizesStep(c, c');
    }
    Runs.HoldsWhenReached(Init, Step, SizedAlike, c);
  }

  /** A launch whose number of threads wraps to zero never ends: each of its work-groups is dropped, so no
      result is published. */
  lemma {:induction false} NoThreadsNoResult(c: State)
    requires Reachable(c) && c.threads == 0
    ensures c.launch.published == []
  {
    assert c.launch.published != [] ==> c.launch.retired != [] by {
      PublishedAfterCounting(c);
    }
    assert Inv(c) && SizedAlike(c) by {
      ReachableInv(c);
      ReachableSizes(c);
    }
    CountedHasThreads(c);
  }

  lemma {:induction false} PublishedAfterCounting(c: State)
    requires Reachable(c)
    ensures c.launch.published != [] ==> c.launch.retired != []
  {
    ReachableInv(c);
    if c.launch.published != [] {
      LaunchTheorems.SomethingCounted(c.launch);
    }
  }

  lemma {:induction false} CountedHasThreads(c: State)
    requires Inv(c) && SizedAlike(c)
    ensures c.launch.retired == [] || c.threads > 0
  {
    if c.launch.retired != [] {
      var o := c.origins[0];
      assert CountedOk(c, 0);
      DeliveredHasThreads(c.began[o.sm], c.sms[o.sm], o.delivery);
      assert OfLaunch(c, o.sm, c.sms[o.sm].delivered[o.delivery].0);
    }
  }

  lemma {:induction false} DeliveredHasThreads(s0: WgScheduler.State, s: WgScheduler.State, d: nat)
    requires Since(s0, s) && WgTheorems.Reachable(s) && Consumed(s0) <= d < |s.delivered|
    ensures |s0.enqueued| <= s.delivered[d].0 < |s.enqueued| && s.enqueued[s.delivered[d].0].groupSize > 0
  {
    RecentDelivery(s0, s, d);
    WgTheorems.ReachableInv(s);
    assert WgInvariant.Fifos(s) && WgInvariant.DeliveryOk(s, s.delivered[d]);
    assert (s.arrivals + s.dispatch)[s.delivered[d].0] == s.arrivals[s.delivered[d].0];
  }

  /** Sizes that are all within the launch packet's fields can make such a launch. */
  lemma {:induction false} SizesMayWrap()
    ensures NumThreads(0x8000, 0x8000, 4) == 0
  {
  }

  // ---- What a launch promises --------------------------------------------------------------------------------

  /** Work-group `e` of SM `i` belongs to the launch: it was enqueued since the launch began. */
  predicate OfLaunch(c: State, i: nat, e: nat) {
    i < |c.sms| && i < |c.began| && |c.began[i].enqueued| <= e < |c.sms[i].enqueued|
  }

  function TicketOf(c: State, o: Origin): nat {
    if o.sm < |c.sms| && o.delivery < |c.sms[o.sm].delivered| then c.sms[o.sm].delivered[o.delivery].0 else 0
  }

  /** Every work-group an SM hands back is one a slot waits for. */
  lemma {:induction false} NothingIsLost(c: State)
    requires Reachable(c)
    ensures !c.lost && !c.launch.retire.RIgnored?
  {
    ReachableInv(c);
    LaunchTheorems.NothingIsIgnored(c.launch);
  }

  /** When a launch has published its result, its SMs hold nothing of it, so the next launch can begin. */
  lemma {:induction false} SmsAreDrained(c: State, i: nat, e: nat)
    requires Reachable(c) && c.launch.published != [] && i < |c.sms| && e < |c.sms[i].enqueued|
    ensures !Outstanding(c.sms[i], e)
  {
    ReachableInv(c);
    LaunchTheorems.ReachableInv(c.launch);
    LaunchTheorems.NothingInFlight(c.launch);
    assert CoupledAt(c, i, e);
  }

  /** A delivery made since the launch began is of a work-group enqueued since then. */
  lemma {:induction false} RecentDelivery(s0: WgScheduler.State, s: WgScheduler.State, d: nat)
    requires Since(s0, s) && WgTheorems.Reachable(s) && Consumed(s0) <= d < |s.delivered|
    ensures |s0.enqueued| <= s.delivered[d].0 < |s.enqueued|
  {
    Consistent(s);
    WgTheorems.ReachableInv(s);
    var t := s.delivered[d].0;
    forall j | 0 <= j < |s0.delivered| && j < Consumed(s0) ensures s0.delivered[j].0 != t {
      assert s0.delivered[j] == s.delivered[j];
      assert WgInvariant.TicketsDistinct(s);
    }
    assert Outstanding(s0, t);
  }

  /** A counted completion belongs to a work-group of the launch, and its status tells whether that
      trapped. */
  lemma {:induction false} CountedTellsTrap(c: State, j: nat)
    requires Inv(c) && j < |c.origins| == |c.launch.retired|
    ensures OfLaunch(c, c.origins[j].sm, TicketOf(c, c.origins[j]))
    ensures c.launch.retired[j].status != 0 <==> TicketOf(c, c.origins[j]) in c.sms[c.origins[j].sm].trapped
  {
    var o := c.origins[j];
    assert CountedOk(c, j);
    RecentDelivery(c.began[o.sm], c.sms[o.sm], o.delivery);
    WgOutcomes.ReportIsTrue(c.sms[o.sm], o.delivery);
  }

  lemma {:induction false} AllBack(c: State)
    requires Reachable(c) && c.launch.published != []
    ensures Links(c) && c.launch.flight == map[] && !HasInHand(c.launch)
  {
    ReachableInv(c);
    LaunchTheorems.ReachableInv(c.launch);
    LaunchTheorems.NothingInFlight(c.launch);
  }

  lemma {:induction false} CountedOrigin(c: State, o: Origin) returns (j: nat)
    requires Tracked(c, o) && c.launch.flight == map[] && !HasInHand(c.launch)
    ensures j < |c.origins| && c.origins[j] == o
  {
    j :| 0 <= j < |c.origins| && c.origins[j] == o;
  }

  lemma {:induction false} ConsumedSince(s0: WgScheduler.State, s: WgScheduler.State, e: nat) returns (d: nat)
    requires Since(s0, s) && !Outstanding(s, e) && |s0.enqueued| <= e
    ensures d < |s.delivered| && Consumed(s0) <= d < Consumed(s) && s.delivered[d].0 == e
  {
    d :| 0 <= d < |s.delivered| && d < Consumed(s) && s.delivered[d].0 == e;
  }

  /** Once the result is published, every work-group of the launch has been counted. */
  lemma {:induction false} EveryGroupCounted(c: State, i: nat, e: nat) returns (j: nat)
    requires Reachable(c) && c.launch.published != [] && OfLaunch(c, i, e)
    ensures j < |c.origins| && c.origins[j].sm == i && TicketOf(c, c.origins[j]) == e
  {
    SmsAreDrained(c, i, e);
    AllBack(c);
    var d := ConsumedSince(c.began[i], c.sms[i], e);
    assert Tracked(c, Origin(i, d));
    j := CountedOrigin(c, Origin(i, d));
  }

  ghost predicate NoTrap(c: State) {
    forall i: nat, e: nat | OfLaunch(c, i, e) :: e !in c.sms[i].trapped
  }

  lemma {:induction false} AllOkayIffNoTrap(c: State)
    requires Reachable(c) && c.launch.published != []
    ensures Launch.AllOkay(c.launch.retired) <==> NoTrap(c)
  {
    assert |c.origins| == |c.launch.retired| && Inv(c) by {
      ReachableInv(c);
    }
    if Launch.AllOkay(c.launch.retired) {
      forall i: nat, e: nat | OfLaunch(c, i, e) ensures e !in c.sms[i].trapped {
        var j := EveryGroupCounted(c, i, e);
        CountedTellsTrap(c, j);
      }
    }
    if NoTrap(c) {
      forall j | 0 <= j < |c.launch.retired| ensures c.launch.retired[j].status == 0 {
        CountedTellsTrap(c, j);
      }
    }
  }

  /** A launch completes with success exactly when no warp of any work-group it enqueued, on any SM, trapped
      with a cause other than the environment call. */
  lemma {:induction false} SuccessIffNoTrap(c: State)
    requires Reachable(c) && c.launch.published != []
    ensures |c.launch.published| == 1 && (c.launch.published[0].result == Tokens.SUCCESS <==> NoTrap(c))
  {
    AllOkayIffNoTrap(c);
    Launch.SuccessMeansAllOkay(c.launch.retired);
    assert LaunchTheorems.Reachable(c.launch) by {
      ReachableInv(c);
    }
    LaunchTheorems.PublishedWhenAllIsFreed(c.launch);
  }

  /** Work-group `t` of the SM ran in full: its kernel was given to the warps 0 to n - 1, each once, and n
      warps are just enough for its threads. */
  ghost predicate RanInFull(s: WgScheduler.State, t: nat, g: WgScheduler.Group) {
    exists n: nat | WgInvariant.Tiles(s.log, t, g, n) :: WgPasses.JustHolds(n, s.threadsPerWarp, g.groupSize)
  }

  lemma {:induction false} OkayRanInFull(s: WgScheduler.State, d: nat)
    requires WgTheorems.Reachable(s) && d < |s.delivered| && s.delivered[d].1.status.Okay?
    ensures s.delivered[d].0 < |s.enqueued| && RanInFull(s, s.delivered[d].0, s.enqueued[s.delivered[d].0])
  {
    WgOutcomes.ReportIsTrue(s, d);
    var t := s.delivered[d].0;
    assert s.arrivals + s.dispatch == s.enqueued by {
      WgTheorems.ReachableInv(s);
    }
    assert s.arrivals[t] == s.enqueued[t];
    var n: nat :| WgInvariant.Tiles(s.log, t, s.arrivals[t], n)
                  && WgPasses.JustHolds(n, s.threadsPerWarp, s.arrivals[t].groupSize);
    assert WgInvariant.Tiles(s.log, t, s.enqueued[t], n);
  }

  /** A launch that succeeds ran all of its work-groups in full, each with the launch's kernel and number of
      threads. */
  lemma {:induction false} SuccessRanEveryGroup(c: State, i: nat, e: nat)
    requires Reachable(c) && c.launch.published != [] && c.launch.published[0].result == Tokens.SUCCESS
    requires OfLaunch(c, i, e)
    ensures Alike(c, c.sms[i].enqueued[e]) && RanInFull(c.sms[i], e, c.sms[i].enqueued[e])
  {
    ReachableSizes(c);
    SuccessIffNoTrap(c);
    AllOkayIffNoTrap(c);
    var j := EveryGroupCounted(c, i, e);
    assert CountedOk(c, j) && WgTheorems.Reachable(c.sms[i]) && j < |c.launch.retired| by {
      ReachableInv(c);
    }
    OkayRanInFull(c.sms[i], c.origins[j].delivery);
  }

  /** A failed launch reports the work-group that trapped and retired first, with the registers of its
      lowest-numbered trapping warp in the first pass that saw a trap. */
  lemma {:induction false} FailureTellsFirstTrap(c: State, j: nat)
    requires Reachable(c) && c.launch.published != [] && j < |c.origins| == |c.launch.retired|
    requires c.launch.retired[j].status != 0 && Launch.AllOkay(c.launch.retired[..j])
    ensures OfLaunch(c, c.origins[j].sm, TicketOf(c, c.origins[j]))
    ensures var (s, t) := (c.sms[c.origins[j].sm], TicketOf(c, c.origins[j]));
            t in s.firstTrap
            && c.launch.published == [Launch.Outcome(Launch.EXCEPTION, s.firstTrap[t].mcause, s.firstTrap[t].mepc,
                                                     s.firstTrap[t].mtval)]
  {
    ReachableInv(c);
    CountedTellsTrap(c, j);
    LaunchTheorems.PublishedWhenAllIsFreed(c.launch);
    Launch.FirstFailureWins(c.launch.retired, j);
    var o := c.origins[j];
    assert CountedOk(c, j);
    WgOutcomes.ReportIsTrue(c.sms[o.sm], o.delivery);
  }

  // ---- Seen from outside ---------------------------------------------------------------------------------------

  lemma {:induction false} NextReached(c: State, c': State)
    requires Reachable(c) && Step(c, c')
    ensures Reachable(c')
  {
    Runs.NextIsReached(Init, Step, c, c');
  }

  lemma {:induction false} PublishedStays(c: State, c': State)
    requires Step(c, c') && c.launch.published != []
    ensures c'.launch.published != []
  {
    if RetireMoves(c, c') {
      RetirePublished(c.launch, c'.launch);
    } else if DispatchMoves(c, c') || Enqueues(c, c') {
      DispatchPublished(c.launch, c'.launch);
    }
  }

  lemma {:induction false} RetirePublished(l: Launch.State, l': Launch.State)
    requires Launch.RetireStep(l, l')
    ensures l.published <= l'.published
  {
  }

  lemma {:induction false} DispatchPublished(l: Launch.State, l': Launch.State)
    requires Launch.DispatchStep(l, l')
    ensures l'.published == l.published
  {
  }
}
