/** One kernel launch: the dispatch task enqueues its work-groups while the retire task frees what
    finished ones held. Each step is one access to state both tasks see. */
module Launch {
  import opened LaunchIds
  import LmemTable
  import Tokens

  // ---- Results ----------------------------------------------------------------------------

  const BAD_DIMENSION: nat := 2
  const EXCEPTION: nat := 3
  const UNKNOWN_ERROR: nat := 4

  /** What a work-group leaves in its SM's dequeue registers. */
  datatype Completion = Completion(status: nat, mcause: nat, mepc: nat, mtval: nat)

  /** What a launch publishes. */
  datatype Outcome = Outcome(result: nat, mcause: nat, mepc: nat, mtval: nat)

  const ALL_WELL := Outcome(Tokens.SUCCESS, 0, 0, 0)

  /** to_kernel_completion_result */
  function ToResult(status: nat): nat {
    match status
    case 0 => Tokens.SUCCESS
    case 1 => EXCEPTION
    case 2 => BAD_DIMENSION
    case _ => UNKNOWN_ERROR
  }

  function Fold(outcome: Outcome, c: Completion): Outcome {
    if ToResult(c.status) != Tokens.SUCCESS && outcome.result == Tokens.SUCCESS
    then Outcome(ToResult(c.status), c.mcause, c.mepc, c.mtval)
    else outcome
  }

  function FoldAll(retired: seq<Completion>): Outcome {
    if retired == [] then ALL_WELL else Fold(FoldAll(retired[..|retired| - 1]), retired[|retired| - 1])
  }

  predicate AllOkay(retired: seq<Completion>) {
    forall i | 0 <= i < |retired| :: retired[i].status == 0
  }

  /** The launch succeeds exactly when every work-group did. */
  lemma {:induction false} SuccessMeansAllOkay(retired: seq<Completion>)
    ensures FoldAll(retired).result == Tokens.SUCCESS <==> AllOkay(retired)
    ensures AllOkay(retired) ==> FoldAll(retired) == ALL_WELL
  {
    if retired != [] {
      var n := |retired| - 1;
      SuccessMeansAllOkay(retired[..n]);
      assert AllOkay(retired) <==> AllOkay(retired[..n]) && retired[n].status == 0;
    }
  }

  /** The first failure in retirement order is the one reported. */
  lemma {:induction false} FirstFailureWins(retired: seq<Completion>, i: nat)
    requires i < |retired| && retired[i].status != 0 && AllOkay(retired[..i])
    ensures FoldAll(retired) == Outcome(ToResult(retired[i].status), retired[i].mcause, retired[i].mepc,
                                        retired[i].mtval)
  {
    var n := |retired| - 1;
    if i == n {
      SuccessMeansAllOkay(retired[..n]);
    } else {
      assert retired[..n][..i] == retired[..i];
      FirstFailureWins(retired[..n], i);
    }
  }

  // ---- State ------------------------------------------------------------------------------

  /** A slot of the WGI buffer. */
  datatype Wgi = Wgi(inUse: bool, kid: nat, smid: nat, base: nat, id: Id)

  /** A work-group an SM has: still running, or waiting in the dequeue registers. */
  datatype Flight = Running(sm: nat) | Finished(sm: nat, completion: Completion)

  datatype DispatchPc =
    | LAlloc | LFill(w: nat) | LPlace(w: nat) | LStore(w: nat, sm: nat, base: nat) | LEnqueue(w: nat, sm: nat)
    | LUpdate | LDone

  datatype RetirePc =
    | RIdle | RLook(w: nat) | RTaken(w: nat, completion: Completion) | RLmem(w: nat, completion: Completion)
    | RCount(completion: Completion) | RPublish | RFree | RIgnored

  /** `flight` maps the WGI slots the SMs hold to where they are. The last three fields are history;
      `enqueued` is what the slots handed over said then. */
  datatype State = State(
    grid: Grid, localSize: nat, kid: nat, poolSize: nat,
    slots: seq<Wgi>, lmem: seq<LmemTable.Table>, flight: map<nat, Flight>,
    active: bool, wgLeft: nat, outcome: Outcome, cursor: Id,
    dispatch: DispatchPc, retire: RetirePc,
    enqueued: seq<Id>, retired: seq<Completion>, published: seq<Outcome>)

  // ---- The launch loop of the dispatch task -------------------------------------------------

  ghost predicate DispatchStep(s: State, s': State) {
    match s.dispatch
    case LAlloc =>
      exists w: nat | w < |s.slots| ::
        !s.slots[w].inUse && s' == s.(slots := s.slots[w := s.slots[w].(inUse := true)], dispatch := LFill(w))
    case LFill(w) =>
      w < |s.slots| && s' == s.(slots := s.slots[w := s.slots[w].(kid := s.kid, id := s.cursor)], dispatch := LPlace(w))
    case LPlace(w) => exists sm: nat | sm < |s.lmem| :: s' == PlaceOn(s, w, sm)
    case LStore(w, sm, base) =>
      w < |s.slots|
      && s' == s.(slots := s.slots[w := s.slots[w].(smid := sm, base := base)], dispatch := LEnqueue(w, sm))
    case LEnqueue(w, sm) =>
      w < |s.slots|
      && s' == s.(flight := s.flight[w := Running(sm)], enqueued := s.enqueued + [s.slots[w].id], dispatch := LUpdate)
    case LUpdate =>
      var (next, more) := UpdateId(s.grid, s.cursor);
      s' == s.(cursor := next, dispatch := if more then LAlloc else LDone)
    case LDone => false
  }

  /** sm_alloc trying one SM that can take a work-group; it stays when local memory is short. */
  function PlaceOn(s: State, w: nat, sm: nat): State
    requires sm < |s.lmem|
  {
    if s.localSize == 0 then s.(dispatch := LStore(w, sm, 0))
    else
      var (table, base) := LmemTable.Alloc(s.lmem[sm], s.localSize);
      if base.None? then s else s.(lmem := s.lmem[sm := table], dispatch := LStore(w, sm, base.value))
  }

  // ---- The retire task ----------------------------------------------------------------------

  /** Whether cp_retire_sm ignores the dequeued slot `w`. */
  predicate Ignored(s: State, w: nat) {
    w >= |s.slots| || s.slots[w].kid >= s.poolSize || !s.slots[w].inUse || s.slots[w].kid != s.kid || !s.active
  }

  ghost predicate RetireStep(s: State, s': State) {
    match s.retire
    case RIdle =>
      exists w: nat | w in s.flight ::
        s.flight[w].Finished? && s' == s.(retire := if Ignored(s, w) then RIgnored else RLook(w))
    case RLook(w) =>
      w in s.flight && s.flight[w].Finished?
      && s' == s.(flight := s.flight - {w}, retire := RTaken(w, s.flight[w].completion))
    case RTaken(w, c) => w < |s.slots| && s' == FreeLmem(s, w, c)
    case RLmem(w, c) =>
      w < |s.slots| && s' == s.(slots := s.slots[w := s.slots[w].(inUse := false)], retire := RCount(c))
    case RCount(c) =>
      if s.wgLeft == 0 then s' == s.(retire := RIgnored)
      else s' == s.(wgLeft := s.wgLeft - 1, outcome := Fold(s.outcome, c), retired := s.retired + [c],
                    retire := if s.wgLeft == 1 then RPublish else RIdle)
    case RPublish => s' == s.(published := s.published + [s.outcome], retire := RFree)
    case RFree => s' == s.(active := false, retire := RIdle)
    case RIgnored => false
  }

  /** free_wg_local_memory; a release that fails is only logged, which is counted as ignored. */
  function FreeLmem(s: State, w: nat, c: Completion): State
    requires w < |s.slots|
  {
    var sm := s.slots[w].smid;
    if sm >= |s.lmem| || s.localSize == 0 then s.(retire := RLmem(w, c))
    else
      var (table, ok) := LmemTable.Free(s.lmem[sm], s.slots[w].base);
      s.(lmem := s.lmem[sm := table], retire := if ok then RLmem(w, c) else RIgnored)
  }

  // ---- The SMs ------------------------------------------------------------------------------

  /** A work-group finishes, with any completion record. */
  ghost predicate SmStep(s: State, s': State) {
    exists w: nat, c: Completion | w in s.flight ::
      s.flight[w].Running? && s' == s.(flight := s.flight[w := Finished(s.flight[w].sm, c)])
  }

  ghost predicate Next(s: State, s': State) {
    DispatchStep(s, s') || RetireStep(s, s') || SmStep(s, s')
  }

  ghost predicate Empty(t: LmemTable.Table) {
    LmemTable.Inv(t) && forall k | 0 <= k < |t.active| :: !t.active[k].valid
  }

  /** A launch begins with no slot in use, no local memory live, and a count that fits in 31 bits. */
  ghost predicate Init(s: State) {
    && s.grid.Proper() && s.grid.Total() < 0x8000_0000 && s.localSize < 0x1_0000 && s.kid < s.poolSize
    && (forall w | 0 <= w < |s.slots| :: !s.slots[w].inUse)
    && (forall sm | 0 <= sm < |s.lmem| :: Empty(s.lmem[sm]))
    && s.flight == map[] && s.active && s.wgLeft == s.grid.Total() && s.outcome == ALL_WELL
    && s.cursor == Id(0, 0, 0) && s.dispatch == LAlloc && s.retire == RIdle
    && s.enqueued == [] && s.retired == [] && s.published == []
  }
}
