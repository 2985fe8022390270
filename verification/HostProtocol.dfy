/** The host and the firmware over the shared slot pool and command ring. One thread at a time holds
    the command lock; polls and releases also read the device without it. */
module HostProtocol {
  import opened Arithmetic
  import opened HostTokens
  import Runs
  import opened Tokens

  /** A slot of the pool in device memory. Its tag and its index name one token. */
  datatype Cell = Cell(token: Token, result: nat)

  /** History of the pool: the host wrote a fresh pending slot, or the firmware published a result. */
  datatype Event = Written(token: Token) | Published(token: Token, result: nat)

  datatype Stage = PacketNext | DoorbellNext

  datatype Lock = Free | Submitting(stage: Stage, token: Token) | Resetting

  datatype PollStatus = PollPending | PollTerminal(result: nat) | PollInvalid

  datatype ReleaseStatus = ReleaseAccepted | ReleasePending | ReleaseInvalid

  /** A poll or a release between two of its accesses. `seen` is history: how many events preceded its
      read of the pool. */
  datatype Call =
    | PollFound(token: Token) | PollSame(token: Token) | PollDone(token: Token, poll: PollStatus, seen: nat)
    | ReleaseFound(token: Token) | ReleaseSame(token: Token)
    | ReleaseEnd(token: Token, seen: nat) | ReleaseReboot(token: Token)
    | ReleaseDone(token: Token, release: ReleaseStatus)

  /** History of the tokens: how often each was given to a caller, taken back because its submission failed,
      released and accepted, and accepted although it held no slot and was not stale. */
  datatype Tally = Tally(granted: multiset<Token>, undone: multiset<Token>, accepted: multiset<Token>,
                         unheld: multiset<Token>)

  const NO_TALLY := Tally(multiset{}, multiset{}, multiset{}, multiset{})

  /** `ready` is the availability of the session; it falls when delivery of a command is ambiguous or the
      transport fails, and only a reset raises it. `submitted` and `taken` are the commands whose doorbell
      took effect and those the firmware has copied since it last came up. */
  datatype State = State(
    slots: seq<Meta>, stale: seq<Token>, boot: nat, gen: nat,
    hostWr: nat, ready: bool, lost: bool, lock: Lock,
    pool: seq<Cell>, fwBoot: nat, ring: seq<Token>, rd: nat, wr: nat,
    calls: map<nat, Call>,
    log: seq<Event>, submitted: seq<Token>, taken: seq<Token>, tally: Tally)

  /** What the environment decides: who runs, on which token, and how each transfer ends. A call that fails
      returns a transport error. */
  datatype Act =
    | Reserve(written: bool, reported: bool)
    | Packet(ok: bool, junk: Token)
    | Doorbell(took: bool, reported: bool)
    | TransportFails
    | ResetBegins | FirmwareReboots(boot: nat) | ResetEnds(ok: bool)
    | TakePacket | Publish(token: Token, result: nat)
    | PollBegins(id: nat, token: Token) | ReleaseBegins(id: nat, token: Token) | Proceeds(id: nat) | Fails(id: nat)

  function Wrap(i: nat, n: nat): (r: nat)
    requires i < 2 * n
    ensures r == i % n
  {
    SplitIs(i, n, if i < n then 0 else 1, if i < n then i else i - n);
    if i < n then i else i - n
  }

  function Grant(y: Tally, t: Token): Tally {
    y.(granted := y.granted + multiset{t})
  }

  function Undo(y: Tally, t: Token): Tally {
    y.(undone := y.undone + multiset{t})
  }

  function Accept(y: Tally, t: Token, owed: bool): Tally {
    y.(accepted := y.accepted + multiset{t}, unheld := if owed then y.unheld else y.unheld + multiset{t})
  }

  // ---- Submitting a command -----------------------------------------------------------------------

  /** Under the lock: the ring has room, a slot is allocated, and its pending word is written to the
      pool. A write that is reported as failed may still have happened. */
  function DoReserve(s: State, written: bool, reported: bool): State {
    if !s.ready || s.lost || !s.lock.Free? || s.hostWr >= |s.ring| || Wrap(s.hostWr + 1, |s.ring|) == s.rd then s
    else
      var (slots, gen, k) := Allocate(s.slots, s.stale, s.boot, s.gen, 0);
      if k.None? || k.value >= |s.pool| || k.value >= |slots| then s.(gen := gen)
      else
        var t := slots[k.value].token;
        var s' := if written || reported
                  then s.(gen := gen, pool := s.pool[k.value := Cell(t, PENDING)], log := s.log + [Written(t)])
                  else s.(gen := gen);
        if reported then s'.(slots := slots, lock := Submitting(PacketNext, t), tally := Grant(s.tally, t))
        else s'.(tally := Undo(Grant(s.tally, t), t))
  }

  /** The packet is copied to the ring, or the copy fails and leaves anything there. */
  function DoPacket(s: State, ok: bool, junk: Token): State {
    if !s.lock.Submitting? || !s.lock.stage.PacketNext? || s.hostWr >= |s.ring| then s
    else if ok then s.(ring := s.ring[s.hostWr := s.lock.token], lock := Submitting(DoorbellNext, s.lock.token))
    else s.(ring := s.ring[s.hostWr := junk], slots := Freed(s.slots, s.lock.token), lock := Free,
            tally := Undo(s.tally, s.lock.token))
  }

  /** The write pointer is published. A failed write may still have taken effect; then the host keeps the
      slot and submits nothing more until a reset. */
  function DoDoorbell(s: State, took: bool, reported: bool): State {
    if !s.lock.Submitting? || !s.lock.stage.DoorbellNext? || s.hostWr >= |s.ring| then s
    else
      var next := Wrap(s.hostWr + 1, |s.ring|);
      var s' := if took || reported then s.(wr := next, submitted := s.submitted + [s.lock.token], lock := Free)
                else s.(lock := Free);
      if reported then s'.(hostWr := next) else s'.(ready := false)
  }

  // ---- Reset ----------------------------------------------------------------------------------------

  /** The firmware restarts with another boot generation and both ring pointers at zero. */
  function DoReboot(s: State, boot: nat): State {
    if !s.lock.Resetting? || boot == 0 || boot == s.fwBoot then s
    else s.(fwBoot := boot, rd := 0, wr := 0, submitted := [], taken := [])
  }

  function DoResetEnds(s: State, ok: bool): State {
    if !s.lock.Resetting? then s
    else if !ok then s.(lost := true, lock := Free)
    else if s.fwBoot == 0 || s.fwBoot == s.boot then s
    else s.(slots := AllUnused(|s.slots|), stale := s.stale + InUse(s.slots), boot := s.fwBoot,
            gen := INITIAL_GENERATION, hostWr := 0, ready := true, lock := Free)
  }

  // ---- The firmware -----------------------------------------------------------------------------------

  function DoTake(s: State): State {
    if s.rd == s.wr || s.rd >= |s.ring| then s
    else s.(taken := s.taken + [s.ring[s.rd]], rd := Wrap(s.rd + 1, |s.ring|))
  }

  /** cp_publish_completion for a command that was taken: only into a pending slot of this token and this
      boot. */
  function DoPublish(s: State, t: Token, result: nat): State {
    if t.slot >= |s.pool| || t !in s.taken || t.boot != s.fwBoot % TWO_16 || s.pool[t.slot] != Cell(t, PENDING)
       || result == PENDING || result == REBOOTED then s
    else s.(pool := s.pool[t.slot := Cell(t, result)], log := s.log + [Published(t, result)])
  }

  // ---- Poll and release ---------------------------------------------------------------------------------

  /** The locked first access of a poll. */
  function DoPollBegins(s: State, id: nat, t: Token): State {
    if !s.lock.Free? || id in s.calls then s
    else s.(calls := s.calls[id := if Holds(s.slots, t) then PollFound(t)
                                   else if t in s.stale then PollDone(t, PollTerminal(REBOOTED), |s.log|)
                                   else PollDone(t, PollInvalid, |s.log|)])
  }

  function DoReleaseBegins(s: State, id: nat, t: Token): State {
    if !s.lock.Free? || id in s.calls then s
    else if t in s.stale then s.(stale := Erased(s.stale, t), calls := s.calls[id := ReleaseDone(t, ReleaseAccepted)],
                                 tally := Accept(s.tally, t, true))
    else s.(calls := s.calls[id := if Holds(s.slots, t) then ReleaseFound(t) else ReleaseDone(t, ReleaseInvalid)])
  }

  /** The pool word a poll or a release reads for its token. */
  function ReadSlot(s: State, t: Token): PollStatus {
    if t.slot >= |s.pool| || s.pool[t.slot].token != t then PollInvalid
    else if s.pool[t.slot].result == PENDING then PollPending
    else PollTerminal(s.pool[t.slot].result)
  }

  /** Where a call stands after its next access. */
  function After(s: State, c: Call): Call {
    match c
    case PollFound(t) =>
      if s.fwBoot % TWO_16 != t.boot then PollDone(t, PollTerminal(REBOOTED), |s.log|) else PollSame(t)
    case PollSame(t) => PollDone(t, ReadSlot(s, t), |s.log|)
    case ReleaseFound(t) => if s.fwBoot % TWO_16 != t.boot then ReleaseReboot(t) else ReleaseSame(t)
    case ReleaseSame(t) =>
      (match ReadSlot(s, t)
       case PollInvalid => ReleaseDone(t, ReleaseInvalid)
       case PollPending => ReleaseDone(t, ReleasePending)
       case PollTerminal(_) => ReleaseEnd(t, |s.log|))
    case ReleaseEnd(t, _) =>
      if Holds(s.slots, t) then ReleaseDone(t, ReleaseAccepted) else ReleaseDone(t, ReleaseInvalid)
    case ReleaseReboot(t) => ReleaseDone(t, ReleaseAccepted)
    case _ => c
  }

  /** What the last access of a release adds to the history. */
  function Ended(s: State, c: Call): Tally
    requires c.ReleaseEnd? || c.ReleaseReboot?
  {
    if c.ReleaseReboot? || Holds(s.slots, c.token) then Accept(s.tally, c.token, Holds(s.slots, c.token)) else s.tally
  }

  /** A call's next access; the last one of a release takes the lock and looks the token up again. */
  function DoProceeds(s: State, id: nat): State {
    if id !in s.calls then s
    else
      var c := s.calls[id];
      if c.ReleaseEnd? || c.ReleaseReboot? then
        if !s.lock.Free? then s
        else s.(slots := Freed(s.slots, c.token), calls := s.calls[id := After(s, c)], tally := Ended(s, c))
      else s.(calls := s.calls[id := After(s, c)])
  }

  // ---- Runs -----------------------------------------------------------------------------------------------

  function Do(s: State, a: Act): State {
    match a
    case Reserve(written, reported) => DoReserve(s, written, reported)
    case Packet(ok, junk) => DoPacket(s, ok, junk)
    case Doorbell(took, reported) => DoDoorbell(s, took, reported)
    case TransportFails => s.(ready := false)
    case ResetBegins => if s.lock.Free? && !s.lost then s.(ready := false, lock := Resetting) else s
    case FirmwareReboots(boot) => DoReboot(s, boot)
    case ResetEnds(ok) => DoResetEnds(s, ok)
    case TakePacket => DoTake(s)
    case Publish(t, result) => DoPublish(s, t, result)
    case PollBegins(id, t) => DoPollBegins(s, id, t)
    case ReleaseBegins(id, t) => DoReleaseBegins(s, id, t)
    case Proceeds(id) => DoProceeds(s, id)
    case Fails(id) => s.(calls := s.calls - {id})
  }

  ghost predicate Step(s: State, s': State) {
    exists a: Act :: s' == Do(s, a)
  }

  /** The host has initialised and the firmware is up. The pool holds anything. */
  ghost predicate Init(s: State) {
    && 0 < |s.ring| && |s.pool| == |s.slots| <= SLOT_COUNT
    && s.slots == AllUnused(|s.slots|) && s.stale == [] && s.gen == INITIAL_GENERATION
    && s.boot == s.fwBoot && s.hostWr == 0 && s.rd == 0 && s.wr == 0
    && s.ready && !s.lost && s.lock.Free? && s.calls == map[]
    && s.log == [] && s.submitted == [] && s.taken == [] && s.tally == NO_TALLY
  }

  ghost predicate Reachable(s: State) {
    Runs.Reachable(Init, Step, s)
  }
}
