/** A cache's maintenance controller: a START bit that firmware sets and polls, and one command port
    per bank. What the ports can take or offer at a clock edge is given by the environment. */
module CacheController {
  import opened Options

  datatype Command = Command(addr: nat, size: nat, opcode: nat)

  const FLUSH: nat := 1
  const INVALIDATE: nat := 2

  predicate IsMaintenance(opcode: nat) {
    opcode == FLUSH || opcode == INVALIDATE
  }

  /** `queue` with `c` appended when there is one. */
  function Put(queue: seq<Command>, c: Option<Command>): seq<Command> {
    if c.Some? then queue + [c.value] else queue
  }

  /** A bank has been sent the current command once if it was dispatched, and has answered all others. */
  predicate BankOk(dispatched: bool, c: Option<Command>, earlier: seq<Command>, sent: seq<Command>, answers: nat) {
    sent == (if dispatched then Put(earlier, c) else earlier) && |earlier| == answers
  }

  class Controller {
    var start: bool
    var prepared: bool
    var dispatched: bool
    var addr: nat
    var size: nat
    var opcode: nat
    var commands: seq<Option<Command>>
    /** Everything each bank was sent, and how many answers were taken from it. */
    var sent: seq<seq<Command>>
    var answers: seq<nat>
    /** What each bank had been sent when START was last set. */
    ghost var earlier: seq<seq<Command>>

    ghost predicate Valid()
      reads this
    {
      && |commands| == |sent| == |answers| == |earlier|
      && (dispatched ==> prepared) && (prepared ==> start)
      && (!start ==> sent == earlier)
      && (forall b | 0 <= b < |sent| :: BankOk(dispatched, commands[b], earlier[b], sent[b], answers[b]))
    }

    constructor (banks: nat)
      ensures Valid() && !start && |sent| == banks
    {
      start, prepared, dispatched := false, false, false;
      addr, size, opcode := 0, 0, 0;
      commands := seq(banks, b => None);
      sent := seq(banks, b => []);
      answers := seq(banks, b => 0);
      earlier := seq(banks, b => []);
    }

    /** A store to START. One that finds an operation running, or stores another value, has no effect. */
    method WriteStart(value: nat)
      requires Valid()
      modifies this`start
      ensures Valid() && start == (old(start) || value == 1)
    {
      if !start && value == 1 {
        start := true;
      }
    }

    /** A store to ADDR, SIZE or MODE. */
    method WriteOperands(addr: nat, size: nat, opcode: nat)
      requires Valid()
      modifies this`addr, this`size, this`opcode
      ensures Valid() && (this.addr, this.size, this.opcode) == (addr, size, opcode)
    {
      this.addr, this.size, this.opcode := addr, size, opcode;
    }

    method PrepareBankCommands()
      modifies this`commands
      ensures |commands| == old(|commands|)
      ensures forall b | 0 <= b < |commands| ::
                commands[b] == if IsMaintenance(opcode) then Some(Command(addr, size, opcode)) else None
    {
      var c := if IsMaintenance(opcode) then Some(Command(addr, size, opcode)) else None;
      commands := seq(|commands|, b => c);
    }

    /** Sends every bank its command when all of them can take one, and none otherwise. */
    method TryDispatchCommands(canPut: seq<bool>) returns (ok: bool)
      requires |canPut| == |commands| == |sent|
      modifies this`sent
      ensures ok <==> forall b | 0 <= b < |commands| :: commands[b].Some? ==> canPut[b]
      ensures |sent| == old(|sent|)
      ensures forall b | 0 <= b < |sent| :: sent[b] == if ok then Put(old(sent)[b], commands[b]) else old(sent)[b]
    {
      for b := 0 to |commands|
        invariant forall j | 0 <= j < b :: commands[j].Some? ==> canPut[j]
      {
        if commands[b].Some? && !canPut[b] {
          return false;
        }
      }
      for b := 0 to |commands|
        invariant |sent| == old(|sent|)
        invariant forall j | 0 <= j < |sent| ::
                    sent[j] == if j < b then Put(old(sent)[j], commands[j]) else old(sent)[j]
      {
        if commands[b].Some? {
          sent := sent[b := sent[b] + [commands[b].value]];
        }
      }
      return true;
    }

    /** Takes every awaited answer when all of them have arrived, and none otherwise. */
    method TryCollectCommandResponses(canGet: seq<bool>) returns (ok: bool)
      requires |canGet| == |commands| == |answers|
      modifies this`answers
      ensures ok <==> forall b | 0 <= b < |commands| :: commands[b].Some? ==> canGet[b]
      ensures |answers| == old(|answers|)
      ensures forall b | 0 <= b < |answers| ::
                answers[b] == old(answers)[b] + (if ok && commands[b].Some? then 1 else 0)
    {
      for b := 0 to |commands|
        invariant forall j | 0 <= j < b :: commands[j].Some? ==> canGet[j]
      {
        if commands[b].Some? && !canGet[b] {
          return false;
        }
      }
      for b := 0 to |commands|
        invariant |answers| == old(|answers|)
        invariant forall j | 0 <= j < |answers| ::
                    answers[j] == old(answers)[j] + (if j < b && commands[j].Some? then 1 else 0)
      {
        if commands[b].Some? {
          answers := answers[b := answers[b] + 1];
        }
      }
      return true;
    }

    /** One clock edge. START falls only when every bank has been sent the operation's command exactly
        once since it rose, and has answered it; and it does fall at the first edge at which every bank
        that has a command can take it, or has taken it, and answers. */
    method HandleCommands(canPut: seq<bool>, canGet: seq<bool>)
      requires Valid() && |canPut| == |canGet| == |sent|
      modifies this
      ensures Valid() && (start ==> old(start)) && (addr, size, opcode) == old((addr, size, opcode))
      ensures |sent| == old(|sent|)
      ensures old(start) && !start ==> forall b | 0 <= b < |sent| ::
                sent[b] == Put(old(earlier)[b], commands[b]) && |sent[b]| == answers[b]
      ensures old(start) && !old(prepared) ==> forall b | 0 <= b < |commands| ::
                commands[b] == if IsMaintenance(opcode) then Some(Command(addr, size, opcode)) else None
      ensures old(prepared) ==> commands == old(commands)
      ensures start ==> earlier == old(earlier)
      ensures old(start) ==>
                (!start <==> forall b | 0 <= b < |commands| && commands[b].Some? ::
                               (old(dispatched) || canPut[b]) && canGet[b])
      ensures !old(start) ==> sent == old(sent) && answers == old(answers)
    {
      if !start {
        return;
      }
      if !prepared {
        PrepareBankCommands();
        prepared := true;
      }
      if !dispatched {
        var ok := TryDispatchCommands(canPut);
        if !ok {
          return;
        }
        dispatched := true;
      }
      var ok := TryCollectCommandResponses(canGet);
      if !ok {
        return;
      }
      start, prepared, dispatched := false, false, false;
      earlier := sent;
    }
  }
}
