/** The host, the firmware and the kernel launch it runs as one system: what a host learns about a launch. */
module CommandPath {
  import E = EndToEnd
  import F = FwTasks
  import FwKinds
  import FwTheorems
  import H = HostProtocol
  import HostTheorems
  import Launch
  import opened Options
  import Runs
  import Tokens

  /** What a published result was about: the kind of the command, and the launch that ran for it, if any. */
  datatype Note = Note(kind: F.Kind, launch: Option<E.State>)

  /** `launch` is the last launch the firmware began. `notes` is history: what each publication in the
      pool's log was about. */
  datatype Node = Node(h: H.State, fw: F.State, launch: Option<E.State>, notes: map<nat, Note>)

  // ---- Steps --------------------------------------------------------------------------------------

  /** The host by itself, or the call of one of its users. */
  ghost predicate HostMoves(n: Node, n': Node) {
    exists a: H.Act ::
      && !a.TakePacket? && !a.Publish? && n'.h == H.Do(n.h, a)
      && |n'.h.submitted| == |n.h.submitted| && n'.h.fwBoot == n.h.fwBoot && n' == n.(h := n'.h)
  }

  /** A doorbell takes effect: the firmware has one more packet to take. */
  ghost predicate Rings(n: Node, n': Node) {
    exists took, reported, p: F.Packet ::
      && n'.h == H.DoDoorbell(n.h, took, reported) && |n'.h.submitted| == |n.h.submitted| + 1
      && n' == n.(h := n'.h, fw := n.fw.(packets := n.fw.packets + [p]))
  }

  /** The firmware copies a packet and advances the read pointer. */
  ghost predicate Takes(n: Node, n': Node) {
    && n.fw.dispatch.DTake? && !n.fw.dispatch.DJumped? && !n.fw.reboot && |n.fw.slots| < |n.fw.packets|
    && |n.fw.cache.done| == |n.fw.cache.run|
    && n' == n.(h := H.DoTake(n.h), fw := F.Take(n.fw))
  }

  /** The firmware restarts while the host waits for it. */
  ghost predicate Reboots(n: Node, n': Node) {
    exists boot: nat ::
      && n.h.lock.Resetting? && boot != 0 && boot != n.h.fwBoot && n'.h == H.DoReboot(n.h, boot)
      && F.Init(n'.fw) && n' == n.(h := n'.h, fw := n'.fw, launch := None)
  }

  /** The result of command `k` reaches its completion slot. */
  ghost predicate Records(n: Node, n': Node, k: nat, r: nat, launch: Option<E.State>) {
    && k < |n.h.taken| && k < |n.fw.packets|
    && (var h := H.DoPublish(n.h, n.h.taken[k], r);
        var note := Note(n.fw.packets[k].kind, launch);
        n' == n.(h := h, fw := n'.fw, notes := if h.log == n.h.log then n.notes else n.notes[|n.h.log| := note]))
  }

  /** A result as the host sees it: the firmware's tasks do not tell one failure from another. */
  predicate Stands(r: nat, result: nat) {
    r == Tokens.SUCCESS <==> result == Tokens.SUCCESS
  }

  ghost predicate DispatchStores(n: Node, n': Node) {
    && (n.fw.dispatch.DBarrierDone? || n.fw.dispatch.DPublish?)
    && (var k := n.fw.dispatch.n;
        var result := if n.fw.dispatch.DPublish? then n.fw.dispatch.result else Tokens.SUCCESS;
        && n'.fw == n.fw.(slots := F.Set(n.fw.slots, k, F.Terminal(result)), dispatch := F.DTop)
        && exists r: nat :: Stands(r, result) && Records(n, n', k, r, None))
  }

  ghost predicate CacheStores(n: Node, n': Node) {
    && n.fw.cacheRetire.CPublish? && n.fw.cache.token.Some? && n'.fw == F.CacheRetire(n.fw)
    && Records(n, n', n.fw.cache.token.value, Tokens.SUCCESS, None)
  }

  ghost predicate CopyStores(n: Node, n': Node) {
    && n.fw.copyTask.MPublish? && n'.fw == F.CopyStore(n.fw)
    && exists r: nat :: Stands(r, n.fw.copyTask.result) && Records(n, n', n.fw.copy.token, r, None)
  }

  /** The kernel's last work-group has been counted, and the launch's result is stored. */
  ghost predicate LaunchStores(n: Node, n': Node) {
    && n.fw.retire.RPublish? && n.fw.retire.kid < |n.fw.kernels| && n.launch.Some?
    && n.launch.value.launch.published != []
    && (var (kid, r) := (n.fw.retire.kid, n.launch.value.launch.published[0].result);
        && n'.fw == n.fw.(slots := F.Set(n.fw.slots, n.fw.kernels[kid].token, F.Terminal(r)),
                          kernels := n.fw.kernels[kid := n.fw.kernels[kid].(published := true)], retire := F.RFree(kid))
        && Records(n, n', n.fw.kernels[kid].token, r, n.launch))
  }

  ghost predicate Stores(n: Node, n': Node) {
    && FwTheorems.Step(n.fw, n'.fw) && n'.launch == n.launch
    && (DispatchStores(n, n') || CacheStores(n, n') || CopyStores(n, n') || LaunchStores(n, n'))
  }

  /** The firmware's tasks, where they publish nothing. A launch begins with its first work-group, and its
      kernel is retired when the launch has ended. */
  ghost predicate FirmwareMoves(n: Node, n': Node) {
    && FwTheorems.Step(n.fw, n'.fw) && n' == n.(fw := n'.fw, launch := n'.launch)
    && n'.fw.packets == n.fw.packets && |n'.fw.slots| == |n.fw.slots|
    && (forall k | 0 <= k < |n.fw.slots| && n'.fw.slots[k].Terminal? :: n.fw.slots[k].Terminal?)
    && (if n.fw.dispatch.DEnqueue? && n'.fw.dispatch != n.fw.dispatch
        then n'.launch.Some? && E.Init(n'.launch.value)
        else n'.launch == n.launch)
    && (n'.fw.retire.RPublish? && !n.fw.retire.RPublish? ==> n.launch.Some? && n.launch.value.launch.published != [])
  }

  /** The launch and its SMs move. */
  ghost predicate LaunchMoves(n: Node, n': Node) {
    && n.launch.Some? && n'.launch.Some? && E.Step(n.launch.value, n'.launch.value)
    && n' == n.(launch := n'.launch)
  }

  ghost predicate Step(n: Node, n': Node) {
    || HostMoves(n, n') || Rings(n, n') || Takes(n, n') || Reboots(n, n')
    || Stores(n, n') || FirmwareMoves(n, n') || LaunchMoves(n, n')
  }

  ghost predicate Init(n: Node) {
    H.Init(n.h) && F.Init(n.fw) && n.launch == None && n.notes == map[]
  }

  ghost predicate Reachable(n: Node) {
    Runs.Reachable(Init, Step, n)
  }

  // ---- The invariant --------------------------------------------------------------------------------

  /** The result says of a launch whether a warp of it trapped. */
  ghost predicate NoteOk(note: Note, result: nat) {
    && (note.launch.Some? ==> E.Reachable(note.launch.value) && note.launch.value.launch.published != [])
    && (note.kind.Launch? ==> (result == Tokens.SUCCESS <==> note.launch.Some? && E.NoTrap(note.launch.value)))
  }

  ghost predicate NotedAt(n: Node, j: nat) {
    j < |n.h.log| && n.h.log[j].Published? ==> j in n.notes && NoteOk(n.notes[j], n.h.log[j].result)
  }

  /** Host and firmware agree on what was submitted and taken since the firmware came up. */
  predicate InStep(n: Node) {
    |n.h.submitted| == |n.fw.packets| && |n.h.taken| == |n.fw.slots|
  }

  predicate Retires(fw: F.State, launch: Option<E.State>) {
    fw.retire.RPublish? ==> launch.Some? && launch.value.launch.published != []
  }

  ghost predicate Parts(n: Node) {
    H.Reachable(n.h) && FwTheorems.Reachable(n.fw) && (n.launch.Some? ==> E.Reachable(n.launch.value))
  }

  ghost predicate Inv(n: Node) {
    Parts(n) && InStep(n) && Retires(n.fw, n.launch) && forall j: nat :: NotedAt(n, j)
  }

  /** The pool's log is unchanged, or gains something that is no result. */
  lemma {:induction false} NotesFrame(n: Node, n': Node)
    requires (forall j: nat :: NotedAt(n, j)) && n'.notes == n.notes && n.h.log <= n'.h.log
    requires forall j | |n.h.log| <= j < |n'.h.log| :: n'.h.log[j].Written?
    ensures forall j: nat :: NotedAt(n', j)
  {
    forall j: nat ensures NotedAt(n', j) {
      assert NotedAt(n, j);
    }
  }

  // ---- The host -------------------------------------------------------------------------------------

  lemma {:induction false} HostInv(n: Node, n': Node, a: H.Act)
    requires Inv(n) && !a.TakePacket? && !a.Publish? && n'.h == H.Do(n.h, a)
    requires |n'.h.submitted| == |n.h.submitted| && n'.h.fwBoot == n.h.fwBoot && n' == n.(h := n'.h)
    ensures Inv(n')
  {
    HostTheorems.Then(n.h, a, n'.h);
    HostTheorems.OnlyWrites(n.h, a);
    HostTheorems.OnlyTaking(n.h, a);
    NotesFrame(n, n');
  }

  lemma {:induction false} RingsInv(n: Node, n': Node, took: bool, reported: bool, p: F.Packet)
    requires Inv(n) && n'.h == H.DoDoorbell(n.h, took, reported) && |n'.h.submitted| == |n.h.submitted| + 1
    requires n' == n.(h := n'.h, fw := n.fw.(packets := n.fw.packets + [p]))
    ensures Inv(n')
  {
    HostTheorems.DoorbellReached(n.h, took, reported);
    FwKinds.AppendReached(n.fw, p);
    NotesFrame(n, n');
  }

  lemma {:induction false} TakesInv(n: Node, n': Node)
    requires Inv(n) && Takes(n, n')
    ensures Inv(n')
  {
    HostTheorems.PacketIsThere(n.h);
    FwKinds.TakeReached(n.fw);
    NotesFrame(n, n');
  }

  lemma {:induction false} RebootsInv(n: Node, n': Node, boot: nat)
    requires Inv(n) && n.h.lock.Resetting? && boot != 0 && boot != n.h.fwBoot && n'.h == H.DoReboot(n.h, boot)
    requires F.Init(n'.fw) && n' == n.(h := n'.h, fw := n'.fw, launch := None)
    ensures Inv(n')
  {
    HostTheorems.RebootReached(n.h, boot);
    FwKinds.RestartReached(n'.fw);
    NotesFrame(n, n');
  }

  // ---- The launch -------------------------------------------------------------------------------------

  lemma {:induction false} LaunchInv(n: Node, n': Node)
    requires Inv(n) && LaunchMoves(n, n')
    ensures Inv(n')
  {
    E.NextReached(n.launch.value, n'.launch.value);
    if n.fw.retire.RPublish? {
      E.PublishedStays(n.launch.value, n'.launch.value);
    }
    NotesFrame(n, n');
  }

  // ---- The firmware -----------------------------------------------------------------------------------

  lemma {:induction false} FirmwareInv(n: Node, n': Node)
    requires Inv(n) && FirmwareMoves(n, n')
    ensures Inv(n')
  {
    FwKinds.NextReached(n.fw, n'.fw);
    if n.fw.dispatch.DEnqueue? && n'.fw.dispatch != n.fw.dispatch {
      FwKinds.OneOrTheOther(n.fw);
      FwKinds.StaysRetired(n.fw, n'.fw);
      Runs.InitialIsReached(E.Init, E.Step, n'.launch.value);
    }
    NotesFrame(n, n');
  }

  // ---- Publishing -----------------------------------------------------------------------------------------

  /** A result with a note that fits it keeps every note right. */
  lemma {:induction false} RecordsNotes(n: Node, n': Node, k: nat, r: nat, launch: Option<E.State>)
    requires (forall j: nat :: NotedAt(n, j)) && Records(n, n', k, r, launch)
    requires NoteOk(Note(n.fw.packets[k].kind, launch), r)
    ensures forall j: nat :: NotedAt(n', j)
    ensures n'.h.taken == n.h.taken && n'.h.submitted == n.h.submitted
  {
    HostTheorems.PublishAdds(n.h, n.h.taken[k], r);
    if n'.h.log == n.h.log {
      NotesFrame(n, n');
    } else {
      NoteAdded(n, n', Note(n.fw.packets[k].kind, launch));
    }
  }

  lemma {:induction false} NoteAdded(n: Node, n': Node, note: Note)
    requires (forall j: nat :: NotedAt(n, j)) && n'.notes == n.notes[|n.h.log| := note]
    requires |n'.h.log| == |n.h.log| + 1 && n.h.log <= n'.h.log
    requires n'.h.log[|n.h.log|].Published? ==> NoteOk(note, n'.h.log[|n.h.log|].result)
    ensures forall j: nat :: NotedAt(n', j)
  {
    forall j: nat ensures NotedAt(n', j) {
      assert NotedAt(n, j);
    }
  }

  lemma {:induction false} RecordsParts(n: Node, n': Node, k: nat, r: nat, launch: Option<E.State>)
    requires Parts(n) && FwTheorems.Step(n.fw, n'.fw) && Records(n, n', k, r, launch) && n'.launch == n.launch
    ensures Parts(n')
  {
    HostTheorems.PublishReached(n.h, n.h.taken[k], r);
    FwKinds.NextReached(n.fw, n'.fw);
  }

  lemma {:induction false} RecordsInv(n: Node, n': Node, k: nat, r: nat, launch: Option<E.State>)
    requires Inv(n) && FwTheorems.Step(n.fw, n'.fw) && Records(n, n', k, r, launch) && n'.launch == n.launch
    requires FwKinds.OnlyStores(n.fw, n'.fw) && NoteOk(Note(n.fw.packets[k].kind, launch), r)
    ensures Inv(n')
  {
    RecordsParts(n, n', k, r, launch);
    RecordsNotes(n, n', k, r, launch);
  }

  /** What the dispatch task publishes by itself is never the success of a launch. */
  lemma {:induction false} DispatchNote(s: F.State, r: nat)
    requires FwTheorems.Reachable(s) && (s.dispatch.DBarrierDone? || s.dispatch.DPublish?) && s.dispatch.n < |s.packets|
    requires s.dispatch.DPublish? ==> Stands(r, s.dispatch.result)
    ensures NoteOk(Note(s.packets[s.dispatch.n].kind, None), r)
  {
    FwKinds.DispatchKind(s);
  }

  lemma {:induction false} CacheNote(s: F.State)
    requires FwTheorems.Reachable(s) && s.cacheRetire.CPublish? && s.cache.token.Some?
    requires s.cache.token.value < |s.packets|
    ensures NoteOk(Note(s.packets[s.cache.token.value].kind, None), Tokens.SUCCESS)
  {
    FwKinds.CacheKind(s);
  }

  lemma {:induction false} CopyNote(s: F.State, r: nat)
    requires FwTheorems.Reachable(s) && s.copyTask.MPublish? && s.copy.token < |s.packets|
    ensures NoteOk(Note(s.packets[s.copy.token].kind, None), r)
  {
    FwKinds.CopyKind(s);
  }

  lemma {:induction false} LaunchNote(kind: F.Kind, c: E.State)
    requires E.Reachable(c) && c.launch.published != []
    ensures NoteOk(Note(kind, Some(c)), c.launch.published[0].result)
  {
    E.SuccessIffNoTrap(c);
  }

  lemma {:induction false} DispatchStoresInv(n: Node, n': Node)
    requires Inv(n) && FwTheorems.Step(n.fw, n'.fw) && n'.launch == n.launch && DispatchStores(n, n')
    ensures Inv(n')
  {
    var result := if n.fw.dispatch.DPublish? then n.fw.dispatch.result else Tokens.SUCCESS;
    var r: nat :| Stands(r, result) && Records(n, n', n.fw.dispatch.n, r, None);
    DispatchNote(n.fw, r);
    RecordsInv(n, n', n.fw.dispatch.n, r, None);
  }

  lemma {:induction false} CacheStoresInv(n: Node, n': Node)
    requires Inv(n) && FwTheorems.Step(n.fw, n'.fw) && n'.launch == n.launch && CacheStores(n, n')
    ensures Inv(n')
  {
    CacheNote(n.fw);
    FwKinds.CacheRetireStores(n.fw);
    RecordsInv(n, n', n.fw.cache.token.value, Tokens.SUCCESS, None);
  }

  lemma {:induction false} CopyStoresInv(n: Node, n': Node)
    requires Inv(n) && FwTheorems.Step(n.fw, n'.fw) && n'.launch == n.launch && CopyStores(n, n')
    ensures Inv(n')
  {
    var r: nat :| Stands(r, n.fw.copyTask.result) && Records(n, n', n.fw.copy.token, r, None);
    CopyNote(n.fw, r);
    FwKinds.CopyStoreStores(n.fw);
    RecordsInv(n, n', n.fw.copy.token, r, None);
  }

  lemma {:induction false} LaunchStoresInv(n: Node, n': Node)
    requires Inv(n) && FwTheorems.Step(n.fw, n'.fw) && n'.launch == n.launch && LaunchStores(n, n')
    ensures Inv(n')
  {
    var k := n.fw.kernels[n.fw.retire.kid].token;
    LaunchNote(n.fw.packets[k].kind, n.launch.value);
    RecordsInv(n, n', k, n.launch.value.launch.published[0].result, n.launch);
  }

  lemma {:induction false} StoresInv(n: Node, n': Node)
    requires Inv(n) && Stores(n, n')
    ensures Inv(n')
  {
    if DispatchStores(n, n') {
      DispatchStoresInv(n, n');
    } else if CacheStores(n, n') {
      CacheStoresInv(n, n');
    } else if CopyStores(n, n') {
      CopyStoresInv(n, n');
    } else {
      LaunchStoresInv(n, n');
    }
  }

  // ---- Every run --------------------------------------------------------------------------------------------

  lemma {:induction false} InitInv(n: Node)
    requires Init(n)
    ensures Inv(n)
  {
    Runs.InitialIsReached(H.Init, H.Step, n.h);
    FwKinds.RestartReached(n.fw);
    forall j: nat ensures NotedAt(n, j) {
    }
  }

  lemma {:induction false} StepInv(n: Node, n': Node)
    requires Inv(n) && Step(n, n')
    ensures Inv(n')
  {
    if HostMoves(n, n') {
      var a: H.Act :| && !a.TakePacket? && !a.Publish? && n'.h == H.Do(n.h, a)
                      && |n'.h.submitted| == |n.h.submitted| && n'.h.fwBoot == n.h.fwBoot && n' == n.(h := n'.h);
      HostInv(n, n', a);
    } else if Rings(n, n') {
      var took, reported, p: F.Packet :|
        && n'.h == H.DoDoorbell(n.h, took, reported) && |n'.h.submitted| == |n.h.submitted| + 1
        && n' == n.(h := n'.h, fw := n.fw.(packets := n.fw.packets + [p]));
      RingsInv(n, n', took, reported, p);
    } else if Takes(n, n') {
      TakesInv(n, n');
    } else if Reboots(n, n') {
      var boot: nat :|
        && n.h.lock.Resetting? && boot != 0 && boot != n.h.fwBoot && n'.h == H.DoReboot(n.h, boot)
        && F.Init(n'.fw) && n' == n.(h := n'.h, fw := n'.fw, launch := None);
      RebootsInv(n, n', boot);
    } else if Stores(n, n') {
      StoresInv(n, n');
    } else if FirmwareMoves(n, n') {
      FirmwareInv(n, n');
    } else {
      LaunchInv(n, n');
    }
  }

  lemma {:induction false} ReachableInv(n: Node)
    requires Reachable(n)
    ensures Inv(n)
  {
    forall n | Init(n) ensures Inv(n) {
      InitInv(n);
    }
    forall n, n' | Inv(n) && Step(n, n') ensures Inv(n') {
      StepInv(n, n');
    }
    Runs.HoldsWhenReached(Init, Step, Inv, n);
  }

  // ---- What a host learns -------------------------------------------------------------------------------------

  /** A poll that ends with a result other than "rebooted" tells what the command's token was submitted for:
      the last thing that happened to the slot is the publication of that result for this token, and when
      the command is a launch, the result is success exactly when the launch ran and no warp of it, on any
      SM, trapped with a cause other than the environment call. */
  lemma {:induction false} PollTellsLaunch(n: Node, id: nat) returns (j: nat)
    requires Reachable(n) && id in n.h.calls && n.h.calls[id].PollDone? && n.h.calls[id].poll.PollTerminal?
    requires n.h.calls[id].poll.result != Tokens.REBOOTED
    ensures var (t, r, seen) := (n.h.calls[id].token, n.h.calls[id].poll.result, n.h.calls[id].seen);
            && HostTheorems.LastOf(n.h.log, seen, t.slot, j) && n.h.log[j] == H.Published(t, r) && j in n.notes
            && (n.notes[j].launch.Some? ==> E.Reachable(n.notes[j].launch.value))
            && (n.notes[j].kind.Launch? ==>
                  (r == Tokens.SUCCESS <==> n.notes[j].launch.Some? && E.NoTrap(n.notes[j].launch.value)))
  {
    ReachableInv(n);
    var c := n.h.calls[id];
    HostTheorems.PollIsTrue(n.h, id);
    j := HostTheorems.LastIndex(n.h.log, c.seen, c.token.slot);
    assert NotedAt(n, j);
  }
}
