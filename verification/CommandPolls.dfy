/** A poll over a whole run of the host, the firmware and the launches. */
module CommandPolls {
  import opened CommandPath
  import E = EndToEnd
  import H = HostProtocol
  import HostCalls
  import opened Options
  import Runs

  function Hosts(run: seq<Node>): seq<H.State> {
    seq(|run|, i requires 0 <= i < |run| => run[i].h)
  }

  lemma {:induction false} Acts(h: H.State, h': H.State, a: H.Act)
    requires h' == H.Do(h, a)
    ensures H.Step(h, h')
  {
  }

  lemma {:induction false} RecordsAct(n: Node, n': Node, k: nat, r: nat, launch: Option<E.State>)
    requires Records(n, n', k, r, launch)
    ensures H.Step(n.h, n'.h)
  {
    Acts(n.h, n'.h, H.Publish(n.h.taken[k], r));
  }

  lemma {:induction false} RingsAct(n: Node, n': Node)
    requires Rings(n, n')
    ensures H.Step(n.h, n'.h)
  {
    var took, reported :| n'.h == H.DoDoorbell(n.h, took, reported);
    Acts(n.h, n'.h, H.Doorbell(took, reported));
  }

  lemma {:induction false} RebootsAct(n: Node, n': Node)
    requires Reboots(n, n')
    ensures H.Step(n.h, n'.h)
  {
    var boot: nat :| n'.h == H.DoReboot(n.h, boot);
    Acts(n.h, n'.h, H.FirmwareReboots(boot));
  }

  lemma {:induction false} StoresAct(n: Node, n': Node)
    requires Stores(n, n')
    ensures H.Step(n.h, n'.h)
  {
    var k, r, launch :| Records(n, n', k, r, launch);
    RecordsAct(n, n', k, r, launch);
  }

  /** Whatever the whole system does, the host and the pool do one of their own steps, or nothing. */
  lemma {:induction false} HostActs(n: Node, n': Node)
    requires Step(n, n')
    ensures H.Step(n.h, n'.h)
  {
    if HostMoves(n, n') {
      var a: H.Act :| n'.h == H.Do(n.h, a);
      Acts(n.h, n'.h, a);
    } else if Rings(n, n') {
      RingsAct(n, n');
    } else if Takes(n, n') {
      Acts(n.h, n'.h, H.TakePacket);
    } else if Reboots(n, n') {
      RebootsAct(n, n');
    } else if Stores(n, n') {
      StoresAct(n, n');
    } else {
      Acts(n.h, n'.h, H.FirmwareReboots(0));
    }
  }

  lemma {:induction false} HostsRun(run: seq<Node>)
    requires Runs.IsRun(Init, Step, run)
    ensures Runs.IsRun(H.Init, H.Step, Hosts(run))
  {
    var hs := Hosts(run);
    assert Init(run[0]);
    forall k: nat | k < |hs| - 1 ensures Runs.StepAt(H.Step, hs, k) {
      assert Runs.StepAt(Step, run, k);
      HostActs(run[k], run[k + 1]);
    }
  }

  /** A host learns "rebooted" of a command only if its token was stale when the poll began or the firmware
      restarted since; otherwise, and if the token held its slot, it learns what the pool said. */
  lemma {:induction false} PollTellsReboot(run: seq<Node>, n: nat, id: nat) returns (b: nat, d: nat)
    requires Runs.IsRun(Init, Step, run) && n < |run| && id in run[n].h.calls && run[n].h.calls[id].PollDone?
    ensures HostCalls.Open(Hosts(run), id, b, n)
    ensures HostCalls.PollReported(Hosts(run), b, d, n, run[n].h.calls[id])
  {
    HostsRun(run);
    b, d := HostCalls.PollReadsTheSlot(Hosts(run), n, id);
  }
}
