/** The streaming multiprocessor as the work-group initializer sees it: a core that may refuse a
    command, applies an accepted one at once, and otherwise moves its warps on its own
    (ilha/include/ilha/warp_ctrl.h). */
module WarpCore {
  /** The four observed masks; exactly one holds per warp. */
  datatype Status = Idle | Active | Barrier | Trapped

  /** `stopping` marks a warp with an accepted Abort or Release that has not drained yet. */
  datatype Warp = Warp(status: Status, stopping: bool, mcause: nat, mepc: nat, mtval: nat, barrierPc: nat)

  /** `ticket` is a history tag: the position in arrival order of the work-group being activated. */
  datatype Command =
    | Activate(ticket: nat, mask: set<nat>, pc: nat, wgInfo: nat, cwidBase: nat)
    | Resume(mask: set<nat>)
    | Release(mask: set<nat>)
    | Abort(mask: set<nat>)

  const ECALL: nat := 11

  /** What the core may do to one warp between commands: only a running warp moves by itself, and a
      stopping warp keeps its state until it is idle. */
  predicate Evolves(a: Warp, b: Warp) {
    if a.status.Idle? then b.status.Idle? && !b.stopping
    else if a.stopping then b == a || (b.status.Idle? && !b.stopping)
    else if a.status.Active? then !b.status.Idle? && !b.stopping
    else b == a
  }

  function Applied(w: Warp, c: Command): Warp {
    match c
    case Activate(_, _, _, _, _) => w.(status := Active, stopping := false)
    case Resume(_) => w.(status := Active)
    case Release(_) => w.(stopping := true)
    case Abort(_) => w.(stopping := true)
  }

  function Apply(core: seq<Warp>, c: Command): seq<Warp> {
    seq(|core|, i requires 0 <= i < |core| => if i in c.mask then Applied(core[i], c) else core[i])
  }
}
