/** A memory copy over device memory and the caches of one SM. Cache operations work line by line in
    any order, the DMA engine byte by byte in any order, and a cache may drop a line at any time,
    writing it back first when it is dirty. No kernel runs meanwhile. */
module CopyCoherence {
  datatype Line = Line(data: seq<int>, dirty: bool)

  datatype Kind = HostToDevice | DeviceToHost | DeviceToDevice

  /** The memory-copy task's phases, with the lines or bytes already done. */
  datatype Phase =
    | Begin
    | FlushSource(lines: set<nat>)
    | FlushDestination(lines: set<nat>)
    | WaitDma(bytes: set<nat>)
    | InvalidateDestination(lines: set<nat>)
    | Succeeded

  /** `failed`: the firmware has given the copy up, and the hardware finishes what it was told to do. `before`
      is what the device saw when the copy began, `outside` the host's source data. */
  datatype State = State(
    width: nat, kind: Kind, src: nat, dst: nat, size: nat,
    mem: seq<int>, host: seq<int>, dcache: map<nat, Line>, icache: map<nat, seq<int>>,
    phase: Phase, failed: bool, before: seq<int>, outside: seq<int>)

  predicate FromDevice(s: State) { !s.kind.HostToDevice? }

  predicate ToDevice(s: State) { !s.kind.DeviceToHost? }

  predicate InDestination(s: State, a: int) { ToDevice(s) && s.dst <= a < s.dst + s.size }

  /** Line `l` holds a byte of the range at `base`. */
  predicate Touches(s: State, base: nat, l: nat) {
    s.width > 0 && s.size > 0 && base / s.width <= l <= (base + s.size - 1) / s.width
  }

  /** What a load by the SM sees at address `a`. */
  function Visible(s: State, a: nat): int
    requires Shape(s) && a < |s.mem|
  {
    var l := a / s.width;
    if l in s.dcache then s.dcache[l].data[a % s.width] else s.mem[a]
  }

  ghost predicate Shape(s: State) {
    && s.width > 0 && |s.mem| == |s.before| && |s.host| == |s.outside|
    && (forall l | l in s.dcache :: |s.dcache[l].data| == s.width)
    && (FromDevice(s) ==> s.src + s.size <= |s.mem|) && (!FromDevice(s) ==> s.src + s.size <= |s.outside|)
    && (ToDevice(s) ==> s.dst + s.size <= |s.mem|) && (!ToDevice(s) ==> s.dst + s.size <= |s.host|)
    && (s.kind.DeviceToDevice? && s.size > 0 ==> s.src + s.size <= s.dst || s.dst + s.size <= s.src)
  }

  // ---- Hardware -------------------------------------------------------------------------------

  function WriteLine(mem: seq<int>, width: nat, l: nat, data: seq<int>): seq<int>
    requires width > 0 && |data| == width
  {
    seq(|mem|, a requires 0 <= a < |mem| => if a / width == l then data[a % width] else mem[a])
  }

  /** Writes line `l` back when it is dirty, and keeps it, clean, or drops it. */
  function WriteBack(s: State, l: nat, keep: bool): State
    requires Shape(s)
  {
    if l !in s.dcache then s
    else
      var line := s.dcache[l];
      s.(mem := if line.dirty then WriteLine(s.mem, s.width, l, line.data) else s.mem,
         dcache := if keep then s.dcache[l := line.(dirty := false)] else s.dcache - {l})
  }

  /** A cache controller flushes line `l` of the operation's range. */
  function FlushLine(s: State, l: nat, keep: bool): State
    requires Shape(s) && (s.phase.FlushSource? || s.phase.FlushDestination?)
  {
    WriteBack(s, l, keep).(phase := s.phase.(lines := s.phase.lines + {l}))
  }

  /** Both caches drop line `l`, written back or not. */
  function DropLine(s: State, l: nat): State
    requires s.phase.InvalidateDestination?
  {
    s.(dcache := s.dcache - {l}, icache := s.icache - {l}, phase := InvalidateDestination(s.phase.lines + {l}))
  }

  /** The DMA engine moves byte `i`. */
  function MoveByte(s: State, i: nat): State
    requires Shape(s) && i < s.size && s.phase.WaitDma?
  {
    var moved := WaitDma(s.phase.bytes + {i});
    match s.kind
    case HostToDevice => s.(mem := s.mem[s.dst + i := s.outside[s.src + i]], phase := moved)
    case DeviceToHost => s.(host := s.host[s.dst + i := s.mem[s.src + i]], phase := moved)
    case DeviceToDevice => s.(mem := s.mem[s.dst + i := s.mem[s.src + i]], phase := moved)
  }

  // ---- The phase machine ------------------------------------------------------------------------

  /** Where the copy goes when a phase has nothing left to do. */
  function NextPhase(s: State): Phase {
    match s.phase
    case Begin => if s.size == 0 then Succeeded else if FromDevice(s) then FlushSource({}) else FlushDestination({})
    case FlushSource(_) => if ToDevice(s) then FlushDestination({}) else WaitDma({})
    case FlushDestination(_) => WaitDma({})
    case WaitDma(_) => if ToDevice(s) then InvalidateDestination({}) else Succeeded
    case InvalidateDestination(_) => Succeeded
    case last => last
  }

  ghost predicate AllLines(s: State, base: nat, lines: set<nat>) {
    forall l: nat | Touches(s, base, l) :: l in lines
  }

  ghost predicate NothingLeft(s: State) {
    match s.phase
    case FlushSource(lines) => AllLines(s, s.src, lines)
    case FlushDestination(lines) => AllLines(s, s.dst, lines)
    case WaitDma(bytes) => forall i: nat | i < s.size :: i in bytes
    case InvalidateDestination(lines) => AllLines(s, s.dst, lines)
    case _ => true
  }

  /** A cache drops a line of its own accord. */
  ghost predicate Evict(s: State, s': State)
    requires Shape(s)
  {
    exists l: nat :: s' == WriteBack(s, l, false)
  }

  ghost predicate Flush(s: State, s': State)
    requires Shape(s)
  {
    exists l: nat, keep: bool ::
      ((s.phase.FlushSource? && Touches(s, s.src, l)) || (s.phase.FlushDestination? && Touches(s, s.dst, l)))
      && s' == FlushLine(s, l, keep)
  }

  ghost predicate Move(s: State, s': State)
    requires Shape(s)
  {
    exists i: nat :: s.phase.WaitDma? && i < s.size && i !in s.phase.bytes && s' == MoveByte(s, i)
  }

  ghost predicate Invalidate(s: State, s': State) {
    exists l: nat :: s.phase.InvalidateDestination? && Touches(s, s.dst, l) && s' == DropLine(s, l)
  }

  ghost predicate Step(s: State, s': State)
    requires Shape(s)
  {
    || (!s.failed && NothingLeft(s) && s' == s.(phase := NextPhase(s)))
    || (!s.phase.Succeeded? && s' == s.(failed := true))
    || Evict(s, s') || Flush(s, s') || Move(s, s') || Invalidate(s, s')
  }

  /** A clean line agrees with memory. */
  ghost predicate Coherent(s: State)
    requires Shape(s)
  {
    forall a: nat | a < |s.mem| :: a / s.width in s.dcache && !s.dcache[a / s.width].dirty ==> Visible(s, a) == s.mem[a]
  }

  ghost predicate Init(s: State) {
    && Shape(s) && s.phase.Begin? && !s.failed && Coherent(s)
    && (forall a: nat | a < |s.mem| :: s.before[a] == Visible(s, a))
    && s.outside == s.host
  }
}
