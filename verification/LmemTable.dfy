/** The local-memory allocator of one SM as values: what its free-region array and its table of
    active allocations hold, and what allocation and release do to them. */
module LmemTable {
  import opened Arithmetic
  import opened Options

  datatype Region = Region(base: nat, size: nat) {
    function End(): nat { base + size }
    predicate Holds(x: int) { base <= x < base + size }
  }

  const EMPTY := Region(0, 0)

  /** An entry of the active table; an unused entry is zeroed. */
  datatype Entry = Entry(block: Region, valid: bool)

  const UNUSED := Entry(EMPTY, false)

  const ALIGNMENT: nat := 256

  datatype Table = Table(window: Region, limit: nat, free: seq<Region>, active: seq<Entry>, activeCount: int,
                         usage: int)

  // ---- Alignment --------------------------------------------------------------------------

  /** align_up_u64 with the allocator's alignment; the sum is taken in 64 bits. */
  function AlignUp(size: nat): nat {
    (size + ALIGNMENT - 1) % TWO_64 / ALIGNMENT * ALIGNMENT
  }

  /** The rounded size covers the request exactly when the 64-bit sum does not wrap. */
  lemma AlignUpCovers(size: nat)
    requires size < TWO_64
    ensures AlignUp(size) >= size <==> size <= TWO_64 - ALIGNMENT
    ensures size <= TWO_64 - ALIGNMENT ==> AlignUp(size) % ALIGNMENT == 0 && AlignUp(size) < size + ALIGNMENT
    ensures size > TWO_64 - ALIGNMENT ==> AlignUp(size) == 0
  {
    if size > TWO_64 - ALIGNMENT {
      assert (size + ALIGNMENT - 1) % TWO_64 == size + ALIGNMENT - 1 - TWO_64;
    }
  }

  // ---- The free-region array --------------------------------------------------------------

  function Position(free: seq<Region>, base: nat): (k: nat)
    ensures k <= |free| && (forall i | 0 <= i < k :: free[i].base < base)
    ensures k < |free| ==> free[k].base >= base
  {
    if free == [] || free[0].base >= base then 0 else 1 + Position(free[1..], base)
  }

  /** The free regions with `r` given back: at its place in address order, merged with a neighbour
      that touches it. */
  function Insert(free: seq<Region>, r: Region): seq<Region> {
    InsertAt(free, r, Position(free, r.base))
  }

  function InsertAt(free: seq<Region>, r: Region, k: nat): seq<Region>
    requires k <= |free|
  {
    var left := k > 0 && free[k - 1].End() == r.base;
    var right := k < |free| && r.End() == free[k].base;
    var r' := if left then Region(free[k - 1].base, free[k - 1].size + r.size) else r;
    var r'' := if right then Region(r'.base, r'.size + free[k].size) else r';
    Splice(free, if left then k - 1 else k, [r''], if right then k + 1 else k)
  }

  /** `free` with the regions from `a` up to `b` replaced. */
  function Splice(free: seq<Region>, a: nat, middle: seq<Region>, b: nat): seq<Region>
    requires a <= b <= |free|
  {
    free[..a] + middle + free[b..]
  }

  /** The free regions after the first `n` bytes of region `i` are taken. */
  function Take(free: seq<Region>, i: nat, n: nat): seq<Region>
    requires i < |free| && n <= free[i].size
  {
    Splice(free, i, if free[i].size == n then [] else [Region(free[i].base + n, free[i].size - n)], i + 1)
  }

  function FirstFit(free: seq<Region>, n: nat, from: nat): (i: nat)
    requires from <= |free|
    ensures from <= i <= |free| && (forall j | from <= j < i :: free[j].size < n)
    ensures i < |free| ==> free[i].size >= n
    decreases |free| - from
  {
    if from == |free| || free[from].size >= n then from else FirstFit(free, n, from + 1)
  }

  // ---- The active table -------------------------------------------------------------------

  function FirstUnused(active: seq<Entry>, from: nat): (i: nat)
    requires from <= |active|
    ensures from <= i <= |active| && (forall j | from <= j < i :: active[j].valid)
    ensures i < |active| ==> !active[i].valid
    decreases |active| - from
  {
    if from == |active| || !active[from].valid then from else FirstUnused(active, from + 1)
  }

  predicate IsAt(e: Entry, base: nat) {
    e.valid && e.block.base == base
  }

  function Lookup(active: seq<Entry>, base: nat, from: nat): (i: nat)
    requires from <= |active|
    ensures from <= i <= |active| && (forall j | from <= j < i :: !IsAt(active[j], base))
    ensures i < |active| ==> IsAt(active[i], base)
    decreases |active| - from
  {
    if from == |active| || IsAt(active[from], base) then from else Lookup(active, base, from + 1)
  }

  function ValidSlots(active: seq<Entry>): set<nat> {
    set i: nat | i < |active| && active[i].valid
  }

  function Usage(active: seq<Entry>): nat {
    if active == [] then 0 else Usage(active[1..]) + (if active[0].valid then active[0].block.size else 0)
  }

  // ---- Operations -------------------------------------------------------------------------

  function Alloc(t: Table, size: nat): (Table, Option<nat>) {
    var n := AlignUp(size);
    var i := FirstFit(t.free, n, 0);
    var slot := FirstUnused(t.active, 0);
    if size == 0 || n > t.window.size || t.activeCount >= t.limit || i == |t.free| || slot == |t.active| then (t, None)
    else
      var block := Region(t.free[i].base, n);
      (t.(free := Take(t.free, i, n), active := t.active[slot := Entry(block, true)],
          activeCount := t.activeCount + 1, usage := t.usage + n),
       Some(block.base))
  }

  function Free(t: Table, base: nat): (Table, bool) {
    var slot := Lookup(t.active, base, 0);
    if slot == |t.active| then (t, false)
    else
      var block := t.active[slot].block;
      (t.(free := Insert(t.free, block), active := t.active[slot := UNUSED],
          activeCount := t.activeCount - 1, usage := t.usage - block.size),
       true)
  }

  function Fresh(window: Region, limit: nat): Table {
    Table(window, limit, [window], seq(limit, i => UNUSED), 0, 0)
  }

  // ---- The invariant ----------------------------------------------------------------------

  predicate FreeAt(free: seq<Region>, x: int) {
    exists i | 0 <= i < |free| :: free[i].Holds(x)
  }

  predicate LiveAt(active: seq<Entry>, x: int) {
    exists i | 0 <= i < |active| :: active[i].valid && active[i].block.Holds(x)
  }

  /** A non-empty region of the window, at a multiple of the alignment from the window's base. */
  predicate Placed(r: Region, window: Region) {
    r.size > 0 && window.base <= r.base && r.End() <= window.End() && (r.base - window.base) % ALIGNMENT == 0
  }

  /** Sorted by address, with at least one byte between neighbours. */
  ghost predicate FreeOk(free: seq<Region>, window: Region) {
    && (forall i | 0 <= i < |free| :: Placed(free[i], window))
    && (forall i, j | 0 <= i < j < |free| :: free[i].End() < free[j].base)
  }

  predicate EntryOk(e: Entry, window: Region) {
    if e.valid then Placed(e.block, window) && e.block.size % ALIGNMENT == 0 else e == UNUSED
  }

  predicate Disjoint(r: Region, q: Region) {
    r.End() <= q.base || q.End() <= r.base
  }

  ghost predicate ActiveOk(active: seq<Entry>, window: Region) {
    && (forall i | 0 <= i < |active| :: EntryOk(active[i], window))
    && (forall i, j | 0 <= i < j < |active| && active[i].valid && active[j].valid ::
          Disjoint(active[i].block, active[j].block))
  }

  /** Every byte of the window is in exactly one of the two tables. */
  ghost predicate Partition(t: Table) {
    forall x: int | t.window.Holds(x) :: FreeAt(t.free, x) <==> !LiveAt(t.active, x)
  }

  ghost predicate Inv(t: Table) {
    && |t.active| == t.limit
    && FreeOk(t.free, t.window) && ActiveOk(t.active, t.window) && Partition(t)
    && t.activeCount == |ValidSlots(t.active)| && t.usage == Usage(t.active)
  }
}
