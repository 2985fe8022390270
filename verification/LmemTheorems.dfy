/** What every sequence of allocations and releases keeps, and what the allocator promises. */
module LmemTheorems {
  import opened Arithmetic
  import opened LmemTable

  // ---- Insert and Take, byte by byte ------------------------------------------------------

  ghost predicate Apart(free: seq<Region>, r: Region) {
    forall i | 0 <= i < |free| :: Disjoint(free[i], r)
  }

  /** Neighbours decide: a block away from the regions on both sides of its place is away from all. */
  lemma {:induction false} NeighboursDecide(free: seq<Region>, window: Region, r: Region, k: nat)
    requires FreeOk(free, window) && r.size > 0 && k == Position(free, r.base)
    ensures Apart(free, r) <==> (k == 0 || free[k - 1].End() <= r.base) && (k == |free| || r.End() <= free[k].base)
  {
    if (k == 0 || free[k - 1].End() <= r.base) && (k == |free| || r.End() <= free[k].base) {
      forall i | 0 <= i < |free| ensures Disjoint(free[i], r) {
        assert i < k - 1 ==> free[i].End() < free[k - 1].base;
        assert i > k ==> free[k].End() < free[i].base;
      }
    }
  }

  lemma {:induction false} SpliceIndex(free: seq<Region>, a: nat, middle: seq<Region>, b: nat, j: nat)
    requires a <= b <= |free| && |middle| <= 1 && j < |Splice(free, a, middle, b)|
    ensures Splice(free, a, middle, b)[j]
         == if j < a then free[j] else if j < a + |middle| then middle[0] else free[j - a - |middle| + b]
  {
  }

  lemma {:induction false} SpliceOk(free: seq<Region>, window: Region, a: nat, middle: seq<Region>, b: nat)
    requires FreeOk(free, window) && a <= b <= |free| && |middle| <= 1
    requires middle != [] ==> Placed(middle[0], window)
    requires middle != [] && a > 0 ==> free[a - 1].End() < middle[0].base
    requires middle != [] && b < |free| ==> middle[0].End() < free[b].base
    ensures FreeOk(Splice(free, a, middle, b), window)
  {
    var free' := Splice(free, a, middle, b);
    forall j | 0 <= j < |free'| ensures Placed(free'[j], window) {
      SpliceIndex(free, a, middle, b, j);
    }
    forall i, j | 0 <= i < j < |free'| ensures free'[i].End() < free'[j].base {
      SpliceIndex(free, a, middle, b, i);
      SpliceIndex(free, a, middle, b, j);
      assert Placed(free'[i], window) && Placed(free'[j], window);
      assert i < a - 1 ==> free[i].End() < free[a - 1].base;
      assert j > a + |middle| ==> free[b].End() < free[j - a - |middle| + b].base;
    }
  }

  lemma {:induction false} SpliceHolds(free: seq<Region>, a: nat, middle: seq<Region>, b: nat, x: int)
    requires a <= b <= |free| && |middle| <= 1
    ensures FreeAt(Splice(free, a, middle, b), x)
       <==> (exists i | 0 <= i < |free| :: !(a <= i < b) && free[i].Holds(x)) || (middle != [] && middle[0].Holds(x))
  {
    var free' := Splice(free, a, middle, b);
    if FreeAt(free', x) {
      var j :| 0 <= j < |free'| && free'[j].Holds(x);
      SpliceIndex(free, a, middle, b, j);
    }
    if i :| 0 <= i < |free| && !(a <= i < b) && free[i].Holds(x) {
      var j := if i < a then i else i - b + a + |middle|;
      SpliceIndex(free, a, middle, b, j);
      assert free'[j].Holds(x);
    }
    if middle != [] && middle[0].Holds(x) {
      SpliceIndex(free, a, middle, b, a);
      assert free'[a].Holds(x);
    }
  }

  /** The merged region lies in the window, and apart from the regions it does not replace. */
  lemma {:induction false} MergedFits(free: seq<Region>, window: Region, r: Region, k: nat)
    requires FreeOk(free, window) && Placed(r, window) && k <= |free|
    requires k == 0 || free[k - 1].End() <= r.base
    requires k == |free| || r.End() <= free[k].base
    ensures var (a, m, b) := Merged(free, r, k);
            && Placed(m, window) && (a > 0 ==> free[a - 1].End() < m.base) && (b < |free| ==> m.End() < free[b].base)
  {
    var (a, m, b) := Merged(free, r, k);
    assert k > 0 ==> Placed(free[k - 1], window);
    assert k < |free| ==> Placed(free[k], window);
    assert 0 < a < k ==> free[a - 1].End() < free[a].base;
    assert k < b < |free| ==> free[k].End() < free[b].base;
  }

  lemma {:induction false} InsertKeepsOrder(free: seq<Region>, window: Region, r: Region)
    requires FreeOk(free, window) && Placed(r, window) && Apart(free, r)
    ensures FreeOk(Insert(free, r), window)
  {
    var k := Position(free, r.base);
    NeighboursDecide(free, window, r, k);
    MergedFits(free, window, r, k);
    var (a, m, b) := Merged(free, r, k);
    SpliceOk(free, window, a, [m], b);
  }

  /** The region a returned block becomes part of, and the regions it replaces. */
  function Merged(free: seq<Region>, r: Region, k: nat): (p: (nat, Region, nat))
    requires k <= |free|
    ensures p.0 <= p.2 <= |free| && InsertAt(free, r, k) == Splice(free, p.0, [p.1], p.2)
  {
    var left := k > 0 && free[k - 1].End() == r.base;
    var right := k < |free| && r.End() == free[k].base;
    var base := if left then free[k - 1].base else r.base;
    var end := if right then free[k].End() else r.End();
    (if left then k - 1 else k, Region(base, end - base), if right then k + 1 else k)
  }

  /** The merged region covers the block and the regions it replaces, and nothing else. */
  lemma {:induction false} MergedHolds(free: seq<Region>, r: Region, k: nat, x: int)
    requires k <= |free|
    ensures var (a, m, b) := Merged(free, r, k);
            m.Holds(x) <==> r.Holds(x) || (a < k && free[a].Holds(x)) || (k < b && free[k].Holds(x))
    ensures var (a, m, b) := Merged(free, r, k); k - 1 <= a <= k <= b <= k + 1
  {
  }

  lemma {:induction false} InsertAdds(free: seq<Region>, window: Region, r: Region, x: int)
    requires FreeOk(free, window) && Placed(r, window) && Apart(free, r)
    ensures FreeAt(Insert(free, r), x) <==> FreeAt(free, x) || r.Holds(x)
  {
    var k := Position(free, r.base);
    var (a, m, b) := Merged(free, r, k);
    MergedHolds(free, r, k, x);
    SpliceHolds(free, a, [m], b, x);
    if FreeAt(free, x) {
      var i :| 0 <= i < |free| && free[i].Holds(x);
      assert a <= i < b ==> i == a || i == k;
    }
  }

  lemma {:induction false} TakeKeepsOrder(free: seq<Region>, window: Region, i: nat, n: nat)
    requires FreeOk(free, window) && i < |free| && n <= free[i].size && n % ALIGNMENT == 0
    ensures FreeOk(Take(free, i, n), window)
  {
    var middle := if free[i].size == n then [] else [Region(free[i].base + n, free[i].size - n)];
    assert Placed(free[i], window);
    SpliceOk(free, window, i, middle, i + 1);
  }

  lemma {:induction false} TakeRemoves(free: seq<Region>, window: Region, i: nat, n: nat, x: int)
    requires FreeOk(free, window) && i < |free| && n <= free[i].size
    ensures FreeAt(Take(free, i, n), x) <==> FreeAt(free, x) && !Region(free[i].base, n).Holds(x)
  {
    var middle := if free[i].size == n then [] else [Region(free[i].base + n, free[i].size - n)];
    SpliceHolds(free, i, middle, i + 1, x);
    forall j | 0 <= j < |free| && j != i ensures !(free[i].Holds(x) && free[j].Holds(x)) {
      assert j < i ==> free[j].End() < free[i].base;
      assert i < j ==> free[i].End() < free[j].base;
    }
  }

  // ---- The active table -------------------------------------------------------------------

  lemma {:induction false} UsageUpdate(active: seq<Entry>, k: nat, e: Entry)
    requires k < |active|
    ensures Usage(active[k := e]) + (if active[k].valid then active[k].block.size else 0)
         == Usage(active) + (if e.valid then e.block.size else 0)
  {
    if k == 0 {
      assert active[k := e][1..] == active[1..];
    } else {
      assert active[k := e][1..] == active[1..][k - 1 := e];
      UsageUpdate(active[1..], k - 1, e);
    }
  }

  lemma {:induction false} UsageUnused(active: seq<Entry>)
    requires forall i | 0 <= i < |active| :: active[i] == UNUSED
    ensures Usage(active) == 0 && ValidSlots(active) == {}
  {
    if active != [] {
      UsageUnused(active[1..]);
    }
  }

  lemma {:induction false} ValidAdded(active: seq<Entry>, k: nat, e: Entry)
    requires k < |active| && !active[k].valid && e.valid
    ensures |ValidSlots(active[k := e])| == |ValidSlots(active)| + 1
  {
    assert ValidSlots(active[k := e]) == ValidSlots(active) + {k};
  }

  lemma {:induction false} ValidRemoved(active: seq<Entry>, k: nat)
    requires k < |active| && active[k].valid
    ensures |ValidSlots(active[k := UNUSED])| == |ValidSlots(active)| - 1
  {
    ValidAdded(active[k := UNUSED], k, active[k]);
    assert active[k := UNUSED][k := active[k]] == active;
  }

  /** With fewer valid entries than the table has, an unused one is found. */
  lemma {:induction false} UnusedExists(active: seq<Entry>)
    requires |ValidSlots(active)| < |active|
    ensures FirstUnused(active, 0) < |active|
  {
    ValidBound(active);
  }

  lemma {:induction false} ValidBound(active: seq<Entry>)
    ensures |ValidSlots(active)| <= |active|
    ensures |ValidSlots(active)| == |active| <==> forall i | 0 <= i < |active| :: active[i].valid
  {
    if active != [] {
      var n := |active| - 1;
      ValidBound(active[..n]);
      assert ValidSlots(active) == ValidSlots(active[..n]) + (if active[n].valid then {n} else {});
    }
  }

  lemma {:induction false} LiveAdded(active: seq<Entry>, k: nat, e: Entry, x: int)
    requires k < |active| && !active[k].valid && e.valid
    ensures LiveAt(active[k := e], x) <==> LiveAt(active, x) || e.block.Holds(x)
  {
    var active' := active[k := e];
    if e.block.Holds(x) {
      assert active'[k].valid && active'[k].block.Holds(x);
    }
    if LiveAt(active, x) {
      var i :| 0 <= i < |active| && active[i].valid && active[i].block.Holds(x);
      assert active'[i].valid && active'[i].block.Holds(x);
    }
  }

  lemma {:induction false} LiveRemoved(active: seq<Entry>, window: Region, k: nat, x: int)
    requires ActiveOk(active, window) && k < |active| && active[k].valid
    ensures LiveAt(active[k := UNUSED], x) <==> LiveAt(active, x) && !active[k].block.Holds(x)
  {
    LiveAdded(active[k := UNUSED], k, active[k], x);
    assert active[k := UNUSED][k := active[k]] == active;
    if LiveAt(active[k := UNUSED], x) && active[k].block.Holds(x) {
      var i :| 0 <= i < |active| && active[k := UNUSED][i].valid && active[i].block.Holds(x);
      assert Disjoint(active[i].block, active[k].block);
    }
  }

  /** A region of the window with no free byte is away from every free region. */
  lemma {:induction false} BlockIsApart(t: Table, k: nat)
    requires Inv(t) && k < |t.active| && t.active[k].valid
    ensures Apart(t.free, t.active[k].block)
  {
    var r := t.active[k].block;
    forall i | 0 <= i < |t.free| ensures Disjoint(t.free[i], r) {
      if !Disjoint(t.free[i], r) {
        var x := if t.free[i].base < r.base then r.base else t.free[i].base;
        assert t.free[i].Holds(x) && r.Holds(x) && t.window.Holds(x);
        assert FreeAt(t.free, x) && LiveAt(t.active, x);
      }
    }
  }

  // ---- What every operation keeps ---------------------------------------------------------

  lemma {:induction false} FreshInv(window: Region, limit: nat)
    requires window.size > 0
    ensures Inv(Fresh(window, limit))
  {
    var t := Fresh(window, limit);
    UsageUnused(t.active);
    forall x: int | window.Holds(x) ensures FreeAt(t.free, x) && !LiveAt(t.active, x) {
      assert t.free[0].Holds(x);
    }
  }

  lemma {:induction false} AllocInv(t: Table, size: nat)
    requires Inv(t) && size <= TWO_64 - ALIGNMENT
    ensures Inv(Alloc(t, size).0)
  {
    var (t', r) := Alloc(t, size);
    if r.Some? {
      AlignUpCovers(size);
      var n, i, slot := AlignUp(size), FirstFit(t.free, AlignUp(size), 0), FirstUnused(t.active, 0);
      var e := Entry(Region(t.free[i].base, n), true);
      TakeKeepsOrder(t.free, t.window, i, n);
      UsageUpdate(t.active, slot, e);
      ValidAdded(t.active, slot, e);
      AllocPartition(t, i, n, slot);
    }
  }

  lemma {:induction false} AllocPartition(t: Table, i: nat, n: nat, slot: nat)
    requires Inv(t) && i < |t.free| && 0 < n <= t.free[i].size && n % ALIGNMENT == 0
    requires slot < |t.active| && !t.active[slot].valid
    ensures var t' := t.(free := Take(t.free, i, n),
                         active := t.active[slot := Entry(Region(t.free[i].base, n), true)]);
            Partition(t') && ActiveOk(t'.active, t'.window)
  {
    var r := Region(t.free[i].base, n);
    var active' := t.active[slot := Entry(r, true)];
    forall x: int | t.window.Holds(x) ensures FreeAt(Take(t.free, i, n), x) <==> !LiveAt(active', x) {
      TakeRemoves(t.free, t.window, i, n, x);
      LiveAdded(t.active, slot, Entry(r, true), x);
      if r.Holds(x) {
        assert t.free[i].Holds(x);
      }
    }
    forall j | 0 <= j < |t.active| && t.active[j].valid ensures Disjoint(t.active[j].block, r) {
      BlockIsApart(t, j);
      assert Disjoint(t.free[i], t.active[j].block);
    }
  }

  lemma {:induction false} FreeInv(t: Table, base: nat)
    requires Inv(t)
    ensures Inv(Free(t, base).0)
  {
    var slot := Lookup(t.active, base, 0);
    if slot < |t.active| {
      var r := t.active[slot].block;
      BlockIsApart(t, slot);
      InsertKeepsOrder(t.free, t.window, r);
      UsageUpdate(t.active, slot, UNUSED);
      ValidRemoved(t.active, slot);
      forall x: int | t.window.Holds(x)
        ensures FreeAt(Insert(t.free, r), x) <==> !LiveAt(t.active[slot := UNUSED], x)
      {
        InsertAdds(t.free, t.window, r, x);
        LiveRemoved(t.active, t.window, slot, x);
      }
    }
  }

  // ---- Every run --------------------------------------------------------------------------

  datatype Op = Allocate(size: nat) | Release(base: nat)

  function Apply(t: Table, op: Op): Table {
    match op
    case Allocate(size) => Alloc(t, size).0
    case Release(base) => Free(t, base).0
  }

  function Run(t: Table, ops: seq<Op>): Table {
    if ops == [] then t else Apply(Run(t, ops[..|ops| - 1]), ops[|ops| - 1])
  }

  ghost predicate Sane(ops: seq<Op>) {
    forall i | 0 <= i < |ops| :: ops[i].Allocate? ==> ops[i].size <= TWO_64 - ALIGNMENT
  }

  /** After any sequence of allocations and releases, free and live blocks partition the window. */
  lemma {:induction false} RunInv(window: Region, limit: nat, ops: seq<Op>)
    requires window.size > 0 && Sane(ops)
    ensures Inv(Run(Fresh(window, limit), ops))
  {
    if ops == [] {
      FreshInv(window, limit);
    } else {
      var n := |ops| - 1;
      RunInv(window, limit, ops[..n]);
      var t := Run(Fresh(window, limit), ops[..n]);
      match ops[n]
      case Allocate(size) => AllocInv(t, size);
      case Release(base) => FreeInv(t, base);
    }
  }

  /** Why requests are bounded: a larger one wraps to zero bytes and, when a region and an entry are
      available, records an empty block that no byte of the window belongs to. */
  lemma {:induction false} WrappedRequestBreaksTable(t: Table, size: nat)
    requires Inv(t) && TWO_64 - ALIGNMENT < size < TWO_64
    ensures Inv(Alloc(t, size).0) <==> t.activeCount >= t.limit || t.free == []
  {
    AlignUpCovers(size);
    var (t', r) := Alloc(t, size);
    if t.activeCount < t.limit && t.free != [] {
      UnusedExists(t.active);
      var slot := FirstUnused(t.active, 0);
      assert t'.active[slot].valid && t'.active[slot].block.size == 0;
      assert !EntryOk(t'.active[slot], t'.window);
    }
  }

  // ---- The free array is the list of maximal gaps ------------------------------------------

  /** `r` is a run of window bytes no live block holds, and it cannot be extended either way. */
  ghost predicate MaximalGap(t: Table, r: Region) {
    && r.size > 0 && t.window.base <= r.base && r.End() <= t.window.End()
    && (forall x: int | r.Holds(x) :: !LiveAt(t.active, x))
    && (r.base == t.window.base || LiveAt(t.active, r.base - 1))
    && (r.End() == t.window.End() || LiveAt(t.active, r.End()))
  }

  /** No free byte directly before or after a free region. */
  lemma {:induction false} RegionEdges(free: seq<Region>, window: Region, i: nat)
    requires FreeOk(free, window) && i < |free|
    ensures !FreeAt(free, free[i].base - 1) && !FreeAt(free, free[i].End())
  {
    forall j | 0 <= j < |free| ensures !free[j].Holds(free[i].base - 1) && !free[j].Holds(free[i].End()) {
      assert j < i ==> free[j].End() < free[i].base;
      assert i < j ==> free[i].End() < free[j].base;
    }
  }

  /** A run of free bytes lies inside one free region. */
  lemma {:induction false} RunInRegion(free: seq<Region>, window: Region, r: Region, i: nat)
    requires FreeOk(free, window) && r.size > 0 && i < |free| && free[i].Holds(r.base)
    requires forall x: int | r.Holds(x) :: FreeAt(free, x)
    ensures r.End() <= free[i].End()
  {
    RegionEdges(free, window, i);
    assert r.Holds(free[i].End()) || r.End() <= free[i].End();
  }

  lemma {:induction false} RegionIsGap(t: Table, i: nat)
    requires Inv(t) && i < |t.free|
    ensures MaximalGap(t, t.free[i])
  {
    var r := t.free[i];
    assert Placed(r, t.window);
    RegionEdges(t.free, t.window, i);
    forall x: int | r.Holds(x) ensures !LiveAt(t.active, x) {
      assert t.window.Holds(x) && FreeAt(t.free, x);
    }
    assert r.base > t.window.base ==> t.window.Holds(r.base - 1);
    assert r.End() < t.window.End() ==> t.window.Holds(r.End());
  }

  /** The free array lists exactly the maximal gaps between live blocks. */
  lemma {:induction false} RegionsAreMaximalGaps(t: Table, r: Region)
    requires Inv(t)
    ensures r in t.free <==> MaximalGap(t, r)
  {
    if r in t.free {
      var i :| 0 <= i < |t.free| && t.free[i] == r;
      RegionIsGap(t, i);
    }
    if MaximalGap(t, r) {
      forall x: int | r.Holds(x) ensures FreeAt(t.free, x) {
        assert t.window.Holds(x);
      }
      assert r.Holds(r.base);
      var i :| 0 <= i < |t.free| && t.free[i].Holds(r.base);
      RunInRegion(t.free, t.window, r, i);
      GapFillsRegion(t, r, i);
    }
  }

  lemma {:induction false} GapFillsRegion(t: Table, r: Region, i: nat)
    requires Inv(t) && MaximalGap(t, r) && i < |t.free| && t.free[i].Holds(r.base) && r.End() <= t.free[i].End()
    ensures r == t.free[i]
  {
    var q := t.free[i];
    assert q.base < r.base ==> q.Holds(r.base - 1);
    assert r.End() < q.End() ==> q.Holds(r.End());
    RegionIsGap(t, i);
  }

  /** The array depends only on which bytes are live. */
  lemma {:induction false} FreeArrayIsCanonical(t: Table, u: Table)
    requires Inv(t) && Inv(u) && t.window == u.window
    requires forall x: int | t.window.Holds(x) :: LiveAt(t.active, x) <==> LiveAt(u.active, x)
    ensures t.free == u.free
  {
    forall r ensures r in t.free <==> r in u.free {
      SameGaps(t, u, r);
      RegionsAreMaximalGaps(t, r);
      RegionsAreMaximalGaps(u, r);
    }
    SortedIsUnique(t.free, u.free, t.window);
  }

  lemma {:induction false} SameGaps(t: Table, u: Table, r: Region)
    requires t.window == u.window
    requires forall x: int | t.window.Holds(x) :: LiveAt(t.active, x) <==> LiveAt(u.active, x)
    ensures MaximalGap(t, r) <==> MaximalGap(u, r)
  {
    if r.size > 0 && t.window.base <= r.base && r.End() <= t.window.End() {
      assert forall x: int | r.Holds(x) :: t.window.Holds(x);
      assert r.base > t.window.base ==> t.window.Holds(r.base - 1);
      assert r.End() < t.window.End() ==> t.window.Holds(r.End());
    }
  }

  lemma {:induction false} SortedIsUnique(a: seq<Region>, b: seq<Region>, window: Region)
    requires FreeOk(a, window) && FreeOk(b, window) && forall r :: r in a <==> r in b
    ensures a == b
  {
    assert a != [] ==> a[0] in b;
    assert b != [] ==> b[0] in a;
    if a != [] && b != [] {
      assert a[0] in b && b[0] in a;
      assert forall j | 0 < j < |a| :: a[0].base < a[j].base;
      assert forall j | 0 < j < |b| :: b[0].base < b[j].base;
      assert a[0] == b[0];
      forall r ensures r in a[1..] <==> r in b[1..] {
        assert a == [a[0]] + a[1..] && b == [b[0]] + b[1..];
        assert r in a <==> r == a[0] || r in a[1..];
        assert r in b <==> r == b[0] || r in b[1..];
      }
      SortedIsUnique(a[1..], b[1..], window);
    }
  }

  // ---- No overflow of the free array --------------------------------------------------------

  /** Behind every free region but the last starts a live block. */
  lemma {:induction false} Separator(t: Table, i: nat) returns (slot: nat)
    requires Inv(t) && i + 1 < |t.free|
    ensures slot in ValidSlots(t.active) && t.active[slot].block.base == t.free[i].End()
  {
    var x := t.free[i].End();
    assert Placed(t.free[i], t.window) && Placed(t.free[i + 1], t.window);
    RegionEdges(t.free, t.window, i);
    assert t.window.Holds(x) && t.window.Holds(x - 1);
    assert t.free[i].Holds(x - 1);
    slot :| 0 <= slot < |t.active| && t.active[slot].valid && t.active[slot].block.Holds(x);
    assert !t.active[slot].block.Holds(x - 1);
  }

  lemma {:induction false} Separators(t: Table, n: nat) returns (slots: set<nat>)
    requires Inv(t) && n < |t.free|
    ensures slots <= ValidSlots(t.active) && |slots| == n
    ensures forall k | k in slots :: t.active[k].block.base < t.free[n].base
  {
    if n == 0 {
      slots := {};
    } else {
      var rest := Separators(t, n - 1);
      var k := Separator(t, n - 1);
      assert t.free[n - 1].base < t.free[n - 1].End() < t.free[n].base;
      slots := rest + {k};
    }
  }

  /** There is at most one free region more than there are live blocks. */
  lemma {:induction false} FreeCountBound(t: Table)
    requires Inv(t)
    ensures |t.free| <= t.activeCount + 1 <= t.limit + 1
  {
    if t.free != [] {
      var slots := Separators(t, |t.free| - 1);
      SubsetCard(slots, ValidSlots(t.active));
    }
    ValidBound(t.active);
  }

  /** Releasing succeeds exactly for the base of a live block, and the region it gives back always
      has room in an array of `limit + 1` entries. */
  lemma {:induction false} ReleaseNeverFails(t: Table, base: nat)
    requires Inv(t)
    ensures Free(t, base).1 <==> exists k | 0 <= k < |t.active| :: IsAt(t.active[k], base)
    ensures |Free(t, base).0.free| <= t.limit + 1
  {
    FreeInv(t, base);
    FreeCountBound(Free(t, base).0);
  }

  // ---- First fit ----------------------------------------------------------------------------

  /** `n` bytes at `a` are inside the window and away from every live block. */
  ghost predicate Fits(t: Table, a: int, n: nat) {
    && t.window.base <= a && a + n <= t.window.End()
    && forall x: int | a <= x < a + n :: !LiveAt(t.active, x)
  }

  lemma {:induction false} FitIsInRegion(t: Table, a: nat, n: nat) returns (i: nat)
    requires Inv(t) && n > 0 && Fits(t, a, n)
    ensures i < |t.free| && t.free[i].base <= a && n <= t.free[i].size
  {
    var r := Region(a, n);
    forall x: int | r.Holds(x) ensures FreeAt(t.free, x) {
      assert t.window.Holds(x);
    }
    assert r.Holds(a);
    i :| 0 <= i < |t.free| && t.free[i].Holds(a);
    RunInRegion(t.free, t.window, r, i);
  }

  lemma {:induction false} RegionFits(t: Table, i: nat, n: nat)
    requires Inv(t) && i < |t.free| && n <= t.free[i].size
    ensures Fits(t, t.free[i].base, n)
  {
    RegionIsGap(t, i);
    assert forall x: int | t.free[i].base <= x < t.free[i].base + n :: t.free[i].Holds(x);
  }

  /** With an entry to spare, allocation succeeds exactly when some run of the rounded size avoids
      every live block, and it returns the lowest address where one starts. */
  lemma {:induction false} AllocIsLeastFit(t: Table, size: nat)
    requires Inv(t) && 0 < size <= TWO_64 - ALIGNMENT && t.activeCount < t.limit
    ensures var r := Alloc(t, size).1;
            && (r.Some? <==> exists a: nat :: Fits(t, a, AlignUp(size)))
            && (r.Some? ==>
                  Fits(t, r.value, AlignUp(size)) && forall a: nat | Fits(t, a, AlignUp(size)) :: r.value <= a)
  {
    AlignUpCovers(size);
    var n := AlignUp(size);
    UnusedExists(t.active);
    var first := FirstFit(t.free, n, 0);
    if first < |t.free| {
      RegionFits(t, first, n);
      assert Placed(t.free[first], t.window);
    }
    forall a: nat | Fits(t, a, n) ensures Alloc(t, size).1.Some? && Alloc(t, size).1.value <= a {
      var i := FitIsInRegion(t, a, n);
      assert first <= i;
      assert first < i ==> t.free[first].End() < t.free[i].base;
    }
  }

  // ---- Allocation and release undo each other ------------------------------------------------

  /** A live block's base belongs to one entry. */
  lemma {:induction false} LookupFinds(t: Table, slot: nat, base: nat)
    requires Inv(t) && slot < |t.active| && IsAt(t.active[slot], base)
    ensures Lookup(t.active, base, 0) == slot
  {
    var back := Lookup(t.active, base, 0);
    assert EntryOk(t.active[back], t.window) && EntryOk(t.active[slot], t.window);
    assert !Disjoint(t.active[back].block, t.active[slot].block);
  }

  /** Giving a block straight back leaves the table as it was, so undoing an allocation that finds no
      entry would restore the free regions. */
  lemma {:induction false} ReleaseUndoesAlloc(t: Table, size: nat)
    requires Inv(t) && size <= TWO_64 - ALIGNMENT && Alloc(t, size).1.Some?
    ensures Free(Alloc(t, size).0, Alloc(t, size).1.value) == (t, true)
  {
    var (t', r) := Alloc(t, size);
    AllocInv(t, size);
    var slot := FirstUnused(t.active, 0);
    LookupFinds(t', slot, r.value);
    var (u, ok) := Free(t', r.value);
    FreeInv(t', r.value);
    assert u.active == t.active;
    FreeArrayIsCanonical(t, u);
  }
}
