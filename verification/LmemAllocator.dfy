/** The allocator's arrays, searched, shifted and merged in place. */
module LmemAllocator {
  import opened Arithmetic
  import opened LmemTable
  import opened LmemTheorems
  import opened Options

  /** Drops entry `k` of the first `count` by shifting the later ones left, and zeroes the last. */
  method RemoveRegion(regions: array<Region>, k: nat, count: nat)
    requires k < count <= regions.Length
    modifies regions
    ensures regions[..count - 1] == Splice(old(regions[..count]), k, [], k + 1)
    ensures regions[count - 1] == EMPTY && forall j | count <= j < regions.Length :: regions[j] == old(regions[j])
  {
    ghost var was := regions[..count];
    for i := k to count - 1
      invariant forall j | 0 <= j < k :: regions[j] == old(regions[j])
      invariant forall j | k <= j < i :: regions[j] == old(regions[j + 1])
      invariant forall j | i <= j < regions.Length :: regions[j] == old(regions[j])
    {
      regions[i] := regions[i + 1];
    }
    regions[count - 1] := EMPTY;
    ShiftedLeft(was, regions[..count - 1], k);
  }

  lemma {:induction false} ShiftedLeft(was: seq<Region>, now: seq<Region>, k: nat)
    requires k < |was| == |now| + 1
    requires forall j | 0 <= j < |now| :: now[j] == was[if j < k then j else j + 1]
    ensures now == Splice(was, k, [], k + 1)
  {
  }

  lemma {:induction false} ShiftedRight(was: seq<Region>, now: seq<Region>, k: nat, r: Region)
    requires k <= |was| == |now| - 1 && now[k] == r
    requires forall j | 0 <= j < |now| && j != k :: now[j] == was[if j < k then j else j - 1]
    ensures now == Splice(was, k, [r], k)
  {
  }

  /** Makes room for `r` at `k` by shifting the later entries of the first `count` right. */
  method InsertRegion(regions: array<Region>, k: nat, count: nat, r: Region)
    requires k <= count < regions.Length
    modifies regions
    ensures regions[..count + 1] == Splice(old(regions[..count]), k, [r], k)
    ensures forall j | count < j < regions.Length :: regions[j] == old(regions[j])
  {
    ghost var was := regions[..count];
    for i := count downto k
      invariant forall j | 0 <= j <= i :: regions[j] == old(regions[j])
      invariant forall j | i < j <= count :: regions[j] == old(regions[j - 1])
      invariant forall j | count < j < regions.Length :: regions[j] == old(regions[j])
    {
      regions[i + 1] := regions[i];
    }
    regions[k] := r;
    ShiftedRight(was, regions[..count + 1], k, r);
  }

  /** Where a region that starts at `base` belongs in address order. */
  method FindPosition(regions: array<Region>, count: nat, base: nat) returns (k: nat)
    requires count <= regions.Length
    ensures k == Position(regions[..count], base)
  {
    k := 0;
    while k < count && regions[k].base < base
      invariant k <= count && forall i | 0 <= i < k :: regions[i].base < base
    {
      k := k + 1;
    }
    PositionIs(regions[..count], base, k);
  }

  /** The first of the free regions with at least `n` bytes, or `count`. */
  method FindFit(regions: array<Region>, count: nat, n: nat) returns (i: nat)
    requires count <= regions.Length
    ensures i == FirstFit(regions[..count], n, 0)
  {
    i := 0;
    while i < count && regions[i].size < n
      invariant i <= count && forall j | 0 <= j < i :: regions[j].size < n
    {
      i := i + 1;
    }
  }

  /** The first unused entry of the active table, or its length. */
  method FindUnused(active: array<Entry>) returns (slot: nat)
    ensures slot == FirstUnused(active[..], 0)
  {
    slot := 0;
    while slot < active.Length && active[slot].valid
      invariant slot <= active.Length && forall j | 0 <= j < slot :: active[j].valid
    {
      slot := slot + 1;
    }
  }

  /** The entry of the live block that starts at `base`, or the table's length. */
  method FindBlock(active: array<Entry>, base: nat) returns (slot: nat)
    ensures slot == Lookup(active[..], base, 0)
  {
    slot := 0;
    while slot < active.Length && !IsAt(active[slot], base)
      invariant slot <= active.Length && forall j | 0 <= j < slot :: !IsAt(active[j], base)
    {
      slot := slot + 1;
    }
  }

  lemma {:induction false} MergeBoth(free: seq<Region>, r: Region, k: nat)
    requires 0 < k < |free| && free[k - 1].End() == r.base && r.End() == free[k].base
    ensures InsertAt(free, r, k)
         == Splice(free[k - 1 := Region(free[k - 1].base, free[k - 1].size + r.size + free[k].size)], k, [], k + 1)
  {
  }

  lemma {:induction false} MergeLeft(free: seq<Region>, r: Region, k: nat)
    requires 0 < k <= |free| && free[k - 1].End() == r.base && !(k < |free| && r.End() == free[k].base)
    ensures InsertAt(free, r, k) == free[k - 1 := Region(free[k - 1].base, free[k - 1].size + r.size)]
  {
  }

  lemma {:induction false} MergeRight(free: seq<Region>, r: Region, k: nat)
    requires k < |free| && !(k > 0 && free[k - 1].End() == r.base) && r.End() == free[k].base
    ensures InsertAt(free, r, k) == free[k := Region(r.base, free[k].size + r.size)]
  {
  }

  lemma {:induction false} MergeNone(free: seq<Region>, r: Region, k: nat)
    requires k <= |free| && !(k > 0 && free[k - 1].End() == r.base) && !(k < |free| && r.End() == free[k].base)
    ensures InsertAt(free, r, k) == Splice(free, k, [r], k)
  {
  }

  ghost predicate ZeroFrom(regions: array<Region>, n: nat)
    reads regions
  {
    forall j | n <= j < regions.Length :: regions[j] == EMPTY
  }

  /** Extends the region before `k` by `r`, and by the region at `k` when that now touches it. */
  method ExtendLeft(regions: array<Region>, k: nat, count: nat, r: Region) returns (count': nat)
    requires 0 < k <= count <= regions.Length && ZeroFrom(regions, count) && regions[k - 1].End() == r.base
    modifies regions
    ensures count' <= count && ZeroFrom(regions, count')
    ensures regions[..count'] == InsertAt(old(regions[..count]), r, k)
  {
    ghost var free := regions[..count];
    regions[k - 1] := Region(regions[k - 1].base, regions[k - 1].size + r.size);
    assert regions[k - 1].End() == r.End();
    if k < count && regions[k - 1].End() == regions[k].base {
      MergeBoth(free, r, k);
      regions[k - 1] := Region(regions[k - 1].base, regions[k - 1].size + regions[k].size);
      assert regions[..count] == free[k - 1 := Region(free[k - 1].base, free[k - 1].size + r.size + free[k].size)];
      RemoveRegion(regions, k, count);
      return count - 1;
    }
    MergeLeft(free, r, k);
    assert regions[..count] == free[k - 1 := Region(free[k - 1].base, free[k - 1].size + r.size)];
    return count;
  }

  /** Takes `n` bytes from the front of region `i`, dropping it when that is all it has. */
  method TakeFront(regions: array<Region>, i: nat, count: nat, n: nat) returns (count': nat)
    requires i < count <= regions.Length && ZeroFrom(regions, count) && n <= regions[i].size
    modifies regions
    ensures count' <= count && ZeroFrom(regions, count')
    ensures regions[..count'] == Take(old(regions[..count]), i, n)
  {
    if regions[i].size == n {
      RemoveRegion(regions, i, count);
      return count - 1;
    }
    regions[i] := Region(regions[i].base + n, regions[i].size - n);
    return count;
  }

  class Allocator {
    const window: Region
    const limit: nat
    const freeRegions: array<Region>
    const activeAllocs: array<Entry>
    var freeCount: nat
    var activeCount: int
    var usageBytes: int

    ghost function Contents(): Table
      reads this, freeRegions, activeAllocs
      requires freeCount <= freeRegions.Length
    {
      Table(window, limit, freeRegions[..freeCount], activeAllocs[..], activeCount, usageBytes)
    }

    /** The counters fit the arrays, the entries behind the free regions are zero, and the contents
        keep the allocator's invariant. */
    ghost predicate Valid()
      reads this, freeRegions, activeAllocs
    {
      && freeRegions.Length == limit + 1 && activeAllocs.Length == limit
      && freeCount <= freeRegions.Length
      && ZeroFrom(freeRegions, freeCount)
      && Inv(Contents())
    }

    constructor (window: Region, limit: nat)
      requires window.size > 0 && limit > 0
      ensures Valid() && fresh(freeRegions) && fresh(activeAllocs)
      ensures Contents() == Fresh(window, limit)
    {
      this.window, this.limit := window, limit;
      freeRegions := new Region[limit + 1](i => if i == 0 then window else EMPTY);
      activeAllocs := new Entry[limit](i => UNUSED);
      freeCount, activeCount, usageBytes := 1, 0, 0;
      new;
      FreshInv(window, limit);
      assert freeRegions[..1] == [window];
      assert activeAllocs[..] == seq(limit, i => UNUSED);
    }

    /** Gives a block back to the free regions. Fails, changing nothing, when it overlaps a free region
        or when it touches none and the array is full. */
    method InsertAndCoalesce(r: Region) returns (ok: bool)
      requires freeCount <= freeRegions.Length && FreeOk(freeRegions[..freeCount], window) && r.size > 0
      requires ZeroFrom(freeRegions, freeCount)
      modifies this`freeCount, freeRegions
      ensures freeCount <= freeRegions.Length && ZeroFrom(freeRegions, freeCount)
      ensures var was := old(freeRegions[..freeCount]);
              && (ok <==> Apart(was, r) && |Insert(was, r)| <= freeRegions.Length)
              && freeRegions[..freeCount] == if ok then Insert(was, r) else was
    {
      ghost var free := freeRegions[..freeCount];
      var k := FindPosition(freeRegions, freeCount, r.base);
      NeighboursDecide(free, window, r, k);
      if k > 0 && freeRegions[k - 1].End() > r.base {
        return false;
      }
      if k < freeCount && r.End() > freeRegions[k].base {
        return false;
      }
      if k > 0 && freeRegions[k - 1].End() == r.base {
        freeCount := ExtendLeft(freeRegions, k, freeCount, r);
        return true;
      }
      if k < freeCount && r.End() == freeRegions[k].base {
        MergeRight(free, r, k);
        freeRegions[k] := Region(r.base, freeRegions[k].size + r.size);
        return true;
      }
      MergeNone(free, r, k);
      if freeCount >= freeRegions.Length {
        return false;
      }
      InsertRegion(freeRegions, k, freeCount, r);
      freeCount := freeCount + 1;
      return true;
    }

    /** Allocates `size` bytes rounded up to the alignment. The bound on `size` keeps the rounding from
        wrapping in 64 bits; see `WrappedRequestBreaksTable`. */
    method Allocate(size: nat) returns (base: Option<nat>)
      requires Valid() && size <= TWO_64 - ALIGNMENT
      modifies this, freeRegions, activeAllocs
      ensures Valid()
      ensures (Contents(), base) == Alloc(old(Contents()), size)
    {
      ghost var t := Contents();
      AllocInv(t, size);
      var n := AlignUp(size);
      if size == 0 || n > window.size || activeCount >= limit {
        return None;
      }
      var i := FindFit(freeRegions, freeCount, n);
      if i == freeCount {
        return None;
      }
      // The branch that rolls back when no entry is unused cannot be taken.
      UnusedExists(t.active);
      var at := Grant(i, n);
      return Some(at);
    }

    /** Takes `n` bytes from free region `i` and enters them as a live block. */
    method Grant(i: nat, n: nat) returns (base: nat)
      requires freeCount <= freeRegions.Length && ZeroFrom(freeRegions, freeCount)
      requires i < freeCount && n <= freeRegions[i].size && FirstUnused(activeAllocs[..], 0) < activeAllocs.Length
      modifies this`freeCount, this`activeCount, this`usageBytes, freeRegions, activeAllocs
      ensures freeCount <= freeRegions.Length && ZeroFrom(freeRegions, freeCount)
      ensures base == old(freeRegions[i].base)
      ensures var (t, slot) := (old(Contents()), old(FirstUnused(activeAllocs[..], 0)));
              Contents() == t.(free := Take(t.free, i, n), active := t.active[slot := Entry(Region(base, n), true)],
                               activeCount := t.activeCount + 1, usage := t.usage + n)
    {
      ghost var active := activeAllocs[..];
      base := freeRegions[i].base;
      freeCount := TakeFront(freeRegions, i, freeCount, n);
      var slot := FindUnused(activeAllocs);
      activeAllocs[slot] := Entry(Region(base, n), true);
      assert activeAllocs[..] == active[slot := Entry(Region(base, n), true)];
      activeCount, usageBytes := activeCount + 1, usageBytes + n;
    }

    /** Releases the live block that starts at `base`; fails only when there is none. */
    method Release(base: nat) returns (ok: bool)
      requires Valid()
      modifies this, freeRegions, activeAllocs
      ensures Valid()
      ensures (Contents(), ok) == Free(old(Contents()), base)
    {
      ghost var t := Contents();
      FreeInv(t, base);
      var slot := FindBlock(activeAllocs, base);
      if slot == limit {
        return false;
      }
      var block := activeAllocs[slot].block;
      BlockIsApart(t, slot);
      ReleaseNeverFails(t, base);
      ok := InsertAndCoalesce(block);
      activeAllocs[slot] := UNUSED;
      activeCount, usageBytes := activeCount - 1, usageBytes - block.size;
    }
  }

  /** Two allocators with the same bytes live hold the same array, whatever led there: the same free
      regions, and zeroes behind them. */
  lemma {:induction false} ArrayIsCanonical(a: Allocator, b: Allocator)
    requires a.Valid() && b.Valid() && a.window == b.window && a.limit == b.limit
    requires forall x: int | a.window.Holds(x) :: LiveAt(a.activeAllocs[..], x) <==> LiveAt(b.activeAllocs[..], x)
    ensures a.freeRegions[..] == b.freeRegions[..]
  {
    var t, u := a.Contents(), b.Contents();
    FreeArrayIsCanonical(t, u);
    forall j | 0 <= j < a.freeRegions.Length ensures a.freeRegions[j] == b.freeRegions[j] {
      assert j < a.freeCount ==> t.free[j] == u.free[j];
    }
  }

  lemma {:induction false} PositionIs(free: seq<Region>, base: nat, k: nat)
    requires k <= |free| && (forall i | 0 <= i < k :: free[i].base < base) && (k < |free| ==> free[k].base >= base)
    ensures k == Position(free, base)
  {
  }
}
