/** The checks a memory-copy packet passes before a copy starts, in 64-bit arithmetic. */
module CopyChecks {
  import opened Arithmetic

  const INT64_MAX: nat := 0x7FFF_FFFF_FFFF_FFFF

  newtype Word = x: int | 0 <= x < TWO_64

  datatype Domain = Host | Device | Other

  datatype Window = Window(base: Word, size: Word)

  /** range_in_window */
  predicate InWindow(address: Word, size: Word, w: Window) {
    size != 0 && address >= w.base && address - w.base <= w.size && size <= w.size - (address - w.base)
  }

  /** Byte `x` is one of the `size` bytes at `address`. */
  predicate Covers(address: Word, size: Word, x: int) {
    address as int <= x < address as int + size as int
  }

  ghost predicate Inside(address: Word, size: Word, w: Window) {
    forall x: int | Covers(address, size, x) :: Covers(w.base, w.size, x)
  }

  /** The comparisons mean what they should although no sum is formed: every byte is in the window. */
  lemma {:induction false} InWindowIsContainment(address: Word, size: Word, w: Window)
    ensures InWindow(address, size, w) <==> size > 0 && Inside(address, size, w)
  {
    if size > 0 {
      var first, last := address as int, address as int + size as int - 1;
      assert Covers(address, size, first) && Covers(address, size, last);
    }
  }

  /** ranges_overlap */
  predicate Overlap(src: Word, dst: Word, size: Word) {
    if size == 0 then false
    else if src as int > TWO_64 - 1 - size as int || dst as int > TWO_64 - 1 - size as int then true
    else !(src + size <= dst || dst + size <= src)
  }

  ghost predicate ShareByte(src: Word, dst: Word, size: Word) {
    exists x: int :: Covers(src, size, x) && Covers(dst, size, x)
  }

  /** The test is exact but for ranges that reach the end of the address space, which it takes to overlap. */
  lemma {:induction false} OverlapIsExact(src: Word, dst: Word, size: Word)
    ensures Overlap(src, dst, size) <==>
            size > 0
            && (ShareByte(src, dst, size) || src as int + size as int >= TWO_64 || dst as int + size as int >= TWO_64)
  {
    if size > 0 && Overlap(src, dst, size) {
      var x := if src < dst then dst as int else src as int;
      assert x < src as int + size as int && x < dst as int + size as int ==>
               Covers(src, size, x) && Covers(dst, size, x);
    }
  }

  datatype Packet = Packet(src: Word, dst: Word, size: Word, from: Domain, to: Domain)

  datatype Verdict = Accepted | InvalidDomainPair | InvalidAddress | InvalidRange | Overlapping

  predicate ValidPair(from: Domain, to: Domain) {
    (from.Host? && to.Device?) || (from.Device? && (to.Host? || to.Device?))
  }

  /** valid_memory_range, over the payload windows of device memory. */
  predicate ValidRange(address: Word, size: Word, windows: seq<Window>) {
    exists i | 0 <= i < |windows| :: InWindow(address, size, windows[i])
  }

  /** The checks of cp_memory_copy_submit, in its order. */
  function Check(p: Packet, windows: seq<Window>): Verdict {
    var hostOk := p.size == 0 || (if p.from.Host? then p.src else p.dst) != 0;
    var deviceOk :=
      p.size == 0
      || ((!p.from.Device? || ValidRange(p.src, p.size, windows))
          && (!p.to.Device? || ValidRange(p.dst, p.size, windows)));
    var sizeOk := p.size as int <= INT64_MAX;
    if !ValidPair(p.from, p.to) then InvalidDomainPair
    else if !hostOk then InvalidAddress
    else if !deviceOk || !sizeOk then InvalidRange
    else if p.from.Device? && p.to.Device? && Overlap(p.src, p.dst, p.size) then Overlapping
    else Accepted
  }

  /** An accepted copy moves data between the host and the device or within the device; each device
      range lies in one payload window, and two device ranges share no byte. */
  lemma {:induction false} AcceptedIsSound(p: Packet, windows: seq<Window>)
    requires Check(p, windows).Accepted?
    ensures p.from.Device? || p.to.Device?
    ensures p.size > 0 && p.from.Device? ==> exists i | 0 <= i < |windows| :: Inside(p.src, p.size, windows[i])
    ensures p.size > 0 && p.to.Device? ==> exists i | 0 <= i < |windows| :: Inside(p.dst, p.size, windows[i])
    ensures p.size > 0 && p.from.Device? && p.to.Device? ==>
              p.src as int + p.size as int <= p.dst as int || p.dst as int + p.size as int <= p.src as int
  {
    if p.size > 0 && p.from.Device? {
      var i :| 0 <= i < |windows| && InWindow(p.src, p.size, windows[i]);
      assert Inside(p.src, p.size, windows[i]);
    }
    if p.size > 0 && p.to.Device? {
      var i :| 0 <= i < |windows| && InWindow(p.dst, p.size, windows[i]);
      assert Inside(p.dst, p.size, windows[i]);
    }
  }

  // ---- What each verdict means --------------------------------------------------------------------

  predicate KnownPair(p: Packet) {
    (p.from, p.to) in {(Host, Device), (Device, Host), (Device, Device)}
  }

  /** A copy that moves data from the host at address zero, or to anywhere at address zero. */
  predicate NoAddress(p: Packet) {
    p.size > 0 && ((p.from == Host && p.src == 0) || (p.from == Device && p.dst == 0))
  }

  /** Some payload window holds all the bytes at `address`. */
  ghost predicate InSomeWindow(address: Word, size: Word, windows: seq<Window>) {
    exists i | 0 <= i < |windows| :: Inside(address, size, windows[i])
  }

  ghost predicate BadRange(p: Packet, windows: seq<Window>) {
    p.size > 0
    && (|| p.size as int > INT64_MAX
        || (p.from == Device && !InSomeWindow(p.src, p.size, windows))
        || (p.to == Device && !InSomeWindow(p.dst, p.size, windows)))
  }

  /** Both ranges are the device's and share a byte, or one of them reaches the end of the address space. */
  ghost predicate Collide(p: Packet) {
    p.size > 0 && p.from == Device && p.to == Device
    && (|| ShareByte(p.src, p.dst, p.size)
        || p.src as int + p.size as int >= TWO_64 || p.dst as int + p.size as int >= TWO_64)
  }

  lemma {:induction false} ValidRangeIs(address: Word, size: Word, windows: seq<Window>)
    requires size > 0
    ensures ValidRange(address, size, windows) <==> InSomeWindow(address, size, windows)
  {
    forall i | 0 <= i < |windows| ensures InWindow(address, size, windows[i]) <==> Inside(address, size, windows[i]) {
      InWindowIsContainment(address, size, windows[i]);
    }
  }

  /** A copy is accepted exactly when nothing is wrong with it, and otherwise refused for the first thing
      that is: the pair of domains, a zero address, a range outside device memory, an overlap. */
  lemma {:induction false} VerdictIs(p: Packet, windows: seq<Window>)
    ensures Check(p, windows) == InvalidDomainPair <==> !KnownPair(p)
    ensures Check(p, windows) == InvalidAddress <==> KnownPair(p) && NoAddress(p)
    ensures Check(p, windows) == InvalidRange <==> KnownPair(p) && !NoAddress(p) && BadRange(p, windows)
    ensures Check(p, windows) == Overlapping <==>
            KnownPair(p) && !NoAddress(p) && !BadRange(p, windows) && Collide(p)
    ensures Check(p, windows) == Accepted <==>
            KnownPair(p) && !NoAddress(p) && !BadRange(p, windows) && !Collide(p)
  {
    OverlapIsExact(p.src, p.dst, p.size);
    if p.size > 0 {
      ValidRangeIs(p.src, p.size, windows);
      ValidRangeIs(p.dst, p.size, windows);
    }
  }
}
