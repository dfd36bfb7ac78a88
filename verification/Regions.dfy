/**
  The bit array and the allocator of virtual regions on top of it. Allocation takes enough
  pages for any alignment and gives back those before and after the aligned region.
 */
module Regions {
  import opened Common
  import opened RegionSpec

  datatype Error = EINVAL | EFAULT | ENOSPC

  class BitArray {
    const bits: array<bool>

    constructor (n: nat)
      ensures fresh(bits) && bits.Length == n && forall i | 0 <= i < n :: !bits[i]
    {
      bits := new bool[n](_ => false);
    }

    /** Compares a range of bits with `v`; a mismatch is some bit that differs. Which one depends
        on the order of the search, and callers rely on no particular one. */
    method MatchRegion(offset: nat, n: nat, v: bool) returns (ok: bool, mismatch: nat)
      requires offset + n <= bits.Length
      ensures ok == AllBits(bits[..], offset, n, v)
      ensures !ok ==> offset <= mismatch < offset + n && bits[mismatch] != v
    {
      ok, mismatch := true, offset;
      while mismatch < offset + n
        invariant offset <= mismatch <= offset + n && forall i | offset <= i < mismatch :: bits[i] == v
      {
        if bits[mismatch] != v {
          ok := false;
          assert bits[..][mismatch] != v;
          return;
        }
        mismatch := mismatch + 1;
      }
    }

    method SetRegion(offset: nat, n: nat, v: bool)
      requires offset + n <= bits.Length
      modifies bits
      ensures bits[..] == Marked(old(bits[..]), offset, offset + n, v)
    {
      var i := offset;
      while i < offset + n
        invariant offset <= i <= offset + n
        invariant forall k | 0 <= k < bits.Length :: bits[k] == if offset <= k < i then v else old(bits[k])
      {
        bits[i] := v;
        i := i + 1;
      }
    }

    /** `sys_bitarray_alloc`: starts at the first clear bit and jumps past every mismatch,
        and still finds the lowest place there is. */
    method Alloc(n: int) returns (r: Option<nat>, err: Error)
      modifies bits
      ensures n <= 0 || n > bits.Length ==> r.None? && err == EINVAL
      ensures 0 < n <= bits.Length ==> r == FirstFit(old(bits[..]), n, 0) && (r.None? ==> err == ENOSPC)
      ensures bits[..] == if r.Some? then Marked(old(bits[..]), r.value, r.value + n, true) else old(bits[..])
    {
      err := ENOSPC;
      if n <= 0 || n > bits.Length {
        return None, EINVAL;
      }
      ghost var was := bits[..];
      var i := 0;
      while i < bits.Length && bits[i]
        invariant 0 <= i <= bits.Length && bits[..] == was && FirstFit(was, n, i) == FirstFit(was, n, 0)
      {
        FirstFitSkips(was, n, i, i);
        i := i + 1;
      }
      r := None;
      while i <= bits.Length - n
        invariant 0 <= i && bits[..] == was && FirstFit(was, n, i) == FirstFit(was, n, 0) && r.None?
        decreases bits.Length - i
      {
        var ok, mismatch := MatchRegion(i, n, false);
        if ok {
          SetRegion(i, n, true);
          return Some(i), err;
        }
        FirstFitSkips(was, n, i, mismatch);
        i := mismatch + 1;
      }
    }

    /** `sys_bitarray_free`: all or nothing. */
    method Free(n: nat, offset: int) returns (ok: bool, err: Error)
      modifies bits
      ensures ok == (n > 0 && 0 <= offset && AllBits(old(bits[..]), offset, n, true))
      ensures !ok ==> err == if n > 0 && 0 <= offset && offset + n <= bits.Length then EFAULT else EINVAL
      ensures bits[..] == if ok then Marked(old(bits[..]), offset, offset + n, false) else old(bits[..])
    {
      err := EINVAL;
      if n == 0 || n > bits.Length || offset < 0 || offset >= bits.Length || offset + n - 1 >= bits.Length {
        return false, EINVAL;
      }
      var mismatch;
      ok, mismatch := MatchRegion(offset, n, true);
      if ok {
        SetRegion(offset, n, false);
      } else {
        err := EFAULT;
      }
    }
  }

  class VirtRegions {
    const g: Space
    const bitmap: BitArray

    ghost predicate Valid()
      reads this, bitmap, bitmap.bits
    {
      BitmapOk(g, bitmap.bits[..])
    }

    /** Marks what may never be handed out and nothing else. */
    constructor (space: Space)
      requires Sane(space)
      ensures fresh(bitmap) && fresh(bitmap.bits) && g == space && Valid()
      ensures forall i | 0 <= i < bitmap.bits.Length :: bitmap.bits[i] <==> Off(space, i)
    {
      var n, reserved, offset, below := Layout(space);
      g := space;
      bitmap := new BitArray(n);
      new;
      hide LaidOut, Sane, Off, BitmapOk;
      if reserved > 0 {
        bitmap.SetRegion(0, reserved, true);
      }
      bitmap.SetRegion(offset, below, true);
      MarkedIsOff(space, bitmap.bits[..], n, reserved, offset);
    }

    method RegionFree(addr: nat, size: nat)
      requires g.page > 0
      modifies bitmap.bits
      ensures bitmap.bits[..] == RegionSpec.RegionFree(g, old(bitmap.bits[..]), addr, size)
    {
      if !(addr >= g.free && addr + size - 1 < g.end - g.reserved) {
        return;
      }
      var offset := ToBitmapOffset(g, addr, size);
      var ok, err := bitmap.Free(size / g.page, offset);
    }

    /** The same in a kernel with direct mappings. */
    method RegionFreeDirect(addr: nat, size: nat)
      requires g.page > 0 && g.free <= g.end - g.reserved
      modifies bitmap.bits
      ensures bitmap.bits[..] == RegionSpec.RegionFreeDirect(g, old(bitmap.bits[..]), addr, size)
    {
      var top := g.end - g.reserved;
      if (addr >= g.free && addr < top) || (addr + size - 1 >= g.free && addr + size - 1 < top) {
        var from := if addr > g.free then addr else g.free;
        var to := if addr + size < top then addr + size else top;
        RegionFree(from, to - from);
      }
    }

    /** Hands out a region exactly when enough neighbouring pages are free. The region is
        aligned, allowed and was free, and its pages are the only ones that change. In
        particular the address is never below the start of the allowed part. */
    method RegionAlloc(size: nat, align: nat) returns (r: Option<nat>)
      requires Valid() && SizeOk(g, size, align)
      modifies bitmap.bits
      ensures Valid() && (bitmap.bits[..], r) == RegionSpec.RegionAlloc(g, old(bitmap.bits[..]), size, align)
      ensures r.Some? ==> GoodRegion(g, old(bitmap.bits[..]), r.value, size, align)
    {
      hide Chosen, GoodRegion, RegionSpec.RegionFree, FirstFit, RoundUp, BitmapOk;
      ghost var was := bitmap.bits[..];
      ChosenIsGood(g, was, size, align);
      var n := (size + align - g.page) / g.page;
      var allocSize := n * g.page;
      var offset, err := bitmap.Alloc(n);
      ChosenIs(g, was, size, align);
      if offset.None? {
        return None;
      }
      AllocKeepsBitmap(g, was, size, align);
      var dest := FromBitmapOffset(g, offset.value, allocSize);
      ghost var k := offset.value;
      ghost var lo, s := Located(g, was, size, align, k, n);
      TrimUnits(g, was, k, n, lo, s);
      Gaps(g.page, k, n, lo, s);
      if allocSize > size {
        var aligned := RoundUp(dest, align);
        RegionFree(dest, aligned - dest);
        if dest + allocSize - (aligned + size) > 0 {
          RegionFree(aligned + size, dest + allocSize - (aligned + size));
        }
        dest := aligned;
      }
      assert dest >= g.free;
      r := Some(dest);
    }
  }

  lemma Gaps(page: nat, k: nat, n: nat, lo: nat, s: nat)
    requires page > 0 && k <= lo && lo + s <= k + n
    ensures (k + n) * page - (lo + s) * page == (k + n - lo - s) * page
    ensures (lo + s) * page == lo * page + s * page && (k + n) * page == k * page + n * page
    ensures lo * page - k * page == (lo - k) * page
    ensures (lo - k) * page > 0 <==> lo > k
    ensures (k + n - lo - s) * page >= 0
  {
    MulAtLeast(lo - k, page);
    MulAtLeast(k + n - lo - s, page);
  }

  lemma ChosenIs(g: Space, bits: seq<bool>, size: nat, align: nat)
    requires BitmapOk(g, bits) && SizeOk(g, size, align)
    ensures var n := Wanted(g, size, align);
            Chosen(g, bits, size, align).Some? == (0 < n <= |bits| && FirstFit(bits, n, 0).Some?)
  {
  }

  lemma AllocKeepsBitmap(g: Space, bits: seq<bool>, size: nat, align: nat)
    requires BitmapOk(g, bits) && SizeOk(g, size, align)
    ensures BitmapOk(g, RegionSpec.RegionAlloc(g, bits, size, align).0)
  {
  }

  /** Where the aligned region of `s` pages lies within the `n` pages found at bit `k`. */
  lemma Located(g: Space, was: seq<bool>, size: nat, align: nat, k: nat, n: nat) returns (lo: nat, s: nat)
    requires BitmapOk(g, was) && SizeOk(g, size, align)
    requires n == Wanted(g, size, align) && 0 < n <= |was| && FirstFit(was, n, 0) == Some(k)
    ensures size == s * g.page && k <= lo && lo + s <= k + n && size / g.page == s && (n * g.page > size <==> n > s)
    ensures FromBitmapOffset(g, k, n * g.page) == g.end - (k + n) * g.page >= g.free
    ensures var addr := g.end - (lo + s) * g.page;
            && addr >= 0 && Chosen(g, was, size, align) == Some(addr) && ToBitmapOffset(g, addr, size) == lo
            && addr == if n > s then RoundUp(g.end - (k + n) * g.page, align) else g.end - (k + n) * g.page
  {
    hide RoundUp;
    s :| size == s * g.page;
    var a: nat :| align == a * g.page;
    var e: nat :| g.end == e * g.page;
    DivMul(s, g.page);
    MulOrder(1, a, g.page);
    MulOrder(s, n, g.page);
    WantedIs(g, s, a);
    FitsEnd(g, was, e);
    PlacedInside(g, k, s, a, e);
    Distribute(k, n, g.page);
    InsideAllowed(g, was, k, n);
    Bounds(g, k, n, k, n);
    lo := ToBitmapOffset(g, Placed(g, k, n, size, align), size);
  }

  /** Giving back the pages before and after the aligned region leaves exactly its pages. */
  lemma TrimUnits(g: Space, was: seq<bool>, k: nat, n: nat, lo: nat, s: nat)
    requires BitmapOk(g, was) && AllBits(was, k, n, false) && 0 < n && k <= lo && lo + s <= k + n
    ensures (k + n - lo - s) * g.page >= 0 && (lo - k) * g.page >= 0
            && g.end - lo * g.page >= g.end - (k + n) * g.page >= 0
    ensures var headed := RegionSpec.RegionFree(g, Marked(was, k, k + n, true), g.end - (k + n) * g.page,
            (k + n - lo - s) * g.page);
            && headed == Marked(was, k, lo + s, true)
            && RegionSpec.RegionFree(g, headed, g.end - lo * g.page, (lo - k) * g.page) == Marked(was, lo, lo + s, true)
  {
    hide RegionSpec.RegionFree;
    InsideAllowed(g, was, k, n);
    MulAtLeast(k + n - lo - s, g.page);
    MulAtLeast(lo - k, g.page);
    MulOrder(lo, k + n, g.page);
    Bounds(g, lo + s, k + n - lo - s, k, n);
    Bounds(g, k, lo - k, k, n);
    FreeBits(g, Marked(was, k, k + n, true), lo + s, k + n - lo - s);
    assert Marked(Marked(was, k, k + n, true), lo + s, k + n, false) == Marked(was, k, lo + s, true);
    FreeBits(g, Marked(was, k, lo + s, true), k, lo - k);
    assert Marked(Marked(was, k, lo + s, true), k, lo, false) == Marked(was, lo, lo + s, true);
  }

  /** Freeing a range of set bits by its address. */
  lemma FreeBits(g: Space, bits: seq<bool>, lo: nat, p: nat)
    requires Sane(g) && AllBits(bits, lo, p, true)
    requires g.free <= g.end - (lo + p) * g.page && g.end - (lo + p) * g.page + p * g.page + g.reserved <= g.end
    ensures RegionSpec.RegionFree(g, bits, g.end - (lo + p) * g.page, p * g.page) == Marked(bits, lo, lo + p, false)
  {
    DivMul(p, g.page);
    DivMul(lo, g.page);
    Distribute(lo, p, g.page);
    MulAtLeast(p, g.page);
    if p == 0 {
      assert Marked(bits, lo, lo + p, false) == bits;
    }
  }

  /** The numbers of all pages, of the reserved ones and of those above the allowed part's start. */
  ghost predicate LaidOut(g: Space, n: nat, reserved: nat, offset: nat) {
    && g.page > 0 && n * g.page == g.end - g.start
    && reserved == g.reserved / g.page && offset == (g.end - g.free) / g.page
  }

  method Layout(g: Space) returns (n: nat, reserved: nat, offset: nat, below: nat)
    requires Sane(g)
    ensures LaidOut(g, n, reserved, offset) && reserved <= n && offset + below == n
  {
    hide Sane, ToBitmapOffset;
    SanePage(g);
    SpaceUnits(g);
    n, reserved := (g.end - g.start) / g.page, g.reserved / g.page;
    var bytes := g.free - g.start;
    offset, below := ToBitmapOffset(g, g.start, bytes), bytes / g.page;
  }

  lemma MarkedIsOff(g: Space, bits: seq<bool>, n: nat, reserved: nat, offset: nat)
    requires Sane(g) && LaidOut(g, n, reserved, offset) && |bits| == n
    requires forall i | 0 <= i < n :: bits[i] <==> i < reserved || offset <= i
    ensures BitmapOk(g, bits) && forall i | 0 <= i < n :: bits[i] <==> Off(g, i)
  {
    hide Sane;
  }

  lemma SanePage(g: Space)
    requires Sane(g)
    ensures g.page > 0
  {
  }

  lemma SpaceUnits(g: Space)
    requires Sane(g)
    ensures var n := (g.end - g.start) / g.page; n * g.page == g.end - g.start
    ensures var n := (g.end - g.start) / g.page; 0 <= g.reserved / g.page <= n
    ensures var n := (g.end - g.start) / g.page;
            ToBitmapOffset(g, g.start, g.free - g.start) == (g.end - g.free) / g.page
    ensures var n := (g.end - g.start) / g.page; (g.end - g.free) / g.page + (g.free - g.start) / g.page == n
    ensures (g.end - g.free) / g.page >= 0 && (g.free - g.start) / g.page >= 0
  {
    var s: nat :| g.start == s * g.page;
    var f: nat :| g.free == f * g.page;
    var e: nat :| g.end == e * g.page;
    var r: nat :| g.reserved == r * g.page;
    Distribute(e - s, s, g.page);
    Distribute(e - f, f, g.page);
    Distribute(f - s, s, g.page);
    DivMul(e - s, g.page);
    DivMul(e - f, g.page);
    DivMul(f - s, g.page);
    DivMul(r, g.page);
    MulOrder(s, f, g.page);
    Distribute(f, r, g.page);
    MulOrder(f + r, e, g.page);
  }
}
