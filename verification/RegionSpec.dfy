/**
  The virtual address space the kernel maps memory into. One bit stands for one page, and
  bit 0 for the highest page, so that the first fit in the bitmap is the highest free region.
 */
module RegionSpec {
  import opened Common

  /** Page size, ends of the kernel's virtual memory, the start of the part that may be
      handed out, and the size of the reserved part at the top. All are in bytes. */
  datatype Space = Space(page: nat, start: nat, end: nat, free: nat, reserved: nat)

  ghost predicate Multiple(x: int, page: nat) { exists k: nat :: x == k * page }

  ghost predicate Sane(g: Space) {
    && g.page > 0 && g.start <= g.free && g.free + g.reserved <= g.end
    && Multiple(g.start, g.page) && Multiple(g.end, g.page) && Multiple(g.free, g.page) && Multiple(g.reserved, g.page)
  }

  // ---------- Addresses and bits ----------

  function FromBitmapOffset(g: Space, offset: nat, size: nat): int { g.end - offset * g.page - size }

  function ToBitmapOffset(g: Space, addr: int, size: nat): int
    requires g.page > 0
  {
    (g.end - addr - size) / g.page
  }

  lemma DivMul(k: int, page: nat)
    requires page > 0
    ensures k * page / page == k && k * page % page == 0
  {
    var q, m := k * page / page, k * page % page;
    assert k * page == q * page + m;
    assert (k - q) * page == m;
    if k != q {
      assert k - q >= 1 || k - q <= -1;
      MulAtLeast(k - q, page);
    }
  }

  lemma MulAtLeast(d: int, page: nat)
    requires page > 0
    ensures d >= 1 ==> d * page >= page
    ensures d <= -1 ==> d * page + page <= 0
    ensures d >= 0 ==> d * page >= 0
    ensures d * page > 0 ==> d > 0
  {
  }

  /** The two conversions are inverse to each other for regions of whole pages. */
  lemma ConversionsInverse(g: Space, offset: nat, pages: nat)
    requires g.page > 0
    ensures ToBitmapOffset(g, FromBitmapOffset(g, offset, pages * g.page), pages * g.page) == offset
  {
    DivMul(offset, g.page);
  }

  lemma ConversionsInverseBack(g: Space, addr: int, size: nat)
    requires g.page > 0 && g.end - addr - size >= 0 && Multiple(g.end - addr - size, g.page)
    ensures ToBitmapOffset(g, addr, size) >= 0 && FromBitmapOffset(g, ToBitmapOffset(g, addr, size), size) == addr
  {
    var k: nat :| g.end - addr - size == k * g.page;
    DivMul(k, g.page);
  }

  // ---------- The bitmap ----------

  ghost predicate AllBits(bits: seq<bool>, lo: nat, n: nat, v: bool) {
    lo + n <= |bits| && forall i | lo <= i < lo + n :: bits[i] == v
  }

  function Marked(bits: seq<bool>, lo: int, hi: int, v: bool): (r: seq<bool>)
    ensures |r| == |bits| && forall i | 0 <= i < |bits| :: r[i] == if lo <= i < hi then v else bits[i]
  {
    seq(|bits|, i requires 0 <= i < |bits| => if lo <= i < hi then v else bits[i])
  }

  /** The lowest place from `from` on where `n` bits are clear, or none. */
  ghost function FirstFit(bits: seq<bool>, n: nat, from: nat): (r: Option<nat>)
    ensures r.Some? ==> from <= r.value && AllBits(bits, r.value, n, false)
    decreases |bits| - from
  {
    if from + n > |bits| then None
    else if AllBits(bits, from, n, false) then Some(from)
    else if from == |bits| then None
    else FirstFit(bits, n, from + 1)
  }

  /** First fit finds a place exactly when there is one, and no lower place would do. */
  lemma {:induction false} FirstFitIsFirst(bits: seq<bool>, n: nat, from: nat)
    ensures FirstFit(bits, n, from).None? ==> forall k: nat | from <= k :: !AllBits(bits, k, n, false)
    ensures FirstFit(bits, n, from).Some? ==>
              forall k: nat | from <= k < FirstFit(bits, n, from).value :: !AllBits(bits, k, n, false)
    decreases |bits| - from
  {
    if from + n <= |bits| && !AllBits(bits, from, n, false) && from < |bits| {
      FirstFitIsFirst(bits, n, from + 1);
    }
  }

  /** A bit that is set rules out every place that reaches it. */
  lemma {:induction false} FirstFitSkips(bits: seq<bool>, n: nat, from: nat, mismatch: nat)
    requires from <= mismatch < from + n && mismatch < |bits| && bits[mismatch]
    ensures FirstFit(bits, n, from) == FirstFit(bits, n, mismatch + 1)
    decreases mismatch - from
  {
    if from + n > |bits| {
    } else {
      assert !AllBits(bits, from, n, false);
      if from < mismatch {
        FirstFitSkips(bits, n, from + 1, mismatch);
      }
    }
  }

  // ---------- Allocating and freeing regions ----------

  function RoundUp(x: nat, align: nat): nat
    requires align > 0
  {
    (x + align - 1) / align * align
  }

  /** The bits that the kernel never hands out. */
  predicate Off(g: Space, i: int)
    requires g.page > 0
  {
    i < g.reserved / g.page || (g.end - g.free) / g.page <= i
  }

  ghost predicate BitmapOk(g: Space, bits: seq<bool>) {
    Sane(g) && |bits| * g.page == g.end - g.start && forall i | 0 <= i < |bits| && Off(g, i) :: bits[i]
  }

  lemma RoundUpIs(x: nat, align: nat) returns (q: nat)
    requires align > 0
    ensures x <= RoundUp(x, align) < x + align && RoundUp(x, align) % align == 0 && RoundUp(x, align) == q * align
  {
    q := (x + align - 1) / align;
    assert x + align - 1 == q * align + (x + align - 1) % align;
    DivMul(q, align);
  }

  /** Where a region of `n` pages that starts at bit `k` puts an aligned region of `s` pages. */
  function Placed(g: Space, k: nat, n: nat, size: nat, align: nat): nat
    requires align > 0 && g.end - k * g.page - n * g.page >= 0
  {
    var dest := g.end - k * g.page - n * g.page;
    if n * g.page > size then RoundUp(dest, align) else dest
  }

  /** How many pages are searched for: enough for any position of the aligned region. */
  function Wanted(g: Space, size: nat, align: nat): int
    requires g.page > 0
  {
    (size + align - g.page) / g.page
  }

  ghost predicate SizeOk(g: Space, size: nat, align: nat) {
    g.page > 0 && align >= g.page && Multiple(size, g.page) && Multiple(align, g.page)
  }

  /** The start of the region that is handed out, if there is room for it. */
  ghost function Chosen(g: Space, bits: seq<bool>, size: nat, align: nat): Option<nat>
    requires BitmapOk(g, bits) && SizeOk(g, size, align)
  {
    var n := Wanted(g, size, align);
    if n <= 0 || n > |bits| then None
    else match FirstFit(bits, n, 0)
         case None => None
         case Some(k) => FitsSpace(g, |bits|, k, n); Some(Placed(g, k, n, size, align))
  }

  lemma FitsSpace(g: Space, bits: nat, k: nat, n: nat)
    requires bits * g.page == g.end - g.start && k + n <= bits
    ensures g.end - k * g.page - n * g.page >= g.start
  {
    assert (bits - k - n) * g.page >= 0;
    assert (bits - k - n) * g.page == bits * g.page - k * g.page - n * g.page;
  }

  lemma MulOrder(a: int, b: int, page: nat)
    requires page > 0
    ensures a * page <= b * page <==> a <= b
    ensures a * page < b * page <==> a < b
  {
    assert (b - a) * page == b * page - a * page;
    MulAtLeast(b - a, page);
  }

  lemma WantedIs(g: Space, s: nat, a: nat)
    requires g.page > 0 && a >= 1
    ensures Wanted(g, s * g.page, a * g.page) == s + a - 1
  {
    assert s * g.page + a * g.page - g.page == (s + a - 1) * g.page;
    DivMul(s + a - 1, g.page);
  }

  /** Rounding a whole number of pages up to a multiple of whole pages. */
  lemma RoundUnits(d: nat, a: nat, page: nat) returns (u: nat)
    requires page > 0 && a >= 1
    ensures a * page > 0 && RoundUp(d * page, a * page) == u * page && d <= u < d + a && u * page % (a * page) == 0
  {
    hide RoundUp;
    MulAtLeast(a, page);
    MulAtLeast(d, page);
    var q := RoundUpIs(d * page, a * page);
    u := q * a;
    MulAssoc(q, a, page);
    Distribute(d, a, page);
    MulOrder(u, d + a, page);
    MulOrder(d, u, page);
  }

  lemma Distribute(d: int, a: int, page: int)
    ensures (d + a) * page == d * page + a * page
  {
  }

  lemma MulAssoc(q: int, a: int, page: int)
    ensures q * a * page == q * (a * page)
  {
  }

  lemma Units(g: Space, e: nat, k: nat, n: nat)
    requires g.end == e * g.page && k + n <= e
    ensures g.end - k * g.page - n * g.page == (e - k - n) * g.page
  {
  }

  /** The aligned region lies inside the pages that were found, whatever their position. */
  lemma PlacedInside(g: Space, k: nat, s: nat, a: nat, e: nat)
    requires g.page > 0 && a >= 1 && g.end == e * g.page && k + s + a - 1 <= e
    ensures a * g.page > 0 && g.end - k * g.page - (s + a - 1) * g.page >= 0
    ensures var addr := Placed(g, k, s + a - 1, s * g.page, a * g.page);
            var lo := ToBitmapOffset(g, addr, s * g.page);
            && k <= lo && lo + s <= k + s + a - 1
            && addr == g.end - (lo + s) * g.page && addr % (a * g.page) == 0
  {
    hide RoundUp;
    var d := e - k - (s + a - 1);
    Units(g, e, k, s + a - 1);
    MulAtLeast(d, g.page);
    MulOrder(s, s + a - 1, g.page);
    var u := RoundUnits(d, a, g.page);
    if a == 1 {
      u := d;
      DivMul(d, g.page);
    }
    Units(g, e, u, s);
    assert Placed(g, k, s + a - 1, s * g.page, a * g.page) == u * g.page;
    DivMul(e - u - s, g.page);
    Units(g, e, 0, e - u);
  }

  /** What a caller gets: an aligned region inside the allowed part of the address space,
      made of pages that were free. */
  ghost predicate GoodRegion(g: Space, bits: seq<bool>, addr: nat, size: nat, align: nat)
    requires g.page > 0 && align > 0
  {
    var lo := ToBitmapOffset(g, addr, size);
    && addr % align == 0 && g.free <= addr && addr + size + g.reserved <= g.end
    && 0 <= lo && AllBits(bits, lo, size / g.page, false) && addr == g.end - (lo + size / g.page) * g.page
  }

  lemma ChosenIsGood(g: Space, bits: seq<bool>, size: nat, align: nat)
    requires BitmapOk(g, bits) && SizeOk(g, size, align)
    ensures var c := Chosen(g, bits, size, align); c.Some? ==> GoodRegion(g, bits, c.value, size, align)
    ensures Chosen(g, bits, size, align).None? <==>
            Wanted(g, size, align) <= 0 || forall k: nat :: !AllBits(bits, k, Wanted(g, size, align), false)
  {
    var s: nat :| size == s * g.page;
    var a: nat :| align == a * g.page;
    var e: nat :| g.end == e * g.page;
    DivMul(s, g.page);
    MulOrder(1, a, g.page);
    WantedIs(g, s, a);
    FirstFitIsFirst(bits, s + a - 1, 0);
    if Chosen(g, bits, size, align).Some? {
      var k := FirstFit(bits, s + a - 1, 0).value;
      InsideAllowed(g, bits, k, s + a - 1);
      FitsEnd(g, bits, e);
      PlacedInside(g, k, s, a, e);
      Bounds(g, ToBitmapOffset(g, Chosen(g, bits, size, align).value, size), s, k, s + a - 1);
    }
  }

  /** A call is refused although an aligned region is free if and only if no run of free pages
      has the size that the call asks for together with its alignment, less one page. */
  lemma RefusedIff(g: Space, bits: seq<bool>, size: nat, align: nat, addr: nat)
    requires BitmapOk(g, bits) && SizeOk(g, size, align) && size > 0 && align > 0
    requires GoodRegion(g, bits, addr, size, align)
    ensures Chosen(g, bits, size, align).None? <==>
            forall k: nat, n: nat | AllBits(bits, k, n, false) :: n * g.page < size + align - g.page
  {
    hide Chosen, GoodRegion;
    var s: nat :| size == s * g.page;
    var a: nat :| align == a * g.page;
    MulOrder(1, s, g.page);
    MulOrder(1, a, g.page);
    WantedIs(g, s, a);
    ChosenIsGood(g, bits, size, align);
    assert size + align - g.page == (s + a - 1) * g.page;
    forall k: nat, n: nat | AllBits(bits, k, n, false)
      ensures n * g.page < size + align - g.page <==> n < s + a - 1
      ensures n >= s + a - 1 ==> AllBits(bits, k, s + a - 1, false)
    {
      MulOrder(n, s + a - 1, g.page);
    }
  }

  /** Without alignment beyond a page, a call is refused only if no region is free. */
  lemma PagesNeverRefused(g: Space, bits: seq<bool>, size: nat, addr: nat)
    requires BitmapOk(g, bits) && SizeOk(g, size, g.page) && size > 0 && GoodRegion(g, bits, addr, size, g.page)
    ensures Chosen(g, bits, size, g.page).Some?
  {
    hide Chosen;
    RefusedIff(g, bits, size, g.page, addr);
    var s: nat :| size == s * g.page;
    DivMul(s, g.page);
    assert AllBits(bits, ToBitmapOffset(g, addr, size), s, false);
  }

  lemma Multiples(k: nat, page: nat)
    ensures Multiple(k * page, page)
  {
  }

  /** Four pages, of which the second from the top is free. */
  const FOUR := Space(4096, 0, 4 * 4096, 0, 0)
  const ONE_FREE := [true, false, true, true]

  lemma OneFreeOk()
    ensures BitmapOk(FOUR, ONE_FREE) && SizeOk(FOUR, 4096, 2 * 4096)
  {
    hide Multiple;
    Multiples(0, 4096);
    Multiples(1, 4096);
    Multiples(2, 4096);
    Multiples(4, 4096);
  }

  lemma OneFreeIsGood()
    ensures GoodRegion(FOUR, ONE_FREE, 2 * 4096, 4096, 2 * 4096)
  {
    assert ToBitmapOffset(FOUR, 2 * 4096, 4096) == 1;
  }

  /** One free page, at an address that is a multiple of two pages, is refused to a call that
      asks for one page at such an address. */
  lemma AlignedPageIsRefused()
    ensures BitmapOk(FOUR, ONE_FREE) && SizeOk(FOUR, 4096, 2 * 4096)
    ensures GoodRegion(FOUR, ONE_FREE, 2 * 4096, 4096, 2 * 4096)
    ensures Chosen(FOUR, ONE_FREE, 4096, 2 * 4096).None?
  {
    hide BitmapOk, SizeOk, GoodRegion, Chosen;
    OneFreeOk();
    OneFreeIsGood();
    ChosenIsGood(FOUR, ONE_FREE, 4096, 2 * 4096);
    assert Wanted(FOUR, 4096, 2 * 4096) == 2;
    forall k: nat ensures !AllBits(ONE_FREE, k, 2, false) { OneFreeRuns(k); }
  }

  lemma OneFreeRuns(k: nat)
    ensures !AllBits(ONE_FREE, k, 2, false)
  {
    if k + 2 <= 4 {
      assert ONE_FREE[k] || ONE_FREE[k + 1];
    }
  }

  lemma FitsEnd(g: Space, bits: seq<bool>, e: nat)
    requires BitmapOk(g, bits) && g.end == e * g.page
    ensures |bits| <= e
  {
    MulOrder(|bits|, e, g.page);
  }

  /** Clear bits are never outside the allowed part. */
  lemma InsideAllowed(g: Space, bits: seq<bool>, k: nat, n: nat)
    requires BitmapOk(g, bits) && n > 0 && AllBits(bits, k, n, false)
    ensures g.reserved / g.page <= k && k + n <= (g.end - g.free) / g.page
  {
    assert !bits[k] && !bits[k + n - 1];
  }

  lemma Bounds(g: Space, lo: nat, s: nat, k: nat, n: nat)
    requires Sane(g) && g.reserved / g.page <= k <= lo && lo + s <= k + n <= (g.end - g.free) / g.page
    ensures g.free <= g.end - (lo + s) * g.page && g.end - (lo + s) * g.page + s * g.page + g.reserved <= g.end
  {
    var r: nat :| g.reserved == r * g.page;
    var f: nat :| g.free == f * g.page;
    var e: nat :| g.end == e * g.page;
    DivMul(r, g.page);
    assert e * g.page - f * g.page == (e - f) * g.page;
    DivMul(e - f, g.page);
    MulOrder(lo + s, e - f, g.page);
    MulOrder(r, lo, g.page);
    Distribute(lo, s, g.page);
  }

  // ---------- Whole runs ----------

  datatype Region = Region(addr: nat, size: nat)

  datatype State = State(bits: seq<bool>, live: seq<Region>)

  datatype Op = Alloc(size: nat, align: nat) | Free(index: nat)

  ghost predicate Covers(g: Space, r: Region, i: int)
    requires g.page > 0
  {
    ToBitmapOffset(g, r.addr, r.size) <= i < ToBitmapOffset(g, r.addr, r.size) + r.size / g.page
  }

  ghost predicate RegionOk(g: Space, bits: nat, r: Region)
    requires g.page > 0
  {
    var lo := ToBitmapOffset(g, r.addr, r.size);
    && Multiple(r.size, g.page) && 0 <= lo && lo + r.size / g.page <= bits
    && r.addr == g.end - (lo + r.size / g.page) * g.page && g.free <= r.addr && r.addr + r.size + g.reserved <= g.end
  }

  ghost predicate Apart(g: Space, q: Region, r: Region)
    requires g.page > 0
  {
    forall i: nat :: !(Covers(g, q, i) && Covers(g, r, i))
  }

  ghost predicate Taken(g: Space, live: seq<Region>, i: int)
    requires g.page > 0
  {
    Off(g, i) || exists j :: 0 <= j < |live| && Covers(g, live[j], i)
  }

  /** The bitmap says exactly which pages are off limits or in a live region, and live
      regions never share a page. */
  ghost predicate StateInv(g: Space, s: State) {
    && BitmapOk(g, s.bits)
    && (forall j | 0 <= j < |s.live| :: RegionOk(g, |s.bits|, s.live[j]))
    && (forall j, k | 0 <= j < k < |s.live| :: Apart(g, s.live[j], s.live[k]))
    && (forall i | 0 <= i < |s.bits| :: s.bits[i] <==> Taken(g, s.live, i))
  }

  ghost function RegionAlloc(g: Space, bits: seq<bool>, size: nat, align: nat): (seq<bool>, Option<nat>)
    requires BitmapOk(g, bits) && SizeOk(g, size, align)
  {
    match Chosen(g, bits, size, align)
    case None => (bits, None)
    case Some(addr) =>
      var lo := ToBitmapOffset(g, addr, size);
      (Marked(bits, lo, lo + size / g.page, true), Some(addr))
  }

  /** Nothing happens to a region that is not wholly allowed and wholly allocated. */
  ghost function RegionFree(g: Space, bits: seq<bool>, addr: nat, size: nat): seq<bool>
    requires g.page > 0
  {
    var lo, n := ToBitmapOffset(g, addr, size), size / g.page;
    if g.free <= addr && addr + size - 1 < g.end - g.reserved && n > 0 && 0 <= lo && AllBits(bits, lo, n, true)
    then Marked(bits, lo, lo + n, false)
    else bits
  }

  /** With direct mappings a region may lie outside the allowed part: what is inside is freed
      if the first or the last byte of the region is. */
  ghost function RegionFreeDirect(g: Space, bits: seq<bool>, addr: nat, size: nat): seq<bool>
    requires g.page > 0 && g.free <= g.end - g.reserved
  {
    if EndInside(g, addr, size) then
      var top := g.end - g.reserved;
      var from := if addr < g.free then g.free else addr;
      var to := if addr + size < top then addr + size else top;
      RegionFree(g, bits, from, to - from)
    else bits
  }

  predicate EndInside(g: Space, addr: nat, size: nat) {
    g.free <= addr < g.end - g.reserved || g.free <= addr + size - 1 < g.end - g.reserved
  }

  /** A region in the allowed part is freed as without direct mappings. */
  lemma DirectFreeAgrees(g: Space, bits: seq<bool>, addr: nat, size: nat)
    requires g.page > 0 && size > 0 && g.free <= addr && addr + size <= g.end - g.reserved
    ensures RegionFreeDirect(g, bits, addr, size) == RegionFree(g, bits, addr, size)
  {
  }

  /** A region that has some byte in the allowed part is overlooked if and only if it reaches
      beyond the allowed part on both sides. */
  lemma DirectFreeOverlooksIff(g: Space, addr: nat, size: nat, byte: nat)
    requires addr <= byte < addr + size && g.free <= byte < g.end - g.reserved
    ensures !EndInside(g, addr, size) <==> addr < g.free && g.end - g.reserved < addr + size
  {
  }

  /** Five pages are in use between the kernel and the reserved page; freeing a region that
      spans all eight leaves them marked, and freeing just those five clears them. */
  lemma DirectFreeOverlooks()
    ensures var g := Space(4096, 0, 8 * 4096, 2 * 4096, 4096); var bits := seq(8, _ => true);
            && RegionFreeDirect(g, bits, 0, 8 * 4096) == bits
            && RegionFreeDirect(g, bits, 2 * 4096, 5 * 4096) == Marked(bits, 1, 6, false)
  {
    var g := Space(4096, 0, 8 * 4096, 2 * 4096, 4096);
    assert ToBitmapOffset(g, 2 * 4096, 5 * 4096) == 1;
  }

  ghost predicate Allowed(g: Space, s: State, op: Op) {
    match op
    case Alloc(size, align) => SizeOk(g, size, align)
    case Free(j) => j < |s.live|
  }

  ghost function Step(g: Space, s: State, op: Op): State
    requires StateInv(g, s) && Allowed(g, s, op)
  {
    match op
    case Alloc(size, align) =>
      var (bits, addr) := RegionAlloc(g, s.bits, size, align);
      if addr.None? then s else State(bits, s.live + [Region(addr.value, size)])
    case Free(j) => State(RegionFree(g, s.bits, s.live[j].addr, s.live[j].size), s.live[..j] + s.live[j + 1..])
  }

  /** Freeing a region that was just allocated restores the bitmap. */
  lemma FreeUndoesAlloc(g: Space, bits: seq<bool>, size: nat, align: nat)
    requires BitmapOk(g, bits) && SizeOk(g, size, align) && RegionAlloc(g, bits, size, align).1.Some?
    ensures var (after, addr) := RegionAlloc(g, bits, size, align); RegionFree(g, after, addr.value, size) == bits
  {
    ChosenIsGood(g, bits, size, align);
    var (after, addr) := RegionAlloc(g, bits, size, align);
    var lo, n := ToBitmapOffset(g, addr.value, size), size / g.page;
    if n > 0 {
      MulAtLeast(n, g.page);
      assert AllBits(after, lo, n, true);
      assert Marked(after, lo, lo + n, false) == bits;
    } else {
      assert after == bits;
    }
  }

  lemma AllocKeeps(g: Space, s: State, size: nat, align: nat)
    requires StateInv(g, s) && SizeOk(g, size, align)
    ensures StateInv(g, Step(g, s, Alloc(size, align)))
  {
    ChosenIsGood(g, s.bits, size, align);
    var (bits, addr) := RegionAlloc(g, s.bits, size, align);
    if addr.Some? {
      var r := Region(addr.value, size);
      var t := Step(g, s, Alloc(size, align));
      assert RegionOk(g, |s.bits|, r);
      forall j | 0 <= j < |s.live| ensures Apart(g, s.live[j], r) {
        forall i: nat ensures !(Covers(g, s.live[j], i) && Covers(g, r, i)) {
          if Covers(g, s.live[j], i) && Covers(g, r, i) {
            assert RegionOk(g, |s.bits|, s.live[j]);
            assert Taken(g, s.live, i);
          }
        }
      }
      forall i | 0 <= i < |t.bits| ensures t.bits[i] <==> Taken(g, t.live, i) { TakenMore(g, s.live, r, i); }
    }
  }

  lemma TakenMore(g: Space, live: seq<Region>, r: Region, i: int)
    requires g.page > 0
    ensures Taken(g, live + [r], i) <==> Taken(g, live, i) || Covers(g, r, i)
  {
    var more := live + [r];
    assert more[|live|] == r;
    assert forall j | 0 <= j < |live| :: more[j] == live[j];
  }

  lemma TakenLess(g: Space, live: seq<Region>, j: nat, i: nat)
    requires g.page > 0 && j < |live|
    requires forall k | 0 <= k < |live| && k != j :: Apart(g, live[j], live[k])
    ensures Covers(g, live[j], i) ==> forall k | 0 <= k < |live| && k != j :: !Covers(g, live[k], i)
    ensures Taken(g, live[..j] + live[j + 1..], i) <==>
            Off(g, i) || exists k :: 0 <= k < |live| && k != j && Covers(g, live[k], i)
  {
    var less := live[..j] + live[j + 1..];
    assert forall k | 0 <= k < |less| :: less[k] == live[if k < j then k else k + 1];
    if k :| 0 <= k < |live| && k != j && Covers(g, live[k], i) {
      assert less[if k < j then k else k - 1] == live[k];
    }
  }

  /** A region inside the allowed part covers no page that is off limits. */
  lemma CoveredAllowed(g: Space, bits: nat, r: Region, i: nat)
    requires Sane(g) && RegionOk(g, bits, r) && Covers(g, r, i)
    ensures i < bits && !Off(g, i)
  {
    var lo, n := ToBitmapOffset(g, r.addr, r.size), r.size / g.page;
    var q: nat :| r.size == q * g.page;
    var v: nat :| g.reserved == v * g.page;
    var f: nat :| g.free == f * g.page;
    var e: nat :| g.end == e * g.page;
    DivMul(q, g.page);
    DivMul(v, g.page);
    Distribute(e - f, f, g.page);
    DivMul(e - f, g.page);
    Distribute(lo, n, g.page);
    MulOrder(v, lo, g.page);
    MulOrder(lo + n, e - f, g.page);
  }

  lemma FreeKeeps(g: Space, s: State, j: nat)
    requires StateInv(g, s) && j < |s.live|
    ensures StateInv(g, Step(g, s, Free(j)))
  {
    var r := s.live[j];
    var t := Step(g, s, Free(j));
    var lo, n := ToBitmapOffset(g, r.addr, r.size), r.size / g.page;
    assert RegionOk(g, |s.bits|, r);
    FreesRegion(g, s, j);
    forall k | 0 <= k < |s.live| && k != j ensures Apart(g, r, s.live[k]) {
      assert k < j ==> Apart(g, s.live[k], r);
    }
    forall i | 0 <= i < |t.bits| ensures (t.bits[i] <==> Taken(g, t.live, i)) && (Off(g, i) ==> t.bits[i]) {
      TakenLess(g, s.live, j, i);
      if Covers(g, r, i) { CoveredAllowed(g, |s.bits|, r, i); }
      assert s.bits[i] <==> Taken(g, s.live, i);
    }
    assert forall k | 0 <= k < |t.live| :: t.live[k] == s.live[if k < j then k else k + 1];
  }

  lemma FreesRegion(g: Space, s: State, j: nat)
    requires StateInv(g, s) && j < |s.live|
    ensures var r := s.live[j]; var lo := ToBitmapOffset(g, r.addr, r.size);
            Step(g, s, Free(j)).bits == Marked(s.bits, lo, lo + r.size / g.page, false)
  {
    var r := s.live[j];
    assert RegionOk(g, |s.bits|, r);
    var lo, n := ToBitmapOffset(g, r.addr, r.size), r.size / g.page;
    forall i | lo <= i < lo + n ensures s.bits[i] {
      assert Covers(g, r, i);
      assert Taken(g, s.live, i);
    }
    if n > 0 {
      MulAtLeast(n, g.page);
    } else {
      assert Marked(s.bits, lo, lo + n, false) == s.bits;
    }
  }

  ghost predicate RunAllowed(g: Space, s: State, ops: seq<Op>)
    requires StateInv(g, s)
    decreases |ops|
  {
    ops != [] ==> Allowed(g, s, ops[0]) && (StepKeeps(g, s, ops[0]); RunAllowed(g, Step(g, s, ops[0]), ops[1..]))
  }

  ghost function Run(g: Space, s: State, ops: seq<Op>): State
    requires StateInv(g, s) && RunAllowed(g, s, ops)
    decreases |ops|
  {
    if ops == [] then s else (StepKeeps(g, s, ops[0]); Run(g, Step(g, s, ops[0]), ops[1..]))
  }

  lemma StepKeeps(g: Space, s: State, op: Op)
    requires StateInv(g, s) && Allowed(g, s, op)
    ensures StateInv(g, Step(g, s, op))
  {
    match op
    case Alloc(size, align) => AllocKeeps(g, s, size, align);
    case Free(j) => FreeKeeps(g, s, j);
  }

  /** After every run of allocations and frees no two live regions share an address, every
      live region is inside the allowed part, and once all are freed the bitmap is as it
      was before any was allocated. */
  lemma {:induction false} RunsNeverOverlap(g: Space, s: State, ops: seq<Op>)
    requires StateInv(g, s) && RunAllowed(g, s, ops)
    ensures var t := Run(g, s, ops);
            && StateInv(g, t)
            && (forall j, k | 0 <= j < k < |t.live| :: NoOverlap(t.live[j], t.live[k]))
            && (t.live == [] ==> |t.bits| == |s.bits| && forall i | 0 <= i < |t.bits| :: t.bits[i] <==> Off(g, i))
    decreases |ops|
  {
    hide Step, Allowed;
    if ops == [] {
      forall j, k | 0 <= j < k < |s.live| ensures NoOverlap(s.live[j], s.live[k]) {
        assert RegionOk(g, |s.bits|, s.live[j]) && RegionOk(g, |s.bits|, s.live[k]) && Apart(g, s.live[j], s.live[k]);
        ApartBytes(g, |s.bits|, s.live[j], s.live[k]);
      }
    } else {
      StepKeeps(g, s, ops[0]);
      RunsNeverOverlap(g, Step(g, s, ops[0]), ops[1..]);
      MulOrder(|s.bits|, |Step(g, s, ops[0]).bits|, g.page);
    }
  }

  predicate NoOverlap(q: Region, r: Region) {
    q.size == 0 || r.size == 0 || q.addr + q.size <= r.addr || r.addr + r.size <= q.addr
  }

  lemma ApartBytes(g: Space, bits: nat, q: Region, r: Region)
    requires g.page > 0 && RegionOk(g, bits, q) && RegionOk(g, bits, r) && Apart(g, q, r)
    ensures NoOverlap(q, r)
  {
    var l, m := ToBitmapOffset(g, q.addr, q.size), q.size / g.page;
    var k, n := ToBitmapOffset(g, r.addr, r.size), r.size / g.page;
    var a: nat :| q.size == a * g.page;
    var b: nat :| r.size == b * g.page;
    DivMul(a, g.page);
    DivMul(b, g.page);
    if m > 0 && n > 0 {
      assert !(Covers(g, q, l) && Covers(g, r, l));
      assert !(Covers(g, q, k) && Covers(g, r, k));
      assert l + m <= k || k + n <= l;
      Distribute(l, m, g.page);
      Distribute(k, n, g.page);
      MulOrder(l + m, k, g.page);
      MulOrder(k + n, l, g.page);
    } else {
      assert m == 0 ==> q.size == 0;
      assert n == 0 ==> r.size == 0;
    }
  }

  // ---------- Which region, and which bits ----------

  /** The highest run of free pages that has room for any position of the aligned region. */
  ghost predicate HighestRun(bits: seq<bool>, k: nat, n: nat) {
    AllBits(bits, k, n, false) && forall j: nat | j < k :: !AllBits(bits, j, n, false)
  }

  /** The region that is handed out is at the lowest aligned address in the highest run of free
      pages that has room for it at any alignment. */
  lemma ChosenIsHighest(g: Space, bits: seq<bool>, size: nat, align: nat) returns (k: nat, n: nat)
    requires BitmapOk(g, bits) && SizeOk(g, size, align) && Chosen(g, bits, size, align).Some?
    ensures n > 0 && n * g.page == size + align - g.page && HighestRun(bits, k, n)
    ensures var addr := Chosen(g, bits, size, align).value;
            addr % align == 0 && 0 <= addr - (g.end - k * g.page - n * g.page) < align
  {
    hide RoundUp, GoodRegion, Multiple;
    ChosenAligned(g, bits, size, align);
    n := WantedPages(g, size, align);
    FirstFitIsFirst(bits, n, 0);
    k := FirstFit(bits, n, 0).value;
    FitsSpace(g, |bits|, k, n);
    var _ := RoundUpIs(g.end - k * g.page - n * g.page, align);
  }

  lemma ChosenAligned(g: Space, bits: seq<bool>, size: nat, align: nat)
    requires BitmapOk(g, bits) && SizeOk(g, size, align) && Chosen(g, bits, size, align).Some?
    ensures Chosen(g, bits, size, align).value % align == 0
  {
    hide Chosen;
    ChosenIsGood(g, bits, size, align);
  }

  lemma WantedPages(g: Space, size: nat, align: nat) returns (n: nat)
    requires SizeOk(g, size, align)
    ensures n == Wanted(g, size, align) && n * g.page == size + align - g.page
  {
    var s: nat :| size == s * g.page;
    var a: nat :| align == a * g.page;
    MulOrder(1, a, g.page);
    WantedIs(g, s, a);
    n := s + a - 1;
  }

  /** Without alignment beyond a page no free region is higher. */
  lemma PagesAreHighest(g: Space, bits: seq<bool>, size: nat, addr: nat)
    requires BitmapOk(g, bits) && SizeOk(g, size, g.page) && size > 0 && GoodRegion(g, bits, addr, size, g.page)
    ensures Chosen(g, bits, size, g.page).Some? && addr <= Chosen(g, bits, size, g.page).value
  {
    hide Chosen;
    PagesNeverRefused(g, bits, size, addr);
    var k, n := ChosenIsHighest(g, bits, size, g.page);
    DivMul(n, g.page);
    var lo := ToBitmapOffset(g, addr, size);
    assert !(lo < k);
    MulOrder(k, lo, g.page);
    Distribute(lo, n, g.page);
  }

  /** Allocation marks the pages of the region, no others, and records it; a refusal changes
      nothing. */
  lemma AllocIs(g: Space, s: State, size: nat, align: nat)
    requires StateInv(g, s) && SizeOk(g, size, align)
    ensures var t := Step(g, s, Alloc(size, align)); var c := Chosen(g, s.bits, size, align);
            && (c.None? ==> t == s)
            && (c.Some? ==>
                  && t.live == s.live + [Region(c.value, size)] && |t.bits| == |s.bits|
                  && forall i | 0 <= i < |s.bits| :: t.bits[i] <==> s.bits[i] || Covers(g, Region(c.value, size), i))
  {
    hide Chosen;
  }

  /** Freeing clears the pages of the region, no others, if the whole region is in the allowed
      part and in use. Otherwise nothing happens. */
  lemma FreeIs(g: Space, bits: seq<bool>, addr: nat, size: nat)
    requires g.page > 0
    ensures var t := RegionFree(g, bits, addr, size); var lo := ToBitmapOffset(g, addr, size);
            var inside := g.free <= addr && addr + size <= g.end - g.reserved && size >= g.page;
            var used := 0 <= lo && lo + size / g.page <= |bits| && forall i | lo <= i < lo + size / g.page :: bits[i];
            && |t| == |bits| && (!(inside && used) ==> t == bits)
            && (inside && used ==>
                  forall i | 0 <= i < |bits| :: t[i] <==> bits[i] && !Covers(g, Region(addr, size), i))
  {
    WholePages(size, g.page);
  }

  lemma WholePages(size: nat, page: nat)
    requires page > 0
    ensures size / page > 0 <==> size >= page
  {
    var q := size / page;
    assert size == q * page + size % page;
    MulAtLeast(q, page);
  }

  lemma FreeTakesOff(g: Space, s: State, j: nat)
    requires StateInv(g, s) && j < |s.live|
    ensures var t := Step(g, s, Free(j));
            && |t.live| == |s.live| - 1
            && forall k | 0 <= k < |t.live| :: t.live[k] == s.live[if k < j then k else k + 1]
  {
  }

  /** A byte of the part of the address space that may be handed out. */
  predicate Inside(g: Space, byte: int) { g.free <= byte && byte + g.reserved < g.end }

  /** With direct mappings the part of a region that is in the allowed part is freed, if the
      first or the last byte of the region is there. */
  lemma DirectFreeIs(g: Space, bits: seq<bool>, addr: nat, size: nat, from: nat, to: nat)
    requires g.page > 0 && g.free <= g.end - g.reserved && size > 0 && from < to
    requires forall b: int :: from <= b < to <==> addr <= b < addr + size && Inside(g, b)
    ensures RegionFreeDirect(g, bits, addr, size) ==
              if Inside(g, addr) || Inside(g, addr + size - 1) then RegionFree(g, bits, from, to - from) else bits
  {
    var top := g.end - g.reserved;
    var f := if addr < g.free then g.free else addr;
    var t := if addr + size < top then addr + size else top;
    assert Inside(g, from) && Inside(g, to - 1);
    assert Inside(g, f) && Inside(g, t - 1);
  }

  /** A region without a byte in the allowed part is left alone. */
  lemma DirectFreeOutside(g: Space, bits: seq<bool>, addr: nat, size: nat)
    requires g.page > 0 && g.free <= g.end - g.reserved && size > 0
    requires forall b: int | addr <= b < addr + size :: !Inside(g, b)
    ensures RegionFreeDirect(g, bits, addr, size) == bits
  {
    assert !Inside(g, addr) && !Inside(g, addr + size - 1);
  }
}
