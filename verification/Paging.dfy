/**
  The paging code of the kernel, as it updates page frames, page table, scratch page and
  backing store step by step. Each operation is proved to reach the state that
  `PagingSpec` gives for it.
 */
module Paging {
  import opened PagingLaws
  import opened PagingSpec

  lemma PinnedUntracked(m: Mem, f: nat)
    requires Inv(m, {}) && f < |m.frames|
    ensures m.frames[f].pinned ==> f !in m.tracked
  {
    assert FrameOk(m, f, {});
  }

  lemma InHand(m: Mem, f: nat)
    requires Inv(m, {f})
    ensures f < |m.frames| == |m.ram| && m.frames[f] == BLANK
  {
    assert f in {f};
    assert FrameOk(m, f, {f});
  }

  class Mmu {
    var frames: seq<Frame>
    var freeList: seq<nat>
    var freeCount: nat
    var table: map<nat, Pte>
    var ram: seq<Data>
    var store: map<nat, Data>
    var held: map<nat, nat>
    var copyAt: map<nat, nat>
    var tracked: set<nat>
    /** The frame behind the scratch page, through which data pages move. */
    var scratch: nat

    ghost function View(): Mem
      reads this
    {
      Mem(frames, freeList, table, ram, store, held, copyAt, tracked)
    }

    ghost predicate Valid()
      reads this
    {
      Inv(View(), {}) && freeCount == |freeList|
    }

    // ---------- Initialisation ----------

    /** `z_mem_manage_init`: marks the frames of the image, frees what is left over and tells
        the eviction algorithm which frames it may take. */
    constructor (kinds: seq<Kind>, data: seq<Data>)
      requires |data| == |kinds| && OneFrameEach(kinds)
      ensures Valid() && View() == BootMem(kinds, data)
    {
      hide Inv, BootFrames;
      frames, freeList, freeCount, table, ram := [], [], 0, map[], data;
      store, held, copyAt, tracked, scratch := map[], map[], map[], {}, 0;
      new;
      var i := 0;
      while i < |kinds|
        invariant 0 <= i <= |kinds| && frames == BootFrames(kinds[..i]) && table == ImageTable(kinds, i)
        invariant freeList == Spares(kinds, i) && freeCount == |freeList|
        invariant tracked == Evictable(kinds, i) && ram == data && store == map[] && held == map[] && copyAt == map[]
      {
        BootFramesNext(kinds, i);
        match kinds[i] {
        case Image(va, pinned) =>
          frames := frames + [BLANK.(mapped := true, pinned := pinned, va := va)];
          table := table[va := Loaded(i, false)];
          if !pinned {
            tracked := tracked + {i};
          }
        case Unusable => frames := frames + [BLANK.(reserved := true)];
        case Spare =>
          frames := frames + [BLANK.(free := true)];
          freeList := freeList + [i];
          freeCount := freeCount + 1;
        }
        i := i + 1;
      }
      assert kinds[..i] == kinds;
      BootOk(kinds, data);
    }

    // ---------- Free list ----------

    method FreeListGet() returns (found: bool, f: nat)
      requires freeList != [] ==> freeList[0] < |frames|
      requires freeCount == |freeList|
      modifies this`freeList, this`freeCount, this`frames
      ensures freeCount == |freeList| && found == (old(freeList) != [])
      ensures !found ==> View() == old(View())
      ensures found ==> f == old(freeList)[0] && View() == TakeFree(old(View()))
    {
      found, f := false, 0;
      if freeList != [] {
        found, f := true, freeList[0];
        freeList := freeList[1..];
        freeCount := freeCount - 1;
        frames := frames[f := BLANK];
      }
    }

    method FreeLocked(f: nat)
      requires f < |frames| && freeCount == |freeList|
      modifies this`freeList, this`freeCount, this`frames
      ensures freeCount == |freeList| && View() == GiveFree(old(View()), f)
    {
      frames := frames[f := BLANK];
      frames := frames[f := frames[f].(free := true)];
      freeList := freeList + [f];
      freeCount := freeCount + 1;
    }

    // ---------- Backing store ----------

    method StorePageOut(loc: nat)
      requires scratch < |ram|
      modifies this`store
      ensures store == old(store)[loc := ram[scratch]]
    {
      store := store[loc := ram[scratch]];
    }

    method StorePageIn(loc: nat)
      requires scratch < |ram| && loc in store
      modifies this`ram
      ensures ram == old(ram)[scratch := store[loc]]
    {
      ram := ram[scratch := store[loc]];
    }

    /** The backing store decides whether to keep its copy of a page that is in memory
        again, and says so in the frame's BACKED flag. */
    method PageFinalize(f: nat, loc: nat, keep: bool)
      requires f < |frames|
      modifies this`frames, this`copyAt, this`held
      ensures frames == old(frames)[f := old(frames)[f].(backed := keep)]
      ensures copyAt == if keep then old(copyAt)[f := loc] else old(copyAt)
      ensures held == if keep then old(held) else old(held) - {loc}
    {
      frames := frames[f := frames[f].(backed := keep)];
      if keep {
        copyAt := copyAt[f := loc];
      } else {
        held := held - {loc};
      }
    }

    // ---------- Eviction ----------

    /** Detaches the data page of a frame, if it has one, from the frame: its page table
        entry points to the backing store before the data is copied there. */
    method PrepareFrame(f: nat, wasDirty: bool, pageFault: bool, room: Room) returns (ok: bool, dirty: bool, loc: nat)
      requires f < |frames| && !frames[f].pinned && !frames[f].busy
      requires !frames[f].mapped ==> !wasDirty
      modifies this`scratch, this`held, this`table, this`tracked, this`frames
      ensures ok == !(old(frames)[f].mapped && room.Full?)
      ensures !ok ==> View() == old(View())
      ensures ok ==> dirty == (wasDirty || (old(frames)[f].mapped && !old(frames)[f].backed))
      ensures ok ==> frames == old(frames)[f := old(frames)[f].(busy := true)]
      ensures ok && (dirty || pageFault) ==> scratch == f
      ensures ok && !old(frames)[f].mapped ==> table == old(table) && held == old(held) && tracked == old(tracked)
      ensures ok && old(frames)[f].mapped ==>
        && room.At? && loc == room.loc && tracked == old(tracked) - {f}
        && table == old(table)[old(frames)[f].va := PagedOut(loc)] && held == old(held)[loc := old(frames)[f].va]
    {
      dirty, loc := wasDirty, 0;
      if frames[f].mapped {
        dirty := dirty || !frames[f].backed;
      }
      if dirty || pageFault {
        scratch := f;
      }
      if frames[f].mapped {
        if room.Full? {
          ok := false;
          return;
        }
        loc := room.loc;
        held := held[loc := frames[f].va];
        table := table[frames[f].va := PagedOut(loc)];
        tracked := tracked - {f};
      }
      frames := frames[f := frames[f].(busy := true)];
      ok := true;
    }

    /** Evicts the page of a mapped frame; the frame keeps its flags until the caller reuses it. */
    method EvictInto(f: nat, dirtyBit: bool, pageFault: bool, room: Room) returns (ok: bool)
      requires Inv(View(), {}) && f < |frames| && frames[f].mapped && MayLeave(View(), f, room)
      requires frames[f].va in table && table[frames[f].va].Loaded? && table[frames[f].va].dirty == dirtyBit
      modifies this
      ensures freeList == old(freeList) && freeCount == old(freeCount) && ok == room.At?
      ensures !ok ==> View() == old(View())
      ensures ok && pageFault ==> scratch == f
      ensures ok ==> frames == old(frames)[f := old(frames)[f].(busy := true)]
      ensures ok ==> View().(frames := old(frames)[f := BLANK]) == Evict(old(View()), f, room.loc)
    {
      assert FrameOk(View(), f, {});
      var dirty, loc;
      ok, dirty, loc := PrepareFrame(f, dirtyBit, pageFault, room);
      if ok && dirty {
        StorePageOut(loc);
      }
    }

    /** `k_mem_page_out`, one page: an evicted page leaves memory as user code sees it unchanged. */
    method MemEvict(va: nat, room: Room) returns (ok: bool)
      requires Valid() && Allowed(View(), PageOut(va, room))
      modifies this
      ensures Valid() && View() == Step(old(View()), PageOut(va, room))
      ensures ok == old(Succeeds(View(), PageOut(va, room)))
      ensures Contents(View()) == old(Contents(View()))
      ensures ok ==> va in table && table[va].PagedOut?
    {
      StepMoves(View(), PageOut(va, room));
      assert PteOk(View(), va);
      StepKeeps(View(), PageOut(va, room));
      ok := true;
      if table[va].Loaded? {
        var f, dirty := table[va].frame, table[va].dirty;
        ok := Vacate(f, dirty, room);
      }
    }

    method Vacate(f: nat, dirtyBit: bool, room: Room) returns (ok: bool)
      requires Valid() && f < |frames| && frames[f].mapped && MayLeave(View(), f, room)
      requires frames[f].va in table && table[frames[f].va].Loaded? && table[frames[f].va].dirty == dirtyBit
      modifies this
      ensures Valid() && View() == Leave(old(View()), f, room) && ok == room.At?
    {
      ghost var was := View();
      LeaveKeeps(was, f, room);
      ok := EvictInto(f, dirtyBit, false, room);
      if ok {
        FreeLocked(f);
        assert frames == Leave(was, f, room).frames;
      }
      assert View() == Leave(was, f, room);
    }

    /** `k_mem_page_frame_evict`: empties a given page frame. */
    method PageFrameEvict(f: nat, room: Room) returns (ok: bool)
      requires Valid() && Allowed(View(), EvictFrame(f, room))
      modifies this
      ensures Valid() && View() == Step(old(View()), EvictFrame(f, room))
      ensures ok == old(Succeeds(View(), EvictFrame(f, room)))
      ensures Contents(View()) == old(Contents(View()))
      ensures ok ==> f < |frames| && !frames[f].mapped
    {
      StepMoves(View(), EvictFrame(f, room));
      StepKeeps(View(), EvictFrame(f, room));
      assert FrameOk(View(), f, {});
      ok := true;
      if frames[f].mapped {
        var dirty := table[frames[f].va].dirty;
        ok := Vacate(f, dirty, room);
      }
    }

    // ---------- Page faults and pinning ----------

    /** A frame for a page: the first free one, else the eviction algorithm's victim. */
    method ObtainForFault(a: Answers) returns (f: nat, ghost r: Mem)
      requires Inv(View(), {}) && freeCount == |freeList| && CanObtain(View(), a)
      modifies this
      ensures (r, f) == old(Obtain(View(), a)) && f < |frames| && scratch == f && freeCount == |freeList|
      ensures r == View().(frames := frames[f := BLANK])
      ensures !frames[f].free && !frames[f].reserved && !frames[f].pinned
    {
      ghost var was := View();
      var found;
      if freeList != [] {
        TakeFreeKeeps(View());
      }
      found, f := FreeListGet();
      if found {
        r := View();
        var ok, dirty, loc := PrepareFrame(f, false, true, a.room);
        assert r == View().(frames := frames[f := BLANK]);
      } else {
        f := a.victim;
        Victim(View(), f, a.room.loc);
        assert FrameOk(View(), f, {});
        r := Evict(View(), f, a.room.loc);
        var dirty := table[frames[f].va].dirty;
        var ok := EvictInto(f, dirty, true, a.room);
        assert frames[f := BLANK] == was.frames[f := BLANK];
      }
    }

    /** A fault on an address that is not mapped is fatal. Any other fault, with or without
        pinning, ends with the page in memory and memory as user code sees it unchanged. */
    method PageFault(va: nat, pin: bool, a: Answers) returns (ok: bool)
      requires Valid() && Allowed(View(), if pin then Pin(va, a) else Touch(va, a))
      modifies this
      ensures Valid() && View() == Step(old(View()), if pin then Pin(va, a) else Touch(va, a))
      ensures ok == (va in old(table)) && Contents(View()) == old(Contents(View()))
      ensures ok ==> va in table && table[va].Loaded?
      ensures PinsExactly(old(View()), if pin then Pin(va, a) else Touch(va, a), View())
      ensures ok && pin ==> va in PinnedPages(View()) && PinnedPages(View())[va] == table[va].frame
    {
      StepPins(View(), if pin then Pin(va, a) else Touch(va, a));
      ghost var was := View();
      if va !in table {
        ok := false;
        return;
      }
      ok := true;
      assert PteOk(View(), va);
      FaultKeeps(was, va, pin, a);
      if table[va].Loaded? {
        var f := table[va].frame;
        if pin && !frames[f].pinned {
          tracked := tracked - {f};
          frames := frames[f := frames[f].(pinned := true)];
        }
        assert View() == Fault(was, va, pin, a);
      } else {
        PageIn(va, pin, a);
      }
    }

    method PageIn(va: nat, pin: bool, a: Answers)
      requires Valid() && va in table && table[va].PagedOut? && CanObtain(View(), a)
      modifies this
      ensures View() == Fault(old(View()), va, pin, a) && freeCount == |freeList|
    {
      hide ListOk, FramesOk, TrackedOk, Obtain;
      var from := table[va].loc;
      ObtainKeeps(View(), a);
      var f; ghost var r;
      f, r := ObtainForFault(a);
      assert PteOk(r, va);
      Attach(va, f, pin, from, a.keep, r);
    }

    /** The data page comes in through the scratch page before the page table points to it. */
    method Attach(va: nat, f: nat, pin: bool, from: nat, keep: bool, ghost r: Mem)
      requires f < |frames| == |ram| && scratch == f && va in table && table[va] == PagedOut(from) && from in store
      requires !frames[f].free && !frames[f].reserved && !frames[f].pinned
      requires r == View().(frames := frames[f := BLANK])
      modifies this
      ensures View() == Load(r, va, f, pin, keep) && freeCount == old(freeCount)
    {
      ghost var last := frames;
      StorePageIn(from);
      var p := frames[f];
      p := p.(busy := false).(mapped := false);
      p := p.(mapped := true, va := va);
      if pin {
        p := p.(pinned := true);
      }
      frames := frames[f := p];
      table := table[va := Loaded(f, false)];
      PageFinalize(f, from, keep);
      if !pin {
        tracked := tracked + {f};
      }
      assert frames == last[f := BLANK][f := frames[f]];
    }

    method MemUnpin(va: nat)
      requires Valid() && va in table
      modifies this`frames, this`tracked
      ensures Valid() && View() == Step(old(View()), Unpin(va))
      ensures Contents(View()) == old(Contents(View())) && va !in PinnedPages(View())
    {
      StepKeeps(View(), Unpin(va));
      assert PteOk(View(), va);
      if table[va].Loaded? {
        var f := table[va].frame;
        if frames[f].pinned {
          frames := frames[f := frames[f].(pinned := false)];
          tracked := tracked + {f};
        }
      }
    }

    /** A write by user code: the hardware faults if the page is not in memory and marks it
        dirty. Afterwards the page reads as written, and no other page has changed. */
    method WritePage(va: nat, data: Data, a: Answers)
      requires Valid() && Allowed(View(), Write(va, data, a))
      modifies this
      ensures Valid() && View() == Step(old(View()), Write(va, data, a))
      ensures Contents(View()) == old(Contents(View()))[va := data]
    {
      StepKeeps(View(), Write(va, data, a));
      FaultKeeps(View(), va, false, a);
      var ok := PageFault(va, false, a);
      var f := table[va].frame;
      ram := ram[f := data];
      table := table[va := Loaded(f, true)];
    }

    /** A read by user code returns what was last written to the page. */
    method ReadPage(va: nat, a: Answers) returns (data: Data)
      requires Valid() && va in table && (table[va].PagedOut? ==> CanObtain(View(), a))
      modifies this
      ensures Valid() && Contents(View()) == old(Contents(View())) && va in Contents(View())
              && data == Contents(View())[va]
    {
      FaultKeeps(View(), va, false, a);
      var ok := PageFault(va, false, a);
      data := ram[table[va].frame];
    }

    // ---------- Mapping ----------

    /** `map_anon_page` and the zero fill that follows it. */
    method MapAnonPage(va: nat, lock: bool, a: Answers) returns (ok: bool)
      requires Valid() && Allowed(View(), Map(va, lock, a))
      modifies this
      ensures Valid() && View() == Step(old(View()), Map(va, lock, a))
      ensures ok == old(Succeeds(View(), Map(va, lock, a)))
      ensures PinsExactly(old(View()), Map(va, lock, a), View())
    {
      StepPins(View(), Map(va, lock, a));
      hide ListOk, FramesOk, TrackedOk, Obtain, TableOk;
      StepKeeps(View(), Map(va, lock, a));
      if CanTry(a) {
        ObtainKeeps(View(), a);
      }
      var f;
      ok, f := ObtainForMap(a);
      if ok {
        InHand(View(), f);
        MapNew(va, f, lock);
      }
    }

    ghost predicate CanTry(a: Answers)
      reads this
    {
      freeList != [] || a.room.At?
    }

    method ObtainForMap(a: Answers) returns (ok: bool, f: nat)
      requires Inv(View(), {}) && freeCount == |freeList| && (CanTry(a) ==> CanObtain(View(), a))
      modifies this
      ensures freeCount == |freeList| && ok == old(CanTry(a))
      ensures !ok ==> View() == old(View())
      ensures ok ==> (View(), f) == old(Obtain(View(), a))
    {
      ghost var was := View();
      if freeList != [] {
        TakeFreeKeeps(View());
      }
      ok, f := FreeListGet();
      if !ok && a.room.At? {
        f := a.victim;
        Victim(View(), f, a.room.loc);
        assert FrameOk(View(), f, {});
        var dirty := table[frames[f].va].dirty;
        ok := EvictInto(f, dirty, false, a.room);
        frames := frames[f := BLANK];
        assert frames == was.frames[f := BLANK];
      }
    }

    method MapNew(va: nat, f: nat, lock: bool)
      requires f < |frames| == |ram| && frames[f] == BLANK
      modifies this`table, this`frames, this`tracked, this`ram
      ensures View() == MapFrame(old(View()), va, f, lock)
    {
      table := table[va := Loaded(f, false)];
      var p := frames[f];
      if lock {
        p := p.(pinned := true);
      }
      frames := frames[f := p.(mapped := true, va := va)];
      if !lock {
        tracked := tracked + {f};
      }
      ram := ram[f := 0];
      table := table[va := Loaded(f, true)];
    }

    method UnmapAnonPage(va: nat) returns (ok: bool)
      requires Valid()
      modifies this
      ensures Valid() && View() == Step(old(View()), Unmap(va))
      ensures ok == (va in old(table)) && Contents(View()) == old(Contents(View())) - {va}
    {
      hide ListOk, FramesOk, TrackedOk;
      StepKeeps(View(), Unmap(va));
      ok := va in table;
      if ok {
        assert PteOk(View(), va);
        match table[va]
        case PagedOut(loc) =>
          table := table - {va};
          held := held - {loc};
        case Loaded(f, _) =>
          PinnedUntracked(View(), f);
          UnmapFrame(va, f);
      }
    }

    method UnmapFrame(va: nat, f: nat)
      requires f < |frames| && freeCount == |freeList| && (frames[f].pinned ==> f !in tracked)
      modifies this`table, this`tracked, this`frames, this`freeList, this`freeCount
      ensures freeCount == |freeList| && View() == GiveFree(UnmapLoaded(old(View()), va, f), f)
    {
      table := table - {va};
      if !frames[f].pinned {
        tracked := tracked - {f};
      }
      FreeLocked(f);
    }

    // ---------- Regions of pages ----------

    /** The loop of `k_mem_map_phys_guard` over the pages between the guards. A page that
        fails ends it, and the pages before it stay mapped. */
    method MapAnonRegion(va: nat, lock: bool, answers: seq<Answers>) returns (ok: bool, ghost done: nat)
      requires Valid() && RegionAllowed(View(), va, lock, answers)
      modifies this
      ensures Valid() && (View(), done) == old(MapRegion(View(), va, lock, answers))
      ensures done <= |answers| && (ok <==> done == |answers|)
      ensures ok ==> Contents(View()) == Zeroed(old(Contents(View())), va, |answers|)
      ensures Contents(View()).Keys == old(Contents(View())).Keys + Range(va, done)
      ensures forall v | v in old(Contents(View())) :: !(va <= v < va + done)
      ensures forall v | v in old(Contents(View())) :: Contents(View())[v] == old(Contents(View()))[v]
      ensures !ok ==> freeList == [] && answers[done].room.Full?
      ensures !ok ==> (Contents(View()) == old(Contents(View())) <==> old(freeList) == [] && answers[0].room.Full?)
    {
      hide Inv, Allowed, Step, Succeeds, Contents, Zeroed, PinnedPages, RegionAllowed, MapRegion;
      ghost var was := View();
      MapRegionIs(was, va, lock, answers);
      ghost var total := MapRegion(was, va, lock, answers);
      LeftBehind(Contents(was), va, total.1);
      ok, done := true, 0;
      var i := 0;
      while i < |answers| && ok
        invariant 0 <= i == done <= |answers| && Valid() && (!ok ==> i < |answers| && total == (View(), i))
        invariant ok ==> RegionAllowed(View(), va + i, lock, answers[i..])
        invariant ok ==> var (r, n) := MapRegion(View(), va + i, lock, answers[i..]); total == (r, i + n)
        decreases |answers| - i, ok
      {
        MapTurn(View(), va + i, lock, answers[i..]);
        assert answers[i..][0] == answers[i] && answers[i..][1..] == answers[i + 1..];
        ok := MapAnonPage(va + i, lock, answers[i]);
        if ok {
          i, done := i + 1, done + 1;
        }
      }
      assert answers[|answers|..] == [];
      MapNobody(View(), va + |answers|, lock);
    }

    /** The loop of `k_mem_unmap_phys_guard`: it stops at the first page that is not mapped. */
    method UnmapAnonRegion(va: nat, n: nat) returns (done: nat)
      requires Valid()
      modifies this
      ensures Valid() && (View(), done) == old(UnmapRegion(View(), va, n))
      ensures done <= n && Contents(View()) == old(Contents(View())) - Range(va, done)
      ensures forall v | va <= v < va + done :: v in old(Contents(View()))
      ensures done < n ==> va + done !in old(Contents(View()))
    {
      hide Inv, Step, Contents, PinnedPages;
      UnmapRegionIs(View(), va, n);
      ghost var total := UnmapRegion(View(), va, n);
      done := 0;
      while done < n
        invariant 0 <= done <= n && Valid()
        invariant var (r, k) := UnmapRegion(View(), va + done, n - done); total == (r, done + k)
      {
        UnmapTurn(View(), va + done);
        var ok := UnmapAnonPage(va + done);
        if !ok {
          return;
        }
        done := done + 1;
      }
    }

    // ---------- Runs ----------

    method Perform(op: Op) returns (ok: bool)
      requires Valid() && Allowed(View(), op)
      modifies this
      ensures Valid() && View() == Step(old(View()), op) && ok == old(Succeeds(View(), op))
    {
      match op
      case Write(va, data, a) => WritePage(va, data, a); ok := true;
      case Touch(va, a) => ok := PageFault(va, false, a);
      case Pin(va, a) => ok := PageFault(va, true, a);
      case Unpin(va) => MemUnpin(va); ok := true;
      case PageOut(va, room) => ok := MemEvict(va, room);
      case EvictFrame(f, room) => ok := PageFrameEvict(f, room);
      case Map(va, lock, a) => ok := MapAnonPage(va, lock, a);
      case Unmap(va) => ok := UnmapAnonPage(va);
    }

    /** After any run the pages read as they would in a memory without paging. */
    method RunAll(ops: seq<Op>) returns (oks: seq<bool>)
      requires Valid() && RunAllowed(View(), ops)
      modifies this
      ensures Valid() && |oks| == |ops| && Contents(View()) == Replay(old(Contents(View())), ops, oks)
      decreases |ops|
    {
      hide Step, Inv, Allowed, Effect, Contents, Succeeds;
      if ops == [] {
        oks := [];
      } else {
        StepKeeps(View(), ops[0]);
        var ok := Perform(ops[0]);
        var rest := RunAll(ops[1..]);
        oks := [ok] + rest;
        assert oks[1..] == rest;
      }
    }
  }

  lemma LeftBehind(c: map<nat, Data>, va: nat, n: nat)
    requires forall v | v in c :: !(va <= v < va + n)
    ensures Zeroed(c, va, n) == c <==> n == 0
    ensures Zeroed(c, va, n).Keys == c.Keys + Range(va, n) && forall v | v in c :: Zeroed(c, va, n)[v] == c[v]
  {
    if n > 0 {
      assert va in Zeroed(c, va, n);
    }
  }
}
