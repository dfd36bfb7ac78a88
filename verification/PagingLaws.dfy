/**
  What the paging operations do besides keeping memory as user code sees it: which pages they
  pin, which pages they bring in, which page gives way, and what becomes of the free list and
  of the backing store.
 */
module PagingLaws {
  import opened Common
  import opened PagingSpec

  /** The pages that are in memory and the frames that hold them. */
  function Resident(m: Mem): map<nat, nat> { map va | va in m.table && m.table[va].Loaded? :: m.table[va].frame }

  // ---------- Pinning ----------

  /** Pinning a page, or mapping it locked, adds it to the pinned pages, in the frame that now
      holds it. Unpinning and unmapping take it away. Nothing else pins or unpins a page. */
  ghost predicate PinsExactly(m: Mem, op: Op, r: Mem)
    requires Allowed(m, op)
  {
    match op
    case Pin(va, _) =>
      if va in m.table then va in Resident(r) && PinnedPages(r) == PinnedPages(m)[va := Resident(r)[va]]
      else PinnedPages(r) == PinnedPages(m)
    case Map(va, lock, _) =>
      if lock && Succeeds(m, op) then va in Resident(r) && PinnedPages(r) == PinnedPages(m)[va := Resident(r)[va]]
      else PinnedPages(r) == PinnedPages(m)
    case Unpin(va) => PinnedPages(r) == PinnedPages(m) - {va}
    case Unmap(va) => PinnedPages(r) == PinnedPages(m) - {va}
    case _ => PinnedPages(r) == PinnedPages(m)
  }

  lemma StepPins(m: Mem, op: Op)
    requires Inv(m, {}) && Allowed(m, op)
    ensures PinsExactly(m, op, Step(m, op))
  {
    hide ListOk, FramesOk, TrackedOk, NoDup, FrameOk, Contents, PinnedPages;
    match op
    case Write(va, data, a) =>
      FaultKeeps(m, va, false, a);
      StoreKeeps(Fault(m, va, false, a), va, data);
    case Touch(va, a) => if va in m.table { FaultKeeps(m, va, false, a); }
    case Pin(va, a) => if va in m.table { FaultKeeps(m, va, true, a); }
    case Unpin(va) => UnpinPins(m, va);
    case PageOut(va, room) =>
      assert PteOk(m, va);
      if m.table[va].Loaded? { LeaveKeeps(m, m.table[va].frame, room); }
    case EvictFrame(f, room) => if m.frames[f].mapped { LeaveKeeps(m, f, room); }
    case Map(va, lock, a) =>
      if CanObtain(m, a) {
        ObtainKeeps(m, a);
        var (r, f) := Obtain(m, a);
        MapKeeps(r, va, f, lock);
      }
    case Unmap(va) => UnmapKeeps(m, va);
  }

  lemma UnpinPins(m: Mem, va: nat)
    requires Inv(m, {}) && va in m.table
    ensures PinnedPages(Step(m, Unpin(va))) == PinnedPages(m) - {va}
  {
    hide ListOk, FramesOk, TrackedOk, NoDup, FrameOk, Contents;
    assert PteOk(m, va);
    if m.table[va].Loaded? && m.frames[m.table[va].frame].pinned {
      PinKeeps(m, m.table[va].frame, false);
    } else {
      assert va !in PinnedPages(m);
    }
  }

  /** The pinned addresses after a run, from the calls and their answers alone. */
  function ReplayPins(pinned: set<nat>, ops: seq<Op>, oks: seq<bool>): set<nat>
    requires |ops| == |oks|
    decreases |ops|
  {
    if ops == [] then pinned
    else
      ReplayPins(
        match ops[0]
        case Pin(va, _) => if oks[0] then pinned + {va} else pinned
        case Map(va, lock, _) => if oks[0] && lock then pinned + {va} else pinned
        case Unpin(va) => pinned - {va}
        case Unmap(va) => pinned - {va}
        case _ => pinned,
        ops[1..], oks[1..])
  }

  /** Over every run the pinned pages are those pinned, or mapped locked, and neither unpinned
      nor unmapped since, whatever was evicted and brought back in between. */
  lemma {:induction false} PinsAreReplayed(m: Mem, ops: seq<Op>)
    requires Inv(m, {}) && RunAllowed(m, ops)
    ensures PinnedPages(Run(m, ops)).Keys == ReplayPins(PinnedPages(m).Keys, ops, Outcomes(m, ops))
    decreases |ops|
  {
    hide Inv, Contents, Step, Allowed, PinnedPages, Resident;
    if ops != [] {
      StepKeeps(m, ops[0]);
      StepPins(m, ops[0]);
      var r := Step(m, ops[0]);
      PinsAreReplayed(r, ops[1..]);
      assert Outcomes(m, ops)[1..] == Outcomes(r, ops[1..]);
      PinnedKeys(m, ops[0], r);
    }
  }

  lemma PinnedKeys(m: Mem, op: Op, r: Mem)
    requires Allowed(m, op) && PinsExactly(m, op, r)
    ensures var p := PinnedPages(m).Keys;
            PinnedPages(r).Keys ==
              match op
              case Pin(va, _) => if Succeeds(m, op) then p + {va} else p
              case Map(va, lock, _) => if Succeeds(m, op) && lock then p + {va} else p
              case Unpin(va) => p - {va}
              case Unmap(va) => p - {va}
              case _ => p
  {
    hide PinnedPages, Resident, Allowed;
  }

  // ---------- Pages that come and go ----------

  /** A page that is not in memory comes into the first free frame. If there is none, it comes
      into the frame of the victim, whose page is the only one to leave. */
  ghost predicate BroughtIn(m: Mem, r: Mem, va: nat, a: Answers) {
    if m.freeList != [] then
      && Resident(r) == Resident(m)[va := m.freeList[0]]
      && [m.freeList[0]] + r.freeList == m.freeList
      && r.store == m.store
    else
      && a.victim < |m.frames| && m.frames[a.victim].va in Resident(m) && m.frames[a.victim].va != va
      && Resident(r) == (Resident(m) - {m.frames[a.victim].va})[va := a.victim]
      && r.freeList == [] && a.room.At?
      && StoredAt(m, r, a.victim, a.room.loc)
  }

  /** Whether what is in a frame is already in the backing store. */
  ghost predicate Clean(m: Mem, f: nat) {
    && f < |m.frames| && m.frames[f].backed && m.frames[f].va in m.table
    && m.table[m.frames[f].va].Loaded? && !m.table[m.frames[f].va].dirty
  }

  /** A page that leaves is copied to its location, unless its copy there is clean. */
  ghost predicate StoredAt(m: Mem, r: Mem, f: nat, loc: nat) {
    && f < |m.frames| && f < |m.ram| && m.frames[f].va in r.table && r.table[m.frames[f].va] == PagedOut(loc)
    && r.store == if Clean(m, f) then m.store else m.store[loc := m.ram[f]]
  }

  /** Nothing moves. */
  ghost predicate Stays(m: Mem, r: Mem) {
    Resident(r) == Resident(m) && r.freeList == m.freeList && r.store == m.store
  }

  /** A page leaves its frame, which goes to the end of the free list. */
  ghost predicate Left(m: Mem, r: Mem, va: nat, f: nat) {
    && va in Resident(m) && Resident(m)[va] == f && Resident(r) == Resident(m) - {va}
    && r.freeList == m.freeList + [f] && f < |r.frames| && r.frames[f] == BLANK.(free := true)
  }

  /** Which pages an operation brings in and which leave. */
  ghost predicate Moves(m: Mem, op: Op, r: Mem)
    requires Allowed(m, op)
  {
    match op
    case Write(va, _, a) => if va in Resident(m) then Stays(m, r) else BroughtIn(m, r, va, a)
    case Touch(va, a) => if va in m.table && va !in Resident(m) then BroughtIn(m, r, va, a) else Stays(m, r)
    case Pin(va, a) => if va in m.table && va !in Resident(m) then BroughtIn(m, r, va, a) else Stays(m, r)
    case Unpin(_) => Stays(m, r)
    case PageOut(va, room) =>
      if va in Resident(m) && room.At? then
        Left(m, r, va, Resident(m)[va]) && StoredAt(m, r, Resident(m)[va], room.loc)
      else r == m
    case EvictFrame(f, room) =>
      if m.frames[f].mapped && room.At? then Left(m, r, m.frames[f].va, f) && StoredAt(m, r, f, room.loc)
      else r == m
    case Map(va, _, a) => if m.freeList == [] && a.room.Full? then r == m else BroughtIn(m, r, va, a)
    case Unmap(va) =>
      && r.store == m.store
      && (if va in Resident(m) then Left(m, r, va, Resident(m)[va])
          else Resident(r) == Resident(m) && r.freeList == m.freeList && va !in r.table)
  }

  /** The frame obtained for a page, and what that does to the others. */
  ghost predicate Obtained(m: Mem, r: Mem, f: nat, a: Answers) {
    if m.freeList != [] then
      f == m.freeList[0] && [f] + r.freeList == m.freeList && r.table == m.table && r.store == m.store
    else
      && f == a.victim < |m.frames| && a.room.At? && m.frames[f].va in Resident(m)
      && r.table == m.table[m.frames[f].va := PagedOut(a.room.loc)] && r.freeList == []
      && StoredAt(m, r, f, a.room.loc)
  }

  lemma ObtainMoves(m: Mem, a: Answers)
    requires Inv(m, {}) && CanObtain(m, a)
    ensures var (r, f) := Obtain(m, a); Obtained(m, r, f, a)
  {
    hide ListOk, NoDup, TrackedOk;
    if m.freeList != [] {
      TakeFreeKeeps(m);
    } else {
      Victim(m, a.victim, a.room.loc);
      assert FrameOk(m, a.victim, {});
    }
  }

  lemma ComesIn(m: Mem, r: Mem, q: Mem, va: nat, f: nat, dirty: bool, a: Answers)
    requires Obtained(m, r, f, a) && va !in Resident(m)
    requires q.table == r.table[va := Loaded(f, dirty)] && q.freeList == r.freeList && q.store == r.store
    ensures BroughtIn(m, q, va, a)
  {
    if m.freeList != [] {
      assert Resident(q) == Resident(m)[va := f];
    } else {
      assert Resident(q) == (Resident(m) - {m.frames[f].va})[va := f];
    }
  }

  lemma FaultMoves(m: Mem, va: nat, pin: bool, a: Answers)
    requires Inv(m, {}) && va in m.table && (m.table[va].PagedOut? ==> CanObtain(m, a))
    ensures var r := Fault(m, va, pin, a);
            if va in Resident(m) then Stays(m, r) && r.table == m.table
            else BroughtIn(m, r, va, a) && va in r.table && r.table[va].Loaded?
  {
    hide ListOk, FramesOk, TrackedOk, NoDup, FrameOk, Obtain, Obtained, BroughtIn;
    assert PteOk(m, va);
    if m.table[va].PagedOut? {
      ObtainKeeps(m, a);
      ObtainMoves(m, a);
      var (r, f) := Obtain(m, a);
      ComesIn(m, r, Load(r, va, f, pin, a.keep), va, f, false, a);
    }
  }

  lemma WriteMoves(m: Mem, va: nat, data: Data, a: Answers)
    requires Inv(m, {}) && Allowed(m, Write(va, data, a))
    ensures Moves(m, Write(va, data, a), Step(m, Write(va, data, a)))
  {
    hide Inv, Fault, BroughtIn, StoredAt;
    FaultKeeps(m, va, false, a);
    FaultMoves(m, va, false, a);
    var r := Fault(m, va, false, a);
    var q := StorePage(r, va, r.table[va].frame, data);
    assert Resident(q) == Resident(r);
    if va !in Resident(m) { SameBrought(m, r, q, va, a); }
  }

  lemma SameBrought(m: Mem, r: Mem, q: Mem, va: nat, a: Answers)
    requires BroughtIn(m, r, va, a) && Resident(q) == Resident(r) && q.freeList == r.freeList && q.store == r.store
    requires forall v | v in r.table && v != va :: v in q.table && q.table[v] == r.table[v]
    ensures BroughtIn(m, q, va, a)
  {
  }

  lemma LeaveMoves(m: Mem, f: nat, room: Room)
    requires Inv(m, {}) && f < |m.frames| && m.frames[f].mapped && MayLeave(m, f, room)
    ensures m.frames[f].va in Resident(m) && Resident(m)[m.frames[f].va] == f
    ensures var r := Leave(m, f, room);
            if room.At? then Left(m, r, m.frames[f].va, f) && StoredAt(m, r, f, room.loc) else r == m
  {
    hide Inv;
    MappedIs(m, f);
    if room.At? {
      var r := Leave(m, f, room);
      assert Resident(r) == Resident(m) - {m.frames[f].va};
    }
  }

  lemma PageOutMoves(m: Mem, va: nat, room: Room)
    requires Inv(m, {}) && Allowed(m, PageOut(va, room))
    ensures Moves(m, PageOut(va, room), Step(m, PageOut(va, room)))
  {
    hide ListOk, FramesOk, NoDup, TrackedOk, Leave, Left, StoredAt;
    assert PteOk(m, va);
    if m.table[va].Loaded? { LeaveMoves(m, m.table[va].frame, room); }
  }

  lemma MapMoves(m: Mem, va: nat, lock: bool, a: Answers)
    requires Inv(m, {}) && Allowed(m, Map(va, lock, a))
    ensures Moves(m, Map(va, lock, a), Step(m, Map(va, lock, a)))
  {
    hide ListOk, FramesOk, TrackedOk, NoDup, PteOk, Obtain, Obtained, BroughtIn;
    if CanObtain(m, a) {
      ObtainKeeps(m, a);
      ObtainMoves(m, a);
      var (r, f) := Obtain(m, a);
      ComesIn(m, r, MapFrame(r, va, f, lock), va, f, true, a);
    }
  }

  lemma EntryIs(m: Mem, va: nat)
    requires Inv(m, {}) && va in m.table
    ensures |m.ram| == |m.frames| && (m.table[va].Loaded? ==> m.table[va].frame < |m.frames|)
  {
    assert PteOk(m, va);
  }

  lemma MappedIs(m: Mem, f: nat)
    requires Inv(m, {}) && f < |m.frames| && m.frames[f].mapped
    ensures |m.ram| == |m.frames|
    ensures var va := m.frames[f].va; va in m.table && m.table[va].Loaded? && m.table[va].frame == f
  {
    assert FrameOk(m, f, {});
  }

  lemma UnmapMoves(m: Mem, va: nat)
    requires Inv(m, {})
    ensures Moves(m, Unmap(va), Step(m, Unmap(va)))
  {
    hide Inv;
    var r := Step(m, Unmap(va));
    if va in m.table { EntryIs(m, va); }
    assert Resident(r) == Resident(m) - {va};
  }

  /** Every operation moves only the pages it has to. */
  lemma StepMoves(m: Mem, op: Op)
    requires Inv(m, {}) && Allowed(m, op)
    ensures Moves(m, op, Step(m, op))
  {
    hide ListOk, FramesOk, TrackedOk, NoDup, FrameOk, Fault, BroughtIn, Leave, Left, StoredAt;
    match op
    case Write(va, data, a) => WriteMoves(m, va, data, a);
    case Touch(va, a) => if va in m.table { FaultMoves(m, va, false, a); }
    case Pin(va, a) => if va in m.table { FaultMoves(m, va, true, a); }
    case Unpin(va) => assert PteOk(m, va);
    case PageOut(va, room) => PageOutMoves(m, va, room);
    case EvictFrame(f, room) => if m.frames[f].mapped { LeaveMoves(m, f, room); }
    case Map(va, lock, a) => MapMoves(m, va, lock, a);
    case Unmap(va) => UnmapMoves(m, va);
  }

  /** A page that is brought in is clean. Its location stays allocated exactly if the backing
      store keeps the copy, and the frame then carries the BACKED flag. */
  lemma FaultKeepsCopy(m: Mem, va: nat, pin: bool, a: Answers)
    requires Inv(m, {}) && va in m.table && m.table[va].PagedOut? && CanObtain(m, a)
    ensures var r := Fault(m, va, pin, a); var loc := m.table[va].loc;
            && va in Resident(r) && r.table[va] == Loaded(Resident(r)[va], false)
            && Resident(r)[va] < |r.frames| && (r.frames[Resident(r)[va]].backed <==> a.keep)
            && (loc in r.held <==> a.keep)
            && (a.keep ==> Resident(r)[va] in r.copyAt && r.copyAt[Resident(r)[va]] == loc)
  {
    hide ListOk, FramesOk, TrackedOk, NoDup, FrameOk;
    assert PteOk(m, va);
    ObtainKeeps(m, a);
    ObtainHolds(m, a);
  }

  lemma ObtainHolds(m: Mem, a: Answers)
    requires Inv(m, {}) && CanObtain(m, a)
    ensures var (r, f) := Obtain(m, a);
            && (forall loc | loc in m.held :: loc in r.held)
            && (m.freeList == [] ==> a.room.loc in r.held && r.held[a.room.loc] == m.frames[a.victim].va)
  {
    hide ListOk, FramesOk, TrackedOk, NoDup, PteOk;
  }

  /** A written page is dirty, so that it is copied when it leaves. */
  lemma WriteMakesDirty(m: Mem, va: nat, data: Data, a: Answers)
    requires Inv(m, {}) && Allowed(m, Write(va, data, a))
    ensures var r := Step(m, Write(va, data, a)); va in r.table && r.table[va].Loaded? && r.table[va].dirty
  {
    hide Inv, Fault;
    FaultKeeps(m, va, false, a);
  }

  // ---------- Regions ----------

  /** A region that is mapped locked is pinned as far as it is mapped; otherwise mapping it
      pins nothing. */
  lemma {:induction false} MapRegionPins(m: Mem, va: nat, lock: bool, answers: seq<Answers>)
    requires Inv(m, {}) && RegionAllowed(m, va, lock, answers)
    ensures var (r, n) := MapRegion(m, va, lock, answers);
            PinnedPages(r).Keys == PinnedPages(m).Keys + if lock then Range(va, n) else {}
    decreases |answers|
  {
    hide Inv, Allowed, Step, Succeeds, Contents, PinnedPages;
    if answers != [] {
      MapTurn(m, va, lock, answers);
      var op := Map(va, lock, answers[0]);
      if Succeeds(m, op) {
        StepPins(m, op);
        PinnedKeys(m, op, Step(m, op));
        MapRegionPins(Step(m, op), va + 1, lock, answers[1..]);
        var n := MapRegion(Step(m, op), va + 1, lock, answers[1..]).1;
        assert {va} + Range(va + 1, n) == Range(va, n + 1);
      }
    }
  }

  lemma {:induction false} UnmapRegionPins(m: Mem, va: nat, n: nat)
    requires Inv(m, {})
    ensures var (r, k) := UnmapRegion(m, va, n); PinnedPages(r).Keys == PinnedPages(m).Keys - Range(va, k)
    decreases n
  {
    hide Inv, Step, Contents, PinnedPages;
    if n > 0 && va in m.table {
      StepKeeps(m, Unmap(va));
      StepPins(m, Unmap(va));
      PinnedKeys(m, Unmap(va), Step(m, Unmap(va)));
      UnmapRegionPins(Step(m, Unmap(va)), va + 1, n - 1);
      var k := UnmapRegion(Step(m, Unmap(va)), va + 1, n - 1).1;
      assert {va} + Range(va + 1, k) == Range(va, k + 1);
    }
  }
}
