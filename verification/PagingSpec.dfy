/**
  Demand paging: page frames, the page table, the backing store and the eviction
  algorithm's records, with the moves the paging code is made of. A frame is `in hand`
  while it belongs neither to the free list nor to a mapping.

  What user code sees is `Contents`: one data page per mapped virtual page, wherever that
  page is at the moment.
 */
module PagingSpec {
  import opened Common

  type Data = int

  datatype Frame = Frame(free: bool, reserved: bool, pinned: bool, mapped: bool, busy: bool, backed: bool, va: nat)

  const BLANK := Frame(false, false, false, false, false, false, 0)

  datatype Pte = Loaded(frame: nat, dirty: bool) | PagedOut(loc: nat)

  /** `held` are the backing store's allocated locations, each with the page it holds, and
      `copyAt` is where it keeps the clean copy of a frame that carries the BACKED flag. */
  datatype Mem = Mem(
    frames: seq<Frame>, freeList: seq<nat>, table: map<nat, Pte>, ram: seq<Data>,
    store: map<nat, Data>, held: map<nat, nat>, copyAt: map<nat, nat>, tracked: set<nat>)

  /** The backing store's answer when asked for a location. */
  datatype Room = Full | At(loc: nat)

  /** What the eviction algorithm and the backing store answer during one operation: the
      victim, the location for its data page, and whether a paged-in page keeps its copy. */
  datatype Answers = Answers(victim: nat, room: Room, keep: bool)

  datatype Op =
    | Write(va: nat, data: Data, a: Answers)
    | Touch(va: nat, a: Answers)
    | Pin(va: nat, a: Answers)
    | Unpin(va: nat)
    | PageOut(va: nat, room: Room)
    | EvictFrame(frame: nat, room: Room)
    | Map(va: nat, lock: bool, a: Answers)
    | Unmap(va: nat)

  // ---------- What user code sees ----------

  function PageAt(m: Mem, p: Pte): Data {
    match p
    case Loaded(f, _) => if f < |m.ram| then m.ram[f] else 0
    case PagedOut(loc) => if loc in m.store then m.store[loc] else 0
  }

  function Contents(m: Mem): map<nat, Data> {
    map va | va in m.table :: PageAt(m, m.table[va])
  }

  predicate PinnedAt(m: Mem, va: nat)
    requires va in m.table
  {
    m.table[va].Loaded? && m.table[va].frame < |m.frames| && m.frames[m.table[va].frame].pinned
  }

  /** The pinned pages and the frames that hold them. */
  function PinnedPages(m: Mem): map<nat, nat> {
    map va | va in m.table && PinnedAt(m, va) :: m.table[va].frame
  }

  // ---------- Invariant ----------

  /** The free list holds each free frame once, and no frame in hand. */
  ghost predicate ListOk(m: Mem, hand: set<nat>) {
    && NoDup(m.freeList)
    && (forall f | f in m.freeList :: f < |m.frames|)
    && (forall f | 0 <= f < |m.frames| :: m.frames[f].free <==> f in m.freeList)
    && (forall f | f in hand :: f < |m.frames|)
  }

  ghost predicate FrameOk(m: Mem, f: nat, hand: set<nat>)
    requires f < |m.frames|
  {
    var p := m.frames[f];
    && !p.busy
    && (f in hand ==> p == BLANK)
    && (p.free ==> p == BLANK.(free := true))
    && (p.mapped ==> !p.reserved && p.va in m.table && m.table[p.va].Loaded? && m.table[p.va].frame == f)
    && (f in m.tracked <==> p.mapped && !p.pinned && !p.busy)
    && (p.backed ==> p.mapped)
    && (f in hand || p.free || p.reserved || p.mapped)
  }

  ghost predicate PteOk(m: Mem, va: nat)
    requires va in m.table && |m.ram| == |m.frames|
  {
    match m.table[va]
    case PagedOut(loc) => loc in m.store && loc in m.held && m.held[loc] == va
    case Loaded(f, dirty) =>
      && f < |m.frames| && m.frames[f].mapped && m.frames[f].va == va
      && (m.frames[f].backed ==> CopyOk(m, f, va) && (dirty || m.store[m.copyAt[f]] == m.ram[f]))
  }

  ghost predicate CopyOk(m: Mem, f: nat, va: nat) {
    f in m.copyAt && m.copyAt[f] in m.store && m.copyAt[f] in m.held && m.held[m.copyAt[f]] == va
  }

  ghost predicate FramesOk(m: Mem, hand: set<nat>) { forall f | 0 <= f < |m.frames| :: FrameOk(m, f, hand) }

  ghost predicate TableOk(m: Mem) {
    |m.ram| == |m.frames| && forall va | va in m.table :: PteOk(m, va)
  }

  ghost predicate TrackedOk(m: Mem) { forall f | f in m.tracked :: f < |m.frames| }

  ghost predicate Inv(m: Mem, hand: set<nat>) {
    ListOk(m, hand) && FramesOk(m, hand) && TableOk(m) && TrackedOk(m)
  }

  // ---------- Moves ----------

  function TakeFree(m: Mem): Mem
    requires m.freeList != [] && m.freeList[0] < |m.frames|
  {
    m.(freeList := m.freeList[1..], frames := m.frames[m.freeList[0] := BLANK])
  }

  function GiveFree(m: Mem, f: nat): Mem
    requires f < |m.frames|
  {
    m.(freeList := m.freeList + [f], frames := m.frames[f := BLANK.(free := true)])
  }

  /** Whether the data page in a mapped frame must be copied out before the frame is reused. */
  predicate MustCopy(m: Mem, f: nat)
    requires f < |m.frames| && m.frames[f].va in m.table
  {
    m.table[m.frames[f].va].Loaded? && (m.table[m.frames[f].va].dirty || !m.frames[f].backed)
  }

  /** A data page leaves its frame for location `loc`; the frame is in hand afterwards. */
  function Evict(m: Mem, f: nat, loc: nat): Mem
    requires f < |m.frames| == |m.ram| && m.frames[f].va in m.table
  {
    m.(table := m.table[m.frames[f].va := PagedOut(loc)],
       store := if MustCopy(m, f) then m.store[loc := m.ram[f]] else m.store,
       held := m.held[loc := m.frames[f].va],
       tracked := m.tracked - {f},
       frames := m.frames[f := BLANK])
  }

  /** A data page returns from the backing store into a frame in hand. */
  function Load(m: Mem, va: nat, f: nat, pin: bool, keep: bool): Mem
    requires f < |m.frames| == |m.ram| && va in m.table && m.table[va].PagedOut?
  {
    var loc := m.table[va].loc;
    m.(table := m.table[va := Loaded(f, false)],
       ram := m.ram[f := PageAt(m, m.table[va])],
       frames := m.frames[f := BLANK.(mapped := true, pinned := pin, backed := keep, va := va)],
       held := if keep then m.held else m.held - {loc},
       copyAt := if keep then m.copyAt[f := loc] else m.copyAt,
       tracked := if pin then m.tracked else m.tracked + {f})
  }

  function SetPinned(m: Mem, f: nat, pin: bool): Mem
    requires f < |m.frames|
  {
    m.(frames := m.frames[f := m.frames[f].(pinned := pin)],
       tracked := if pin then m.tracked - {f} else m.tracked + {f})
  }

  /** A frame in hand becomes a new page, which the kernel fills with zeroes. */
  function MapFrame(m: Mem, va: nat, f: nat, lock: bool): Mem
    requires f < |m.frames| == |m.ram|
  {
    m.(table := m.table[va := Loaded(f, true)],
       ram := m.ram[f := 0],
       frames := m.frames[f := BLANK.(mapped := true, pinned := lock, va := va)],
       tracked := if lock then m.tracked else m.tracked + {f})
  }

  function StorePage(m: Mem, va: nat, f: nat, data: Data): Mem
    requires f < |m.ram|
  {
    m.(ram := m.ram[f := data], table := m.table[va := Loaded(f, true)])
  }

  /** The frame of an unmapped page is in hand; a copy in the backing store stays there. */
  function UnmapLoaded(m: Mem, va: nat, f: nat): Mem
    requires f < |m.frames|
  {
    m.(table := m.table - {va}, tracked := m.tracked - {f}, frames := m.frames[f := BLANK])
  }

  function UnmapPagedOut(m: Mem, va: nat, loc: nat): Mem {
    m.(table := m.table - {va}, held := m.held - {loc})
  }

  // ---------- Each move keeps the invariant and what user code sees ----------

  lemma SameContents(m: Mem, r: Mem)
    requires m.table.Keys == r.table.Keys
    requires forall va | va in m.table :: PageAt(m, m.table[va]) == PageAt(r, r.table[va])
    ensures Contents(m) == Contents(r)
  {
  }

  lemma ContentsAre(r: Mem, c: map<nat, Data>)
    requires r.table.Keys == c.Keys && forall va | va in c :: PageAt(r, r.table[va]) == c[va]
    ensures Contents(r) == c
  {
  }

  lemma PinnedAre(r: Mem, p: map<nat, nat>)
    requires forall va | va in p :: va in r.table && r.table[va].Loaded? && r.table[va].frame == p[va]
    requires forall va | va in r.table :: PinnedAt(r, va) <==> va in p
    ensures PinnedPages(r) == p
  {
  }

  /** A page that a move leaves where user code and the pinning of its frame are concerned. */
  ghost predicate Alike(m: Mem, r: Mem, va: nat) {
    va in m.table && va in r.table && PageAt(r, r.table[va]) == PageAt(m, m.table[va])
    && PinnedAt(r, va) == PinnedAt(m, va) && (PinnedAt(m, va) ==> r.table[va] == m.table[va])
  }

  lemma SamePinned(m: Mem, r: Mem)
    requires m.table.Keys == r.table.Keys
    requires forall va | va in m.table :: PinnedAt(m, va) == PinnedAt(r, va)
    requires forall va | va in m.table && PinnedAt(m, va) :: m.table[va] == r.table[va]
    ensures PinnedPages(m) == PinnedPages(r)
  {
  }

  lemma Tail(s: seq<nat>)
    requires s != [] && NoDup(s)
    ensures NoDup(s[1..]) && s[0] !in s[1..] && forall x :: x in s <==> x == s[0] || x in s[1..]
  {
    var t := s[1..];
    assert s == [s[0]] + t;
    assert forall i | 0 <= i < |t| :: t[i] == s[i + 1];
  }

  lemma TakeFreeKeeps(m: Mem)
    requires Inv(m, {}) && m.freeList != []
    ensures m.freeList[0] < |m.frames| && Inv(TakeFree(m), {m.freeList[0]})
    ensures Contents(TakeFree(m)) == Contents(m) && PinnedPages(TakeFree(m)) == PinnedPages(m)
  {
    hide NoDup, FrameOk, PteOk;
    assert m.freeList[0] in m.freeList;
    TakeFreeList(m);
    TakeFreeFrames(m);
    TakeFreeTable(m);
  }

  lemma TakeFreeList(m: Mem)
    requires ListOk(m, {}) && m.freeList != [] && m.freeList[0] < |m.frames|
    ensures ListOk(TakeFree(m), {m.freeList[0]})
  {
    hide NoDup;
    Tail(m.freeList);
  }

  lemma TakeFreeFrames(m: Mem)
    requires FramesOk(m, {}) && TrackedOk(m)
    requires m.freeList != [] && m.freeList[0] < |m.frames| && m.frames[m.freeList[0]].free
    ensures FramesOk(TakeFree(m), {m.freeList[0]}) && TrackedOk(TakeFree(m))
  {
    var f, r := m.freeList[0], TakeFree(m);
    assert FrameOk(m, f, {});
    forall g | 0 <= g < |r.frames| ensures FrameOk(r, g, {f}) { assert FrameOk(m, g, {}); }
  }

  lemma TakeFreeTable(m: Mem)
    requires FramesOk(m, {}) && TableOk(m)
    requires m.freeList != [] && m.freeList[0] < |m.frames| && m.frames[m.freeList[0]].free
    ensures var r := TakeFree(m); TableOk(r) && Contents(r) == Contents(m) && PinnedPages(r) == PinnedPages(m)
  {
    var r := TakeFree(m);
    assert FrameOk(m, m.freeList[0], {});
    forall va | va in r.table ensures PteOk(r, va) && PinnedAt(r, va) == PinnedAt(m, va) { assert PteOk(m, va); }
    SameContents(m, r);
    SamePinned(m, r);
  }

  /** What the paging code relies on when it asks where a data page may go: the location of
      its clean copy if it has one, else one that is not in use. */
  ghost predicate LocationOk(m: Mem, f: nat, loc: nat)
    requires f < |m.frames|
  {
    if m.frames[f].backed then f in m.copyAt && m.copyAt[f] == loc else loc !in m.held
  }

  ghost predicate CanEvict(m: Mem, f: nat, loc: nat) {
    f < |m.frames| && m.frames[f].mapped && !m.frames[f].pinned && LocationOk(m, f, loc)
  }

  lemma EvictKeeps(m: Mem, f: nat, loc: nat)
    requires Inv(m, {}) && CanEvict(m, f, loc)
    ensures m.frames[f].va in m.table && Inv(Evict(m, f, loc), {f})
    ensures Contents(Evict(m, f, loc)) == Contents(m) && PinnedPages(Evict(m, f, loc)) == PinnedPages(m)
  {
    assert FrameOk(m, f, {});
    EvictFrames(m, f, loc);
    EvictTable(m, f, loc);
    EvictContents(m, f, loc);
  }

  lemma EvictFrames(m: Mem, f: nat, loc: nat)
    requires Inv(m, {}) && CanEvict(m, f, loc) && m.frames[f].va in m.table
    ensures var r := Evict(m, f, loc); ListOk(r, {f}) && FramesOk(r, {f}) && TrackedOk(r)
  {
    var r := Evict(m, f, loc);
    assert FrameOk(m, f, {});
    forall g | 0 <= g < |r.frames| ensures FrameOk(r, g, {f}) { assert FrameOk(m, g, {}); }
  }

  lemma EvictTable(m: Mem, f: nat, loc: nat)
    requires Inv(m, {}) && CanEvict(m, f, loc) && m.frames[f].va in m.table
    ensures TableOk(Evict(m, f, loc))
  {
    var r := Evict(m, f, loc);
    assert FrameOk(m, f, {}) && PteOk(m, m.frames[f].va);
    forall v | v in r.table ensures PteOk(r, v) { assert PteOk(m, v); }
  }

  lemma EvictContents(m: Mem, f: nat, loc: nat)
    requires Inv(m, {}) && CanEvict(m, f, loc) && m.frames[f].va in m.table
    ensures Contents(Evict(m, f, loc)) == Contents(m) && PinnedPages(Evict(m, f, loc)) == PinnedPages(m)
  {
    var r := Evict(m, f, loc);
    assert FrameOk(m, f, {}) && PteOk(m, m.frames[f].va);
    forall v | v in m.table
      ensures PageAt(m, m.table[v]) == PageAt(r, r.table[v]) && PinnedAt(m, v) == PinnedAt(r, v)
      ensures PinnedAt(m, v) ==> m.table[v] == r.table[v]
    {
      assert PteOk(m, v);
    }
    SameContents(m, r);
    SamePinned(m, r);
  }

  lemma GiveFreeKeeps(m: Mem, f: nat)
    requires Inv(m, {f})
    ensures f < |m.frames| && Inv(GiveFree(m, f), {})
    ensures Contents(GiveFree(m, f)) == Contents(m) && PinnedPages(GiveFree(m, f)) == PinnedPages(m)
  {
    assert f in {f};
    var r := GiveFree(m, f);
    GiveFreeList(m, f);
    GiveFreeTable(m, f);
  }

  lemma GiveFreeList(m: Mem, f: nat)
    requires ListOk(m, {f}) && FramesOk(m, {f}) && TrackedOk(m) && f < |m.frames|
    ensures ListOk(GiveFree(m, f), {}) && FramesOk(GiveFree(m, f), {}) && TrackedOk(GiveFree(m, f))
  {
    var r := GiveFree(m, f);
    assert FrameOk(m, f, {f});
    assert r.freeList[..|m.freeList|] == m.freeList;
    forall g | 0 <= g < |r.frames| ensures FrameOk(r, g, {}) { assert FrameOk(m, g, {f}); }
  }

  lemma GiveFreeTable(m: Mem, f: nat)
    requires FramesOk(m, {f}) && TableOk(m) && f < |m.frames|
    ensures var r := GiveFree(m, f); TableOk(r) && Contents(r) == Contents(m) && PinnedPages(r) == PinnedPages(m)
  {
    var r := GiveFree(m, f);
    assert FrameOk(m, f, {f});
    forall va | va in r.table ensures PteOk(r, va) && PinnedAt(r, va) == PinnedAt(m, va) { assert PteOk(m, va); }
    SameContents(m, r);
    SamePinned(m, r);
  }

  lemma LoadKeeps(m: Mem, va: nat, f: nat, pin: bool, keep: bool)
    requires Inv(m, {f}) && va in m.table && m.table[va].PagedOut?
    ensures f < |m.frames| && Inv(Load(m, va, f, pin, keep), {})
    ensures var r := Load(m, va, f, pin, keep);
            Contents(r) == Contents(m) && PinnedPages(r) == if pin then PinnedPages(m)[va := f] else PinnedPages(m)
  {
    assert f in {f};
    LoadFrames(m, va, f, pin, keep);
    LoadTable(m, va, f, pin, keep);
    LoadContents(m, va, f, pin, keep);
  }

  lemma LoadFrames(m: Mem, va: nat, f: nat, pin: bool, keep: bool)
    requires Inv(m, {f}) && va in m.table && m.table[va].PagedOut? && f < |m.frames|
    ensures var r := Load(m, va, f, pin, keep); ListOk(r, {}) && FramesOk(r, {}) && TrackedOk(r)
  {
    hide NoDup;
    var r := Load(m, va, f, pin, keep);
    assert FrameOk(m, f, {f});
    forall g | 0 <= g < |r.frames| ensures FrameOk(r, g, {}) { assert FrameOk(m, g, {f}); }
  }

  lemma LoadTable(m: Mem, va: nat, f: nat, pin: bool, keep: bool)
    requires Inv(m, {f}) && va in m.table && m.table[va].PagedOut? && f < |m.frames|
    ensures TableOk(Load(m, va, f, pin, keep))
  {
    hide NoDup, ListOk;
    var r := Load(m, va, f, pin, keep);
    assert FrameOk(m, f, {f}) && PteOk(m, va);
    forall v | v in r.table ensures PteOk(r, v) { assert PteOk(m, v); }
  }

  lemma LoadContents(m: Mem, va: nat, f: nat, pin: bool, keep: bool)
    requires Inv(m, {f}) && va in m.table && m.table[va].PagedOut? && f < |m.frames|
    ensures var r := Load(m, va, f, pin, keep);
            Contents(r) == Contents(m) && PinnedPages(r) == if pin then PinnedPages(m)[va := f] else PinnedPages(m)
  {
    hide NoDup, ListOk;
    var r := Load(m, va, f, pin, keep);
    assert FrameOk(m, f, {f}) && PteOk(m, va);
    forall v | v in m.table && v != va
      ensures PageAt(m, m.table[v]) == PageAt(r, r.table[v]) && PinnedAt(m, v) == PinnedAt(r, v)
    {
      assert PteOk(m, v);
    }
    assert m.table.Keys == r.table.Keys;
    SameContents(m, r);
    assert PinnedPages(r) == if pin then PinnedPages(m)[va := f] else PinnedPages(m);
  }

  lemma PinKeeps(m: Mem, f: nat, pin: bool)
    requires Inv(m, {}) && f < |m.frames| && m.frames[f].mapped
    ensures var r := SetPinned(m, f, pin); Inv(r, {}) && Contents(r) == Contents(m)
    ensures var r := SetPinned(m, f, pin); var va := m.frames[f].va;
            PinnedPages(r) == if pin then PinnedPages(m)[va := f] else PinnedPages(m) - {va}
  {
    hide NoDup, FramesOk, PteOk;
    PinFrames(m, f, pin);
    PinTable(m, f, pin);
    var r, va := SetPinned(m, f, pin), m.frames[f].va;
    SameContents(m, r);
    assert forall v | v in r.table && v != va :: Alike(m, r, v);
    PinnedAre(r, if pin then PinnedPages(m)[va := f] else PinnedPages(m) - {va});
  }

  lemma PinTable(m: Mem, f: nat, pin: bool)
    requires FramesOk(m, {}) && TableOk(m) && f < |m.frames| && m.frames[f].mapped
    ensures var r := SetPinned(m, f, pin);
            TableOk(r) && forall v | v in r.table && v != m.frames[f].va :: Alike(m, r, v)
  {
    hide CopyOk, FrameOk;
    var r := SetPinned(m, f, pin);
    forall v | v in r.table ensures PteOk(r, v) && (v != m.frames[f].va ==> Alike(m, r, v)) {
      assert PteOk(m, v);
      CopyAlike(m, r, v);
    }
  }

  lemma PinFrames(m: Mem, f: nat, pin: bool)
    requires FramesOk(m, {}) && f < |m.frames| && m.frames[f].mapped
    ensures FramesOk(SetPinned(m, f, pin), {})
    ensures var va := m.frames[f].va;
            va in m.table && m.table[va].Loaded? && m.table[va].frame == f && !m.frames[f].free
  {
    var r := SetPinned(m, f, pin);
    assert FrameOk(m, f, {});
    forall g | 0 <= g < |r.frames| ensures FrameOk(r, g, {}) { assert FrameOk(m, g, {}); }
  }

  lemma CopyAlike(m: Mem, r: Mem, va: nat)
    requires r.copyAt == m.copyAt && r.store == m.store && r.held == m.held
    ensures forall f :: CopyOk(m, f, va) <==> CopyOk(r, f, va)
  {
  }

  lemma MapKeeps(m: Mem, va: nat, f: nat, lock: bool)
    requires Inv(m, {f}) && va !in m.table
    ensures f < |m.frames| && Inv(MapFrame(m, va, f, lock), {})
    ensures var r := MapFrame(m, va, f, lock);
            Contents(r) == Contents(m)[va := 0]
            && PinnedPages(r) == if lock then PinnedPages(m)[va := f] else PinnedPages(m)
  {
    assert f in {f};
    MapFrames(m, va, f, lock);
    MapTable(m, va, f, lock);
  }

  lemma MapFrames(m: Mem, va: nat, f: nat, lock: bool)
    requires Inv(m, {f}) && va !in m.table && f < |m.frames|
    ensures var r := MapFrame(m, va, f, lock); ListOk(r, {}) && FramesOk(r, {}) && TrackedOk(r)
  {
    hide NoDup;
    var r := MapFrame(m, va, f, lock);
    assert FrameOk(m, f, {f});
    forall g | 0 <= g < |r.frames| ensures FrameOk(r, g, {}) { assert FrameOk(m, g, {f}); }
  }

  lemma MapTable(m: Mem, va: nat, f: nat, lock: bool)
    requires Inv(m, {f}) && va !in m.table && f < |m.frames|
    ensures var r := MapFrame(m, va, f, lock);
            TableOk(r) && Contents(r) == Contents(m)[va := 0]
            && PinnedPages(r) == if lock then PinnedPages(m)[va := f] else PinnedPages(m)
  {
    hide NoDup, ListOk, PteOk, FrameOk;
    var r := MapFrame(m, va, f, lock);
    MapEntries(m, va, f, lock);
    assert forall v | v in m.table :: Alike(m, r, v);
    ContentsAre(r, Contents(m)[va := 0]);
    PinnedAre(r, if lock then PinnedPages(m)[va := f] else PinnedPages(m));
  }

  lemma MapEntries(m: Mem, va: nat, f: nat, lock: bool)
    requires FramesOk(m, {f}) && TableOk(m) && va !in m.table && f < |m.frames|
    ensures var r := MapFrame(m, va, f, lock); TableOk(r) && forall v | v in m.table :: Alike(m, r, v)
  {
    hide PageAt, CopyOk;
    var r := MapFrame(m, va, f, lock);
    assert FrameOk(m, f, {f});
    forall v | v in r.table ensures PteOk(r, v) && (v != va ==> Alike(m, r, v)) {
      assert v != va ==> PteOk(m, v);
      CopyAlike(m, r, v);
      MapPage(m, va, f, lock, v);
    }
  }

  lemma MapPage(m: Mem, va: nat, f: nat, lock: bool, v: nat)
    requires f < |m.frames| == |m.ram|
    requires v == va || (v in m.table && (m.table[v].Loaded? ==> m.table[v].frame != f))
    ensures var r := MapFrame(m, va, f, lock);
            PageAt(r, r.table[v]) == if v == va then 0 else PageAt(m, m.table[v])
  {
  }

  lemma StoreKeeps(m: Mem, va: nat, data: Data)
    requires Inv(m, {}) && va in m.table && m.table[va].Loaded?
    ensures m.table[va].frame < |m.frames| == |m.ram|
    ensures var r := StorePage(m, va, m.table[va].frame, data);
            Inv(r, {}) && Contents(r) == Contents(m)[va := data] && PinnedPages(r) == PinnedPages(m)
  {
    hide NoDup, FramesOk, PteOk;
    StoreTable(m, va, data);
    StoreFrames(m, va, data);
    var r := StorePage(m, va, m.table[va].frame, data);
    assert forall v | v in m.table && v != va :: Alike(m, r, v);
    ContentsAre(r, Contents(m)[va := data]);
    PinnedAre(r, PinnedPages(m));
  }

  lemma StoreTable(m: Mem, va: nat, data: Data)
    requires TableOk(m) && va in m.table && m.table[va].Loaded?
    ensures m.table[va].frame < |m.frames|
    ensures var r := StorePage(m, va, m.table[va].frame, data);
            TableOk(r) && forall v | v in m.table && v != va :: Alike(m, r, v)
  {
    hide CopyOk;
    assert PteOk(m, va);
    var r := StorePage(m, va, m.table[va].frame, data);
    forall v | v in r.table ensures PteOk(r, v) && (v != va ==> Alike(m, r, v)) {
      assert PteOk(m, v);
      CopyAlike(m, r, v);
    }
  }

  lemma StoreFrames(m: Mem, va: nat, data: Data)
    requires FramesOk(m, {}) && va in m.table && m.table[va].Loaded? && m.table[va].frame < |m.ram|
    ensures FramesOk(StorePage(m, va, m.table[va].frame, data), {})
  {
    var r := StorePage(m, va, m.table[va].frame, data);
    forall g | 0 <= g < |r.frames| ensures FrameOk(r, g, {}) { assert FrameOk(m, g, {}); }
  }

  lemma UnmapLoadedKeeps(m: Mem, va: nat)
    requires Inv(m, {}) && va in m.table && m.table[va].Loaded?
    ensures m.table[va].frame < |m.frames|
    ensures var f := m.table[va].frame; var r := UnmapLoaded(m, va, f);
            Inv(r, {f}) && Contents(r) == Contents(m) - {va} && PinnedPages(r) == PinnedPages(m) - {va}
  {
    hide NoDup, FramesOk, PteOk;
    UnmapTable(m, va);
    UnmapFrames(m, va);
    var r := UnmapLoaded(m, va, m.table[va].frame);
    assert forall v | v in r.table :: Alike(m, r, v);
    ContentsAre(r, Contents(m) - {va});
    PinnedAre(r, PinnedPages(m) - {va});
  }

  lemma UnmapTable(m: Mem, va: nat)
    requires TableOk(m) && va in m.table && m.table[va].Loaded?
    ensures var f := m.table[va].frame; f < |m.frames| && m.frames[f].mapped && m.frames[f].va == va
    ensures var r := UnmapLoaded(m, va, m.table[va].frame);
            TableOk(r) && forall v | v in r.table :: Alike(m, r, v)
  {
    hide CopyOk;
    assert PteOk(m, va);
    var r := UnmapLoaded(m, va, m.table[va].frame);
    forall v | v in r.table ensures PteOk(r, v) && Alike(m, r, v) {
      assert PteOk(m, v);
      CopyAlike(m, r, v);
    }
  }

  lemma UnmapFrames(m: Mem, va: nat)
    requires FramesOk(m, {}) && va in m.table && m.table[va].Loaded? && m.table[va].frame < |m.frames|
    requires m.frames[m.table[va].frame].mapped && m.frames[m.table[va].frame].va == va
    ensures var f := m.table[va].frame; FramesOk(UnmapLoaded(m, va, f), {f}) && !m.frames[f].free
  {
    var f := m.table[va].frame;
    var r := UnmapLoaded(m, va, f);
    assert FrameOk(m, f, {});
    forall g | 0 <= g < |r.frames| ensures FrameOk(r, g, {f}) { assert FrameOk(m, g, {}); }
  }

  lemma UnmapPagedOutKeeps(m: Mem, va: nat)
    requires Inv(m, {}) && va in m.table && m.table[va].PagedOut?
    ensures var r := UnmapPagedOut(m, va, m.table[va].loc);
            Inv(r, {}) && Contents(r) == Contents(m) - {va} && PinnedPages(r) == PinnedPages(m) - {va}
  {
    hide NoDup;
    assert PteOk(m, va);
    var r := UnmapPagedOut(m, va, m.table[va].loc);
    forall g | 0 <= g < |r.frames| ensures FrameOk(r, g, {}) { assert FrameOk(m, g, {}); }
    forall v | v in r.table
      ensures PteOk(r, v) && PageAt(r, r.table[v]) == PageAt(m, m.table[v]) && PinnedAt(m, v) == PinnedAt(r, v)
    {
      assert PteOk(m, v);
    }
    ContentsAre(r, Contents(m) - {va});
    PinnedAre(r, PinnedPages(m) - {va});
  }

  // ---------- Operations and runs ----------

  /** A free frame if there is one, else the eviction algorithm's victim. */
  ghost predicate CanObtain(m: Mem, a: Answers) {
    m.freeList == [] ==>
        a.room.At? && a.victim in m.tracked && a.victim < |m.frames| && LocationOk(m, a.victim, a.room.loc)
  }

  ghost function Obtain(m: Mem, a: Answers): (Mem, nat)
    requires Inv(m, {}) && CanObtain(m, a)
  {
    if m.freeList != [] then (TakeFreeKeeps(m); (TakeFree(m), m.freeList[0]))
    else (Victim(m, a.victim, a.room.loc); (Evict(m, a.victim, a.room.loc), a.victim))
  }

  lemma Victim(m: Mem, f: nat, loc: nat)
    requires Inv(m, {}) && f in m.tracked && f < |m.frames| && LocationOk(m, f, loc)
    ensures CanEvict(m, f, loc) && m.frames[f].va in m.table && |m.ram| == |m.frames|
  {
    assert FrameOk(m, f, {});
  }

  lemma ObtainKeeps(m: Mem, a: Answers)
    requires Inv(m, {}) && CanObtain(m, a)
    ensures var (r, f) := Obtain(m, a);
            && Inv(r, {f}) && f < |r.frames| == |m.frames| && Contents(r) == Contents(m)
            && PinnedPages(r) == PinnedPages(m)
            && (forall va | va in m.table && m.table[va].PagedOut? :: va in r.table && r.table[va] == m.table[va])
            && r.table.Keys == m.table.Keys
  {
    if m.freeList != [] {
      TakeFreeKeeps(m);
    } else {
      Victim(m, a.victim, a.room.loc);
      EvictKeeps(m, a.victim, a.room.loc);
      assert FrameOk(m, a.victim, {});
    }
  }

  /** What the callers of an operation owe, and what its oracles may answer. */
  ghost predicate Allowed(m: Mem, op: Op) {
    match op
    case Write(va, _, a) => va in m.table && (m.table[va].PagedOut? ==> CanObtain(m, a))
    case Touch(va, a) => va in m.table && m.table[va].PagedOut? ==> CanObtain(m, a)
    case Pin(va, a) => va in m.table && m.table[va].PagedOut? ==> CanObtain(m, a)
    case Unpin(va) => va in m.table
    case PageOut(va, room) => va in m.table && (m.table[va].Loaded? ==> MayLeave(m, m.table[va].frame, room))
    case EvictFrame(f, room) => f < |m.frames| && (m.frames[f].mapped ==> MayLeave(m, f, room))
    case Map(va, _, a) => va !in m.table && ((m.freeList == [] && a.room.Full?) || CanObtain(m, a))
    case Unmap(va) => true
  }

  ghost predicate MayLeave(m: Mem, f: nat, room: Room) {
    f < |m.frames| && !m.frames[f].pinned && (room.At? ==> LocationOk(m, f, room.loc))
  }

  ghost function Fault(m: Mem, va: nat, pin: bool, a: Answers): Mem
    requires Inv(m, {}) && va in m.table && (m.table[va].PagedOut? ==> CanObtain(m, a))
  {
    assert PteOk(m, va);
    match m.table[va]
    case Loaded(f, _) => if pin && !m.frames[f].pinned then SetPinned(m, f, true) else m
    case PagedOut(_) =>
      ObtainKeeps(m, a);
      var (r, f) := Obtain(m, a);
      Load(r, va, f, pin, a.keep)
  }

  /** A mapped frame gives up its page and is freed, unless the backing store is full. */
  ghost function Leave(m: Mem, f: nat, room: Room): Mem
    requires Inv(m, {}) && f < |m.frames| && m.frames[f].mapped && MayLeave(m, f, room)
  {
    if room.Full? then m
    else
      assert FrameOk(m, f, {});
      GiveFree(Evict(m, f, room.loc), f)
  }

  ghost function Step(m: Mem, op: Op): Mem
    requires Inv(m, {}) && Allowed(m, op)
  {
    match op
    case Write(va, data, a) =>
      FaultKeeps(m, va, false, a);
      var r := Fault(m, va, false, a);
      StorePage(r, va, r.table[va].frame, data)
    case Touch(va, a) => if va in m.table then Fault(m, va, false, a) else m
    case Pin(va, a) => if va in m.table then Fault(m, va, true, a) else m
    case Unpin(va) =>
      assert PteOk(m, va);
      if m.table[va].Loaded? && m.frames[m.table[va].frame].pinned then SetPinned(m, m.table[va].frame, false) else m
    case PageOut(va, room) =>
      assert PteOk(m, va);
      if m.table[va].Loaded? then Leave(m, m.table[va].frame, room) else m
    case EvictFrame(f, room) => if m.frames[f].mapped then Leave(m, f, room) else m
    case Map(va, lock, a) =>
      if !CanObtain(m, a) then m
      else
        ObtainKeeps(m, a);
        var (r, f) := Obtain(m, a);
        MapFrame(r, va, f, lock)
    case Unmap(va) =>
      if va !in m.table then m
      else
        assert PteOk(m, va);
        match m.table[va]
        case Loaded(f, _) => GiveFree(UnmapLoaded(m, va, f), f)
        case PagedOut(loc) => UnmapPagedOut(m, va, loc)
  }

  ghost predicate Succeeds(m: Mem, op: Op)
    requires Allowed(m, op)
  {
    match op
    case Touch(va, _) => va in m.table
    case Pin(va, _) => va in m.table
    case PageOut(va, room) => m.table[va].Loaded? ==> room.At?
    case EvictFrame(f, room) => m.frames[f].mapped ==> room.At?
    case Map(va, _, a) => CanObtain(m, a)
    case Unmap(va) => va in m.table
    case _ => true
  }

  /** What an operation does to the memory user code sees: only writing, mapping and
      unmapping do anything. */
  function Effect(c: map<nat, Data>, op: Op, ok: bool): map<nat, Data> {
    match op
    case Write(va, data, _) => c[va := data]
    case Map(va, _, _) => if ok then c[va := 0] else c
    case Unmap(va) => c - {va}
    case _ => c
  }

  /** The operations after which a page need not be pinned any more. */
  predicate Releases(op: Op, va: nat) { op == Unpin(va) || op == Unmap(va) }

  lemma FaultKeeps(m: Mem, va: nat, pin: bool, a: Answers)
    requires Inv(m, {}) && va in m.table && (m.table[va].PagedOut? ==> CanObtain(m, a))
    ensures var r := Fault(m, va, pin, a);
            && Inv(r, {}) && Contents(r) == Contents(m)
            && va in r.table && r.table[va].Loaded? && r.table[va].frame < |r.frames| == |r.ram|
            && PinnedPages(r) == if pin then PinnedPages(m)[va := r.table[va].frame] else PinnedPages(m)
  {
    hide ListOk, FramesOk, TrackedOk, NoDup, FrameOk;
    assert PteOk(m, va);
    match m.table[va]
    case Loaded(f, _) =>
      if pin && !m.frames[f].pinned { PinKeeps(m, f, true); }
    case PagedOut(_) =>
      ObtainKeeps(m, a);
      var (r, f) := Obtain(m, a);
      LoadKeeps(r, va, f, pin, a.keep);
  }

  lemma LeaveKeeps(m: Mem, f: nat, room: Room)
    requires Inv(m, {}) && f < |m.frames| && m.frames[f].mapped && MayLeave(m, f, room)
    ensures var r := Leave(m, f, room); Inv(r, {}) && Contents(r) == Contents(m) && PinnedPages(r) == PinnedPages(m)
  {
    hide ListOk, TrackedOk, NoDup;
    if room.At? {
      assert FrameOk(m, f, {});
      EvictKeeps(m, f, room.loc);
      GiveFreeKeeps(Evict(m, f, room.loc), f);
    }
  }

  /** Paging is invisible: every operation keeps the invariant and changes what user code
      sees exactly as its effect says, wherever the pages are and whatever the oracles answer. */
  lemma StepKeeps(m: Mem, op: Op)
    requires Inv(m, {}) && Allowed(m, op)
    ensures Inv(Step(m, op), {}) && Contents(Step(m, op)) == Effect(Contents(m), op, Succeeds(m, op))
    ensures forall va | va in PinnedPages(m) && !Releases(op, va) ::
              va in PinnedPages(Step(m, op)) && PinnedPages(Step(m, op))[va] == PinnedPages(m)[va]
  {
    hide ListOk, FramesOk, TrackedOk, NoDup, FrameOk, Contents;
    match op
    case Write(va, data, a) =>
      FaultKeeps(m, va, false, a);
      StoreKeeps(Fault(m, va, false, a), va, data);
    case Touch(va, a) => if va in m.table { FaultKeeps(m, va, false, a); }
    case Pin(va, a) => if va in m.table { FaultKeeps(m, va, true, a); }
    case Unpin(va) =>
      assert PteOk(m, va);
      if m.table[va].Loaded? && m.frames[m.table[va].frame].pinned { PinKeeps(m, m.table[va].frame, false); }
    case PageOut(va, room) =>
      assert PteOk(m, va);
      if m.table[va].Loaded? { LeaveKeeps(m, m.table[va].frame, room); }
    case EvictFrame(f, room) => if m.frames[f].mapped { LeaveKeeps(m, f, room); }
    case Map(va, lock, a) =>
      if CanObtain(m, a) {
        ObtainKeeps(m, a);
        var (r, f) := Obtain(m, a);
        MapKeeps(r, va, f, lock);
      }
    case Unmap(va) => UnmapKeeps(m, va);
  }

  lemma UnmapKeeps(m: Mem, va: nat)
    requires Inv(m, {})
    ensures Inv(Step(m, Unmap(va)), {}) && Contents(Step(m, Unmap(va))) == Contents(m) - {va}
    ensures PinnedPages(Step(m, Unmap(va))) == PinnedPages(m) - {va}
  {
    if va in m.table {
      assert PteOk(m, va);
      if m.table[va].Loaded? {
        UnmapLoadedKeeps(m, va);
        GiveFreeKeeps(UnmapLoaded(m, va, m.table[va].frame), m.table[va].frame);
      } else {
        UnmapPagedOutKeeps(m, va);
      }
    }
  }

  ghost predicate RunAllowed(m: Mem, ops: seq<Op>)
    requires Inv(m, {})
    decreases |ops|
  {
    ops != [] ==> Allowed(m, ops[0]) && (StepKeeps(m, ops[0]); RunAllowed(Step(m, ops[0]), ops[1..]))
  }

  ghost function Run(m: Mem, ops: seq<Op>): Mem
    requires Inv(m, {}) && RunAllowed(m, ops)
    decreases |ops|
  {
    if ops == [] then m else (StepKeeps(m, ops[0]); Run(Step(m, ops[0]), ops[1..]))
  }

  /** Which operations of a run succeed. */
  ghost function Outcomes(m: Mem, ops: seq<Op>): (oks: seq<bool>)
    requires Inv(m, {}) && RunAllowed(m, ops)
    ensures |oks| == |ops|
    decreases |ops|
  {
    if ops == [] then [] else (StepKeeps(m, ops[0]); [Succeeds(m, ops[0])] + Outcomes(Step(m, ops[0]), ops[1..]))
  }

  /** A memory without paging: one page per mapped address. */
  function Replay(c: map<nat, Data>, ops: seq<Op>, oks: seq<bool>): map<nat, Data>
    requires |ops| == |oks|
    decreases |ops|
  {
    if ops == [] then c else Replay(Effect(c, ops[0], oks[0]), ops[1..], oks[1..])
  }

  /** Over every run, memory with paging reads as memory without it. */
  lemma {:induction false} PagingIsInvisible(m: Mem, ops: seq<Op>)
    requires Inv(m, {}) && RunAllowed(m, ops)
    ensures Inv(Run(m, ops), {}) && Contents(Run(m, ops)) == Replay(Contents(m), ops, Outcomes(m, ops))
    decreases |ops|
  {
    hide Inv, Contents, Step, Effect, Allowed;
    if ops != [] {
      StepKeeps(m, ops[0]);
      PagingIsInvisible(Step(m, ops[0]), ops[1..]);
      assert Outcomes(m, ops)[1..] == Outcomes(Step(m, ops[0]), ops[1..]);
    }
  }

  /** Over every run, a pinned page stays in its frame until it is unpinned or unmapped. */
  lemma {:induction false} PinnedPagesStay(m: Mem, ops: seq<Op>, va: nat)
    requires Inv(m, {}) && RunAllowed(m, ops) && va in PinnedPages(m)
    requires forall i | 0 <= i < |ops| :: !Releases(ops[i], va)
    ensures va in PinnedPages(Run(m, ops)) && PinnedPages(Run(m, ops))[va] == PinnedPages(m)[va]
    decreases |ops|
  {
    hide Inv, PinnedPages, Step, Allowed;
    if ops != [] {
      StepKeeps(m, ops[0]);
      var r := Step(m, ops[0]);
      assert !Releases(ops[0], va);
      assert forall i | 0 <= i < |ops[1..]| :: ops[1..][i] == ops[i + 1];
      PinnedPagesStay(r, ops[1..], va);
    }
  }

  // ---------- Accounting ----------

  predicate OneState(p: Frame) {
    (p.free && !p.reserved && !p.mapped) || (!p.free && p.reserved && !p.mapped) || (!p.free && !p.reserved && p.mapped)
  }

  /** Every frame is in exactly one state, the free list is as long as there are free
      frames, and the eviction algorithm tracks exactly the mapped frames that are not pinned. */
  lemma FrameAccounting(m: Mem)
    requires Inv(m, {})
    ensures forall f | 0 <= f < |m.frames| ::
              OneState(m.frames[f])
    ensures |m.freeList| == |set f | 0 <= f < |m.frames| && m.frames[f].free|
    ensures m.tracked == set f | 0 <= f < |m.frames| && m.frames[f].mapped && !m.frames[f].pinned
  {
    forall f | 0 <= f < |m.frames|
      ensures OneState(m.frames[f]) && (f in m.tracked <==> m.frames[f].mapped && !m.frames[f].pinned)
    {
      assert FrameOk(m, f, {});
    }
    var free := set f | 0 <= f < |m.frames| && m.frames[f].free;
    assert free == Members(m.freeList);
    Distinct(m.freeList);
  }

  function Members(s: seq<nat>): set<nat> { set x | x in s }

  lemma {:induction false} Distinct(s: seq<nat>)
    requires NoDup(s)
    ensures |Members(s)| == |s|
  {
    if s == [] {
      assert Members(s) == {};
    } else {
      Tail(s);
      Distinct(s[1..]);
      assert Members(s) == Members(s[1..]) + {s[0]};
    }
  }

  /** A location of the backing store belongs to a page. */
  ghost predicate Owns(m: Mem, va: nat, loc: nat) {
    && va in m.table
    && match m.table[va]
       case PagedOut(l) => l == loc
       case Loaded(f, _) => f < |m.frames| && m.frames[f].backed && f in m.copyAt && m.copyAt[f] == loc
  }

  /** No allocated location is lost: each belongs to the page it holds. */
  ghost predicate NoLeak(m: Mem) { forall loc | loc in m.held :: Owns(m, m.held[loc], loc) }

  lemma ObtainNoLeak(m: Mem, a: Answers)
    requires Inv(m, {}) && CanObtain(m, a) && NoLeak(m)
    ensures NoLeak(Obtain(m, a).0)
  {
    if m.freeList != [] {
      TakeFreeKeeps(m);
      assert FrameOk(m, m.freeList[0], {});
    } else {
      Victim(m, a.victim, a.room.loc);
      EvictNoLeak(m, a.victim, a.room.loc);
    }
  }

  lemma EvictNoLeak(m: Mem, f: nat, loc: nat)
    requires Inv(m, {}) && CanEvict(m, f, loc) && NoLeak(m)
    ensures m.frames[f].va in m.table && NoLeak(Evict(m, f, loc))
  {
    assert FrameOk(m, f, {});
    var r, va := Evict(m, f, loc), m.frames[f].va;
    assert PteOk(m, va);
    forall l | l in r.held ensures Owns(r, r.held[l], l) {
      if l != loc {
        assert Owns(m, m.held[l], l);
        assert PteOk(m, m.held[l]);
      }
    }
  }

  lemma FaultNoLeak(m: Mem, va: nat, pin: bool, a: Answers)
    requires Inv(m, {}) && va in m.table && (m.table[va].PagedOut? ==> CanObtain(m, a)) && NoLeak(m)
    ensures NoLeak(Fault(m, va, pin, a))
  {
    hide ListOk, NoDup, TrackedOk, Obtain;
    assert PteOk(m, va);
    match m.table[va]
    case Loaded(f, _) =>
    case PagedOut(_) =>
      ObtainKeeps(m, a);
      ObtainNoLeak(m, a);
      var (r, f) := Obtain(m, a);
      assert f in {f} && FrameOk(r, f, {f});
      var t := Load(r, va, f, pin, a.keep);
      forall l | l in t.held ensures Owns(t, t.held[l], l) {
        assert Owns(r, r.held[l], l);
        assert PteOk(r, r.held[l]);
      }
  }

  lemma LeaveNoLeak(m: Mem, f: nat, room: Room)
    requires Inv(m, {}) && f < |m.frames| && m.frames[f].mapped && MayLeave(m, f, room) && NoLeak(m)
    ensures NoLeak(Leave(m, f, room))
  {
    if room.At? {
      assert FrameOk(m, f, {});
      EvictKeeps(m, f, room.loc);
      EvictNoLeak(m, f, room.loc);
      var r := Evict(m, f, room.loc);
      assert f in {f} && FrameOk(r, f, {f});
    }
  }

  /** Unmapping loses a location of the backing store exactly when the page is in memory
      with a copy in the store; no other operation ever does. */
  lemma LeaksIff(m: Mem, op: Op)
    requires Inv(m, {}) && Allowed(m, op) && NoLeak(m)
    ensures NoLeak(Step(m, op)) <==>
            !(&& op.Unmap? && op.va in m.table && m.table[op.va].Loaded? && m.table[op.va].frame < |m.frames|
              && m.frames[m.table[op.va].frame].backed)
  {
    hide ListOk, FramesOk, TrackedOk, NoDup, FrameOk, Fault, Leave, NoLeak;
    match op
    case Write(va, data, a) =>
      FaultKeeps(m, va, false, a);
      FaultNoLeak(m, va, false, a);
      StoreNoLeak(Fault(m, va, false, a), va, data);
    case Touch(va, a) => if va in m.table { FaultNoLeak(m, va, false, a); }
    case Pin(va, a) => if va in m.table { FaultNoLeak(m, va, true, a); }
    case Unpin(va) => UnpinNoLeak(m, va);
    case PageOut(va, room) =>
      assert PteOk(m, va);
      if m.table[va].Loaded? { LeaveNoLeak(m, m.table[va].frame, room); }
    case EvictFrame(f, room) => if m.frames[f].mapped { LeaveNoLeak(m, f, room); }
    case Map(va, lock, a) => MapNoLeak(m, va, lock, a);
    case Unmap(va) => if va in m.table { UnmapLeak(m, va); }
  }

  lemma StoreNoLeak(m: Mem, va: nat, data: Data)
    requires NoLeak(m) && va in m.table && m.table[va].Loaded? && m.table[va].frame < |m.ram|
    ensures NoLeak(StorePage(m, va, m.table[va].frame, data))
  {
    var r := StorePage(m, va, m.table[va].frame, data);
    forall l | l in r.held ensures Owns(r, r.held[l], l) { assert Owns(m, m.held[l], l); }
  }

  lemma UnpinNoLeak(m: Mem, va: nat)
    requires Inv(m, {}) && va in m.table && NoLeak(m)
    ensures NoLeak(Step(m, Unpin(va)))
  {
    assert PteOk(m, va);
    var r := Step(m, Unpin(va));
    forall l | l in r.held ensures Owns(r, r.held[l], l) { assert Owns(m, m.held[l], l); }
  }

  lemma MapNoLeak(m: Mem, va: nat, lock: bool, a: Answers)
    requires Inv(m, {}) && Allowed(m, Map(va, lock, a)) && NoLeak(m)
    ensures NoLeak(Step(m, Map(va, lock, a)))
  {
    hide ListOk, NoDup, TrackedOk, Obtain;
    if CanObtain(m, a) {
      ObtainKeeps(m, a);
      ObtainNoLeak(m, a);
      var (r, f) := Obtain(m, a);
      assert f in {f} && FrameOk(r, f, {f});
      var t := MapFrame(r, va, f, lock);
      forall l | l in t.held ensures Owns(t, t.held[l], l) {
        assert Owns(r, r.held[l], l);
        assert PteOk(r, r.held[l]);
      }
    }
  }

  lemma UnmapLeak(m: Mem, va: nat)
    requires Inv(m, {}) && va in m.table && NoLeak(m)
    ensures m.table[va].Loaded? ==> m.table[va].frame < |m.frames|
    ensures NoLeak(Step(m, Unmap(va))) <==> !(m.table[va].Loaded? && m.frames[m.table[va].frame].backed)
  {
    hide ListOk, NoDup, TrackedOk;
    assert PteOk(m, va);
    var r := Step(m, Unmap(va));
    if m.table[va].Loaded? && m.frames[m.table[va].frame].backed {
      var loc := m.copyAt[m.table[va].frame];
      assert loc in r.held && !Owns(r, r.held[loc], loc);
    } else {
      forall l | l in r.held ensures Owns(r, r.held[l], l) {
        assert Owns(m, m.held[l], l);
        assert PteOk(m, m.held[l]);
      }
    }
  }

  /** One page in memory with a clean copy at location 3. */
  function Copied(): Mem {
    Mem([Frame(false, false, false, true, false, true, 7)], [], map[7 := Loaded(0, false)], [42],
        map[3 := 42], map[3 := 7], map[0 := 3], {0})
  }

  /** Unmapping that page leaves location 3 allocated for nobody. */
  lemma UnmapLosesCopy()
    ensures Inv(Copied(), {}) && NoLeak(Copied()) && !NoLeak(Step(Copied(), Unmap(7)))
  {
    var m := Copied();
    assert m.frames[0].mapped && m.table[7] == Loaded(0, false);
    assert FrameOk(m, 0, {}) && PteOk(m, 7) && Owns(m, 7, 3);
    LeaksIff(m, Unmap(7));
  }

  // ---------- Initialisation ----------

  /** What a page frame is used for at boot. */
  datatype Kind = Spare | Unusable | Image(va: nat, pinned: bool)

  function BootFrame(k: Kind): Frame {
    match k
    case Spare => BLANK.(free := true)
    case Unusable => BLANK.(reserved := true)
    case Image(va, pinned) => BLANK.(mapped := true, pinned := pinned, va := va)
  }

  /** The spare frames among the first `n`, in order. */
  function Spares(kinds: seq<Kind>, n: nat): seq<nat>
    requires n <= |kinds|
  {
    if n == 0 then []
    else if kinds[n - 1].Spare? then Spares(kinds, n - 1) + [n - 1]
    else Spares(kinds, n - 1)
  }

  lemma {:induction false} SparesAre(kinds: seq<Kind>, n: nat)
    requires n <= |kinds|
    ensures forall f: nat :: f in Spares(kinds, n) <==> f < n && kinds[f].Spare?
    ensures forall i, j | 0 <= i < j < |Spares(kinds, n)| :: Spares(kinds, n)[i] < Spares(kinds, n)[j]
  {
    if n > 0 {
      SparesAre(kinds, n - 1);
      var r := Spares(kinds, n - 1);
      assert forall i | 0 <= i < |r| :: r[i] in r;
    }
  }

  /** The pages of the kernel image that the first `n` frames hold. */
  function ImageTable(kinds: seq<Kind>, n: nat): map<nat, Pte>
    requires n <= |kinds|
  {
    if n == 0 then map[]
    else if kinds[n - 1].Image? then ImageTable(kinds, n - 1)[kinds[n - 1].va := Loaded(n - 1, false)]
    else ImageTable(kinds, n - 1)
  }

  ghost predicate HoldsImage(kinds: seq<Kind>, n: nat, p: Pte, va: nat)
    requires n <= |kinds|
  {
    p.Loaded? && p.frame < n && kinds[p.frame].Image? && kinds[p.frame].va == va
  }

  lemma {:induction false} ImageTableIs(kinds: seq<Kind>, n: nat)
    requires n <= |kinds|
    ensures forall va | va in ImageTable(kinds, n) :: HoldsImage(kinds, n, ImageTable(kinds, n)[va], va)
    ensures forall f | 0 <= f < n && kinds[f].Image? :: kinds[f].va in ImageTable(kinds, n)
  {
    if n > 0 {
      ImageTableIs(kinds, n - 1);
      var t := ImageTable(kinds, n - 1);
      forall va | va in t ensures HoldsImage(kinds, n, t[va], va) {
        assert HoldsImage(kinds, n - 1, t[va], va);
      }
    }
  }

  function Evictable(kinds: seq<Kind>, n: nat): set<nat>
    requires n <= |kinds|
  {
    if n == 0 then {}
    else if kinds[n - 1].Image? && !kinds[n - 1].pinned then Evictable(kinds, n - 1) + {n - 1}
    else Evictable(kinds, n - 1)
  }

  lemma {:induction false} EvictableAre(kinds: seq<Kind>, n: nat)
    requires n <= |kinds|
    ensures forall f: nat :: f in Evictable(kinds, n) <==> f < n && kinds[f].Image? && !kinds[f].pinned
  {
    if n > 0 {
      EvictableAre(kinds, n - 1);
    }
  }

  ghost predicate OneFrameEach(kinds: seq<Kind>) {
    forall i, j | 0 <= i < j < |kinds| && kinds[i].Image? && kinds[j].Image? :: kinds[i].va != kinds[j].va
  }

  function BootFrames(kinds: seq<Kind>): (r: seq<Frame>)
    ensures |r| == |kinds| && forall f | 0 <= f < |r| :: r[f] == BootFrame(kinds[f])
  {
    seq(|kinds|, f requires 0 <= f < |kinds| => BootFrame(kinds[f]))
  }

  lemma BootFramesNext(kinds: seq<Kind>, n: nat)
    requires n < |kinds|
    ensures BootFrames(kinds[..n + 1]) == BootFrames(kinds[..n]) + [BootFrame(kinds[n])]
  { }

  /** Memory after initialisation: the image is mapped, all other usable frames are free, and
      the backing store is empty. */
  function BootMem(kinds: seq<Kind>, data: seq<Data>): Mem {
    Mem(BootFrames(kinds), Spares(kinds, |kinds|), ImageTable(kinds, |kinds|), data,
        map[], map[], map[], Evictable(kinds, |kinds|))
  }

  lemma BootOk(kinds: seq<Kind>, data: seq<Data>)
    requires |data| == |kinds| && OneFrameEach(kinds)
    ensures var m := BootMem(kinds, data);
            && Inv(m, {}) && NoLeak(m)
            && (forall f | 0 <= f < |kinds| && kinds[f].Image? ::
                  kinds[f].va in Contents(m) && Contents(m)[kinds[f].va] == data[f])
            && (forall va | va in Contents(m) :: exists f :: 0 <= f < |kinds| && kinds[f].Image? && kinds[f].va == va)
            && (forall f: nat :: f in m.freeList <==> f < |kinds| && kinds[f].Spare?)
            && (forall i, j | 0 <= i < j < |m.freeList| :: m.freeList[i] < m.freeList[j])
            && (forall f: nat :: f in m.tracked <==> f < |kinds| && kinds[f].Image? && !kinds[f].pinned)
  {
    hide Spares, ImageTable, Evictable, BootFrames;
    var m := BootMem(kinds, data);
    SparesAre(kinds, |kinds|);
    ImageTableIs(kinds, |kinds|);
    EvictableAre(kinds, |kinds|);
    forall f | 0 <= f < |kinds| && kinds[f].Image?
      ensures kinds[f].va in m.table && m.table[kinds[f].va].Loaded? && m.table[kinds[f].va].frame == f
    {
      var g := m.table[kinds[f].va].frame;
      assert kinds[g].va == kinds[f].va;
    }
    forall f | 0 <= f < |m.frames| ensures FrameOk(m, f, {}) { }
    forall va | va in m.table ensures PteOk(m, va) {
      assert HoldsImage(kinds, |kinds|, m.table[va], va);
    }
    forall va | va in Contents(m) ensures exists f :: 0 <= f < |kinds| && kinds[f].Image? && kinds[f].va == va {
      var f := m.table[va].frame;
      assert kinds[f].Image? && kinds[f].va == va;
    }
  }

  // ---------- A run that leaves a copy behind ----------

  function Fresh(): Mem { BootMem([Spare], [0]) }

  function Written(): Mem {
    Mem([Frame(false, false, false, true, false, false, 7)], [], map[7 := Loaded(0, true)], [42],
        map[], map[], map[], {0})
  }

  function Parked(): Mem {
    Mem([Frame(true, false, false, false, false, false, 0)], [0], map[7 := PagedOut(3)], [42],
        map[3 := 42], map[3 := 7], map[], {})
  }

  lemma FreshIs()
    ensures Fresh() == Mem([BLANK.(free := true)], [0], map[], [0], map[], map[], map[], {})
    ensures Inv(Fresh(), {})
  {
    BootOk([Spare], [0]);
    assert Spares([Spare], 1) == [0] && ImageTable([Spare], 1) == map[] && Evictable([Spare], 1) == {};
    assert BootFrames([Spare]) == [BLANK.(free := true)];
  }

  function Mapped(): Mem { Written().(ram := [0]) }

  lemma FreshMaps(a: Answers)
    ensures Inv(Fresh(), {}) && Allowed(Fresh(), Map(7, false, a)) && Step(Fresh(), Map(7, false, a)) == Mapped()
  {
    hide Inv, Fresh;
    FreshIs();
    ObtainKeeps(Fresh(), a);
  }

  lemma MappedWrites(a: Answers)
    requires Inv(Mapped(), {})
    ensures Allowed(Mapped(), Write(7, 42, a)) && Step(Mapped(), Write(7, 42, a)) == Written()
  {
    FaultKeeps(Mapped(), 7, false, a);
  }

  lemma WrittenLeaves()
    requires Inv(Written(), {})
    ensures Allowed(Written(), PageOut(7, At(3))) && Step(Written(), PageOut(7, At(3))) == Parked()
  {
    assert PteOk(Written(), 7) && FrameOk(Written(), 0, {});
  }

  lemma ParkedReturns()
    requires Inv(Parked(), {})
    ensures var op := Touch(7, Answers(0, Full, true)); Allowed(Parked(), op) && Step(Parked(), op) == Copied()
  {
    ObtainKeeps(Parked(), Answers(0, Full, true));
  }

  lemma RunCons(m: Mem, op: Op, ops: seq<Op>)
    requires Inv(m, {}) && Allowed(m, op)
    ensures Inv(Step(m, op), {})
    ensures RunAllowed(Step(m, op), ops) ==> RunAllowed(m, [op] + ops) && Run(m, [op] + ops) == Run(Step(m, op), ops)
  {
    hide Inv, Allowed, Step, Contents, PinnedPages;
    StepKeeps(m, op);
    assert ([op] + ops)[1..] == ops;
  }

  /** Mapping a page, writing it, paging it out and touching it again, in a memory of one
      frame, ends with a clean copy at location 3. */
  lemma CopiedIsReached(a: Answers)
    ensures Inv(Fresh(), {})
    ensures var ops := [Map(7, false, a), Write(7, 42, a), PageOut(7, At(3)), Touch(7, Answers(0, Full, true))];
            RunAllowed(Fresh(), ops) && Run(Fresh(), ops) == Copied()
  {
    hide Inv, Allowed, Step, Fresh, Mapped, Written, Parked, Copied;
    var w, x, y, z := Map(7, false, a), Write(7, 42, a), PageOut(7, At(3)), Touch(7, Answers(0, Full, true));
    FreshMaps(a);
    RunCons(Fresh(), w, [x] + ([y] + ([z] + [])));
    MappedWrites(a);
    RunCons(Mapped(), x, [y] + ([z] + []));
    WrittenLeaves();
    RunCons(Written(), y, [z] + []);
    ParkedReturns();
    RunCons(Parked(), z, []);
    assert [w, x, y, z] == [w] + ([x] + ([y] + ([z] + [])));
  }

  // ---------- Regions of pages ----------

  function Range(va: nat, n: nat): (r: set<nat>)
    ensures forall v :: v in r <==> va <= v < va + n
  {
    if n == 0 then {} else Range(va, n - 1) + {va + n - 1}
  }

  /** Memory with `n` more pages of zeroes. */
  function Zeroed(c: map<nat, Data>, va: nat, n: nat): map<nat, Data> {
    map v | v in c.Keys + Range(va, n) :: if va <= v < va + n then 0 else c[v]
  }

  /** What the oracles may answer while pages are mapped one after the other; the first page
      that fails is the last. */
  ghost predicate RegionAllowed(m: Mem, va: nat, lock: bool, answers: seq<Answers>)
    requires Inv(m, {})
    decreases |answers|
  {
    answers != [] ==>
      var op := Map(va, lock, answers[0]);
      Allowed(m, op) && (StepKeeps(m, op); Succeeds(m, op) ==> RegionAllowed(Step(m, op), va + 1, lock, answers[1..]))
  }

  /** Maps pages one after the other up to the first that fails; how many are mapped. */
  ghost function MapRegion(m: Mem, va: nat, lock: bool, answers: seq<Answers>): (Mem, nat)
    requires Inv(m, {}) && RegionAllowed(m, va, lock, answers)
    decreases |answers|
  {
    if answers == [] then (m, 0)
    else
      var op := Map(va, lock, answers[0]);
      StepKeeps(m, op);
      if !Succeeds(m, op) then (m, 0)
      else
        var (r, n) := MapRegion(Step(m, op), va + 1, lock, answers[1..]);
        (r, n + 1)
  }

  /** Unmaps pages one after the other up to the first that is not mapped. */
  ghost function UnmapRegion(m: Mem, va: nat, n: nat): (Mem, nat)
    requires Inv(m, {})
    decreases n
  {
    if n == 0 || va !in m.table then (m, 0)
    else
      StepKeeps(m, Unmap(va));
      var (r, k) := UnmapRegion(Step(m, Unmap(va)), va + 1, n - 1);
      (r, k + 1)
  }

  lemma MapTurn(m: Mem, va: nat, lock: bool, answers: seq<Answers>)
    requires Inv(m, {}) && answers != [] && RegionAllowed(m, va, lock, answers)
    ensures var op := Map(va, lock, answers[0]);
            && Allowed(m, op) && va !in Contents(m) && Inv(Step(m, op), {})
            && (Succeeds(m, op) ==> RegionAllowed(Step(m, op), va + 1, lock, answers[1..]))
            && (Succeeds(m, op) <==> !(m.freeList == [] && answers[0].room.Full?))
            && (!Succeeds(m, op) ==> Step(m, op) == m)
            && (Succeeds(m, op) ==>
                  && Contents(Step(m, op)) == Contents(m)[va := 0]
                  && var (r, n) := MapRegion(Step(m, op), va + 1, lock, answers[1..]);
                     MapRegion(m, va, lock, answers) == (r, n + 1))
            && (!Succeeds(m, op) ==> MapRegion(m, va, lock, answers) == (m, 0))
  {
    hide Inv, PinnedPages;
    StepKeeps(m, Map(va, lock, answers[0]));
  }

  lemma MapNobody(m: Mem, va: nat, lock: bool)
    requires Inv(m, {})
    ensures RegionAllowed(m, va, lock, []) && MapRegion(m, va, lock, []) == (m, 0)
  {
  }

  lemma ZeroedCons(c: map<nat, Data>, d: map<nat, Data>, va: nat, n: nat)
    requires va !in c && d == c[va := 0] && forall v | v in d :: !(va + 1 <= v < va + 1 + n)
    ensures Zeroed(d, va + 1, n) == Zeroed(c, va, n + 1)
    ensures forall v | v in c :: !(va <= v < va + n + 1)
  {
    assert forall v | v in c :: v in d;
  }

  lemma ZeroedNone(c: map<nat, Data>, va: nat)
    ensures Zeroed(c, va, 0) == c
  {
  }

  /** The mapped pages read as zeroes, the others as before. The loop stops early exactly when
      no free frame and no room in the store are left. */
  lemma {:induction false} MapRegionIs(m: Mem, va: nat, lock: bool, answers: seq<Answers>)
    requires Inv(m, {}) && RegionAllowed(m, va, lock, answers)
    ensures var (r, n) := MapRegion(m, va, lock, answers);
            && Inv(r, {}) && n <= |answers| && Contents(r) == Zeroed(Contents(m), va, n)
            && (forall v | v in Contents(m) :: !(va <= v < va + n))
            && (n < |answers| ==> r.freeList == [] && answers[n].room.Full?)
            && (n == 0 < |answers| <==> answers != [] && m.freeList == [] && answers[0].room.Full?)
    decreases |answers|
  {
    hide Inv, Allowed, Step, Succeeds, Contents, Zeroed, PinnedPages;
    ZeroedNone(Contents(m), va);
    if answers != [] {
      MapTurn(m, va, lock, answers);
      var op := Map(va, lock, answers[0]);
      if Succeeds(m, op) {
        MapRegionIs(Step(m, op), va + 1, lock, answers[1..]);
        ZeroedCons(Contents(m), Contents(Step(m, op)), va, MapRegion(Step(m, op), va + 1, lock, answers[1..]).1);
      }
    }
  }

  lemma UnmapTurn(m: Mem, va: nat)
    requires Inv(m, {})
    ensures Inv(Step(m, Unmap(va)), {}) && Contents(Step(m, Unmap(va))) == Contents(m) - {va}
    ensures (va in m.table <==> va in Contents(m)) && (va !in m.table ==> Step(m, Unmap(va)) == m)
  {
    hide Inv, PinnedPages;
    StepKeeps(m, Unmap(va));
  }

  lemma DropRange(c: map<nat, Data>, va: nat, k: nat)
    ensures c - {va} - Range(va + 1, k) == c - Range(va, k + 1)
    ensures forall v :: va + 1 <= v && v in c - {va} <==> va + 1 <= v && v in c
  {
    assert {va} + Range(va + 1, k) == Range(va, k + 1);
  }

  lemma {:induction false} UnmapRegionIs(m: Mem, va: nat, n: nat)
    requires Inv(m, {})
    ensures var (r, k) := UnmapRegion(m, va, n);
            && Inv(r, {}) && k <= n && Contents(r) == Contents(m) - Range(va, k)
            && (forall v | va <= v < va + k :: v in Contents(m))
            && (k < n ==> va + k !in Contents(m))
    decreases n
  {
    hide Inv, Step, Contents, PinnedPages;
    UnmapTurn(m, va);
    if n > 0 && va in m.table {
      var r := Step(m, Unmap(va));
      UnmapRegionIs(r, va + 1, n - 1);
      DropRange(Contents(m), va, UnmapRegion(r, va + 1, n - 1).1);
    }
  }

  /** Unmapping what the mapping of a region has mapped, all of it or the part before the page
      that failed, restores the memory that user code sees. */
  lemma RegionRoundTrip(m: Mem, va: nat, lock: bool, answers: seq<Answers>)
    requires Inv(m, {}) && RegionAllowed(m, va, lock, answers)
    ensures var (r, n) := MapRegion(m, va, lock, answers);
            && Inv(r, {}) && UnmapRegion(r, va, n).1 == n && Contents(UnmapRegion(r, va, n).0) == Contents(m)
  {
    hide Inv, MapRegion, UnmapRegion, Contents;
    MapRegionIs(m, va, lock, answers);
    var (r, n) := MapRegion(m, va, lock, answers);
    UnmapRegionIs(r, va, n);
    var k := UnmapRegion(r, va, n).1;
    assert k < n ==> va + k in Zeroed(Contents(m), va, n);
    assert Zeroed(Contents(m), va, n) - Range(va, n) == Contents(m);
  }

  /** With one free frame and a full store, the first page of two is mapped and stays, and the
      second fails. */
  lemma PartialRegionStays(a: Answers)
    requires a.room.Full?
    ensures Inv(Fresh(), {}) && RegionAllowed(Fresh(), 7, false, [a, a])
    ensures Allowed(Fresh(), Map(7, false, a)) && Succeeds(Fresh(), Map(7, false, a))
    ensures var m := Step(Fresh(), Map(7, false, a));
            7 in Contents(m) && Allowed(m, Map(8, false, a)) && !Succeeds(m, Map(8, false, a)) && Inv(m, {})
  {
    hide Inv, Step, Fresh;
    FreshIs();
    FreshMaps(a);
    StepKeeps(Fresh(), Map(7, false, a));
    assert [a, a][1..] == [a];
  }
}
