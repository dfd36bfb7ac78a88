/**
  The builder of x86 page tables: tables are created and linked on the way down to the
  leaf, and regions are mapped, reserved or given permissions page by page.
 */
module Ptables {
  import opened Common
  import opened PtableSpec

  datatype Outcome = Done | Misaligned | NoMapping

  class PtableSet {
    const levels: seq<Level>
    var top: seq<Entry>
    var tables: map<nat, seq<Entry>>
    var pos: nat
    ghost var owner: map<nat, seq<nat>>

    ghost function View(): Tree
      reads this
    {
      Tree(levels, top, tables, pos, owner)
    }

    ghost predicate Valid()
      reads this
    {
      Inv(View())
    }

    constructor (mode: seq<Level>, pagesStart: nat)
      requires Chain(mode) && pagesStart > 0
      ensures Valid() && View() == Empty(mode, pagesStart)
    {
      levels := mode;
      top := Zeroes(mode[0].count);
      tables, pos, owner := map[], pagesStart, map[];
      new;
      EmptyOk(mode, pagesStart);
    }

    // ---------- One page ----------

    method WriteEntry(loc: Loc, i: nat, e: Entry)
      requires i < |Entries(View(), loc)|
      modifies this`top, this`tables
      ensures View() == Put(old(View()), loc, i, e)
    {
      match loc
      case Top => top := top[i := e];
      case At(a) => tables := tables[a := tables[a][i := e]];
    }

    method NewChildTable(loc: Loc, i: nat, depth: nat) returns (child: Loc)
      requires CanGrow(View(), loc, i) && depth == |Prefix(View(), loc)| + 1
      modifies this
      ensures View() == Grow(old(View()), loc, i) && child == At(old(pos))
    {
      hide Inv, Fits;
      var a := pos;
      ghost var prefix := Prefix(View(), loc);
      Fresh(View());
      GrowEntry(View(), loc, i);
      pos := pos + PAGE;
      WriteEntry(loc, i, Pack(levels[depth - 1], a, INT_FLAGS));
      tables := tables[a := Zeroes(levels[depth].count)];
      owner := owner[a := prefix + [i]];
      child := At(a);
    }

    /** Walks to the leaf table of an address and creates the tables that are missing. */
    method WalkDown(va: nat) returns (loc: Loc)
      requires Valid() && Chain(levels) && CanWalk(View(), Path(levels, va), |levels| - 1)
      modifies this
      ensures Valid() && View() == Descend(old(View()), Path(levels, va), |levels| - 1)
      ensures Reach(View(), Path(levels, va), |levels| - 1) == Some(loc)
    {
      hide Inv, Grow, Leaf, Fits, Path, Put, Reach, Entries, Prefix, Lacks, TableOk;
      ghost var was := View();
      InvChain(was);
      ghost var p := Path(levels, va);
      PathFits(levels, va);
      loc := Top;
      var depth := 1;
      DescendIs(was, p, 0);
      ReachTop(was, p);
      while depth < |levels|
        invariant 1 <= depth <= |levels| && View() == Descend(was, p, depth - 1)
          && Reach(View(), p, depth - 1) == Some(loc)
        invariant OnTheWay(was, View(), p, depth - 1)
      {
        WalkPart(was, p, depth);
        DescendIs(was, p, depth - 1);
        DescendIs(was, p, depth);
        AtTable(View(), p, depth - 1, loc);
        LevelOf(View(), depth - 1);
        var i := EntryIndex(levels[depth - 1], va);
        PathAt(levels, va, depth - 1);
        var entries := match loc case Top => top case At(a) => tables[a];
        LacksIff(View(), p, depth, loc);
        if Present(entries[i]) {
          loc := At(entries[i].addr);
        } else {
          LackingRoom(was, p, depth);
          LackingGrows(was, View(), p, depth);
          GrowArrives(View(), p, depth - 1);
          loc := NewChildTable(loc, i, depth);
        }
        depth := depth + 1;
      }
    }

    /** `map_page`: one page gets its entry, and every other page keeps its own. */
    method MapPage(va: nat, pa: nat, flags: set<Flag>, reserve: bool)
      requires Valid() && InRange(levels, va) && Chain(levels) && CanWalk(View(), Path(levels, va), |levels| - 1)
      modifies this
      ensures Valid() && NewTables(old(View()), View()) && (old(Reached(View(), va)) ==> pos == old(pos))
      ensures reserve ==> MeansSame(old(View()), View())
      ensures Reached(View(), va) && ReachesMore(old(View()), View())
      ensures !reserve ==>
                && levels[|levels| - 1].limit > 0
                && SetsPage(old(View()), View(), va, Pack(levels[|levels| - 1], pa, flags))
    {
      hide Inv, Leaf, Descend, Path, Put, Whole, Means, Reach;
      ghost var was := View();
      InvChain(was);
      LevelOf(was, |levels| - 1);
      PathFits(levels, va);
      var loc := WalkDown(va);
      ReserveMeans(was, va);
      DescendIs(was, Path(levels, va), |levels| - 1);
      DescendReaches(was, va);
      ghost var down := View();
      if !reserve {
        var e := Pack(levels[|levels| - 1], pa, flags);
        PackWhole(levels[|levels| - 1], pa, flags);
        PutPage(View(), va, e);
        var i := EntryIndex(levels[|levels| - 1], va);
        PathAt(levels, va, |levels| - 1);
        PutPos(View(), loc, i, e);
        PutReaches(down, va, loc, i, e);
        WriteEntry(loc, i, e);
      }
    }

    /** Follows the entries of an address without looking whether they are present: an
        empty entry leads to address 0, where there is no table. */
    method WalkLinks(va: nat) returns (r: Option<Loc>)
      requires Valid()
      ensures r == Reach(View(), Path(levels, va), |levels| - 1)
    {
      hide Inv, Path, Reach, Entries, Prefix, EntryIndex;
      InvChain(View());
      PathFits(levels, va);
      ghost var p := Path(levels, va);
      var loc := Top;
      var depth := 1;
      ReachTop(View(), p);
      while depth < |levels|
        invariant 1 <= depth <= |levels| && Reach(View(), p, depth - 1) == Some(loc)
      {
        AtTable(View(), p, depth - 1, loc);
        PathAt(levels, va, depth - 1);
        LinkLeads(View(), p, depth, loc);
        var i := EntryIndex(levels[depth - 1], va);
        var entries := match loc case Top => top case At(a) => tables[a];
        if entries[i].addr !in tables {
          ReachStops(View(), p, depth, |levels| - 1);
          return None;
        }
        loc := At(entries[i].addr);
        depth := depth + 1;
      }
      return Some(loc);
    }

    method SetPerms(va: nat, flags: set<Flag>, loc: Loc)
      requires Valid() && InRange(levels, va) && Reach(View(), Path(levels, va), |levels| - 1) == Some(loc)
      modifies this
      ensures Valid() && pos == old(pos) && ReachesMore(old(View()), View()) && ReachesMore(View(), old(View()))
      ensures SetsPage(old(View()), View(), va, Entry(Means(old(View()), va).addr, flags * levels[|levels| - 1].flags))
    {
      hide Inv, Path, Put, Whole, Kept;
      ghost var t := View();
      InvChain(t);
      LevelOf(t, |levels| - 1);
      LeafWhole(t, va);
      PathFits(levels, va);
      ReachIs(t, Path(levels, va), |levels| - 1);
      PathAt(levels, va, |levels| - 1);
      var l := levels[|levels| - 1];
      var i := EntryIndex(l, va);
      var entries := match loc case Top => top case At(a) => tables[a];
      var e := Pack(l, entries[i].addr, flags);
      PackWhole(l, entries[i].addr, flags);
      PutPage(t, va, e);
      PutPos(t, loc, i, e);
      PutReaches(t, va, loc, i, e);
      PutReachesBack(t, va, loc, i, e);
      WriteEntry(loc, i, e);
    }

    // ---------- Regions ----------

    /** Maps a region page by page. Each page of it gets its own physical page, except that
        an identity mapping leaves out the page at address 0, and no other page changes. */
    method Map(physBase: nat, virtBase: Option<nat>, size: nat, flags: set<Flag>) returns (r: Outcome)
      requires Valid() && RegionFits(View(), if virtBase.None? then physBase else virtBase.value, size)
      modifies this
      ensures Valid()
      ensures r == if physBase % PAGE == 0 && size % PAGE == 0 && (virtBase.Some? ==> virtBase.value % PAGE == 0)
                   then Done else Misaligned
      ensures r == Misaligned ==> View() == old(View())
      ensures r == Done ==>
        MapsRegion(old(View()), View(), physBase, if virtBase.None? then physBase else virtBase.value, size, flags)
    {
      hide Inv, Fits, MapsRegion, Room, RegionFits, SetsPage, ReachesMore, Reached, MeansSame, NewTables, Progress,
        Means, CanWalk, Path, Chain;
      InvChain(View());
      var virt := if virtBase.None? then physBase else virtBase.value;
      if physBase % PAGE != 0 || size % PAGE != 0 || virt % PAGE != 0 {
        return Misaligned;
      }
      ghost var was := View();
      RegionStarts(was, virt, size);
      MapsNothing(was, physBase, virt, flags);
      var n := 0;
      ghost var begun: nat := 0;
      while n < size / PAGE
        invariant 0 <= n <= size / PAGE && Valid() && Progress(was, View(), virt, n, begun)
        invariant MapsRegion(was, View(), physBase, virt, n * PAGE, flags)
      {
        var paddr := physBase + n * PAGE;
        var vaddr := virt + n * PAGE;
        ghost var before := View();
        RoomEnough(was, before, virt, size, n, begun);
        if !(virt == physBase && paddr == 0) {
          MapPage(vaddr, paddr, flags, false);
          PageDone(was, before, View(), virt, n, begun);
          begun := if Reached(before, vaddr) then begun else begun + 1;
        } else {
          PageSkipped(was, before, virt, begun);
        }
        MapsMore(was, before, View(), physBase, virt, n, flags);
        n := n + 1;
      }
      return Done;
    }

    /** Gives the pages of a region new flags, except the page at address 0, and keeps their
        physical addresses. It fails exactly when some page has no leaf table. */
    method SetRegionPerms(base: nat, size: nat, flags: set<Flag>) returns (r: Outcome)
      requires Valid() && base + size <= levels[0].span * levels[0].count
      modifies this
      ensures Valid()
      ensures r == Misaligned <==> size != 0 && !(base % PAGE == 0 && size % PAGE == 0)
      ensures r == Misaligned ==> View() == old(View())
      ensures r == NoMapping ==> exists va: nat :: base <= va < base + size && va >= PAGE && !Reached(old(View()), va)
      ensures r == Done ==> SetsPerms(old(View()), View(), base, size, flags)
      ensures r == Done ==> forall va | base <= va < base + size && va >= PAGE :: Reached(old(View()), va)
    {
      hide Inv, Means, Reach, Path, SetsPerms, ReachesMore, Reached, SetsPage;
      InvChain(View());
      ghost var was := View();
      SetsNothing(was, base, flags);
      if size == 0 {
        return Done;
      }
      if base % PAGE != 0 || size % PAGE != 0 {
        return Misaligned;
      }
      var n := 0;
      while n < size / PAGE
        invariant 0 <= n <= size / PAGE && Valid() && SetsPerms(was, View(), base, n * PAGE, flags)
        invariant ReachesMore(was, View()) && ReachesMore(View(), was)
        invariant forall k | 0 <= k < n && base + k * PAGE != 0 :: Reached(was, base + k * PAGE)
      {
        var addr := base + n * PAGE;
        ghost var before := View();
        if addr != 0 {
          var loc := WalkLinks(addr);
          ReachedIs(before, addr);
          SameReached(was, before, addr);
          if loc.None? {
            assert addr >= PAGE;
            return NoMapping;
          }
          SetPerms(addr, flags, loc.value);
          ReachesOn(was, before, View());
          ReachesOn(View(), before, was);
        }
        SetsMore(was, before, View(), base, n, flags);
        n := n + 1;
      }
      forall va | base <= va < base + size && va >= PAGE ensures Reached(was, va) {
        PageReach(was, base, size / PAGE, va);
      }
      return Done;
    }

    /** Creates the tables for a region. No page changes, and every page of the region has
        a leaf table afterwards. */
    method Reserve(virtBase: nat, size: nat) returns (r: Outcome)
      requires Valid() && ReserveFits(View(), virtBase, size)
      modifies this
      ensures Valid()
      ensures r == if virtBase % PAGE == 0 && size % PAGE == 0 && virtBase % levels[|levels| - 2].span == 0
                   then Done else Misaligned
      ensures r == Misaligned ==> View() == old(View())
      ensures r == Done ==>
                && MeansSame(old(View()), View())
                && forall va | virtBase <= va < virtBase + size :: Reached(View(), va)
    {
      hide Inv, Fits, Room, Means, Reach;
      InvChain(View());
      var scope := levels[|levels| - 2].span;
      if virtBase % PAGE != 0 || size % PAGE != 0 || virtBase % scope != 0 {
        return Misaligned;
      }
      ghost var was := View();
      RoomStart(was);
      var addr := virtBase;
      ghost var n := 0;
      while addr < virtBase + size
        invariant Valid() && RoomLeft(was, View(), n) && MeansSame(was, View()) && addr == virtBase + n * scope
        invariant forall va | virtBase <= va < virtBase + size && va < addr :: Reached(View(), va)
        decreases virtBase + size - addr
      {
        ghost var before := View();
        BlocksEnough(was, before, virtBase, size, n);
        MapPage(addr, 0, {}, true);
        RoomMore(was, before, View(), n);
        ReachesBlock(before, View(), virtBase, size, addr, n);
        n := n + 1;
        addr := addr + scope;
      }
      return Done;
    }
  }

  lemma ReachTop(t: Tree, p: seq<nat>)
    requires 0 < |t.levels| == |p|
    ensures Reach(t, p, 0) == Some(Top)
  {
  }

  lemma AtTable(t: Tree, p: seq<nat>, d: nat, loc: Loc)
    requires Inv(t) && PathOk(t.levels, p) && d < |p| && Reach(t, p, d) == Some(loc)
    ensures |Prefix(t, loc)| == d && (loc.At? ==> loc.addr in t.tables && Entries(t, loc) == t.tables[loc.addr])
    ensures (loc.Top? ==> Entries(t, loc) == t.top) && p[d] < |Entries(t, loc)|
  {
    ReachIs(t, p, d);
  }

  /** An entry leads to the next table exactly when there is a table at its address. */
  lemma LinkLeads(t: Tree, p: seq<nat>, d: nat, loc: Loc)
    requires Inv(t) && PathOk(t.levels, p) && 0 < d < |p| && Reach(t, p, d - 1) == Some(loc)
    ensures p[d - 1] < |Entries(t, loc)|
    ensures var a := Entries(t, loc)[p[d - 1]].addr; Reach(t, p, d) == if a in t.tables then Some(At(a)) else None
  {
    hide Inv;
    ReachIs(t, p, d - 1);
    LevelOf(t, d - 1);
    NoTableAtZero(t);
    assert LinkOk(t, loc, p[d - 1]);
  }

  lemma LacksIff(t: Tree, p: seq<nat>, d: nat, loc: Loc)
    requires Inv(t) && PathOk(t.levels, p) && 0 < d < |p| && Reach(t, p, d - 1) == Some(loc)
    ensures p[d - 1] < |Entries(t, loc)| && (Lacks(t, loc, p[d - 1]) <==> !Present(Entries(t, loc)[p[d - 1]]))
    ensures !Lacks(t, loc, p[d - 1]) ==> Reach(t, p, d) == Some(At(Entries(t, loc)[p[d - 1]].addr))
  {
    ReachIs(t, p, d - 1);
    LevelOf(t, d - 1);
  }

  lemma WalkPart(t: Tree, p: seq<nat>, d: nat)
    requires 0 < d < |p| == |t.levels| && CanWalk(t, p, |p| - 1)
    ensures CanWalk(t, p, d - 1) && CanWalk(t, p, d)
  {
    hide Fits;
    if Reach(t, p, |p| - 1).Some? && Reach(t, p, d).None? {
      ReachStops(t, p, d, |p| - 1);
    }
  }

  lemma LackingRoom(t: Tree, p: seq<nat>, d: nat)
    requires Inv(t) && PathOk(t.levels, p) && 0 < d < |p| && CanWalk(t, p, d)
    requires var r := Descend(t, p, d - 1); Reach(r, p, d - 1).Some? && Lacks(r, Reach(r, p, d - 1).value, p[d - 1])
    ensures Room(t, d)
  {
    hide Inv, Descend, Lacks, Room;
    if Reach(t, p, d).Some? {
      DescendSame(t, p, d - 1);
      LacksIff(t, p, d, Reach(t, p, d - 1).value);
    }
  }

  lemma {:induction false} ReachStops(t: Tree, p: seq<nat>, d: nat, k: nat)
    requires 0 < d <= k < |t.levels| == |p| && Reach(t, p, d).None?
    ensures Reach(t, p, k).None?
    decreases k
  {
    if d < k { ReachStops(t, p, d, k - 1); }
  }

  lemma PathAt(levels: seq<Level>, va: nat, d: nat)
    requires Chain(levels) && d < |levels|
    ensures levels[d].span > 0 && levels[d].count > 0 && Path(levels, va)[d] == EntryIndex(levels[d], va)
  {
    assert LevelOk(levels[d]);
  }

  lemma PutPos(t: Tree, loc: Loc, i: nat, e: Entry)
    requires i < |Entries(t, loc)|
    ensures Put(t, loc, i, e).pos == t.pos
  {
  }

  /** At most one new table per level below the top. */
  ghost predicate NewTables(t: Tree, r: Tree) {
    r.levels == t.levels && |t.levels| > 0 && exists k: nat :: k <= |t.levels| - 1 && r.pos == t.pos + k * PAGE
  }

  /** The number of blocks, each covered by one leaf table, that `pages` pages touch. */
  function Blocks(span: nat, virt: nat, pages: nat): nat
    requires span > 0
  {
    if pages == 0 then 0
    else (DivMono(virt, virt + (pages - 1) * PAGE, span); (virt + (pages - 1) * PAGE) / span - virt / span + 1)
  }

  lemma DivMono(a: nat, b: nat, span: nat)
    requires a <= b && span > 0
    ensures a / span <= b / span
  {
    if a / span > b / span {
      MulMono(b / span + 1, a / span, span);
    }
  }

  lemma BlocksMono(span: nat, virt: nat, n: nat, pages: nat)
    requires span > 0 && n <= pages
    ensures Blocks(span, virt, n) <= Blocks(span, virt, pages)
  {
    if n > 0 {
      DivMono(virt + (n - 1) * PAGE, virt + (pages - 1) * PAGE, span);
      DivMono(virt, virt + (n - 1) * PAGE, span);
    } else if pages > 0 {
      DivMono(virt, virt + (pages - 1) * PAGE, span);
    }
  }

  /** The region is in range, and there is room for the tables its blocks may need. */
  ghost predicate RegionFits(t: Tree, virt: nat, size: nat) {
    && |t.levels| >= 2 && t.levels[|t.levels| - 2].span > 0
    && virt + size <= t.levels[0].span * t.levels[0].count
    && Room(t, Blocks(t.levels[|t.levels| - 2].span, virt, size / PAGE) * (|t.levels| - 1))
  }

  /** After `n` pages, tables were made for `begun` blocks: a block that is counted but not
      begun can only be the one whose first page was left out. */
  ghost predicate Progress(t: Tree, r: Tree, virt: nat, n: nat, begun: nat) {
    && Chain(t.levels) && |t.levels| >= 2 && t.levels[|t.levels| - 2].span > 0
    && r.levels == t.levels && RoomLeft(t, r, begun)
    && begun <= Blocks(t.levels[|t.levels| - 2].span, virt, n)
    && (n == 0 || begun < Blocks(t.levels[|t.levels| - 2].span, virt, n) || Reached(r, virt + (n - 1) * PAGE))
  }

  /** A page whose leaf table is missing lies in a block that was not begun. */
  lemma PageBegins(t: Tree, r: Tree, virt: nat, n: nat, begun: nat)
    requires Progress(t, r, virt, n, begun)
    ensures Reached(r, virt + n * PAGE) || begun + 1 <= Blocks(t.levels[|t.levels| - 2].span, virt, n + 1)
  {
    hide Reach, Path, RoomLeft, Chain, Reached;
    var span := t.levels[|t.levels| - 2].span;
    BlocksMono(span, virt, n, n + 1);
    if n > 0 && begun == Blocks(span, virt, n) {
      var prev, va := virt + (n - 1) * PAGE, virt + n * PAGE;
      DivMono(prev, va, span);
      if prev / span == va / span {
        BlockReach(r, prev, va);
      }
    }
  }

  lemma PageDone(t: Tree, r: Tree, u: Tree, virt: nat, n: nat, begun: nat)
    requires Progress(t, r, virt, n, begun) && u.levels == r.levels && Reached(u, virt + n * PAGE)
    requires NewTables(r, u) && (Reached(r, virt + n * PAGE) ==> u.pos == r.pos)
    ensures Progress(t, u, virt, n + 1, if Reached(r, virt + n * PAGE) then begun else begun + 1)
  {
    hide Reached, RoomLeft, NewTables, Chain;
    PageBegins(t, r, virt, n, begun);
    BlocksMono(t.levels[|t.levels| - 2].span, virt, n, n + 1);
    if Reached(r, virt + n * PAGE) {
      RoomSame(t, r, u, begun);
    } else {
      RoomMore(t, r, u, begun);
    }
  }

  lemma RegionStarts(t: Tree, virt: nat, size: nat)
    requires Chain(t.levels) && RegionFits(t, virt, size)
    ensures Progress(t, t, virt, 0, 0)
  {
    RoomStart(t);
  }

  lemma PageSkipped(t: Tree, r: Tree, virt: nat, begun: nat)
    requires Progress(t, r, virt, 0, begun)
    ensures Progress(t, r, virt, 1, begun)
  {
    hide RoomLeft, Chain;
    DivMono(virt, virt, t.levels[|t.levels| - 2].span);
  }

  lemma RoomSame(t: Tree, r: Tree, u: Tree, n: nat)
    requires RoomLeft(t, r, n) && u.levels == r.levels && u.pos == r.pos
    ensures RoomLeft(t, u, n)
  {
  }

  ghost predicate RoomLeft(t: Tree, r: Tree, n: nat) {
    r.levels == t.levels && |t.levels| > 0 && exists k: nat :: k <= n * (|t.levels| - 1) && r.pos == t.pos + k * PAGE
  }

  /** What a page means after a region was mapped. */
  function Mapped(l: Level, e: Entry, phys: nat, virt: nat, size: nat, flags: set<Flag>, va: nat): Entry
    requires l.limit > 0
  {
    if virt <= va < virt + size && !(virt == phys && va < PAGE)
    then Pack(l, phys + (va - virt) / PAGE * PAGE, flags) else e
  }

  /** The page at some offset in the region is the physical page at the same offset, with the
      flags of the region; page 0 is never mapped to itself, and no other page changes. */
  lemma MappedIs(l: Level, e: Entry, phys: nat, virt: nat, size: nat, flags: set<Flag>, va: nat)
    requires l.limit > 0 && phys % PAGE == 0 && virt % PAGE == 0 && phys + size <= l.limit && flags <= l.flags
    ensures var m := Mapped(l, e, phys, virt, size, flags, va);
            if va < virt || virt + size <= va || (va < PAGE && virt == phys) then m == e
            else m.flags == flags && m.addr + va % PAGE == phys + (va - virt)
  {
    hide Kept;
    if virt <= va < virt + size {
      OffsetIs(phys, virt, va - virt);
      KeptWhole(l, phys + (va - virt) / PAGE * PAGE);
      assert flags * l.flags == flags;
    }
  }

  lemma OffsetIs(phys: nat, virt: nat, o: nat)
    requires phys % PAGE == 0 && virt % PAGE == 0
    ensures (phys + o / PAGE * PAGE) % PAGE == 0 && o / PAGE * PAGE + (virt + o) % PAGE == o
  {
  }

  /** Every page of a region has the entry it was given, and every other page its own. */
  ghost predicate MapsRegion(t: Tree, r: Tree, phys: nat, virt: nat, size: nat, flags: set<Flag>) {
    && Chain(t.levels) && r.levels == t.levels && LeafLevel(t).limit > 0
    && forall va | InRange(t.levels, va) ::
       Means(r, va) == Mapped(LeafLevel(t), Means(t, va), phys, virt, size, flags, va)
  }

  lemma MapsNothing(t: Tree, phys: nat, virt: nat, flags: set<Flag>)
    requires Inv(t)
    ensures MapsRegion(t, t, phys, virt, 0 * PAGE, flags)
  {
    hide Means;
    LevelOf(t, |t.levels| - 1);
  }

  lemma MapsMore(t: Tree, r: Tree, u: Tree, phys: nat, virt: nat, n: nat, flags: set<Flag>)
    requires MapsRegion(t, r, phys, virt, n * PAGE, flags) && virt % PAGE == 0 && phys % PAGE == 0
    requires if virt == phys && phys + n * PAGE == 0 then u == r
             else SetsPage(r, u, virt + n * PAGE, Pack(LeafLevel(t), phys + n * PAGE, flags))
    ensures MapsRegion(t, u, phys, virt, (n + 1) * PAGE, flags)
  {
    hide Means, Mapped, Inv, Pack;
    forall va | InRange(t.levels, va)
      ensures Means(u, va) == Mapped(LeafLevel(t), Means(t, va), phys, virt, (n + 1) * PAGE, flags, va)
    {
      MappedMore(LeafLevel(t), Means(t, va), phys, virt, n, flags, va);
    }
  }

  lemma MappedMore(l: Level, e: Entry, phys: nat, virt: nat, n: nat, flags: set<Flag>, va: nat)
    requires l.limit > 0 && virt % PAGE == 0 && phys % PAGE == 0
    ensures var before := Mapped(l, e, phys, virt, n * PAGE, flags, va);
            Mapped(l, e, phys, virt, (n + 1) * PAGE, flags, va) ==
            if SamePage(virt + n * PAGE, va) && !(virt == phys && phys + n * PAGE == 0)
            then Pack(l, phys + n * PAGE, flags) else before
  {
    hide Pack;
    if SamePage(virt + n * PAGE, va) {
      assert (va - virt) / PAGE == n;
    }
  }

  lemma MulMono(a: nat, b: nat, m: nat)
    requires a <= b
    ensures a * m <= b * m
  {
  }

  lemma RoomEnough(t: Tree, r: Tree, virt: nat, size: nat, n: nat, begun: nat)
    requires RegionFits(t, virt, size) && Progress(t, r, virt, n, begun) && n < size / PAGE
    ensures r.levels == t.levels && InRange(r.levels, virt + n * PAGE)
    ensures CanWalk(r, Path(r.levels, virt + n * PAGE), |r.levels| - 1)
  {
    hide Room, Reach, Path, Blocks;
    PageBegins(t, r, virt, n, begun);
    if !Reached(r, virt + n * PAGE) {
      var blocks := Blocks(t.levels[|t.levels| - 2].span, virt, size / PAGE);
      BlocksMono(t.levels[|t.levels| - 2].span, virt, n + 1, size / PAGE);
      RoomSlice(t, r, blocks, begun);
    }
  }

  lemma RoomSlice(t: Tree, r: Tree, pages: nat, n: nat)
    requires RoomLeft(t, r, n) && n < pages && |t.levels| > 0 && Room(t, pages * (|t.levels| - 1))
    ensures Room(r, |r.levels| - 1)
  {
    hide Fits;
    var m := |t.levels| - 1;
    var k: nat :| k <= n * m && r.pos == t.pos + k * PAGE;
    MulMono(n + 1, pages, m);
    assert (n + 1) * m == n * m + m;
    forall j: nat | j < m ensures Fits(r.levels, r.pos + j * PAGE) {
      assert r.pos + j * PAGE == t.pos + (k + j) * PAGE;
    }
  }

  lemma RoomStart(t: Tree)
    requires |t.levels| > 0
    ensures RoomLeft(t, t, 0)
  {
    assert t.pos == t.pos + 0 * PAGE;
  }

  lemma RoomMore(t: Tree, r: Tree, u: Tree, n: nat)
    requires RoomLeft(t, r, n) && (u == r || NewTables(r, u))
    ensures RoomLeft(t, u, n + 1)
  {
    var m := |t.levels| - 1;
    var k: nat :| k <= n * m && r.pos == t.pos + k * PAGE;
    assert (n + 1) * m == n * m + m;
    if u == r {
      assert k <= (n + 1) * m;
    } else {
      var j: nat :| j <= m && u.pos == r.pos + j * PAGE;
      assert u.pos == t.pos + (k + j) * PAGE;
    }
  }

  /** Whatever had a leaf table still has one. */
  ghost predicate ReachesMore(t: Tree, r: Tree) {
    Chain(t.levels) && r.levels == t.levels && forall va | InRange(t.levels, va) && Reached(t, va) :: Reached(r, va)
  }

  lemma {:induction false} DescendReach(t: Tree, p: seq<nat>, d: nat, q: seq<nat>, k: nat)
    requires Inv(t) && PathOk(t.levels, p) && PathOk(t.levels, q) && d < |p| && k < |q|
    requires Room(t, d) && Reach(t, q, k).Some?
    ensures Reach(Descend(t, p, d), q, k) == Reach(t, q, k)
    decreases d
  {
    hide Inv, Grow, Leaf, Lacks, Fits, Reach;
    if d > 0 {
      assert Room(t, d - 1);
      DescendReach(t, p, d - 1, q, k);
      DescendIs(t, p, d - 1);
      var r := Descend(t, p, d - 1);
      if Reach(r, p, d - 1).Some? && Lacks(r, Reach(r, p, d - 1).value, p[d - 1]) {
        LackingGrows(t, r, p, d);
        GrowReach(r, Reach(r, p, d - 1).value, p[d - 1], q, k);
      }
    }
  }

  lemma DescendReaches(t: Tree, va: nat)
    requires Inv(t) && Chain(t.levels) && CanWalk(t, Path(t.levels, va), |t.levels| - 1)
    ensures ReachesMore(t, Descend(t, Path(t.levels, va), |t.levels| - 1))
  {
    hide Inv, Descend, Path, Room;
    PathFits(t.levels, va);
    if Reached(t, va) {
      DescendSame(t, Path(t.levels, va), |t.levels| - 1);
      return;
    }
    forall vb | InRange(t.levels, vb) && Reached(t, vb)
      ensures Reached(Descend(t, Path(t.levels, va), |t.levels| - 1), vb)
    {
      PathFits(t.levels, vb);
      DescendReach(t, Path(t.levels, va), |t.levels| - 1, Path(t.levels, vb), |t.levels| - 1);
    }
  }

  lemma PutReaches(t: Tree, va: nat, loc: Loc, i: nat, e: Entry)
    requires Inv(t) && Chain(t.levels) && Reach(t, Path(t.levels, va), |t.levels| - 1) == Some(loc)
             && i < |Entries(t, loc)|
    ensures ReachesMore(t, Put(t, loc, i, e))
    ensures Reached(t, va) && Put(t, loc, i, e).levels == t.levels && Reached(Put(t, loc, i, e), va)
  {
    hide Inv, Path, Put;
    var p := Path(t.levels, va);
    PathFits(t.levels, va);
    ReachIs(t, p, |p| - 1);
    PutLevels(t, loc, i, e);
    PutReach(t, loc, i, e, p, |p| - 1);
    forall vb | InRange(t.levels, vb) && Reached(t, vb) ensures Reached(Put(t, loc, i, e), vb) {
      PathFits(t.levels, vb);
      PutReach(t, loc, i, e, Path(t.levels, vb), |p| - 1);
    }
  }

  /** The same for a region of which only the tables are created, one block per leaf table. */
  ghost predicate ReserveFits(t: Tree, virt: nat, size: nat) {
    && |t.levels| >= 2 && t.levels[|t.levels| - 2].span > 0
    && virt + size <= t.levels[0].span * t.levels[0].count
    && Room(t, (size / t.levels[|t.levels| - 2].span + 1) * (|t.levels| - 1))
  }

  lemma BlocksEnough(t: Tree, r: Tree, virt: nat, size: nat, n: nat)
    requires ReserveFits(t, virt, size) && RoomLeft(t, r, n) && n * t.levels[|t.levels| - 2].span < size
    ensures Room(r, |r.levels| - 1)
  {
    var span := t.levels[|t.levels| - 2].span;
    QuotientAbove(n, span, size);
    RoomSlice(t, r, size / span + 1, n);
  }

  lemma QuotientAbove(n: nat, span: nat, size: nat)
    requires span > 0 && n * span < size
    ensures n <= size / span
  {
    var q := size / span;
    assert size == q * span + size % span;
    assert (q + 1) * span == q * span + span;
    assert n > q ==> n * span >= (q + 1) * span by { if n > q { MulMono(q + 1, n, span); } }
  }

  /** All addresses of a block share the tables above the leaf entries. */
  lemma ReachesBlock(t: Tree, r: Tree, virt: nat, size: nat, addr: nat, n: nat)
    requires Chain(t.levels) && ReachesMore(t, r) && Reached(r, addr) && t.levels[|t.levels| - 2].span > 0
    requires virt % t.levels[|t.levels| - 2].span == 0
    requires addr == virt + n * t.levels[|t.levels| - 2].span && virt + size <= t.levels[0].span * t.levels[0].count
    requires forall va | virt <= va < virt + size && va < addr :: Reached(t, va)
    ensures forall va | virt <= va < virt + size && va < addr + t.levels[|t.levels| - 2].span :: Reached(r, va)
  {
    hide Reach, Chain, Path, Reached;
    ChainIs(t.levels);
    var span := t.levels[|t.levels| - 2].span;
    forall va | virt <= va < virt + size && va < addr + span ensures Reached(r, va) {
      ReachesAt(t, r, virt, span, addr, n, va);
    }
  }

  lemma ReachesAt(t: Tree, r: Tree, virt: nat, span: nat, addr: nat, n: nat, va: nat)
    requires Chain(t.levels) && ReachesMore(t, r) && Reached(r, addr) && span == t.levels[|t.levels| - 2].span > 0
    requires virt % span == 0 && addr == virt + n * span && virt <= va < addr + span && InRange(t.levels, va)
    requires va < addr ==> Reached(t, va)
    ensures Reached(r, va)
  {
    hide Reach, Path;
    if va >= addr {
      SameBlock(virt, n, span, va);
      BlockReach(r, addr, va);
    }
  }

  lemma SameBlock(virt: nat, n: nat, span: nat, va: nat)
    requires span > 0 && virt % span == 0 && virt + n * span <= va < virt + n * span + span
    ensures (virt + n * span) / span == va / span
  {
    var q := virt / span;
    assert virt == q * span;
    assert (q + n) * span == q * span + n * span;
    DivUnique(va, span, q + n, va - (q + n) * span);
    DivUnique(virt + n * span, span, q + n, 0);
  }

  lemma {:induction false} BlockIndex(levels: seq<Level>, va: nat, vb: nat, d: nat)
    requires Chain(levels) && d <= |levels| - 2 && levels[|levels| - 2].span > 0
    requires va / levels[|levels| - 2].span == vb / levels[|levels| - 2].span
    ensures levels[d].span > 0 && levels[d].count > 0 && va / levels[d].span == vb / levels[d].span
    decreases |levels| - d
  {
    assert LevelOk(levels[d]);
    if d < |levels| - 2 {
      BlockIndex(levels, va, vb, d + 1);
      DivDiv(va, levels[d + 1].span, levels[d + 1].count);
      DivDiv(vb, levels[d + 1].span, levels[d + 1].count);
    }
  }

  lemma {:induction false} ReachPrefix(t: Tree, p: seq<nat>, q: seq<nat>, d: nat)
    requires d < |t.levels| == |p| == |q| && forall k | 0 <= k < d :: p[k] == q[k]
    ensures Reach(t, p, d) == Reach(t, q, d)
  {
    if d > 0 { ReachPrefix(t, p, q, d - 1); }
  }

  lemma BlockReach(t: Tree, va: nat, vb: nat)
    requires Chain(t.levels) && t.levels[|t.levels| - 2].span > 0
    requires va / t.levels[|t.levels| - 2].span == vb / t.levels[|t.levels| - 2].span
    ensures Reached(t, va) == Reached(t, vb)
  {
    hide Reach, Chain;
    ChainIs(t.levels);
    var p, q := Path(t.levels, va), Path(t.levels, vb);
    forall k | 0 <= k < |t.levels| - 1 ensures p[k] == q[k] {
      BlockIndex(t.levels, va, vb, k);
    }
    ReachPrefix(t, p, q, |t.levels| - 1);
  }

  lemma ChainIs(levels: seq<Level>)
    requires Chain(levels)
    ensures |levels| >= 2
  {
  }

  lemma PutReachesBack(t: Tree, va: nat, loc: Loc, i: nat, e: Entry)
    requires Inv(t) && Chain(t.levels) && Reach(t, Path(t.levels, va), |t.levels| - 1) == Some(loc)
             && i < |Entries(t, loc)|
    ensures ReachesMore(Put(t, loc, i, e), t)
  {
    hide Inv, Path, Put;
    var p := Path(t.levels, va);
    PathFits(t.levels, va);
    ReachIs(t, p, |p| - 1);
    PutLevels(t, loc, i, e);
    var r := Put(t, loc, i, e);
    forall vb | InRange(t.levels, vb) && Reached(r, vb) ensures Reached(t, vb) {
      PathFits(t.levels, vb);
      PutReach(t, loc, i, e, Path(t.levels, vb), |p| - 1);
    }
  }

  /** The pages of a region have new flags and their old addresses; every other page is as before. */
  ghost predicate SetsPerms(t: Tree, r: Tree, base: nat, size: nat, flags: set<Flag>) {
    && Chain(t.levels) && r.levels == t.levels
    && forall va | InRange(t.levels, va) :: Means(r, va) == Permitted(LeafLevel(t), Means(t, va), base, size, flags, va)
  }

  function Permitted(l: Level, e: Entry, base: nat, size: nat, flags: set<Flag>, va: nat): Entry {
    if base <= va < base + size && va >= PAGE then Entry(e.addr, flags * l.flags) else e
  }

  lemma ReachedIs(t: Tree, va: nat)
    requires Chain(t.levels)
    ensures Reached(t, va) <==> Reach(t, Path(t.levels, va), |t.levels| - 1).Some?
  {
  }

  lemma SameReached(t: Tree, r: Tree, va: nat)
    requires ReachesMore(t, r) && ReachesMore(r, t) && InRange(t.levels, va)
    ensures Reached(t, va) <==> Reached(r, va)
  {
    hide Reached;
  }

  lemma ReachesOn(t: Tree, r: Tree, u: Tree)
    requires ReachesMore(t, r) && ReachesMore(r, u)
    ensures ReachesMore(t, u)
  {
    hide Reached;
  }

  lemma SetsNothing(t: Tree, base: nat, flags: set<Flag>)
    requires Inv(t)
    ensures SetsPerms(t, t, base, 0, flags) && ReachesMore(t, t)
  {
    hide Means, Reach;
  }

  lemma SetsMore(t: Tree, r: Tree, u: Tree, base: nat, n: nat, flags: set<Flag>)
    requires SetsPerms(t, r, base, n * PAGE, flags) && base % PAGE == 0
    requires if base + n * PAGE == 0 then u == r
             else InRange(t.levels, base + n * PAGE)
                  && SetsPage(r, u, base + n * PAGE, Entry(Means(r, base + n * PAGE).addr, flags * LeafLevel(t).flags))
    ensures SetsPerms(t, u, base, (n + 1) * PAGE, flags)
  {
    hide Means, Inv, Chain, Permitted;
    ChainIs(t.levels);
    forall va | InRange(t.levels, va)
      ensures Means(u, va) == Permitted(LeafLevel(t), Means(t, va), base, (n + 1) * PAGE, flags, va)
    {
      PermittedMore(LeafLevel(t), Means(t, va), base, n, flags, va);
      if SamePage(base + n * PAGE, va) && base + n * PAGE != 0 {
        MeansPage(t, va, base + n * PAGE);
        MeansPage(r, va, base + n * PAGE);
      }
    }
  }

  lemma PermittedMore(l: Level, e: Entry, base: nat, n: nat, flags: set<Flag>, va: nat)
    requires base % PAGE == 0
    ensures var before := Permitted(l, e, base, n * PAGE, flags, va);
            && Permitted(l, e, base, (n + 1) * PAGE, flags, va) ==
               (if SamePage(base + n * PAGE, va) && base + n * PAGE != 0
                then Entry(before.addr, flags * l.flags) else before)
            && before.addr == e.addr
  {
  }

  lemma PageReach(t: Tree, base: nat, pages: nat, va: nat)
    requires Chain(t.levels) && base % PAGE == 0 && base <= va < base + pages * PAGE && va >= PAGE
    requires forall k | 0 <= k < pages && base + k * PAGE != 0 :: Reached(t, base + k * PAGE)
    ensures Reached(t, va)
  {
    hide Reach;
    var k := (va - base) / PAGE;
    assert SamePage(base + k * PAGE, va);
    var p, q := Path(t.levels, base + k * PAGE), Path(t.levels, va);
    forall d | 0 <= d < |t.levels| ensures p[d] == q[d] { SameIndex(t.levels, base + k * PAGE, va, d); }
    assert p == q;
  }
}
