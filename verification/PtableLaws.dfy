/**
  What the hardware makes of the page tables: an entry gives back the address and the flags it
  was made of, the tables above a page never take away a right that its own entry grants, and
  the tables fill the space set aside for them without a gap.
 */
module PtableLaws {
  import opened Common
  import opened PtableSpec

  // ---------- Entries ----------

  /** An entry keeps the whole pages of an address, modulo the limit, and the flags it supports. */
  lemma PackIs(l: Level, addr: nat, flags: set<Flag>)
    requires l.limit > 0
    ensures var e := Pack(l, addr, flags);
            && e.addr % PAGE == 0 && e.addr <= addr % l.limit < e.addr + PAGE
            && (forall f :: f in e.flags <==> f in flags && f in l.flags)
  {
    var a := addr % l.limit;
    assert a == a / PAGE * PAGE + a % PAGE;
  }

  /** Looking up a page that was mapped gives its physical page and its flags. */
  lemma MapRoundTrip(t: Tree, va: nat, pa: nat, flags: set<Flag>)
    requires Inv(t) && Allowed(t, MapOp(va, pa, flags))
    requires pa % PAGE == 0 && pa < LeafLevel(t).limit && flags <= LeafLevel(t).flags
    ensures Chain(t.levels) && Inv(Step(t, MapOp(va, pa, flags))) && Chain(Step(t, MapOp(va, pa, flags)).levels)
    ensures Means(Step(t, MapOp(va, pa, flags)), va) == Entry(pa, flags)
  {
    hide Inv, Step, Means;
    InvChain(t);
    MapMeans(t, va, pa, flags);
    KeptWhole(LeafLevel(t), pa);
    assert flags * LeafLevel(t).flags == flags;
    assert SamePage(va, va);
  }

  // ---------- The way down ----------

  /** The entries that lead to tables carry the flags P, RW and US and no others. */
  ghost predicate OpenAt(t: Tree, loc: Loc) {
    |Prefix(t, loc)| < |t.levels| - 1 ==>
      forall i | 0 <= i < |Entries(t, loc)| && Present(Entries(t, loc)[i]) :: Entries(t, loc)[i].flags == {P, RW, US}
  }

  ghost predicate Open(t: Tree) { OpenAt(t, Top) && forall a | a in t.tables :: OpenAt(t, At(a)) }

  lemma GrowOpen(t: Tree, loc: Loc, i: nat)
    requires CanGrow(t, loc, i) && Open(t)
    ensures Open(Grow(t, loc, i))
  {
    hide Inv, Grow, OpenAt;
    var r := Grow(t, loc, i);
    FreshGrow(t, loc, i);
    GrowLevels(t, loc, i);
    forall at: Loc | at.Top? || (at.addr in r.tables) ensures OpenAt(r, at) {
      if at == At(t.pos) {
        GrowIs(t, loc, i, loc);
        NewOpen(r, at);
      } else {
        GrowIs(t, loc, i, at);
        assert OpenAt(t, at);
        EntryOpen(t, r, at, loc, i);
      }
    }
  }

  lemma NewOpen(r: Tree, at: Loc)
    requires forall i | 0 <= i < |Entries(r, at)| :: Entries(r, at)[i] == ABSENT
    ensures OpenAt(r, at)
  {
  }

  lemma EntryOpen(t: Tree, r: Tree, at: Loc, loc: Loc, i: nat)
    requires OpenAt(t, at) && r.levels == t.levels && Prefix(r, at) == Prefix(t, at) && i < |Entries(t, loc)|
    requires Entries(r, at) == if at == loc then Entries(t, at)[i := Entry(t.pos, INT_FLAGS)] else Entries(t, at)
    ensures OpenAt(r, at)
  {
  }

  /** The tables lie one behind the other from `start` on, in the order they were made. */
  ghost predicate Filled(t: Tree, start: nat) {
    && t.pos == start + |t.tables| * PAGE
    && forall k: nat | k < |t.tables| :: start + k * PAGE in t.tables
  }

  lemma GrowFilled(t: Tree, loc: Loc, i: nat, start: nat)
    requires CanGrow(t, loc, i) && Filled(t, start)
    ensures Filled(Grow(t, loc, i), start)
  {
    hide Inv, Pack, Present, Fits;
    var r := Grow(t, loc, i);
    FreshGrow(t, loc, i);
    assert |r.tables.Keys| == |t.tables.Keys| + 1 && |r.tables| == |r.tables.Keys| && |t.tables| == |t.tables.Keys|;
    forall k: nat | k < |r.tables| ensures start + k * PAGE in r.tables {
      assert start + k * PAGE in r.tables.Keys <==> start + k * PAGE in t.tables || start + k * PAGE == t.pos;
    }
  }

  /** What growing one table keeps, every walk keeps. */
  lemma {:induction false} DescendFills(t: Tree, p: seq<nat>, d: nat, start: nat)
    requires Inv(t) && PathOk(t.levels, p) && d < |p| && CanWalk(t, p, d) && Open(t) && Filled(t, start)
    ensures Open(Descend(t, p, d)) && Filled(Descend(t, p, d), start)
    decreases d
  {
    hide Inv, Grow, Leaf, Lacks, Fits, Open, Filled, Reach;
    if Reach(t, p, d).Some? {
      DescendSame(t, p, d);
    } else if d > 0 {
      assert Room(t, d - 1);
      DescendFills(t, p, d - 1, start);
      DescendIs(t, p, d - 1);
      var r := Descend(t, p, d - 1);
      if Reach(r, p, d - 1).Some? && Lacks(r, Reach(r, p, d - 1).value, p[d - 1]) {
        LackingGrows(t, r, p, d);
        GrowOpen(r, Reach(r, p, d - 1).value, p[d - 1]);
        GrowFilled(r, Reach(r, p, d - 1).value, p[d - 1], start);
      }
    }
  }

  /** Leaf entries are not links. */
  lemma PutFills(t: Tree, va: nat, e: Entry, start: nat)
    requires Inv(t) && Chain(t.levels) && Open(t) && Filled(t, start)
    ensures Open(PutAt(t, va, e)) && Filled(PutAt(t, va, e), start)
  {
    hide Inv, Path, Reach, Put, Open, Filled, TableOk, Entries, Prefix;
    var p := Path(t.levels, va);
    PathFits(t.levels, va);
    ReachIs(t, p, |p| - 1);
    LongEnough(t);
    if Reach(t, p, |p| - 1).Some? {
      var loc := Reach(t, p, |p| - 1).value;
      if p[|p| - 1] < |Entries(t, loc)| {
        LeafOpen(t, loc, p[|p| - 1], e);
        LeafFilled(t, loc, p[|p| - 1], e, start);
      }
    }
  }

  lemma LeafOpen(t: Tree, loc: Loc, i: nat, e: Entry)
    requires Open(t) && loc.At? && loc.addr in t.tables && i < |Entries(t, loc)|
    requires |Prefix(t, loc)| == |t.levels| - 1
    ensures Open(Put(t, loc, i, e))
  {
    hide Present;
    var r := Put(t, loc, i, e);
    forall at: Loc | at.Top? || at.addr in t.tables ensures OpenAt(r, at) {
      assert OpenAt(t, at) && Prefix(r, at) == Prefix(t, at);
      assert at != loc ==> Entries(r, at) == Entries(t, at);
    }
  }

  lemma LeafFilled(t: Tree, loc: Loc, i: nat, e: Entry, start: nat)
    requires Filled(t, start) && loc.At? && loc.addr in t.tables && i < |Entries(t, loc)|
    ensures Filled(Put(t, loc, i, e), start)
  {
    var r := Put(t, loc, i, e);
    assert r.tables.Keys == t.tables.Keys;
    assert |r.tables| == |r.tables.Keys| && |t.tables| == |t.tables.Keys|;
  }

  lemma StepFills(t: Tree, op: Op, start: nat)
    requires Inv(t) && Allowed(t, op) && Open(t) && Filled(t, start)
    ensures Open(Step(t, op)) && Filled(Step(t, op), start)
  {
    hide Inv, Open, Filled, Descend, PutAt, Leaf, Path, Reach;
    InvChain(t);
    LevelOf(t, |t.levels| - 1);
    PathFits(t.levels, op.va);
    match op
    case MapOp(va, pa, flags) =>
      DescendFills(t, Path(t.levels, va), |t.levels| - 1, start);
      DescendIs(t, Path(t.levels, va), |t.levels| - 1);
      PutFills(Descend(t, Path(t.levels, va), |t.levels| - 1), va, Pack(LeafLevel(t), pa, flags), start);
    case ReserveOp(va) => DescendFills(t, Path(t.levels, va), |t.levels| - 1, start);
    case PermsOp(va, flags) => PutFills(t, va, Pack(LeafLevel(t), Means(t, va).addr, flags), start);
  }

  /** Over every run the links stay open, and the tables fill their space without a gap. */
  lemma {:induction false} EveryRunFills(t: Tree, ops: seq<Op>, start: nat)
    requires Inv(t) && RunAllowed(t, ops) && Open(t) && Filled(t, start)
    ensures Open(Run(t, ops)) && Filled(Run(t, ops), start)
    decreases |ops|
  {
    hide Inv, Means, Step, Allowed, Open, Filled;
    if ops != [] {
      AllowedIs(t, ops[0]);
      StepMeans(t, ops[0], ops[0].va);
      StepFills(t, ops[0], start);
      EveryRunFills(Step(t, ops[0]), ops[1..], start);
    }
  }

  lemma AllowedIs(t: Tree, op: Op)
    requires Allowed(t, op)
    ensures t.levels != [] && InRange(t.levels, op.va)
  {
  }

  lemma EmptyFills(levels: seq<Level>, start: nat)
    requires Chain(levels)
    ensures Open(Empty(levels, start)) && Filled(Empty(levels, start), start)
  {
  }

  /** Every entry on the way to a leaf table allows writing and user access, so that what may
      be done with a page is what its own entry says. */
  lemma {:induction false} LeafDecides(t: Tree, p: seq<nat>, d: nat)
    requires Inv(t) && Open(t) && PathOk(t.levels, p) && d < |p| - 1 && Reach(t, p, |p| - 1).Some?
    ensures Reach(t, p, d).Some?
    ensures var entries := Entries(t, Reach(t, p, d).value);
            p[d] < |entries| && Present(entries[p[d]]) && entries[p[d]].flags == {P, RW, US}
  {
    hide Inv, Present;
    ReachDown(t, p, d + 1, |p| - 1);
    ReachIs(t, p, d);
    assert OpenAt(t, Reach(t, p, d).value);
  }

  lemma {:induction false} ReachDown(t: Tree, p: seq<nat>, d: nat, k: nat)
    requires d <= k < |p| == |t.levels| && Reach(t, p, k).Some?
    ensures Reach(t, p, d).Some?
    decreases k
  {
    if d < k { ReachDown(t, p, d, k - 1); }
  }

  /** After mapping or reserving a page its leaf table exists. */
  lemma StepReaches(t: Tree, op: Op)
    requires Inv(t) && Allowed(t, op)
    ensures Chain(Step(t, op).levels) && Reached(Step(t, op), op.va)
  {
    hide Inv, Descend, Leaf, Path, Put, Reach;
    InvChain(t);
    PathFits(t.levels, op.va);
    var p := Path(t.levels, op.va);
    if op.PermsOp? {
      PutAtReaches(t, op.va, Step(t, op));
    } else {
      DescendIs(t, p, |t.levels| - 1);
      if op.MapOp? { PutAtReaches(Descend(t, p, |t.levels| - 1), op.va, Step(t, op)); }
    }
  }

  lemma PutAtReaches(t: Tree, va: nat, r: Tree)
    requires Inv(t) && Chain(t.levels) && Reached(t, va) && exists e :: r == PutAt(t, va, e)
    ensures r.levels == t.levels && Reached(r, va)
  {
    hide Inv, Path, Put, Reach;
    var e :| r == PutAt(t, va, e);
    var p := Path(t.levels, va);
    PathFits(t.levels, va);
    ReachIs(t, p, |p| - 1);
    LongEnough(t);
    var loc := Reach(t, p, |p| - 1).value;
    if p[|p| - 1] < |Entries(t, loc)| {
      PutLevels(t, loc, p[|p| - 1], e);
      PutReach(t, loc, p[|p| - 1], e, p, |p| - 1);
    }
  }
}
