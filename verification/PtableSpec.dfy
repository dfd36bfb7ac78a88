/**
  The tree of x86 page tables as the build script lays it out: a top-level table and a
  dictionary from physical addresses to the tables below it. What the tree means is a flat
  map from virtual pages to leaf entries.

  A table below the top is found again at the address that its parent's entry holds.
  `owner` records which path of entries leads to each address.
 */
module PtableSpec {
  import opened Common

  datatype Flag = P | RW | US | CD | SZ | G | XD | IGN0 | IGN1 | IGN2

  /** `span` is the number of bytes that one entry of a table covers, `limit` bounds the
      addresses an entry can hold and `flags` are those it supports. */
  datatype Level = Level(span: nat, count: nat, limit: nat, flags: set<Flag>)

  /** An entry is an address and flags. `WordsSplit` justifies taking the two apart. */
  datatype Entry = Entry(addr: nat, flags: set<Flag>)

  const ABSENT := Entry(0, {})

  const INT_FLAGS: set<Flag> := {P, RW, US}

  const PAGE: nat := 4096

  const PML4: Level := Level(0x80_0000_0000, 512, 0x8000_0000_0000_0000, {P, RW, US})
  const PDPT: Level := Level(0x4000_0000, 512, 0x8000_0000_0000_0000, {P, RW, US, SZ, CD})
  const PDPT_PAE: Level := Level(0x4000_0000, 4, 0x8000_0000_0000_0000, {P, RW, US, SZ, CD})
  const PD: Level := Level(0x40_0000, 1024, 0x1_0000_0000, {P, RW, US, SZ, CD})
  const PD_XD: Level := Level(0x20_0000, 512, 0x8000_0000_0000_0000, {P, RW, US, SZ, CD})
  const PT: Level := Level(0x1000, 1024, 0x1_0000_0000, {P, RW, US, G, CD, IGN0, IGN1})
  const PT_XD: Level := Level(0x1000, 512, 0x0800_0000_0000_0000, {P, RW, US, G, XD, CD, IGN0, IGN1, IGN2})

  /** The three paging modes: 32-bit, PAE and IA-32e. */
  const LEVELS_32: seq<Level> := [PD, PT]
  const LEVELS_PAE: seq<Level> := [PDPT_PAE, PD_XD, PT_XD]
  const LEVELS_64: seq<Level> := [PML4, PDPT, PD_XD, PT_XD]

  // ---------- Entries ----------

  /** The part of an address that an entry keeps: whole pages below the limit. */
  function Kept(l: Level, addr: nat): nat
    requires l.limit > 0
  {
    addr % l.limit / PAGE * PAGE
  }

  function Pack(l: Level, addr: nat, flags: set<Flag>): Entry
    requires l.limit > 0
  {
    Entry(Kept(l, addr), flags * l.flags)
  }

  predicate Present(e: Entry) { P in e.flags }

  predicate LevelOk(l: Level) {
    l.count > 0 && l.span > 0 && l.limit > 0 && l.limit % PAGE == 0 && INT_FLAGS <= l.flags
  }

  /** A page-aligned address below the limit is kept as it is. */
  lemma KeptWhole(l: Level, addr: nat)
    requires l.limit > 0 && addr % PAGE == 0 && addr < l.limit
    ensures Kept(l, addr) == addr
  {
    assert addr % l.limit == addr;
  }

  /** Keeping the kept part again changes nothing. */
  lemma KeptTwice(l: Level, addr: nat)
    requires l.limit > 0
    ensures Kept(l, Kept(l, addr)) == Kept(l, addr)
  {
    var a := addr % l.limit;
    assert a == a / PAGE * PAGE + a % PAGE;
    KeptWhole(l, Kept(l, addr));
  }

  /** In a word that joins an address under a mask with flags under a disjoint mask, either
      part can be read back, whatever the other is. */
  lemma WordsSplit(mask: bv64, supported: bv64, addr: bv64, flags: bv64)
    requires mask & supported == 0
    ensures ((addr & mask) | (flags & supported)) & mask == addr & mask
    ensures ((addr & mask) | (flags & supported)) & supported == flags & supported
  {
  }

  /** The masks of every kind of table are disjoint from its flags. */
  lemma MasksDisjoint()
    ensures 0x7FFF_FFFF_FFFF_F000 & (0x97 as bv64) == 0 && 0xFFFF_F000 & (0x97 as bv64) == 0
    ensures 0xFFFF_F000 & (0x717 as bv64) == 0 && 0x07FF_FFFF_FFFF_F000 & (0x8000_0000_0000_0F17 as bv64) == 0
  {
  }

  // ---------- Levels and paths ----------

  ghost predicate Chain(levels: seq<Level>) {
    && |levels| >= 2 && (forall d | 0 <= d < |levels| :: LevelOk(levels[d]))
    && levels[|levels| - 1].span == PAGE
    && (forall d | 0 <= d < |levels| - 1 :: levels[d].span == levels[d + 1].span * levels[d + 1].count)
  }

  lemma ModesOk()
    ensures Chain(LEVELS_32) && Chain(LEVELS_PAE) && Chain(LEVELS_64)
  {
    assert LevelOk(PD) && LevelOk(PT) && LevelOk(PDPT_PAE) && LevelOk(PD_XD) && LevelOk(PT_XD) && LevelOk(PML4)
      && LevelOk(PDPT);
  }

  function EntryIndex(l: Level, va: nat): nat
    requires l.span > 0 && l.count > 0
  {
    va / l.span % l.count
  }

  ghost predicate InRange(levels: seq<Level>, va: nat)
    requires levels != []
  {
    va < levels[0].span * levels[0].count
  }

  ghost function Path(levels: seq<Level>, va: nat): (p: seq<nat>)
    requires Chain(levels)
    ensures |p| == |levels| && forall d | 0 <= d < |p| :: p[d] == EntryIndex(levels[d], va) < levels[d].count
  {
    seq(|levels|, d requires 0 <= d < |levels| => assert LevelOk(levels[d]); EntryIndex(levels[d], va))
  }

  lemma DivDiv(v: nat, s: nat, c: nat)
    requires s > 0 && c > 0
    ensures s * c > 0 && v / (s * c) == v / s / c
  {
    var q := v / s / c;
    var r := v / s % c;
    var t := v % s;
    assert v == (q * c + r) * s + t;
    assert v == q * (s * c) + (r * s + t) by {
      assert (q * c + r) * s == q * c * s + r * s;
      assert q * c * s == q * (s * c);
    }
    Small(r, c, s, t);
    DivUnique(v, s * c, q, r * s + t);
  }

  lemma Small(r: nat, c: nat, s: nat, t: nat)
    requires r < c && t < s
    ensures r * s + t < s * c
  {
    assert (r + 1) * s <= c * s;
    assert (r + 1) * s == r * s + s;
  }

  lemma DivUnique(v: nat, b: nat, q: nat, r: nat)
    requires b > 0 && v == q * b + r && r < b
    ensures v / b == q
  {
    var q2, r2 := v / b, v % b;
    assert v == q2 * b + r2;
    assert (q - q2) * b == q * b - q2 * b;
    MulAtLeast(q - q2, b);
  }

  lemma MulAtLeast(d: int, b: nat)
    requires b > 0
    ensures d >= 1 ==> d * b >= b
    ensures d <= -1 ==> d * b + b <= 0
  {
  }

  /** Different pages in range have different paths. */
  lemma {:induction false} PathInjective(levels: seq<Level>, va: nat, vb: nat, d: nat)
    requires Chain(levels) && InRange(levels, va) && InRange(levels, vb) && Path(levels, va) == Path(levels, vb)
    requires d < |levels|
    ensures levels[d].span > 0 && va / levels[d].span == vb / levels[d].span
    decreases d
  {
    var l := levels[d];
    assert LevelOk(l);
    assert Path(levels, va)[d] == Path(levels, vb)[d];
    if d == 0 {
      TopIndex(l.span, l.count, va);
      TopIndex(l.span, l.count, vb);
    } else {
      PathInjective(levels, va, vb, d - 1);
      assert levels[d - 1].span == l.span * l.count;
      SameQuotient(va, vb, l.span, l.count);
    }
  }

  lemma SameQuotient(va: nat, vb: nat, s: nat, c: nat)
    requires s > 0 && c > 0 && s * c > 0 && va / (s * c) == vb / (s * c) && va / s % c == vb / s % c
    ensures va / s == vb / s
  {
    DivDiv(va, s, c);
    DivDiv(vb, s, c);
    var a, b := va / s, vb / s;
    assert a == a / c * c + a % c;
    assert b == b / c * c + b % c;
  }

  lemma TopIndex(span: nat, count: nat, va: nat)
    requires span > 0 && count > 0 && va < span * count
    ensures va / span % count == va / span
  {
    DivDiv(va, span, count);
    DivUnique(va, span * count, 0, va);
    var q := va / span;
    assert q == q / count * count + q % count;
  }

  // ---------- The tree ----------

  datatype Tree = Tree(
    levels: seq<Level>, top: seq<Entry>, tables: map<nat, seq<Entry>>, pos: nat, owner: map<nat, seq<nat>>)

  datatype Loc = Top | At(addr: nat)

  function Entries(t: Tree, loc: Loc): seq<Entry> {
    match loc
    case Top => t.top
    case At(a) => if a in t.tables then t.tables[a] else []
  }

  function Prefix(t: Tree, loc: Loc): seq<nat> {
    match loc
    case Top => []
    case At(a) => if a in t.owner then t.owner[a] else []
  }

  /** An entry that is present leads to the table that its path belongs to; any other is empty. */
  ghost predicate LinkOk(t: Tree, loc: Loc, i: nat)
    requires |Prefix(t, loc)| < |t.levels| && i < |Entries(t, loc)|
  {
    var e := Entries(t, loc)[i];
    if Present(e) then e.addr in t.tables && e.addr in t.owner && t.owner[e.addr] == Prefix(t, loc) + [i]
    else e == ABSENT
  }

  ghost predicate TableOk(t: Tree, loc: Loc) {
    var d := |Prefix(t, loc)|;
    && d < |t.levels| && |Entries(t, loc)| == t.levels[d].count
    && (d < |t.levels| - 1 ==> forall i | 0 <= i < |Entries(t, loc)| :: LinkOk(t, loc, i))
    && (d == |t.levels| - 1 ==> forall i | 0 <= i < |Entries(t, loc)| :: Whole(t.levels[d], Entries(t, loc)[i]))
  }

  /** A leaf entry holds an address that the table can hold. */
  predicate Whole(l: Level, e: Entry) { l.limit > 0 && Kept(l, e.addr) == e.addr && e.flags <= l.flags }

  ghost predicate Inv(t: Tree) {
    && Chain(t.levels) && t.tables.Keys == t.owner.Keys
    && TableOk(t, Top)
    && (forall a | a in t.tables :: t.owner[a] != [] && TableOk(t, At(a)) && 0 < a < t.pos)
    && t.pos > 0
  }

  function Empty(levels: seq<Level>, start: nat): Tree
    requires levels != []
  {
    Tree(levels, Zeroes(levels[0].count), map[], start, map[])
  }

  function Zeroes(n: nat): (s: seq<Entry>)
    ensures |s| == n && forall i | 0 <= i < n :: s[i] == ABSENT
  {
    seq(n, _ => ABSENT)
  }

  lemma EmptyOk(levels: seq<Level>, start: nat)
    requires Chain(levels) && start > 0
    ensures Inv(Empty(levels, start))
  {
  }

  ghost predicate PathOk(levels: seq<Level>, p: seq<nat>) {
    |p| == |levels| && forall d | 0 <= d < |p| :: p[d] < levels[d].count
  }

  /** The table at a depth on a path, if the tables down to it exist. */
  ghost function Reach(t: Tree, p: seq<nat>, d: nat): Option<Loc>
    requires d < |t.levels| == |p|
  {
    if d == 0 then Some(Top)
    else match Reach(t, p, d - 1)
         case None => None
         case Some(loc) =>
           if p[d - 1] < |Entries(t, loc)| && Present(Entries(t, loc)[p[d - 1]])
           then Some(At(Entries(t, loc)[p[d - 1]].addr))
           else None
  }

  /** What the tree means: the leaf entry of a path, and an absent one where there is no leaf table. */
  ghost function Leaf(t: Tree, p: seq<nat>): Entry
    requires |t.levels| == |p| > 0
  {
    match Reach(t, p, |p| - 1)
    case None => ABSENT
    case Some(loc) => if p[|p| - 1] < |Entries(t, loc)| then Entries(t, loc)[p[|p| - 1]] else ABSENT
  }

  lemma {:induction false} ReachIs(t: Tree, p: seq<nat>, d: nat)
    requires Inv(t) && PathOk(t.levels, p) && d < |p|
    ensures Reach(t, p, d).Some? ==>
              var loc := Reach(t, p, d).value;
              Prefix(t, loc) == p[..d] && TableOk(t, loc) && (loc.At? ==> loc.addr in t.tables)
              && (loc.Top? <==> d == 0)
  {
    hide Present, Inv, Entries, Prefix;
    if d == 0 {
      TopOk(t);
    } else {
      ReachIs(t, p, d - 1);
      if Reach(t, p, d).Some? {
        var up := Reach(t, p, d - 1).value;
        LinkIs(t, up, p[d - 1]);
        assert p[..d] == p[..d - 1] + [p[d - 1]];
      }
    }
  }

  lemma TopOk(t: Tree)
    requires Inv(t)
    ensures TableOk(t, Top) && Prefix(t, Top) == []
  {
  }

  lemma LinkIs(t: Tree, up: Loc, i: nat)
    requires Inv(t) && TableOk(t, up) && |Prefix(t, up)| < |t.levels| - 1 && i < |Entries(t, up)|
             && Present(Entries(t, up)[i])
    ensures var a := Entries(t, up)[i].addr;
            a in t.tables && Prefix(t, At(a)) == Prefix(t, up) + [i] && TableOk(t, At(a))
  {
    assert LinkOk(t, up, i);
  }

  // ---------- Changes ----------

  function Put(t: Tree, loc: Loc, i: nat, e: Entry): Tree
    requires i < |Entries(t, loc)|
  {
    match loc
    case Top => t.(top := t.top[i := e])
    case At(a) => t.(tables := t.tables[a := t.tables[a][i := e]])
  }

  /** A new empty table, linked from entry `i` of the table at `loc`. */
  function Grow(t: Tree, loc: Loc, i: nat): Tree
    requires i < |Entries(t, loc)| && |Prefix(t, loc)| + 1 < |t.levels| && t.levels[|Prefix(t, loc)|].limit > 0
  {
    var d := |Prefix(t, loc)|;
    var r := Put(t, loc, i, Pack(t.levels[d], t.pos, INT_FLAGS));
    r.(tables := r.tables[t.pos := Zeroes(t.levels[d + 1].count)],
       owner := r.owner[t.pos := Prefix(t, loc) + [i]],
       pos := t.pos + PAGE)
  }

  /** The next table address is one that a table entry can hold. */
  ghost predicate Fits(levels: seq<Level>, a: nat) {
    a % PAGE == 0 && forall d | 0 <= d < |levels| - 1 :: a < levels[d].limit
  }

  ghost predicate CanGrow(t: Tree, loc: Loc, i: nat) {
    && Inv(t) && |Prefix(t, loc)| < |t.levels| && t.levels[|Prefix(t, loc)|].limit > 0
    && (loc.At? ==> loc.addr in t.tables) && |Prefix(t, loc)| + 1 < |t.levels| && i < |Entries(t, loc)|
    && !Present(Entries(t, loc)[i]) && Fits(t.levels, t.pos)
  }

  lemma Fresh(t: Tree)
    requires Inv(t)
    ensures t.pos !in t.tables && t.pos !in t.owner
  {
  }

  lemma GrowEntry(t: Tree, loc: Loc, i: nat)
    requires CanGrow(t, loc, i)
    ensures t.levels[|Prefix(t, loc)|].limit > 0
            && Pack(t.levels[|Prefix(t, loc)|], t.pos, INT_FLAGS) == Entry(t.pos, INT_FLAGS)
  {
    var l := t.levels[|Prefix(t, loc)|];
    assert LevelOk(l);
    KeptWhole(l, t.pos);
  }

  /** Growing changes one entry, adds one table, and nothing else. */
  lemma GrowIs(t: Tree, loc: Loc, i: nat, at: Loc)
    requires CanGrow(t, loc, i) && (at.At? ==> at.addr in t.tables)
    ensures var r := Grow(t, loc, i);
            && Prefix(r, at) == Prefix(t, at) && |Entries(r, at)| == |Entries(t, at)|
            && (at != loc ==> Entries(r, at) == Entries(t, at))
            && (at == loc ==> Entries(r, at) == Entries(t, at)[i := Entry(t.pos, INT_FLAGS)])
            && Prefix(r, At(t.pos)) == Prefix(t, loc) + [i]
            && Entries(r, At(t.pos)) == Zeroes(t.levels[|Prefix(t, loc)| + 1].count)
  {
    hide Pack, Present;
    Fresh(t);
    GrowEntry(t, loc, i);
  }

  lemma GrowTable(t: Tree, loc: Loc, i: nat, at: Loc)
    requires CanGrow(t, loc, i) && (at.At? ==> at.addr in t.tables) && TableOk(t, at)
    ensures TableOk(Grow(t, loc, i), at)
  {
    hide Pack, Present, Inv;
    var r := Grow(t, loc, i);
    GrowIs(t, loc, i, at);
    GrowEntry(t, loc, i);
    LinkPresent(t.pos);
    FreshGrow(t, loc, i);
    if |Prefix(t, at)| < |t.levels| - 1 {
      forall k | 0 <= k < |Entries(r, at)| ensures LinkOk(r, at, k) { assert LinkOk(t, at, k); }
    }
  }

  lemma LevelOf(t: Tree, d: nat)
    requires Inv(t) && d < |t.levels|
    ensures LevelOk(t.levels[d])
  {
  }

  lemma LinkPresent(a: nat)
    ensures Present(Entry(a, INT_FLAGS))
  {
  }

  lemma FreshGrow(t: Tree, loc: Loc, i: nat)
    requires CanGrow(t, loc, i)
    ensures t.pos !in t.tables && t.pos !in t.owner && t.tables.Keys == t.owner.Keys
    ensures var r := Grow(t, loc, i); r.tables.Keys == t.tables.Keys + {t.pos} && r.owner.Keys == t.owner.Keys + {t.pos}
  {
    hide Pack, Present;
    Fresh(t);
  }

  lemma GrowKeeps(t: Tree, loc: Loc, i: nat)
    requires CanGrow(t, loc, i)
    ensures Inv(Grow(t, loc, i))
  {
    hide Pack, Present, TableOk, LinkOk;
    var r := Grow(t, loc, i);
    FreshGrow(t, loc, i);
    GrowTable(t, loc, i, Top);
    forall a | a in r.tables ensures r.owner[a] != [] && TableOk(r, At(a)) && 0 < a < r.pos {
      if a == t.pos {
        NewTableOk(t, loc, i);
      } else {
        assert TableOk(t, At(a));
        GrowTable(t, loc, i, At(a));
      }
    }
  }

  lemma NewTableOk(t: Tree, loc: Loc, i: nat)
    requires CanGrow(t, loc, i)
    ensures TableOk(Grow(t, loc, i), At(t.pos))
  {
    hide Pack, Inv;
    var r := Grow(t, loc, i);
    GrowIs(t, loc, i, loc);
    LevelOf(t, |Prefix(t, loc)| + 1);
    KeptWhole(t.levels[|Prefix(t, loc)| + 1], 0);
  }

  /** A path reaches the same tables after growing, and possibly the new one. */
  lemma {:induction false} GrowReach(t: Tree, loc: Loc, i: nat, p: seq<nat>, d: nat)
    requires CanGrow(t, loc, i) && PathOk(t.levels, p) && d < |p|
    ensures Reach(t, p, d).Some? ==> Reach(Grow(t, loc, i), p, d) == Reach(t, p, d)
    ensures Reach(t, p, d).None? ==>
              Reach(Grow(t, loc, i), p, d).None?
              || (Reach(Grow(t, loc, i), p, d) == Some(At(t.pos)) && d == |Prefix(t, loc)| + 1)
  {
    hide Present, Inv, Grow, Entries, Prefix, Fits;
    var r := Grow(t, loc, i);
    GrowLevels(t, loc, i);
    if d > 0 {
      GrowReach(t, loc, i, p, d - 1);
      ReachOf(t, p, d - 1);
      if Reach(t, p, d - 1).Some? {
        var up := Reach(t, p, d - 1).value;
        GrowIs(t, loc, i, up);
        GrowEntry(t, loc, i);
        DepthOf(t, loc, i);
      } else {
        GrowIs(t, loc, i, loc);
        NoDeeper(r, p, d, t.pos);
      }
    }
  }

  lemma GrowLevels(t: Tree, loc: Loc, i: nat)
    requires CanGrow(t, loc, i)
    ensures Grow(t, loc, i).levels == t.levels && Grow(t, loc, i).pos == t.pos + PAGE
  {
  }

  lemma ReachOf(t: Tree, p: seq<nat>, d: nat)
    requires Inv(t) && PathOk(t.levels, p) && d < |p|
    ensures Reach(t, p, d).Some? ==>
              var loc := Reach(t, p, d).value; |Prefix(t, loc)| == d && (loc.At? ==> loc.addr in t.tables)
  {
    ReachIs(t, p, d);
  }

  lemma DepthOf(t: Tree, loc: Loc, i: nat)
    requires CanGrow(t, loc, i)
    ensures Inv(t) && !Present(Entries(t, loc)[i])
  {
  }

  /** Growing the tree changes no leaf entry. */
  lemma GrowLeaf(t: Tree, loc: Loc, i: nat, p: seq<nat>)
    requires CanGrow(t, loc, i) && PathOk(t.levels, p) && p != []
    ensures Leaf(Grow(t, loc, i), p) == Leaf(t, p)
  {
    hide Pack, Present, Inv;
    var d := |p| - 1;
    GrowReach(t, loc, i, p, d);
    ReachOf(t, p, d);
    GrowIs(t, loc, i, loc);
    if Reach(t, p, d).Some? { GrowIs(t, loc, i, Reach(t, p, d).value); }
  }

  lemma GrowArrives(t: Tree, p: seq<nat>, d: nat)
    requires Inv(t) && PathOk(t.levels, p) && d + 1 < |p| && Reach(t, p, d).Some?
    requires CanGrow(t, Reach(t, p, d).value, p[d])
    ensures Reach(Grow(t, Reach(t, p, d).value, p[d]), p, d + 1) == Some(At(t.pos))
  {
    hide Inv;
    var loc := Reach(t, p, d).value;
    var r := Grow(t, loc, p[d]);
    GrowReach(t, loc, p[d], p, d);
    ReachOf(t, p, d);
    GrowIs(t, loc, p[d], loc);
    assert Present(Entry(t.pos, INT_FLAGS));
  }

  lemma NoDeeper(t: Tree, p: seq<nat>, d: nat, a: nat)
    requires 0 < d < |t.levels| == |p|
    requires forall i | 0 <= i < |Entries(t, At(a))| :: Entries(t, At(a))[i] == ABSENT
    ensures Reach(t, p, d - 1).None? || Reach(t, p, d - 1) == Some(At(a)) ==> Reach(t, p, d).None?
  {
  }

  /** The tables down to a depth on a path, created where they are missing. */
  ghost function Descend(t: Tree, p: seq<nat>, d: nat): (r: Tree)
    requires d < |p| == |t.levels|
    ensures r.levels == t.levels
    decreases d
  {
    if d == 0 then t
    else
      var r := Descend(t, p, d - 1);
      if Reach(r, p, d - 1).Some? && Lacks(r, Reach(r, p, d - 1).value, p[d - 1])
      then Grow(r, Reach(r, p, d - 1).value, p[d - 1])
      else r
  }

  predicate Lacks(t: Tree, loc: Loc, i: nat) {
    i < |Entries(t, loc)| && |Prefix(t, loc)| + 1 < |t.levels| && t.levels[|Prefix(t, loc)|].limit > 0
    && !Present(Entries(t, loc)[i])
  }

  /** Enough addresses for the tables a path may need. */
  ghost predicate Room(t: Tree, n: nat) {
    forall k: nat | k < n :: Fits(t.levels, t.pos + k * PAGE)
  }

  /** The state on the way down: same meaning, and at most one new table per level. */
  ghost predicate OnTheWay(t: Tree, r: Tree, p: seq<nat>, d: nat)
    requires d < |p| == |t.levels| == |r.levels|
  {
    && Inv(r) && r.levels == t.levels && Reach(r, p, d).Some?
    && (exists k: nat :: k <= d && r.pos == t.pos + k * PAGE)
    && (forall q | PathOk(t.levels, q) && q != [] :: Leaf(r, q) == Leaf(t, q))
  }

  /** A walk needs room only for tables that are not there yet. */
  ghost predicate CanWalk(t: Tree, p: seq<nat>, d: nat)
    requires d < |p| == |t.levels|
  {
    Room(t, d) || Reach(t, p, d).Some?
  }

  lemma DescendIs(t: Tree, p: seq<nat>, d: nat)
    requires Inv(t) && PathOk(t.levels, p) && d < |p| && CanWalk(t, p, d)
    ensures OnTheWay(t, Descend(t, p, d), p, d)
    ensures Reach(t, p, d).Some? ==> Descend(t, p, d) == t
  {
    hide Inv, Descend, Leaf, Reach, Room;
    if Reach(t, p, d).Some? {
      DescendSame(t, p, d);
      assert t.pos == t.pos + 0 * PAGE;
    } else {
      DescendInRoom(t, p, d);
    }
  }

  lemma {:induction false} DescendSame(t: Tree, p: seq<nat>, d: nat)
    requires Inv(t) && PathOk(t.levels, p) && d < |p| && Reach(t, p, d).Some?
    ensures Descend(t, p, d) == t
    decreases d
  {
    hide Inv, Grow, Leaf;
    if d > 0 {
      DescendSame(t, p, d - 1);
      ReachIs(t, p, d - 1);
      NoTableAtZero(t);
      assert LinkOk(t, Reach(t, p, d - 1).value, p[d - 1]);
    }
  }

  lemma NoTableAtZero(t: Tree)
    requires Inv(t)
    ensures 0 !in t.tables && |t.levels| >= 2
  {
  }

  lemma {:induction false} DescendInRoom(t: Tree, p: seq<nat>, d: nat)
    requires Inv(t) && PathOk(t.levels, p) && d < |p| && Room(t, d)
    ensures OnTheWay(t, Descend(t, p, d), p, d)
    decreases d
  {
    hide Inv, Grow, Leaf, Lacks, Fits;
    if d == 0 {
      assert t.pos == t.pos + 0 * PAGE;
    } else {
      assert Room(t, d - 1);
      DescendInRoom(t, p, d - 1);
      var r := Descend(t, p, d - 1);
      var loc := Reach(r, p, d - 1).value;
      if Lacks(r, loc, p[d - 1]) {
        DescendGrow(t, r, p, d);
      } else {
        NotLacking(r, p, d);
      }
    }
  }

  lemma NotLacking(r: Tree, p: seq<nat>, d: nat)
    requires Inv(r) && PathOk(r.levels, p) && 0 < d < |p| && Reach(r, p, d - 1).Some?
             && !Lacks(r, Reach(r, p, d - 1).value, p[d - 1])
    ensures Reach(r, p, d).Some?
  {
    ReachIs(r, p, d - 1);
    assert LevelOk(r.levels[d - 1]);
  }

  lemma LackingGrows(t: Tree, r: Tree, p: seq<nat>, d: nat)
    requires Inv(r) && PathOk(r.levels, p) && 0 < d < |p| && Reach(r, p, d - 1).Some? && r.levels == t.levels
             && Room(t, d)
    requires (exists k: nat :: k <= d - 1 && r.pos == t.pos + k * PAGE) && Lacks(r, Reach(r, p, d - 1).value, p[d - 1])
    ensures CanGrow(r, Reach(r, p, d - 1).value, p[d - 1])
  {
    hide Fits;
    ReachIs(r, p, d - 1);
    var k: nat :| k <= d - 1 && r.pos == t.pos + k * PAGE;
    assert Fits(t.levels, t.pos + k * PAGE);
  }

  lemma DescendGrow(t: Tree, r: Tree, p: seq<nat>, d: nat)
    requires PathOk(t.levels, p) && 0 < d < |p| && |r.levels| == |p| && OnTheWay(t, r, p, d - 1) && Room(t, d)
    requires Lacks(r, Reach(r, p, d - 1).value, p[d - 1])
    ensures OnTheWay(t, Grow(r, Reach(r, p, d - 1).value, p[d - 1]), p, d)
  {
    hide Inv, Leaf, Lacks, Fits, CanGrow, Grow, Reach, Room, Prefix, Entries;
    var loc := Reach(r, p, d - 1).value;
    LackingGrows(t, r, p, d);
    LacksIs(r, loc, p[d - 1]);
    var g := Grow(r, loc, p[d - 1]);
    GrowLevels(r, loc, p[d - 1]);
    GrowKeeps(r, loc, p[d - 1]);
    GrowArrives(r, p, d - 1);
    var k: nat :| k <= d - 1 && r.pos == t.pos + k * PAGE;
    assert g.pos == t.pos + (k + 1) * PAGE;
    forall q | PathOk(t.levels, q) && q != [] ensures Leaf(g, q) == Leaf(t, q) { GrowLeaf(r, loc, p[d - 1], q); }
  }

  lemma LacksIs(t: Tree, loc: Loc, i: nat)
    requires Lacks(t, loc, i)
    ensures i < |Entries(t, loc)| && |Prefix(t, loc)| + 1 < |t.levels| && t.levels[|Prefix(t, loc)|].limit > 0
  {
  }

  // ---------- Leaf entries ----------

  /** Writing the leaf entry of a path changes what that path means and no other. */
  lemma PutLeaf(t: Tree, p: seq<nat>, e: Entry)
    requires Inv(t) && PathOk(t.levels, p) && p != [] && Reach(t, p, |p| - 1).Some? && Whole(t.levels[|p| - 1], e)
    ensures p[|p| - 1] < |Entries(t, Reach(t, p, |p| - 1).value)|
    ensures var r := Put(t, Reach(t, p, |p| - 1).value, p[|p| - 1], e);
            Inv(r) && forall q | PathOk(t.levels, q) :: Leaf(r, q) == if q == p then e else Leaf(t, q)
  {
    hide Inv;
    var d := |p| - 1;
    ReachIs(t, p, d);
    LongEnough(t);
    var loc := Reach(t, p, d).value;
    PutKeeps(t, loc, p[d], e);
    forall q | PathOk(t.levels, q) ensures Leaf(Put(t, loc, p[d], e), q) == if q == p then e else Leaf(t, q) {
      PutMeans(t, p, e, q);
    }
  }

  lemma LongEnough(t: Tree)
    requires Inv(t)
    ensures |t.levels| >= 2 && t.tables.Keys == t.owner.Keys
  {
  }

  lemma PutKeeps(t: Tree, loc: Loc, i: nat, e: Entry)
    requires Inv(t) && loc.At? && loc.addr in t.tables && |Prefix(t, loc)| == |t.levels| - 1 && i < |Entries(t, loc)|
    requires Whole(t.levels[|t.levels| - 1], e)
    ensures Inv(Put(t, loc, i, e))
  {
    hide Present, TableOk;
    var r := Put(t, loc, i, e);
    PutTable(t, loc, i, e, Top);
    forall a | a in r.tables ensures r.owner[a] != [] && TableOk(r, At(a)) && 0 < a < r.pos {
      assert TableOk(t, At(a));
      PutTable(t, loc, i, e, At(a));
    }
  }

  lemma PutTable(t: Tree, loc: Loc, i: nat, e: Entry, at: Loc)
    requires loc.At? && loc.addr in t.tables && |Prefix(t, loc)| == |t.levels| - 1 && i < |Entries(t, loc)|
    requires TableOk(t, at) && (at.At? ==> at.addr in t.tables) && Whole(t.levels[|t.levels| - 1], e)
    ensures TableOk(Put(t, loc, i, e), at)
  {
    hide Present;
    var r := Put(t, loc, i, e);
    if |Prefix(t, at)| < |t.levels| - 1 {
      forall k | 0 <= k < |Entries(r, at)| ensures LinkOk(r, at, k) { assert LinkOk(t, at, k); }
    }
  }

  lemma {:induction false} PutReach(t: Tree, loc: Loc, i: nat, e: Entry, q: seq<nat>, d: nat)
    requires Inv(t) && PathOk(t.levels, q) && d < |q|
    requires loc.At? && loc.addr in t.tables && |Prefix(t, loc)| == |t.levels| - 1 && i < |Entries(t, loc)|
    ensures Reach(Put(t, loc, i, e), q, d) == Reach(t, q, d)
    decreases d
  {
    hide Inv, Present;
    if d > 0 {
      PutReach(t, loc, i, e, q, d - 1);
      ReachOf(t, q, d - 1);
    }
  }

  lemma PutEntries(t: Tree, loc: Loc, i: nat, e: Entry, at: Loc)
    requires i < |Entries(t, loc)| && (at.At? ==> at.addr in t.tables)
    ensures Entries(Put(t, loc, i, e), at) == if at == loc then Entries(t, at)[i := e] else Entries(t, at)
  {
  }

  lemma PutMeans(t: Tree, p: seq<nat>, e: Entry, q: seq<nat>)
    requires Inv(t) && PathOk(t.levels, p) && PathOk(t.levels, q) && |p| >= 2 && Reach(t, p, |p| - 1).Some?
    requires var loc := Reach(t, p, |p| - 1).value;
             loc.At? && loc.addr in t.tables && |Prefix(t, loc)| == |t.levels| - 1
    requires p[|p| - 1] < |Entries(t, Reach(t, p, |p| - 1).value)|
    ensures Leaf(Put(t, Reach(t, p, |p| - 1).value, p[|p| - 1], e), q) == if q == p then e else Leaf(t, q)
  {
    hide Inv, Reach, Put, Entries, Prefix, TableOk;
    var d := |p| - 1;
    var loc := Reach(t, p, d).value;
    var r := Put(t, loc, p[d], e);
    PutLevels(t, loc, p[d], e);
    PutReach(t, loc, p[d], e, q, d);
    ReachIs(t, p, d);
    ReachIs(t, q, d);
    if Reach(t, q, d).Some? {
      var at := Reach(t, q, d).value;
      PutEntries(t, loc, p[d], e, at);
      if at == loc {
        assert p == p[..d] + [p[d]] && q == q[..d] + [q[d]];
      } else {
        assert q != p;
      }
    } else {
      assert q != p;
    }
  }

  lemma PutLevels(t: Tree, loc: Loc, i: nat, e: Entry)
    requires i < |Entries(t, loc)|
    ensures Put(t, loc, i, e).levels == t.levels
  {
  }

  // ---------- What the operations mean ----------

  /** The leaf entry of a virtual address. */
  ghost function Means(t: Tree, va: nat): Entry
    requires Chain(t.levels)
  {
    Leaf(t, Path(t.levels, va))
  }

  function LeafLevel(t: Tree): Level
    requires t.levels != []
  {
    t.levels[|t.levels| - 1]
  }

  ghost predicate SamePage(va: nat, vb: nat) { va / PAGE == vb / PAGE }

  /** Two trees mean the same but for one page, which now has the entry `e`. */
  ghost predicate SetsPage(t: Tree, r: Tree, va: nat, e: Entry) {
    && Inv(t) && Inv(r) && r.levels == t.levels
    && forall vb | InRange(t.levels, vb) :: Means(r, vb) == if SamePage(va, vb) then e else Means(t, vb)
  }

  ghost predicate MeansSame(t: Tree, r: Tree) {
    Inv(t) && Inv(r) && r.levels == t.levels && forall vb | InRange(t.levels, vb) :: Means(r, vb) == Means(t, vb)
  }

  lemma SamePath(levels: seq<Level>, va: nat, vb: nat)
    requires Chain(levels) && InRange(levels, va) && InRange(levels, vb)
    ensures Path(levels, va) == Path(levels, vb) <==> SamePage(va, vb)
  {
    if Path(levels, va) == Path(levels, vb) { PathInjective(levels, va, vb, |levels| - 1); }
    if SamePage(va, vb) {
      forall d | 0 <= d < |levels|
        ensures EntryIndex(levels[d], va) == EntryIndex(levels[d], vb)
      {
        SameIndex(levels, va, vb, d);
      }
      assert Path(levels, va) == Path(levels, vb);
    }
  }

  /** Addresses of one page agree at every level. */
  lemma {:induction false} SameIndex(levels: seq<Level>, va: nat, vb: nat, d: nat)
    requires Chain(levels) && d < |levels| && SamePage(va, vb)
    ensures levels[d].span > 0 && levels[d].count > 0 && va / levels[d].span == vb / levels[d].span
    decreases |levels| - d
  {
    assert LevelOk(levels[d]);
    if d < |levels| - 1 {
      SameIndex(levels, va, vb, d + 1);
      DivDiv(va, levels[d + 1].span, levels[d + 1].count);
      DivDiv(vb, levels[d + 1].span, levels[d + 1].count);
    }
  }

  lemma PathFits(levels: seq<Level>, va: nat)
    requires Chain(levels)
    ensures PathOk(levels, Path(levels, va)) && Path(levels, va) != []
  {
  }

  lemma ReserveMeans(t: Tree, va: nat)
    requires Inv(t) && Chain(t.levels) && CanWalk(t, Path(t.levels, va), |t.levels| - 1)
    ensures MeansSame(t, Descend(t, Path(t.levels, va), |t.levels| - 1))
  {
    hide Inv, Leaf, Descend, Path;
    InvChain(t);
    PathFits(t.levels, va);
    DescendIs(t, Path(t.levels, va), |t.levels| - 1);
    forall vb | InRange(t.levels, vb)
      ensures Means(Descend(t, Path(t.levels, va), |t.levels| - 1), vb) == Means(t, vb)
    {
      PathFits(t.levels, vb);
    }
  }

  lemma InvChain(t: Tree)
    requires Inv(t)
    ensures Chain(t.levels)
  {
  }

  lemma PutPage(t: Tree, va: nat, e: Entry)
    requires Inv(t) && InRange(t.levels, va) && Whole(LeafLevel(t), e)
    requires Reach(t, Path(t.levels, va), |t.levels| - 1).Some?
    ensures var p := Path(t.levels, va); var loc := Reach(t, p, |p| - 1).value;
            p[|p| - 1] < |Entries(t, loc)| && SetsPage(t, Put(t, loc, p[|p| - 1], e), va, e)
  {
    hide Inv, Leaf, Path, Reach, Put;
    InvChain(t);
    var p := Path(t.levels, va);
    PathFits(t.levels, va);
    PutLeaf(t, p, e);
    var loc := Reach(t, p, |p| - 1).value;
    PutLevels(t, loc, p[|p| - 1], e);
    forall vb | InRange(t.levels, vb)
      ensures Means(Put(t, loc, p[|p| - 1], e), vb) == if SamePage(va, vb) then e else Means(t, vb)
    {
      PathFits(t.levels, vb);
      SamePath(t.levels, va, vb);
    }
  }

  datatype Op = MapOp(va: nat, pa: nat, flags: set<Flag>) | ReserveOp(va: nat) | PermsOp(va: nat, flags: set<Flag>)

  /** An operation on one page of a flat map. */
  function FlatStep(l: Level, e: Entry, op: Op, va: nat): Entry
    requires l.limit > 0
  {
    if op.va / PAGE != va / PAGE then e
    else match op
         case MapOp(_, pa, flags) => Pack(l, pa, flags)
         case ReserveOp(_) => e
         case PermsOp(_, flags) => Entry(e.addr, flags * l.flags)
  }

  function FlatRun(l: Level, e: Entry, ops: seq<Op>, va: nat): Entry
    requires l.limit > 0
    decreases |ops|
  {
    if ops == [] then e else FlatRun(l, FlatStep(l, e, ops[0], va), ops[1..], va)
  }

  ghost predicate Reached(t: Tree, va: nat)
    requires Chain(t.levels)
  {
    Reach(t, Path(t.levels, va), |t.levels| - 1).Some?
  }

  /** Permissions are only set where there is a leaf table. */
  ghost predicate Allowed(t: Tree, op: Op) {
    && Chain(t.levels) && InRange(t.levels, op.va)
    && (if op.PermsOp? then Reached(t, op.va) else CanWalk(t, Path(t.levels, op.va), |t.levels| - 1))
  }

  ghost function PutAt(t: Tree, va: nat, e: Entry): Tree
    requires Chain(t.levels)
  {
    var p := Path(t.levels, va);
    match Reach(t, p, |p| - 1)
    case None => t
    case Some(loc) => if p[|p| - 1] < |Entries(t, loc)| then Put(t, loc, p[|p| - 1], e) else t
  }

  ghost function Step(t: Tree, op: Op): Tree
    requires Inv(t) && Allowed(t, op)
  {
    match op
    case MapOp(va, pa, flags) =>
      LevelOf(t, |t.levels| - 1);
      PutAt(Descend(t, Path(t.levels, va), |t.levels| - 1), va, Pack(LeafLevel(t), pa, flags))
    case ReserveOp(va) => Descend(t, Path(t.levels, va), |t.levels| - 1)
    case PermsOp(va, flags) =>
      LevelOf(t, |t.levels| - 1);
      PutAt(t, va, Pack(LeafLevel(t), Means(t, va).addr, flags))
  }

  lemma PackWhole(l: Level, addr: nat, flags: set<Flag>)
    requires l.limit > 0
    ensures Whole(l, Pack(l, addr, flags))
  {
    KeptTwice(l, addr);
  }

  lemma MapMeans(t: Tree, va: nat, pa: nat, flags: set<Flag>)
    requires Inv(t) && Allowed(t, MapOp(va, pa, flags))
    ensures LeafLevel(t).limit > 0 && SetsPage(t, Step(t, MapOp(va, pa, flags)), va, Pack(LeafLevel(t), pa, flags))
  {
    hide Inv, Leaf, Descend, Path, Put, Whole;
    InvChain(t);
    LevelOf(t, |t.levels| - 1);
    var p := Path(t.levels, va);
    PathFits(t.levels, va);
    ReserveMeans(t, va);
    DescendIs(t, p, |t.levels| - 1);
    var r := Descend(t, p, |t.levels| - 1);
    PackWhole(LeafLevel(t), pa, flags);
    PutPage(r, va, Pack(LeafLevel(t), pa, flags));
  }

  /** Setting permissions keeps the physical address of the page. */
  lemma PermsMeans(t: Tree, va: nat, flags: set<Flag>)
    requires Inv(t) && Allowed(t, PermsOp(va, flags))
    ensures SetsPage(t, Step(t, PermsOp(va, flags)), va, Entry(Means(t, va).addr, flags * LeafLevel(t).flags))
  {
    hide Inv, Path, Put, Whole;
    InvChain(t);
    LevelOf(t, |t.levels| - 1);
    LeafWhole(t, va);
    PackWhole(LeafLevel(t), Means(t, va).addr, flags);
    PutPage(t, va, Pack(LeafLevel(t), Means(t, va).addr, flags));
  }

  lemma LeafWhole(t: Tree, va: nat)
    requires Inv(t) && Chain(t.levels) && InRange(t.levels, va)
    ensures LeafLevel(t).limit > 0 && Kept(LeafLevel(t), Means(t, va).addr) == Means(t, va).addr
  {
    hide Inv, Path, Kept;
    var p := Path(t.levels, va);
    PathFits(t.levels, va);
    ReachIs(t, p, |p| - 1);
    LevelOf(t, |t.levels| - 1);
    KeptWhole(LeafLevel(t), 0);
  }

  lemma StepMeans(t: Tree, op: Op, va: nat)
    requires Inv(t) && Allowed(t, op) && InRange(t.levels, va)
    ensures Inv(Step(t, op)) && Step(t, op).levels == t.levels && LeafLevel(t).limit > 0
    ensures Means(Step(t, op), va) == FlatStep(LeafLevel(t), Means(t, va), op, va)
  {
    hide Inv, Means, Step, Leaf;
    InvChain(t);
    LevelOf(t, |t.levels| - 1);
    match op
    case MapOp(v, pa, flags) => MapMeans(t, v, pa, flags);
    case ReserveOp(v) => ReserveMeans(t, v); ReserveStep(t, v);
    case PermsOp(v, flags) =>
      PermsMeans(t, v, flags);
      MeansPage(t, va, v);
  }

  lemma ReserveStep(t: Tree, va: nat)
    requires Inv(t) && Allowed(t, ReserveOp(va))
    ensures Step(t, ReserveOp(va)) == Descend(t, Path(t.levels, va), |t.levels| - 1)
  {
  }

  lemma MeansPage(t: Tree, va: nat, vb: nat)
    requires Chain(t.levels) && InRange(t.levels, va) && InRange(t.levels, vb)
    ensures SamePage(va, vb) ==> Means(t, va) == Means(t, vb)
  {
    SamePath(t.levels, va, vb);
  }

  ghost predicate RunAllowed(t: Tree, ops: seq<Op>)
    requires Inv(t)
    decreases |ops|
  {
    ops != [] ==> Allowed(t, ops[0]) && (StepMeans(t, ops[0], ops[0].va); RunAllowed(Step(t, ops[0]), ops[1..]))
  }

  ghost function Run(t: Tree, ops: seq<Op>): Tree
    requires Inv(t) && RunAllowed(t, ops)
    decreases |ops|
  {
    if ops == [] then t else (StepMeans(t, ops[0], ops[0].va); Run(Step(t, ops[0]), ops[1..]))
  }

  /** The tree refines a flat map: after every run of operations, walking the tables for an
      address gives what the operations on its own page left there. */
  lemma {:induction false} TreeIsFlatMap(t: Tree, ops: seq<Op>, va: nat)
    requires Inv(t) && RunAllowed(t, ops) && Chain(t.levels) && InRange(t.levels, va) && LeafLevel(t).limit > 0
    ensures var r := Run(t, ops);
            Inv(r) && r.levels == t.levels && Means(r, va) == FlatRun(LeafLevel(t), Means(t, va), ops, va)
    decreases |ops|
  {
    hide Inv, Means, Step, FlatStep, Allowed;
    if ops != [] {
      StepMeans(t, ops[0], va);
      TreeIsFlatMap(Step(t, ops[0]), ops[1..], va);
    }
  }

  /** Permission changes and reservations alone never move a page. */
  lemma {:induction false} PermsKeepAddress(l: Level, e: Entry, ops: seq<Op>, va: nat)
    requires l.limit > 0 && forall i | 0 <= i < |ops| :: !ops[i].MapOp?
    ensures FlatRun(l, e, ops, va).addr == e.addr
    decreases |ops|
  {
    if ops != [] { PermsKeepAddress(l, FlatStep(l, e, ops[0], va), ops[1..], va); }
  }
}
