/**
  The order in which modules are processed: a module comes after everything it depends on.
 */
module ModuleSort {
  import opened Common

  type Name = string

  /** Every module once, and each after its dependencies. */
  ghost predicate Ordered(names: seq<Name>, depends: map<Name, seq<Name>>, order: seq<Name>) {
    && NoDup(order) && (forall x :: x in order <==> x in names)
    && forall i, d | 0 <= i < |order| && order[i] in depends && d in depends[order[i]] :: d in order[..i]
  }

  ghost predicate NoRepeats(names: seq<Name>, depends: map<Name, seq<Name>>) {
    forall m | m in names && m in depends :: NoDup(depends[m])
  }

  ghost predicate Missing(names: seq<Name>, depends: map<Name, seq<Name>>) {
    exists m, d :: m in names && m in depends && d in depends[m] && d !in names
  }

  /** Modules of which each depends on another of them: somewhere among them is a cycle. */
  ghost predicate LoopSet(names: seq<Name>, depends: map<Name, seq<Name>>, c: set<Name>) {
    c != {} && forall m {:trigger Onward(names, depends, c, m)} | m in c :: Onward(names, depends, c, m)
  }

  ghost predicate Onward(names: seq<Name>, depends: map<Name, seq<Name>>, c: set<Name>, m: Name) {
    m in names && m in depends && exists d :: d in depends[m] && d in c
  }

  ghost predicate Looped(names: seq<Name>, depends: map<Name, seq<Name>>) { exists c :: LoopSet(names, depends, c) }

  /** A path of dependencies back to the module it starts from. */
  ghost predicate Cycle(names: seq<Name>, depends: map<Name, seq<Name>>, p: seq<Name>) {
    && |p| >= 2 && p[0] == p[|p| - 1]
    && forall i | 0 <= i < |p| - 1 :: p[i] in names && p[i] in depends && p[i + 1] in depends[p[i]]
  }

  /** Some module depends on itself, directly or through others. */
  ghost predicate Cyclic(names: seq<Name>, depends: map<Name, seq<Name>>) { exists p :: Cycle(names, depends, p) }

  ghost predicate Chain(depends: map<Name, seq<Name>>, p: seq<Name>) {
    forall i | 0 <= i < |p| - 1 :: p[i] in depends && p[i + 1] in depends[p[i]]
  }

  lemma NextIn(names: seq<Name>, depends: map<Name, seq<Name>>, c: set<Name>, m: Name) returns (d: Name)
    requires LoopSet(names, depends, c) && m in c
    ensures m in names && m in depends && d in depends[m] && d in c
  {
    assert Onward(names, depends, c, m);
    d :| d in depends[m] && d in c;
  }

  lemma LongerChain(depends: map<Name, seq<Name>>, path: seq<Name>, d: Name)
    requires path != [] && Chain(depends, path) && path[|path| - 1] in depends && d in depends[path[|path| - 1]]
    ensures Chain(depends, path + [d])
  {
    var more := path + [d];
    forall i | 0 <= i < |more| - 1 ensures more[i] in depends && more[i + 1] in depends[more[i]] {
      assert more[i] == path[i];
    }
  }

  lemma ClosedChain(names: seq<Name>, depends: map<Name, seq<Name>>, path: seq<Name>, k: nat)
    requires Chain(depends, path) && k < |path| - 1 && path[k] == path[|path| - 1] && forall x | x in path :: x in names
    ensures Cycle(names, depends, path[k..])
  {
    var p := path[k..];
    forall i | 0 <= i < |p| - 1 ensures p[i] in names && p[i] in depends && p[i + 1] in depends[p[i]] {
      assert p[i] == path[k + i] && p[i + 1] == path[k + i + 1];
    }
  }

  /** Following dependencies within a loop set comes back to a module seen before. */
  lemma {:induction false} FollowLoop(names: seq<Name>, depends: map<Name, seq<Name>>, c: set<Name>, path: seq<Name>)
    returns (p: seq<Name>)
    requires LoopSet(names, depends, c) && path != [] && Chain(depends, path)
    requires forall x | x in path :: x in c && x in names
    ensures Cycle(names, depends, p)
    decreases c - set x | x in path
  {
    hide LoopSet, Chain, Cycle;
    var last := path[|path| - 1];
    var d := NextIn(names, depends, c, last);
    LongerChain(depends, path, d);
    var more := path + [d];
    var e := NextIn(names, depends, c, d);
    if d in path {
      var k :| 0 <= k < |path| && path[k] == d;
      assert more[k] == d;
      ClosedChain(names, depends, more, k);
      p := more[k..];
    } else {
      assert (set x | x in more) == (set x | x in path) + {d};
      p := FollowLoop(names, depends, c, more);
    }
  }

  /** The two ways to say that there is a cycle agree. */
  lemma LoopedIffCyclic(names: seq<Name>, depends: map<Name, seq<Name>>)
    ensures Looped(names, depends) <==> Cyclic(names, depends)
  {
    if Looped(names, depends) {
      var c :| LoopSet(names, depends, c);
      var m :| m in c;
      var d := NextIn(names, depends, c, m);
      var p := FollowLoop(names, depends, c, [m]);
    }
    if Cyclic(names, depends) {
      var p :| Cycle(names, depends, p);
      CycleIsLoop(names, depends, p);
    }
  }

  lemma CycleIsLoop(names: seq<Name>, depends: map<Name, seq<Name>>, p: seq<Name>)
    requires Cycle(names, depends, p)
    ensures LoopSet(names, depends, set x | x in p)
  {
    var c := set x | x in p;
    assert p[0] in c;
    forall m | m in c ensures Onward(names, depends, c, m) {
      var i :| 0 <= i < |p| && p[i] == m;
      var k := if i == |p| - 1 then 0 else i;
      assert p[k] == m && p[k + 1] in depends[m] && p[k + 1] in c;
    }
  }

  lemma {:induction false} CountIs(s: seq<Name>, x: Name)
    requires NoDup(s)
    ensures multiset(s)[x] == if x in s then 1 else 0
  {
    if s != [] {
      assert s == [s[0]] + s[1..];
      assert s[0] !in s[1..];
      CountIs(s[1..], x);
    }
  }

  /** What is left of a dependency list once the modules in `done` are dealt with: each
      removes one occurrence of its name. */
  ghost predicate LeftIs(depends: seq<Name>, done: seq<Name>, left: seq<Name>) {
    multiset(left) == multiset(depends) - multiset(done)
  }

  /** Where the modules are: started, waiting or done, each in one place. */
  ghost predicate State(
    names: seq<Name>, depends: map<Name, seq<Name>>, left: map<Name, seq<Name>>, start: seq<Name>, waiting: seq<Name>,
    done: seq<Name>)
  {
    && NoDup(done + start + waiting) && (forall x :: x in names <==> x in done + start + waiting)
    && (forall m | m in waiting :: m in left && m in depends && left[m] != [] && LeftIs(depends[m], done, left[m]))
    && (forall m | m in start + done :: m in depends)
    && (forall m | m in start :: LeftIs(depends[m], done, []))
    && (forall i | 0 <= i < |done| :: done[i] in depends && LeftIs(depends[done[i]], done[..i], []))
  }

  /** Nothing left of a list means that it has no repetitions and that all of it is done. */
  lemma NothingLeft(deps: seq<Name>, done: seq<Name>)
    requires LeftIs(deps, done, []) && NoDup(done)
    ensures NoDup(deps) && forall d | d in deps :: d in done
  {
    forall d | d in deps ensures d in done && multiset(deps)[d] == 1 {
      CountIs(done, d);
      assert (multiset(deps) - multiset(done))[d] == multiset([])[d];
      assert multiset(deps)[d] >= 1;
    }
    forall i, j | 0 <= i < j < |deps| ensures deps[i] != deps[j] {
      if deps[i] == deps[j] { TwoCount(deps, i, j); }
    }
  }

  lemma TwoCount(s: seq<Name>, i: nat, j: nat)
    requires i < j < |s| && s[i] == s[j]
    ensures multiset(s)[s[i]] >= 2
  {
    assert s == s[..j] + [s[j]] + s[j + 1..];
    assert s[..j][i] == s[i];
    assert s[i] in multiset(s[..j]);
  }

  /** A module that waits depends on one that is missing or waits too. */
  lemma StuckWhy(names: seq<Name>, depends: map<Name, seq<Name>>, left: map<Name, seq<Name>>, waiting: seq<Name>,
    done: seq<Name>)
    requires State(names, depends, left, [], waiting, done) && waiting != [] && NoRepeats(names, depends)
             && !Missing(names, depends)
    ensures Looped(names, depends)
  {
    hide State, Missing, NoRepeats;
    var c := set m | m in waiting;
    assert waiting[0] in c;
    forall m | m in c ensures Onward(names, depends, c, m) {
      var d := WaitsFor(names, depends, left, waiting, done, m);
      assert d in c;
    }
    assert LoopSet(names, depends, c);
  }

  lemma WaitsFor(
    names: seq<Name>, depends: map<Name, seq<Name>>, left: map<Name, seq<Name>>, waiting: seq<Name>, done: seq<Name>,
    m: Name) returns (d: Name)
    requires State(names, depends, left, [], waiting, done) && m in waiting && NoRepeats(names, depends)
             && !Missing(names, depends)
    ensures m in names && m in depends && d in depends[m] && d in waiting
  {
    hide NoRepeats;
    assert done + [] + waiting == done + waiting;
    Apart(done, [], waiting);
    assert m in done + waiting;
    assert NoDup(depends[m]) by { NotRepeated(names, depends, m); }
    d := LeftOne(depends[m], done, left[m]);
    assert d in names;
    assert d in done + waiting;
  }

  lemma NotRepeated(names: seq<Name>, depends: map<Name, seq<Name>>, m: Name)
    requires NoRepeats(names, depends) && m in names && m in depends
    ensures NoDup(depends[m])
  {
  }

  lemma LeftOne(deps: seq<Name>, done: seq<Name>, left: seq<Name>) returns (d: Name)
    requires LeftIs(deps, done, left) && left != [] && NoDup(deps) && NoDup(done)
    ensures d in deps && d !in done
  {
    d := left[0];
    assert d in multiset(left);
    assert d in multiset(deps);
    CountIs(deps, d);
    CountIs(done, d);
  }

  /** An order rules out missing dependencies and cycles. */
  lemma OrderRulesOut(names: seq<Name>, depends: map<Name, seq<Name>>, order: seq<Name>)
    requires Ordered(names, depends, order)
    ensures !Missing(names, depends) && !Looped(names, depends)
  {
    forall m, d | m in names && m in depends && d in depends[m] ensures d in names {
      assert m in order;
      var i :| 0 <= i < |order| && order[i] == m;
      assert d in order[..i];
    }
    forall c ensures !LoopSet(names, depends, c) { FirstOfLoop(names, depends, order, c); }
  }

  /** The first module of an order that is in a set depends on none of the set. */
  lemma FirstOfLoop(names: seq<Name>, depends: map<Name, seq<Name>>, order: seq<Name>, c: set<Name>)
    requires Ordered(names, depends, order)
    ensures !LoopSet(names, depends, c)
  {
    if w :| w in c && w in order {
      var k :| 0 <= k < |order| && order[k] == w;
      var i := FirstIn(order, c, k);
      assert !Onward(names, depends, c, order[i]);
    } else if w :| w in c {
      assert !Onward(names, depends, c, w);
    }
  }

  lemma {:induction false} FirstIn(order: seq<Name>, c: set<Name>, k: nat) returns (i: nat)
    requires k < |order| && order[k] in c
    ensures i <= k && order[i] in c && forall x | x in order[..i] :: x !in c
    decreases k
  {
    if exists j :: 0 <= j < k && order[j] in c {
      var j :| 0 <= j < k && order[j] in c;
      i := FirstIn(order, c, j);
    } else {
      i := k;
    }
  }

  /** When nothing is left to start, what is done is in order, and a module that waits stops
      every order. */
  lemma Stuck(names: seq<Name>, depends: map<Name, seq<Name>>, left: map<Name, seq<Name>>, waiting: seq<Name>,
    done: seq<Name>)
    requires State(names, depends, left, [], waiting, done)
    ensures waiting == [] ==> Ordered(names, depends, done) && NoRepeats(names, depends)
    ensures waiting != [] ==> !(NoRepeats(names, depends) && exists order :: Ordered(names, depends, order))
  {
    hide State, Ordered, NoRepeats;
    if waiting == [] {
      StuckDone(names, depends, left, done);
    } else if NoRepeats(names, depends) && exists order :: Ordered(names, depends, order) {
      var order :| Ordered(names, depends, order);
      StuckWaiting(names, depends, left, waiting, done, order);
    }
  }

  lemma StuckDone(names: seq<Name>, depends: map<Name, seq<Name>>, left: map<Name, seq<Name>>, done: seq<Name>)
    requires State(names, depends, left, [], [], done)
    ensures Ordered(names, depends, done) && NoRepeats(names, depends)
  {
    assert done + [] + [] == done;
    forall i, d | 0 <= i < |done| && done[i] in depends && d in depends[done[i]] ensures d in done[..i] {
      NothingLeft(depends[done[i]], done[..i]);
    }
    forall m | m in names && m in depends ensures NoDup(depends[m]) {
      var i :| 0 <= i < |done| && done[i] == m;
      NothingLeft(depends[m], done[..i]);
    }
  }

  lemma StuckWaiting(names: seq<Name>, depends: map<Name, seq<Name>>, left: map<Name, seq<Name>>, waiting: seq<Name>,
    done: seq<Name>, order: seq<Name>)
    requires State(names, depends, left, [], waiting, done) && waiting != [] && NoRepeats(names, depends)
    ensures !Ordered(names, depends, order)
  {
    hide Ordered;
    assert done + [] + waiting == done + waiting;
    assert NoDup(done) by { assert forall i | 0 <= i < |done| :: (done + waiting)[i] == done[i]; }
    if Ordered(names, depends, order) {
      var m := FirstFree(names, depends, waiting, done, order);
      AllDone(depends[m], done, left[m]);
    }
  }

  lemma AllDone(deps: seq<Name>, done: seq<Name>, left: seq<Name>)
    requires LeftIs(deps, done, left) && NoDup(deps) && NoDup(done) && forall d | d in deps :: d in done
    ensures left == []
  {
    FirstCounts(left);
    forall x ensures multiset(left)[x] == 0 {
      CountIs(deps, x);
      CountIs(done, x);
    }
  }

  lemma FirstCounts(s: seq<Name>)
    ensures s != [] ==> multiset(s)[s[0]] >= 1
  {
    assert s != [] ==> s[0] in s;
  }

  /** The first waiting module of an order has all its dependencies done. */
  lemma FirstFree(names: seq<Name>, depends: map<Name, seq<Name>>, waiting: seq<Name>, done: seq<Name>,
    order: seq<Name>) returns (m: Name)
    requires Ordered(names, depends, order) && waiting != []
    requires (forall x | x in waiting :: x in names && x in depends)
             && forall x | x in names :: x in done || x in waiting
    ensures m in waiting && m in depends && forall d | d in depends[m] :: d in done
  {
    var w := waiting[0];
    assert w in waiting;
    assert w in order;
    var k :| 0 <= k < |order| && order[k] == w;
    var i := FirstIn(order, (set x | x in waiting), k);
    m := order[i];
    forall d | d in depends[m] ensures d in done {
      assert d in order[..i];
      assert d in order && d in names;
    }
  }

  // ---------- First come, first served ----------

  function Index(s: seq<Name>, x: Name): (k: nat)
    requires x in s
    ensures k < |s| && s[k] == x && x !in s[..k]
  {
    if s[0] == x then 0 else 1 + Index(s[1..], x)
  }

  /** Modules in the order in which they were given. */
  ghost predicate AsGiven(names: seq<Name>, s: seq<Name>) {
    && (forall x | x in s :: x in names)
    && forall i, j | 0 <= i < j < |s| :: Index(names, s[i]) < Index(names, s[j])
  }

  /** The first `k` modules of an order contain all that `m` depends on, and no fewer do. */
  ghost predicate FreeAt(depends: map<Name, seq<Name>>, order: seq<Name>, m: Name, k: nat) {
    && m in depends && k <= |order| && (forall d | d in depends[m] :: d in order[..k])
    && (k > 0 ==> order[k - 1] in depends[m])
  }

  /** Modules come in the order in which their last dependency does; those that become free
      together come in the order in which they were given. */
  ghost predicate Served(names: seq<Name>, depends: map<Name, seq<Name>>, order: seq<Name>, frees: seq<nat>) {
    && |frees| == |order| && Ranked(names, order, frees)
    && (forall i | 0 <= i < |order| :: FreeAt(depends, order, order[i], frees[i]))
  }

  ghost predicate Ranked(names: seq<Name>, order: seq<Name>, frees: seq<nat>)
    requires |frees| == |order|
  {
    && (forall x | x in order :: x in names)
    && forall i, j | 0 <= i < j < |order| ::
         frees[i] < frees[j] || (frees[i] == frees[j] && Index(names, order[i]) < Index(names, order[j]))
  }

  ghost predicate FirstCome(names: seq<Name>, depends: map<Name, seq<Name>>, order: seq<Name>) {
    exists frees :: Served(names, depends, order, frees)
  }

  /** Modules that become free by the last one that is done join those that can start. */
  lemma ServedMore(names: seq<Name>, depends: map<Name, seq<Name>>, q: seq<Name>, frees: seq<nat>, freed: seq<Name>,
    k: nat) returns (frees': seq<nat>)
    requires Served(names, depends, q, frees) && (forall i | 0 <= i < |frees| :: frees[i] < k) && k <= |q|
    requires AsGiven(names, freed) && forall m | m in freed :: FreeAt(depends, q, m, k)
    ensures Served(names, depends, q + freed, frees') && forall i | 0 <= i < |frees'| :: frees'[i] <= k
  {
    hide Ranked, AsGiven;
    var r := q + freed;
    frees' := frees + seq(|freed|, _ => k);
    RankedMore(names, q, frees, freed, k);
    forall i | 0 <= i < |r| ensures FreeAt(depends, r, r[i], frees'[i]) {
      if i < |q| {
        FreeLonger(depends, q, freed, q[i], frees[i]);
      } else {
        assert r[i] == freed[i - |q|] && r[i] in freed;
        FreeLonger(depends, q, freed, r[i], k);
      }
    }
  }

  lemma RankedMore(names: seq<Name>, q: seq<Name>, frees: seq<nat>, freed: seq<Name>, k: nat)
    requires |frees| == |q| && Ranked(names, q, frees) && (forall i | 0 <= i < |frees| :: frees[i] < k)
    requires AsGiven(names, freed)
    ensures Ranked(names, q + freed, frees + seq(|freed|, _ => k))
  {
    hide Index;
    var r, f := q + freed, frees + seq(|freed|, _ => k);
    forall i, j | 0 <= i < j < |r|
      ensures r[i] in names && r[j] in names
      ensures f[i] < f[j] || (f[i] == f[j] && Index(names, r[i]) < Index(names, r[j]))
    {
      if j >= |q| { assert r[j] == freed[j - |q|]; }
      if i >= |q| { assert r[i] == freed[i - |q|]; }
    }
  }

  lemma FreeLonger(depends: map<Name, seq<Name>>, q: seq<Name>, more: seq<Name>, m: Name, k: nat)
    requires FreeAt(depends, q, m, k)
    ensures FreeAt(depends, q + more, m, k)
  {
    assert (q + more)[..k] == q[..k];
  }

  /** The modules that one turn frees depend on the module of that turn. */
  lemma FreedNow(depends: map<Name, seq<Name>>, done: seq<Name>, left: seq<Name>, q: seq<Name>, node: Name, m: Name)
    requires m in depends && LeftIs(depends[m], done, left) && node in left && Remove(left, node) == []
    requires |done| < |q| && q[..|done|] == done && q[|done|] == node
    ensures FreeAt(depends, q, m, |done| + 1)
  {
    RemoveCounts(left, node);
    assert node in multiset(left) && node in multiset(depends[m]);
    assert q[..|done| + 1] == done + [node];
    forall d | d in depends[m] ensures d in done + [node] {
      assert d in multiset(depends[m]);
      if d !in done {
        assert d !in multiset(done);
        assert d in multiset(left);
      }
    }
  }

  lemma RemoveAsGiven(names: seq<Name>, s: seq<Name>, x: Name)
    requires AsGiven(names, s) && NoDup(s)
    ensures AsGiven(names, Remove(s, x))
  {
    hide Index, Remove;
    if x in s {
      var k :| 0 <= k < |s| && s[k] == x;
      assert forall i | 0 <= i < k :: s[..k][i] != x;
      RemoveAt(s, x, k);
      var r := s[..k] + s[k + 1..];
      assert forall i | 0 <= i < |r| :: r[i] == s[if i < k then i else i + 1] && r[i] in s;
    } else {
      RemoveNone(s, x);
    }
  }

  // ---------- The sort ----------

  /** Splits the modules into those without dependencies and the others. */
  method Partition(names: seq<Name>, depends: map<Name, seq<Name>>) returns (start: seq<Name>, waiting: seq<Name>)
    requires NoDup(names) && forall m | m in names :: m in depends
    ensures State(names, depends, depends, start, waiting, [])
    ensures AsGiven(names, start) && AsGiven(names, waiting)
    ensures Served(names, depends, start, seq(|start|, _ => 0))
  {
    hide Index, AsGiven, Served;
    start, waiting := [], [];
    var i := 0;
    NoneGiven(names);
    while i < |names|
      invariant 0 <= i <= |names| && NoDup(start + waiting)
      invariant AsGiven(names, start) && AsGiven(names, waiting)
      invariant forall x | x in start + waiting :: x in names && Index(names, x) < i
      invariant forall x :: x in names[..i] <==> x in start + waiting
      invariant (forall m | m in start :: m in depends && depends[m] == [])
        && forall m | m in waiting :: m in depends && depends[m] != []
    {
      var m := names[i];
      assert m in names && m !in names[..i];
      assert names[..i + 1] == names[..i] + [m];
      IndexOf(names, i);
      if depends[m] == [] {
        Inserted(start, m, waiting);
        GivenLast(names, start, m);
        start := start + [m];
      } else {
        Inserted(start + waiting, m, []);
        assert start + (waiting + [m]) == start + waiting + [m] + [];
        GivenLast(names, waiting, m);
        waiting := waiting + [m];
      }
      i := i + 1;
    }
    assert names[..i] == names;
    assert [] + start + waiting == start + waiting;
    forall m | m in waiting ensures LeftIs(depends[m], [], depends[m]) { }
    StartServed(names, depends, start);
  }

  lemma GivenLast(names: seq<Name>, s: seq<Name>, m: Name)
    requires AsGiven(names, s) && m in names && forall x | x in s :: x in names && Index(names, x) < Index(names, m)
    ensures AsGiven(names, s + [m])
  {
    hide Index;
    assert forall i | 0 <= i < |s| :: s[i] in s;
  }

  lemma StartServed(names: seq<Name>, depends: map<Name, seq<Name>>, start: seq<Name>)
    requires AsGiven(names, start) && forall m | m in start :: m in depends && depends[m] == []
    ensures Served(names, depends, start, seq(|start|, _ => 0))
  {
    hide Index;
    assert forall i | 0 <= i < |start| :: start[i] in start;
  }

  lemma IndexOf(names: seq<Name>, i: nat)
    requires NoDup(names) && i < |names|
    ensures Index(names, names[i]) == i
  {
  }

  /** Adding a name that is not there keeps the rest apart. */
  lemma Inserted(a: seq<Name>, m: Name, b: seq<Name>)
    requires NoDup(a + b) && m !in a + b
    ensures NoDup(a + [m] + b) && forall x :: x in a + [m] + b <==> x == m || x in a + b
  {
    assert a + [] + b == a + b;
    Apart(a, [], b);
    assert forall x | x in a || x in b :: x in a + b;
    Together(a, [m], b);
  }

  /** Takes the name of a module that is done out of the dependency lists of the waiting
      ones, and returns those that have nothing left. */
  method Resolve(done: Name, waiting: seq<Name>, left: map<Name, seq<Name>>, ghost names: seq<Name>)
    returns (left': map<Name, seq<Name>>, freed: seq<Name>)
    requires NoDup(waiting) && (forall m | m in waiting :: m in left) && AsGiven(names, waiting)
    ensures left'.Keys == left.Keys
            && forall m | m in left :: left'[m] == if m in waiting then Remove(left[m], done) else left[m]
    ensures NoDup(freed)
            && forall m :: m in freed <==> m in waiting && done in left[m] && Remove(left[m], done) == []
    ensures AsGiven(names, freed)
  {
    hide Remove, NoDup, Index, AsGiven;
    left', freed := left, [];
    var i := 0;
    assert NoDup(freed) by { NoDupEmpty(); }
    NoneGiven(names);
    while i < |waiting|
      invariant 0 <= i <= |waiting| && left'.Keys == left.Keys && NoDup(freed)
      invariant forall m | m in left :: left'[m] == if m in waiting[..i] then Remove(left[m], done) else left[m]
      invariant forall m :: m in freed <==> m in waiting[..i] && done in left[m] && Remove(left[m], done) == []
      invariant AsGiven(names, freed)
    {
      var m := waiting[i];
      PrefixMore(waiting, i);
      if done in left'[m] {
        left' := left'[m := Remove(left'[m], done)];
        if left'[m] == [] {
          AppendNew(freed, m);
          GivenNext(names, waiting, i, freed);
          freed := freed + [m];
        }
      } else {
        RemoveNone(left[m], done);
      }
      i := i + 1;
    }
    assert waiting[..i] == waiting;
  }

  lemma NoneGiven(names: seq<Name>)
    ensures AsGiven(names, [])
  {
  }

  lemma GivenNext(names: seq<Name>, waiting: seq<Name>, i: nat, s: seq<Name>)
    requires AsGiven(names, waiting) && i < |waiting| && AsGiven(names, s) && forall x | x in s :: x in waiting[..i]
    ensures AsGiven(names, s + [waiting[i]])
  {
    hide Index;
    assert waiting[i] in waiting;
    forall k | 0 <= k < |s| ensures Index(names, s[k]) < Index(names, waiting[i]) {
      assert s[k] in s;
      var j :| 0 <= j < i && waiting[..i][j] == s[k];
      assert waiting[j] == s[k];
    }
  }

  lemma NoDupEmpty()
    ensures NoDup<Name>([])
  {
  }

  method RemoveAll(waiting: seq<Name>, freed: seq<Name>, ghost names: seq<Name>) returns (rest: seq<Name>)
    requires NoDup(waiting) && AsGiven(names, waiting)
    ensures NoDup(rest) && forall m :: m in rest <==> m in waiting && m !in freed
    ensures AsGiven(names, rest)
  {
    hide Index, AsGiven;
    rest := waiting;
    var i := 0;
    while i < |freed|
      invariant 0 <= i <= |freed| && NoDup(rest) && forall m :: m in rest <==> m in waiting && m !in freed[..i]
      invariant AsGiven(names, rest)
    {
      RemoveAsGiven(names, rest, freed[i]);
      RemoveIs(rest, freed[i]);
      assert freed[..i + 1] == freed[..i] + [freed[i]];
      rest := Remove(rest, freed[i]);
      i := i + 1;
    }
    assert freed[..i] == freed;
  }

  /** The sort succeeds exactly when no dependency list repeats a name and some order of
      the modules has every dependency first, that is when none is missing or lies on a
      cycle. The result is then such an order. */
  method Sort(names: seq<Name>, depends: map<Name, seq<Name>>) returns (ok: bool, sorted: seq<Name>)
    requires NoDup(names) && forall m | m in names :: m in depends
    ensures ok <==> NoRepeats(names, depends) && exists order :: Ordered(names, depends, order)
    ensures ok ==> Ordered(names, depends, sorted)
    ensures NoRepeats(names, depends) ==> (!ok <==> Missing(names, depends) || Cyclic(names, depends))
    ensures FirstCome(names, depends, sorted)
  {
    hide Missing, Looped, Cyclic, State, NoDup, Ordered, NoRepeats, Served, AsGiven, Index, Remove;
    var start, waiting := Partition(names, depends);
    var left := depends;
    sorted := [];
    ghost var frees: seq<nat> := seq(|start|, _ => 0);
    assert sorted + start == start;
    while start != []
      invariant State(names, depends, left, start, waiting, sorted)
      invariant AsGiven(names, waiting) && Served(names, depends, sorted + start, frees)
      invariant forall i | 0 <= i < |frees| :: frees[i] <= |sorted|
      decreases Todo(names, sorted)
    {
      var node := start[0];
      StateIs(names, depends, left, start, waiting, sorted);
      var left', freed := Resolve(node, waiting, left, names);
      var rest := RemoveAll(waiting, freed, names);
      ghost var q := sorted + start;
      forall m | m in freed ensures FreeAt(depends, q, m, |sorted| + 1) {
        WaitingIs(names, depends, left, start, waiting, sorted, m);
        FreedNow(depends, sorted, left[m], q, node, m);
      }
      frees := ServedMore(names, depends, q, frees, freed, |sorted| + 1);
      assert q + freed == sorted + [node] + (start[1..] + freed);
      Progress(names, depends, left, left', start, waiting, sorted, freed, rest);
      TodoLess(names, sorted, node);
      start, waiting, left, sorted := start[1..] + freed, rest, left', sorted + [node];
    }
    assert sorted + start == sorted;
    Stuck(names, depends, left, waiting, sorted);
    ok := waiting == [];
    LoopedIffCyclic(names, depends);
    if ok {
      OrderRulesOut(names, depends, sorted);
    } else if NoRepeats(names, depends) && !Missing(names, depends) {
      StuckWhy(names, depends, left, waiting, sorted);
    }
  }

  ghost function Todo(names: seq<Name>, done: seq<Name>): set<Name> { set x | x in names && x !in done }

  lemma TodoLess(names: seq<Name>, done: seq<Name>, node: Name)
    requires node in names && node !in done
    ensures Todo(names, done + [node]) < Todo(names, done)
  {
    assert Todo(names, done + [node]) == Todo(names, done) - {node};
    assert node in Todo(names, done);
  }

  lemma StateIs(
    names: seq<Name>, depends: map<Name, seq<Name>>, left: map<Name, seq<Name>>, start: seq<Name>, waiting: seq<Name>,
    done: seq<Name>)
    requires State(names, depends, left, start, waiting, done) && start != []
    ensures NoDup(waiting) && (forall m | m in waiting :: m in left) && start[0] in names && start[0] !in done
  {
    Apart(done, start, waiting);
    assert start[0] in start;
    assert start[0] in done + start + waiting;
  }

  lemma WaitingIs(
    names: seq<Name>, depends: map<Name, seq<Name>>, left: map<Name, seq<Name>>, start: seq<Name>, waiting: seq<Name>,
    done: seq<Name>, m: Name)
    requires State(names, depends, left, start, waiting, done) && m in waiting
    ensures m in left && m in depends && LeftIs(depends[m], done, left[m])
  {
  }

  lemma Apart(done: seq<Name>, start: seq<Name>, waiting: seq<Name>)
    requires NoDup(done + start + waiting)
    ensures NoDup(done) && NoDup(start) && NoDup(waiting)
    ensures (forall x | x in done :: x !in start && x !in waiting) && forall x | x in start :: x !in waiting
  {
    var s := done + start + waiting;
    assert forall i | 0 <= i < |done| :: s[i] == done[i];
    assert forall i | 0 <= i < |start| :: s[|done| + i] == start[i];
    assert forall i | 0 <= i < |waiting| :: s[|done| + |start| + i] == waiting[i];
  }

  lemma Together(done: seq<Name>, start: seq<Name>, waiting: seq<Name>)
    requires NoDup(done) && NoDup(start) && NoDup(waiting)
    requires (forall x | x in done :: x !in start && x !in waiting) && forall x | x in start :: x !in waiting
    ensures NoDup(done + start + waiting)
            && forall x :: x in done + start + waiting <==> x in done || x in start || x in waiting
  {
    var s := done + start + waiting;
    forall i, j | 0 <= i < j < |s| ensures s[i] != s[j] {
      Piece(done, start, waiting, i);
      Piece(done, start, waiting, j);
    }
  }

  lemma Piece(done: seq<Name>, start: seq<Name>, waiting: seq<Name>, i: nat)
    requires i < |done + start + waiting|
    ensures var s := done + start + waiting; var d, n := |done|, |start|;
            if i < d then s[i] == done[i] && s[i] in done
            else if i < d + n then s[i] == start[i - d] && s[i] in start
            else s[i] == waiting[i - d - n] && s[i] in waiting
  {
  }

  lemma Union(a: seq<Name>, b: seq<Name>)
    requires NoDup(a) && NoDup(b) && forall x | x in a :: x !in b
    ensures NoDup(a + b) && forall x :: x in a + b <==> x in a || x in b
  {
    Together(a, b, []);
    assert a + b + [] == a + b;
  }

  /** One turn of the sort: the first module that can start is done, and its name is gone
      from the lists of the waiting ones. */
  lemma Progress(
    names: seq<Name>, depends: map<Name, seq<Name>>, left: map<Name, seq<Name>>, left': map<Name, seq<Name>>,
    start: seq<Name>, waiting: seq<Name>, done: seq<Name>, freed: seq<Name>, rest: seq<Name>)
    requires State(names, depends, left, start, waiting, done) && start != []
    requires left'.Keys == left.Keys && forall m | m in waiting :: left'[m] == Remove(left[m], start[0])
    requires NoDup(freed)
             && forall m :: m in freed <==> m in waiting && start[0] in left[m] && Remove(left[m], start[0]) == []
    requires NoDup(rest) && forall m :: m in rest <==> m in waiting && m !in freed
    ensures State(names, depends, left', start[1..] + freed, rest, done + [start[0]])
  {
    var node := start[0];
    var done' := done + [node];
    Apart(done, start, waiting);
    assert start == [node] + start[1..];
    Places(names, start, waiting, done, freed, rest);
    forall m | m in rest
      ensures m in left' && m in depends && left'[m] != [] && LeftIs(depends[m], done', left'[m])
    {
      if node !in left[m] { RemoveNone(left[m], node); }
      OneMore(depends[m], done, left[m], node);
    }
    forall m | m in start[1..] + freed ensures m in depends && LeftIs(depends[m], done', []) {
      if m in freed {
        OneMore(depends[m], done, left[m], node);
      } else {
        assert m in start;
        OneMore(depends[m], done, [], node);
      }
    }
    forall i | 0 <= i < |done'| ensures done'[i] in depends && LeftIs(depends[done'[i]], done'[..i], []) {
      if i < |done| {
        assert done'[..i] == done[..i];
      } else {
        assert done'[..i] == done;
      }
    }
  }

  lemma OneMore(deps: seq<Name>, done: seq<Name>, left: seq<Name>, node: Name)
    requires LeftIs(deps, done, left)
    ensures LeftIs(deps, done + [node], Remove(left, node))
  {
    RemoveCounts(left, node);
    assert multiset(done + [node]) == multiset(done) + multiset{node};
  }

  lemma Places(names: seq<Name>, start: seq<Name>, waiting: seq<Name>, done: seq<Name>, freed: seq<Name>,
        rest: seq<Name>)
    requires NoDup(done + start + waiting) && start != [] && forall x :: x in names <==> x in done + start + waiting
    requires NoDup(freed) && NoDup(rest) && (forall m | m in freed :: m in waiting)
             && forall m :: m in rest <==> m in waiting && m !in freed
    ensures NoDup(done + [start[0]] + (start[1..] + freed) + rest)
    ensures forall x :: x in names <==> x in done + [start[0]] + (start[1..] + freed) + rest
  {
    Apart(done, start, waiting);
    Together(done, start, waiting);
    assert start == [start[0]] + start[1..];
    assert start[0] in start && start[0] !in start[1..];
    assert NoDup(start[1..]) by { assert forall i | 0 <= i < |start| - 1 :: start[1..][i] == start[i + 1]; }
    Union(done, [start[0]]);
    Union(start[1..], freed);
    Together(done + [start[0]], start[1..] + freed, rest);
  }

  /** Two modules in a perfect order, which the sort refuses because a name is listed twice. */
  lemma RepetitionFails()
    ensures var depends := map["a" := [], "b" := ["a", "a"]];
            Ordered(["a", "b"], depends, ["a", "b"]) && !NoRepeats(["a", "b"], depends)
  {
    var depends: map<Name, seq<Name>> := map["a" := [], "b" := ["a", "a"]];
    assert "b" in ["a", "b"] && depends["b"][0] == depends["b"][1];
    assert ["a", "b"][..1] == ["a"];
  }
}
