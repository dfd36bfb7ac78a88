/**
  Mutexes when a thread may wait while it owns others, so that owners can be waiters too.
  The operations are those of `MutexSpec`. What is lost there is the order of the wait
  queues and the passing on of a loan: a new priority changes neither the place of a
  waiting owner nor the priority of the thread it waits for.
 */
module MutexChain {
  import opened Common
  import opened MutexSpec

  // ---------- Steps ----------

  ghost predicate LinkedMutex(s: Sys, m: Mid)
    requires m in s.mutexes
  {
    var x := s.mutexes[m];
    && (x.count > 0 <==> x.owner.Some?)
    && (x.owner.None? ==> x.waiters == [])
    && (x.owner.Some? ==>
          && x.owner.value in s.prio && x.owner.value in s.owned && m in s.owned[x.owner.value]
          && x.owner.value !in x.waiters)
    && NoDup(x.waiters)
    && (forall w | w in x.waiters :: w in s.prio && w in s.owned && w in s.blocked && s.blocked[w] == m)
  }

  ghost predicate LinkedThread(s: Sys, t: Tid)
    requires t in s.prio && t in s.owned
  {
    && NoDup(s.owned[t])
    && (forall m | m in s.owned[t] :: m in s.mutexes && s.mutexes[m].owner == Some(t))
    && (t in s.blocked ==> s.blocked[t] in s.mutexes && t in s.mutexes[s.blocked[t]].waiters && t !in s.late)
    && (t in s.late ==> s.late[t] in s.mutexes)
  }

  /** The invariant of `MutexSpec` without the order of wait queues, and with owners that wait. */
  ghost predicate Linked(s: Sys) {
    && Keyed(s)
    && (forall m | m in s.mutexes :: LinkedMutex(s, m))
    && (forall t | t in s.prio :: LinkedThread(s, t))
  }

  ghost predicate MayRun(s: Sys, op: Op) {
    match op
    case Lock(t, m, wait) => t in s.prio && m in s.mutexes && t !in s.blocked && t !in s.late
    case Expire(t) => t in s.blocked
    case Adjust(t) => t in s.late
    case Unlock(t, m) => t in s.prio && m in s.mutexes && t !in s.blocked && t !in s.late
  }

  ghost function Next(s: Sys, op: Op): Sys
    requires Linked(s) && MayRun(s, op)
  {
    match op
    case Lock(t, m, wait) =>
      assert LinkedMutex(s, m);
      var x := s.mutexes[m];
      if x.count == 0 || x.owner == Some(t) then Take(s, t, m)
      else if !wait then s
      else Wait(s, t, m)
    case Expire(t) => assert LinkedThread(s, t); GiveUp(s, t)
    case Adjust(t) => assert LinkedThread(s, t); assert LinkedMutex(s, s.late[t]); TakeBack(s, t)
    case Unlock(t, m) =>
      assert LinkedMutex(s, m);
      var x := s.mutexes[m];
      if x.owner != Some(t) then s
      else if x.count > 1 then s.(mutexes := s.mutexes[m := x.(count := x.count - 1)])
      else Release(s, t, m)
  }

  /** Where nobody waits while owning a mutex, the steps are those of `MutexSpec`. */
  lemma NextIsStep(s: Sys, op: Op)
    requires Inv(s) && Allowed(s, op)
    ensures Linked(s) && MayRun(s, op) && Next(s, op) == Step(s, op)
  {
    hide Sorted, NoDup, Join, Remove, Due;
    InvIsLinked(s);
  }

  lemma InvIsLinked(s: Sys)
    requires Inv(s)
    ensures Linked(s)
  {
    hide NoDup;
    forall m | m in s.mutexes ensures LinkedMutex(s, m) {
      assert MutexOk(s, m);
      if s.mutexes[m].owner.Some? { assert ThreadOk(s, s.mutexes[m].owner.value); }
    }
    forall t | t in s.prio ensures LinkedThread(s, t) { assert ThreadOk(s, t); }
  }

  // ---------- Every step keeps the links ----------

  lemma MutexLinks(s: Sys, m: Mid)
    requires Linked(s) && m in s.mutexes
    ensures LinkedMutex(s, m)
  {
  }

  lemma ThreadLinks(s: Sys, t: Tid)
    requires Linked(s) && t in s.prio
    ensures t in s.owned && LinkedThread(s, t)
  {
  }

  lemma Links(s: Sys)
    requires Keyed(s)
    requires forall m | m in s.mutexes :: LinkedMutex(s, m)
    requires forall t | t in s.prio :: LinkedThread(s, t)
    ensures Linked(s)
  {
  }

  /** Priorities are no part of the links. */
  lemma PrioLinks(s: Sys, o: Tid, p: int)
    requires Linked(s) && o in s.prio
    ensures Linked(s.(prio := s.prio[o := p]))
  {
    hide NoDup, Linked;
    KeysOf(s);
    var r := s.(prio := s.prio[o := p]);
    forall m | m in r.mutexes ensures LinkedMutex(r, m) { MutexLinks(s, m); }
    forall t | t in r.prio ensures LinkedThread(r, t) { ThreadLinks(s, t); }
    Links(r);
  }

  lemma KeysOf(s: Sys)
    requires Linked(s)
    ensures Keyed(s)
  {
  }

  lemma TakeLinks(s: Sys, t: Tid, m: Mid)
    requires Linked(s) && t in s.prio && m in s.mutexes && t !in s.blocked && t !in s.late
    requires s.mutexes[m].count == 0 || s.mutexes[m].owner == Some(t)
    ensures t in s.owned && Linked(Take(s, t, m))
  {
    hide NoDup, Linked;
    KeysOf(s);
    MutexLinks(s, m);
    ThreadLinks(s, t);
    var r := Take(s, t, m);
    if s.mutexes[m].count == 0 { AppendNew(s.owned[t], m); }
    forall n | n in r.mutexes ensures LinkedMutex(r, n) { MutexLinks(s, n); }
    forall u | u in r.prio ensures LinkedThread(r, u) { ThreadLinks(s, u); }
    Links(r);
  }

  /** A thread joins a wait queue; the priorities that decide its place are those of `prio`. */
  function Enter(s: Sys, prio: map<Tid, int>, t: Tid, m: Mid): Sys
    requires m in s.mutexes && t in prio && forall w | w in s.mutexes[m].waiters :: w in prio
  {
    s.(mutexes := s.mutexes[m := s.mutexes[m].(waiters := Join(prio, s.mutexes[m].waiters, t))],
       blocked := s.blocked[t := m])
  }

  lemma EnterLinks(s: Sys, prio: map<Tid, int>, t: Tid, m: Mid)
    requires Linked(s) && t in s.prio && m in s.mutexes && t !in s.blocked && t !in s.late
    requires prio.Keys == s.prio.Keys && s.mutexes[m].owner.Some? && s.mutexes[m].owner != Some(t)
    ensures (forall w | w in s.mutexes[m].waiters :: w in prio) && Linked(Enter(s, prio, t, m))
  {
    hide NoDup, Linked, Join;
    KeysOf(s);
    MutexLinks(s, m);
    JoinMembers(prio, s.mutexes[m].waiters, t);
    var r := Enter(s, prio, t, m);
    forall n | n in r.mutexes ensures LinkedMutex(r, n) { MutexLinks(s, n); }
    forall u | u in r.prio ensures LinkedThread(r, u) { ThreadLinks(s, u); }
    Links(r);
  }

  lemma GiveUpLinks(s: Sys, t: Tid)
    requires Linked(s) && t in s.blocked
    ensures s.blocked[t] in s.mutexes && Linked(GiveUp(s, t))
  {
    hide NoDup, Linked, Remove;
    KeysOf(s);
    ThreadLinks(s, t);
    var m := s.blocked[t];
    MutexLinks(s, m);
    RemoveIs(s.mutexes[m].waiters, t);
    var r := GiveUp(s, t);
    forall n | n in r.mutexes ensures LinkedMutex(r, n) { MutexLinks(s, n); }
    forall u | u in r.prio ensures LinkedThread(r, u) { ThreadLinks(s, u); }
    Links(r);
  }

  /** The mutex goes to its first waiter, or becomes free. */
  function HandOn(s: Sys, t: Tid, m: Mid): Sys
    requires t in s.prio && m in s.mutexes && t in s.owned
    requires forall w | w in s.mutexes[m].waiters :: w in s.prio && w in s.owned
  {
    var x := s.mutexes[m];
    var r := s.(owned := s.owned[t := Remove(s.owned[t], m)]);
    if x.waiters == [] then r.(mutexes := s.mutexes[m := Mutex(None, 0, x.orig, [])])
    else
      var w := x.waiters[0];
      r.(mutexes := s.mutexes[m := Mutex(Some(w), x.count, s.prio[w], x.waiters[1..])],
         blocked := s.blocked - {w},
         owned := r.owned[w := r.owned[w] + [m]])
  }

  ghost predicate CanHandOn(s: Sys, t: Tid, m: Mid) {
    && t in s.prio && t in s.owned && m in s.mutexes && s.mutexes[m].owner == Some(t)
    && (forall w | w in s.mutexes[m].waiters :: w in s.prio && w in s.owned)
    && LinkedMutex(s, m) && LinkedThread(s, t)
  }

  lemma HandOnMutex(s: Sys, t: Tid, m: Mid, n: Mid)
    requires CanHandOn(s, t, m) && n in s.mutexes && LinkedMutex(s, n)
    ensures LinkedMutex(HandOn(s, t, m), n)
  {
    hide NoDup, Remove;
    RemoveIs(s.owned[t], m);
    if s.mutexes[m].waiters != [] { TailIs(s.mutexes[m].waiters); }
  }

  lemma HandOnThread(s: Sys, t: Tid, m: Mid, u: Tid)
    requires CanHandOn(s, t, m) && u in s.prio && u in s.owned && LinkedThread(s, u)
    ensures u in HandOn(s, t, m).owned && LinkedThread(HandOn(s, t, m), u)
  {
    hide NoDup, Remove;
    RemoveIs(s.owned[t], m);
    if s.mutexes[m].waiters != [] {
      TailIs(s.mutexes[m].waiters);
      if u == s.mutexes[m].waiters[0] { AppendNew(s.owned[u], m); }
    }
  }

  lemma HandOnLinks(s: Sys, t: Tid, m: Mid)
    requires Linked(s) && t in s.prio && m in s.mutexes && s.mutexes[m].owner == Some(t)
    ensures CanHandOn(s, t, m) && Linked(HandOn(s, t, m))
  {
    hide NoDup, Linked, LinkedMutex, LinkedThread, Remove;
    KeysOf(s);
    MutexLinks(s, m);
    ThreadLinks(s, t);
    WaitersLinked(s, m);
    var r := HandOn(s, t, m);
    forall n | n in r.mutexes ensures LinkedMutex(r, n) { MutexLinks(s, n); HandOnMutex(s, t, m, n); }
    forall u | u in r.prio ensures LinkedThread(r, u) { ThreadLinks(s, u); HandOnThread(s, t, m, u); }
    HandOnKeys(s, t, m);
    Links(r);
  }

  lemma WaitersLinked(s: Sys, m: Mid)
    requires m in s.mutexes && LinkedMutex(s, m)
    ensures forall w | w in s.mutexes[m].waiters :: w in s.prio && w in s.owned
  {
  }

  lemma HandOnKeys(s: Sys, t: Tid, m: Mid)
    requires CanHandOn(s, t, m) && Keyed(s)
    ensures Keyed(HandOn(s, t, m)) && HandOn(s, t, m).mutexes.Keys == s.mutexes.Keys
  {
    hide NoDup, Remove;
  }

  lemma WaitIs(s: Sys, t: Tid, m: Mid)
    requires t in s.prio && m in s.mutexes && s.mutexes[m].owner.Some? && s.mutexes[m].owner.value in s.prio
    requires forall w | w in s.mutexes[m].waiters :: w in s.prio
    ensures var o := s.mutexes[m].owner.value; var p := Inherit(s.ceiling, s.prio[t], s.prio[o]);
            Wait(s, t, m) == Enter(if p < s.prio[o] then s.(prio := s.prio[o := p]) else s, s.prio, t, m)
  {
    hide Join, Inherit;
  }

  lemma ReleaseIs(s: Sys, t: Tid, m: Mid)
    requires CanHandOn(s, t, m) && t !in s.mutexes[m].waiters
    ensures Release(s, t, m) == HandOn(s.(prio := s.prio[t := s.mutexes[m].orig]), t, m)
  {
    hide NoDup, Remove;
  }

  /** Owners that wait keep every link; only the order of wait queues is at stake. */
  lemma NextLinks(s: Sys, op: Op)
    requires Linked(s) && MayRun(s, op)
    ensures Linked(Next(s, op))
  {
    hide Linked, LinkedMutex, LinkedThread, Take, Wait, GiveUp, TakeBack, Release, Inherit, Due;
    match op
    case Lock(t, m, wait) =>
      OwnerOf(s, m);
      if s.mutexes[m].count == 0 || s.mutexes[m].owner == Some(t) {
        TakeLinks(s, t, m);
      } else if wait {
        WaitLinks(s, t, m);
      }
    case Expire(t) => GiveUpLinks(s, t);
    case Adjust(t) => TakeBackLinks(s, t);
    case Unlock(t, m) =>
      OwnerOf(s, m);
      if s.mutexes[m].owner == Some(t) {
        if s.mutexes[m].count > 1 {
          CountLinks(s, m);
        } else {
          ReleaseLinks(s, t, m);
        }
      }
  }

  lemma OwnerOf(s: Sys, m: Mid)
    requires Linked(s) && m in s.mutexes
    ensures var x := s.mutexes[m];
            && (x.count > 0 <==> x.owner.Some?) && (forall w | w in x.waiters :: w in s.prio && w in s.owned)
            && (x.owner.Some? ==> x.owner.value in s.prio && x.owner.value in s.owned && x.owner.value !in x.waiters)
  {
    MutexLinks(s, m);
  }

  lemma WaitLinks(s: Sys, t: Tid, m: Mid)
    requires Linked(s) && MayRun(s, Lock(t, m, true)) && s.mutexes[m].owner.Some? && s.mutexes[m].owner != Some(t)
    ensures s.mutexes[m].owner.value in s.prio && (forall w | w in s.mutexes[m].waiters :: w in s.prio)
    ensures Linked(Wait(s, t, m))
  {
    hide Linked, Wait, Inherit, Enter;
    OwnerOf(s, m);
    WaitIs(s, t, m);
    var o := s.mutexes[m].owner.value;
    var p := Inherit(s.ceiling, s.prio[t], s.prio[o]);
    PrioLinks(s, o, p);
    EnterLinks(s, s.prio, t, m);
    EnterLinks(s.(prio := s.prio[o := p]), s.prio, t, m);
  }

  lemma TakeBackLinks(s: Sys, t: Tid)
    requires Linked(s) && t in s.late
    ensures s.late[t] in s.mutexes && (forall w | w in s.mutexes[s.late[t]].waiters :: w in s.prio)
    ensures Linked(TakeBack(s, t))
  {
    hide Linked, NoDup, Due;
    KeysOf(s);
    ThreadLinks(s, t);
    OwnerOf(s, s.late[t]);
    var r := TakeBack(s, t);
    forall m | m in r.mutexes ensures LinkedMutex(r, m) { MutexLinks(s, m); }
    forall u | u in r.prio ensures LinkedThread(r, u) { ThreadLinks(s, u); }
    Links(r);
  }

  lemma CountLinks(s: Sys, m: Mid)
    requires Linked(s) && m in s.mutexes && s.mutexes[m].count > 1
    ensures Linked(s.(mutexes := s.mutexes[m := s.mutexes[m].(count := s.mutexes[m].count - 1)]))
  {
    hide Linked, NoDup;
    KeysOf(s);
    var r := s.(mutexes := s.mutexes[m := s.mutexes[m].(count := s.mutexes[m].count - 1)]);
    forall n | n in r.mutexes ensures LinkedMutex(r, n) { MutexLinks(s, n); }
    forall u | u in r.prio ensures LinkedThread(r, u) { ThreadLinks(s, u); }
    Links(r);
  }

  lemma ReleaseLinks(s: Sys, t: Tid, m: Mid)
    requires Linked(s) && t in s.prio && m in s.mutexes && s.mutexes[m].owner == Some(t)
    ensures CanHandOn(s, t, m) && Linked(Release(s, t, m))
  {
    hide Linked, Release, HandOn, CanHandOn;
    HandOnLinks(s, t, m);
    OwnerOf(s, m);
    ReleaseIs(s, t, m);
    PrioLinks(s, t, s.mutexes[m].orig);
    HandOnLinks(s.(prio := s.prio[t := s.mutexes[m].orig]), t, m);
  }

  // ---------- Order and loans ----------

  /** The owner is no worse than any waiter, and the waiters are in the order of their priorities. */
  ghost predicate SoundAt(s: Sys, n: Mid)
    requires n in s.mutexes
  {
    FairAt(s, n) && Sorted(s.prio, s.mutexes[n].waiters)
  }

  ghost predicate Sound(s: Sys) { forall n | n in s.mutexes :: SoundAt(s, n) }

  /** With priority `p` thread `o` would be in the wrong place of a queue. */
  ghost predicate Misplaced(prio: map<Tid, int>, q: seq<Tid>, o: Tid, p: int) {
    exists i, k :: && 0 <= i < |q| && 0 <= k < |q| && q[k] == o && q[i] in prio
                   && ((i < k && p < prio[q[i]]) || (k < i && prio[q[i]] < p))
  }

  lemma SortedSet(prio: map<Tid, int>, q: seq<Tid>, o: Tid, p: int)
    requires Sorted(prio, q) && NoDup(q) && o in prio
    ensures Sorted(prio[o := p], q) <==> !Misplaced(prio, q, o, p)
  {
    var r := prio[o := p];
    forall w | w in q ensures w in r { }
    if Misplaced(prio, q, o, p) {
      var i, k :| && 0 <= i < |q| && 0 <= k < |q| && q[k] == o && q[i] in prio
                  && ((i < k && p < prio[q[i]]) || (k < i && prio[q[i]] < p));
      assert q[i] != o && r[q[i]] == prio[q[i]] && r[q[k]] == p;
    } else {
      forall i, j | 0 <= i < j < |q| ensures r[q[i]] <= r[q[j]] {
        assert q[i] in q && q[j] in q;
      }
    }
  }

  /** Thread `o` waits for a mutex whose owner is worse than `p`, or would be in the wrong
      place of its queue with priority `p`. */
  ghost predicate Unsettles(s: Sys, o: Tid, p: int) {
    && o in s.blocked && s.blocked[o] in s.mutexes
    && var x := s.mutexes[s.blocked[o]];
       || (x.owner.Some? && x.owner.value in s.prio && s.prio[x.owner.value] > p)
       || Misplaced(s.prio, x.waiters, o, p)
  }

  function SetPrio(s: Sys, o: Tid, p: int): Sys { s.(prio := s.prio[o := p]) }

  /** What a new priority of one thread does to one mutex. */
  lemma SetPrioAt(s: Sys, o: Tid, p: int, n: Mid)
    requires o in s.prio && o in s.owned && n in s.mutexes && LinkedMutex(s, n) && LinkedThread(s, o) && SoundAt(s, n)
    ensures SoundAt(SetPrio(s, o, p), n) <==>
            !((s.mutexes[n].owner == Some(o) && !AtLeast(s, n, p)) || (o in s.mutexes[n].waiters && Unsettles(s, o, p)))
  {
    hide NoDup, Sorted, Misplaced;
    var q := s.mutexes[n].waiters;
    if o in q {
      SortedSet(s.prio, q, o, p);
      PrioFair(s, o, p, n);
    } else {
      SortedApart(s.prio, q, o, p);
      PrioFair(s, o, p, n);
    }
  }

  lemma SortedApart(prio: map<Tid, int>, q: seq<Tid>, o: Tid, p: int)
    requires Sorted(prio, q) && o !in q
    ensures Sorted(prio[o := p], q)
  {
    SameOrder(prio, prio[o := p], q, o);
  }

  lemma PrioFair(s: Sys, o: Tid, p: int, n: Mid)
    requires o in s.prio && n in s.mutexes && LinkedMutex(s, n) && FairAt(s, n)
    ensures FairAt(SetPrio(s, o, p), n) <==>
            && (s.mutexes[n].owner == Some(o) ==> AtLeast(s, n, p))
            && (o in s.mutexes[n].waiters ==> s.mutexes[n].owner.Some? && s.prio[s.mutexes[n].owner.value] <= p)
  {
    hide NoDup;
    var r, x := SetPrio(s, o, p), s.mutexes[n];
    if x.owner.Some? && FairAt(r, n) {
      forall w | w in x.waiters ensures w in s.prio && (x.owner == Some(o) ==> p <= s.prio[w]) {
        assert w in r.prio && r.prio[x.owner.value] <= r.prio[w];
      }
    }
  }

  /** The steps that set a priority without regard to where the thread waits, or to the
      waiters of its other mutexes. */
  ghost predicate Breaks(s: Sys, op: Op)
    requires Linked(s) && MayRun(s, op)
  {
    match op
    case Lock(t, m, wait) =>
      OwnerOf(s, m);
      var x := s.mutexes[m];
      && wait && x.owner.Some? && x.owner != Some(t) && s.prio[t] < s.prio[x.owner.value]
      && Unsettles(s, x.owner.value, s.prio[t])
    case Adjust(u) =>
      TakeBackLinks(s, u);
      var x := s.mutexes[s.late[u]];
      && x.owner.Some?
      && (Overlooks(s, x.owner.value, s.late[u], Due(s, x)) || Unsettles(s, x.owner.value, Due(s, x)))
    case Unlock(t, m) =>
      && s.mutexes[m].owner == Some(t) && s.mutexes[m].count == 1
      && Overlooks(s, t, m, s.mutexes[m].orig)
    case Expire(_) => false
  }

  lemma WaitedMutex(s: Sys, o: Tid, n: Mid)
    requires Linked(s) && o in s.prio && n in s.mutexes
    ensures o in s.mutexes[n].waiters <==> o in s.blocked && s.blocked[o] == n
    ensures o in s.owned && (n in s.owned[o] <==> s.mutexes[n].owner == Some(o))
  {
    hide NoDup;
    MutexLinks(s, n);
    ThreadLinks(s, o);
  }

  lemma SetPrioSound(s: Sys, o: Tid, p: int, n: Mid)
    requires Linked(s) && Sound(s) && o in s.prio && n in s.mutexes
    ensures SoundAt(SetPrio(s, o, p), n) <==>
            !((s.mutexes[n].owner == Some(o) && !AtLeast(s, n, p))
              || (o in s.blocked && s.blocked[o] == n && Unsettles(s, o, p)))
  {
    hide Linked, SoundAt, LinkedMutex, LinkedThread, Unsettles, AtLeast;
    MutexLinks(s, n);
    ThreadLinks(s, o);
    WaitedMutex(s, o, n);
    SetPrioAt(s, o, p, n);
  }

  /** The mutex that a thread comes to wait for stays sound. */
  lemma EnterSound(s: Sys, t: Tid, m: Mid, p: int)
    requires Linked(s) && MayRun(s, Lock(t, m, true)) && s.mutexes[m].owner.Some? && s.mutexes[m].owner != Some(t)
    requires SoundAt(s, m) && s.mutexes[m].owner.value in s.prio
    requires p <= s.prio[t] && p <= s.prio[s.mutexes[m].owner.value]
    ensures forall w | w in s.mutexes[m].waiters :: w in s.prio
    ensures SoundAt(Enter(SetPrio(s, s.mutexes[m].owner.value, p), s.prio, t, m), m)
  {
    hide Linked, NoDup, Sorted, Join;
    OwnerOf(s, m);
    MutexLinks(s, m);
    var x, o := s.mutexes[m], s.mutexes[m].owner.value;
    JoinIs(s.prio, x.waiters, t);
    SortedApart(s.prio, Join(s.prio, x.waiters, t), o, p);
  }

  lemma EnterElsewhere(s: Sys, prio: map<Tid, int>, t: Tid, m: Mid, n: Mid)
    requires m in s.mutexes && n in s.mutexes && n != m
    requires t in prio && forall w | w in s.mutexes[m].waiters :: w in prio
    ensures SoundAt(Enter(s, prio, t, m), n) <==> SoundAt(s, n)
  {
    hide Sorted, Join;
  }

  lemma WaitBreaksIff(s: Sys, t: Tid, m: Mid)
    requires Linked(s) && MayRun(s, Lock(t, m, true)) && s.mutexes[m].owner.Some? && s.mutexes[m].owner != Some(t)
    requires UnderCeiling(s) && Sound(s)
    ensures s.mutexes[m].owner.value in s.prio && (forall w | w in s.mutexes[m].waiters :: w in s.prio)
    ensures Sound(Wait(s, t, m)) <==> !Breaks(s, Lock(t, m, true))
  {
    hide Linked, SoundAt, Unsettles, Wait, Enter, AtLeast;
    OwnerOf(s, m);
    WaitIs(s, t, m);
    var o := s.mutexes[m].owner.value;
    var p := Better(s.prio[t], s.prio[o]);
    assert p == Inherit(s.ceiling, s.prio[t], s.prio[o]);
    var s1 := SetPrio(s, o, p);
    var r := Wait(s, t, m);
    SameSet(s, o);
    assert r == Enter(s1, s.prio, t, m);
    EnterKeys(s1, s.prio, t, m);
    EnterSound(s, t, m, p);
    WaitedMutex(s, o, m);
    forall n | n in r.mutexes
      ensures SoundAt(r, n) <==> !(o in s.blocked && s.blocked[o] == n && Unsettles(s, o, p))
    {
      if n != m {
        EnterElsewhere(s1, s.prio, t, m, n);
        SetPrioSound(s, o, p, n);
        Relieved(s, o, p, n);
      }
    }
    if p == s.prio[o] {
      SettledAlready(s, o);
    }
    UnsettledWhere(s, o, p);
  }

  lemma SameSet(s: Sys, o: Tid)
    requires o in s.prio
    ensures SetPrio(s, o, s.prio[o]) == s
  {
    assert s.prio[o := s.prio[o]] == s.prio;
  }

  lemma EnterKeys(s: Sys, prio: map<Tid, int>, t: Tid, m: Mid)
    requires m in s.mutexes && t in prio && forall w | w in s.mutexes[m].waiters :: w in prio
    ensures Enter(s, prio, t, m).mutexes.Keys == s.mutexes.Keys
  {
    hide Join;
  }

  /** A better priority of an owner is good enough for all its waiters. */
  lemma Relieved(s: Sys, o: Tid, p: int, n: Mid)
    requires Sound(s) && n in s.mutexes && o in s.prio && p <= s.prio[o]
    ensures s.mutexes[n].owner == Some(o) ==> AtLeast(s, n, p)
  {
    hide Sorted;
    assert SoundAt(s, n);
  }

  lemma SettledAlready(s: Sys, o: Tid)
    requires Linked(s) && Sound(s) && o in s.prio
    ensures !Unsettles(s, o, s.prio[o])
  {
    hide Linked;
    if o in s.blocked {
      ThreadLinks(s, o);
      assert SoundAt(s, s.blocked[o]);
    }
  }

  lemma UnsettledWhere(s: Sys, o: Tid, p: int)
    ensures Unsettles(s, o, p) ==> o in s.blocked && s.blocked[o] in s.mutexes
  {
  }

  /** Only priorities and mutexes matter. */
  lemma SameSound(s: Sys, r: Sys, n: Mid)
    requires r.prio == s.prio && n in s.mutexes && n in r.mutexes && r.mutexes[n] == s.mutexes[n]
    ensures SoundAt(r, n) <==> SoundAt(s, n)
  {
  }

  lemma DueEnough(s: Sys, m: Mid)
    requires m in s.mutexes && UnderCeiling(s) && s.mutexes[m].owner.Some? && Sorted(s.prio, s.mutexes[m].waiters)
    ensures AtLeast(s, m, Due(s, s.mutexes[m]))
  {
    var x := s.mutexes[m];
    forall w | w in x.waiters ensures w in s.prio && Due(s, x) <= s.prio[w] {
      var i :| 0 <= i < |x.waiters| && x.waiters[i] == w;
      assert x.waiters[0] in x.waiters && s.prio[x.waiters[0]] <= s.prio[w];
    }
  }

  /** Some mutex of `o`, other than `m`, has a waiter better than `p`. */
  lemma OverlooksWhere(s: Sys, o: Tid, m: Mid, p: int)
    requires Linked(s) && o in s.prio
    ensures Overlooks(s, o, m, p) <==>
            exists n | n in s.mutexes :: n != m && s.mutexes[n].owner == Some(o) && !AtLeast(s, n, p)
  {
    hide Linked, AtLeast;
    ThreadLinks(s, o);
    forall n | n in s.mutexes ensures n in s.owned[o] <==> s.mutexes[n].owner == Some(o) { WaitedMutex(s, o, n); }
  }

  lemma AdjustBreaksIff(s: Sys, u: Tid)
    requires Linked(s) && MayRun(s, Adjust(u)) && UnderCeiling(s) && Sound(s)
    ensures s.late[u] in s.mutexes && (forall w | w in s.mutexes[s.late[u]].waiters :: w in s.prio)
    ensures Sound(TakeBack(s, u)) <==> !Breaks(s, Adjust(u))
  {
    hide Linked, SoundAt, Unsettles, AtLeast, Overlooks, Due;
    TakeBackLinks(s, u);
    var m := s.late[u];
    var x, r := s.mutexes[m], TakeBack(s, u);
    OwnerOf(s, m);
    if x.owner.None? {
      forall n | n in r.mutexes ensures SoundAt(r, n) { SameSound(s, r, n); }
      return;
    }
    var o, p := x.owner.value, Due(s, x);
    SoundParts(s, m);
    DueEnough(s, m);
    OverlooksWhere(s, o, m, p);
    UnsettledWhere(s, o, p);
    forall n | n in r.mutexes
      ensures SoundAt(r, n) <==>
              !((n != m && s.mutexes[n].owner == Some(o) && !AtLeast(s, n, p))
                || (o in s.blocked && s.blocked[o] == n && Unsettles(s, o, p)))
    {
      SameSound(SetPrio(s, o, p), r, n);
      SetPrioSound(s, o, p, n);
    }
  }

  lemma SoundParts(s: Sys, n: Mid)
    requires Sound(s) && n in s.mutexes
    ensures FairAt(s, n) && Sorted(s.prio, s.mutexes[n].waiters)
  {
    assert SoundAt(s, n);
  }

  /** The first waiter is good enough for the others. */
  lemma HandOnSound(s: Sys, t: Tid, m: Mid)
    requires CanHandOn(s, t, m) && Sorted(s.prio, s.mutexes[m].waiters)
    ensures SoundAt(HandOn(s, t, m), m)
  {
    hide NoDup, Sorted, Remove;
    if s.mutexes[m].waiters != [] {
      SortedHead(s.prio, s.mutexes[m].waiters);
    } else {
      NoneSorted(s.prio);
    }
  }

  lemma NoneSorted(prio: map<Tid, int>)
    ensures Sorted(prio, [])
  {
  }

  lemma HandOnElsewhere(s: Sys, t: Tid, m: Mid, n: Mid)
    requires CanHandOn(s, t, m) && n in s.mutexes && n != m
    ensures n in HandOn(s, t, m).mutexes && HandOn(s, t, m).mutexes[n] == s.mutexes[n]
    ensures HandOn(s, t, m).prio == s.prio
  {
    hide NoDup, Remove;
  }

  lemma ReleaseBreaksIff(s: Sys, t: Tid, m: Mid)
    requires Linked(s) && MayRun(s, Unlock(t, m)) && s.mutexes[m].owner == Some(t) && Sound(s)
    ensures CanHandOn(s, t, m)
    ensures Sound(Release(s, t, m)) <==> !Overlooks(s, t, m, s.mutexes[m].orig)
  {
    hide Linked, SoundAt, CanHandOn, Release, HandOn, AtLeast, Overlooks;
    var p := s.mutexes[m].orig;
    var s1 := SetPrio(s, t, p);
    HandOnLinks(s, t, m);
    OwnerOf(s, m);
    ReleaseIs(s, t, m);
    PrioLinks(s, t, p);
    HandOnLinks(s1, t, m);
    KeysOf(s1);
    HandOnKeys(s1, t, m);
    var r := Release(s, t, m);
    SoundParts(s, m);
    SortedApart(s.prio, s.mutexes[m].waiters, t, p);
    HandOnSound(s1, t, m);
    OverlooksWhere(s, t, m, p);
    forall n | n in r.mutexes
      ensures SoundAt(r, n) <==> !(n != m && s.mutexes[n].owner == Some(t) && !AtLeast(s, n, p))
    {
      if n != m {
        HandOnElsewhere(s1, t, m, n);
        SameSound(s1, r, n);
        SetPrioSound(s, t, p, n);
      }
    }
  }

  lemma TakeSound(s: Sys, t: Tid, m: Mid)
    requires Linked(s) && t in s.prio && t in s.owned && m in s.mutexes && Sound(s)
    requires s.mutexes[m].count == 0 || s.mutexes[m].owner == Some(t)
    ensures Sound(Take(s, t, m))
  {
    hide Linked, Sorted;
    MutexLinks(s, m);
    forall n | n in s.mutexes ensures SoundAt(Take(s, t, m), n) { assert SoundAt(s, n); }
  }

  lemma GiveUpSound(s: Sys, t: Tid)
    requires Linked(s) && t in s.blocked && s.blocked[t] in s.mutexes && Sound(s)
    ensures Sound(GiveUp(s, t))
  {
    hide Linked, Sorted, NoDup, Remove;
    var m := s.blocked[t];
    MutexLinks(s, m);
    SoundParts(s, m);
    RemoveKeeps(s.prio, s.mutexes[m].waiters, t);
    forall n | n in s.mutexes ensures SoundAt(GiveUp(s, t), n) { assert SoundAt(s, n); }
  }

  lemma CountSound(s: Sys, m: Mid)
    requires m in s.mutexes && s.mutexes[m].count > 1 && Sound(s)
    ensures Sound(s.(mutexes := s.mutexes[m := s.mutexes[m].(count := s.mutexes[m].count - 1)]))
  {
    hide Sorted;
    var r := s.(mutexes := s.mutexes[m := s.mutexes[m].(count := s.mutexes[m].count - 1)]);
    forall n | n in s.mutexes ensures SoundAt(r, n) { assert SoundAt(s, n); }
  }

  /** The exact condition. A step leaves some owner worse than one of its waiters, or some wait
      queue out of order, if and only if it raises an owner that itself waits past a thread
      ahead of it or past the owner it waits for, or takes a priority back from a waiting owner
      or from one whose other mutexes have better waiters. */
  lemma NextBreaksIff(s: Sys, op: Op)
    requires Linked(s) && MayRun(s, op) && UnderCeiling(s) && Sound(s)
    ensures Sound(Next(s, op)) <==> !Breaks(s, op)
  {
    hide Linked, Sound, SoundAt, LinkedMutex, LinkedThread, Take, Wait, GiveUp, TakeBack, Release, Due, Unsettles,
      Overlooks;
    match op
    case Lock(t, m, wait) =>
      OwnerOf(s, m);
      ThreadLinks(s, t);
      if s.mutexes[m].count == 0 || s.mutexes[m].owner == Some(t) {
        TakeSound(s, t, m);
      } else if wait {
        WaitBreaksIff(s, t, m);
      }
    case Expire(t) =>
      GiveUpLinks(s, t);
      GiveUpSound(s, t);
    case Adjust(u) => AdjustBreaksIff(s, u);
    case Unlock(t, m) =>
      OwnerOf(s, m);
      if s.mutexes[m].owner == Some(t) {
        if s.mutexes[m].count > 1 {
          CountSound(s, m);
        } else {
          ReleaseBreaksIff(s, t, m);
        }
      }
  }

  // ---------- Whole runs ----------

  lemma NextUnderCeiling(s: Sys, op: Op)
    requires Linked(s) && MayRun(s, op) && UnderCeiling(s)
    ensures UnderCeiling(Next(s, op))
  {
    hide Linked, NoDup, Join, Remove;
    KeysOf(s);
    match op
    case Lock(t, m, _) => OwnerOf(s, m);
    case Expire(t) => GiveUpLinks(s, t);
    case Adjust(t) => TakeBackLinks(s, t);
    case Unlock(t, m) =>
      OwnerOf(s, m);
      assert s.mutexes[m].waiters != [] ==> s.mutexes[m].waiters[0] in s.mutexes[m].waiters;
  }

  ghost predicate ChainAllowed(s: Sys, ops: seq<Op>)
    requires Linked(s)
    decreases |ops|
  {
    ops != [] ==> MayRun(s, ops[0]) && (NextLinks(s, ops[0]); ChainAllowed(Next(s, ops[0]), ops[1..]))
  }

  ghost function Chain(s: Sys, ops: seq<Op>): Sys
    requires Linked(s) && ChainAllowed(s, ops)
    decreases |ops|
  {
    if ops == [] then s else (NextLinks(s, ops[0]); Chain(Next(s, ops[0]), ops[1..]))
  }

  ghost predicate NeverBreaks(s: Sys, ops: seq<Op>)
    requires Linked(s) && ChainAllowed(s, ops)
    decreases |ops|
  {
    ops != [] ==> !Breaks(s, ops[0]) && (NextLinks(s, ops[0]); NeverBreaks(Next(s, ops[0]), ops[1..]))
  }

  /** Over every run without such a step, with owners that wait for other mutexes to any depth,
      no owner is worse than a waiter and every wait queue is in order. */
  lemma {:induction false} SoundUntilBroken(s: Sys, ops: seq<Op>)
    requires Linked(s) && ChainAllowed(s, ops) && UnderCeiling(s) && Sound(s) && NeverBreaks(s, ops)
    ensures Linked(Chain(s, ops)) && Sound(Chain(s, ops))
    decreases |ops|
  {
    hide Linked, MayRun, Next, UnderCeiling, Sound, Breaks;
    if ops != [] {
      NextLinks(s, ops[0]);
      NextBreaksIff(s, ops[0]);
      NextUnderCeiling(s, ops[0]);
      SoundUntilBroken(Next(s, ops[0]), ops[1..]);
    }
  }

  lemma ChainCons(s: Sys, op: Op, ops: seq<Op>)
    requires Linked(s) && MayRun(s, op)
    ensures Linked(Next(s, op))
    ensures ChainAllowed(Next(s, op), ops) ==>
              ChainAllowed(s, [op] + ops) && Chain(s, [op] + ops) == Chain(Next(s, op), ops)
  {
    hide Linked, MayRun, Next;
    NextLinks(s, op);
    assert ([op] + ops)[1..] == ops;
  }

  // ---------- A chain of waiting owners ----------

  /** Threads 2 and 3 own nothing; their priorities are 5 and 7. */
  function Scene(p: int, q: int, a: Mutex, b: Mutex, blocked: map<Tid, Mid>, mine: seq<Mid>, yours: seq<Mid>): Sys {
    Sys(-127, map[0 := p, 1 := q, 2 := 5, 3 := 7], map[0 := a, 1 := b], blocked, map[],
        map[0 := mine, 1 := yours, 2 := [], 3 := []], map[0 := 10, 1 := 8, 2 := 5, 3 := 7])
  }

  const FREE := Mutex(None, 0, 0, [])

  function Opening(): Sys { Scene(10, 8, FREE, FREE, map[], [], []) }

  function OneTaken(): Sys { Scene(10, 8, Mutex(Some(0), 1, 10, []), FREE, map[], [0], []) }

  function TwoTaken(): Sys { Scene(10, 8, Mutex(Some(0), 1, 10, []), Mutex(Some(1), 1, 8, []), map[], [0], [1]) }

  function OwnerWaits(): Sys {
    Scene(8, 8, Mutex(Some(0), 1, 10, [1]), Mutex(Some(1), 1, 8, []), map[1 := 0], [0], [1])
  }

  function BothWait(): Sys {
    Scene(7, 8, Mutex(Some(0), 1, 10, [3, 1]), Mutex(Some(1), 1, 8, []), map[1 := 0, 3 := 0], [0], [1])
  }

  function Raised(): Sys {
    Scene(7, 5, Mutex(Some(0), 1, 10, [3, 1]), Mutex(Some(1), 1, 8, [2]), map[1 := 0, 3 := 0, 2 := 1], [0], [1])
  }

  lemma OpeningOk()
    ensures Opening() == Idle(-127, map[0 := 10, 1 := 8, 2 := 5, 3 := 7], {0, 1})
    ensures Linked(Opening())
  {
    hide Linked, Inv;
    var s, r := Opening(), Idle(-127, map[0 := 10, 1 := 8, 2 := 5, 3 := 7], {0, 1});
    assert s.mutexes == r.mutexes && s.owned == r.owned;
    IdleOk(-127, map[0 := 10, 1 := 8, 2 := 5, 3 := 7], {0, 1});
    InvIsLinked(s);
  }

  lemma FirstTakes()
    requires Linked(Opening())
    ensures MayRun(Opening(), Lock(0, 0, true)) && Next(Opening(), Lock(0, 0, true)) == OneTaken()
  {
    hide Linked;
    assert Opening().owned[0] + [0] == [0];
  }

  lemma SecondTakes()
    requires Linked(OneTaken())
    ensures MayRun(OneTaken(), Lock(1, 1, true)) && Next(OneTaken(), Lock(1, 1, true)) == TwoTaken()
  {
    hide Linked;
    assert OneTaken().owned[1] + [1] == [1];
  }

  lemma SecondWaits()
    requires Linked(TwoTaken())
    ensures MayRun(TwoTaken(), Lock(1, 0, true)) && Next(TwoTaken(), Lock(1, 0, true)) == OwnerWaits()
  {
    hide Linked;
    assert Join(TwoTaken().prio, [], 1) == [1];
  }

  lemma ThirdWaits()
    requires Linked(OwnerWaits())
    ensures MayRun(OwnerWaits(), Lock(3, 0, true)) && Next(OwnerWaits(), Lock(3, 0, true)) == BothWait()
  {
    hide Linked, Join;
    JoinPlace(OwnerWaits().prio, [1], 3, 0);
    assert [1][..0] + [3] + [1][0..] == [3, 1];
  }

  lemma FourthWaits()
    requires Linked(BothWait())
    ensures MayRun(BothWait(), Lock(2, 1, true)) && Next(BothWait(), Lock(2, 1, true)) == Raised()
  {
    hide Linked;
    assert Join(BothWait().prio, [], 2) == [2];
  }

  /** Thread 2 raises thread 1, which owns mutex 1 and waits for mutex 0 behind thread 3. The
      loan does not reach the owner of mutex 0, the queue is out of order, and the release of
      mutex 0 passes thread 1 over. */
  lemma ChainInverts()
    ensures Linked(Opening())
    ensures var ops := [Lock(0, 0, true), Lock(1, 1, true), Lock(1, 0, true), Lock(3, 0, true), Lock(2, 1, true)];
            && ChainAllowed(Opening(), ops) && Chain(Opening(), ops) == Raised() && Linked(Raised())
            && !FairAt(Raised(), 0) && !Sorted(Raised().prio, Raised().mutexes[0].waiters)
            && MayRun(Raised(), Unlock(0, 0))
            && var r := Next(Raised(), Unlock(0, 0));
               0 in r.mutexes && r.mutexes[0].owner == Some(3) && r.prio[1] < r.prio[3]
  {
    hide Linked, MayRun, Next, Opening, OneTaken, TwoTaken, OwnerWaits, BothWait, Raised, FairAt, Sorted;
    var a, b, c, d, e := Lock(0, 0, true), Lock(1, 1, true), Lock(1, 0, true), Lock(3, 0, true), Lock(2, 1, true);
    OpeningOk();
    FirstTakes();
    ChainCons(Opening(), a, [b] + ([c] + ([d] + ([e] + []))));
    SecondTakes();
    ChainCons(OneTaken(), b, [c] + ([d] + ([e] + [])));
    SecondWaits();
    ChainCons(TwoTaken(), c, [d] + ([e] + []));
    ThirdWaits();
    ChainCons(OwnerWaits(), d, [e] + []);
    FourthWaits();
    ChainCons(BothWait(), e, []);
    assert [a, b, c, d, e] == [a] + ([b] + ([c] + ([d] + ([e] + []))));
    RaisedIsBroken();
    RaisedReleases();
  }

  lemma RaisedIsBroken()
    ensures 0 in Raised().mutexes && !FairAt(Raised(), 0) && !Sorted(Raised().prio, Raised().mutexes[0].waiters)
  {
    var prio, q := Raised().prio, Raised().mutexes[0].waiters;
    assert q[1] == 1 && 1 in q && prio[q[0]] > prio[q[1]];
  }

  lemma RaisedReleases()
    requires Linked(Raised())
    ensures MayRun(Raised(), Unlock(0, 0))
    ensures var r := Next(Raised(), Unlock(0, 0));
            && 0 in r.mutexes && r.mutexes[0].owner == Some(3) && 1 in r.prio && 3 in r.prio && r.prio[1] < r.prio[3]
  {
    hide Linked, Remove;
  }
}
