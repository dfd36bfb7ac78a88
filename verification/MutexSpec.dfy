/**
  Mutexes with priority inheritance. A lower number is a better priority. A thread that
  blocks lends its priority to the owner; a thread that gives up waiting takes the loan
  back in a second step, when it runs again.
 */
module MutexSpec {
  import opened Common

  type Tid = nat
  type Mid = nat

  datatype Mutex = Mutex(owner: Option<Tid>, count: nat, orig: int, waiters: seq<Tid>)

  /** `blocked` gives the mutex a thread waits for, `late` the mutex whose owner a thread
      that has timed out still has to adjust. `owned` lists the mutexes of each thread in
      the order it took them, and `base` is the priority each thread started with. */
  datatype Sys = Sys(
    ceiling: int, prio: map<Tid, int>, mutexes: map<Mid, Mutex>, blocked: map<Tid, Mid>, late: map<Tid, Mid>,
    owned: map<Tid, seq<Mid>>, base: map<Tid, int>)

  datatype Op = Lock(t: Tid, m: Mid, wait: bool) | Expire(t: Tid) | Adjust(t: Tid) | Unlock(t: Tid, m: Mid)

  datatype Code = Done | Blocked | EBUSY | EAGAIN | EINVAL | EPERM

  // ---------- Operations ----------

  function Better(a: int, b: int): int { if a < b then a else b }

  function Inherit(ceiling: int, target: int, limit: int): int {
    var p := if target < limit then target else limit;
    if p >= ceiling then p else ceiling
  }

  /** A thread joins a wait queue before the first waiter of strictly worse priority. */
  function Join(prio: map<Tid, int>, q: seq<Tid>, t: Tid): seq<Tid>
    requires t in prio && forall w | w in q :: w in prio
  {
    if q == [] then [t]
    else if prio[t] < prio[q[0]] then [t] + q
    else [q[0]] + Join(prio, q[1..], t)
  }

  /** The priority an owner should have: the better of its own and that of the first waiter. */
  function Due(s: Sys, x: Mutex): int
    requires forall w | w in x.waiters :: w in s.prio
  {
    if x.waiters == [] then x.orig else Inherit(s.ceiling, s.prio[x.waiters[0]], x.orig)
  }

  function Take(s: Sys, t: Tid, m: Mid): Sys
    requires t in s.prio && m in s.mutexes && t in s.owned
  {
    var x := s.mutexes[m];
    s.(mutexes := s.mutexes[m := Mutex(Some(t), x.count + 1, if x.count == 0 then s.prio[t] else x.orig, x.waiters)],
       owned := if x.count == 0 then s.owned[t := s.owned[t] + [m]] else s.owned)
  }

  function Wait(s: Sys, t: Tid, m: Mid): Sys
    requires t in s.prio && m in s.mutexes && s.mutexes[m].owner.Some? && s.mutexes[m].owner.value in s.prio
    requires forall w | w in s.mutexes[m].waiters :: w in s.prio
  {
    var x := s.mutexes[m];
    var o := x.owner.value;
    var p := Inherit(s.ceiling, s.prio[t], s.prio[o]);
    s.(prio := if p < s.prio[o] then s.prio[o := p] else s.prio,
       mutexes := s.mutexes[m := x.(waiters := Join(s.prio, x.waiters, t))],
       blocked := s.blocked[t := m])
  }

  function GiveUp(s: Sys, t: Tid): Sys
    requires t in s.blocked && s.blocked[t] in s.mutexes
  {
    var m := s.blocked[t];
    s.(mutexes := s.mutexes[m := s.mutexes[m].(waiters := Remove(s.mutexes[m].waiters, t))],
       blocked := s.blocked - {t}, late := s.late[t := m])
  }

  function TakeBack(s: Sys, t: Tid): Sys
    requires t in s.late && s.late[t] in s.mutexes && forall w | w in s.mutexes[s.late[t]].waiters :: w in s.prio
  {
    var x := s.mutexes[s.late[t]];
    s.(prio := if x.owner.Some? then s.prio[x.owner.value := Due(s, x)] else s.prio, late := s.late - {t})
  }

  /** The last unlock returns the owner to its own priority and hands the mutex to the first waiter. */
  function Release(s: Sys, t: Tid, m: Mid): Sys
    requires t in s.prio && m in s.mutexes && t in s.owned
    requires forall w | w in s.mutexes[m].waiters :: w in s.prio && w in s.owned
  {
    var x := s.mutexes[m];
    var r := s.(prio := s.prio[t := x.orig], owned := s.owned[t := Remove(s.owned[t], m)]);
    if x.waiters == [] then r.(mutexes := s.mutexes[m := Mutex(None, 0, x.orig, [])])
    else
      var w := x.waiters[0];
      r.(mutexes := s.mutexes[m := Mutex(Some(w), x.count, r.prio[w], x.waiters[1..])],
         blocked := s.blocked - {w},
         owned := r.owned[w := r.owned[w] + [m]])
  }

  // ---------- Invariant ----------

  ghost predicate Sorted(prio: map<Tid, int>, q: seq<Tid>) {
    && (forall w | w in q :: w in prio)
    && forall i, j | 0 <= i < j < |q| :: prio[q[i]] <= prio[q[j]]
  }

  ghost predicate MutexOk(s: Sys, m: Mid)
    requires m in s.mutexes
  {
    var x := s.mutexes[m];
    && (x.count > 0 <==> x.owner.Some?)
    && (x.owner.None? ==> x.waiters == [])
    && (x.owner.Some? ==> x.owner.value in s.prio && x.owner.value in s.owned && m in s.owned[x.owner.value])
    && Sorted(s.prio, x.waiters) && NoDup(x.waiters)
    && (forall w | w in x.waiters :: w in s.blocked && s.blocked[w] == m)
  }

  ghost predicate ThreadOk(s: Sys, t: Tid)
    requires t in s.prio && t in s.owned
  {
    && NoDup(s.owned[t])
    && (forall m | m in s.owned[t] :: m in s.mutexes && s.mutexes[m].owner == Some(t))
    && (t in s.blocked ==>
       s.blocked[t] in s.mutexes && t in s.mutexes[s.blocked[t]].waiters && t !in s.late && s.owned[t] == [])
    && (t in s.late ==> s.late[t] in s.mutexes && s.owned[t] == [])
  }

  ghost predicate Keyed(s: Sys) {
    s.owned.Keys == s.prio.Keys && s.base.Keys == s.prio.Keys && s.blocked.Keys <= s.prio.Keys
    && s.late.Keys <= s.prio.Keys
  }

  ghost predicate Inv(s: Sys) {
    && Keyed(s)
    && (forall m | m in s.mutexes :: MutexOk(s, m))
    && (forall t | t in s.prio :: ThreadOk(s, t))
  }

  /** A thread that runs is neither waiting nor on its way out of a wait; nobody waits
      while owning a mutex. */
  ghost predicate Allowed(s: Sys, op: Op) {
    match op
    case Lock(t, m, wait) =>
      && t in s.prio && t in s.owned && m in s.mutexes && t !in s.blocked && t !in s.late
      && (s.mutexes[m].owner.Some? && s.mutexes[m].owner != Some(t) && wait ==> s.owned[t] == [])
    case Expire(t) => t in s.blocked
    case Adjust(t) => t in s.late
    case Unlock(t, m) => t in s.prio && m in s.mutexes && t !in s.blocked && t !in s.late
  }

  ghost function Step(s: Sys, op: Op): Sys
    requires Inv(s) && Allowed(s, op)
  {
    match op
    case Lock(t, m, wait) =>
      assert MutexOk(s, m);
      var x := s.mutexes[m];
      if x.count == 0 || x.owner == Some(t) then Take(s, t, m)
      else if !wait then s
      else Wait(s, t, m)
    case Expire(t) => assert ThreadOk(s, t); GiveUp(s, t)
    case Adjust(t) => assert ThreadOk(s, t); assert MutexOk(s, s.late[t]); TakeBack(s, t)
    case Unlock(t, m) =>
      assert MutexOk(s, m);
      var x := s.mutexes[m];
      if x.owner != Some(t) then s
      else if x.count > 1 then s.(mutexes := s.mutexes[m := x.(count := x.count - 1)])
      else Release(s, t, m)
  }

  function Outcome(s: Sys, op: Op): Code
    requires (op.Lock? || op.Unlock?) ==> op.m in s.mutexes
  {
    match op
    case Lock(t, m, wait) =>
      if s.mutexes[m].count == 0 || s.mutexes[m].owner == Some(t) then Done else if wait then Blocked else EBUSY
    case Expire(_) => Blocked
    case Adjust(_) => EAGAIN
    case Unlock(t, m) =>
      if s.mutexes[m].owner.None? then EINVAL else if s.mutexes[m].owner != Some(t) then EPERM else Done
  }

  // ---------- Wait queues ----------

  lemma JoinIs(prio: map<Tid, int>, q: seq<Tid>, t: Tid)
    requires t in prio && Sorted(prio, q) && NoDup(q) && t !in q
    ensures var r := Join(prio, q, t);
            && Sorted(prio, r) && NoDup(r) && (forall w :: w in r <==> w == t || w in q)
            && prio[r[0]] == (if q == [] then prio[t] else Better(prio[t], prio[q[0]]))
  {
    JoinMembers(prio, q, t);
    JoinSorted(prio, q, t);
  }

  lemma {:induction false} JoinMembers(prio: map<Tid, int>, q: seq<Tid>, t: Tid)
    requires t in prio && (forall w | w in q :: w in prio) && NoDup(q) && t !in q
    ensures var r := Join(prio, q, t); NoDup(r) && forall w :: w in r <==> w == t || w in q
  {
    if q != [] && prio[t] >= prio[q[0]] {
      assert q == [q[0]] + q[1..];
      JoinMembers(prio, q[1..], t);
      assert q[0] !in Join(prio, q[1..], t);
    } else {
      assert forall w :: w in [t] + q <==> w == t || w in q;
    }
  }

  lemma SortedCons(prio: map<Tid, int>, t: Tid, q: seq<Tid>)
    requires Sorted(prio, q) && t in prio && forall w | w in q :: prio[t] <= prio[w]
    ensures Sorted(prio, [t] + q)
  {
    var r := [t] + q;
    assert forall i | 1 <= i < |r| :: r[i] == q[i - 1] && r[i] in q;
  }

  lemma SortedTail(prio: map<Tid, int>, q: seq<Tid>)
    requires Sorted(prio, q) && q != []
    ensures q == [q[0]] + q[1..] && q[0] in prio && Sorted(prio, q[1..])
    ensures forall w | w in q[1..] :: w in prio && prio[q[0]] <= prio[w]
  {
    assert q[0] in q;
  }

  lemma {:induction false} JoinSorted(prio: map<Tid, int>, q: seq<Tid>, t: Tid)
    requires t in prio && Sorted(prio, q) && forall w | w in q :: w in prio
    ensures Sorted(prio, Join(prio, q, t)) && forall w | w in Join(prio, q, t) :: w == t || w in q
  {
    hide Sorted;
    if q == [] {
      SortedCons(prio, t, q);
      assert [t] + q == [t];
    } else {
      SortedTail(prio, q);
      if prio[t] < prio[q[0]] {
        SortedCons(prio, t, q);
      } else {
        JoinSorted(prio, q[1..], t);
        SortedCons(prio, q[0], Join(prio, q[1..], t));
      }
    }
  }

  /** Equal priorities keep their order: a thread joins behind the waiters that are as good,
      before the first that is worse. */
  lemma {:induction false} JoinPlace(prio: map<Tid, int>, q: seq<Tid>, t: Tid, k: nat)
    requires t in prio && (forall w | w in q :: w in prio) && k <= |q|
    requires forall i | 0 <= i < k :: prio[q[i]] <= prio[t]
    requires k < |q| ==> prio[t] < prio[q[k]]
    ensures Join(prio, q, t) == q[..k] + [t] + q[k..]
  {
    if k == 0 {
      assert q[..0] == [] && q[0..] == q;
    } else {
      assert prio[q[0]] <= prio[t];
      JoinPlace(prio, q[1..], t, k - 1);
      assert q[..k] == [q[0]] + q[1..][..k - 1];
      assert q[k..] == q[1..][k - 1..];
    }
  }

  lemma RemoveKeeps(prio: map<Tid, int>, q: seq<Tid>, t: Tid)
    requires NoDup(q) && Sorted(prio, q)
    ensures var r := Remove(q, t); NoDup(r) && Sorted(prio, r) && forall w :: w in r <==> w in q && w != t
  {
    hide NoDup, Sorted, Remove;
    RemoveIs(q, t);
    RemoveSorted(prio, q, t);
  }

  lemma {:induction false} RemoveSorted(prio: map<Tid, int>, q: seq<Tid>, t: Tid)
    requires Sorted(prio, q)
    ensures Sorted(prio, Remove(q, t)) && forall w | w in Remove(q, t) :: w in q
  {
    hide Sorted;
    if q != [] {
      SortedTail(prio, q);
      if q[0] != t {
        RemoveSorted(prio, q[1..], t);
        SortedCons(prio, q[0], Remove(q[1..], t));
      }
    }
  }

  lemma {:induction false} RemoveLast(q: seq<nat>, t: nat)
    requires NoDup(q) && q != [] && q[|q| - 1] == t
    ensures Remove(q, t) == q[..|q| - 1]
  {
    if |q| > 1 {
      assert q[0] != t;
      assert q[1..][|q| - 2] == t;
      RemoveLast(q[1..], t);
      assert q[..|q| - 1] == [q[0]] + q[1..][..|q| - 2];
    }
  }

  // ---------- Every operation keeps the invariant ----------

  lemma SortedHead(prio: map<Tid, int>, q: seq<Tid>)
    requires q != [] && NoDup(q) && Sorted(prio, q)
    ensures NoDup(q[1..]) && Sorted(prio, q[1..]) && q[0] !in q[1..] && q[0] in prio
    ensures forall w :: w in q <==> w == q[0] || w in q[1..]
    ensures forall w | w in q[1..] :: w in prio && prio[q[0]] <= prio[w]
  {
    assert q == [q[0]] + q[1..];
    assert q[0] in q;
  }

  lemma MutexOf(s: Sys, m: Mid)
    requires Inv(s) && m in s.mutexes
    ensures MutexOk(s, m)
  {
  }

  lemma ThreadOf(s: Sys, t: Tid)
    requires Inv(s) && t in s.prio
    ensures t in s.owned && ThreadOk(s, t) && Keyed(s)
  {
  }

  lemma OwnersDoNotWait(s: Sys, o: Tid, n: Mid)
    requires o in s.prio && o in s.owned && s.owned[o] != [] && n in s.mutexes && ThreadOk(s, o) && MutexOk(s, n)
    ensures o !in s.mutexes[n].waiters
  {
  }

  lemma SameOrder(p: map<Tid, int>, r: map<Tid, int>, q: seq<Tid>, o: Tid)
    requires Sorted(p, q) && o !in q && forall w | w in p && w != o :: w in r && r[w] == p[w]
    ensures Sorted(r, q)
  {
    forall w | w in q ensures w in r && r[w] == p[w] { assert w != o; }
  }

  /** It is enough to look at each mutex and each thread. */
  lemma InvHolds(s: Sys)
    requires Keyed(s)
    requires forall m | m in s.mutexes :: MutexOk(s, m)
    requires forall t | t in s.prio :: ThreadOk(s, t)
    ensures Inv(s)
  {
  }

  lemma TakeKeeps(s: Sys, t: Tid, m: Mid)
    requires Inv(s) && t in s.prio && t in s.owned && m in s.mutexes && t !in s.blocked && t !in s.late
    requires s.mutexes[m].count == 0 || s.mutexes[m].owner == Some(t)
    ensures Inv(Take(s, t, m))
  {
    hide Inv, MutexOk, ThreadOk;
    var r := Take(s, t, m);
    MutexOf(s, m);
    ThreadOf(s, t);
    forall n | n in r.mutexes ensures MutexOk(r, n) { MutexOf(s, n); TakeMutex(s, t, m, n); }
    forall u | u in r.prio ensures ThreadOk(r, u) { ThreadOf(s, u); TakeThread(s, t, m, u); }
    InvHolds(r);
  }

  lemma TakeMutex(s: Sys, t: Tid, m: Mid, n: Mid)
    requires t in s.prio && t in s.owned && m in s.mutexes && n in s.mutexes
    requires MutexOk(s, m) && MutexOk(s, n) && ThreadOk(s, t)
             && (s.mutexes[m].count == 0 || s.mutexes[m].owner == Some(t))
    ensures MutexOk(Take(s, t, m), n)
  {
    hide Sorted, NoDup;
  }

  lemma TakeThread(s: Sys, t: Tid, m: Mid, u: Tid)
    requires t in s.prio && t in s.owned && m in s.mutexes && u in s.prio && u in s.owned && t !in s.blocked
             && t !in s.late
    requires MutexOk(s, m) && ThreadOk(s, u) && ThreadOk(s, t)
             && (s.mutexes[m].count == 0 || s.mutexes[m].owner == Some(t))
    ensures ThreadOk(Take(s, t, m), u)
  {
    hide Sorted, NoDup;
    if s.mutexes[m].count == 0 { AppendNew(s.owned[t], m); }
  }

  ghost predicate CanWait(s: Sys, t: Tid, m: Mid) {
    && t in s.prio && t in s.owned && m in s.mutexes && t !in s.blocked && t !in s.late && s.owned[t] == []
    && s.mutexes[m].owner.Some? && s.mutexes[m].owner != Some(t) && s.mutexes[m].owner.value in s.prio
    && MutexOk(s, m) && ThreadOk(s, t) && s.mutexes[m].owner.value in s.owned && ThreadOk(s, s.mutexes[m].owner.value)
    && (forall w | w in s.mutexes[m].waiters :: w in s.prio)
  }

  lemma WaitKeeps(s: Sys, t: Tid, m: Mid)
    requires Inv(s) && CanWait(s, t, m)
    ensures Inv(Wait(s, t, m))
  {
    hide Inv, MutexOk, ThreadOk, Inherit, CanWait;
    CanWaitIs(s, t, m);
    ThreadOf(s, t);
    var r := Wait(s, t, m);
    forall n | n in r.mutexes ensures MutexOk(r, n) { MutexOf(s, n); WaitMutex(s, t, m, n); }
    forall u | u in r.prio ensures ThreadOk(r, u) { ThreadOf(s, u); WaitThread(s, t, m, u); }
    InvHolds(r);
  }

  lemma CanWaitIs(s: Sys, t: Tid, m: Mid)
    requires CanWait(s, t, m)
    ensures t in s.prio && m in s.mutexes && s.mutexes[m].owner.Some? && s.mutexes[m].owner.value in s.prio
    ensures forall w | w in s.mutexes[m].waiters :: w in s.prio
  {
  }

  lemma WaitMutex(s: Sys, t: Tid, m: Mid, n: Mid)
    requires CanWait(s, t, m) && n in s.mutexes && MutexOk(s, n)
    ensures MutexOk(Wait(s, t, m), n)
  {
    hide Sorted, NoDup, Join, Inherit;
    var r, x := Wait(s, t, m), s.mutexes[m];
    assert t !in x.waiters;
    JoinIs(s.prio, x.waiters, t);
    OwnersDoNotWait(s, x.owner.value, n);
    SameOrder(s.prio, r.prio, r.mutexes[n].waiters, x.owner.value);
  }

  lemma WaitThread(s: Sys, t: Tid, m: Mid, u: Tid)
    requires CanWait(s, t, m) && u in s.prio && u in s.owned && ThreadOk(s, u)
    ensures ThreadOk(Wait(s, t, m), u)
  {
    hide Sorted, NoDup, Join;
    assert t !in s.mutexes[m].waiters;
    JoinIs(s.prio, s.mutexes[m].waiters, t);
  }

  lemma GiveUpKeeps(s: Sys, t: Tid)
    requires Inv(s) && t in s.blocked && t in s.prio && s.blocked[t] in s.mutexes
    ensures Inv(GiveUp(s, t))
  {
    hide Inv, MutexOk, ThreadOk;
    var r, m := GiveUp(s, t), s.blocked[t];
    ThreadOf(s, t);
    MutexOf(s, m);
    forall n | n in r.mutexes ensures MutexOk(r, n) { MutexOf(s, n); GiveUpMutex(s, t, n); }
    forall u | u in r.prio ensures ThreadOk(r, u) { ThreadOf(s, u); GiveUpThread(s, t, u); }
    InvHolds(r);
  }

  lemma GiveUpMutex(s: Sys, t: Tid, n: Mid)
    requires t in s.blocked && s.blocked[t] in s.mutexes && t in s.prio && t in s.owned && n in s.mutexes
    requires MutexOk(s, s.blocked[t]) && MutexOk(s, n) && ThreadOk(s, t)
    ensures MutexOk(GiveUp(s, t), n)
  {
    hide Sorted, NoDup, Remove;
    RemoveKeeps(s.prio, s.mutexes[s.blocked[t]].waiters, t);
  }

  lemma GiveUpThread(s: Sys, t: Tid, u: Tid)
    requires t in s.blocked && s.blocked[t] in s.mutexes && t in s.prio && t in s.owned && u in s.prio && u in s.owned
    requires MutexOk(s, s.blocked[t]) && ThreadOk(s, u) && ThreadOk(s, t)
    ensures ThreadOk(GiveUp(s, t), u)
  {
    hide Sorted, NoDup, Remove;
    RemoveKeeps(s.prio, s.mutexes[s.blocked[t]].waiters, t);
  }

  ghost predicate CanTakeBack(s: Sys, t: Tid) {
    && t in s.late && s.late[t] in s.mutexes && t in s.prio && MutexOk(s, s.late[t])
    && (s.mutexes[s.late[t]].owner.Some? ==>
          var o := s.mutexes[s.late[t]].owner.value; o in s.prio && o in s.owned && ThreadOk(s, o))
    && (forall w | w in s.mutexes[s.late[t]].waiters :: w in s.prio)
  }

  lemma TakeBackKeeps(s: Sys, t: Tid)
    requires Inv(s) && CanTakeBack(s, t)
    ensures Inv(TakeBack(s, t))
  {
    hide Inv, MutexOk, ThreadOk, Due;
    var r := TakeBack(s, t);
    ThreadOf(s, t);
    forall n | n in r.mutexes ensures MutexOk(r, n) { MutexOf(s, n); TakeBackMutex(s, t, n); }
    forall u | u in r.prio ensures ThreadOk(r, u) { ThreadOf(s, u); TakeBackThread(s, t, u); }
    InvHolds(r);
  }

  lemma TakeBackMutex(s: Sys, t: Tid, n: Mid)
    requires CanTakeBack(s, t) && n in s.mutexes && MutexOk(s, n)
    ensures MutexOk(TakeBack(s, t), n)
  {
    hide Sorted, NoDup, Due;
    var r, x := TakeBack(s, t), s.mutexes[s.late[t]];
    if x.owner.Some? {
      OwnersDoNotWait(s, x.owner.value, n);
      SameOrder(s.prio, r.prio, s.mutexes[n].waiters, x.owner.value);
    }
  }

  lemma TakeBackThread(s: Sys, t: Tid, u: Tid)
    requires CanTakeBack(s, t) && u in s.prio && u in s.owned && ThreadOk(s, u)
    ensures ThreadOk(TakeBack(s, t), u)
  {
    hide Sorted, NoDup;
  }

  ghost predicate CanRelease(s: Sys, t: Tid, m: Mid) {
    && t in s.prio && t in s.owned && m in s.mutexes && s.mutexes[m].owner == Some(t) && s.mutexes[m].count == 1
    && MutexOk(s, m) && ThreadOk(s, t) && (forall w | w in s.mutexes[m].waiters :: w in s.prio && w in s.owned)
    && (s.mutexes[m].waiters != [] ==> ThreadOk(s, s.mutexes[m].waiters[0]))
  }

  lemma ReleaseKeeps(s: Sys, t: Tid, m: Mid)
    requires Inv(s) && CanRelease(s, t, m)
    ensures Inv(Release(s, t, m))
  {
    hide Inv, MutexOk, ThreadOk;
    var r := Release(s, t, m);
    ThreadOf(s, t);
    forall n | n in r.mutexes ensures MutexOk(r, n) { MutexOf(s, n); ReleaseMutex(s, t, m, n); }
    forall u | u in r.prio ensures ThreadOk(r, u) { ThreadOf(s, u); ReleaseThread(s, t, m, u); }
    InvHolds(r);
  }

  lemma ReleaseMutex(s: Sys, t: Tid, m: Mid, n: Mid)
    requires CanRelease(s, t, m) && n in s.mutexes && MutexOk(s, n)
    ensures MutexOk(Release(s, t, m), n)
  {
    hide Sorted, NoDup, Remove;
    var r, x := Release(s, t, m), s.mutexes[m];
    RemoveIs(s.owned[t], m);
    OwnersDoNotWait(s, t, n);
    SameOrder(s.prio, r.prio, s.mutexes[n].waiters, t);
    if x.waiters != [] {
      SortedHead(s.prio, x.waiters);
      OwnersDoNotWait(s, t, m);
      if n == m { SortedHead(r.prio, x.waiters); }
    }
  }

  lemma ReleaseThread(s: Sys, t: Tid, m: Mid, u: Tid)
    requires CanRelease(s, t, m) && u in s.prio && u in s.owned && ThreadOk(s, u)
    ensures ThreadOk(Release(s, t, m), u)
  {
    hide Sorted, NoDup, Remove;
    var x := s.mutexes[m];
    RemoveIs(s.owned[t], m);
    if x.waiters != [] {
      SortedHead(s.prio, x.waiters);
      OwnersDoNotWait(s, t, m);
      AppendNew([], m);
      assert [] + [m] == [m];
    }
  }

  lemma MayWait(s: Sys, t: Tid, m: Mid)
    requires Inv(s) && t in s.prio && m in s.mutexes && t !in s.blocked && t !in s.late && s.owned[t] == []
    requires s.mutexes[m].owner.Some? && s.mutexes[m].owner != Some(t)
    ensures CanWait(s, t, m)
  {
    hide Inv;
    ThreadOf(s, t);
    MutexOf(s, m);
    ThreadOf(s, s.mutexes[m].owner.value);
  }

  lemma MayTakeBack(s: Sys, t: Tid)
    requires Inv(s) && t in s.late
    ensures CanTakeBack(s, t)
  {
    hide Inv;
    InLate(s, t);
    ThreadOf(s, t);
    var m := s.late[t];
    MutexOf(s, m);
    if s.mutexes[m].owner.Some? { ThreadOf(s, s.mutexes[m].owner.value); }
  }

  lemma InLate(s: Sys, t: Tid)
    requires Inv(s)
    ensures t in s.late || t in s.blocked ==> t in s.prio
  {
  }

  lemma MayRelease(s: Sys, t: Tid, m: Mid)
    requires Inv(s) && t in s.prio && m in s.mutexes && s.mutexes[m].owner == Some(t) && s.mutexes[m].count == 1
    ensures CanRelease(s, t, m)
  {
    hide Inv;
    ThreadOf(s, t);
    MutexOf(s, m);
    var q := s.mutexes[m].waiters;
    if q != [] {
      assert q[0] in q;
      ThreadOf(s, q[0]);
    }
  }

  lemma StepKeeps(s: Sys, op: Op)
    requires Inv(s) && Allowed(s, op)
    ensures Inv(Step(s, op)) && Step(s, op).base == s.base
  {
    hide Inv, MutexOk, ThreadOk, CanWait, CanRelease, CanTakeBack, Inherit, Due;
    match op
    case Lock(t, m, wait) =>
      MutexCount(s, m);
      if s.mutexes[m].count == 0 || s.mutexes[m].owner == Some(t) {
        TakeKeeps(s, t, m);
      } else if wait {
        MayWait(s, t, m);
        WaitKeeps(s, t, m);
      }
    case Expire(t) =>
      InLate(s, t);
      ThreadBlocked(s, t);
      GiveUpKeeps(s, t);
    case Adjust(t) =>
      MayTakeBack(s, t);
      TakeBackKeeps(s, t);
    case Unlock(t, m) =>
      MutexCount(s, m);
      if s.mutexes[m].owner == Some(t) {
        if s.mutexes[m].count > 1 {
          CountKeeps(s, m);
        } else {
          MayRelease(s, t, m);
          ReleaseKeeps(s, t, m);
        }
      }
  }

  lemma MutexCount(s: Sys, m: Mid)
    requires Inv(s) && m in s.mutexes
    ensures s.mutexes[m].count > 0 <==> s.mutexes[m].owner.Some?
  {
    MutexOf(s, m);
  }

  lemma ThreadBlocked(s: Sys, t: Tid)
    requires Inv(s) && t in s.blocked
    ensures t in s.prio && s.blocked[t] in s.mutexes
  {
    ThreadOf(s, t);
  }

  lemma CountKeeps(s: Sys, m: Mid)
    requires Inv(s) && m in s.mutexes && s.mutexes[m].count > 1
    ensures Inv(s.(mutexes := s.mutexes[m := s.mutexes[m].(count := s.mutexes[m].count - 1)]))
  {
    hide Sorted, NoDup, Inv;
    var r := s.(mutexes := s.mutexes[m := s.mutexes[m].(count := s.mutexes[m].count - 1)]);
    MutexOf(s, m);
    KeyedOf(s);
    forall n | n in r.mutexes ensures MutexOk(r, n) { MutexOf(s, n); }
    forall u | u in r.prio ensures ThreadOk(r, u) { ThreadOf(s, u); }
    InvHolds(r);
  }

  lemma KeyedOf(s: Sys)
    requires Inv(s)
    ensures Keyed(s)
  {
  }

  // ---------- The ceiling ----------

  /** No thread is better than the ceiling, and none was when it took a mutex. This holds
      of every run with the default ceiling, which is better than any thread's priority. */
  ghost predicate UnderCeiling(s: Sys) {
    && (forall t | t in s.prio :: s.ceiling <= s.prio[t])
    && (forall m | m in s.mutexes && s.mutexes[m].owner.Some? :: s.ceiling <= s.mutexes[m].orig)
  }

  lemma StepUnderCeiling(s: Sys, op: Op)
    requires Inv(s) && Allowed(s, op) && UnderCeiling(s)
    ensures UnderCeiling(Step(s, op))
  {
    hide Inv, Sorted, NoDup, Join, Remove;
    KeyedOf(s);
    match op
    case Lock(t, m, _) => MutexOf(s, m);
    case Expire(t) => ThreadBlocked(s, t);
    case Adjust(t) => MayTakeBack(s, t);
    case Unlock(t, m) =>
      MutexOf(s, m);
      if s.mutexes[m].owner == Some(t) && s.mutexes[m].count == 1 {
        MayRelease(s, t, m);
        assert s.mutexes[m].waiters != [] ==> s.mutexes[m].waiters[0] in s.mutexes[m].waiters;
      }
  }

  /** Waiting never makes the owner worse, and changes no other thread's priority. */
  lemma WaitNeverDemotes(s: Sys, t: Tid, m: Mid)
    requires CanWait(s, t, m)
    ensures var r := Wait(s, t, m); var o := s.mutexes[m].owner.value;
            && o in r.prio && r.prio[o] <= s.prio[o]
            && forall u | u in s.prio && u != o :: u in r.prio && r.prio[u] == s.prio[u]
  {
    hide Join;
  }

  /** The end of a wait leaves the owner worse than its own priority if and only if others
      still wait and its own priority is better than the ceiling. */
  lemma AdjustDemotesIff(s: Sys, u: Tid)
    requires CanTakeBack(s, u) && s.mutexes[s.late[u]].owner.Some?
    ensures var x := s.mutexes[s.late[u]]; var r := TakeBack(s, u);
            x.owner.value in r.prio && (r.prio[x.owner.value] > x.orig <==> x.waiters != [] && x.orig < s.ceiling)
  {
  }

  /** The owner of a mutex is no worse than it was when it took the mutex. */
  ghost predicate OwnAt(s: Sys, n: Mid)
    requires n in s.mutexes
  {
    var x := s.mutexes[n];
    x.owner.Some? ==> x.owner.value in s.prio && s.prio[x.owner.value] <= x.orig
  }

  ghost predicate Own(s: Sys) { forall n | n in s.mutexes :: OwnAt(s, n) }

  /** Some mutex other than `m` was taken by thread `t` at a better priority than `p`. */
  ghost predicate TookBetter(s: Sys, t: Tid, m: Mid, p: int) {
    t in s.owned && exists n | n in s.owned[t] && n != m :: n in s.mutexes && s.mutexes[n].orig < p
  }

  /** The end of a wait while others wait and the owner is, on its own, better than the
      ceiling; or the end of a wait or a release that returns the owner to a priority worse
      than the one at which it took another mutex. */
  ghost predicate Demotes(s: Sys, op: Op)
    requires Inv(s) && Allowed(s, op)
  {
    match op
    case Adjust(u) =>
      MayTakeBack(s, u);
      var x := s.mutexes[s.late[u]];
      && x.owner.Some?
      && ((x.waiters != [] && x.orig < s.ceiling) || TookBetter(s, x.owner.value, s.late[u], Due(s, x)))
    case Unlock(t, m) =>
      && s.mutexes[m].owner == Some(t) && s.mutexes[m].count == 1
      && TookBetter(s, t, m, s.mutexes[m].orig)
    case _ => false
  }

  lemma WaitOwn(s: Sys, t: Tid, m: Mid, n: Mid)
    requires CanWait(s, t, m) && n in s.mutexes && OwnAt(s, n)
    ensures OwnAt(Wait(s, t, m), n)
  {
    hide Join;
  }

  lemma TakeBackOwn(s: Sys, u: Tid, n: Mid)
    requires CanTakeBack(s, u) && n in s.mutexes && MutexOk(s, n) && OwnAt(s, n)
    ensures var x := s.mutexes[s.late[u]];
            OwnAt(TakeBack(s, u), n) <==>
              !(x.owner.Some? && s.mutexes[n].owner == x.owner && s.mutexes[n].orig < Due(s, x))
  {
    hide Sorted, NoDup, Due;
  }

  lemma ReleaseOwn(s: Sys, t: Tid, m: Mid, n: Mid)
    requires CanRelease(s, t, m) && n in s.mutexes && MutexOk(s, n) && OwnAt(s, n)
    ensures OwnAt(Release(s, t, m), n) <==>
            !(n != m && s.mutexes[n].owner == Some(t) && s.mutexes[n].orig < s.mutexes[m].orig)
  {
    hide Sorted, NoDup, Remove;
  }

  /** The exact condition under which a step leaves an owner worse than it was when it took
      one of its mutexes. */
  lemma StepDemotesIff(s: Sys, op: Op)
    requires Inv(s) && Allowed(s, op) && Own(s)
    ensures Own(Step(s, op)) <==> !Demotes(s, op)
  {
    hide Inv, MutexOk, ThreadOk, CanWait, CanRelease, CanTakeBack, Due, OwnAt, Wait, GiveUp, TakeBack, Release;
    KeyedOf(s);
    StepKeys(s, op);
    var r := Step(s, op);
    match op
    case Lock(t, m, wait) =>
      MutexCount(s, m);
      if s.mutexes[m].count == 0 || s.mutexes[m].owner == Some(t) {
        forall n | n in r.mutexes ensures OwnAt(r, n) { TakeOwn(s, t, m, n); }
      } else if wait {
        MayWait(s, t, m);
        forall n | n in r.mutexes ensures OwnAt(r, n) { WaitOwn(s, t, m, n); }
      }
    case Expire(t) =>
      ThreadBlocked(s, t);
      forall n | n in r.mutexes ensures OwnAt(r, n) { GiveUpOwn(s, t, n); }
    case Adjust(t) => AdjustOwn(s, t);
    case Unlock(t, m) =>
      MutexCount(s, m);
      if s.mutexes[m].owner == Some(t) {
        if s.mutexes[m].count > 1 {
          forall n | n in r.mutexes ensures OwnAt(r, n) { CountOwn(s, m, n); }
        } else {
          UnlockOwn(s, t, m);
        }
      }
  }

  lemma TakeOwn(s: Sys, t: Tid, m: Mid, n: Mid)
    requires t in s.prio && t in s.owned && m in s.mutexes && n in s.mutexes && OwnAt(s, n)
    requires s.mutexes[m].count == 0 || s.mutexes[m].owner == Some(t)
    ensures OwnAt(Take(s, t, m), n)
  {
  }

  lemma GiveUpOwn(s: Sys, t: Tid, n: Mid)
    requires t in s.blocked && s.blocked[t] in s.mutexes && n in s.mutexes && OwnAt(s, n)
    ensures OwnAt(GiveUp(s, t), n)
  {
    hide Remove;
  }

  lemma CountOwn(s: Sys, m: Mid, n: Mid)
    requires m in s.mutexes && n in s.mutexes && OwnAt(s, n) && s.mutexes[m].count > 1
    ensures OwnAt(s.(mutexes := s.mutexes[m := s.mutexes[m].(count := s.mutexes[m].count - 1)]), n)
  {
  }

  lemma AdjustOwn(s: Sys, u: Tid)
    requires Inv(s) && Allowed(s, Adjust(u)) && Own(s)
    ensures CanTakeBack(s, u) && (Own(TakeBack(s, u)) <==> !Demotes(s, Adjust(u)))
  {
    hide Inv, Due, OwnAt, MutexOk, ThreadOk;
    MayTakeBack(s, u);
    var r, m := TakeBack(s, u), s.late[u];
    var x := s.mutexes[m];
    forall n | n in s.mutexes
      ensures OwnAt(r, n) <==> !(x.owner.Some? && s.mutexes[n].owner == x.owner && s.mutexes[n].orig < Due(s, x))
    {
      MutexOf(s, n);
      TakeBackOwn(s, u, n);
    }
    if x.owner.Some? {
      DueAbove(s, x);
      OwnersMutexes(s, x.owner.value);
    }
  }

  lemma DueAbove(s: Sys, x: Mutex)
    requires forall w | w in x.waiters :: w in s.prio
    ensures x.orig < Due(s, x) <==> x.waiters != [] && x.orig < s.ceiling
  {
  }

  lemma OwnersMutexes(s: Sys, o: Tid)
    requires Inv(s) && o in s.prio
    ensures o in s.owned && forall n :: n in s.owned[o] <==> n in s.mutexes && s.mutexes[n].owner == Some(o)
  {
    hide Sorted, NoDup;
    assert ThreadOk(s, o);
    forall n | n in s.mutexes && s.mutexes[n].owner == Some(o) ensures n in s.owned[o] { assert MutexOk(s, n); }
  }

  lemma UnlockOwn(s: Sys, t: Tid, m: Mid)
    requires Inv(s) && Allowed(s, Unlock(t, m)) && Own(s) && s.mutexes[m].owner == Some(t) && s.mutexes[m].count == 1
    ensures CanRelease(s, t, m) && (Own(Release(s, t, m)) <==> !Demotes(s, Unlock(t, m)))
  {
    hide Inv, OwnAt, MutexOk, ThreadOk;
    MayRelease(s, t, m);
    var r := Release(s, t, m);
    forall n | n in s.mutexes
      ensures OwnAt(r, n) <==>
              !(n != m && s.mutexes[n].owner == Some(t) && s.mutexes[n].orig < s.mutexes[m].orig)
    {
      MutexOf(s, n);
      ReleaseOwn(s, t, m, n);
    }
    OwnersMutexes(s, t);
  }

  // ---------- No inversion ----------

  /** The better of the owner's own priority and the first waiter's. */
  function Best(s: Sys, x: Mutex): int
    requires forall w | w in x.waiters :: w in s.prio
  {
    if x.waiters == [] then x.orig else Better(s.prio[x.waiters[0]], x.orig)
  }

  ghost predicate NoneLate(s: Sys, m: Mid) { forall t | t in s.late :: s.late[t] != m }

  /** The owner is at least as good as it has to be, and no better once every waiter that
      timed out has taken its loan back. */
  ghost predicate LevelAt(s: Sys, m: Mid)
    requires m in s.mutexes
  {
    var x := s.mutexes[m];
    x.owner.Some? ==>
      && x.owner.value in s.prio && (forall w | w in x.waiters :: w in s.prio)
      && s.prio[x.owner.value] <= Best(s, x)
      && (NoneLate(s, m) ==> s.prio[x.owner.value] == Best(s, x))
  }

  ghost predicate Level(s: Sys) { forall m | m in s.mutexes :: LevelAt(s, m) }

  ghost predicate OneEach(s: Sys) { forall t | t in s.owned :: |s.owned[t]| <= 1 }

  lemma DueIsBest(s: Sys, x: Mutex)
    requires forall w | w in x.waiters :: w in s.prio && s.prio[w] >= s.ceiling
    requires x.orig >= s.ceiling
    ensures Due(s, x) == Best(s, x)
  {
    assert x.waiters != [] ==> x.waiters[0] in x.waiters;
  }

  lemma TakeLevel(s: Sys, t: Tid, m: Mid, n: Mid)
    requires t in s.prio && t in s.owned && m in s.mutexes && n in s.mutexes && MutexOk(s, m) && MutexOk(s, n)
    requires s.mutexes[m].count == 0 || s.mutexes[m].owner == Some(t)
    requires LevelAt(s, n)
    ensures LevelAt(Take(s, t, m), n)
  {
    hide Sorted, NoDup;
    assert NoneLate(Take(s, t, m), n) == NoneLate(s, n);
  }

  /** An owner of one mutex owns no other. */
  lemma OnlyOne(s: Sys, o: Tid, m: Mid, n: Mid)
    requires o in s.owned && |s.owned[o]| <= 1 && m in s.owned[o] && n in s.owned[o]
    ensures m == n
  {
  }

  lemma WaitLevel(s: Sys, t: Tid, m: Mid, n: Mid)
    requires CanWait(s, t, m) && n in s.mutexes && MutexOk(s, n) && LevelAt(s, n)
    requires |s.owned[s.mutexes[m].owner.value]| <= 1 && s.ceiling <= s.prio[t]
             && s.ceiling <= s.prio[s.mutexes[m].owner.value]
    ensures LevelAt(Wait(s, t, m), n)
  {
    hide Sorted, NoDup, Join;
    var r, x := Wait(s, t, m), s.mutexes[m];
    var o := x.owner.value;
    assert NoneLate(r, n) == NoneLate(s, n);
    if n == m {
      assert t !in x.waiters;
      JoinIs(s.prio, x.waiters, t);
      OwnersDoNotWait(s, o, m);
      assert x.waiters != [] ==> x.waiters[0] in x.waiters;
      assert r.mutexes[m].waiters[0] in r.mutexes[m].waiters;
    } else {
      assert s.mutexes[n].owner == Some(o) ==> m == n by { if s.mutexes[n].owner == Some(o) { OnlyOne(s, o, m, n); } }
      OwnersDoNotWait(s, o, n);
      SameBest(s, r, s.mutexes[n], o);
    }
  }

  lemma SameBest(s: Sys, r: Sys, x: Mutex, o: Tid)
    requires forall w | w in x.waiters :: w in s.prio
    requires o !in x.waiters && forall w | w in s.prio && w != o :: w in r.prio && r.prio[w] == s.prio[w]
    ensures (forall w | w in x.waiters :: w in r.prio) && Best(r, x) == Best(s, x)
  {
    assert x.waiters != [] ==> x.waiters[0] in x.waiters;
  }

  lemma GiveUpLevel(s: Sys, t: Tid, n: Mid)
    requires t in s.blocked && s.blocked[t] in s.mutexes && t in s.prio && t in s.owned && n in s.mutexes
    requires MutexOk(s, s.blocked[t]) && ThreadOk(s, t) && LevelAt(s, n)
    ensures LevelAt(GiveUp(s, t), n)
  {
    hide NoDup, Remove;
    var r, m := GiveUp(s, t), s.blocked[t];
    if n == m {
      RemoveKeeps(s.prio, s.mutexes[m].waiters, t);
      assert t in r.late && r.late[t] == m && !NoneLate(r, m);
      var q := r.mutexes[m].waiters;
      if q != [] { assert q[0] in q; }
    } else {
      assert NoneLate(r, n) ==> NoneLate(s, n) by { if NoneLate(r, n) { NoneLateBack(s, r, t, m, n); } }
    }
  }

  lemma NoneLateBack(s: Sys, r: Sys, t: Tid, m: Mid, n: Mid)
    requires r.late == s.late[t := m] && t !in s.late && NoneLate(r, n)
    ensures NoneLate(s, n)
  {
    forall u | u in s.late ensures s.late[u] != n { assert u in r.late; }
  }

  lemma TakeBackLevel(s: Sys, t: Tid, n: Mid)
    requires CanTakeBack(s, t) && n in s.mutexes && MutexOk(s, n) && LevelAt(s, n)
    requires forall w | w in s.mutexes[s.late[t]].waiters :: s.prio[w] >= s.ceiling
    requires s.mutexes[s.late[t]].owner.Some? ==> s.mutexes[s.late[t]].orig >= s.ceiling
    requires s.mutexes[s.late[t]].owner.Some? ==> |s.owned[s.mutexes[s.late[t]].owner.value]| <= 1
    ensures LevelAt(TakeBack(s, t), n)
  {
    hide Sorted, NoDup, Due;
    var r, m := TakeBack(s, t), s.late[t];
    var x := s.mutexes[m];
    if x.owner.Some? {
      var o := x.owner.value;
      DueIsBest(s, x);
      OwnersDoNotWait(s, o, n);
      SameBest(s, r, s.mutexes[n], o);
      if n != m && s.mutexes[n].owner == Some(o) { OnlyOne(s, o, m, n); }
    }
    if n != m && NoneLate(r, n) {
      forall u | u in s.late ensures s.late[u] != n { assert u != t ==> u in r.late; }
      assert NoneLate(s, n);
    }
  }

  lemma ReleaseLevel(s: Sys, t: Tid, m: Mid, n: Mid)
    requires CanRelease(s, t, m) && n in s.mutexes && MutexOk(s, n) && LevelAt(s, n) && |s.owned[t]| <= 1
    ensures LevelAt(Release(s, t, m), n)
  {
    hide NoDup, Remove;
    var r, x := Release(s, t, m), s.mutexes[m];
    assert NoneLate(r, n) == NoneLate(s, n);
    OwnersDoNotWait(s, t, n);
    if n == m {
      OwnersDoNotWait(s, t, m);
      if x.waiters != [] {
        SortedHead(s.prio, x.waiters);
        if x.waiters[1..] != [] { assert x.waiters[1..][0] in x.waiters[1..]; }
      }
    } else {
      SameBest(s, r, s.mutexes[n], t);
      if s.mutexes[n].owner == Some(t) { OnlyOne(s, t, m, n); }
    }
  }

  /** Each thread takes a mutex only while it owns no other. */
  ghost predicate Single(s: Sys, op: Op) {
    op.Lock? && op.m in s.mutexes && op.t in s.owned && s.mutexes[op.m].count == 0 ==> s.owned[op.t] == []
  }

  lemma StepLevel(s: Sys, op: Op)
    requires Inv(s) && Allowed(s, op) && UnderCeiling(s) && Level(s) && OneEach(s)
    ensures Level(Step(s, op))
  {
    hide Inv, MutexOk, ThreadOk, CanWait, CanRelease, CanTakeBack, Due, LevelAt;
    var r := Step(s, op);
    KeyedOf(s);
    StepKeys(s, op);
    forall n | n in r.mutexes ensures LevelAt(r, n) { StepLevelAt(s, op, n); }
  }

  lemma StepLevelAt(s: Sys, op: Op, n: Mid)
    requires Inv(s) && Allowed(s, op) && UnderCeiling(s) && n in s.mutexes && LevelAt(s, n) && OneEach(s)
    ensures n in Step(s, op).mutexes && LevelAt(Step(s, op), n)
  {
    hide Inv, ThreadOk, Due, Wait, Release, TakeBack, GiveUp, LevelAt, Sorted, NoDup;
    KeyedOf(s);
    StepKeys(s, op);
    MutexOf(s, n);
    match op
    case Lock(t, m, wait) =>
      MutexOf(s, m);
      if s.mutexes[m].count == 0 || s.mutexes[m].owner == Some(t) {
        TakeLevel(s, t, m, n);
      } else if wait {
        MayWait(s, t, m);
        WaitLevel(s, t, m, n);
      }
    case Expire(t) =>
      InLate(s, t);
      ThreadBlocked(s, t);
      ThreadOf(s, t);
      MutexOf(s, s.blocked[t]);
      GiveUpLevel(s, t, n);
    case Adjust(t) =>
      MayTakeBack(s, t);
      forall w | w in s.mutexes[s.late[t]].waiters ensures s.prio[w] >= s.ceiling { }
      TakeBackLevel(s, t, n);
    case Unlock(t, m) =>
      MutexOf(s, m);
      if s.mutexes[m].owner == Some(t) {
        if s.mutexes[m].count > 1 {
          CountLevel(s, m, n);
        } else {
          MayRelease(s, t, m);
          ReleaseLevel(s, t, m, n);
        }
      }
  }

  lemma StepKeys(s: Sys, op: Op)
    requires Inv(s) && Allowed(s, op)
    ensures Step(s, op).mutexes.Keys == s.mutexes.Keys
  {
    hide Inv, Sorted, NoDup, Due, Inherit, Join, Remove;
    KeyedOf(s);
    match op
    case Lock(t, m, _) => MutexOf(s, m);
    case Expire(t) => ThreadBlocked(s, t);
    case Adjust(t) => MayTakeBack(s, t);
    case Unlock(t, m) => MutexOf(s, m);
  }

  lemma CountLevel(s: Sys, m: Mid, n: Mid)
    requires m in s.mutexes && n in s.mutexes && LevelAt(s, n) && s.mutexes[m].count > 1
    ensures LevelAt(s.(mutexes := s.mutexes[m := s.mutexes[m].(count := s.mutexes[m].count - 1)]), n)
  {
    var r := s.(mutexes := s.mutexes[m := s.mutexes[m].(count := s.mutexes[m].count - 1)]);
    assert NoneLate(r, n) == NoneLate(s, n);
  }

  lemma OneEachKept(s: Sys, op: Op)
    requires Inv(s) && Allowed(s, op) && OneEach(s) && Single(s, op)
    ensures OneEach(Step(s, op))
  {
    hide Inv, Sorted, NoDup, Due, Inherit, Join, Remove;
    KeyedOf(s);
    match op
    case Lock(t, m, _) => MutexOf(s, m);
    case Expire(t) => ThreadBlocked(s, t);
    case Adjust(t) => MayTakeBack(s, t);
    case Unlock(t, m) =>
      MutexOf(s, m);
      if s.mutexes[m].owner == Some(t) && s.mutexes[m].count == 1 {
        MayRelease(s, t, m);
        RemoveShorter(s.owned[t], m);
      }
  }

  lemma {:induction false} RemoveShorter(q: seq<nat>, m: nat)
    ensures |Remove(q, m)| <= |q|
  {
    if q != [] && q[0] != m { RemoveShorter(q[1..], m); }
  }

  // ---------- Nested mutexes ----------

  /** Mutexes are released in the reverse of the order in which they were taken. */
  ghost predicate LastFirst(s: Sys, op: Op) {
    op.Unlock? && op.m in s.mutexes && op.t in s.owned && s.mutexes[op.m].owner == Some(op.t)
    && s.mutexes[op.m].count == 1
    ==> s.owned[op.t] != [] && s.owned[op.t][|s.owned[op.t]| - 1] == op.m
  }

  /** A thread without mutexes has the priority it started with, and the first mutex a
      thread took remembers that priority. */
  ghost predicate RestoredAt(s: Sys, t: Tid)
    requires t in s.prio && t in s.owned && t in s.base
  {
    if s.owned[t] == [] then s.prio[t] == s.base[t]
    else s.owned[t][0] in s.mutexes && s.mutexes[s.owned[t][0]].orig == s.base[t]
  }

  ghost predicate Restored(s: Sys) { Keyed(s) && forall t | t in s.prio :: RestoredAt(s, t) }

  lemma TakeRestored(s: Sys, t: Tid, m: Mid, u: Tid)
    requires Keyed(s) && t in s.prio && m in s.mutexes && u in s.prio && RestoredAt(s, u) && ThreadOk(s, u)
             && MutexOk(s, m)
    requires s.mutexes[m].count == 0 || s.mutexes[m].owner == Some(t)
    ensures RestoredAt(Take(s, t, m), u)
  {
    hide Sorted, NoDup;
    assert s.owned[u] != [] ==> s.owned[u][0] in s.owned[u];
  }

  lemma WaitRestored(s: Sys, t: Tid, m: Mid, u: Tid)
    requires Keyed(s) && CanWait(s, t, m) && u in s.prio && RestoredAt(s, u)
    ensures RestoredAt(Wait(s, t, m), u)
  {
    hide Sorted, NoDup, Join, Inherit;
  }

  lemma TakeBackRestored(s: Sys, t: Tid, u: Tid)
    requires Keyed(s) && CanTakeBack(s, t) && u in s.prio && RestoredAt(s, u)
    ensures RestoredAt(TakeBack(s, t), u)
  {
    hide Sorted, NoDup, Due;
  }

  lemma ReleaseRestored(s: Sys, t: Tid, m: Mid, u: Tid)
    requires Keyed(s) && CanRelease(s, t, m) && u in s.prio && RestoredAt(s, u) && ThreadOk(s, u)
    requires RestoredAt(s, t) && (s.mutexes[m].waiters != [] ==> RestoredAt(s, s.mutexes[m].waiters[0]))
    requires s.owned[t][|s.owned[t]| - 1] == m
    ensures RestoredAt(Release(s, t, m), u)
  {
    hide Sorted, Remove;
    RemoveLast(s.owned[t], m);
    assert s.owned[u] != [] ==> s.owned[u][0] in s.owned[u];
    if s.mutexes[m].waiters != [] {
      OwnersDoNotWait(s, t, m);
      assert s.mutexes[m].waiters[0] in s.mutexes[m].waiters;
    }
  }

  lemma StepRestored(s: Sys, op: Op)
    requires Inv(s) && Allowed(s, op) && Restored(s) && LastFirst(s, op)
    ensures Restored(Step(s, op))
  {
    hide Inv, MutexOk, ThreadOk, CanWait, CanRelease, CanTakeBack, Due, RestoredAt, LastFirst;
    StepKeeps(s, op);
    KeyedOf(s);
    KeyedOf(Step(s, op));
    StepPrioKeys(s, op);
    forall u | u in Step(s, op).prio ensures RestoredAt(Step(s, op), u) { StepRestoredAt(s, op, u); }
  }

  lemma StepPrioKeys(s: Sys, op: Op)
    requires Inv(s) && Allowed(s, op)
    ensures Step(s, op).prio.Keys == s.prio.Keys
  {
    hide Inv;
    StepKeeps(s, op);
    KeyedOf(s);
    KeyedOf(Step(s, op));
  }

  lemma StepRestoredAt(s: Sys, op: Op, u: Tid)
    requires Inv(s) && Allowed(s, op) && Restored(s) && LastFirst(s, op) && u in s.prio
    ensures Keyed(Step(s, op)) && u in Step(s, op).prio && RestoredAt(Step(s, op), u)
  {
    hide Inv, Due, Wait, Release, TakeBack, RestoredAt, Sorted, NoDup;
    StepKeeps(s, op);
    StepPrioKeys(s, op);
    KeyedOf(s);
    KeyedOf(Step(s, op));
    ThreadOf(s, u);
    match op
    case Lock(t, m, wait) =>
      MutexOf(s, m);
      if s.mutexes[m].count == 0 || s.mutexes[m].owner == Some(t) {
        TakeRestored(s, t, m, u);
      } else if wait {
        MayWait(s, t, m);
        WaitRestored(s, t, m, u);
      }
    case Expire(t) =>
      ThreadBlocked(s, t);
      GiveUpRestored(s, t, u);
    case Adjust(t) =>
      MayTakeBack(s, t);
      TakeBackRestored(s, t, u);
    case Unlock(t, m) =>
      MutexOf(s, m);
      if s.mutexes[m].owner == Some(t) {
        if s.mutexes[m].count > 1 {
          CountRestored(s, m, u);
        } else {
          MayRelease(s, t, m);
          ReleaseRestored(s, t, m, u);
        }
      }
  }

  lemma GiveUpRestored(s: Sys, t: Tid, u: Tid)
    requires Keyed(s) && t in s.blocked && s.blocked[t] in s.mutexes && u in s.prio && RestoredAt(s, u)
    ensures RestoredAt(GiveUp(s, t), u)
  {
  }

  lemma CountRestored(s: Sys, m: Mid, u: Tid)
    requires Keyed(s) && m in s.mutexes && u in s.prio && RestoredAt(s, u) && s.mutexes[m].count > 1
    ensures RestoredAt(s.(mutexes := s.mutexes[m := s.mutexes[m].(count := s.mutexes[m].count - 1)]), u)
  {
  }

  // ---------- Whole runs ----------

  ghost predicate RunAllowed(s: Sys, ops: seq<Op>)
    requires Inv(s)
    decreases |ops|
  {
    ops != [] ==> Allowed(s, ops[0]) && (StepKeeps(s, ops[0]); RunAllowed(Step(s, ops[0]), ops[1..]))
  }

  ghost function Run(s: Sys, ops: seq<Op>): Sys
    requires Inv(s) && RunAllowed(s, ops)
    decreases |ops|
  {
    if ops == [] then s else (StepKeeps(s, ops[0]); Run(Step(s, ops[0]), ops[1..]))
  }

  ghost predicate RunSingle(s: Sys, ops: seq<Op>)
    requires Inv(s) && RunAllowed(s, ops)
    decreases |ops|
  {
    ops != [] ==> Single(s, ops[0]) && (StepKeeps(s, ops[0]); RunSingle(Step(s, ops[0]), ops[1..]))
  }

  ghost predicate RunLastFirst(s: Sys, ops: seq<Op>)
    requires Inv(s) && RunAllowed(s, ops)
    decreases |ops|
  {
    ops != [] ==> LastFirst(s, ops[0]) && (StepKeeps(s, ops[0]); RunLastFirst(Step(s, ops[0]), ops[1..]))
  }

  /** While no thread owns two mutexes at once, no owner is ever worse than one of its
      waiters, and it runs at exactly the better of its own and the first waiter's priority
      whenever no timed-out waiter has still to adjust it. */
  lemma {:induction false} OwnersNeverBelowWaiters(s: Sys, ops: seq<Op>)
    requires Inv(s) && UnderCeiling(s) && Level(s) && OneEach(s) && RunAllowed(s, ops) && RunSingle(s, ops)
    ensures var r := Run(s, ops);
            && Inv(r) && Level(r)
            && forall m, w | m in r.mutexes && r.mutexes[m].owner.Some? && w in r.mutexes[m].waiters ::
                 w in r.prio && r.mutexes[m].owner.value in r.prio && r.prio[r.mutexes[m].owner.value] <= r.prio[w]
    decreases |ops|
  {
    hide Inv, Step, Allowed, OneEach, Single, LevelAt;
    if ops == [] {
      forall m, w | m in s.mutexes && s.mutexes[m].owner.Some? && w in s.mutexes[m].waiters
        ensures w in s.prio && s.mutexes[m].owner.value in s.prio && s.prio[s.mutexes[m].owner.value] <= s.prio[w]
      {
        MutexOf(s, m);
        BelowAll(s, m, w);
      }
    } else {
      StepKeeps(s, ops[0]);
      StepLevel(s, ops[0]);
      StepUnderCeiling(s, ops[0]);
      OneEachKept(s, ops[0]);
      OwnersNeverBelowWaiters(Step(s, ops[0]), ops[1..]);
    }
  }

  lemma BelowAll(s: Sys, m: Mid, w: Tid)
    requires m in s.mutexes && s.mutexes[m].owner.Some? && w in s.mutexes[m].waiters && MutexOk(s, m) && LevelAt(s, m)
    ensures w in s.prio && s.prio[s.mutexes[m].owner.value] <= s.prio[w]
  {
    var q := s.mutexes[m].waiters;
    var i :| 0 <= i < |q| && q[i] == w;
    assert s.prio[q[0]] <= s.prio[q[i]];
  }

  /** When nested mutexes are released in reverse order, a thread that owns none again has
      the priority it started with. */
  lemma {:induction false} NestedReleaseRestores(s: Sys, ops: seq<Op>)
    requires Inv(s) && Restored(s) && RunAllowed(s, ops) && RunLastFirst(s, ops)
    ensures var r := Run(s, ops);
            Inv(r) && Restored(r) && r.base == s.base
            && forall t | t in r.prio && r.owned[t] == [] :: r.prio[t] == s.base[t]
    decreases |ops|
  {
    hide Inv, Step, Allowed, LastFirst;
    if ops == [] {
      KeyedOf(s);
      forall t | t in s.prio && s.owned[t] == [] ensures s.prio[t] == s.base[t] { assert RestoredAt(s, t); }
    } else {
      StepKeeps(s, ops[0]);
      StepRestored(s, ops[0]);
      NestedReleaseRestores(Step(s, ops[0]), ops[1..]);
    }
  }

  // ---------- Where nesting breaks inheritance ----------

  ghost predicate FairTo(s: Sys, t: Tid, n: Mid) {
    t in s.prio && n in s.mutexes && forall w | w in s.mutexes[n].waiters :: w in s.prio && s.prio[t] <= s.prio[w]
  }

  /** Releasing a mutex leaves its old owner no worse than the waiters of its other mutexes
      exactly when the priority this mutex remembers is no worse than theirs. */
  lemma ReleaseFairIff(s: Sys, t: Tid, m: Mid, n: Mid)
    requires Inv(s) && CanRelease(s, t, m) && n in s.owned[t] && n != m && n in s.mutexes
    ensures FairTo(Release(s, t, m), t, n) <==>
            forall w | w in s.mutexes[n].waiters :: w in s.prio && s.mutexes[m].orig <= s.prio[w]
  {
    hide Inv, NoDup, Remove;
    MutexOf(s, n);
    OwnersDoNotWait(s, t, n);
    var r := Release(s, t, m);
    assert r.mutexes[n] == s.mutexes[n];
    assert r.prio[t] == s.mutexes[m].orig;
    forall w | w in s.mutexes[n].waiters ensures w in r.prio && r.prio[w] == s.prio[w] { assert w != t; }
  }

  /** The same for a waiter of one mutex that times out and adjusts the owner. */
  lemma AdjustFairIff(s: Sys, u: Tid, n: Mid)
    requires Inv(s) && CanTakeBack(s, u) && s.mutexes[s.late[u]].owner.Some?
    requires var t := s.mutexes[s.late[u]].owner.value; n in s.owned[t] && n != s.late[u] && n in s.mutexes
    ensures var x := s.mutexes[s.late[u]];
            FairTo(TakeBack(s, u), x.owner.value, n) <==>
                forall w | w in s.mutexes[n].waiters :: w in s.prio && Due(s, x) <= s.prio[w]
  {
    hide Inv, NoDup, Due;
    MutexOf(s, n);
    var t := s.mutexes[s.late[u]].owner.value;
    OwnersDoNotWait(s, t, n);
    var r := TakeBack(s, u);
    forall w | w in s.mutexes[n].waiters ensures w in r.prio && r.prio[w] == s.prio[w] { assert w != t; }
  }

  ghost predicate FairAt(s: Sys, n: Mid)
    requires n in s.mutexes
  {
    s.mutexes[n].owner.Some? ==> FairTo(s, s.mutexes[n].owner.value, n)
  }

  /** No owner is worse than one of its waiters. */
  ghost predicate Fair(s: Sys) { forall n | n in s.mutexes :: FairAt(s, n) }

  /** Some other mutex of a thread has a waiter that is better than `p`. */
  ghost predicate Overlooks(s: Sys, t: Tid, m: Mid, p: int) {
    t in s.owned && exists n :: n in s.owned[t] && n != m && n in s.mutexes && !AtLeast(s, n, p)
  }

  ghost predicate AtLeast(s: Sys, n: Mid, p: int)
    requires n in s.mutexes
  {
    forall w | w in s.mutexes[n].waiters :: w in s.prio && p <= s.prio[w]
  }

  /** The steps that set a priority without regard to the thread's other mutexes. */
  ghost predicate Inverts(s: Sys, op: Op)
    requires Inv(s) && Allowed(s, op)
  {
    match op
    case Unlock(t, m) => s.mutexes[m].owner == Some(t) && s.mutexes[m].count == 1
      && Overlooks(s, t, m, s.mutexes[m].orig)
    case Adjust(t) =>
      MayTakeBack(s, t);
      var x := s.mutexes[s.late[t]];
      x.owner.Some? && Overlooks(s, x.owner.value, s.late[t], Due(s, x))
    case _ => false
  }

  lemma TakeFair(s: Sys, t: Tid, m: Mid, n: Mid)
    requires t in s.prio && t in s.owned && m in s.mutexes && n in s.mutexes && MutexOk(s, m) && FairAt(s, n)
    requires s.mutexes[m].count == 0 || s.mutexes[m].owner == Some(t)
    ensures FairAt(Take(s, t, m), n)
  {
    hide Sorted, NoDup;
  }

  lemma WaitFair(s: Sys, t: Tid, m: Mid, n: Mid)
    requires CanWait(s, t, m) && n in s.mutexes && MutexOk(s, n) && FairAt(s, n) && s.ceiling <= s.prio[t]
    ensures FairAt(Wait(s, t, m), n)
  {
    hide Sorted, NoDup, Join;
    var x := s.mutexes[m];
    assert t !in x.waiters;
    JoinIs(s.prio, x.waiters, t);
    OwnersDoNotWait(s, x.owner.value, n);
    OwnersDoNotWait(s, x.owner.value, m);
  }

  lemma GiveUpFair(s: Sys, t: Tid, n: Mid)
    requires t in s.blocked && s.blocked[t] in s.mutexes && MutexOk(s, s.blocked[t]) && n in s.mutexes && FairAt(s, n)
    ensures FairAt(GiveUp(s, t), n)
  {
    hide Remove;
    RemoveKeeps(s.prio, s.mutexes[s.blocked[t]].waiters, t);
  }

  lemma TakeBackFair(s: Sys, u: Tid, n: Mid)
    requires Inv(s) && UnderCeiling(s) && CanTakeBack(s, u) && n in s.mutexes && FairAt(s, n)
    ensures var x := s.mutexes[s.late[u]];
            FairAt(TakeBack(s, u), n) <==>
                !(x.owner.Some? && n in s.owned[x.owner.value] && n != s.late[u] && !AtLeast(s, n, Due(s, x)))
  {
    hide Inv, NoDup, Due;
    MutexOf(s, n);
    var m := s.late[u];
    var x := s.mutexes[m];
    if x.owner.Some? {
      var t := x.owner.value;
      if n == m {
        DueBelow(s, m);
        OwnersDoNotWait(s, t, m);
      } else if n in s.owned[t] {
        AdjustFairIff(s, u, n);
        ThreadOf(s, t);
      } else {
        OwnersDoNotWait(s, t, n);
      }
    }
  }

  /** What an owner is due is at least as good as every waiter. */
  lemma DueBelow(s: Sys, m: Mid)
    requires Inv(s) && UnderCeiling(s) && m in s.mutexes && s.mutexes[m].owner.Some?
    ensures (forall w | w in s.mutexes[m].waiters :: w in s.prio) && AtLeast(s, m, Due(s, s.mutexes[m]))
  {
    hide Inv;
    MutexOf(s, m);
    var q := s.mutexes[m].waiters;
    forall w | w in q ensures w in s.prio && s.prio[w] >= s.ceiling { }
    forall w | w in q ensures Due(s, s.mutexes[m]) <= s.prio[w] {
      var i :| 0 <= i < |q| && q[i] == w;
      assert s.prio[q[0]] <= s.prio[q[i]];
    }
  }

  lemma ReleaseFair(s: Sys, t: Tid, m: Mid, n: Mid)
    requires Inv(s) && CanRelease(s, t, m) && n in s.mutexes && FairAt(s, n)
    ensures FairAt(Release(s, t, m), n) <==> !(n in s.owned[t] && n != m && !AtLeast(s, n, s.mutexes[m].orig))
  {
    hide Inv, NoDup, Remove;
    MutexOf(s, n);
    var x := s.mutexes[m];
    OwnersDoNotWait(s, t, n);
    if n == m {
      if x.waiters != [] { SortedHead(s.prio, x.waiters); }
    } else if n in s.owned[t] {
      ReleaseFairIff(s, t, m, n);
      ThreadOf(s, t);
    }
  }

  /** The exact condition: from a state without inversion, a step inverts priorities if and
      only if it is the release of one mutex, or the end of a wait for one, whose owner has
      another mutex with a better waiter than the priority it is given. */
  lemma StepInvertsIff(s: Sys, op: Op)
    requires Inv(s) && Allowed(s, op) && UnderCeiling(s) && Fair(s)
    ensures Fair(Step(s, op)) <==> !Inverts(s, op)
  {
    hide Inv, MutexOk, ThreadOk, CanWait, CanRelease, CanTakeBack, Due, FairAt, AtLeast, Take, Wait, GiveUp, TakeBack,
        Release;
    KeyedOf(s);
    StepKeys(s, op);
    var r := Step(s, op);
    match op
    case Lock(t, m, wait) =>
      MutexOf(s, m);
      MutexCount(s, m);
      if s.mutexes[m].count == 0 || s.mutexes[m].owner == Some(t) {
        forall n | n in r.mutexes ensures FairAt(r, n) { TakeFair(s, t, m, n); }
      } else if wait {
        MayWait(s, t, m);
        forall n | n in r.mutexes ensures FairAt(r, n) { MutexOf(s, n); WaitFair(s, t, m, n); }
      }
    case Expire(t) =>
      ThreadBlocked(s, t);
      MutexOf(s, s.blocked[t]);
      forall n | n in r.mutexes ensures FairAt(r, n) { GiveUpFair(s, t, n); }
    case Adjust(t) => AdjustInvertsIff(s, t);
    case Unlock(t, m) =>
      MutexCount(s, m);
      if s.mutexes[m].owner == Some(t) {
        if s.mutexes[m].count > 1 {
          forall n | n in r.mutexes ensures FairAt(r, n) { CountFair(s, m, n); }
        } else {
          UnlockInvertsIff(s, t, m);
        }
      }
  }

  lemma CountFair(s: Sys, m: Mid, n: Mid)
    requires m in s.mutexes && n in s.mutexes && FairAt(s, n) && s.mutexes[m].count > 1
    ensures FairAt(s.(mutexes := s.mutexes[m := s.mutexes[m].(count := s.mutexes[m].count - 1)]), n)
  {
  }

  lemma AdjustInvertsIff(s: Sys, u: Tid)
    requires Inv(s) && UnderCeiling(s) && u in s.late && Fair(s)
    ensures CanTakeBack(s, u) && (Fair(TakeBack(s, u)) <==> !Inverts(s, Adjust(u)))
  {
    hide Inv, Due, FairAt, AtLeast, MutexOk, ThreadOk;
    MayTakeBack(s, u);
    var r := TakeBack(s, u);
    forall n | n in s.mutexes
      ensures var x := s.mutexes[s.late[u]];
              FairAt(r, n) <==>
                  !(x.owner.Some? && n in s.owned[x.owner.value] && n != s.late[u] && !AtLeast(s, n, Due(s, x)))
    {
      TakeBackFair(s, u, n);
    }
  }

  lemma UnlockInvertsIff(s: Sys, t: Tid, m: Mid)
    requires Inv(s) && t in s.prio && t in s.owned && m in s.mutexes && s.mutexes[m].owner == Some(t)
             && s.mutexes[m].count == 1 && Fair(s)
    ensures CanRelease(s, t, m) && (Fair(Release(s, t, m)) <==> !Overlooks(s, t, m, s.mutexes[m].orig))
  {
    hide Inv, FairAt, AtLeast, MutexOk, ThreadOk, Remove;
    MayRelease(s, t, m);
    var r := Release(s, t, m);
    forall n | n in s.mutexes
      ensures FairAt(r, n) <==> !(n in s.owned[t] && n != m && !AtLeast(s, n, s.mutexes[m].orig))
    {
      ReleaseFair(s, t, m, n);
    }
  }

  /** Two threads, with the priorities 10 and 5, and two mutexes. */
  function Start(): Sys {
    Sys(-127, map[0 := 10, 1 := 5], map[0 := Mutex(None, 0, 0, []), 1 := Mutex(None, 0, 0, [])], map[], map[],
        map[0 := [], 1 := []], map[0 := 10, 1 := 5])
  }

  /** Threads with their first priorities, and mutexes as `k_mutex_init` leaves them. */
  function Idle(ceiling: int, prio: map<Tid, int>, mids: set<Mid>): Sys {
    Sys(ceiling, prio, map m | m in mids :: Mutex(None, 0, 0, []), map[], map[], map t | t in prio :: [], prio)
  }

  lemma IdleOk(ceiling: int, prio: map<Tid, int>, mids: set<Mid>)
    ensures var s := Idle(ceiling, prio, mids);
            Inv(s) && Level(s) && OneEach(s) && Restored(s)
            && (UnderCeiling(s) <==> forall t | t in prio :: ceiling <= prio[t])
  {
  }

  lemma StartOk()
    ensures Inv(Start()) && UnderCeiling(Start()) && Level(Start()) && OneEach(Start()) && Restored(Start())
  {
    hide Inv, UnderCeiling, Level, OneEach, Restored;
    var s, r := Start(), Idle(-127, map[0 := 10, 1 := 5], {0, 1});
    assert s.mutexes == r.mutexes && s.owned == r.owned;
    IdleOk(-127, map[0 := 10, 1 := 5], {0, 1});
  }

  lemma RunCons(s: Sys, op: Op, ops: seq<Op>)
    requires Inv(s) && Allowed(s, op)
    ensures Inv(Step(s, op))
    ensures RunAllowed(Step(s, op), ops) ==>
              RunAllowed(s, [op] + ops) && Run(s, [op] + ops) == Run(Step(s, op), ops)
              && (RunLastFirst(s, [op] + ops) <==> LastFirst(s, op) && RunLastFirst(Step(s, op), ops))
  {
    hide Inv, Allowed, Step, LastFirst;
    StepKeeps(s, op);
    assert ([op] + ops)[1..] == ops;
  }

  /** The same after the thread at 10 has taken the first mutex, after it has taken both,
      and after the thread at 5 has begun to wait for the first. */
  function OneTaken(): Sys {
    Start().(mutexes := map[0 := Mutex(Some(0), 1, 10, []), 1 := Mutex(None, 0, 0, [])],
        owned := map[0 := [0], 1 := []])
  }

  function BothTaken(): Sys {
    Start().(mutexes := map[0 := Mutex(Some(0), 1, 10, []), 1 := Mutex(Some(0), 1, 10, [])],
        owned := map[0 := [0, 1], 1 := []])
  }

  function Lent(): Sys {
    Start().(prio := map[0 := 5, 1 := 5],
        mutexes := map[0 := Mutex(Some(0), 1, 10, [1]), 1 := Mutex(Some(0), 1, 10, [])],
             blocked := map[1 := 0], owned := map[0 := [0, 1], 1 := []])
  }

  lemma TakesFirst()
    requires Inv(Start())
    ensures Allowed(Start(), Lock(0, 0, true)) && Step(Start(), Lock(0, 0, true)) == OneTaken()
  {
    hide Inv;
    var r := Step(Start(), Lock(0, 0, true));
    assert r.mutexes == OneTaken().mutexes;
    assert Start().owned[0] + [0] == [0];
    assert r.owned == OneTaken().owned;
  }

  lemma TakesSecond()
    requires Inv(OneTaken())
    ensures Allowed(OneTaken(), Lock(0, 1, true)) && Step(OneTaken(), Lock(0, 1, true)) == BothTaken()
  {
    hide Inv;
    var r := Step(OneTaken(), Lock(0, 1, true));
    assert r.mutexes == BothTaken().mutexes;
    assert OneTaken().owned[0] + [1] == [0, 1];
    assert r.owned == BothTaken().owned;
  }

  lemma Waits()
    requires Inv(BothTaken())
    ensures Allowed(BothTaken(), Lock(1, 0, true)) && Step(BothTaken(), Lock(1, 0, true)) == Lent()
  {
    hide Inv;
    var r := Step(BothTaken(), Lock(1, 0, true));
    assert r.mutexes == Lent().mutexes;
    assert r.prio == Lent().prio;
    assert r.blocked == Lent().blocked;
  }

  lemma GivesBackSecond()
    requires Inv(Lent())
    ensures Allowed(Lent(), Unlock(0, 1)) && LastFirst(Lent(), Unlock(0, 1))
            && !FairTo(Step(Lent(), Unlock(0, 1)), 0, 0)
  {
    hide Inv;
    var r := Step(Lent(), Unlock(0, 1));
    assert r.prio[0] == 10 && r.prio[1] == 5;
    assert 1 in r.mutexes[0].waiters;
  }

  /** A run that releases in reverse order and still leaves an owner at 10 with a waiter at 5. */
  lemma NestingInverts()
    ensures Inv(Start()) && var ops := [Lock(0, 0, true), Lock(0, 1, true), Lock(1, 0, true), Unlock(0, 1)];
            RunAllowed(Start(), ops) && RunLastFirst(Start(), ops) && !FairTo(Run(Start(), ops), 0, 0)
  {
    hide Inv, Step, Allowed, FairTo, Start, OneTaken, BothTaken, Lent;
    StartOk();
    var a, b, c, d := Lock(0, 0, true), Lock(0, 1, true), Lock(1, 0, true), Unlock(0, 1);
    TakesFirst();
    StepKeeps(Start(), a);
    TakesSecond();
    StepKeeps(OneTaken(), b);
    Waits();
    StepKeeps(BothTaken(), c);
    GivesBackSecond();
    RunCons(Lent(), d, []);
    RunCons(BothTaken(), c, [d]);
    RunCons(OneTaken(), b, [c, d]);
    RunCons(Start(), a, [b, c, d]);
    assert [d] + [] == [d] && [c] + [d] == [c, d] && [b] + [c, d] == [b, c, d] && [a] + [b, c, d] == [a, b, c, d];
  }

  // ---------- Where the ceiling makes an owner worse ----------

  /** One mutex and three threads, of which the first is better than the ceiling of 0. */
  function Above(): Sys {
    Sys(0, map[0 := -1, 1 := 5, 2 := 6], map[0 := Mutex(None, 0, 0, [])], map[], map[],
        map[0 := [], 1 := [], 2 := []], map[0 := -1, 1 := 5, 2 := 6])
  }

  /** The first thread owns the mutex, the others wait for it, and the second gives up. */
  function Held(waiters: seq<Tid>, blocked: map<Tid, Mid>, late: map<Tid, Mid>): Sys {
    Above().(mutexes := map[0 := Mutex(Some(0), 1, -1, waiters)], blocked := blocked, late := late,
             owned := map[0 := [0], 1 := [], 2 := []])
  }

  lemma AboveOk()
    ensures Inv(Above()) && OneEach(Above()) && Own(Above())
  {
  }

  lemma AboveTakes()
    requires Inv(Above())
    ensures Allowed(Above(), Lock(0, 0, true)) && Step(Above(), Lock(0, 0, true)) == Held([], map[], map[])
  {
    hide Inv;
    var r := Step(Above(), Lock(0, 0, true));
    assert Above().owned[0] + [0] == [0];
    assert r.mutexes == Held([], map[], map[]).mutexes;
    assert r.owned == Held([], map[], map[]).owned;
  }

  lemma SecondWaits()
    requires Inv(Held([], map[], map[]))
    ensures var s := Held([], map[], map[]);
            Allowed(s, Lock(1, 0, true)) && Step(s, Lock(1, 0, true)) == Held([1], map[1 := 0], map[])
  {
    hide Inv;
    var r := Step(Held([], map[], map[]), Lock(1, 0, true));
    assert r.mutexes == Held([1], map[1 := 0], map[]).mutexes;
    assert r.blocked == map[1 := 0];
  }

  lemma ThirdWaits()
    requires Inv(Held([1], map[1 := 0], map[]))
    ensures var s := Held([1], map[1 := 0], map[]);
            Allowed(s, Lock(2, 0, true)) && Step(s, Lock(2, 0, true)) == Held([1, 2], map[1 := 0, 2 := 0], map[])
  {
    hide Inv;
    var r := Step(Held([1], map[1 := 0], map[]), Lock(2, 0, true));
    JoinPlace(Above().prio, [1], 2, 1);
    assert [1][..1] + [2] + [1][1..] == [1, 2];
    assert r.mutexes == Held([1, 2], map[1 := 0, 2 := 0], map[]).mutexes;
    assert r.blocked == map[1 := 0, 2 := 0];
  }

  lemma SecondGivesUp()
    requires Inv(Held([1, 2], map[1 := 0, 2 := 0], map[]))
    ensures var s := Held([1, 2], map[1 := 0, 2 := 0], map[]);
            Allowed(s, Expire(1)) && Step(s, Expire(1)) == Held([2], map[2 := 0], map[1 := 0])
  {
    hide Inv;
    var r := Step(Held([1, 2], map[1 := 0, 2 := 0], map[]), Expire(1));
    assert Remove([1, 2], 1) == [2];
    assert r.mutexes == Held([2], map[2 := 0], map[1 := 0]).mutexes;
    assert r.blocked == map[2 := 0];
    assert r.late == map[1 := 0];
  }

  lemma SecondAdjusts()
    requires Inv(Held([2], map[2 := 0], map[1 := 0]))
    ensures var s := Held([2], map[2 := 0], map[1 := 0]);
            Allowed(s, Adjust(1)) && 0 in Step(s, Adjust(1)).prio && Step(s, Adjust(1)).prio[0] == 0
  {
    hide Inv;
  }

  /** A run in which the owner, at -1 on its own, ends at 0 although nobody lent it anything:
      it locks, two threads wait, and the first of them times out and adjusts it. */
  lemma CeilingDemotes()
    ensures Inv(Above())
    ensures var ops := [Lock(0, 0, true), Lock(1, 0, true), Lock(2, 0, true), Expire(1), Adjust(1)];
            && RunAllowed(Above(), ops) && 0 in Run(Above(), ops).prio
            && Run(Above(), ops).prio[0] == 0 > Above().prio[0]
  {
    hide Inv, Step, Allowed, Held, RunLastFirst;
    AboveOk();
    var a, b, c, d, e := Lock(0, 0, true), Lock(1, 0, true), Lock(2, 0, true), Expire(1), Adjust(1);
    AboveTakes();
    StepKeeps(Above(), a);
    SecondWaits();
    StepKeeps(Held([], map[], map[]), b);
    ThirdWaits();
    StepKeeps(Held([1], map[1 := 0], map[]), c);
    SecondGivesUp();
    StepKeeps(Held([1, 2], map[1 := 0, 2 := 0], map[]), d);
    SecondAdjusts();
    RunCons(Held([2], map[2 := 0], map[1 := 0]), e, []);
    RunCons(Held([1, 2], map[1 := 0, 2 := 0], map[]), d, [e]);
    RunCons(Held([1], map[1 := 0], map[]), c, [d, e]);
    RunCons(Held([], map[], map[]), b, [c, d, e]);
    RunCons(Above(), a, [b, c, d, e]);
    assert [e] + [] == [e] && [d] + [e] == [d, e] && [c] + [d, e] == [c, d, e];
    assert [b] + [c, d, e] == [b, c, d, e] && [a] + [b, c, d, e] == [a, b, c, d, e];
  }
}
