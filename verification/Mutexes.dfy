/**
  The mutex calls as the kernel makes them: in-place updates of a mutex, of thread
  priorities and of wait queues, proved to take the steps of `MutexSpec`.
 */
module Mutexes {
  import opened Common
  import opened MutexLedger
  import opened MutexSpec

  class Kernel {
    const ceiling: int
    var prio: map<Tid, int>
    var mutexes: map<Mid, Mutex>
    var blocked: map<Tid, Mid>
    var late: map<Tid, Mid>
    ghost var owned: map<Tid, seq<Mid>>
    ghost var base: map<Tid, int>

    ghost function View(): Sys
      reads this
    {
      Sys(ceiling, prio, mutexes, blocked, late, owned, base)
    }

    ghost predicate Valid()
      reads this
    {
      Inv(View())
    }

    constructor (ceiling: int, prios: map<Tid, int>, mids: set<Mid>)
      ensures Valid() && View() == Idle(ceiling, prios, mids)
    {
      this.ceiling, prio := ceiling, prios;
      mutexes := map m | m in mids :: Mutex(None, 0, 0, []);
      blocked, late := map[], map[];
      owned, base := map t | t in prios :: [], prios;
      new;
      IdleOk(ceiling, prios, mids);
    }

    method AdjustOwnerPrio(m: Mid, p: int)
      requires m in mutexes && mutexes[m].owner.Some? && mutexes[m].owner.value in prio
      modifies this`prio
      ensures prio == old(prio)[mutexes[m].owner.value := p]
    {
      var o := mutexes[m].owner.value;
      if prio[o] != p {
        prio := prio[o := p];
      }
    }

    /** Puts a thread into a wait queue, behind every waiter that is as good. */
    method Pend(t: Tid, m: Mid)
      requires m in mutexes && t in prio && Sorted(prio, mutexes[m].waiters)
      modifies this`mutexes, this`blocked
      ensures mutexes == old(mutexes)[m := old(mutexes)[m].(waiters := Join(prio, old(mutexes)[m].waiters, t))]
      ensures blocked == old(blocked)[t := m]
    {
      hide Join;
      var q := mutexes[m].waiters;
      var k := 0;
      while k < |q| && prio[q[k]] <= prio[t]
        invariant 0 <= k <= |q| && forall i | 0 <= i < k :: prio[q[i]] <= prio[t]
      {
        k := k + 1;
      }
      JoinPlace(prio, q, t, k);
      mutexes := mutexes[m := mutexes[m].(waiters := q[..k] + [t] + q[k..])];
      blocked := blocked[t := m];
    }

    /** `k_mutex_lock` up to the point where the caller has the mutex or waits for it. */
    method Lock(t: Tid, m: Mid, wait: bool) returns (code: Code)
      requires Valid() && Allowed(View(), MutexSpec.Lock(t, m, wait))
      modifies this
      ensures Valid() && View() == Step(old(View()), MutexSpec.Lock(t, m, wait))
      ensures code == old(Outcome(View(), MutexSpec.Lock(t, m, wait)))
      ensures LockAnswers(old(View()), t, m, wait, code, View())
      ensures Holds(View(), t, m) == Holds(old(View()), t, m) + if code == Done then 1 else 0
    {
      hide Inv, Join, Inherit, LockAnswers, Holds;
      StepAnswers(View(), MutexSpec.Lock(t, m, wait));
      StepKeeps(View(), MutexSpec.Lock(t, m, wait));
      MutexOf(View(), m);
      var x := mutexes[m];
      if x.count == 0 || x.owner == Some(t) {
        var orig := if x.count == 0 then prio[t] else x.orig;
        mutexes := mutexes[m := Mutex(Some(t), x.count + 1, orig, x.waiters)];
        if x.count == 0 {
          owned := owned[t := owned[t] + [m]];
        }
        return Done;
      }
      if !wait {
        return EBUSY;
      }
      MayWait(View(), t, m);
      OwnersDoNotWait(View(), x.owner.value, m);
      Lend(t, m);
      return Code.Blocked;
    }

    method Lend(t: Tid, m: Mid)
      requires CanWait(View(), t, m) && mutexes[m].owner.value !in mutexes[m].waiters
      modifies this`prio, this`mutexes, this`blocked
      ensures View() == Wait(old(View()), t, m)
    {
      hide Inherit, NoDup, ThreadOk;
      ghost var was := prio;
      var x := mutexes[m];
      var p := Inherit(ceiling, prio[t], prio[x.owner.value]);
      if p < prio[x.owner.value] {
        AdjustOwnerPrio(m, p);
        SameOrder(was, prio, x.waiters, x.owner.value);
        SameJoin(was, prio, x.waiters, t, x.owner.value);
      }
      Pend(t, m);
    }

    /** The wait of a thread times out: it leaves the wait queue, and the rest of its call
        runs later. */
    method TimeOut(t: Tid)
      requires Valid() && t in blocked
      modifies this`mutexes, this`blocked, this`late
      ensures Valid() && View() == Step(old(View()), Expire(t))
    {
      hide Inv;
      StepKeeps(View(), Expire(t));
      ThreadBlocked(View(), t);
      var m := blocked[t];
      mutexes := mutexes[m := mutexes[m].(waiters := Remove(mutexes[m].waiters, t))];
      blocked := blocked - {t};
      late := late[t := m];
    }

    /** The part of `k_mutex_lock` that runs after a timeout. */
    method LockTimedOut(t: Tid) returns (code: Code)
      requires Valid() && t in late
      modifies this`prio, this`late
      ensures Valid() && View() == Step(old(View()), Adjust(t)) && code == EAGAIN
    {
      hide Inv;
      StepKeeps(View(), Adjust(t));
      MayTakeBack(View(), t);
      var m := late[t];
      var x := mutexes[m];
      if x.owner.Some? {
        var p := if x.waiters != [] then Inherit(ceiling, prio[x.waiters[0]], x.orig) else x.orig;
        AdjustOwnerPrio(m, p);
      }
      late := late - {t};
      code := EAGAIN;
    }

    method Unlock(t: Tid, m: Mid) returns (code: Code)
      requires Valid() && Allowed(View(), MutexSpec.Unlock(t, m))
      modifies this
      ensures Valid() && View() == Step(old(View()), MutexSpec.Unlock(t, m))
      ensures code == old(Outcome(View(), MutexSpec.Unlock(t, m)))
      ensures UnlockAnswers(old(View()), t, m, code, View())
      ensures Holds(View(), t, m) == Holds(old(View()), t, m) - if code == Done then 1 else 0
    {
      hide Inv, Remove, UnlockAnswers, Holds;
      StepAnswers(View(), MutexSpec.Unlock(t, m));
      StepKeeps(View(), MutexSpec.Unlock(t, m));
      MutexOf(View(), m);
      if mutexes[m].owner.None? {
        return EINVAL;
      }
      if mutexes[m].owner != Some(t) {
        return EPERM;
      }
      code := Done;
      if mutexes[m].count > 1 {
        mutexes := mutexes[m := mutexes[m].(count := mutexes[m].count - 1)];
        return;
      }
      MayRelease(View(), t, m);
      HandOver(t, m);
    }

    method HandOver(t: Tid, m: Mid)
      requires CanRelease(View(), t, m)
      modifies this`prio, this`mutexes, this`blocked, this`owned
      ensures View() == Release(old(View()), t, m)
    {
      hide Remove, NoDup, Sorted, ThreadOk;
      AdjustOwnerPrio(m, mutexes[m].orig);
      owned := owned[t := Remove(owned[t], m)];
      var x := mutexes[m];
      if x.waiters != [] {
        var w := x.waiters[0];
        assert w in x.waiters;
        mutexes := mutexes[m := Mutex(Some(w), x.count, prio[w], x.waiters[1..])];
        blocked := blocked - {w};
        owned := owned[w := owned[w] + [m]];
      } else {
        mutexes := mutexes[m := Mutex(None, 0, x.orig, [])];
      }
    }

    // ---------- Runs ----------

    method Perform(op: Op) returns (code: Code)
      requires Valid() && Allowed(View(), op)
      modifies this
      ensures Valid() && View() == Step(old(View()), op) && code == old(Outcome(View(), op))
    {
      hide Inv, Step;
      match op
      case Lock(t, m, wait) => code := Lock(t, m, wait);
      case Expire(t) =>
        code := Code.Blocked;
        TimeOut(t);
      case Adjust(t) => code := LockTimedOut(t);
      case Unlock(t, m) => code := Unlock(t, m);
    }

    /** Any interleaving of calls ends in the state to which `MutexSpec` runs. */
    method RunAll(ops: seq<Op>)
      requires Valid() && RunAllowed(View(), ops)
      modifies this
      ensures Valid() && View() == Run(old(View()), ops)
      decreases |ops|
    {
      hide Inv, Step, Allowed;
      if ops != [] {
        var _ := Perform(ops[0]);
        RunAll(ops[1..]);
      }
    }
  }

  lemma {:induction false} SameJoin(p: map<Tid, int>, r: map<Tid, int>, q: seq<Tid>, t: Tid, o: Tid)
    requires t in p && o != t && o !in q && (forall w | w in q :: w in p)
             && forall w | w in p && w != o :: w in r && r[w] == p[w]
    ensures (forall w | w in q :: w in r) && Join(r, q, t) == Join(p, q, t)
  {
    forall w | w in q ensures w in r && r[w] == p[w] { assert w != o; }
    if q != [] {
      assert q[0] in q;
      SameJoin(p, r, q[1..], t, o);
    }
  }
}
