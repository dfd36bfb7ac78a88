/**
  Who holds a mutex, and how often: what each call answers and leaves alone, and the count of
  a mutex as a ledger of the calls of its owner. All of it with owners that may wait.
 */
module MutexLedger {
  import opened Common
  import opened MutexChain
  import opened MutexSpec

  // ---------- Answers ----------

  /** Nothing about the other mutexes changes. */
  ghost predicate OnlyMutex(s: Sys, r: Sys, m: Mid) {
    && (forall n :: n in r.mutexes <==> n in s.mutexes)
    && (forall n | n in s.mutexes && n != m :: r.mutexes[n] == s.mutexes[n])
  }

  /** No priority but that of `o` changes. */
  ghost predicate OnlyPrio(s: Sys, r: Sys, o: Tid) {
    && (forall u :: u in r.prio <==> u in s.prio)
    && (forall u | u in s.prio && u != o :: r.prio[u] == s.prio[u])
  }

  /** A thread gets a mutex that is free or its own. Otherwise it waits if it may, and only
      then; the owner and its count stay as they are. */
  ghost predicate LockAnswers(s: Sys, t: Tid, m: Mid, wait: bool, code: Code, r: Sys)
    requires m in s.mutexes
  {
    var x := s.mutexes[m];
    var free := x.owner.None? || x.owner == Some(t);
    && code in {Done, Blocked, EBUSY}
    && (code == Done <==> free)
    && (code == Blocked <==> !free && wait)
    && OnlyMutex(s, r, m) && m in r.mutexes && r.late == s.late
    && (code == EBUSY ==> r == s)
    && (code == Done ==>
          && r.mutexes[m].owner == Some(t) && r.mutexes[m].waiters == x.waiters
          && r.prio == s.prio && r.blocked == s.blocked)
    && (code == Blocked ==>
          && OnlyPrio(s, r, x.owner.value) && r.owned == s.owned
          && r.mutexes[m] == x.(waiters := r.mutexes[m].waiters) && t in r.mutexes[m].waiters
          && r.blocked == s.blocked[t := m])
  }

  /** Only the owner unlocks. The last unlock makes the mutex free if nobody waits, and
      otherwise hands it to the first waiter, which then waits no longer. */
  ghost predicate UnlockAnswers(s: Sys, t: Tid, m: Mid, code: Code, r: Sys)
    requires m in s.mutexes
  {
    var x := s.mutexes[m];
    && code in {Done, EINVAL, EPERM}
    && (code == EINVAL <==> x.owner.None?)
    && (code == EPERM <==> x.owner.Some? && x.owner != Some(t))
    && OnlyMutex(s, r, m) && m in r.mutexes && r.late == s.late
    && (code != Done ==> r == s)
    && (code == Done && x.count > 1 ==>
          && r.mutexes[m] == x.(count := r.mutexes[m].count)
          && r.prio == s.prio && r.blocked == s.blocked && r.owned == s.owned)
    && (code == Done && x.count == 1 ==>
          && OnlyPrio(s, r, t) && t in r.prio && r.prio[t] == x.orig
          && (x.waiters == [] ==> r.mutexes[m].owner.None? && r.mutexes[m].waiters == [] && r.blocked == s.blocked)
          && (x.waiters != [] ==>
                && r.mutexes[m].owner.Some? && [r.mutexes[m].owner.value] + r.mutexes[m].waiters == x.waiters
                && r.blocked == s.blocked - {r.mutexes[m].owner.value}))
  }

  lemma LockIs(s: Sys, t: Tid, m: Mid, wait: bool)
    requires Linked(s) && MayRun(s, Lock(t, m, wait))
    ensures LockAnswers(s, t, m, wait, Outcome(s, Lock(t, m, wait)), Next(s, Lock(t, m, wait)))
  {
    hide Linked, Join, Inherit, NoDup;
    OwnerOf(s, m);
    KeysOf(s);
    var x := s.mutexes[m];
    if x.owner.Some? && x.owner != Some(t) && wait { Joins(s.prio, x.waiters, t); }
  }

  lemma {:induction false} Joins(prio: map<Tid, int>, q: seq<Tid>, t: Tid)
    requires t in prio && forall w | w in q :: w in prio
    ensures t in Join(prio, q, t)
  {
    if q != [] && prio[t] >= prio[q[0]] { Joins(prio, q[1..], t); }
  }

  lemma UnlockIs(s: Sys, t: Tid, m: Mid)
    requires Linked(s) && MayRun(s, Unlock(t, m))
    ensures UnlockAnswers(s, t, m, Outcome(s, Unlock(t, m)), Next(s, Unlock(t, m)))
  {
    hide Linked, Remove, NoDup;
    OwnerOf(s, m);
    KeysOf(s);
    var x := s.mutexes[m];
    if x.owner == Some(t) && x.waiters != [] { assert x.waiters[0] in x.waiters; }
  }

  /** A thread whose wait times out leaves the queue it waits in, and nothing else, until it
      runs again; then it may change the priority of the owner, and nothing else. */
  lemma TimeoutIs(s: Sys, t: Tid)
    requires Linked(s)
    ensures t in s.blocked ==>
              var r := Next(s, Expire(t)); var m := s.blocked[t];
              && r == s.(mutexes := r.mutexes, blocked := s.blocked - {t}, late := s.late[t := m])
              && m in s.mutexes && OnlyMutex(s, r, m) && m in r.mutexes
              && r.mutexes[m] == s.mutexes[m].(waiters := r.mutexes[m].waiters)
              && (forall w :: w in r.mutexes[m].waiters <==> w in s.mutexes[m].waiters && w != t)
    ensures t in s.late ==>
              var r := Next(s, Adjust(t));
              && r == s.(prio := r.prio, late := s.late - {t})
              && s.late[t] in s.mutexes && var o := s.mutexes[s.late[t]].owner;
              && (o.None? ==> r.prio == s.prio) && (o.Some? ==> OnlyPrio(s, r, o.value))
  {
    hide Linked, Remove, NoDup, Due;
    KeysOf(s);
    if t in s.prio { ThreadLinks(s, t); }
    if t in s.blocked {
      MutexLinks(s, s.blocked[t]);
      RemoveIs(s.mutexes[s.blocked[t]].waiters, t);
    }
    if t in s.late { OwnerOf(s, s.late[t]); }
  }

  // ---------- The ledger ----------

  /** How often thread `t` holds mutex `m`. */
  function Holds(s: Sys, t: Tid, m: Mid): nat {
    if m in s.mutexes && s.mutexes[m].owner == Some(t) then s.mutexes[m].count else 0
  }

  /** A call of `t` to lock `m` succeeds: at once, or after a wait. */
  ghost predicate Gets(s: Sys, op: Op, t: Tid, m: Mid)
    requires Linked(s) && MayRun(s, op)
  {
    || (op.Lock? && op.t == t && op.m == m && Outcome(s, op) == Done)
    || (op.Unlock? && t in s.blocked && s.blocked[t] == m && t !in Next(s, op).blocked)
  }

  /** A call of `t` to unlock `m` succeeds. */
  ghost predicate Gives(s: Sys, op: Op, t: Tid, m: Mid)
    requires Linked(s) && MayRun(s, op)
  {
    op == Unlock(t, m) && Outcome(s, op) == Done
  }

  ghost function Balance(s: Sys, op: Op, t: Tid, m: Mid): int
    requires Linked(s) && MayRun(s, op)
  {
    (if Gets(s, op, t, m) then 1 else 0) - (if Gives(s, op, t, m) then 1 else 0)
  }

  lemma NextBalances(s: Sys, op: Op, t: Tid, m: Mid)
    requires Linked(s) && MayRun(s, op)
    ensures Holds(Next(s, op), t, m) == Holds(s, t, m) + Balance(s, op, t, m)
  {
    hide Linked, NoDup, Join, Inherit, Due, Remove;
    match op
    case Lock(u, n, wait) => LockBalances(s, u, n, wait, t, m);
    case Expire(u) => TimeoutBalances(s, u, t, m);
    case Adjust(u) => TimeoutIs(s, u);
    case Unlock(u, n) => UnlockBalances(s, u, n, t, m);
  }

  lemma LockBalances(s: Sys, u: Tid, n: Mid, wait: bool, t: Tid, m: Mid)
    requires Linked(s) && MayRun(s, Lock(u, n, wait))
    ensures Holds(Next(s, Lock(u, n, wait)), t, m) == Holds(s, t, m) + Balance(s, Lock(u, n, wait), t, m)
  {
    hide Linked, NoDup, Join, Inherit;
    OwnerOf(s, n);
  }

  lemma TimeoutBalances(s: Sys, u: Tid, t: Tid, m: Mid)
    requires Linked(s) && u in s.blocked
    ensures Holds(Next(s, Expire(u)), t, m) == Holds(s, t, m)
  {
    hide Linked, Next;
    TimeoutIs(s, u);
  }

  lemma UnlockBalances(s: Sys, u: Tid, n: Mid, t: Tid, m: Mid)
    requires Linked(s) && MayRun(s, Unlock(u, n))
    ensures Holds(Next(s, Unlock(u, n)), t, m) == Holds(s, t, m) + Balance(s, Unlock(u, n), t, m)
  {
    hide Linked, NoDup, Remove;
    OwnerOf(s, n);
    MutexLinks(s, n);
    if s.mutexes[n].waiters != [] { assert s.mutexes[n].waiters[0] in s.mutexes[n].waiters; }
  }

  /** The successful locks less the successful unlocks of `m` by `t` in a run. */
  ghost function Net(s: Sys, ops: seq<Op>, t: Tid, m: Mid): int
    requires Linked(s) && ChainAllowed(s, ops)
    decreases |ops|
  {
    if ops == [] then 0
    else NextLinks(s, ops[0]); Balance(s, ops[0], t, m) + Net(Next(s, ops[0]), ops[1..], t, m)
  }

  /** Over every run a thread holds a mutex exactly as often as it has locked it with success
      and not unlocked it since, whatever other threads do. */
  lemma {:induction false} LedgerBalances(s: Sys, ops: seq<Op>, t: Tid, m: Mid)
    requires Linked(s) && ChainAllowed(s, ops)
    ensures Holds(Chain(s, ops), t, m) == Holds(s, t, m) + Net(s, ops, t, m)
    decreases |ops|
  {
    hide Linked, Next, Balance, Holds, MayRun;
    if ops != [] {
      NextLinks(s, ops[0]);
      NextBalances(s, ops[0], t, m);
      LedgerBalances(Next(s, ops[0]), ops[1..], t, m);
    }
  }

  /** So the owner keeps the mutex until it has unlocked it as often as it has locked it. */
  lemma OwnerKeepsUntilEven(s: Sys, ops: seq<Op>, t: Tid, m: Mid)
    requires Linked(s) && ChainAllowed(s, ops) && m in s.mutexes && s.mutexes[m].owner == Some(t)
    ensures var r := Chain(s, ops);
            && m in r.mutexes
            && (r.mutexes[m].owner == Some(t) <==> s.mutexes[m].count + Net(s, ops, t, m) > 0)
            && (r.mutexes[m].owner == Some(t) ==> r.mutexes[m].count == s.mutexes[m].count + Net(s, ops, t, m))
  {
    hide Linked, Net;
    LedgerBalances(s, ops, t, m);
    ChainMutexes(s, ops, m);
  }

  lemma {:induction false} ChainMutexes(s: Sys, ops: seq<Op>, m: Mid)
    requires Linked(s) && ChainAllowed(s, ops) && m in s.mutexes
    ensures var r := Chain(s, ops);
            m in r.mutexes && (r.mutexes[m].owner.Some? <==> r.mutexes[m].count > 0)
    decreases |ops|
  {
    hide Linked, Next, MayRun;
    if ops == [] {
      OwnerOf(s, m);
    } else {
      NextLinks(s, ops[0]);
      MutexStays(s, ops[0], m);
      ChainMutexes(Next(s, ops[0]), ops[1..], m);
    }
  }

  lemma MutexStays(s: Sys, op: Op, m: Mid)
    requires Linked(s) && MayRun(s, op) && m in s.mutexes
    ensures m in Next(s, op).mutexes
  {
    hide Linked, NoDup, Join, Inherit, Due, Remove;
  }

  // ---------- Where nobody waits while owning a mutex ----------

  lemma StepAnswers(s: Sys, op: Op)
    requires Inv(s) && Allowed(s, op)
    ensures op.Lock? ==> LockAnswers(s, op.t, op.m, op.wait, Outcome(s, op), Step(s, op))
    ensures op.Unlock? ==> UnlockAnswers(s, op.t, op.m, Outcome(s, op), Step(s, op))
    ensures op.Lock? || op.Unlock? ==>
              Holds(Step(s, op), op.t, op.m) == Holds(s, op.t, op.m) +
                if Outcome(s, op) != Done then 0 else if op.Lock? then 1 else -1
  {
    hide Inv, Linked, Next, Step, LockAnswers, UnlockAnswers, Holds;
    NextIsStep(s, op);
    if op.Lock? {
      LockIs(s, op.t, op.m, op.wait);
      NextBalances(s, op, op.t, op.m);
    } else if op.Unlock? {
      UnlockIs(s, op.t, op.m);
      NextBalances(s, op, op.t, op.m);
    }
  }

  /** The runs of `MutexSpec` are among those of `MutexChain`, so the ledger is theirs too. */
  lemma {:induction false} RunIsChain(s: Sys, ops: seq<Op>)
    requires Inv(s) && RunAllowed(s, ops)
    ensures Linked(s) && ChainAllowed(s, ops) && Chain(s, ops) == Run(s, ops)
    decreases |ops|
  {
    hide Inv, Linked, Next, Step, MayRun, Allowed;
    InvIsLinked(s);
    if ops != [] {
      NextIsStep(s, ops[0]);
      StepKeeps(s, ops[0]);
      RunIsChain(Step(s, ops[0]), ops[1..]);
    }
  }
}
