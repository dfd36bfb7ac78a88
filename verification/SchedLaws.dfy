/**
  The scheduler's operations as tables: what each makes of the state of every thread, of every
  wait queue, and of the run queue, where threads of equal priority take turns.
 */
module SchedLaws {
  import opened Common
  import opened SchedSpec

  // ---------- Threads ----------

  /** In the run queue exactly if ready. */
  function Placed(th: Thread): Thread { th.(queued := Ready(th)) }

  /** Waiting in no queue. A thread that waits without a queue goes on waiting. */
  function OutOfQueue(th: Thread): Thread { th.(pending := th.pending && th.pendedOn.None?, pendedOn := None) }

  /** The thread an operation is about. */
  function Subject(s: Sys, op: Op): Option<Tid> {
    match op
    case WakeFirst(w, _) => if Queue(s, w) == [] then None else Some(Queue(s, w)[0])
    case Create(_, _, _) => None
    case _ => Some(op.t)
  }

  /** Whether a join waits: for another thread that is alive and does not wait for the caller. */
  predicate JoinWaits(s: Sys, t: Tid, target: Tid, wait: bool) {
    target in s.threads && wait && !s.threads[target].dead && target != t
    && s.threads[target].pendedOn != Some(Joiners(t))
  }

  /** What the operation makes of its thread, but for the run queue. */
  function Changed(s: Sys, op: Op, th: Thread): Thread {
    match op
    case Start(_) => th.(prestart := false)
    case Pend(_, on, timeout) => th.(pending := true, pendedOn := on, timeout := timeout)
    case Sleep(_) => th.(timeout := true, suspended := true)
    case TimeoutFires(_) => OutOfQueue(th).(timeout := false, prestart := false, suspended := false)
    case WakeFirst(_, keepTimeout) => OutOfQueue(th).(timeout := th.timeout && keepTimeout)
    case WakeThread(_) => OutOfQueue(th).(timeout := false)
    case Wakeup(_) =>
      if !th.pending && (th.timeout || (th.suspended && !th.prestart && !th.dead))
      then th.(timeout := false, suspended := false) else th
    case Suspend(_) => th.(timeout := false, suspended := true)
    case Resume(_) => th.(suspended := false)
    case PrioSet(_, prio) => th.(prio := prio)
    case Abort(_) => if th.dead then th else OutOfQueue(th).(dead := true, timeout := false)
    case Join(t, target, wait, timeout) =>
      if JoinWaits(s, t, target, wait)
      then th.(pending := true, pendedOn := Some(Joiners(target)), timeout := timeout) else th
    case _ => th
  }

  /** What the operation makes of any thread: the threads that join an aborted one are
      released, and no others are affected. */
  function After(s: Sys, op: Op, u: Tid): Thread
    requires u in s.threads
  {
    var th := s.threads[u];
    if Subject(s, op) == Some(u) then Placed(Changed(s, op, th))
    else if op.Abort? && op.t in s.threads && !s.threads[op.t].dead && th.pendedOn == Some(Joiners(op.t))
    then Placed(OutOfQueue(th).(timeout := false))
    else th
  }

  lemma SettledOf(s: Sys, t: Tid)
    requires Inv(s) && t in s.threads
    ensures Settled(s.threads[t])
  {
  }

  lemma ReleaseIs(s: Sys, t: Tid, keepTimeout: bool)
    requires Inv(s) && t in s.threads
    ensures var r := Release(s, t, keepTimeout);
            && r.threads.Keys == s.threads.Keys && (forall u | u in s.threads && u != t :: r.threads[u] == s.threads[u])
            && r.threads[t] == Placed(OutOfQueue(s.threads[t]).(timeout := s.threads[t].timeout && keepTimeout))
  {
    hide Links, Insert, Remove;
    SettledOf(s, t);
  }

  lemma {:induction false} ReleaseAllIs(s: Sys, w: Wid, n: nat)
    requires Inv(s) && n >= |Queue(s, w)|
    ensures var r := ReleaseAll(s, w, n);
            && r.threads.Keys == s.threads.Keys
            && forall u | u in s.threads :: r.threads[u] ==
                 if s.threads[u].pendedOn == Some(w) then Placed(OutOfQueue(s.threads[u]).(timeout := false))
                 else s.threads[u]
    decreases n
  {
    hide Links, Release, Placed, OutOfQueue;
    var q := Queue(s, w);
    if q == [] {
      forall u | u in s.threads ensures s.threads[u].pendedOn != Some(w) { WaitsIn(s, u, w); }
    } else {
      InQueue(s, q[0], w);
      ReleaseIs(s, q[0], false);
      ReleaseLinks(s, q[0], false);
      ReleaseQueue(s, q[0], w, false);
      ReleaseAllIs(Release(s, q[0], false), w, n - 1);
      OutOf(s.threads[q[0]], false);
    }
  }

  lemma OutOf(th: Thread, keepTimeout: bool)
    ensures Placed(OutOfQueue(th).(timeout := th.timeout && keepTimeout)).pendedOn.None?
  {
  }

  lemma WaitsIn(s: Sys, u: Tid, w: Wid)
    requires Inv(s) && u in s.threads
    ensures s.threads[u].pendedOn == Some(w) <==> u in Queue(s, w)
  {
    assert LinkOk(s, u) && WaitOk(s, w);
  }

  lemma DoomedIs(s: Sys, t: Tid)
    requires Inv(s) && t in s.threads && !s.threads[t].dead
    ensures var r := Doomed(s, t);
            && r.threads.Keys == s.threads.Keys && (forall u | u in s.threads && u != t :: r.threads[u] == s.threads[u])
            && r.threads[t] == Placed(OutOfQueue(s.threads[t]).(dead := true, timeout := false))
  {
    hide Links, Insert, Remove;
    SettledOf(s, t);
  }

  lemma AbortIs(s: Sys, t: Tid, u: Tid)
    requires Inv(s) && t in s.threads && u in s.threads
    ensures u in Step(s, Abort(t)).threads && Step(s, Abort(t)).threads[u] == After(s, Abort(t), u)
  {
    hide Links, Doomed, Placed, OutOfQueue;
    SettledOf(s, u);
    if !s.threads[t].dead {
      DoomedIs(s, t);
      DoomedOk(s, t);
      ReleaseAllIs(Doomed(s, t), Joiners(t), |Queue(Doomed(s, t), Joiners(t))|);
      OutOfDoomed(s.threads[t]);
    } else {
      DeadPlaced(s.threads[t]);
      SettledOf(s, t);
    }
  }

  lemma OutOfDoomed(th: Thread)
    ensures Placed(OutOfQueue(th).(dead := true, timeout := false)).pendedOn.None?
  {
  }

  lemma DeadPlaced(th: Thread)
    requires Settled(th)
    ensures Placed(th) == th
  {
  }

  lemma BlockIs(s: Sys, t: Tid, w: Option<Wid>, timeout: bool)
    requires Inv(s) && t in s.threads && Ready(s.threads[t])
    ensures var r := Block(s, t, w, timeout);
            && r.threads.Keys == s.threads.Keys && (forall u | u in s.threads && u != t :: r.threads[u] == s.threads[u])
            && r.threads[t] == Placed(s.threads[t].(pending := true, pendedOn := w, timeout := timeout))
  {
    hide Links, Insert, Remove;
    SettledOf(s, t);
  }

  lemma TimeoutIs(s: Sys, t: Tid)
    requires Inv(s) && Allowed(s, TimeoutFires(t))
    ensures var r := Step(s, TimeoutFires(t)); var th := s.threads[t];
            && r.threads.Keys == s.threads.Keys && (forall u | u in s.threads && u != t :: r.threads[u] == s.threads[u])
            && r.threads[t] == Placed(OutOfQueue(th).(timeout := false, prestart := false, suspended := false))
  {
    hide Links, Insert, Remove;
    SettledOf(s, t);
  }

  /** Every operation makes of every thread what the table says. */
  lemma StepThreads(s: Sys, op: Op, u: Tid)
    requires Inv(s) && Allowed(s, op) && u in s.threads
    ensures u in Step(s, op).threads && Step(s, op).threads[u] == After(s, op, u)
  {
    hide Links, Step, Placed, OutOfQueue, Release, Settled;
    match op
    case Abort(t) => AbortIs(s, t, u);
    case WakeFirst(w, keepTimeout) => WakeFirstIs(s, w, keepTimeout);
    case WakeThread(t) => WakeThreadIs(s, t);
    case Pend(t, on, timeout) => PendIs(s, t, on, timeout);
    case Join(t, target, wait, timeout) => JoinIs(s, t, target, wait, timeout, u);
    case TimeoutFires(t) => TimeoutIs(s, t);
    case Sleep(_) => StopIs(s, op, u);
    case Yield(_) => RequeueIs(s, op, u);
    case Suspend(_) => StopIs(s, op, u);
    case PrioSet(_, _) => RequeueIs(s, op, u);
    case Wakeup(t) => WakeupIs(s, t, u);
    case _ => ReadyIs(s, op, u);
  }

  lemma PendIs(s: Sys, t: Tid, on: Option<Wid>, timeout: bool)
    requires Inv(s) && Allowed(s, Pend(t, on, timeout))
    ensures var r := Step(s, Pend(t, on, timeout));
            && r.threads.Keys == s.threads.Keys && (forall u | u in s.threads && u != t :: r.threads[u] == s.threads[u])
            && r.threads[t] == Placed(s.threads[t].(pending := true, pendedOn := on, timeout := timeout))
  {
    hide Links, Block, Placed;
    BlockIs(s, t, on, timeout);
  }

  lemma JoinIs(s: Sys, t: Tid, target: Tid, wait: bool, timeout: bool, u: Tid)
    requires Inv(s) && Allowed(s, Join(t, target, wait, timeout)) && u in s.threads
    ensures var op := Join(t, target, wait, timeout);
            u in Step(s, op).threads && Step(s, op).threads[u] == After(s, op, u)
  {
    hide Links, Block;
    SettledOf(s, u);
    if JoinWaits(s, t, target, wait) { BlockIs(s, t, Some(Joiners(target)), timeout); }
  }

  lemma WakeThreadIs(s: Sys, t: Tid)
    requires Inv(s) && t in s.threads
    ensures var r := Step(s, WakeThread(t));
            && r.threads.Keys == s.threads.Keys && (forall u | u in s.threads && u != t :: r.threads[u] == s.threads[u])
            && r.threads[t] == Placed(OutOfQueue(s.threads[t]).(timeout := false))
  {
    hide Links, Release, Placed, OutOfQueue;
    ReleaseIs(s, t, false);
  }

  lemma WakeFirstIs(s: Sys, w: Wid, keepTimeout: bool)
    requires Inv(s)
    ensures var r := Step(s, WakeFirst(w, keepTimeout)); var q := Queue(s, w);
            && (q == [] ==> r == s)
            && (q != [] ==>
                  && q[0] in s.threads && r.threads.Keys == s.threads.Keys
                  && (forall u | u in s.threads && u != q[0] :: r.threads[u] == s.threads[u])
                  && var th := s.threads[q[0]];
                     r.threads[q[0]] == Placed(OutOfQueue(th).(timeout := th.timeout && keepTimeout)))
  {
    hide Links, Release, Placed, OutOfQueue;
    if Queue(s, w) != [] {
      InQueue(s, Queue(s, w)[0], w);
      ReleaseIs(s, Queue(s, w)[0], keepTimeout);
    }
  }

  lemma WakeupIs(s: Sys, t: Tid, u: Tid)
    requires Inv(s) && t in s.threads && u in s.threads
    ensures u in Step(s, Wakeup(t)).threads && Step(s, Wakeup(t)).threads[u] == After(s, Wakeup(t), u)
  {
    hide Links, Insert, Queue;
    SettledOf(s, u);
  }

  lemma ReadyIs(s: Sys, op: Op, u: Tid)
    requires Inv(s) && Allowed(s, op) && u in s.threads
    requires op.Create? || op.Start? || op.MakeReady? || op.Resume?
    ensures u in Step(s, op).threads && Step(s, op).threads[u] == After(s, op, u)
  {
    hide Links, Insert, Remove, Queue;
    SettledOf(s, u);
  }

  lemma StopIs(s: Sys, op: Op, u: Tid)
    requires Inv(s) && Allowed(s, op) && u in s.threads && (op.Sleep? || op.Suspend?)
    ensures u in Step(s, op).threads && Step(s, op).threads[u] == After(s, op, u)
  {
    hide Links, Insert, Remove, Queue;
    SettledOf(s, u);
  }

  lemma RequeueIs(s: Sys, op: Op, u: Tid)
    requires Inv(s) && Allowed(s, op) && u in s.threads && (op.Yield? || op.PrioSet?)
    ensures u in Step(s, op).threads && Step(s, op).threads[u] == After(s, op, u)
  {
    hide Links, Insert, Remove, Queue;
    SettledOf(s, u);
  }

  /** A new thread waits to be started. */
  lemma CreateIs(s: Sys, t: Tid, prio: int, delay: bool)
    requires Allowed(s, Create(t, prio, delay))
    ensures var r := Step(s, Create(t, prio, delay));
            && r.runq == s.runq && r.waitqs == s.waitqs && r.threads.Keys == s.threads.Keys + {t}
            && r.threads[t] == Thread(prio, false, false, true, false, false, delay, None)
  {
  }

  // ---------- Queues ----------

  /** A thread enters a queue behind the threads of equal or better priority, in front of the
      first of worse priority. */
  ghost predicate Enters(threads: map<Tid, Thread>, q: seq<Tid>, t: Tid, r: seq<Tid>) {
    exists k | 0 <= k <= |q| :: EntersAt(threads, q, t, k) && r == q[..k] + [t] + q[k..]
  }

  ghost predicate EntersAt(threads: map<Tid, Thread>, q: seq<Tid>, t: Tid, k: nat)
    requires k <= |q|
  {
    && (forall i | 0 <= i < k :: Prio(threads, q[i]) <= Prio(threads, t))
    && (k < |q| ==> Prio(threads, t) < Prio(threads, q[k]))
  }

  lemma {:induction false} InsertEnters(a: map<Tid, Thread>, b: map<Tid, Thread>, q: seq<Tid>, t: Tid)
    requires Prio(a, t) == Prio(b, t) && forall u | u in q :: Prio(a, u) == Prio(b, u)
    ensures Enters(b, q, t, Insert(a, q, t))
  {
    hide Prio;
    if q == [] || Prio(a, t) < Prio(a, q[0]) {
      assert q != [] ==> q[0] in q;
      assert EntersAt(b, q, t, 0) && Insert(a, q, t) == q[..0] + [t] + q[0..];
    } else {
      assert q[0] in q && forall u | u in q[1..] :: u in q;
      InsertEnters(a, b, q[1..], t);
      EntersBehind(b, q, t, Insert(a, q[1..], t));
    }
  }

  lemma EntersBehind(threads: map<Tid, Thread>, q: seq<Tid>, t: Tid, r: seq<Tid>)
    requires q != [] && Prio(threads, q[0]) <= Prio(threads, t) && Enters(threads, q[1..], t, r)
    ensures Enters(threads, q, t, [q[0]] + r)
  {
    hide Prio;
    var q1 := q[1..];
    var k :| 0 <= k <= |q1| && EntersAt(threads, q1, t, k) && r == q1[..k] + [t] + q1[k..];
    assert forall i | 0 < i < k + 1 :: q[i] == q1[i - 1];
    assert EntersAt(threads, q, t, k + 1);
    ConsParts(q, t, k);
  }

  lemma ConsParts(q: seq<Tid>, t: Tid, k: nat)
    requires k < |q|
    ensures [q[0]] + (q[1..][..k] + [t] + q[1..][k..]) == q[..k + 1] + [t] + q[k + 1..]
  {
  }

  /** What an operation makes of a wait queue: a thread that waits enters it, one that waits no
      longer leaves it, and the others keep their order. */
  ghost predicate WaitMoves(s: Sys, op: Op, w: Wid, q: seq<Tid>) {
    match op
    case Pend(t, on, _) => if on == Some(w) then Enters(s.threads, Queue(s, w), t, q) else q == Queue(s, w)
    case Join(t, target, wait, _) =>
      if JoinWaits(s, t, target, wait) && w == Joiners(target) then Enters(s.threads, Queue(s, w), t, q)
      else q == Queue(s, w)
    case TimeoutFires(t) => q == Remove(Queue(s, w), t)
    case WakeThread(t) => q == Remove(Queue(s, w), t)
    case WakeFirst(v, _) => q == if v == w && Queue(s, w) != [] then Queue(s, w)[1..] else Queue(s, w)
    case Abort(t) =>
      if t !in s.threads || s.threads[t].dead then q == Queue(s, w)
      else q == if w == Joiners(t) then [] else Remove(Queue(s, w), t)
    case _ => q == Queue(s, w)
  }

  lemma UnpendIfQueue(s: Sys, t: Tid, w: Wid)
    requires Inv(s) && t in s.threads
    ensures Queue(UnpendIf(s, t), w) == Remove(Queue(s, w), t)
  {
    hide Links, Remove;
    WaitsIn(s, t, w);
    if s.threads[t].pendedOn != Some(w) { RemoveNone(Queue(s, w), t); }
  }

  lemma ReleaseWaits(s: Sys, t: Tid, keepTimeout: bool, w: Wid)
    requires Inv(s) && t in s.threads
    ensures Queue(Release(s, t, keepTimeout), w) == Remove(Queue(s, w), t)
  {
    hide Inv, Insert, Remove, UnpendIf;
    UnpendIfQueue(s, t, w);
    UnpendIfKeys(s, t);
  }

  lemma UnpendIfKeys(s: Sys, t: Tid)
    requires t in s.threads
    ensures t in UnpendIf(s, t).threads && UnpendIf(s, t).runq == s.runq
  {
    hide Remove;
  }

  lemma TimeoutWaits(s: Sys, t: Tid, w: Wid)
    requires Inv(s) && Allowed(s, TimeoutFires(t))
    ensures Queue(Step(s, TimeoutFires(t)), w) == Remove(Queue(s, w), t)
  {
    hide Links, Insert, Remove;
    SettledOf(s, t);
    WaitsIn(s, t, w);
    if s.threads[t].pendedOn != Some(w) { RemoveNone(Queue(s, w), t); }
  }

  lemma BlockWaits(s: Sys, t: Tid, on: Option<Wid>, timeout: bool, w: Wid)
    requires Inv(s) && t in s.threads && Ready(s.threads[t])
    ensures var q := Queue(Block(s, t, on, timeout), w);
            if on == Some(w) then Enters(s.threads, Queue(s, w), t, q) else q == Queue(s, w)
  {
    hide Links, Insert, Remove, Enters;
    var r := Unready(s, t);
    InsertEnters(r.threads, s.threads, Queue(s, w), t);
  }

  lemma {:induction false} ReleaseAllWaits(s: Sys, w: Wid, n: nat, v: Wid)
    requires Inv(s) && n >= |Queue(s, w)|
    ensures Queue(ReleaseAll(s, w, n), v) == if v == w then [] else Queue(s, v)
    decreases n
  {
    hide Links, Release, Remove;
    var q := Queue(s, w);
    if q != [] {
      InQueue(s, q[0], w);
      ReleaseLinks(s, q[0], false);
      ReleaseQueue(s, q[0], w, false);
      ReleaseWaits(s, q[0], false, v);
      if v != w {
        WaitsIn(s, q[0], v);
        RemoveNone(Queue(s, v), q[0]);
      }
      ReleaseAllWaits(Release(s, q[0], false), w, n - 1, v);
    }
  }

  lemma DoomedWaits(s: Sys, t: Tid, w: Wid)
    requires Inv(s) && t in s.threads && !s.threads[t].dead
    ensures Queue(Doomed(s, t), w) == Remove(Queue(s, w), t)
  {
    hide Links, Insert, Remove;
    WaitsIn(s, t, w);
    if s.threads[t].pendedOn != Some(w) { RemoveNone(Queue(s, w), t); }
  }

  lemma AbortWaits(s: Sys, t: Tid, w: Wid)
    requires Inv(s) && t in s.threads
    ensures WaitMoves(s, Abort(t), w, Queue(Step(s, Abort(t)), w))
  {
    hide Links, Doomed, Remove;
    if !s.threads[t].dead {
      DoomedOk(s, t);
      DoomedWaits(s, t, w);
      ReleaseAllWaits(Doomed(s, t), Joiners(t), |Queue(Doomed(s, t), Joiners(t))|, w);
    }
  }

  lemma StepWaits(s: Sys, op: Op, w: Wid)
    requires Inv(s) && Allowed(s, op)
    ensures WaitMoves(s, op, w, Queue(Step(s, op), w))
  {
    hide Inv, Insert, Remove, Release, Block, Kill, Enters, Wake;
    match op
    case Abort(t) => AbortWaits(s, t, w);
    case TimeoutFires(t) => TimeoutWaits(s, t, w);
    case WakeThread(t) => ReleaseWaits(s, t, false, w);
    case WakeFirst(v, keepTimeout) => WakeFirstWaits(s, v, keepTimeout, w);
    case Pend(t, on, timeout) => BlockWaits(s, t, on, timeout, w);
    case Join(t, target, wait, timeout) => BlockWaits(s, t, Some(Joiners(target)), timeout, w);
    case _ =>
  }

  lemma WakeFirstWaits(s: Sys, v: Wid, keepTimeout: bool, w: Wid)
    requires Inv(s)
    ensures Queue(Step(s, WakeFirst(v, keepTimeout)), w) ==
              if v == w && Queue(s, w) != [] then Queue(s, w)[1..] else Queue(s, w)
  {
    hide Inv, Release, Remove;
    if Queue(s, v) != [] {
      var t := Queue(s, v)[0];
      InQueue(s, t, v);
      ReleaseWaits(s, t, keepTimeout, w);
      ReleaseQueue(s, t, v, keepTimeout);
      if v != w {
        WaitsIn(s, t, w);
        RemoveNone(Queue(s, w), t);
      }
    }
  }

  // ---------- The run queue ----------

  /** Yielding and a new priority send a ready thread to the end of its class. */
  predicate Requeues(op: Op) { op.Yield? || op.PrioSet? }

  /** A thread that becomes ready enters the run queue, one that is no longer ready leaves it,
      one that requeues leaves and enters, and all others keep their order. */
  ghost predicate RunMoves(s: Sys, op: Op, r: Sys)
    requires Subject(s, op).Some? && Subject(s, op).value in s.threads
  {
    var t := Subject(s, op).value;
    var ready := Ready(After(s, op, t));
    && (!ready ==> r.runq == Remove(s.runq, t))
    && (ready && Ready(s.threads[t]) && !Requeues(op) ==> r.runq == s.runq)
    && (ready && (Requeues(op) || !Ready(s.threads[t])) ==> Enters(r.threads, Remove(s.runq, t), t, r.runq))
  }

  lemma ReadyInRun(s: Sys, t: Tid)
    requires Inv(s) && t in s.threads
    ensures Ready(s.threads[t]) <==> t in s.runq
    ensures Ready(s.threads[t]) <==> s.threads[t].queued
    ensures !Ready(s.threads[t]) ==> Remove(s.runq, t) == s.runq
  {
    hide Remove;
    Members(s, t);
    if t !in s.runq { RemoveNone(s.runq, t); }
  }

  /** A thread is in the run queue exactly if nothing keeps it from running: it has started and
      is alive, waits for nothing, is not suspended, and no timeout of it is active. */
  lemma InRunIff(s: Sys, t: Tid)
    requires Inv(s) && t in s.threads
    ensures var th := s.threads[t];
            t in s.runq <==> !th.pending && !th.prestart && !th.dead && !th.suspended && !th.timeout
  {
    hide Remove;
    ReadyInRun(s, t);
  }

  /** Making a thread ready whose other flags have just changed. */
  lemma ReadyRuns(s: Sys, s1: Sys, t: Tid)
    requires Inv(s) && t in s.threads && s1.runq == s.runq && t in s1.threads
    requires s1.threads[t].queued == s.threads[t].queued
    requires forall u | u in s.threads :: u in s1.threads && s1.threads[u].prio == s.threads[u].prio
    requires Ready(s.threads[t]) ==> Ready(s1.threads[t])
    ensures var r := ReadyThread(s1, t);
            && (!Ready(s1.threads[t]) ==> r.runq == Remove(s.runq, t))
            && (Ready(s1.threads[t]) && Ready(s.threads[t]) ==> r.runq == s.runq)
            && (Ready(s1.threads[t]) && !Ready(s.threads[t]) ==> Enters(r.threads, Remove(s.runq, t), t, r.runq))
  {
    hide Inv, Insert, Remove, Enters;
    ReadyInRun(s, t);
    var r := ReadyThread(s1, t);
    if Ready(s1.threads[t]) && !Ready(s.threads[t]) { InsertEnters(s1.threads, r.threads, s.runq, t); }
  }

  lemma ReleaseRuns(s: Sys, t: Tid, keepTimeout: bool)
    requires Inv(s) && t in s.threads
    ensures var r := Release(s, t, keepTimeout); var ready := Ready(r.threads[t]);
            && (!ready ==> r.runq == Remove(s.runq, t))
            && (ready && Ready(s.threads[t]) ==> r.runq == s.runq)
            && (ready && !Ready(s.threads[t]) ==> Enters(r.threads, Remove(s.runq, t), t, r.runq))
  {
    hide Links, Insert, Remove, Enters;
    SettledOf(s, t);
    var r := UnpendIf(s, t);
    var s1 := if keepTimeout then r else Set(r, t, r.threads[t].(timeout := false));
    ReadyRuns(s, s1, t);
  }

  lemma TimeoutRuns(s: Sys, t: Tid)
    requires Inv(s) && Allowed(s, TimeoutFires(t))
    ensures var r := Step(s, TimeoutFires(t)); var ready := Ready(r.threads[t]);
            && (!ready ==> r.runq == Remove(s.runq, t))
            && (ready ==> Enters(r.threads, Remove(s.runq, t), t, r.runq))
  {
    hide Links, Insert, Remove, Enters;
    SettledOf(s, t);
    var r := UnpendIf(Set(s, t, s.threads[t].(timeout := false)), t);
    ReadyRuns(s, Set(r, t, r.threads[t].(prestart := false, suspended := false)), t);
  }

  lemma UnreadyRuns(s: Sys, t: Tid)
    requires Inv(s) && t in s.threads
    ensures Unready(s, t).runq == Remove(s.runq, t)
  {
    hide Links, Remove;
    ReadyInRun(s, t);
  }

  lemma RequeueRuns(s: Sys, op: Op)
    requires Inv(s) && Allowed(s, op) && Requeues(op) && Ready(s.threads[op.t])
    ensures Enters(Step(s, op).threads, Remove(s.runq, op.t), op.t, Step(s, op).runq)
  {
    hide Links, Insert, Remove, Enters;
    var t, r := op.t, Step(s, op);
    var s1 := Dequeue(s, t);
    var prio := if op.PrioSet? then op.prio else s.threads[t].prio;
    var s2 := Set(s1, t, s1.threads[t].(prio := prio));
    assert op.Yield? ==> s2 == s1;
    RunNoDup(s);
    RemoveIs(s.runq, t);
    InsertEnters(s2.threads, r.threads, Remove(s.runq, t), t);
  }

  lemma RunNoDup(s: Sys)
    requires Inv(s)
    ensures NoDup(s.runq) && forall u | u in s.runq :: u in s.threads
  {
  }

  lemma ReadyOpRuns(s: Sys, op: Op)
    requires Inv(s) && Allowed(s, op) && (op.Start? || op.MakeReady? || op.Resume?)
    ensures RunMoves(s, op, Step(s, op))
  {
    hide Links, Insert, Remove, Enters;
    var t := op.t;
    var th := s.threads[t];
    SettledOf(s, t);
    ReadyInRun(s, t);
    match op
    case Start(_) => ReadyRuns(s, Set(s, t, th.(prestart := false)), t);
    case MakeReady(_) => ReadyRuns(s, s, t);
    case Resume(_) => ReadyRuns(s, Set(s, t, th.(suspended := false)), t);
  }

  lemma WakeupRuns(s: Sys, t: Tid)
    requires Inv(s) && t in s.threads
    ensures RunMoves(s, Wakeup(t), Step(s, Wakeup(t)))
  {
    hide Links, Insert, Remove, Enters;
    SettledOf(s, t);
    ReadyInRun(s, t);
    ReadyRuns(s, Set(s, t, s.threads[t].(timeout := false, suspended := false)), t);
  }

  lemma LeaveOpRuns(s: Sys, op: Op)
    requires Inv(s) && Allowed(s, op) && (op.Pend? || op.Join? || op.Sleep? || op.Suspend?)
    ensures RunMoves(s, op, Step(s, op))
  {
    hide Links, Insert, Remove, Enters;
    SettledOf(s, op.t);
    ReadyInRun(s, op.t);
    UnreadyRuns(s, op.t);
  }

  /** Every operation but an abort moves at most the one thread in the run queue. */
  lemma StepRuns(s: Sys, op: Op)
    requires Inv(s) && Allowed(s, op) && !op.Abort?
    ensures Subject(s, op).None? ==> Step(s, op).runq == s.runq
    ensures Subject(s, op).Some? ==> Subject(s, op).value in s.threads && RunMoves(s, op, Step(s, op))
  {
    hide Inv, Insert, Remove, Enters, Release, Wake, Block, OutOfQueue;
    match op
    case WakeFirst(w, keepTimeout) =>
      if Queue(s, w) != [] {
        InQueue(s, Queue(s, w)[0], w);
        ReleaseRuns(s, Queue(s, w)[0], keepTimeout);
        ReleaseIs(s, Queue(s, w)[0], keepTimeout);
      }
    case WakeThread(t) =>
      ReleaseRuns(s, t, false);
      ReleaseIs(s, t, false);
    case TimeoutFires(t) =>
      TimeoutRuns(s, t);
      TimeoutIs(s, t);
    case Yield(t) => RequeueRuns(s, op);
    case PrioSet(t, prio) =>
      ReadyInRun(s, t);
      if Ready(s.threads[t]) { RequeueRuns(s, op); }
    case Create(_, _, _) =>
    case Start(_) => ReadyOpRuns(s, op);
    case MakeReady(_) => ReadyOpRuns(s, op);
    case Wakeup(t) => WakeupRuns(s, t);
    case Resume(_) => ReadyOpRuns(s, op);
    case _ => LeaveOpRuns(s, op);
  }

  /** Threads enter a queue one after the other, those of them that are ready. */
  ghost predicate EnterEach(threads: map<Tid, Thread>, q: seq<Tid>, ts: seq<Tid>, r: seq<Tid>)
    decreases |ts|
  {
    if ts == [] then r == q
    else if ts[0] in threads && Ready(threads[ts[0]]) then
      exists q1 :: Enters(threads, q, ts[0], q1) && EnterEach(threads, q1, ts[1..], r)
    else EnterEach(threads, q, ts[1..], r)
  }

  lemma EntersAlike(a: map<Tid, Thread>, b: map<Tid, Thread>, q: seq<Tid>, t: Tid, r: seq<Tid>)
    requires Enters(a, q, t, r) && a.Keys == b.Keys && forall u | u in a :: a[u].prio == b[u].prio
    ensures Enters(b, q, t, r)
  {
    assert forall u :: Prio(a, u) == Prio(b, u);
  }

  lemma WaiterIs(s: Sys, t: Tid, w: Wid)
    requires Inv(s) && t in Queue(s, w)
    ensures t in s.threads && !Ready(s.threads[t])
  {
    InQueue(s, t, w);
    SettledOf(s, t);
  }

  lemma SamePrios(s: Sys, w: Wid, n: nat)
    requires Inv(s) && n >= |Queue(s, w)|
    ensures var r := ReleaseAll(s, w, n);
            r.threads.Keys == s.threads.Keys && forall u | u in s.threads :: r.threads[u].prio == s.threads[u].prio
  {
    hide Inv, ReleaseAll;
    ReleaseAllIs(s, w, n);
  }

  lemma {:induction false} ReleaseAllRuns(s: Sys, w: Wid, n: nat)
    requires Inv(s) && n >= |Queue(s, w)|
    ensures EnterEach(ReleaseAll(s, w, n).threads, s.runq, Queue(s, w), ReleaseAll(s, w, n).runq)
    decreases n
  {
    hide Links, Release, Remove, Enters, Placed, OutOfQueue, Ready;
    var q := Queue(s, w);
    if q != [] {
      var t := q[0];
      InQueue(s, t, w);
      ReleaseLinks(s, t, false);
      ReleaseQueue(s, t, w, false);
      ReleaseRuns(s, t, false);
      var s1, r := Release(s, t, false), ReleaseAll(s, w, n);
      ReleaseAllRuns(s1, w, n - 1);
      ReleaseAllIs(s1, w, n - 1);
      SamePrios(s1, w, n - 1);
      ReleaseIs(s, t, false);
      OutOf(s.threads[t], false);
      WaiterIs(s, t, w);
      ReadyInRun(s, t);
      if Ready(r.threads[t]) { EntersAlike(s1.threads, r.threads, s.runq, t, s1.runq); }
    }
  }

  /** An abort takes the thread out of the run queue, and the threads that joined it enter in
      the order in which they waited. */
  lemma AbortRuns(s: Sys, t: Tid)
    requires Inv(s) && t in s.threads && !s.threads[t].dead
    ensures var r := Step(s, Abort(t));
            EnterEach(r.threads, Remove(s.runq, t), Remove(Queue(s, Joiners(t)), t), r.runq)
  {
    hide Links, Doomed, Remove, Enters, EnterEach;
    DoomedOk(s, t);
    DoomedWaits(s, t, Joiners(t));
    DoomedRuns(s, t);
    ReleaseAllRuns(Doomed(s, t), Joiners(t), |Queue(Doomed(s, t), Joiners(t))|);
  }

  lemma DoomedRuns(s: Sys, t: Tid)
    requires Inv(s) && t in s.threads && !s.threads[t].dead
    ensures Doomed(s, t).runq == Remove(s.runq, t)
  {
    hide Links, Insert, Remove;
    ReadyInRun(s, t);
  }

  // ---------- Order of the wait queues ----------

  ghost predicate WaitsSorted(s: Sys) { forall w :: Sorted(s.threads, Queue(s, w)) }

  /** A new priority does not move a waiting thread, so it may stand behind a worse or before
      a better one. */
  ghost predicate Misplaces(s: Sys, op: Op) {
    op.PrioSet? && op.t in s.threads && s.threads[op.t].pendedOn.Some?
    && var q := Queue(s, s.threads[op.t].pendedOn.value);
       exists i | 0 <= i < |q| && q[i] == op.t ::
         || (i > 0 && Prio(s.threads, q[i - 1]) > op.prio)
         || (i + 1 < |q| && op.prio > Prio(s.threads, q[i + 1]))
  }

  lemma SortedAfter(s: Sys, op: Op, w: Wid)
    requires Inv(s) && Allowed(s, op) && WaitsSorted(s) && !op.PrioSet?
    ensures Sorted(Step(s, op).threads, Queue(Step(s, op), w))
  {
    hide Inv, Step, Sorted, Enters, Remove, WaitMoves, Queue, Allowed;
    var r, q := Step(s, op), Queue(s, w);
    StepKeeps(s, op);
    StepWaits(s, op, w);
    assert Sorted(s.threads, q);
    MovesSorted(s, op, w, Queue(r, w));
    forall u | u in Queue(r, w) ensures u in r.threads && r.threads[u].prio == s.threads[u].prio { SamePrio(s, op, u); }
    SortedAlike(s.threads, r.threads, Queue(r, w));
  }

  lemma MovesSorted(s: Sys, op: Op, w: Wid, q: seq<Tid>)
    requires Allowed(s, op) && Sorted(s.threads, Queue(s, w)) && WaitMoves(s, op, w, q)
    ensures Sorted(s.threads, q) && forall u | u in q :: u in s.threads
  {
    hide Enters, Remove, Queue, Sorted;
    SortedIn(s.threads, Queue(s, w));
    match op {
      case Pend(t, on, _) => if on == Some(w) { EntersSorted(s.threads, Queue(s, w), t, q); }
      case Join(t, target, wait, _) =>
        if JoinWaits(s, t, target, wait) && w == Joiners(target) { EntersSorted(s.threads, Queue(s, w), t, q); }
      case TimeoutFires(t) => RemoveSorted(s.threads, Queue(s, w), t);
      case WakeThread(t) => RemoveSorted(s.threads, Queue(s, w), t);
      case WakeFirst(v, _) => if Queue(s, w) != [] { SortedTail(s.threads, Queue(s, w)); }
      case Abort(t) =>
        RemoveSorted(s.threads, Queue(s, w), t);
        SortedNone(s.threads);
      case _ =>
    }
    SortedIn(s.threads, q);
  }

  lemma SortedIn(threads: map<Tid, Thread>, q: seq<Tid>)
    requires Sorted(threads, q)
    ensures forall u | u in q :: u in threads
  {
  }

  lemma SortedNone(threads: map<Tid, Thread>)
    ensures Sorted(threads, [])
  {
  }

  lemma EntersSorted(threads: map<Tid, Thread>, q: seq<Tid>, t: Tid, r: seq<Tid>)
    requires Sorted(threads, q) && t in threads && Enters(threads, q, t, r)
    ensures Sorted(threads, r)
  {
    hide Sorted, EntersAt;
    var k :| 0 <= k <= |q| && EntersAt(threads, q, t, k) && r == q[..k] + [t] + q[k..];
    EntersAtSorted(threads, q, t, k);
  }

  lemma EntersAtSorted(threads: map<Tid, Thread>, q: seq<Tid>, t: Tid, k: nat)
    requires Sorted(threads, q) && t in threads && k <= |q| && EntersAt(threads, q, t, k)
    ensures Sorted(threads, q[..k] + [t] + q[k..])
  {
    var r := q[..k] + [t] + q[k..];
    assert forall i | 0 <= i < |q| :: q[i] in q;
    forall i, j | 0 <= i < j < |r| ensures Prio(threads, r[i]) <= Prio(threads, r[j]) {
      Place(q, t, k, i);
      Place(q, t, k, j);
    }
    forall u | u in r ensures u in threads {
      var i :| 0 <= i < |r| && r[i] == u;
      Place(q, t, k, i);
    }
  }

  lemma Place(q: seq<Tid>, t: Tid, k: nat, i: nat)
    requires k <= |q| && i <= |q|
    ensures (q[..k] + [t] + q[k..])[i] == if i < k then q[i] else if i == k then t else q[i - 1]
  {
  }

  lemma SamePrio(s: Sys, op: Op, u: Tid)
    requires Inv(s) && Allowed(s, op) && !op.PrioSet? && u in s.threads
    ensures u in Step(s, op).threads && Step(s, op).threads[u].prio == s.threads[u].prio
  {
    hide Inv, Step, After;
    StepThreads(s, op, u);
    AfterPrio(s, op, u);
  }

  lemma AfterPrio(s: Sys, op: Op, u: Tid)
    requires !op.PrioSet? && u in s.threads
    ensures After(s, op, u).prio == s.threads[u].prio
  {
    hide Ready, Queue, Subject, Changed;
    ChangedPrio(s, op, s.threads[u]);
  }

  lemma ChangedPrio(s: Sys, op: Op, th: Thread)
    requires !op.PrioSet?
    ensures Changed(s, op, th).prio == th.prio
  {
    hide JoinWaits;
  }

  /** A wait queue loses its order exactly by a priority that does not fit the place of a
      waiting thread; as long as it has not, the thread that is woken is the best. */
  lemma StepUnsortsIff(s: Sys, op: Op)
    requires Inv(s) && Allowed(s, op) && WaitsSorted(s)
    ensures WaitsSorted(Step(s, op)) <==> !Misplaces(s, op)
  {
    hide Inv, Step, Sorted, Misplaces, WaitsSorted;
    if op.PrioSet? {
      PrioUnsortsIff(s, op.t, op.prio);
    } else {
      forall w ensures Sorted(Step(s, op).threads, Queue(Step(s, op), w)) { SortedAfter(s, op, w); }
      WaitsAre(Step(s, op));
      NotMisplaced(s, op);
    }
  }

  lemma WaitsAre(s: Sys)
    requires forall w :: Sorted(s.threads, Queue(s, w))
    ensures WaitsSorted(s)
  {
  }

  lemma NotMisplaced(s: Sys, op: Op)
    requires !op.PrioSet?
    ensures !Misplaces(s, op)
  {
  }

  lemma PrioUnsortsIff(s: Sys, t: Tid, prio: int)
    requires Inv(s) && t in s.threads && WaitsSorted(s)
    ensures WaitsSorted(Step(s, PrioSet(t, prio))) <==> !Misplaces(s, PrioSet(t, prio))
  {
    hide Links, Insert, Remove, Queue;
    var op := PrioSet(t, prio);
    var r := Step(s, op);
    forall w ensures Queue(r, w) == Queue(s, w) && (t in Queue(s, w) <==> s.threads[t].pendedOn == Some(w)) {
      StepWaits(s, op, w);
      WaitsIn(s, t, w);
    }
    StepThreads(s, op, t);
    forall u | u in s.threads && u != t ensures u in r.threads && r.threads[u] == s.threads[u] {
      StepThreads(s, op, u);
    }
    forall w ensures Sorted(r.threads, Queue(s, w)) <==> !(s.threads[t].pendedOn == Some(w) && Misplaces(s, op)) {
      if s.threads[t].pendedOn == Some(w) {
        assert NoDup(Queue(s, w)) by { QueueNoDup(s, w); }
        OneMoved(s.threads, r.threads, Queue(s, w), t, prio);
      } else {
        SortedAlike(s.threads, r.threads, Queue(s, w));
      }
    }
  }

  lemma QueueNoDup(s: Sys, w: Wid)
    requires Inv(s)
    ensures NoDup(Queue(s, w))
  {
    assert WaitOk(s, w);
  }

  lemma OneMoved(a: map<Tid, Thread>, b: map<Tid, Thread>, q: seq<Tid>, t: Tid, prio: int)
    requires Sorted(a, q) && NoDup(q) && t in q && t in b && b[t].prio == prio
    requires forall u | u in a && u != t :: u in b && b[u] == a[u]
    ensures Sorted(b, q) <==>
            !(exists i | 0 <= i < |q| && q[i] == t ::
                || (i > 0 && Prio(a, q[i - 1]) > prio)
                || (i + 1 < |q| && prio > Prio(a, q[i + 1])))
  {
    hide Sorted;
    var k :| 0 <= k < |q| && q[k] == t;
    assert forall i | 0 <= i < |q| :: q[i] in q;
    SortedIn(a, q);
    MovedAt(a, b, q, k, prio);
  }

  lemma MovedAt(a: map<Tid, Thread>, b: map<Tid, Thread>, q: seq<Tid>, k: nat, prio: int)
    requires k < |q| && Sorted(a, q) && NoDup(q) && q[k] in b && b[q[k]].prio == prio
    requires forall u | u in a && u != q[k] :: u in b && b[u] == a[u]
    ensures Sorted(b, q) <==>
            (k > 0 ==> Prio(a, q[k - 1]) <= prio) && (k + 1 < |q| ==> prio <= Prio(a, q[k + 1]))
  {
    assert forall i | 0 <= i < |q| :: q[i] in q && q[i] in a && (i != k ==> b[q[i]] == a[q[i]]);
  }

  // ---------- A run that wakes the worse thread ----------

  function Runs(prio: int): Thread { Thread(prio, true, false, false, false, false, false, None) }

  function Waits(prio: int): Thread { Thread(prio, false, true, false, false, false, false, Some(Obj(0))) }

  /** Thread `t` is created and started, and waits for object 0. */
  lemma ComesToWait(s: Sys, t: Tid, prio: int)
    requires t !in s.threads && s.runq == []
    requires forall u | u in Queue(s, Obj(0)) :: u in s.threads && s.threads[u].prio <= prio
    ensures var a := Step(s, Create(t, prio, false)); var b := Step(a, Start(t));
            && Allowed(s, Create(t, prio, false)) && Allowed(a, Start(t)) && Allowed(b, Pend(t, Some(Obj(0)), false))
            && Step(b, Pend(t, Some(Obj(0)), false)) ==
                 Sys(s.threads[t := Waits(prio)], [], s.waitqs[Obj(0) := Queue(s, Obj(0)) + [t]])
  {
    hide Insert, Remove;
    var a := Step(s, Create(t, prio, false));
    var b := Step(a, Start(t));
    assert b.threads == s.threads[t := Runs(prio)];
    InsertOne(t);
    assert b.runq == [t];
    RemoveOnly(t);
    InsertLast(Unready(b, t).threads, Queue(s, Obj(0)), t);
    assert Step(b, Pend(t, Some(Obj(0)), false)).threads == s.threads[t := Waits(prio)];
  }

  lemma InsertOne(t: Tid)
    ensures forall m: map<Tid, Thread> :: Insert(m, [], t) == [t]
  {
  }

  lemma RemoveOnly(t: Tid)
    ensures Remove([t], t) == []
  {
  }

  lemma {:induction false} InsertLast(threads: map<Tid, Thread>, q: seq<Tid>, t: Tid)
    requires forall u | u in q :: Prio(threads, u) <= Prio(threads, t)
    ensures Insert(threads, q, t) == q + [t]
  {
    hide Prio;
    if q != [] {
      assert q[0] in q && forall u | u in q[1..] :: u in q;
      InsertLast(threads, q[1..], t);
      assert q == [q[0]] + q[1..];
    }
  }

  const WAITING := Sys(map[1 := Waits(5), 2 := Waits(6)], [], map[Obj(0) := [1, 2]])

  function WaitOps(t: Tid, prio: int): seq<Op> { [Create(t, prio, false), Start(t), Pend(t, Some(Obj(0)), false)] }

  lemma RunThree(s: Sys, a: Op, b: Op, c: Op, ops: seq<Op>)
    requires Allowed(s, a) && Allowed(Step(s, a), b) && Allowed(Step(Step(s, a), b), c)
    requires RunAllowed(Step(Step(Step(s, a), b), c), ops)
    ensures RunAllowed(s, [a, b, c] + ops)
    ensures Run(s, [a, b, c] + ops) == Run(Step(Step(Step(s, a), b), c), ops)
  {
    hide Allowed, Step;
    RunCons(Step(Step(s, a), b), c, ops);
    RunCons(Step(s, a), b, [c] + ops);
    RunCons(s, a, [b] + ([c] + ops));
    assert [a, b, c] + ops == [a] + ([b] + ([c] + ops));
  }

  lemma RunCons(s: Sys, op: Op, ops: seq<Op>)
    requires Allowed(s, op) && RunAllowed(Step(s, op), ops)
    ensures RunAllowed(s, [op] + ops) && Run(s, [op] + ops) == Run(Step(s, op), ops)
  {
    hide Allowed, Step;
    assert ([op] + ops)[1..] == ops;
  }

  lemma WaitingIsReached()
    ensures RunAllowed(Boot(), WaitOps(1, 5) + WaitOps(2, 6)) && Run(Boot(), WaitOps(1, 5) + WaitOps(2, 6)) == WAITING
  {
    hide Step, Allowed;
    ComesToWait(Boot(), 1, 5);
    var one := Sys(map[1 := Waits(5)], [], map[Obj(0) := [1]]);
    assert Queue(Boot(), Obj(0)) + [1] == [1];
    assert Sys(Boot().threads[1 := Waits(5)], [], Boot().waitqs[Obj(0) := [1]]) == one;
    ComesToWait(one, 2, 6);
    assert [1] + [2] == [1, 2];
    assert Sys(one.threads[2 := Waits(6)], [], one.waitqs[Obj(0) := [1, 2]]) == WAITING;
    RunThree(one, Create(2, 6, false), Start(2), Pend(2, Some(Obj(0)), false), []);
    assert WaitOps(2, 6) + [] == WaitOps(2, 6);
    RunThree(Boot(), Create(1, 5, false), Start(1), Pend(1, Some(Obj(0)), false), WaitOps(2, 6));
  }

  /** Two threads wait, and the one behind gets the better priority: the other is woken. */
  lemma WorseThreadIsWoken()
    ensures var r := Step(WAITING, PrioSet(2, 1)); var t := Step(r, WakeFirst(Obj(0), false));
            && 1 in t.threads && 2 in t.threads && t.runq == [1] && t.threads[2].prio < t.threads[1].prio
            && Queue(t, Obj(0)) == [2] && Misplaces(WAITING, PrioSet(2, 1))
  {
    hide Insert, Remove;
    var r := Step(WAITING, PrioSet(2, 1));
    assert r.waitqs[Obj(0)] == [1, 2] && r.runq == [];
    InsertOne(1);
    RemoveFirst(1, 2);
    var q := Queue(WAITING, Obj(0));
    assert q[1] == 2 && Prio(WAITING.threads, q[0]) == 5;
  }

  lemma RemoveFirst(a: Tid, b: Tid)
    ensures Remove([a, b], a) == [b]
  {
  }
}
