/**
  The scheduler's operations on one processor as they change thread states, the run queue
  and the wait queues in place, proved to take the steps of `SchedSpec`.
 */
module Scheduler {
  import opened Common
  import opened SchedSpec

  /** Where a thread goes in a queue: before the first thread of strictly worse priority. */
  lemma {:induction false} InsertPlace(threads: map<Tid, Thread>, q: seq<Tid>, t: Tid, k: nat)
    requires k <= |q| && forall i | 0 <= i < k :: Prio(threads, q[i]) <= Prio(threads, t)
    requires k < |q| ==> Prio(threads, t) < Prio(threads, q[k])
    ensures Insert(threads, q, t) == q[..k] + [t] + q[k..]
  {
    if k == 0 {
      assert q[..0] == [] && q[0..] == q;
    } else {
      assert Prio(threads, q[0]) <= Prio(threads, t);
      InsertPlace(threads, q[1..], t, k - 1);
      assert q[..k] == [q[0]] + q[1..][..k - 1];
      assert q[k..] == q[1..][k - 1..];
    }
  }

  datatype JoinCode = Joined | Waiting | EBUSY | EDEADLK

  class Kernel {
    var threads: map<Tid, Thread>
    var runq: seq<Tid>
    var waitqs: map<Wid, seq<Tid>>

    constructor ()
      ensures View() == Boot() && Valid()
    {
      threads, runq, waitqs := map[], [], map[];
      new;
      BootOk();
    }

    ghost function View(): Sys
      reads this
    {
      Sys(threads, runq, waitqs)
    }

    ghost predicate Valid()
      reads this
    {
      Inv(View())
    }

    // ---------- Queues ----------

    method PriqAdd(q: seq<Tid>, t: Tid) returns (r: seq<Tid>)
      requires t in threads && forall u | u in q :: u in threads
      ensures r == Insert(threads, q, t)
    {
      var k := 0;
      while k < |q| && !(threads[t].prio < threads[q[k]].prio)
        invariant 0 <= k <= |q| && forall i | 0 <= i < k :: Prio(threads, q[i]) <= Prio(threads, t)
      {
        assert q[k] in q;
        k := k + 1;
      }
      InsertPlace(threads, q, t, k);
      r := q[..k] + [t] + q[k..];
    }

    method QueueThread(t: Tid)
      requires t in threads && forall u | u in runq :: u in threads
      modifies this`threads, this`runq
      ensures View() == Enqueue(old(View()), t)
    {
      hide Insert;
      var q := PriqAdd(runq, t);
      threads := threads[t := threads[t].(queued := true)];
      runq := q;
    }

    method DequeueThread(t: Tid)
      requires t in threads
      modifies this`threads, this`runq
      ensures View() == Dequeue(old(View()), t)
    {
      threads := threads[t := threads[t].(queued := false)];
      runq := Remove(runq, t);
    }

    method ReadyThread(t: Tid)
      requires t in threads && forall u | u in runq :: u in threads
      modifies this`threads, this`runq
      ensures View() == SchedSpec.ReadyThread(old(View()), t)
    {
      hide Insert;
      if !threads[t].queued && Ready(threads[t]) {
        QueueThread(t);
      }
    }

    method UnreadyThread(t: Tid)
      requires t in threads
      modifies this`threads, this`runq
      ensures View() == Unready(old(View()), t)
    {
      hide Remove;
      if threads[t].queued {
        DequeueThread(t);
      }
    }

    method AddToWaitq(t: Tid, w: Option<Wid>)
      requires t in threads && (w.Some? ==> forall u | u in Queue(View(), w.value) :: u in threads)
      modifies this`threads, this`runq, this`waitqs
      ensures View() == PendOn(Unready(old(View()), t), t, w)
    {
      hide Insert, Remove;
      UnreadyThread(t);
      JoinWaitq(t, w);
    }

    method JoinWaitq(t: Tid, w: Option<Wid>)
      requires t in threads && (w.Some? ==> forall u | u in Queue(View(), w.value) :: u in threads)
      modifies this`threads, this`waitqs
      ensures View() == PendOn(old(View()), t, w)
    {
      hide Insert, Prio;
      ghost var was := threads;
      threads := threads[t := threads[t].(pending := true)];
      if w.Some? {
        var q := if w.value in waitqs then waitqs[w.value] else [];
        threads := threads[t := threads[t].(pendedOn := w)];
        assert threads == was[t := was[t].(pending := true, pendedOn := w)];
        PendingPrio(was, t, w);
        SamePrio(was, threads, q, t);
        var r := PriqAdd(q, t);
        waitqs := waitqs[w.value := r];
      }
    }

    method UnpendNoTimeout(t: Tid)
      requires t in threads && threads[t].pendedOn.Some?
      modifies this`threads, this`waitqs
      ensures View() == Unpend(old(View()), t)
    {
      hide Remove;
      var w := threads[t].pendedOn.value;
      var q := if w in waitqs then waitqs[w] else [];
      waitqs := waitqs[w := Remove(q, t)];
      threads := threads[t := threads[t].(pending := false, pendedOn := None)];
    }

    // ---------- Creation ----------

    /** `z_setup_new_thread`, and the timeout of a delayed start. */
    method CreateThread(t: Tid, prio: int, delay: bool)
      requires Valid() && t !in threads
      modifies this`threads
      ensures Valid() && View() == Step(old(View()), Create(t, prio, delay))
    {
      hide Links;
      StepKeeps(View(), Create(t, prio, delay));
      var th := Thread(prio, false, false, true, false, false, false, None);
      if delay {
        th := th.(timeout := true);
      }
      threads := threads[t := th];
    }

    /** `z_ready_thread` */
    method MakeThreadReady(t: Tid)
      requires Valid() && t in threads
      modifies this
      ensures Valid() && View() == Step(old(View()), MakeReady(t))
    {
      hide Links, Insert;
      StepKeeps(View(), MakeReady(t));
      LinkedRun(View());
      ReadyThread(t);
    }

    // ---------- Waiting and waking ----------

    /** `pend_locked`: the running thread waits, with or without a timeout. */
    method PendLocked(t: Tid, w: Option<Wid>, timeout: bool)
      requires Valid() && t in threads && Ready(threads[t])
      modifies this
      ensures Valid() && View() == Step(old(View()), Pend(t, w, timeout))
    {
      hide Links, Insert, Remove;
      StepKeeps(View(), Pend(t, w, timeout));
      if w.Some? {
        QueueThreads(View(), w.value);
      }
      AddToWaitq(t, w);
      if timeout {
        threads := threads[t := threads[t].(timeout := true)];
      }
    }

    method WakeThreadLocked(t: Tid, isTimeout: bool)
      requires Links(View()) && t in threads && (threads[t].pendedOn.Some? ==> threads[t].pending)
      modifies this
      ensures View() == Wake(old(View()), t, isTimeout)
    {
      hide Links, Insert, Remove, Touches;
      if !threads[t].dead {
        UnpendIfLinks(View(), t);
        TouchKeys(View(), UnpendIf(View(), t), t);
        ghost var r := UnpendIf(View(), t);
        if threads[t].pendedOn.Some? {
          UnpendNoTimeout(t);
        }
        assert View() == r;
        var th := threads[t].(prestart := false);
        if isTimeout {
          th := th.(suspended := false);
        }
        SetTouches(r, t, th);
        threads := threads[t := th];
        LinkedRun(View());
        ReadyThread(t);
      }
    }

    /** The timeout of a thread expires. */
    method ThreadTimeout(t: Tid)
      requires Valid() && t in threads && threads[t].timeout
      modifies this
      ensures Valid() && View() == Step(old(View()), TimeoutFires(t))
    {
      hide Links, Insert, Remove, Wake;
      StepKeeps(View(), TimeoutFires(t));
      assert Settled(threads[t]);
      SetTouches(View(), t, threads[t].(timeout := false));
      threads := threads[t := threads[t].(timeout := false)];
      WakeThreadLocked(t, true);
    }

    /** Releases one waiting thread, as `z_sched_wake` and the unpend calls do. */
    method ReleaseThread(t: Tid, keepTimeout: bool)
      requires Valid() && t in threads
      modifies this
      ensures Valid() && View() == Release(old(View()), t, keepTimeout)
    {
      hide Links, Insert, Remove, Touches;
      ReleaseLinks(View(), t, keepTimeout);
      UnpendIfLinks(View(), t);
      TouchKeys(View(), UnpendIf(View(), t), t);
      ghost var r := UnpendIf(View(), t);
      if threads[t].pendedOn.Some? {
        UnpendNoTimeout(t);
      }
      assert View() == r;
      if !keepTimeout {
        SetTouches(r, t, r.threads[t].(timeout := false));
        threads := threads[t := threads[t].(timeout := false)];
      }
      LinkedRun(View());
      ReadyThread(t);
    }

    method SchedWake(w: Wid, keepTimeout: bool) returns (woken: bool)
      requires Valid()
      modifies this
      ensures Valid() && View() == Step(old(View()), WakeFirst(w, keepTimeout))
              && woken == (old(Queue(View(), w)) != [])
    {
      hide Links, Insert, Remove, Release;
      var q := if w in waitqs then waitqs[w] else [];
      woken := q != [];
      if woken {
        InQueue(View(), q[0], w);
        ReleaseThread(q[0], keepTimeout);
      }
    }

    /** Releases every thread of a wait queue; the loop ends because each turn takes one out. */
    method UnpendAll(w: Wid)
      requires Valid()
      modifies this
      ensures Valid() && View() == ReleaseAll(old(View()), w, |old(Queue(View(), w))|) && Queue(View(), w) == []
    {
      hide Links, Insert, Remove, Release;
      ghost var n := |Queue(View(), w)|;
      ReleaseAllEmpties(View(), w, n);
      while w in waitqs && waitqs[w] != []
        invariant Valid() && n == |Queue(View(), w)|
        invariant ReleaseAll(View(), w, n) == ReleaseAll(old(View()), w, |old(Queue(View(), w))|)
        decreases |Queue(View(), w)|
      {
        var t := waitqs[w][0];
        InQueue(View(), t, w);
        ReleaseQueue(View(), t, w, false);
        n := n - 1;
        ReleaseThread(t, false);
      }
    }

    // ---------- Sleeping, suspending, priorities ----------

    method TickSleep(t: Tid)
      requires Valid() && t in threads && Ready(threads[t])
      modifies this
      ensures Valid() && View() == Step(old(View()), Sleep(t))
    {
      hide Links, Remove;
      StepKeeps(View(), Sleep(t));
      UnreadyThread(t);
      threads := threads[t := threads[t].(timeout := true, suspended := true)];
    }

    method Wakeup(t: Tid)
      requires Valid() && t in threads
      modifies this
      ensures Valid() && View() == Step(old(View()), SchedSpec.Wakeup(t))
    {
      hide Links, Insert;
      StepKeeps(View(), SchedSpec.Wakeup(t));
      LinkedRun(View());
      if threads[t].pending {
        return;
      }
      var th := threads[t];
      if !th.timeout && !(th.suspended && !th.queued && !th.prestart && !th.dead) {
        return;
      }
      threads := threads[t := th.(timeout := false, suspended := false)];
      ReadyThread(t);
    }

    method Suspend(t: Tid)
      requires Valid() && t in threads
      modifies this
      ensures Valid() && View() == Step(old(View()), SchedSpec.Suspend(t))
    {
      hide Links, Remove;
      StepKeeps(View(), SchedSpec.Suspend(t));
      threads := threads[t := threads[t].(timeout := false)];
      if !threads[t].suspended {
        threads := threads[t := threads[t].(suspended := true)];
        UnreadyThread(t);
      }
    }

    method Resume(t: Tid)
      requires Valid() && t in threads
      modifies this
      ensures Valid() && View() == Step(old(View()), SchedSpec.Resume(t))
    {
      hide Links, Insert;
      StepKeeps(View(), SchedSpec.Resume(t));
      LinkedRun(View());
      if threads[t].suspended {
        threads := threads[t := threads[t].(suspended := false)];
        ReadyThread(t);
      }
    }

    method Start(t: Tid)
      requires Valid() && t in threads
      modifies this
      ensures Valid() && View() == Step(old(View()), SchedSpec.Start(t))
    {
      hide Links, Insert;
      StepKeeps(View(), SchedSpec.Start(t));
      LinkedRun(View());
      if threads[t].prestart {
        threads := threads[t := threads[t].(prestart := false)];
        ReadyThread(t);
      }
    }

    method ThreadPrioSet(t: Tid, prio: int) returns (needSched: bool)
      requires Valid() && t in threads
      modifies this
      ensures Valid() && View() == Step(old(View()), PrioSet(t, prio)) && needSched == old(Ready(threads[t]))
    {
      hide Links, Insert, Remove;
      StepKeeps(View(), PrioSet(t, prio));
      DequeueLinks(View(), t);
      needSched := Ready(threads[t]);
      if needSched {
        DequeueThread(t);
        LinkedRun(View());
        threads := threads[t := threads[t].(prio := prio)];
        QueueThread(t);
      } else {
        threads := threads[t := threads[t].(prio := prio)];
      }
    }

    method YieldCurrent(t: Tid)
      requires Valid() && t in threads && Ready(threads[t])
      modifies this
      ensures Valid() && View() == Step(old(View()), Yield(t))
    {
      hide Links, Insert, Remove;
      StepKeeps(View(), Yield(t));
      DequeueLinks(View(), t);
      DequeueThread(t);
      LinkedRun(View());
      QueueThread(t);
    }

    // ---------- The end of a thread ----------

    method ThreadAbort(t: Tid)
      requires Valid() && t in threads
      modifies this
      ensures Valid() && View() == Step(old(View()), Abort(t)) && t in threads && threads[t].dead
      ensures old(!threads[t].dead) ==> Queue(View(), Joiners(t)) == []
    {
      hide Links, Insert, Remove, Touches;
      ghost var was := View();
      KillLinks(was, t);
      if !threads[t].dead {
        DoomedOk(was, t);
        Doom(t);
        UnpendAll(Joiners(t));
      }
    }

    method Doom(t: Tid)
      requires Valid() && t in threads
      modifies this
      ensures View() == Doomed(old(View()), t)
    {
      hide Links, Remove, Touches;
      threads := threads[t := threads[t].(dead := true)];
      UnreadyThread(t);
      if threads[t].pendedOn.Some? {
        UnpendNoTimeout(t);
      }
      threads := threads[t := threads[t].(timeout := false)];
    }

    method ThreadJoin(t: Tid, target: Tid, wait: bool, timeout: bool) returns (code: JoinCode)
      requires Valid() && Allowed(View(), Join(t, target, wait, timeout))
      modifies this
      ensures Valid() && View() == Step(old(View()), Join(t, target, wait, timeout))
      ensures code ==
        if old(threads)[target].dead then Joined
        else if !wait then EBUSY
        else if target == t || old(threads)[target].pendedOn == Some(Joiners(t)) then EDEADLK
        else Waiting
    {
      hide Links, Insert, Remove, Block;
      StepKeeps(View(), Join(t, target, wait, timeout));
      if threads[target].dead {
        code := Joined;
      } else if !wait {
        code := EBUSY;
      } else if target == t || threads[target].pendedOn == Some(Joiners(t)) {
        code := EDEADLK;
      } else {
        PendLocked(t, Some(Joiners(target)), timeout);
        code := Waiting;
      }
    }

    // ---------- Runs ----------

    method Perform(op: Op)
      requires Valid() && Allowed(View(), op)
      modifies this
      ensures Valid() && View() == Step(old(View()), op)
    {
      hide Links, Insert, Remove, Release, Wake, Block, Kill;
      match op
      case Create(t, prio, delay) => CreateThread(t, prio, delay);
      case Start(t) => Start(t);
      case MakeReady(t) => MakeThreadReady(t);
      case Pend(t, w, timeout) => PendLocked(t, w, timeout);
      case Sleep(t) => TickSleep(t);
      case Yield(t) => YieldCurrent(t);
      case TimeoutFires(t) => ThreadTimeout(t);
      case WakeFirst(w, keepTimeout) => var _ := SchedWake(w, keepTimeout);
      case WakeThread(t) => ReleaseThread(t, false);
      case Wakeup(t) => Wakeup(t);
      case Suspend(t) => Suspend(t);
      case Resume(t) => Resume(t);
      case PrioSet(t, prio) => var _ := ThreadPrioSet(t, prio);
      case Abort(t) => ThreadAbort(t);
      case Join(t, target, wait, timeout) => var _ := ThreadJoin(t, target, wait, timeout);
    }

    /** After any run each thread is in exactly the queues its state says. */
    method RunAll(ops: seq<Op>)
      requires Valid() && RunAllowed(View(), ops)
      modifies this
      ensures Valid() && View() == Run(old(View()), ops)
      ensures forall t | t in threads :: MemberOk(View(), t)
      decreases |ops|
    {
      hide Links, AllSettled, Step, Allowed, MemberOk;
      RunsKeepMembership(View(), ops);
      if ops != [] {
        Perform(ops[0]);
        RunAll(ops[1..]);
      }
    }
  }

  lemma LinkedRun(s: Sys)
    requires Links(s)
    ensures forall u | u in s.runq :: u in s.threads
  {
  }

  lemma QueueThreads(s: Sys, w: Wid)
    requires Links(s)
    ensures forall u | u in Queue(s, w) :: u in s.threads
  {
    assert WaitOk(s, w);
  }

  lemma PendingPrio(threads: map<Tid, Thread>, t: Tid, w: Option<Wid>)
    requires t in threads
    ensures forall u :: Prio(threads, u) == Prio(threads[t := threads[t].(pending := true, pendedOn := w)], u)
  {
  }

  lemma {:induction false} SamePrio(a: map<Tid, Thread>, b: map<Tid, Thread>, q: seq<Tid>, t: Tid)
    requires forall u :: Prio(a, u) == Prio(b, u)
    ensures Insert(a, q, t) == Insert(b, q, t)
  {
    if q != [] { SamePrio(a, b, q[1..], t); }
  }
}
