/**
  Scheduling on one processor: thread states, the run queue and the wait queues. A thread
  is ready when nothing prevents it from running and its timeout is not active.
 */
module SchedSpec {
  import opened Common

  type Tid = nat

  /** A wait queue belongs to a kernel object or to a thread that others join. */
  datatype Wid = Obj(id: nat) | Joiners(t: Tid)

  datatype Thread = Thread(
    prio: int, queued: bool, pending: bool, prestart: bool, dead: bool, suspended: bool, timeout: bool,
    pendedOn: Option<Wid>)

  datatype Sys = Sys(threads: map<Tid, Thread>, runq: seq<Tid>, waitqs: map<Wid, seq<Tid>>)

  datatype Op =
    | Create(t: Tid, prio: int, delay: bool)
    | Start(t: Tid)
    | MakeReady(t: Tid)
    | Pend(t: Tid, on: Option<Wid>, timeout: bool)
    | Sleep(t: Tid)
    | Yield(t: Tid)
    | TimeoutFires(t: Tid)
    | WakeFirst(w: Wid, keepTimeout: bool)
    | WakeThread(t: Tid)
    | Wakeup(t: Tid)
    | Suspend(t: Tid)
    | Resume(t: Tid)
    | PrioSet(t: Tid, prio: int)
    | Abort(t: Tid)
    | Join(t: Tid, target: Tid, wait: bool, timeout: bool)

  // ---------- Threads and queues ----------

  predicate Ready(th: Thread) { !th.pending && !th.prestart && !th.dead && !th.suspended && !th.timeout }

  /** A thread is in the run queue exactly when it is ready, and a dead one waits for nothing. */
  predicate Settled(th: Thread) {
    && (th.queued <==> Ready(th))
    && (th.pendedOn.Some? ==> th.pending)
    && (th.dead ==> th.pendedOn.None? && !th.timeout)
  }

  function Queue(s: Sys, w: Wid): seq<Tid> { if w in s.waitqs then s.waitqs[w] else [] }

  function Prio(threads: map<Tid, Thread>, t: Tid): int { if t in threads then threads[t].prio else 0 }

  /** A thread goes behind every thread of the same or a better priority. */
  function Insert(threads: map<Tid, Thread>, q: seq<Tid>, t: Tid): seq<Tid> {
    if q == [] then [t]
    else if Prio(threads, t) < Prio(threads, q[0]) then [t] + q
    else [q[0]] + Insert(threads, q[1..], t)
  }

  ghost predicate Sorted(threads: map<Tid, Thread>, q: seq<Tid>) {
    && (forall u | u in q :: u in threads)
    && forall i, j | 0 <= i < j < |q| :: threads[q[i]].prio <= threads[q[j]].prio
  }

  ghost predicate RunOk(s: Sys) {
    Sorted(s.threads, s.runq) && NoDup(s.runq) && forall u | u in s.runq :: s.threads[u].queued
  }

  ghost predicate WaitOk(s: Sys, w: Wid) {
    && NoDup(Queue(s, w))
    && forall u | u in Queue(s, w) :: u in s.threads && s.threads[u].pendedOn == Some(w)
  }

  ghost predicate LinkOk(s: Sys, t: Tid)
    requires t in s.threads
  {
    && (s.threads[t].queued ==> t in s.runq)
    && (s.threads[t].pendedOn.Some? ==> t in Queue(s, s.threads[t].pendedOn.value))
  }

  /** Flags and queues agree: QUEUED means being in the run queue once, a wait queue in
      `pendedOn` means being in that wait queue once and in no other. */
  ghost predicate Links(s: Sys) {
    RunOk(s) && (forall w :: WaitOk(s, w)) && (forall t | t in s.threads :: LinkOk(s, t))
  }

  ghost predicate AllSettled(s: Sys) { forall t | t in s.threads :: Settled(s.threads[t]) }

  ghost predicate Inv(s: Sys) { Links(s) && AllSettled(s) }

  // ---------- Moves of one thread ----------

  function Enqueue(s: Sys, t: Tid): Sys
    requires t in s.threads
  {
    s.(threads := s.threads[t := s.threads[t].(queued := true)], runq := Insert(s.threads, s.runq, t))
  }

  function Dequeue(s: Sys, t: Tid): Sys
    requires t in s.threads
  {
    s.(threads := s.threads[t := s.threads[t].(queued := false)], runq := Remove(s.runq, t))
  }

  function PendOn(s: Sys, t: Tid, w: Option<Wid>): Sys
    requires t in s.threads
  {
    if w.None? then s.(threads := s.threads[t := s.threads[t].(pending := true)])
    else s.(threads := s.threads[t := s.threads[t].(pending := true, pendedOn := w)],
            waitqs := s.waitqs[w.value := Insert(s.threads, Queue(s, w.value), t)])
  }

  function Unpend(s: Sys, t: Tid): Sys
    requires t in s.threads && s.threads[t].pendedOn.Some?
  {
    var w := s.threads[t].pendedOn.value;
    s.(threads := s.threads[t := s.threads[t].(pending := false, pendedOn := None)],
       waitqs := s.waitqs[w := Remove(Queue(s, w), t)])
  }

  function UnpendIf(s: Sys, t: Tid): Sys
    requires t in s.threads
  {
    if s.threads[t].pendedOn.Some? then Unpend(s, t) else s
  }

  /** A change of a thread that leaves its queues alone. */
  predicate SameLinks(a: Thread, b: Thread) {
    a.queued == b.queued && a.pendedOn == b.pendedOn && (a.queued ==> a.prio == b.prio)
  }

  function Set(s: Sys, t: Tid, th: Thread): Sys { s.(threads := s.threads[t := th]) }

  function ReadyThread(s: Sys, t: Tid): Sys
    requires t in s.threads
  {
    if !s.threads[t].queued && Ready(s.threads[t]) then Enqueue(s, t) else s
  }

  function Unready(s: Sys, t: Tid): Sys
    requires t in s.threads
  {
    if s.threads[t].queued then Dequeue(s, t) else s
  }

  // ---------- Queues ----------

  lemma {:induction false} InsertIs(threads: map<Tid, Thread>, q: seq<Tid>, t: Tid)
    requires NoDup(q) && t !in q
    ensures var r := Insert(threads, q, t); NoDup(r) && forall u :: u in r <==> u == t || u in q
  {
    if q != [] && Prio(threads, t) >= Prio(threads, q[0]) {
      assert q == [q[0]] + q[1..];
      InsertIs(threads, q[1..], t);
      assert q[0] !in Insert(threads, q[1..], t);
    } else {
      assert forall u :: u in [t] + q <==> u == t || u in q;
    }
  }

  lemma SortedCons(threads: map<Tid, Thread>, t: Tid, q: seq<Tid>)
    requires Sorted(threads, q) && t in threads && forall u | u in q :: threads[t].prio <= threads[u].prio
    ensures Sorted(threads, [t] + q)
  {
    var r := [t] + q;
    assert forall i | 1 <= i < |r| :: r[i] == q[i - 1] && r[i] in q;
  }

  lemma SortedTail(threads: map<Tid, Thread>, q: seq<Tid>)
    requires Sorted(threads, q) && q != []
    ensures q == [q[0]] + q[1..] && q[0] in threads && Sorted(threads, q[1..])
    ensures forall u | u in q[1..] :: u in threads && threads[q[0]].prio <= threads[u].prio
  {
    assert q[0] in q;
  }

  lemma {:induction false} InsertSorted(threads: map<Tid, Thread>, q: seq<Tid>, t: Tid)
    requires t in threads && Sorted(threads, q)
    ensures Sorted(threads, Insert(threads, q, t)) && forall u | u in Insert(threads, q, t) :: u == t || u in q
  {
    hide Sorted;
    if q == [] {
      SortedCons(threads, t, q);
      assert [t] + q == [t];
    } else {
      SortedTail(threads, q);
      if Prio(threads, t) < Prio(threads, q[0]) {
        SortedCons(threads, t, q);
      } else {
        InsertSorted(threads, q[1..], t);
        SortedCons(threads, q[0], Insert(threads, q[1..], t));
      }
    }
  }

  lemma {:induction false} RemoveSorted(threads: map<Tid, Thread>, q: seq<Tid>, t: Tid)
    requires Sorted(threads, q)
    ensures Sorted(threads, Remove(q, t)) && forall u | u in Remove(q, t) :: u in q
  {
    hide Sorted;
    if q != [] {
      SortedTail(threads, q);
      if q[0] != t {
        RemoveSorted(threads, q[1..], t);
        SortedCons(threads, q[0], Remove(q[1..], t));
      }
    }
  }

  lemma SortedAlike(a: map<Tid, Thread>, b: map<Tid, Thread>, q: seq<Tid>)
    requires Sorted(a, q) && forall u | u in q :: u in b && a[u].prio == b[u].prio
    ensures Sorted(b, q)
  {
  }

  // ---------- Each move keeps flags and queues in agreement ----------

  lemma EnqueueLinks(s: Sys, t: Tid)
    requires Links(s) && t in s.threads && !s.threads[t].queued
    ensures Links(Enqueue(s, t))
  {
    hide Insert, NoDup, Sorted;
    var r := Enqueue(s, t);
    RunMembers(s);
    assert t !in s.runq;
    InsertIs(s.threads, s.runq, t);
    InsertSorted(s.threads, s.runq, t);
    SortedAlike(s.threads, r.threads, r.runq);
    forall w ensures WaitOk(r, w) { assert WaitOk(s, w); }
    forall u | u in r.threads ensures LinkOk(r, u) { assert LinkOk(s, u); }
  }

  lemma RunMembers(s: Sys)
    requires RunOk(s)
    ensures forall u | u in s.runq :: u in s.threads && s.threads[u].queued
  {
  }

  lemma DequeueLinks(s: Sys, t: Tid)
    requires Links(s) && t in s.threads
    ensures Links(Dequeue(s, t)) && t !in Dequeue(s, t).runq
  {
    hide Remove, NoDup, Sorted;
    var r := Dequeue(s, t);
    RunMembers(s);
    RemoveIs(s.runq, t);
    RemoveSorted(s.threads, s.runq, t);
    SortedAlike(s.threads, r.threads, r.runq);
    forall w ensures WaitOk(r, w) { assert WaitOk(s, w); }
    forall u | u in r.threads ensures LinkOk(r, u) { assert LinkOk(s, u); }
  }

  lemma PendOnLinks(s: Sys, t: Tid, w: Option<Wid>)
    requires Links(s) && t in s.threads && !s.threads[t].queued && s.threads[t].pendedOn.None?
    ensures Links(PendOn(s, t, w))
  {
    hide Insert, NoDup, Sorted;
    if w.Some? {
      assert WaitOk(s, w.value);
      assert t !in Queue(s, w.value);
      InsertIs(s.threads, Queue(s, w.value), t);
    }
    var r := PendOn(s, t, w);
    RunMembers(s);
    SortedAlike(s.threads, r.threads, r.runq);
    forall v ensures WaitOk(r, v) { assert WaitOk(s, v); }
    forall u | u in r.threads ensures LinkOk(r, u) { assert LinkOk(s, u); }
  }

  lemma UnpendLinks(s: Sys, t: Tid)
    requires Links(s) && t in s.threads && s.threads[t].pendedOn.Some?
    ensures Links(Unpend(s, t))
  {
    hide Remove, NoDup, Sorted;
    var w := s.threads[t].pendedOn.value;
    assert WaitOk(s, w);
    RemoveIs(Queue(s, w), t);
    var r := Unpend(s, t);
    RunMembers(s);
    SortedAlike(s.threads, r.threads, r.runq);
    forall v ensures WaitOk(r, v) { assert WaitOk(s, v); }
    forall u | u in r.threads ensures LinkOk(r, u) { assert LinkOk(s, u); }
  }

  lemma SetLinks(s: Sys, t: Tid, th: Thread)
    requires Links(s) && t in s.threads && SameLinks(s.threads[t], th)
    ensures Links(Set(s, t, th))
  {
    hide NoDup, Sorted;
    var r := Set(s, t, th);
    RunMembers(s);
    SortedAlike(s.threads, r.threads, r.runq);
    forall v ensures WaitOk(r, v) { assert WaitOk(s, v); }
    forall u | u in r.threads ensures LinkOk(r, u) { assert LinkOk(s, u); }
  }

  // ---------- Operations ----------

  function Wake(s: Sys, t: Tid, isTimeout: bool): Sys
    requires t in s.threads
  {
    if s.threads[t].dead then s
    else
      var r := UnpendIf(s, t);
      var th := r.threads[t].(prestart := false);
      ReadyThread(Set(r, t, if isTimeout then th.(suspended := false) else th), t)
  }

  /** A waiting thread is released and made ready. */
  function Release(s: Sys, t: Tid, keepTimeout: bool): Sys
    requires t in s.threads
  {
    var r := UnpendIf(s, t);
    ReadyThread(if keepTimeout then r else Set(r, t, r.threads[t].(timeout := false)), t)
  }

  function ReleaseAll(s: Sys, w: Wid, n: nat): Sys
    decreases n
  {
    var q := Queue(s, w);
    if n == 0 || q == [] || q[0] !in s.threads then s else ReleaseAll(Release(s, q[0], false), w, n - 1)
  }

  /** A thread is dead and out of every queue; those who joined it still wait. */
  function Doomed(s: Sys, t: Tid): Sys
    requires t in s.threads
  {
    var u := UnpendIf(Unready(Set(s, t, s.threads[t].(dead := true)), t), t);
    Set(u, t, u.threads[t].(timeout := false))
  }

  function Kill(s: Sys, t: Tid): Sys
    requires t in s.threads
  {
    if s.threads[t].dead then s else ReleaseAll(Doomed(s, t), Joiners(t), |Queue(Doomed(s, t), Joiners(t))|)
  }

  function Block(s: Sys, t: Tid, w: Option<Wid>, timeout: bool): Sys
    requires t in s.threads
  {
    var r := PendOn(Unready(s, t), t, w);
    if timeout then Set(r, t, r.threads[t].(timeout := true)) else r
  }

  /** Operations on the running thread concern a ready thread. */
  predicate Allowed(s: Sys, op: Op) {
    match op
    case Create(t, _, _) => t !in s.threads
    case Pend(t, _, _) => t in s.threads && Ready(s.threads[t])
    case Sleep(t) => t in s.threads && Ready(s.threads[t])
    case Yield(t) => t in s.threads && Ready(s.threads[t])
    case Join(t, target, _, _) => t in s.threads && Ready(s.threads[t]) && target in s.threads
    case TimeoutFires(t) => t in s.threads && s.threads[t].timeout
    case WakeFirst(_, _) => true
    case _ => op.t in s.threads
  }

  function Step(s: Sys, op: Op): Sys
    requires Allowed(s, op)
  {
    match op
    case Create(t, prio, delay) => Set(s, t, Thread(prio, false, false, true, false, false, delay, None))
    case Start(t) =>
      if !s.threads[t].prestart then s else ReadyThread(Set(s, t, s.threads[t].(prestart := false)), t)
    case MakeReady(t) => ReadyThread(s, t)
    case Pend(t, on, timeout) => Block(s, t, on, timeout)
    case Sleep(t) =>
      var r := Unready(s, t);
      Set(r, t, r.threads[t].(timeout := true, suspended := true))
    case Yield(t) => Enqueue(Dequeue(s, t), t)
    case TimeoutFires(t) => Wake(Set(s, t, s.threads[t].(timeout := false)), t, true)
    case WakeFirst(w, keepTimeout) =>
      if Queue(s, w) == [] || Queue(s, w)[0] !in s.threads then s else Release(s, Queue(s, w)[0], keepTimeout)
    case WakeThread(t) => Release(s, t, false)
    case Wakeup(t) =>
      var th := s.threads[t];
      if th.pending then s
      else if !th.timeout && !(th.suspended && !th.queued && !th.prestart && !th.dead) then s
      else ReadyThread(Set(s, t, th.(timeout := false, suspended := false)), t)
    case Suspend(t) =>
      var r := Set(s, t, s.threads[t].(timeout := false));
      if s.threads[t].suspended then r else Unready(Set(r, t, r.threads[t].(suspended := true)), t)
    case Resume(t) =>
      if !s.threads[t].suspended then s else ReadyThread(Set(s, t, s.threads[t].(suspended := false)), t)
    case PrioSet(t, prio) =>
      if Ready(s.threads[t]) then
        var r := Dequeue(s, t);
        Enqueue(Set(r, t, r.threads[t].(prio := prio)), t)
      else Set(s, t, s.threads[t].(prio := prio))
    case Abort(t) => Kill(s, t)
    case Join(t, target, wait, timeout) =>
      if s.threads[target].dead || !wait || target == t || s.threads[target].pendedOn == Some(Joiners(t)) then s
      else Block(s, t, Some(Joiners(target)), timeout)
  }

  // ---------- Every operation keeps the invariant ----------

  /** All threads but one are settled. */
  ghost predicate SettledBut(s: Sys, t: Tid) { forall u | u in s.threads && u != t :: Settled(s.threads[u]) }

  /** A move touches one thread only. */
  ghost predicate Touches(s: Sys, r: Sys, t: Tid) {
    t in s.threads && r.threads.Keys == s.threads.Keys
    && forall u | u in s.threads && u != t :: r.threads[u] == s.threads[u]
  }

  lemma Finish(s: Sys, r: Sys, t: Tid)
    requires AllSettled(s) && Touches(s, r, t) && Links(r) && Settled(r.threads[t])
    ensures Inv(r)
  {
    hide Links;
    forall u | u in r.threads ensures Settled(r.threads[u]) { assert u != t ==> r.threads[u] == s.threads[u]; }
  }

  lemma ReadyLinks(s: Sys, t: Tid)
    requires Links(s) && t in s.threads
    ensures var r := ReadyThread(s, t);
            Links(r) && Touches(s, r, t)
            && r.threads[t] == s.threads[t].(queued := s.threads[t].queued || Ready(s.threads[t]))
  {
    hide Links, Insert;
    if !s.threads[t].queued && Ready(s.threads[t]) { EnqueueLinks(s, t); }
  }

  lemma UnreadyLinks(s: Sys, t: Tid)
    requires Links(s) && t in s.threads
    ensures var r := Unready(s, t); Links(r) && Touches(s, r, t) && r.threads[t] == s.threads[t].(queued := false)
  {
    hide Links, Remove;
    if s.threads[t].queued { DequeueLinks(s, t); }
  }

  lemma UnpendIfLinks(s: Sys, t: Tid)
    requires Links(s) && t in s.threads && (s.threads[t].pendedOn.Some? ==> s.threads[t].pending)
    ensures var r := UnpendIf(s, t);
            && Links(r) && Touches(s, r, t) && r.runq == s.runq
            && r.threads[t] ==
               s.threads[t].(pending := s.threads[t].pending && s.threads[t].pendedOn.None?, pendedOn := None)
  {
    hide Links, Remove;
    if s.threads[t].pendedOn.Some? { UnpendLinks(s, t); }
  }

  lemma SetTouches(s: Sys, t: Tid, th: Thread)
    requires Links(s) && t in s.threads && SameLinks(s.threads[t], th)
    ensures Links(Set(s, t, th)) && Touches(s, Set(s, t, th), t) && Set(s, t, th).threads[t] == th
  {
    hide Links;
    SetLinks(s, t, th);
  }

  lemma TouchesTwice(a: Sys, b: Sys, c: Sys, t: Tid)
    requires Touches(a, b, t) && Touches(b, c, t)
    ensures Touches(a, c, t)
  {
  }

  lemma ReleaseLinks(s: Sys, t: Tid, keepTimeout: bool)
    requires Inv(s) && t in s.threads
    ensures Inv(Release(s, t, keepTimeout)) && Touches(s, Release(s, t, keepTimeout), t)
  {
    hide Links, Touches;
    UnpendIfLinks(s, t);
    var r := UnpendIf(s, t);
    assert t in r.threads by { TouchKeys(s, r, t); }
    var q := if keepTimeout then r else Set(r, t, r.threads[t].(timeout := false));
    if !keepTimeout {
      SetTouches(r, t, r.threads[t].(timeout := false));
      TouchesTwice(s, r, q, t);
    }
    ReadyLinks(q, t);
    TouchesTwice(s, q, ReadyThread(q, t), t);
    Finish(s, ReadyThread(q, t), t);
  }

  lemma TouchKeys(s: Sys, r: Sys, t: Tid)
    requires Touches(s, r, t)
    ensures t in s.threads && t in r.threads && r.threads.Keys == s.threads.Keys
  {
  }

  lemma WakeLinks(s: Sys, t: Tid, isTimeout: bool)
    requires Links(s) && SettledBut(s, t) && t in s.threads
    requires s.threads[t].pendedOn.Some? ==> s.threads[t].pending
    requires s.threads[t].queued ==> Ready(s.threads[t])
    requires s.threads[t].dead ==> Settled(s.threads[t])
    ensures Inv(Wake(s, t, isTimeout)) && Touches(s, Wake(s, t, isTimeout), t)
  {
    hide Links, Touches;
    if s.threads[t].dead {
      SettleLast(s, t);
    } else {
      UnpendIfLinks(s, t);
      var r := UnpendIf(s, t);
      TouchKeys(s, r, t);
      var th := if isTimeout then r.threads[t].(prestart := false, suspended := false)
                else r.threads[t].(prestart := false);
      SetTouches(r, t, th);
      TouchesTwice(s, r, Set(r, t, th), t);
      ReadyLinks(Set(r, t, th), t);
      TouchesTwice(s, Set(r, t, th), Wake(s, t, isTimeout), t);
      FinishBut(s, Wake(s, t, isTimeout), t);
    }
  }

  lemma SettleLast(s: Sys, t: Tid)
    requires Links(s) && SettledBut(s, t) && t in s.threads && Settled(s.threads[t])
    ensures Inv(s) && Touches(s, s, t)
  {
    hide Links;
    forall u | u in s.threads ensures Settled(s.threads[u]) { assert u != t ==> Settled(s.threads[u]); }
  }

  lemma FinishBut(s: Sys, r: Sys, t: Tid)
    requires SettledBut(s, t) && Touches(s, r, t) && Links(r) && Settled(r.threads[t])
    ensures Inv(r)
  {
    hide Links;
    forall u | u in r.threads ensures Settled(r.threads[u]) { assert u != t ==> r.threads[u] == s.threads[u]; }
  }

  lemma BlockLinks(s: Sys, t: Tid, w: Option<Wid>, timeout: bool)
    requires Inv(s) && t in s.threads && Ready(s.threads[t])
    ensures Inv(Block(s, t, w, timeout)) && Touches(s, Block(s, t, w, timeout), t)
  {
    hide Links, Touches;
    assert Settled(s.threads[t]);
    UnreadyLinks(s, t);
    var r := Unready(s, t);
    TouchKeys(s, r, t);
    PendOnLinks(r, t, w);
    var q := PendOn(r, t, w);
    PendTouches(r, t, w);
    TouchesTwice(s, r, q, t);
    TouchKeys(s, q, t);
    if timeout {
      SetTouches(q, t, q.threads[t].(timeout := true));
      TouchesTwice(s, q, Set(q, t, q.threads[t].(timeout := true)), t);
    }
    Finish(s, Block(s, t, w, timeout), t);
  }

  lemma PendTouches(s: Sys, t: Tid, w: Option<Wid>)
    requires t in s.threads
    ensures Touches(s, PendOn(s, t, w), t)
    ensures PendOn(s, t, w).threads[t] ==
            s.threads[t].(pending := true, pendedOn := if w.Some? then w else s.threads[t].pendedOn)
  {
    hide Insert;
  }

  lemma {:induction false} ReleaseAllLinks(s: Sys, w: Wid, n: nat, t: Tid)
    requires Inv(s) && t in s.threads && s.threads[t].dead
    ensures Inv(ReleaseAll(s, w, n)) && ReleaseAll(s, w, n).threads.Keys == s.threads.Keys
    ensures ReleaseAll(s, w, n).threads[t] == s.threads[t]
    decreases n
  {
    hide Release, Links;
    var q := Queue(s, w);
    if n != 0 && q != [] && q[0] in s.threads {
      ReleaseLinks(s, q[0], false);
      HeadAlive(s, w, t);
      assert Release(s, q[0], false).threads[t] == s.threads[t];
      ReleaseAllLinks(Release(s, q[0], false), w, n - 1, t);
    }
  }

  lemma HeadAlive(s: Sys, w: Wid, t: Tid)
    requires Inv(s) && t in s.threads && s.threads[t].dead
    ensures t !in Queue(s, w)
  {
    assert WaitOk(s, w) && Settled(s.threads[t]);
  }

  lemma DoomedOk(s: Sys, t: Tid)
    requires Inv(s) && t in s.threads
    ensures Inv(Doomed(s, t)) && Touches(s, Doomed(s, t), t) && Doomed(s, t).threads[t].dead
  {
    hide Links, Touches;
    assert Settled(s.threads[t]);
    var d := Set(s, t, s.threads[t].(dead := true));
    SetTouches(s, t, s.threads[t].(dead := true));
    UnreadyLinks(d, t);
    var r := Unready(d, t);
    TouchesTwice(s, d, r, t);
    TouchKeys(s, r, t);
    UnpendIfLinks(r, t);
    var u := UnpendIf(r, t);
    TouchesTwice(s, r, u, t);
    TouchKeys(s, u, t);
    SetTouches(u, t, u.threads[t].(timeout := false));
    TouchesTwice(s, u, Doomed(s, t), t);
    TouchKeys(s, Doomed(s, t), t);
    Finish(s, Doomed(s, t), t);
  }

  lemma KillLinks(s: Sys, t: Tid)
    requires Inv(s) && t in s.threads
    ensures Inv(Kill(s, t)) && Kill(s, t).threads.Keys == s.threads.Keys && Kill(s, t).threads[t].dead
  {
    hide Links, Doomed;
    if !s.threads[t].dead {
      DoomedOk(s, t);
      ReleaseAllLinks(Doomed(s, t), Joiners(t), |Queue(Doomed(s, t), Joiners(t))|, t);
    }
  }

  lemma StepKeeps(s: Sys, op: Op)
    requires Inv(s) && Allowed(s, op)
    ensures Inv(Step(s, op))
  {
    hide Links;
    match op
    case Create(t, prio, delay) => CreateKeeps(s, t, Thread(prio, false, false, true, false, false, delay, None));
    case Start(t) => if s.threads[t].prestart { SetReady(s, t, s.threads[t].(prestart := false)); }
    case MakeReady(t) => SetReady(s, t, s.threads[t]);
    case Pend(t, on, timeout) => BlockLinks(s, t, on, timeout);
    case Sleep(t) => SleepKeeps(s, t);
    case Yield(t) => RequeueKeeps(s, t, s.threads[t].prio);
    case TimeoutFires(t) =>
      assert Settled(s.threads[t]);
      SetTouches(s, t, s.threads[t].(timeout := false));
      WakeLinks(Set(s, t, s.threads[t].(timeout := false)), t, true);
    case WakeFirst(w, keepTimeout) =>
      if Queue(s, w) != [] && Queue(s, w)[0] in s.threads { ReleaseLinks(s, Queue(s, w)[0], keepTimeout); }
    case WakeThread(t) => ReleaseLinks(s, t, false);
    case Wakeup(t) => WakeupKeeps(s, t);
    case Suspend(t) => SuspendKeeps(s, t);
    case Resume(t) => if s.threads[t].suspended { SetReady(s, t, s.threads[t].(suspended := false)); }
    case PrioSet(t, prio) => PrioSetKeeps(s, t, prio);
    case Abort(t) => KillLinks(s, t);
    case Join(t, target, wait, timeout) =>
      if !(s.threads[target].dead || !wait || target == t || s.threads[target].pendedOn == Some(Joiners(t))) {
        BlockLinks(s, t, Some(Joiners(target)), timeout);
      }
  }

  lemma CreateKeeps(s: Sys, t: Tid, th: Thread)
    requires Inv(s) && t !in s.threads && !th.queued && th.pendedOn.None? && th.prestart && !th.dead
    ensures Inv(Set(s, t, th))
  {
    hide NoDup, Sorted;
    var r := Set(s, t, th);
    RunMembers(s);
    SortedAlike(s.threads, r.threads, r.runq);
    forall v ensures WaitOk(r, v) { assert WaitOk(s, v); }
    forall u | u in r.threads ensures LinkOk(r, u) && Settled(r.threads[u]) {
      assert u != t ==> LinkOk(s, u) && Settled(s.threads[u]);
    }
  }

  /** Changing the flags of a thread that does not run and then making it ready. */
  lemma SetReady(s: Sys, t: Tid, th: Thread)
    requires Inv(s) && t in s.threads && SameLinks(s.threads[t], th) && (th.queued ==> Ready(th))
    requires (th.pendedOn.Some? ==> th.pending) && (th.dead ==> th.pendedOn.None? && !th.timeout)
    ensures Inv(ReadyThread(Set(s, t, th), t))
  {
    hide Links, Touches;
    SetTouches(s, t, th);
    ReadyLinks(Set(s, t, th), t);
    TouchesTwice(s, Set(s, t, th), ReadyThread(Set(s, t, th), t), t);
    Finish(s, ReadyThread(Set(s, t, th), t), t);
    assert Set(s, t, s.threads[t]) == s;
  }

  lemma SleepKeeps(s: Sys, t: Tid)
    requires Inv(s) && t in s.threads && Ready(s.threads[t])
    ensures Inv(Step(s, Sleep(t)))
  {
    hide Links, Touches;
    assert Settled(s.threads[t]);
    UnreadyLinks(s, t);
    var r := Unready(s, t);
    TouchKeys(s, r, t);
    SetTouches(r, t, r.threads[t].(timeout := true, suspended := true));
    TouchesTwice(s, r, Step(s, Sleep(t)), t);
    Finish(s, Step(s, Sleep(t)), t);
  }

  lemma RequeueKeeps(s: Sys, t: Tid, prio: int)
    requires Inv(s) && t in s.threads && Ready(s.threads[t])
    ensures var r := Dequeue(s, t); t in r.threads && Inv(Enqueue(Set(r, t, r.threads[t].(prio := prio)), t))
    ensures prio == s.threads[t].prio ==>
            Step(s, Yield(t)) == Enqueue(Set(Dequeue(s, t), t, Dequeue(s, t).threads[t].(prio := prio)), t)
  {
    hide Links, Insert, Remove;
    assert Settled(s.threads[t]);
    DequeueLinks(s, t);
    var r := Dequeue(s, t);
    var th := r.threads[t].(prio := prio);
    SetTouches(r, t, th);
    EnqueueLinks(Set(r, t, th), t);
    Finish(s, Enqueue(Set(r, t, th), t), t);
    assert prio == s.threads[t].prio ==> Set(r, t, th) == r;
  }

  lemma WakeupKeeps(s: Sys, t: Tid)
    requires Inv(s) && t in s.threads
    ensures Inv(Step(s, Wakeup(t)))
  {
    hide Links;
    var th := s.threads[t];
    assert Settled(th);
    if !th.pending && (th.timeout || (th.suspended && !th.queued && !th.prestart && !th.dead)) {
      SetReady(s, t, th.(timeout := false, suspended := false));
    }
  }

  lemma SuspendKeeps(s: Sys, t: Tid)
    requires Inv(s) && t in s.threads
    ensures Inv(Step(s, Suspend(t)))
  {
    hide Links, Touches;
    assert Settled(s.threads[t]);
    var a := s.threads[t].(timeout := false);
    SetTouches(s, t, a);
    var r := Set(s, t, a);
    if s.threads[t].suspended {
      Finish(s, r, t);
    } else {
      SetTouches(r, t, a.(suspended := true));
      TouchesTwice(s, r, Set(r, t, a.(suspended := true)), t);
      UnreadyLinks(Set(r, t, a.(suspended := true)), t);
      TouchesTwice(s, Set(r, t, a.(suspended := true)), Step(s, Suspend(t)), t);
      Finish(s, Step(s, Suspend(t)), t);
    }
  }

  lemma PrioSetKeeps(s: Sys, t: Tid, prio: int)
    requires Inv(s) && t in s.threads
    ensures Inv(Step(s, PrioSet(t, prio)))
  {
    hide Links;
    assert Settled(s.threads[t]);
    if Ready(s.threads[t]) {
      RequeueKeeps(s, t, prio);
    } else {
      SetTouches(s, t, s.threads[t].(prio := prio));
      Finish(s, Step(s, PrioSet(t, prio)), t);
    }
  }

  // ---------- Whole runs ----------

  ghost predicate RunAllowed(s: Sys, ops: seq<Op>)
    decreases |ops|
  {
    ops != [] ==> Allowed(s, ops[0]) && RunAllowed(Step(s, ops[0]), ops[1..])
  }

  ghost function Run(s: Sys, ops: seq<Op>): Sys
    requires RunAllowed(s, ops)
    decreases |ops|
  {
    if ops == [] then s else Run(Step(s, ops[0]), ops[1..])
  }

  /** The kernel before any thread exists. */
  function Boot(): Sys { Sys(map[], [], map[]) }

  ghost predicate Once(q: seq<Tid>, t: Tid) { t in q && multiset(q)[t] == 1 }

  ghost predicate MemberOk(s: Sys, t: Tid)
    requires t in s.threads
  {
    var th := s.threads[t];
    && (th.queued <==> Once(s.runq, t)) && (!th.queued <==> t !in s.runq)
    && (Ready(th) <==> t in s.runq)
    && (forall w :: th.pendedOn == Some(w) <==> Once(Queue(s, w), t))
    && (forall w :: t in s.runq ==> t !in Queue(s, w))
    && (th.dead ==> t !in s.runq && forall w :: t !in Queue(s, w))
  }

  lemma {:induction false} CountOnce(q: seq<Tid>, t: Tid)
    requires NoDup(q)
    ensures t in q <==> multiset(q)[t] == 1
    ensures t !in q <==> multiset(q)[t] == 0
  {
    if q != [] {
      assert q == [q[0]] + q[1..];
      assert q[0] !in q[1..];
      CountOnce(q[1..], t);
    }
  }

  lemma Members(s: Sys, t: Tid)
    requires Inv(s) && t in s.threads
    ensures MemberOk(s, t)
  {
    hide NoDup, Sorted;
    RunMembers(s);
    assert LinkOk(s, t) && Settled(s.threads[t]);
    CountOnce(s.runq, t);
    forall w
      ensures s.threads[t].pendedOn == Some(w) <==> Once(Queue(s, w), t)
      ensures t in Queue(s, w) ==> s.threads[t].pendedOn == Some(w)
    {
      assert WaitOk(s, w);
      CountOnce(Queue(s, w), t);
    }
  }

  /** After every run each thread is in exactly the queues its state says, once, and in at
      most one; every ready thread is in the run queue and no other thread is. */
  lemma {:induction false} RunsKeepMembership(s: Sys, ops: seq<Op>)
    requires Inv(s) && RunAllowed(s, ops)
    ensures Inv(Run(s, ops)) && forall t | t in Run(s, ops).threads :: MemberOk(Run(s, ops), t)
    decreases |ops|
  {
    hide Links, Step, Allowed, AllSettled;
    if ops == [] {
      forall t | t in s.threads ensures MemberOk(s, t) { Members(s, t); }
    } else {
      StepKeeps(s, ops[0]);
      RunsKeepMembership(Step(s, ops[0]), ops[1..]);
    }
  }

  lemma BootOk()
    ensures Inv(Boot())
  {
  }

  lemma StepKeepsDead(s: Sys, op: Op, t: Tid)
    requires Inv(s) && Allowed(s, op) && t in s.threads && s.threads[t].dead
    ensures t in Step(s, op).threads && Step(s, op).threads[t].dead
  {
    hide Insert, Remove, Links, Release, Wake, Block, Kill;
    match op
    case Abort(u) => KillDead(s, u, t);
    case Pend(u, on, timeout) => BlockLinks(s, u, on, timeout);
    case Join(u, target, wait, timeout) => BlockLinks(s, u, Some(Joiners(target)), timeout);
    case TimeoutFires(u) => WakeDead(Set(s, u, s.threads[u].(timeout := false)), u, t);
    case WakeFirst(w, keepTimeout) =>
      if Queue(s, w) != [] && Queue(s, w)[0] in s.threads { ReleaseDead(s, Queue(s, w)[0], keepTimeout, t); }
    case WakeThread(u) => ReleaseDead(s, u, false, t);
    case _ =>
  }

  lemma WakeDead(s: Sys, u: Tid, t: Tid)
    requires u in s.threads && t in s.threads && s.threads[t].dead
    ensures t in Wake(s, u, true).threads && Wake(s, u, true).threads[t].dead
  {
    hide Insert, Remove;
  }

  lemma ReleaseDead(s: Sys, u: Tid, keepTimeout: bool, t: Tid)
    requires u in s.threads && t in s.threads && s.threads[t].dead
    ensures t in Release(s, u, keepTimeout).threads && Release(s, u, keepTimeout).threads[t].dead
  {
    hide Insert, Remove;
  }

  lemma KillDead(s: Sys, u: Tid, t: Tid)
    requires Inv(s) && u in s.threads && t in s.threads && s.threads[t].dead
    ensures t in Kill(s, u).threads && Kill(s, u).threads[t].dead
  {
    hide Doomed, Links;
    if !s.threads[u].dead {
      DoomedOk(s, u);
      ReleaseAllDead(Doomed(s, u), Joiners(u), |Queue(Doomed(s, u), Joiners(u))|, t);
    }
  }

  lemma {:induction false} ReleaseAllDead(s: Sys, w: Wid, n: nat, t: Tid)
    requires t in s.threads && s.threads[t].dead
    ensures t in ReleaseAll(s, w, n).threads && ReleaseAll(s, w, n).threads[t].dead
    decreases n
  {
    hide Release;
    var q := Queue(s, w);
    if n != 0 && q != [] && q[0] in s.threads {
      ReleaseDead(s, q[0], false, t);
      ReleaseAllDead(Release(s, q[0], false), w, n - 1, t);
    }
  }

  /** Over every run, a dead thread stays dead and never enters a queue again. */
  lemma {:induction false} TheDeadStayOut(s: Sys, ops: seq<Op>, t: Tid)
    requires Inv(s) && RunAllowed(s, ops) && t in s.threads && s.threads[t].dead
    ensures var r := Run(s, ops);
            t in r.threads && r.threads[t].dead && t !in r.runq && forall w :: t !in Queue(r, w)
    decreases |ops|
  {
    hide Links, Step, Allowed, AllSettled, Queue;
    if ops == [] {
      Members(s, t);
    } else {
      StepKeeps(s, ops[0]);
      StepKeepsDead(s, ops[0], t);
      TheDeadStayOut(Step(s, ops[0]), ops[1..], t);
    }
  }

  /** The first thread of the run queue is the best of all ready threads. */
  lemma FirstIsBest(s: Sys, t: Tid)
    requires Inv(s) && t in s.threads && Ready(s.threads[t])
    ensures s.runq != [] && s.runq[0] in s.threads && s.threads[s.runq[0]].prio <= s.threads[t].prio
  {
    Members(s, t);
    var i :| 0 <= i < |s.runq| && s.runq[i] == t;
    assert s.runq[0] in s.runq;
    assert s.threads[s.runq[0]].prio <= s.threads[s.runq[i]].prio;
  }

  lemma ReleaseQueue(s: Sys, t: Tid, w: Wid, keepTimeout: bool)
    requires Inv(s) && t in s.threads && Queue(s, w) != [] && Queue(s, w)[0] == t
    ensures Queue(Release(s, t, keepTimeout), w) == Queue(s, w)[1..]
  {
    hide Links, Insert;
    InQueue(s, t, w);
    var r := UnpendIf(s, t);
    assert Queue(r, w) == Queue(s, w)[1..];
  }

  lemma InQueue(s: Sys, t: Tid, w: Wid)
    requires Inv(s) && t in Queue(s, w)
    ensures t in s.threads && s.threads[t].pendedOn == Some(w)
  {
    assert WaitOk(s, w);
  }

  lemma {:induction false} ReleaseAllEmpties(s: Sys, w: Wid, n: nat)
    requires Inv(s) && n >= |Queue(s, w)|
    ensures Queue(ReleaseAll(s, w, n), w) == []
    decreases n
  {
    hide Release, Links;
    var q := Queue(s, w);
    if q != [] {
      InQueue(s, q[0], w);
      ReleaseLinks(s, q[0], false);
      ReleaseQueue(s, q[0], w, false);
      ReleaseAllEmpties(Release(s, q[0], false), w, n - 1);
    }
  }

  /** Nobody is left waiting for a thread that was aborted. */
  lemma AbortReleasesJoiners(s: Sys, t: Tid)
    requires Inv(s) && t in s.threads && !s.threads[t].dead
    ensures Queue(Step(s, Abort(t)), Joiners(t)) == []
  {
    hide Links, Doomed;
    DoomedOk(s, t);
    ReleaseAllEmpties(Doomed(s, t), Joiners(t), |Queue(Doomed(s, t), Joiners(t))|);
  }

  // ---------- What one operation undoes of another ----------

  ghost predicate Queued(s: Sys, t: Tid) { t in s.threads && Ready(s.threads[t]) && t in s.runq }

  lemma QueuedIs(s: Sys, t: Tid)
    requires Inv(s) && t in s.threads && Ready(s.threads[t])
    ensures Queued(s, t)
  {
    Members(s, t);
  }

  /** A thread that sleeps is not in the run queue; when its timeout fires it is again. */
  lemma SleepEndsWithTimeout(s: Sys, t: Tid)
    requires Inv(s) && t in s.threads && Ready(s.threads[t])
    ensures var r := Step(s, Sleep(t)); t in r.threads && t !in r.runq && r.threads[t].timeout
    ensures Queued(Step(Step(s, Sleep(t)), TimeoutFires(t)), t)
  {
    hide Links, Insert, Remove;
    var r := Step(s, Sleep(t));
    StepKeeps(s, Sleep(t));
    Members(r, t);
    StepKeeps(r, TimeoutFires(t));
    QueuedIs(Step(r, TimeoutFires(t)), t);
  }

  /** Suspending takes a ready thread out of the run queue, and resuming puts it back. */
  lemma SuspendEndsWithResume(s: Sys, t: Tid)
    requires Inv(s) && t in s.threads && Ready(s.threads[t])
    ensures var r := Step(s, Suspend(t)); t in r.threads && t !in r.runq && r.threads[t].suspended
    ensures Queued(Step(Step(s, Suspend(t)), Resume(t)), t)
  {
    hide Links, Insert, Remove;
    var r := Step(s, Suspend(t));
    StepKeeps(s, Suspend(t));
    Members(r, t);
    StepKeeps(r, Resume(t));
    QueuedIs(Step(r, Resume(t)), t);
  }

  /** A thread that waits is in its wait queue once and not in the run queue. Releasing it,
      or its timeout, ends the wait: it is in the run queue again and in no wait queue. */
  lemma PendEndsWithWake(s: Sys, t: Tid, w: Wid, timeout: bool)
    requires Inv(s) && t in s.threads && Ready(s.threads[t])
    ensures var r := Step(s, Pend(t, Some(w), timeout));
            && t in r.threads && t !in r.runq && Once(Queue(r, w), t) && r.threads[t].timeout == timeout
            && Queued(Step(r, WakeThread(t)), t)
            && (timeout ==> Queued(Step(r, TimeoutFires(t)), t))
  {
    hide Links, Insert, Remove;
    assert Settled(s.threads[t]);
    var r := Step(s, Pend(t, Some(w), timeout));
    StepKeeps(s, Pend(t, Some(w), timeout));
    Members(r, t);
    StepKeeps(r, WakeThread(t));
    QueuedIs(Step(r, WakeThread(t)), t);
    if timeout {
      StepKeeps(r, TimeoutFires(t));
      QueuedIs(Step(r, TimeoutFires(t)), t);
    }
  }

  /** A wait that ends while the thread is suspended leaves it out of the run queue until it
      is resumed. */
  lemma WakeRespectsSuspension(s: Sys, t: Tid)
    requires Inv(s) && t in s.threads && s.threads[t].suspended && s.threads[t].pendedOn.Some?
    requires !s.threads[t].prestart && !s.threads[t].dead
    ensures var r := Step(s, WakeThread(t));
            t in r.threads && t !in r.runq && r.threads[t].pendedOn.None? && Queued(Step(r, Resume(t)), t)
  {
    hide Links, Insert, Remove;
    var r := Step(s, WakeThread(t));
    StepKeeps(s, WakeThread(t));
    Members(r, t);
    StepKeeps(r, Resume(t));
    QueuedIs(Step(r, Resume(t)), t);
  }
}
