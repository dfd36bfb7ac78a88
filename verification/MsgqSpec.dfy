/**
  Message queues: a bounded queue with one wait queue that holds readers or writers. A
  waiter carries its message if it is a writer and none if it is a reader.
 */
module MsgqSpec {
  import opened Common

  type byte = x: int | 0 <= x < 256
  type Msg = seq<byte>

  datatype Waiter = Waiter(tid: nat, prio: int, msg: Option<Msg>)

  /** How a message leaves the queue: a thread receives it, or a purge discards it. */
  datatype Out = Delivered(msg: Msg, to: nat) | Purged(msg: Msg)

  /** What a call that was blocked returns in the end. */
  datatype Woken = Woken(tid: nat, code: Result)

  /** `accepted` are the messages that entered the queue, in order, and `out` those that left
      it; `blocked` counts the calls that had to wait, by thread, and `woken` lists their
      returns. */
  datatype State = State(
    max: nat, ring: seq<Msg>, waiters: seq<Waiter>, accepted: seq<Msg>, out: seq<Out>,
    blocked: multiset<nat>, woken: seq<Woken>)

  datatype Op =
    | Put(tid: nat, prio: int, msg: Msg, wait: bool)
    | Get(tid: nat, prio: int, wait: bool)
    | Expire(tid: nat)
    | Purge

  datatype Result = Ok | Message(msg: Msg) | ENOMSG | EAGAIN | Blocked

  // ---------- Operations ----------

  /** A waiter goes behind every waiter of the same or a better priority. */
  function Join(q: seq<Waiter>, w: Waiter): (r: seq<Waiter>)
    ensures forall x :: x in r <==> x == w || x in q
  {
    if q == [] then [w]
    else if w.prio < q[0].prio then [w] + q
    else assert q == [q[0]] + q[1..]; [q[0]] + Join(q[1..], w)
  }

  function Leave(q: seq<Waiter>, tid: nat): (r: seq<Waiter>)
    ensures forall x | x in r :: x in q
  {
    if q == [] then []
    else if q[0].tid == tid then q[1..]
    else [q[0]] + Leave(q[1..], tid)
  }

  function DoPut(s: State, tid: nat, prio: int, msg: Msg, wait: bool): (State, Result) {
    if |s.ring| < s.max then
      if s.waiters != [] then
        (s.(waiters := s.waiters[1..], accepted := s.accepted + [msg],
            out := s.out + [Delivered(msg, s.waiters[0].tid)],
            woken := s.woken + [Woken(s.waiters[0].tid, Message(msg))]), Ok)
      else (s.(ring := s.ring + [msg], accepted := s.accepted + [msg]), Ok)
    else if !wait then (s, ENOMSG)
    else (s.(waiters := Join(s.waiters, Waiter(tid, prio, Some(msg))), blocked := s.blocked + multiset{tid}), Blocked)
  }

  function DoGet(s: State, tid: nat, prio: int, wait: bool): (State, Result) {
    if s.ring != [] then
      var r := s.(ring := s.ring[1..], out := s.out + [Delivered(s.ring[0], tid)]);
      if s.waiters != [] && s.waiters[0].msg.Some? then
        var m := s.waiters[0].msg.value;
        (r.(ring := r.ring + [m], waiters := s.waiters[1..], accepted := s.accepted + [m],
            woken := s.woken + [Woken(s.waiters[0].tid, Ok)]), Message(s.ring[0]))
      else (r, Message(s.ring[0]))
    else if !wait then (s, ENOMSG)
    else (s.(waiters := Join(s.waiters, Waiter(tid, prio, None)), blocked := s.blocked + multiset{tid}), Blocked)
  }

  function PurgedOf(ring: seq<Msg>): (r: seq<Out>)
    ensures |r| == |ring| && forall i | 0 <= i < |r| :: r[i] == Purged(ring[i])
  {
    seq(|ring|, i requires 0 <= i < |ring| => Purged(ring[i]))
  }

  /** All waiters return with the same code, in order. */
  function AllWoken(q: seq<Waiter>, code: Result): (r: seq<Woken>)
    ensures |r| == |q| && forall i | 0 <= i < |r| :: r[i] == Woken(q[i].tid, code)
  {
    seq(|q|, i requires 0 <= i < |q| => Woken(q[i].tid, code))
  }

  predicate Waiting(q: seq<Waiter>, tid: nat) { exists i :: 0 <= i < |q| && q[i].tid == tid }

  function Step(s: State, op: Op): State {
    match op
    case Put(tid, prio, msg, wait) => DoPut(s, tid, prio, msg, wait).0
    case Get(tid, prio, wait) => DoGet(s, tid, prio, wait).0
    case Expire(tid) =>
      if Waiting(s.waiters, tid) then
        s.(waiters := Leave(s.waiters, tid), woken := s.woken + [Woken(tid, EAGAIN)])
      else s
    case Purge =>
      s.(ring := [], waiters := [], out := s.out + PurgedOf(s.ring), woken := s.woken + AllWoken(s.waiters, ENOMSG))
  }

  function Run(s: State, ops: seq<Op>): State
    decreases |ops|
  {
    if ops == [] then s else Run(Step(s, ops[0]), ops[1..])
  }

  function Init(max: nat): State { State(max, [], [], [], [], multiset{}, []) }

  // ---------- What every operation keeps ----------

  function Left(out: seq<Out>): (r: seq<Msg>)
    ensures |r| == |out|
  {
    seq(|out|, i requires 0 <= i < |out| => out[i].msg)
  }

  /** Waiters are all readers when the queue is empty, all writers when it is full, and there
      are none otherwise. */
  ghost predicate WaitersOk(s: State) {
    && (forall w | w in s.waiters :: w.msg.None? ==> s.ring == [])
    && (forall w | w in s.waiters :: w.msg.Some? ==> |s.ring| == s.max)
  }

  ghost predicate Inv(s: State) {
    && s.max > 0 && |s.ring| <= s.max && WaitersOk(s)
    && s.accepted == Left(s.out) + s.ring
  }

  lemma LeftMore(out: seq<Out>, more: seq<Out>)
    ensures Left(out + more) == Left(out) + Left(more)
  {
  }

  lemma PutKeeps(s: State, tid: nat, prio: int, msg: Msg, wait: bool)
    requires Inv(s)
    ensures Inv(DoPut(s, tid, prio, msg, wait).0)
    ensures |s.ring| < s.max && s.waiters != [] ==> s.waiters[0].msg.None? && s.ring == []
  {
    hide Left;
    if s.waiters != [] { assert s.waiters[0] in s.waiters; }
    if s.waiters != [] {
      LeftMore(s.out, [Delivered(msg, s.waiters[0].tid)]);
      OneLeft(Delivered(msg, s.waiters[0].tid));
    }
  }

  lemma OneLeft(o: Out)
    ensures Left([o]) == [o.msg]
  {
  }

  lemma GetKeeps(s: State, tid: nat, prio: int, wait: bool)
    requires Inv(s)
    ensures Inv(DoGet(s, tid, prio, wait).0)
    ensures s.ring != [] && s.waiters != [] ==> s.waiters[0].msg.Some? && |s.ring| == s.max
  {
    hide Left;
    if s.waiters != [] { assert s.waiters[0] in s.waiters; }
    if s.ring != [] {
      LeftMore(s.out, [Delivered(s.ring[0], tid)]);
      OneLeft(Delivered(s.ring[0], tid));
      assert s.ring == [s.ring[0]] + s.ring[1..];
    }
  }

  /** A get returns the oldest message of the queue and delivers exactly that one to its caller;
      a full queue with waiting writers stays full with the first of them behind the rest. */
  lemma GetReturnsOldest(s: State, tid: nat, prio: int, wait: bool)
    requires Inv(s)
    ensures var (r, res) := DoGet(s, tid, prio, wait);
            && (res.Message? <==> s.ring != [])
            && (res.Message? ==> s.accepted[|s.out|] == res.msg && r.out == s.out + [Delivered(res.msg, tid)])
            && (res.Message? && s.waiters != [] ==> |r.ring| == s.max && Some(r.ring[s.max - 1]) == s.waiters[0].msg)
            && (res == ENOMSG <==> s.ring == [] && !wait) && (!res.Message? ==> r.out == s.out && r.ring == s.ring)
  {
    GetKeeps(s, tid, prio, wait);
  }

  /** A put that succeeds is the last message accepted: it is delivered at once to the first
      reader that waits, who leaves the queue, and otherwise is the last one in the queue. */
  lemma PutIsLast(s: State, tid: nat, prio: int, msg: Msg, wait: bool)
    requires Inv(s)
    ensures var (r, res) := DoPut(s, tid, prio, msg, wait);
            && (res == Ok <==> |s.ring| < s.max)
            && (res == Ok ==> r.accepted == s.accepted + [msg])
            && (res == Ok && s.waiters != [] ==>
                  r.out == s.out + [Delivered(msg, s.waiters[0].tid)] && r.ring == []
                  && s.waiters == [s.waiters[0]] + r.waiters)
            && (res == Ok && s.waiters == [] ==> r.ring == s.ring + [msg] && r.out == s.out)
            && (res == ENOMSG <==> |s.ring| == s.max && !wait)
            && (res != Ok ==> r.accepted == s.accepted && r.ring == s.ring)
  {
    PutKeeps(s, tid, prio, msg, wait);
  }

  lemma PurgeKeeps(s: State)
    requires Inv(s)
    ensures Inv(Step(s, Purge))
  {
    LeftMore(s.out, PurgedOf(s.ring));
    assert Left(PurgedOf(s.ring)) == s.ring;
  }

  lemma StepKeeps(s: State, op: Op)
    requires Inv(s)
    ensures Inv(Step(s, op))
  {
    match op
    case Put(tid, prio, msg, wait) => PutKeeps(s, tid, prio, msg, wait);
    case Get(tid, prio, wait) => GetKeeps(s, tid, prio, wait);
    case Expire(tid) =>
    case Purge => PurgeKeeps(s);
  }

  /** Over every run the messages that left the queue, followed by those in it, are the
      accepted messages in order; and waiters match the state of the queue. */
  lemma {:induction false} EveryRunIsFifo(s: State, ops: seq<Op>)
    requires Inv(s)
    ensures var r := Run(s, ops);
            && Inv(r) && r.accepted == Left(r.out) + r.ring
            && (0 < |r.ring| < r.max ==> r.waiters == [])
            && (r.ring == [] ==> forall w | w in r.waiters :: w.msg.None?)
            && (|r.ring| == r.max ==> forall w | w in r.waiters :: w.msg.Some?)
    decreases |ops|
  {
    hide Left, Step;
    if ops == [] {
      assert s.waiters != [] ==> s.waiters[0] in s.waiters;
    } else {
      StepKeeps(s, ops[0]);
      EveryRunIsFifo(Step(s, ops[0]), ops[1..]);
    }
  }

  /** Without purge everything that left was delivered. */
  lemma {:induction false} NothingLostWithoutPurge(s: State, ops: seq<Op>)
    requires (forall i | 0 <= i < |ops| :: !ops[i].Purge?) && forall i | 0 <= i < |s.out| :: s.out[i].Delivered?
    ensures forall i | 0 <= i < |Run(s, ops).out| :: Run(s, ops).out[i].Delivered?
    decreases |ops|
  {
    if ops != [] {
      assert !ops[0].Purge?;
      NothingLostWithoutPurge(Step(s, ops[0]), ops[1..]);
    }
  }

  /** A waiter goes before the first one of strictly worse priority, so equal priorities keep their order. */
  lemma {:induction false} JoinBehind(q: seq<Waiter>, w: Waiter) returns (k: nat)
    ensures k <= |q| && Join(q, w) == q[..k] + [w] + q[k..]
    ensures forall i | 0 <= i < k :: q[i].prio <= w.prio
    ensures k < |q| ==> w.prio < q[k].prio
  {
    k := 0;
    if q == [] || w.prio < q[0].prio {
      assert q[..0] == [] && q[0..] == q;
    } else {
      var j := JoinBehind(q[1..], w);
      k := j + 1;
      assert q[..k] == [q[0]] + q[1..][..j];
      assert q[k..] == q[1..][j..];
    }
  }

  // ---------- Blocked calls ----------

  function Tids(q: seq<Waiter>): multiset<nat> {
    if q == [] then multiset{} else multiset{q[0].tid} + Tids(q[1..])
  }

  function Returned(woken: seq<Woken>): multiset<nat> {
    if woken == [] then multiset{} else multiset{woken[0].tid} + Returned(woken[1..])
  }

  lemma {:induction false} ReturnedMore(a: seq<Woken>, b: seq<Woken>)
    ensures Returned(a + b) == Returned(a) + Returned(b)
  {
    if a == [] {
      assert a + b == b;
    } else {
      assert (a + b)[1..] == a[1..] + b;
      ReturnedMore(a[1..], b);
    }
  }

  lemma ReturnedOne(woken: seq<Woken>, tid: nat, code: Result)
    ensures Returned(woken + [Woken(tid, code)]) == Returned(woken) + multiset{tid}
  {
    ReturnedMore(woken, [Woken(tid, code)]);
    assert [Woken(tid, code)][1..] == [];
  }

  lemma {:induction false} ReturnedAll(q: seq<Waiter>, code: Result)
    ensures Returned(AllWoken(q, code)) == Tids(q)
  {
    if q != [] {
      assert AllWoken(q, code)[1..] == AllWoken(q[1..], code);
      ReturnedAll(q[1..], code);
    }
  }

  lemma {:induction false} TidsJoin(q: seq<Waiter>, w: Waiter)
    ensures Tids(Join(q, w)) == Tids(q) + multiset{w.tid}
  {
    hide Tids;
    TidsCons(w, q);
    if q == [] {
      assert [w] + q == [w];
    } else if w.prio >= q[0].prio {
      TidsJoin(q[1..], w);
      TidsCons(q[0], Join(q[1..], w));
      TidsCons(q[0], q[1..]);
      assert q == [q[0]] + q[1..];
    }
  }

  lemma TidsCons(w: Waiter, q: seq<Waiter>)
    ensures Tids([w] + q) == multiset{w.tid} + Tids(q)
  {
    assert ([w] + q)[1..] == q;
  }

  lemma {:induction false} TidsLeave(q: seq<Waiter>, tid: nat)
    requires Waiting(q, tid)
    ensures Tids(q) == Tids(Leave(q, tid)) + multiset{tid}
  {
    if q[0].tid != tid {
      var i :| 0 <= i < |q| && q[i].tid == tid;
      assert q[1..][i - 1].tid == tid;
      TidsLeave(q[1..], tid);
      assert ([q[0]] + Leave(q[1..], tid))[1..] == Leave(q[1..], tid);
    }
  }

  ghost predicate Accounted(s: State) { s.blocked == Tids(s.waiters) + Returned(s.woken) }

  /** A call starts to wait, or a waiting one returns. */
  lemma Moves(s: State, r: State, tid: nat)
    requires Accounted(s)
    requires || (&& r.blocked == s.blocked + multiset{tid} && r.woken == s.woken
                 && Tids(r.waiters) == Tids(s.waiters) + multiset{tid})
             || (&& r.blocked == s.blocked && Tids(s.waiters) == Tids(r.waiters) + multiset{tid}
                 && Returned(r.woken) == Returned(s.woken) + multiset{tid})
    ensures Accounted(r)
  {
    hide Tids, Returned;
  }

  lemma FirstMoves(s: State, r: State, code: Result)
    requires Accounted(s) && s.waiters != [] && r.waiters == s.waiters[1..] && r.blocked == s.blocked
    requires r.woken == s.woken + [Woken(s.waiters[0].tid, code)]
    ensures Accounted(r)
  {
    hide Returned;
    ReturnedOne(s.woken, s.waiters[0].tid, code);
    Moves(s, r, s.waiters[0].tid);
  }

  lemma NewcomerMoves(s: State, r: State, w: Waiter)
    requires Accounted(s) && r.waiters == Join(s.waiters, w) && r.woken == s.woken
    requires r.blocked == s.blocked + multiset{w.tid}
    ensures Accounted(r)
  {
    hide Tids, Returned, Join;
    TidsJoin(s.waiters, w);
    Moves(s, r, w.tid);
  }

  lemma StepAccounted(s: State, op: Op)
    requires Accounted(s)
    ensures Accounted(Step(s, op))
  {
    hide Join, Leave, Returned, Tids;
    var r := Step(s, op);
    match op
    case Put(tid, prio, msg, wait) =>
      if |s.ring| >= s.max {
        if wait { NewcomerMoves(s, r, Waiter(tid, prio, Some(msg))); }
      } else if s.waiters != [] {
        FirstMoves(s, r, Message(msg));
      }
    case Get(tid, prio, wait) =>
      if s.ring == [] {
        if wait { NewcomerMoves(s, r, Waiter(tid, prio, None)); }
      } else if s.waiters != [] && s.waiters[0].msg.Some? {
        FirstMoves(s, r, Ok);
      }
    case Expire(tid) =>
      if Waiting(s.waiters, tid) {
        TidsLeave(s.waiters, tid);
        ReturnedOne(s.woken, tid, EAGAIN);
        Moves(s, r, tid);
      }
    case Purge =>
      ReturnedMore(s.woken, AllWoken(s.waiters, ENOMSG));
      ReturnedAll(s.waiters, ENOMSG);
      TidsNone();
  }

  lemma TidsNone()
    ensures Tids([]) == multiset{}
  {
  }

  /** Over every run each call that was blocked has returned once or still waits. */
  lemma {:induction false} EveryBlockedCallReturnsOnce(s: State, ops: seq<Op>)
    requires Accounted(s)
    ensures Accounted(Run(s, ops))
    decreases |ops|
  {
    hide Step, Accounted;
    if ops != [] {
      StepAccounted(s, ops[0]);
      EveryBlockedCallReturnsOnce(Step(s, ops[0]), ops[1..]);
    }
  }

  /** A return with a message is a delivery to that thread. */
  ghost predicate Received(s: State, w: Woken) {
    w.code.Message? ==> Delivered(w.code.msg, w.tid) in s.out
  }

  /** Over every run: a reader that was blocked returns with a message that was delivered to
      it, and no blocked call returns anything but a message, success, -ENOMSG or -EAGAIN. */
  lemma {:induction false} ReturnsAreDeliveries(s: State, ops: seq<Op>)
    requires forall w | w in s.woken :: Received(s, w) && !w.code.Blocked?
    ensures forall w | w in Run(s, ops).woken :: Received(Run(s, ops), w) && !w.code.Blocked?
    decreases |ops|
  {
    if ops != [] {
      ReturnsStep(s, ops[0]);
      ReturnsAreDeliveries(Step(s, ops[0]), ops[1..]);
    }
  }

  lemma ReturnsStep(s: State, op: Op)
    requires forall w | w in s.woken :: Received(s, w) && !w.code.Blocked?
    ensures forall w | w in Step(s, op).woken :: Received(Step(s, op), w) && !w.code.Blocked?
  {
    hide Join, Leave;
    var r := Step(s, op);
    assert forall o | o in s.out :: o in r.out;
    forall w | w in r.woken ensures Received(r, w) && !w.code.Blocked? {
      if w in s.woken {
        assert Received(s, w);
      } else if op.Put? {
        assert Delivered(op.msg, s.waiters[0].tid) in r.out;
      }
    }
  }

  /** What each step returns to blocked calls: a put hands its message to the first reader, a
      get lets the first writer succeed, a timeout gives -EAGAIN, and a purge gives -ENOMSG to
      every waiter in order. */
  lemma StepReturns(s: State, op: Op)
    requires Inv(s)
    ensures Step(s, op).woken == s.woken +
      match op
      case Put(_, _, msg, _) =>
        if s.waiters != [] && s.waiters[0].msg.None? then [Woken(s.waiters[0].tid, Message(msg))] else []
      case Get(_, _, _) => if s.waiters != [] && s.waiters[0].msg.Some? then [Woken(s.waiters[0].tid, Ok)] else []
      case Expire(tid) => if Waiting(s.waiters, tid) then [Woken(tid, EAGAIN)] else []
      case Purge => AllWoken(s.waiters, ENOMSG)
  {
    hide Join, Leave, Left;
    if s.waiters != [] { assert s.waiters[0] in s.waiters; }
    assert s.woken + [] == s.woken;
  }

  // ---------- What else a call changes ----------

  /** A waiting call leaves the queue as it is and joins those that wait, behind every one of
      equal or better priority. A call that does not wait and fails changes nothing. */
  lemma BlockedIs(s: State, op: Op) returns (k: nat)
    requires Inv(s) && (op.Put? || op.Get?)
    ensures var (r, res) := if op.Put? then DoPut(s, op.tid, op.prio, op.msg, op.wait)
                            else DoGet(s, op.tid, op.prio, op.wait);
            && (res == Blocked <==> op.wait && if op.Put? then |s.ring| == s.max else s.ring == [])
            && (res == ENOMSG ==> r == s)
            && (res == Blocked ==>
                  && k <= |s.waiters|
                  && (forall i | 0 <= i < k :: s.waiters[i].prio <= op.prio)
                  && (k < |s.waiters| ==> op.prio < s.waiters[k].prio)
                  && var w := Waiter(op.tid, op.prio, if op.Put? then Some(op.msg) else None);
                     r == s.(waiters := s.waiters[..k] + [w] + s.waiters[k..], blocked := s.blocked + multiset{op.tid}))
  {
    hide Join, Left;
    k := JoinBehind(s.waiters, Waiter(op.tid, op.prio, if op.Put? then Some(op.msg) else None));
  }

  /** A call that succeeds wakes at most the first waiter: a reader with the message, a writer
      because its message now is in the queue. */
  lemma ServedIs(s: State, op: Op)
    requires Inv(s) && ((op.Put? && |s.ring| < s.max) || (op.Get? && s.ring != []))
    ensures var r := Step(s, op);
            && r.max == s.max && r.blocked == s.blocked
            && (s.waiters == [] ==>
                  && r.waiters == [] && r.woken == s.woken
                  && r.ring == if op.Put? then s.ring + [op.msg] else s.ring[1..])
            && (s.waiters != [] ==>
                  && [s.waiters[0]] + r.waiters == s.waiters
                  && r.woken == s.woken + [Woken(s.waiters[0].tid, if op.Put? then Message(op.msg) else Ok)]
                  && (op.Put? ==> r.ring == s.ring)
                  && (op.Get? ==> s.waiters[0].msg.Some? && r.ring == s.ring[1..] + [s.waiters[0].msg.value]))
  {
    hide Left;
    if op.Put? {
      PutKeeps(s, op.tid, op.prio, op.msg, op.wait);
    } else {
      GetKeeps(s, op.tid, op.prio, op.wait);
    }
  }

  /** The timeout of a waiting call takes it, and no other, out of the wait queue. */
  lemma ExpireIs(s: State, tid: nat, k: nat)
    requires k <= |s.waiters| && (forall i | 0 <= i < k :: s.waiters[i].tid != tid)
    requires k < |s.waiters| ==> s.waiters[k].tid == tid
    ensures Step(s, Expire(tid)) ==
              if k == |s.waiters| then s
              else s.(waiters := s.waiters[..k] + s.waiters[k + 1..], woken := s.woken + [Woken(tid, EAGAIN)])
  {
    hide Leave;
    LeaveAt(s.waiters, tid, k);
  }

  lemma {:induction false} LeaveAt(q: seq<Waiter>, tid: nat, k: nat)
    requires k <= |q| && (forall i | 0 <= i < k :: q[i].tid != tid) && (k < |q| ==> q[k].tid == tid)
    ensures Leave(q, tid) == if k < |q| then q[..k] + q[k + 1..] else q
  {
    if k > 0 {
      LeaveAt(q[1..], tid, k - 1);
      if k < |q| { CutCons(q, k); }
      assert q == [q[0]] + q[1..];
    } else if q != [] {
      assert q[..0] + q[1..] == q[1..];
    }
  }

  /** A purge empties the queue and wakes every waiter, in order, with an error. */
  lemma PurgeIs(s: State)
    ensures var r := Step(s, Purge);
            && r == State(s.max, [], [], s.accepted, r.out, s.blocked, r.woken)
            && |r.out| == |s.out| + |s.ring| && s.out <= r.out
            && (forall i | 0 <= i < |s.ring| :: r.out[|s.out| + i] == Purged(s.ring[i]))
            && |r.woken| == |s.woken| + |s.waiters| && s.woken <= r.woken
            && (forall i | 0 <= i < |s.waiters| :: r.woken[|s.woken| + i] == Woken(s.waiters[i].tid, ENOMSG))
  {
  }

  ghost predicate WaitersSorted(q: seq<Waiter>) { forall i, j | 0 <= i < j < |q| :: q[i].prio <= q[j].prio }

  lemma JoinSorted(q: seq<Waiter>, w: Waiter)
    requires WaitersSorted(q)
    ensures WaitersSorted(Join(q, w))
  {
    hide Join;
    var k := JoinBehind(q, w);
    assert forall i | k <= i < |q| :: w.prio <= q[i].prio;
  }

  lemma LeaveSorted(q: seq<Waiter>, tid: nat)
    requires WaitersSorted(q)
    ensures WaitersSorted(Leave(q, tid))
  {
    hide Leave;
    var k := FirstOf(q, tid);
    LeaveAt(q, tid, k);
  }

  lemma StepSorted(s: State, op: Op)
    requires WaitersSorted(s.waiters)
    ensures WaitersSorted(Step(s, op).waiters)
  {
    hide Join, Leave, WaitersSorted;
    TailSorted(s.waiters);
    match op
    case Put(tid, prio, msg, wait) => JoinSorted(s.waiters, Waiter(tid, prio, Some(msg)));
    case Get(tid, prio, wait) => JoinSorted(s.waiters, Waiter(tid, prio, None));
    case Expire(tid) => LeaveSorted(s.waiters, tid);
    case Purge =>
  }

  lemma TailSorted(q: seq<Waiter>)
    requires WaitersSorted(q)
    ensures WaitersSorted([]) && (q != [] ==> WaitersSorted(q[1..]))
  {
  }

  lemma {:induction false} FirstOf(q: seq<Waiter>, tid: nat) returns (k: nat)
    ensures k <= |q| && (forall i | 0 <= i < k :: q[i].tid != tid) && (k < |q| ==> q[k].tid == tid)
  {
    k := 0;
    if q != [] && q[0].tid != tid {
      var j := FirstOf(q[1..], tid);
      k := j + 1;
    }
  }

  /** Over every run the waiter that is served next is one of the best priority. */
  lemma {:induction false} EveryRunIsOrdered(s: State, ops: seq<Op>)
    requires WaitersSorted(s.waiters)
    ensures WaitersSorted(Run(s, ops).waiters)
    decreases |ops|
  {
    hide WaitersSorted, Step;
    if ops != [] {
      StepSorted(s, ops[0]);
      EveryRunIsOrdered(Step(s, ops[0]), ops[1..]);
    }
  }
}
