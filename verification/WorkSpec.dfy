/**
  Work items, work queues, flushes and cancellations: each locked section of the work
  module is one step. The queue thread's loop is two steps, `Take` and `Finish`, with the
  handler between them, so any other step can come in between.

  History: every accepted submission is an instance with its own number; `qinst` and
  `rinst` say which instance of an item is queued and which is running, `over` holds the
  instances that have finished or been cancelled, and a flush remembers which instances
  it has to wait for.
 */
module WorkSpec {
  import opened Common

  /** The flag bits of a `k_work`, and the queue it was last submitted to. */
  datatype Item = Item(
    queued: bool, running: bool, canceling: bool, flushing: bool,
    queue: Option<nat>, qinst: nat, rinst: nat)

  /** A `k_work_q`; `current` is the item its thread is handling. */
  datatype Queue = Queue(
    pending: seq<nat>, current: Option<nat>,
    started: bool, busy: bool, draining: bool, plugged: bool)

  /** A `z_work_flusher` put on `queue` on behalf of `work`. */
  datatype Flush = Flush(work: nat, queue: nat, waits: set<nat>, released: bool)

  datatype Canceller = Canceller(id: nat, work: nat)

  datatype Sys = Sys(
    items: map<nat, Item>, queues: map<nat, Queue>, flushes: map<nat, Flush>,
    cancels: seq<Canceller>, next: nat, over: set<nat>)

  datatype Op =
    | NewItem(work: nat)
    | StartQueue(queue: nat)
    | Submit(work: nat, target: Option<nat>, caller: Option<nat>)
    | FlushWork(work: nat, flusher: nat)
    | Cancel(work: nat)
    | CancelSync(work: nat, canceller: nat)
    | Take(queue: nat)
    | Finish(queue: nat)
    | Drain(queue: nat, plug: bool)
    | Unplug(queue: nat)

  const EINVAL := 22
  const EBUSY := 16
  const EALREADY := 120
  const ENODEV := 19

  // ---------- Lists ----------

  function Find(s: seq<nat>, x: nat): (k: nat)
    ensures k <= |s| && x !in s[..k] && (k < |s| ==> s[k] == x)
    ensures x in s <==> k < |s|
  {
    if s == [] || s[0] == x then 0 else 1 + Find(s[1..], x)
  }

  lemma RemoveFound(s: seq<nat>, x: nat)
    ensures Remove(s, x) == if x in s then s[..Find(s, x)] + s[Find(s, x) + 1..] else s
  {
    if x in s {
      RemoveAt(s, x, Find(s, x));
    } else {
      RemoveNone(s, x);
    }
  }

  /** Directly behind `x`, or in front of everything when `x` is not there. */
  function InsertBehind(s: seq<nat>, x: nat, y: nat): seq<nat> {
    if x in s then s[..Find(s, x) + 1] + [y] + s[Find(s, x) + 1..] else [y] + s
  }

  ghost predicate Before(s: seq<nat>, x: nat, y: nat) {
    exists i, j | 0 <= i < j < |s| :: s[i] == x && s[j] == y
  }

  function DropFirst(cs: seq<Canceller>, work: nat): seq<Canceller> {
    if cs == [] then [] else if cs[0].work == work then cs[1..] else [cs[0]] + DropFirst(cs[1..], work)
  }

  // ---------- Steps ----------

  predicate IsUser(s: Sys, w: nat) { w in s.items && w !in s.flushes }

  predicate Busy(i: Item) { i.queued || i.running || i.canceling || i.flushing }

  /** Whether a queue takes new work, as the value `queue_submit_locked` returns. */
  function Admission(q: Queue, chained: bool): int {
    if !q.started then -ENODEV
    else if q.draining && !chained then -EBUSY
    else if q.plugged && !q.draining then -EBUSY
    else 1
  }

  /** The queue a submission goes to: the one that is running the item, if any. */
  function Target(i: Item, target: Option<nat>): Option<nat> {
    if i.running || target.None? then i.queue else target
  }

  function SubmitCode(s: Sys, w: nat, target: Option<nat>, caller: Option<nat>): int
    requires w in s.items
  {
    var i := s.items[w];
    var t := Target(i, target);
    if i.canceling then -EBUSY
    else if i.queued then 0
    else if t.None? || t.value !in s.queues then -EINVAL
    else
      var rc := Admission(s.queues[t.value], caller == t);
      if rc < 0 then rc else if i.running then 2 else 1
  }

  function DoSubmit(s: Sys, w: nat, target: Option<nat>, caller: Option<nat>): Sys
    requires w in s.items
  {
    if SubmitCode(s, w, target, caller) <= 0 then s
    else
      var i := s.items[w];
      var q := Target(i, target).value;
      s.(items := s.items[w := i.(queued := true, queue := Some(q), qinst := s.next)],
         queues := s.queues[q := s.queues[q].(pending := s.queues[q].pending + [w])],
         next := s.next + 1)
  }

  predicate NeedsFlush(i: Item) { (i.queued || i.running) && i.queue.Some? }

  function WaitsFor(i: Item): set<nat> {
    (if i.queued then {i.qinst} else {}) + (if i.running then {i.rinst} else {})
  }

  function DoFlush(s: Sys, w: nat, f: nat): Sys
    requires w in s.items
  {
    var i := s.items[w];
    if NeedsFlush(i) && i.queue.value in s.queues then
      var q := i.queue.value;
      s.(items := s.items[f := Item(false, false, false, true, None, 0, 0)],
         queues := s.queues[q := s.queues[q].(pending := InsertBehind(s.queues[q].pending, w, f))],
         flushes := s.flushes[f := Flush(w, q, WaitsFor(i), false)])
    else s
  }

  /** `queue_remove_locked`: takes a queued item off its queue. */
  function Dequeue(s: Sys, w: nat): Sys
    requires w in s.items
  {
    var i := s.items[w];
    if !i.queued then s
    else
      var s1 := s.(items := s.items[w := i.(queued := false)], over := s.over + {i.qinst});
      if i.queue.Some? && i.queue.value in s.queues then
        var q := i.queue.value;
        s1.(queues := s.queues[q := s.queues[q].(pending := Remove(s.queues[q].pending, w))])
      else s1
  }

  function DoCancel(s: Sys, w: nat): Sys
    requires w in s.items
  {
    var s1 := if s.items[w].canceling then s else Dequeue(s, w);
    var i := s1.items[w];
    if Busy(i) then s1.(items := s1.items[w := i.(canceling := true)]) else s1
  }

  function DoCancelSync(s: Sys, w: nat, c: nat): Sys
    requires w in s.items
  {
    if !Busy(s.items[w]) then s
    else
      var s1 := DoCancel(s, w);
      if s1.items[w].canceling then s1.(cancels := s1.cancels + [Canceller(c, w)]) else s1
  }

  function DoTake(s: Sys, q: nat): Sys
    requires q in s.queues && (s.queues[q].pending != [] ==> s.queues[q].pending[0] in s.items)
  {
    var k := s.queues[q];
    if k.pending != [] then
      var w := k.pending[0];
      var i := s.items[w];
      s.(queues := s.queues[q := k.(pending := k.pending[1..], current := Some(w), busy := true)],
         items := s.items[w := i.(running := true, queued := false, rinst := i.qinst)])
    else s.(queues := s.queues[q := k.(draining := false)])
  }

  function DoFinish(s: Sys, q: nat): Sys
    requires q in s.queues && s.queues[q].current.Some? && s.queues[q].current.value in s.items
  {
    var w := s.queues[q].current.value;
    var i := s.items[w];
    s.(items := s.items[w := i.(running := false, flushing := false, canceling := false)],
       queues := s.queues[q := s.queues[q].(current := None, busy := false)],
       flushes := if i.flushing && w in s.flushes then s.flushes[w := s.flushes[w].(released := true)] else s.flushes,
       cancels := if i.canceling then DropFirst(s.cancels, w) else s.cancels,
       over := if w in s.flushes then s.over else s.over + {i.rinst})
  }

  function DoDrain(s: Sys, q: nat, plug: bool): Sys
    requires q in s.queues
  {
    var k := s.queues[q];
    if k.busy || k.draining || plug || k.pending != [] then
      s.(queues := s.queues[q := k.(draining := true, plugged := k.plugged || plug)])
    else s
  }

  /** What the callers and the two halves of the queue thread's loop respect. */
  predicate Enabled(s: Sys, op: Op) {
    match op
    case NewItem(w) => w !in s.items
    case StartQueue(q) => q !in s.queues
    case Submit(w, target, _) => IsUser(s, w) && (target.Some? ==> target.value in s.queues)
    case FlushWork(w, f) => IsUser(s, w) && f !in s.items
    case Cancel(w) => IsUser(s, w)
    case CancelSync(w, _) => IsUser(s, w)
    case Take(q) => q in s.queues && s.queues[q].current.None?
      && (s.queues[q].pending != [] ==> s.queues[q].pending[0] in s.items)
    case Finish(q) => q in s.queues && s.queues[q].current.Some? && s.queues[q].current.value in s.items
    case Drain(q, _) => q in s.queues
    case Unplug(q) => q in s.queues
  }

  function Step(s: Sys, op: Op): Sys {
    if !Enabled(s, op) then s
    else match op
      case NewItem(w) => s.(items := s.items[w := Item(false, false, false, false, None, 0, 0)])
      case StartQueue(q) => s.(queues := s.queues[q := Queue([], None, true, false, false, false)])
      case Submit(w, target, caller) => DoSubmit(s, w, target, caller)
      case FlushWork(w, f) => DoFlush(s, w, f)
      case Cancel(w) => DoCancel(s, w)
      case CancelSync(w, c) => DoCancelSync(s, w, c)
      case Take(q) => DoTake(s, q)
      case Finish(q) => DoFinish(s, q)
      case Drain(q, plug) => DoDrain(s, q, plug)
      case Unplug(q) => s.(queues := s.queues[q := s.queues[q].(plugged := false)])
  }

  function Run(s: Sys, ops: seq<Op>): Sys
    decreases |ops|
  {
    if ops == [] then s else Run(Step(s, ops[0]), ops[1..])
  }

  const BOOT := Sys(map[], map[], map[], [], 0, {})

  // ---------- Invariant ----------

  /** A user's item: queued exactly where its flag and queue say, running on one queue only,
      and being cancelled only while it runs. */
  ghost predicate ItemOk(s: Sys, w: nat)
    requires IsUser(s, w)
  {
    var i := s.items[w];
    && !i.flushing
    && (i.canceling ==> i.running && !i.queued)
    && (i.queued || i.running ==> i.queue.Some? && i.queue.value in s.queues)
    && (i.queued ==> w in s.queues[i.queue.value].pending && i.qinst < s.next)
    && (i.running ==> s.queues[i.queue.value].current == Some(w) && i.rinst < s.next)
  }

  ghost predicate PendingOk(s: Sys, q: nat, x: nat) {
    && x in s.items
    && (if x in s.flushes then
          s.flushes[x].queue == q && !s.flushes[x].released && !s.items[x].running
        else s.items[x].queued && s.items[x].queue == Some(q))
  }

  ghost predicate QueueOk(s: Sys, q: nat)
    requires q in s.queues
  {
    var k := s.queues[q];
    && NoDup(k.pending)
    && (forall x | x in k.pending :: PendingOk(s, q, x))
    && (k.current.Some? ==>
          var x := k.current.value;
          && x in s.items && s.items[x].running && k.busy
          && (if x in s.flushes then s.flushes[x].queue == q && !s.flushes[x].released
              else s.items[x].queue == Some(q)))
  }

  /** Instance `inst` is still on its way and will be done with before the flusher's turn. */
  ghost predicate Ahead(s: Sys, f: nat, inst: nat)
    requires f in s.flushes && s.flushes[f].work in s.items && s.flushes[f].queue in s.queues
  {
    var w, q := s.flushes[f].work, s.flushes[f].queue;
    var i := s.items[w];
    && f in s.queues[q].pending && i.queue == Some(q)
    && ((i.queued && i.qinst == inst && Before(s.queues[q].pending, w, f)) || (i.running && i.rinst == inst))
  }

  ghost predicate FlushOk(s: Sys, f: nat)
    requires f in s.flushes
  {
    var l := s.flushes[f];
    && f in s.items && !s.items[f].queued && !s.items[f].canceling && (s.items[f].flushing <==> !l.released)
    && IsUser(s, l.work) && l.queue in s.queues
    && (s.items[f].running ==> s.queues[l.queue].current == Some(f))
    && (!l.released ==> s.items[f].running || f in s.queues[l.queue].pending)
    && (forall inst | inst in l.waits :: inst < s.next && (inst in s.over || Ahead(s, f, inst)))
  }

  ghost predicate Inv(s: Sys) {
    && (forall w | IsUser(s, w) :: ItemOk(s, w))
    && (forall q | q in s.queues :: QueueOk(s, q))
    && (forall f | f in s.flushes :: FlushOk(s, f))
  }

  // ---------- List lemmas ----------

  lemma RemovedAt(s: seq<nat>, k: nat)
    requires NoDup(s) && k < |s|
    ensures var r := s[..k] + s[k + 1..];
      && NoDup(r)
      && (forall y :: y in r <==> y in s && y != s[k])
      && (forall a, b | a != s[k] && b != s[k] :: Before(s, a, b) ==> Before(r, a, b))
  {
    var r := s[..k] + s[k + 1..];
    assert forall i | 0 <= i < k :: r[i] == s[i];
    assert forall i | k < i < |s| :: r[i - 1] == s[i];
    forall a, b | a != s[k] && b != s[k] && Before(s, a, b) ensures Before(r, a, b) {
      var i, j :| 0 <= i < j < |s| && s[i] == a && s[j] == b;
      var i', j' := if i < k then i else i - 1, if j < k then j else j - 1;
      assert r[i'] == a && r[j'] == b;
    }
  }

  lemma RemoveKeeps(s: seq<nat>, x: nat)
    requires NoDup(s)
    ensures NoDup(Remove(s, x))
    ensures forall y :: y in Remove(s, x) <==> y in s && y != x
    ensures forall a, b | a != x && b != x :: Before(s, a, b) ==> Before(Remove(s, x), a, b)
  {
    hide Before, NoDup;
    RemoveFound(s, x);
    if x in s { RemovedAt(s, Find(s, x)); }
  }

  lemma InsertAt(s: seq<nat>, k: nat, y: nat)
    requires NoDup(s) && y !in s && k <= |s|
    ensures var r := s[..k] + [y] + s[k..];
      && NoDup(r)
      && (forall z :: z in r <==> z in s || z == y)
      && (forall a, b :: Before(s, a, b) ==> Before(r, a, b))
      && (forall i | 0 <= i < k :: Before(r, s[i], y))
  {
    var r := s[..k] + [y] + s[k..];
    assert forall i | 0 <= i < k :: r[i] == s[i];
    assert r[k] == y;
    assert forall i | k <= i < |s| :: r[i + 1] == s[i];
    forall a, b | Before(s, a, b) ensures Before(r, a, b) {
      var i, j :| 0 <= i < j < |s| && s[i] == a && s[j] == b;
      var i', j' := if i < k then i else i + 1, if j < k then j else j + 1;
      assert r[i'] == a && r[j'] == b;
    }
  }

  lemma InsertKeeps(s: seq<nat>, x: nat, y: nat)
    requires NoDup(s) && y !in s
    ensures NoDup(InsertBehind(s, x, y))
    ensures forall z :: z in InsertBehind(s, x, y) <==> z in s || z == y
    ensures forall a, b :: Before(s, a, b) ==> Before(InsertBehind(s, x, y), a, b)
    ensures x in s ==> Before(InsertBehind(s, x, y), x, y)
  {
    hide Before, NoDup;
    InsertAt(s, if x in s then Find(s, x) + 1 else 0, y);
    assert x !in s ==> InsertBehind(s, x, y) == s[..0] + [y] + s[0..];
    assert x in s ==> s[Find(s, x)] == x;
  }

  lemma AppendKeeps(s: seq<nat>, x: nat)
    requires NoDup(s) && x !in s
    ensures NoDup(s + [x])
    ensures forall z :: z in s + [x] <==> z in s || z == x
    ensures forall a, b :: Before(s, a, b) ==> Before(s + [x], a, b)
  {
    forall a, b | Before(s, a, b) ensures Before(s + [x], a, b) {
      var i, j :| 0 <= i < j < |s| && s[i] == a && s[j] == b;
      assert (s + [x])[i] == a && (s + [x])[j] == b;
    }
  }

  lemma PopKeeps(s: seq<nat>)
    requires NoDup(s) && s != []
    ensures NoDup(s[1..]) && s[0] !in s[1..]
    ensures forall z :: z in s <==> z == s[0] || z in s[1..]
    ensures forall a, b | a != s[0] :: Before(s, a, b) ==> Before(s[1..], a, b)
    ensures forall a :: !Before(s, a, s[0])
  {
    forall a, b | a != s[0] && Before(s, a, b) ensures Before(s[1..], a, b) {
      var i, j :| 0 <= i < j < |s| && s[i] == a && s[j] == b;
      assert s[1..][i - 1] == a && s[1..][j - 1] == b;
    }
  }

  // ---------- Every step keeps the invariant ----------

  lemma SubmitKeeps(s: Sys, w: nat, target: Option<nat>, caller: Option<nat>)
    requires Inv(s) && IsUser(s, w)
    ensures Inv(DoSubmit(s, w, target, caller))
  {
    hide Before, NoDup;
    var r := DoSubmit(s, w, target, caller);
    if SubmitCode(s, w, target, caller) > 0 {
      var q := Target(s.items[w], target).value;
      assert ItemOk(s, w) && QueueOk(s, q);
      assert forall p | p in s.queues :: w in s.queues[p].pending ==> PendingOk(s, p, w);
      AppendKeeps(s.queues[q].pending, w);
      forall v | IsUser(r, v) ensures ItemOk(r, v) { assert IsUser(s, v) && ItemOk(s, v); }
      forall p | p in r.queues ensures QueueOk(r, p) {
        assert QueueOk(s, p);
        forall x | x in r.queues[p].pending ensures PendingOk(r, p, x) { assert x != w ==> PendingOk(s, p, x); }
      }
      forall f | f in r.flushes ensures FlushOk(r, f) { SubmitKeepsFlush(s, w, target, caller, f); }
    }
  }

  lemma SubmitKeepsFlush(s: Sys, w: nat, target: Option<nat>, caller: Option<nat>, f: nat)
    requires Inv(s) && IsUser(s, w) && f in s.flushes && SubmitCode(s, w, target, caller) > 0
    ensures FlushOk(DoSubmit(s, w, target, caller), f)
  {
    hide Before, NoDup;
    var r := DoSubmit(s, w, target, caller);
    var q := Target(s.items[w], target).value;
    assert ItemOk(s, w) && QueueOk(s, q) && FlushOk(s, f);
    assert forall p | p in s.queues :: w in s.queues[p].pending ==> PendingOk(s, p, w);
    AppendKeeps(s.queues[q].pending, w);
    forall inst | inst in r.flushes[f].waits && inst !in r.over
      ensures Ahead(r, f, inst)
    {
      assert Ahead(s, f, inst);
    }
  }

  lemma FlushKeeps(s: Sys, w: nat, f: nat)
    requires Inv(s) && IsUser(s, w) && f !in s.items
    ensures Inv(DoFlush(s, w, f))
  {
    hide Before, NoDup, InsertBehind;
    var r := DoFlush(s, w, f);
    var i := s.items[w];
    assert ItemOk(s, w);
    if NeedsFlush(i) {
      var q := i.queue.value;
      assert QueueOk(s, q);
      assert f in s.flushes ==> FlushOk(s, f);
      assert f in s.queues[q].pending ==> PendingOk(s, q, f);
      InsertKeeps(s.queues[q].pending, w, f);
      forall v | IsUser(r, v) ensures ItemOk(r, v) { assert IsUser(s, v) && ItemOk(s, v); }
      forall p | p in r.queues ensures QueueOk(r, p) {
        assert QueueOk(s, p);
        forall x | x in r.queues[p].pending ensures PendingOk(r, p, x) { assert x != f ==> PendingOk(s, p, x); }
      }
      forall g | g in r.flushes ensures FlushOk(r, g) { FlushKeepsFlush(s, w, f, g); }
    }
  }

  lemma FlushKeepsFlush(s: Sys, w: nat, f: nat, g: nat)
    requires Inv(s) && IsUser(s, w) && f !in s.items && NeedsFlush(s.items[w]) && (g == f || g in s.flushes)
    ensures g in DoFlush(s, w, f).flushes && FlushOk(DoFlush(s, w, f), g)
  {
    hide Before, NoDup, InsertBehind;
    var r := DoFlush(s, w, f);
    assert ItemOk(s, w);
    assert f in s.flushes ==> FlushOk(s, f);
    var q := s.items[w].queue.value;
    assert QueueOk(s, q);
    assert f in s.queues[q].pending ==> PendingOk(s, q, f);
    InsertKeeps(s.queues[q].pending, w, f);
    if g != f {
      assert FlushOk(s, g);
      forall inst | inst in r.flushes[g].waits && inst !in r.over
        ensures Ahead(r, g, inst)
      {
        assert Ahead(s, g, inst);
      }
    }
  }

  lemma DequeueKeeps(s: Sys, w: nat)
    requires Inv(s) && IsUser(s, w)
    ensures Inv(Dequeue(s, w))
  {
    hide Before, NoDup, Remove;
    var r := Dequeue(s, w);
    assert ItemOk(s, w);
    if s.items[w].queued {
      var q := s.items[w].queue.value;
      assert QueueOk(s, q);
      RemoveKeeps(s.queues[q].pending, w);
      forall v | IsUser(r, v) ensures ItemOk(r, v) { assert IsUser(s, v) && ItemOk(s, v); }
      forall p | p in r.queues ensures QueueOk(r, p) {
        assert QueueOk(s, p);
        forall x | x in r.queues[p].pending ensures PendingOk(r, p, x) { assert PendingOk(s, p, x); }
      }
      forall f | f in r.flushes ensures FlushOk(r, f) {
        assert FlushOk(s, f);
        forall inst | inst in r.flushes[f].waits && inst !in r.over
          ensures Ahead(r, f, inst)
        {
          assert Ahead(s, f, inst);
        }
      }
    }
  }

  lemma CancelKeeps(s: Sys, w: nat)
    requires Inv(s) && IsUser(s, w)
    ensures Inv(DoCancel(s, w))
    ensures IsUser(DoCancel(s, w), w) && DoCancel(s, w).items[w].canceling == s.items[w].running
  {
    hide Inv;
    ItemIs(s, w);
    DequeueKeeps(s, w);
    var s1 := if s.items[w].canceling then s else Dequeue(s, w);
    if s1.items[w].running {
      MarkKeeps(s1, w);
    }
  }

  lemma ItemIs(s: Sys, w: nat)
    requires Inv(s) && IsUser(s, w)
    ensures ItemOk(s, w)
  {
  }

  lemma MarkKeeps(s: Sys, w: nat)
    requires Inv(s) && IsUser(s, w) && s.items[w].running && !s.items[w].queued
    ensures Inv(s.(items := s.items[w := s.items[w].(canceling := true)]))
  {
    hide Before, NoDup;
    var r := s.(items := s.items[w := s.items[w].(canceling := true)]);
    forall v | IsUser(r, v) ensures ItemOk(r, v) { assert IsUser(s, v) && ItemOk(s, v); }
    forall p | p in r.queues ensures QueueOk(r, p) {
      assert QueueOk(s, p);
      forall x | x in r.queues[p].pending ensures PendingOk(r, p, x) { assert PendingOk(s, p, x); }
    }
    forall f | f in r.flushes ensures FlushOk(r, f) {
      assert FlushOk(s, f);
      forall inst | inst in r.flushes[f].waits && inst !in r.over
        ensures Ahead(r, f, inst)
      {
        assert Ahead(s, f, inst);
      }
    }
  }

  lemma TakeKeepsFlush(s: Sys, q: nat, f: nat)
    requires Inv(s) && Enabled(s, Take(q)) && f in s.flushes
    ensures FlushOk(DoTake(s, q), f)
  {
    hide Before, NoDup;
    var r := DoTake(s, q);
    assert QueueOk(s, q) && FlushOk(s, f);
    if s.queues[q].pending != [] {
      assert PendingOk(s, q, s.queues[q].pending[0]);
      PopKeeps(s.queues[q].pending);
    }
    forall inst | inst in r.flushes[f].waits && inst !in r.over ensures Ahead(r, f, inst) { assert Ahead(s, f, inst); }
  }

  lemma TakeKeeps(s: Sys, q: nat)
    requires Inv(s) && Enabled(s, Take(q))
    ensures Inv(DoTake(s, q))
  {
    hide Before, NoDup, FlushOk;
    var r := DoTake(s, q);
    assert QueueOk(s, q);
    if s.queues[q].pending != [] {
      var w := s.queues[q].pending[0];
      assert PendingOk(s, q, w);
      assert IsUser(s, w) ==> ItemOk(s, w);
      PopKeeps(s.queues[q].pending);
    }
    forall v | IsUser(r, v) ensures ItemOk(r, v) { assert IsUser(s, v) && ItemOk(s, v); }
    forall p | p in r.queues ensures QueueOk(r, p) {
      assert QueueOk(s, p);
      forall x | x in r.queues[p].pending ensures PendingOk(r, p, x) { assert PendingOk(s, p, x); }
    }
    forall f | f in r.flushes ensures FlushOk(r, f) { TakeKeepsFlush(s, q, f); }
  }

  lemma FinishKeeps(s: Sys, q: nat)
    requires Inv(s) && Enabled(s, Finish(q))
    ensures Inv(DoFinish(s, q))
  {
    hide Before, NoDup;
    var r := DoFinish(s, q);
    var w := s.queues[q].current.value;
    assert QueueOk(s, q);
    assert IsUser(s, w) ==> ItemOk(s, w);
    assert w in s.flushes ==> FlushOk(s, w);
    forall v | IsUser(r, v) ensures ItemOk(r, v) { assert IsUser(s, v) && ItemOk(s, v); }
    forall p | p in r.queues ensures QueueOk(r, p) {
      assert QueueOk(s, p);
      forall x | x in r.queues[p].pending ensures PendingOk(r, p, x) { assert PendingOk(s, p, x); }
    }
    forall f | f in r.flushes ensures FlushOk(r, f) { FinishKeepsFlush(s, q, f); }
  }

  lemma FinishKeepsFlush(s: Sys, q: nat, f: nat)
    requires Inv(s) && Enabled(s, Finish(q)) && f in s.flushes
    ensures f in DoFinish(s, q).flushes && FlushOk(DoFinish(s, q), f)
  {
    hide Before, NoDup;
    var r := DoFinish(s, q);
    var w := s.queues[q].current.value;
    assert QueueOk(s, q) && FlushOk(s, f);
    assert IsUser(s, w) ==> ItemOk(s, w);
    forall inst | inst in r.flushes[f].waits && inst !in r.over
      ensures Ahead(r, f, inst)
    {
      assert Ahead(s, f, inst);
    }
  }

  /** Changing only queue flags and cancel records, or adding fresh things, keeps everything. */
  lemma FrameKeeps(s: Sys, r: Sys)
    requires Inv(s) && r.flushes == s.flushes && r.next == s.next && r.over == s.over
    requires forall v | v in s.items :: v in r.items && r.items[v] == s.items[v]
    requires forall v | v in r.items && v !in s.items :: r.items[v] == Item(false, false, false, false, None, 0, 0)
    requires forall p | p in s.queues ::
      p in r.queues && r.queues[p].pending == s.queues[p].pending && r.queues[p].current == s.queues[p].current
      && r.queues[p].busy == s.queues[p].busy
    requires forall p | p in r.queues && p !in s.queues :: r.queues[p].pending == [] && r.queues[p].current == None
    ensures Inv(r)
  {
    hide Before;
    forall v | IsUser(r, v) ensures ItemOk(r, v) { assert IsUser(s, v) ==> ItemOk(s, v); }
    forall p | p in r.queues ensures QueueOk(r, p) {
      assert p in s.queues ==> QueueOk(s, p);
      forall x | x in r.queues[p].pending ensures PendingOk(r, p, x) { assert PendingOk(s, p, x); }
    }
    forall f | f in r.flushes ensures FlushOk(r, f) {
      assert FlushOk(s, f);
      forall inst | inst in r.flushes[f].waits && inst !in r.over
        ensures Ahead(r, f, inst)
      {
        assert Ahead(s, f, inst);
      }
    }
  }

  lemma StepKeeps(s: Sys, op: Op)
    requires Inv(s)
    ensures Inv(Step(s, op))
  {
    hide Inv, DoSubmit, DoFlush, DoTake, DoFinish, DoCancel;
    if Enabled(s, op) {
      match op
      case Submit(w, target, caller) => SubmitKeeps(s, w, target, caller);
      case FlushWork(w, f) => FlushKeeps(s, w, f);
      case Cancel(w) => CancelKeeps(s, w);
      case CancelSync(w, c) =>
        CancelKeeps(s, w);
        FrameKeeps(DoCancel(s, w), DoCancel(s, w).(cancels := DoCancel(s, w).cancels + [Canceller(c, w)]));
      case Take(q) => TakeKeeps(s, q);
      case Finish(q) => FinishKeeps(s, q);
      case _ => FrameKeeps(s, Step(s, op));
    }
  }

  lemma {:induction false} RunKeeps(s: Sys, ops: seq<Op>)
    requires Inv(s)
    ensures Inv(Run(s, ops))
    decreases |ops|
  {
    hide Inv, Step;
    if ops != [] {
      StepKeeps(s, ops[0]);
      RunKeeps(Step(s, ops[0]), ops[1..]);
    }
  }

  // ---------- Main results ----------

  /** After any run, each user item is queued exactly when it is on the list of its own queue,
      once, and on no other; no two queues handle it; and it is being cancelled only while a
      handler that will clear that state is running. */
  lemma ItemSafety(ops: seq<Op>, w: nat)
    requires IsUser(Run(BOOT, ops), w)
    ensures var s := Run(BOOT, ops); var i := s.items[w];
      && (forall q | q in s.queues :: w in s.queues[q].pending <==> i.queued && i.queue == Some(q))
      && (forall q | q in s.queues :: NoDup(s.queues[q].pending))
      && (forall p, q | p in s.queues && q in s.queues && s.queues[p].current == s.queues[q].current == Some(w) ::
         p == q)
      && (i.running <==> exists q | q in s.queues :: s.queues[q].current == Some(w))
      && (i.canceling ==> i.running && !i.queued)
  {
    RunKeeps(BOOT, ops);
    var s := Run(BOOT, ops);
    assert ItemOk(s, w);
    forall q | q in s.queues
      ensures w in s.queues[q].pending <==> s.items[w].queued && s.items[w].queue == Some(q)
      ensures s.queues[q].current == Some(w) ==> s.items[w].running && s.items[w].queue == Some(q)
    {
      assert QueueOk(s, q);
      assert w in s.queues[q].pending ==> PendingOk(s, q, w);
    }
  }

  lemma FlushPersists(s: Sys, op: Op, f: nat)
    requires Inv(s) && f in s.flushes
    ensures f in Step(s, op).flushes && Step(s, op).flushes[f].waits == s.flushes[f].waits
  {
    hide Inv, InsertBehind, Remove, DropFirst;
    FlushQueue(s, f);
  }

  lemma {:induction false} FlushPersistsRun(s: Sys, ops: seq<Op>, f: nat)
    requires Inv(s) && f in s.flushes
    ensures f in Run(s, ops).flushes && Run(s, ops).flushes[f].waits == s.flushes[f].waits
    decreases |ops|
  {
    hide Inv, Step;
    if ops != [] {
      StepKeeps(s, ops[0]);
      FlushPersists(s, ops[0], f);
      FlushPersistsRun(Step(s, ops[0]), ops[1..], f);
    }
  }

  /** A flush returns only when every instance of the item that was queued or running when it
      was called has finished or been cancelled, whatever happened in between. */
  lemma FlushIsHonoured(before: seq<Op>, w: nat, f: nat, after: seq<Op>)
    requires var s := Run(BOOT, before);
      IsUser(s, w) && f !in s.items && (s.items[w].queued || s.items[w].running)
    ensures var s := Run(BOOT, before); var t := Run(Step(s, FlushWork(w, f)), after);
      && f in t.flushes
      && (t.flushes[f].released ==> WaitsFor(s.items[w]) <= t.over)
  {
    hide Before, NoDup, InsertBehind, Remove;
    RunKeeps(BOOT, before);
    var s := Run(BOOT, before);
    assert ItemOk(s, w);
    var s1 := Step(s, FlushWork(w, f));
    StepKeeps(s, FlushWork(w, f));
    FlushPersistsRun(s1, after, f);
    RunKeeps(s1, after);
    var t := Run(s1, after);
    assert FlushOk(t, f);
    if t.flushes[f].released {
      forall inst | inst in WaitsFor(s.items[w]) ensures inst in t.over {
        assert f in t.queues[t.flushes[f].queue].pending ==> PendingOk(t, t.flushes[f].queue, f);
        assert inst in t.flushes[f].waits;
        assert QueueOk(t, t.flushes[f].queue);
      }
    }
  }

  // ---------- Waiting cancellers ----------

  function Count(cs: seq<Canceller>, w: nat): nat {
    if cs == [] then 0 else (if cs[0].work == w then 1 else 0) + Count(cs[1..], w)
  }

  /** Every waiting canceller waits for a completion that is still to come. */
  ghost predicate CancelsLive(s: Sys) {
    forall i | 0 <= i < |s.cancels| :: IsUser(s, s.cancels[i].work) && s.items[s.cancels[i].work].canceling
  }

  lemma {:induction false} DropFirstCount(cs: seq<Canceller>, w: nat)
    ensures Count(DropFirst(cs, w), w) == if Count(cs, w) > 0 then Count(cs, w) - 1 else 0
    ensures forall c | c in DropFirst(cs, w) :: c in cs
    ensures Count(cs, w) > 0 <==> exists c | c in cs :: c.work == w
  {
    if cs != [] && cs[0].work != w {
      DropFirstCount(cs[1..], w);
      assert cs == [cs[0]] + cs[1..];
      assert ([cs[0]] + DropFirst(cs[1..], w))[1..] == DropFirst(cs[1..], w);
    } else if cs != [] {
      assert cs[0] in cs;
      DropFirstCount(cs[1..], w);
    }
  }

  lemma FinishStrandsIff(s: Sys, q: nat)
    requires Inv(s) && Enabled(s, Finish(q)) && CancelsLive(s)
    ensures CancelsLive(DoFinish(s, q)) <==> Count(s.cancels, s.queues[q].current.value) <= 1
  {
    var w := s.queues[q].current.value;
    var r := DoFinish(s, q);
    DropFirstCount(s.cancels, w);
    DropFirstCount(DropFirst(s.cancels, w), w);
    if Count(s.cancels, w) <= 1 {
      forall i | 0 <= i < |r.cancels|
        ensures IsUser(r, r.cancels[i].work) && r.items[r.cancels[i].work].canceling
      {
        assert r.cancels[i] in r.cancels && r.cancels[i] in s.cancels;
      }
    } else {
      var c :| c in r.cancels && c.work == w;
      var i :| 0 <= i < |r.cancels| && r.cancels[i] == c;
      assert !r.items[r.cancels[i].work].canceling;
    }
  }

  /** The only step that leaves a canceller waiting for nothing is the completion of an item
      that two or more cancellers are waiting for: only the first of them is released. */
  lemma StepStrandsIff(s: Sys, op: Op)
    requires Inv(s) && Enabled(s, op) && CancelsLive(s)
    ensures CancelsLive(Step(s, op)) <==>
      !(op.Finish? && Count(s.cancels, s.queues[op.queue].current.value) >= 2)
  {
    hide Before, NoDup, InsertBehind, Remove, DropFirst, DoCancel, DoFinish;
    match op
    case Finish(q) => FinishStrandsIff(s, q);
    case Cancel(w) => CancelLives(s, w);
    case CancelSync(w, c) => CancelLives(s, w);
    case Take(q) =>
      if s.queues[q].pending != [] { assert QueueOk(s, q) && PendingOk(s, q, s.queues[q].pending[0]); }
    case FlushWork(w, f) =>
    case Submit(w, target, caller) => assert ItemOk(s, w);
    case _ =>
  }

  lemma CancelLives(s: Sys, w: nat)
    requires Inv(s) && IsUser(s, w) && CancelsLive(s)
    ensures IsUser(DoCancel(s, w), w) && CancelsLive(DoCancel(s, w))
  {
    assert ItemOk(s, w);
  }

  // ---------- Every flush is released ----------

  lemma BootOk()
    ensures Inv(BOOT)
  {
  }

  lemma FindFirst(s: seq<nat>, x: nat, j: nat)
    requires j < |s| && s[j] == x
    ensures x in s && Find(s, x) <= j
  {
    var k := Find(s, x);
    assert forall i | 0 <= i < k :: s[..k][i] == s[i];
  }

  lemma FindInsert(s: seq<nat>, w: nat, g: nat, f: nat)
    requires f in s
    ensures f in InsertBehind(s, w, g) && Find(InsertBehind(s, w, g), f) <= Find(s, f) + 1
  {
    var k, r := Find(s, f), InsertBehind(s, w, g);
    var at := if w in s then Find(s, w) + 1 else 0;
    assert r == s[..at] + [g] + s[at..];
    var j := if k < at then k else k + 1;
    assert r[j] == f;
    FindFirst(r, f, j);
  }

  lemma FindRemove(s: seq<nat>, w: nat, f: nat)
    requires f in s && w != f
    ensures f in Remove(s, w) && Find(Remove(s, w), f) <= Find(s, f)
  {
    hide Remove, Find;
    var k := Find(s, f);
    RemoveFound(s, w);
    if w in s {
      var at := Find(s, w);
      CutAt(s, at, k);
      FindFirst(Remove(s, w), f, if k < at then k else k - 1);
    }
  }

  lemma CutAt(s: seq<nat>, at: nat, k: nat)
    requires at < |s| && k < |s| && k != at
    ensures (s[..at] + s[at + 1..])[if k < at then k else k - 1] == s[k]
  {
  }

  lemma FindAppend(s: seq<nat>, y: nat, f: nat)
    requires f in s
    ensures f in s + [y] && Find(s + [y], f) <= Find(s, f)
  {
    assert (s + [y])[Find(s, f)] == f;
    FindFirst(s + [y], f, Find(s, f));
  }

  /** How many turns of its queue a flush still has to wait: two for each entry ahead of its
      flusher and for the flusher itself, and one for the item being handled. */
  function TurnsLeft(s: Sys, f: nat): nat
    requires f in s.flushes && s.flushes[f].queue in s.queues
  {
    var k := s.queues[s.flushes[f].queue];
    if s.flushes[f].released then 0
    else if k.current == Some(f) then 1
    else 2 * Find(k.pending, f) + 2 + (if k.current.Some? then 1 else 0)
  }

  /** A turn of the queue's own thread. */
  predicate OwnTurn(s: Sys, op: Op, q: nat) { (op == Take(q) || op == Finish(q)) && Enabled(s, op) }

  /** The queue of a flush that is not released can always take its next turn. */
  lemma QueueCanGoOn(s: Sys, f: nat)
    requires Inv(s) && f in s.flushes && !s.flushes[f].released
    ensures var q := s.flushes[f].queue; Enabled(s, Take(q)) || Enabled(s, Finish(q))
  {
    hide NoDup, Before;
    assert FlushOk(s, f);
    var q := s.flushes[f].queue;
    assert QueueOk(s, q);
    if s.queues[q].current.None? {
      assert s.queues[q].pending[0] in s.queues[q].pending;
      assert PendingOk(s, q, s.queues[q].pending[0]);
    }
  }

  lemma FlushQueue(s: Sys, f: nat)
    requires Inv(s) && f in s.flushes
    ensures f in s.items && s.flushes[f].queue in s.queues
    ensures !s.flushes[f].released ==>
              var k := s.queues[s.flushes[f].queue]; s.items[f].flushing && (k.current == Some(f) || f in k.pending)
  {
    assert FlushOk(s, f);
  }

  /** The turns of its own queue bring a flush closer to its release, and only flushers that
      are put ahead of it can push it back, by two turns each. */
  lemma TurnsDecrease(s: Sys, op: Op, f: nat)
    requires Inv(s) && f in s.flushes
    ensures s.flushes[f].queue in s.queues && f in Step(s, op).flushes
    ensures Step(s, op).flushes[f].queue == s.flushes[f].queue && s.flushes[f].queue in Step(s, op).queues
    ensures s.flushes[f].released ==> Step(s, op).flushes[f].released
    ensures !s.flushes[f].released ==>
              TurnsLeft(Step(s, op), f) + (if OwnTurn(s, op, s.flushes[f].queue) then 1 else 0)
              <= TurnsLeft(s, f) + (if op.FlushWork? then 2 else 0)
  {
    hide Inv, Before, NoDup, InsertBehind, Remove, Find;
    FlushQueue(s, f);
    if Enabled(s, op) {
      match op
      case Submit(w, target, caller) => SubmitTurns(s, w, target, caller, f);
      case FlushWork(w, g) => FlushTurns(s, w, g, f);
      case Cancel(w) => CancelTurns(s, w, f);
      case CancelSync(w, c) => CancelTurns(s, w, f);
      case Take(q) => TakeTurns(s, q, f);
      case Finish(q) => FinishTurns(s, q, f);
      case _ =>
    }
  }

  ghost predicate NoLater(s: Sys, r: Sys, f: nat, more: nat) {
    && f in s.flushes && f in r.flushes && r.flushes[f].queue == s.flushes[f].queue
    && s.flushes[f].queue in s.queues && s.flushes[f].queue in r.queues
    && (s.flushes[f].released ==> r.flushes[f].released)
    && (!s.flushes[f].released ==> TurnsLeft(r, f) <= TurnsLeft(s, f) + more)
  }

  lemma SubmitTurns(s: Sys, w: nat, target: Option<nat>, caller: Option<nat>, f: nat)
    requires Inv(s) && w in s.items && f in s.flushes
    ensures NoLater(s, DoSubmit(s, w, target, caller), f, 0)
  {
    hide Inv, Before, NoDup, Find;
    FlushQueue(s, f);
    var pending := s.queues[s.flushes[f].queue].pending;
    if f in pending { FindAppend(pending, w, f); }
  }

  lemma FlushTurns(s: Sys, w: nat, g: nat, f: nat)
    requires Inv(s) && w in s.items && g !in s.items && f in s.flushes
    ensures NoLater(s, DoFlush(s, w, g), f, 2)
  {
    hide Inv, Before, NoDup, Find, InsertBehind;
    FlushQueue(s, f);
    var pending := s.queues[s.flushes[f].queue].pending;
    if f in pending { FindInsert(pending, w, g, f); }
  }

  lemma CancelTurns(s: Sys, w: nat, f: nat)
    requires Inv(s) && IsUser(s, w) && f in s.flushes
    ensures NoLater(s, DoCancel(s, w), f, 0)
  {
    hide Inv, Before, NoDup, Find, Remove;
    FlushQueue(s, f);
    var pending := s.queues[s.flushes[f].queue].pending;
    if f in pending { FindRemove(pending, w, f); }
  }

  lemma TakeTurns(s: Sys, q: nat, f: nat)
    requires Inv(s) && Enabled(s, Take(q)) && f in s.flushes
    ensures NoLater(s, DoTake(s, q), f, 0)
    ensures !s.flushes[f].released && q == s.flushes[f].queue ==> TurnsLeft(DoTake(s, q), f) + 1 <= TurnsLeft(s, f)
  {
    hide Inv, Before, NoDup;
    FlushQueue(s, f);
  }

  lemma FinishTurns(s: Sys, q: nat, f: nat)
    requires Inv(s) && Enabled(s, Finish(q)) && f in s.flushes
    ensures NoLater(s, DoFinish(s, q), f, 0)
    ensures !s.flushes[f].released && q == s.flushes[f].queue ==> TurnsLeft(DoFinish(s, q), f) + 1 <= TurnsLeft(s, f)
  {
    hide Inv, Before, NoDup, Find;
    FlushQueue(s, f);
    if s.queues[q].current == Some(f) { CurrentIsHere(s, q, f); }
  }

  /** A flusher is handled by its own queue only. */
  lemma CurrentIsHere(s: Sys, q: nat, f: nat)
    requires Inv(s) && q in s.queues && f in s.flushes && s.queues[q].current == Some(f)
    ensures q == s.flushes[f].queue && !s.flushes[f].released
  {
    assert QueueOk(s, q);
  }

  /** The turns a queue takes in a run. */
  function OwnTurns(s: Sys, ops: seq<Op>, q: nat): nat
    decreases |ops|
  {
    if ops == [] then 0 else (if OwnTurn(s, ops[0], q) then 1 else 0) + OwnTurns(Step(s, ops[0]), ops[1..], q)
  }

  function Flushes(ops: seq<Op>): nat {
    if ops == [] then 0 else (if ops[0].FlushWork? then 1 else 0) + Flushes(ops[1..])
  }

  lemma {:induction false} ReleasedInTime(s: Sys, ops: seq<Op>, f: nat)
    requires Inv(s) && f in s.flushes && s.flushes[f].queue in s.queues
    requires OwnTurns(s, ops, s.flushes[f].queue) >= TurnsLeft(s, f) + 2 * Flushes(ops)
    ensures f in Run(s, ops).flushes && Run(s, ops).flushes[f].released
    decreases |ops|
  {
    hide Inv, Step, TurnsLeft, OwnTurn;
    if ops == [] {
      NoneLeft(s, f);
    } else {
      StepKeeps(s, ops[0]);
      TurnsDecrease(s, ops[0], f);
      if s.flushes[f].released {
        ReleasedStays(Step(s, ops[0]), ops[1..], f);
      } else {
        ReleasedInTime(Step(s, ops[0]), ops[1..], f);
      }
    }
  }

  lemma NoneLeft(s: Sys, f: nat)
    requires f in s.flushes && s.flushes[f].queue in s.queues && TurnsLeft(s, f) == 0
    ensures s.flushes[f].released
  {
  }

  lemma {:induction false} ReleasedStays(s: Sys, ops: seq<Op>, f: nat)
    requires Inv(s) && f in s.flushes && s.flushes[f].released
    ensures f in Run(s, ops).flushes && Run(s, ops).flushes[f].released
    decreases |ops|
  {
    hide Inv, Step, TurnsLeft, OwnTurn;
    if ops != [] {
      StepKeeps(s, ops[0]);
      TurnsDecrease(s, ops[0], f);
      ReleasedStays(Step(s, ops[0]), ops[1..], f);
    }
  }

  /** Whatever happens before and after it, a flush is released once its queue has taken the
      turns that were left when it was called, and two more for every later flush; by then the
      instances it waits for are over. */
  lemma FlushIsReleased(before: seq<Op>, w: nat, f: nat, after: seq<Op>)
    requires var s := Run(BOOT, before);
      IsUser(s, w) && f !in s.items && (s.items[w].queued || s.items[w].running)
    ensures var s := Run(BOOT, before); var t := Step(s, FlushWork(w, f)); var r := Run(t, after);
      && f in t.flushes && t.flushes[f].queue in t.queues && f in r.flushes
      && (OwnTurns(t, after, t.flushes[f].queue) >= TurnsLeft(t, f) + 2 * Flushes(after) ==>
            r.flushes[f].released && WaitsFor(s.items[w]) <= r.over)
  {
    hide Inv, TurnsLeft, OwnTurns, Flushes, OwnTurn, InsertBehind, Run;
    BootOk();
    RunKeeps(BOOT, before);
    var s := Run(BOOT, before);
    ItemIs(s, w);
    StepKeeps(s, FlushWork(w, f));
    var t := Step(s, FlushWork(w, f));
    FlushIsHonoured(before, w, f, after);
    FlushQueue(t, f);
    if OwnTurns(t, after, t.flushes[f].queue) >= TurnsLeft(t, f) + 2 * Flushes(after) {
      ReleasedInTime(t, after, f);
    }
  }

  /** Item 1 is being handled by queue 0. */
  const HANDLING := Sys(
    map[1 := Item(false, true, false, false, Some(0), 0, 0)],
    map[0 := Queue([], Some(1), true, true, false, false)], map[], [], 1, {})

  lemma HandlingIsReached()
    ensures Run(BOOT, [StartQueue(0), NewItem(1), Submit(1, Some(0), None), Take(0)]) == HANDLING
  {
    var s1 := Step(BOOT, StartQueue(0));
    var s2 := Step(s1, NewItem(1));
    var s3 := Step(s2, Submit(1, Some(0), None));
    assert s3.queues[0] == Queue([1], None, true, false, false, false);
    var s4 := Step(s3, Take(0));
    assert [1][1..] == [];
    assert s4.items == HANDLING.items && s4.queues == HANDLING.queues;
    var ops := [StartQueue(0), NewItem(1), Submit(1, Some(0), None), Take(0)];
    assert ops[1..] == [NewItem(1), Submit(1, Some(0), None), Take(0)];
    assert ops[1..][1..] == [Submit(1, Some(0), None), Take(0)];
    RunTwo(s2, Submit(1, Some(0), None), Take(0));
  }

  lemma RunTwo(s: Sys, a: Op, b: Op)
    ensures Run(s, [a, b]) == Step(Step(s, a), b)
  {
    assert [a, b][1..] == [b] && [b][1..] == [];
    assert Run(Step(Step(s, a), b), []) == Step(Step(s, a), b);
  }

  /** Two threads cancel the same running item and wait; its completion releases only one, and
      the other waits on although the item is idle. */
  lemma SecondCancellerIsStranded()
    ensures var s := Step(Step(Step(HANDLING, CancelSync(1, 10)), CancelSync(1, 11)), Finish(0));
      s.cancels == [Canceller(11, 1)] && 1 in s.items && !Busy(s.items[1])
  {
    var s1 := Step(HANDLING, CancelSync(1, 10));
    assert s1.cancels == [Canceller(10, 1)] && s1.items[1].canceling && s1.queues == HANDLING.queues;
    var s2 := Step(s1, CancelSync(1, 11));
    assert s2.cancels == [Canceller(10, 1), Canceller(11, 1)] && s2.queues == HANDLING.queues;
  }
}
