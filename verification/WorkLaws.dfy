/**
  What the steps of the work module promise: what a submission answers, what else changes,
  which items a draining or plugged queue lets in, that every accepted submission is finished
  or cancelled exactly once, and that a drain ends, with everything done that it found.
 */
module WorkLaws {
  import opened Common
  import opened WorkSpec

  // ---------- Submission ----------

  /** Whether a queue lets work in: while it drains only its own thread may add to it, and
      once it is plugged nobody may until it drains. */
  ghost predicate LetsIn(k: Queue, own: bool) {
    k.started && (k.draining ==> own) && (k.plugged ==> k.draining)
  }

  /** The queue meant by a submission: an item that is running returns to its own. */
  ghost predicate Meant(i: Item, target: Option<nat>, q: Option<nat>) {
    && (i.running ==> q == i.queue)
    && (!i.running && target.Some? ==> q == target)
    && (!i.running && target.None? ==> q == i.queue)
  }

  /** The answer `rc` to a submission to the queue `q`. */
  ghost predicate SubmitAnswers(s: Sys, w: nat, q: Option<nat>, caller: Option<nat>, rc: int)
    requires w in s.items
  {
    var i := s.items[w];
    var known := q.Some? && q.value in s.queues;
    var free := !i.canceling && !i.queued;
    && (i.canceling ==> rc == -EBUSY)
    && (rc == 0 <==> i.queued && !i.canceling)
    && (rc == -EINVAL <==> free && !known)
    && (rc == -ENODEV <==> free && known && !s.queues[q.value].started)
    && (free && known && s.queues[q.value].started ==>
          (rc == -EBUSY <==> !LetsIn(s.queues[q.value], caller == q)))
    && (rc == 2 <==> free && known && i.running && LetsIn(s.queues[q.value], caller == q))
    && (rc == 1 <==> free && known && !i.running && LetsIn(s.queues[q.value], caller == q))
  }

  /** A submission that is accepted puts the item last on the queue meant, with a new instance
      number; any other one changes nothing. */
  ghost predicate SubmitDoes(s: Sys, w: nat, q: Option<nat>, rc: int, r: Sys)
    requires w in s.items
  {
    && (rc <= 0 ==> r == s)
    && (rc > 0 ==>
          && q.Some? && OnlyItem(s, r, w) && OnlyQueue(s, r, q.value) && q.value in s.queues
          && r.flushes == s.flushes && r.cancels == s.cancels && r.over == s.over && r.next == s.next + 1
          && r.items[w] == s.items[w].(queued := true, queue := q, qinst := s.next)
          && r.queues[q.value] == s.queues[q.value].(pending := s.queues[q.value].pending + [w]))
  }

  /** No item but `w` differs. */
  ghost predicate OnlyItem(s: Sys, r: Sys, w: nat) {
    && (forall v :: v in r.items <==> v in s.items)
    && w in s.items
    && (forall v | v in s.items && v != w :: r.items[v] == s.items[v])
  }

  /** No queue but `q` differs. */
  ghost predicate OnlyQueue(s: Sys, r: Sys, q: nat) {
    && (forall p :: p in r.queues <==> p in s.queues)
    && (forall p | p in s.queues && p != q :: r.queues[p] == s.queues[p])
  }

  lemma SubmitIs(s: Sys, w: nat, target: Option<nat>, caller: Option<nat>, q: Option<nat>)
    requires w in s.items && Meant(s.items[w], target, q)
    ensures SubmitAnswers(s, w, q, caller, SubmitCode(s, w, target, caller))
    ensures SubmitDoes(s, w, q, SubmitCode(s, w, target, caller), DoSubmit(s, w, target, caller))
  {
  }

  /** An idle item is always accepted by a queue that is open. */
  lemma OpenQueueAccepts(s: Sys, w: nat, q: nat, caller: Option<nat>)
    requires w in s.items && !Busy(s.items[w]) && q in s.queues
    requires s.queues[q].started && !s.queues[q].draining && !s.queues[q].plugged
    ensures SubmitCode(s, w, Some(q), caller) == 1
    ensures w in DoSubmit(s, w, Some(q), caller).queues[q].pending
  {
    SubmitIs(s, w, Some(q), caller, Some(q));
  }

  // ---------- What a draining or plugged queue lets in ----------

  /** An item of a user gets onto a queue only by being submitted to a queue that lets it in. */
  lemma EntersBySubmit(s: Sys, op: Op, q: nat, w: nat)
    requires Inv(s) && q in s.queues && IsUser(s, w) && w !in s.queues[q].pending
    ensures q in Step(s, op).queues
    ensures w in Step(s, op).queues[q].pending ==>
              op.Submit? && op.work == w && LetsIn(s.queues[q], op.caller == Some(q))
  {
    hide Inv, Before, NoDup, InsertBehind, Remove, DropFirst;
    match op
    case FlushWork(v, f) =>
      if Enabled(s, op) && NeedsFlush(s.items[v]) && s.items[v].queue.value in s.queues {
        Inserted(s.queues[s.items[v].queue.value].pending, v, f);
      }
    case Cancel(v) => if Enabled(s, op) { CancelShrinks(s, v, q); }
    case CancelSync(v, _) => if Enabled(s, op) { CancelShrinks(s, v, q); }
    case _ =>
  }

  lemma Inserted(s: seq<nat>, x: nat, y: nat)
    ensures forall z :: z in InsertBehind(s, x, y) <==> z in s || z == y
    ensures |InsertBehind(s, x, y)| == |s| + 1
  {
    hide Find;
    assert forall k | 0 <= k <= |s| :: s == s[..k] + s[k..];
  }

  lemma {:induction false} RemoveShrinks(s: seq<nat>, x: nat)
    ensures forall z | z in Remove(s, x) :: z in s
    ensures |Remove(s, x)| <= |s|
  {
    hide Find;
    RemoveFound(s, x);
  }

  lemma CancelShrinks(s: Sys, v: nat, q: nat)
    requires v in s.items && q in s.queues
    ensures var r := DoCancel(s, v);
            && q in r.queues && (forall z | z in r.queues[q].pending :: z in s.queues[q].pending)
            && |r.queues[q].pending| <= |s.queues[q].pending|
            && r.queues[q] == s.queues[q].(pending := r.queues[q].pending)
  {
    hide Remove;
    RemoveShrinks(s.queues[q].pending, v);
  }

  /** Over every run in which a plugged queue is neither unplugged nor drained, no item of a
      user gets onto it. */
  lemma {:induction false} PluggedKeepsOut(s: Sys, ops: seq<Op>, q: nat, w: nat)
    requires Inv(s) && q in s.queues && s.queues[q].plugged && !s.queues[q].draining
    requires forall op | op in ops :: op != Unplug(q) && !(op.Drain? && op.queue == q)
    requires IsUser(s, w) && w !in s.queues[q].pending
    ensures q in Run(s, ops).queues && w !in Run(s, ops).queues[q].pending
    decreases |ops|
  {
    hide Inv, Step;
    if ops != [] {
      assert ops[0] in ops && forall op | op in ops[1..] :: op in ops;
      StepKeeps(s, ops[0]);
      EntersBySubmit(s, ops[0], q, w);
      StaysPlugged(s, ops[0], q);
      StaysUser(s, ops[0], w);
      PluggedKeepsOut(Step(s, ops[0]), ops[1..], q, w);
    }
  }

  lemma StaysPlugged(s: Sys, op: Op, q: nat)
    requires q in s.queues && op != Unplug(q) && !(op.Drain? && op.queue == q)
    ensures var r := Step(s, op);
            q in r.queues && r.queues[q].plugged == s.queues[q].plugged
            && (!s.queues[q].draining ==> !r.queues[q].draining)
  {
    hide InsertBehind, Remove, DropFirst, DoCancel;
    match op
    case Cancel(v) => if Enabled(s, op) { CancelShrinks(s, v, q); }
    case CancelSync(v, _) => if Enabled(s, op) { CancelShrinks(s, v, q); }
    case _ =>
  }

  lemma StaysUser(s: Sys, op: Op, w: nat)
    requires IsUser(s, w)
    ensures IsUser(Step(s, op), w)
  {
    hide InsertBehind, Remove, DropFirst;
  }

  // ---------- The queue thread ----------

  /** The queue thread takes the item that has waited longest; an empty queue is drained. */
  lemma TakeIs(s: Sys, q: nat)
    requires Enabled(s, Take(q))
    ensures var r := Step(s, Take(q)); var k := s.queues[q];
            && OnlyQueue(s, r, q) && q in r.queues
            && r.flushes == s.flushes && r.cancels == s.cancels && r.over == s.over && r.next == s.next
            && r.queues[q].started == k.started && r.queues[q].plugged == k.plugged
            && (k.pending == [] ==> r.items == s.items && r.queues[q] == k.(draining := false))
            && (k.pending != [] ==>
                  && OnlyItem(s, r, k.pending[0]) && r.queues[q].draining == k.draining && r.queues[q].busy
                  && r.queues[q].current.Some? && [r.queues[q].current.value] + r.queues[q].pending == k.pending
                  && var i := s.items[k.pending[0]];
                     r.items[k.pending[0]] == i.(queued := false, running := true, rinst := i.qinst))
  {
  }

  /** When the handler returns, its item is neither running nor being cancelled; it is still
      queued if it was submitted meanwhile. A flusher releases its flush, and a cancellation
      releases the canceller that has waited longest. */
  lemma FinishIs(s: Sys, q: nat)
    requires Inv(s) && Enabled(s, Finish(q))
    ensures var r := Step(s, Finish(q)); var w := s.queues[q].current.value; var i := s.items[w];
            && OnlyQueue(s, r, q) && OnlyItem(s, r, w) && r.next == s.next
            && r.queues[q] == s.queues[q].(current := None, busy := false)
            && r.items[w] == Item(i.queued, false, false, false, i.queue, i.qinst, i.rinst)
            && (w in s.flushes ==>
                  && r.over == s.over && r.cancels == s.cancels
                  && r.flushes == s.flushes[w := s.flushes[w].(released := true)])
            && (w !in s.flushes ==> r.flushes == s.flushes && r.over == s.over + {i.rinst})
            && (!i.canceling ==> r.cancels == s.cancels)
  {
    var w := s.queues[q].current.value;
    assert QueueOk(s, q);
    if w in s.flushes {
      assert FlushOk(s, w);
    } else {
      assert ItemOk(s, w);
    }
  }

  lemma {:induction false} FinishReleasesFirst(s: Sys, q: nat, k: nat)
    requires Inv(s) && Enabled(s, Finish(q)) && s.items[s.queues[q].current.value].canceling
    requires k <= |s.cancels| && forall j | 0 <= j < k :: s.cancels[j].work != s.queues[q].current.value
    requires k < |s.cancels| ==> s.cancels[k].work == s.queues[q].current.value
    ensures Step(s, Finish(q)).cancels ==
              if k < |s.cancels| then s.cancels[..k] + s.cancels[k + 1..] else s.cancels
  {
    DropsAt(s.cancels, s.queues[q].current.value, k);
  }

  lemma {:induction false} DropsAt(cs: seq<Canceller>, w: nat, k: nat)
    requires k <= |cs| && (forall j | 0 <= j < k :: cs[j].work != w) && (k < |cs| ==> cs[k].work == w)
    ensures DropFirst(cs, w) == if k < |cs| then cs[..k] + cs[k + 1..] else cs
  {
    if k > 0 {
      DropsAt(cs[1..], w, k - 1);
      if k < |cs| { CutCons(cs, k); }
      assert cs == [cs[0]] + cs[1..];
    } else if cs != [] {
      assert cs[..0] + cs[1..] == cs[1..];
    }
  }

  // ---------- Cancellation ----------

  /** A cancelled item is on no queue. If it is running it is being cancelled, otherwise it is
      idle; nothing else changes but the place it leaves. */
  lemma CancelIs(s: Sys, w: nat)
    requires Inv(s) && IsUser(s, w)
    ensures var i := s.items[w]; var items := s.items[w := i.(queued := false, canceling := i.running)];
            && (!i.queued ==> Step(s, Cancel(w)) == s.(items := items))
            && (i.queued ==>
                  && i.queue.Some? && i.queue.value in s.queues
                  && var k := s.queues[i.queue.value]; var at := Find(k.pending, w);
                     && at < |k.pending|
                     && var pending := k.pending[..at] + k.pending[at + 1..];
                        Step(s, Cancel(w)) == s.(items := items, over := s.over + {i.qinst},
                                                 queues := s.queues[i.queue.value := k.(pending := pending)]))
  {
    hide Inv, Find, Remove, Dequeue;
    ItemIs(s, w);
    DequeueIs(s, w);
    var i := s.items[w];
    if i.queued {
      RemoveFound(s.queues[i.queue.value].pending, w);
      assert s.items[w := i.(queued := false)][w := i.(queued := false, canceling := true)]
          == s.items[w := i.(queued := false, canceling := true)];
    } else {
      assert s.items[w := i] == s.items;
    }
  }

  lemma DequeueIs(s: Sys, w: nat)
    requires w in s.items && (s.items[w].queued ==> s.items[w].queue.Some? && s.items[w].queue.value in s.queues)
    ensures var i := s.items[w];
            Dequeue(s, w) == if !i.queued then s
                             else s.(items := s.items[w := i.(queued := false)], over := s.over + {i.qinst},
                                     queues := s.queues[i.queue.value := s.queues[i.queue.value].(
                                       pending := Remove(s.queues[i.queue.value].pending, w))])
  {
    hide Remove;
  }

  /** A waiting cancellation cancels, and waits, last in line, exactly if the item is running. */
  lemma CancelSyncIs(s: Sys, w: nat, c: nat)
    requires Inv(s) && IsUser(s, w)
    ensures var r := Step(s, CancelSync(w, c));
            r == Step(s, Cancel(w)).(cancels := s.cancels + if s.items[w].running then [Canceller(c, w)] else [])
  {
    hide Inv, Find, Dequeue;
    ItemIs(s, w);
    CancelIs(s, w);
    DequeueIs(s, w);
    assert s.cancels + [] == s.cancels;
  }

  // ---------- Flush ----------

  /** A flush of an item that is queued or running puts its flusher directly behind the item,
      or in front if the item is not queued; of an idle item it does nothing. */
  lemma FlushIs(s: Sys, w: nat, f: nat)
    requires Inv(s) && Enabled(s, FlushWork(w, f))
    ensures var r := Step(s, FlushWork(w, f)); var i := s.items[w];
            && (!i.queued && !i.running ==> r == s)
            && (i.queued || i.running ==>
                  && i.queue.Some? && i.queue.value in s.queues && OnlyQueue(s, r, i.queue.value)
                  && r.cancels == s.cancels && r.over == s.over && r.next == s.next
                  && r.items == s.items[f := Item(false, false, false, true, None, 0, 0)]
                  && f in r.flushes && r.flushes == s.flushes[f := r.flushes[f]]
                  && r.flushes[f].work == w && r.flushes[f].queue == i.queue.value && !r.flushes[f].released
                  && (forall inst :: inst in r.flushes[f].waits <==>
                                       (i.queued && inst == i.qinst) || (i.running && inst == i.rinst))
                  && var k := s.queues[i.queue.value]; var at := if i.queued then Find(k.pending, w) + 1 else 0;
                     && at <= |k.pending|
                     && r.queues[i.queue.value] == k.(pending := k.pending[..at] + [f] + k.pending[at..]))
  {
    hide Find;
    assert ItemOk(s, w);
    if s.items[w].queued || s.items[w].running {
      var q := s.items[w].queue.value;
      if !s.items[w].queued { NotPending(s, q, w); }
      assert [] + [f] == [f];
    }
  }

  lemma NotPending(s: Sys, q: nat, w: nat)
    requires Inv(s) && IsUser(s, w) && !s.items[w].queued && q in s.queues
    ensures w !in s.queues[q].pending
  {
    assert QueueOk(s, q) && (w in s.queues[q].pending ==> PendingOk(s, q, w));
  }

  // ---------- Drain ----------

  /** A drain of a queue that has nothing to do is over at once, unless it plugs the queue. */
  lemma DrainIs(s: Sys, q: nat, plug: bool)
    requires q in s.queues
    ensures var r := Step(s, Drain(q, plug)); var k := s.queues[q];
            && r == s.(queues := r.queues) && OnlyQueue(s, r, q) && q in r.queues
            && r.queues[q] == k.(draining := r.queues[q].draining, plugged := r.queues[q].plugged)
            && (r.queues[q].plugged <==> k.plugged || plug)
            && (!r.queues[q].draining <==> !k.draining && !plug && !k.busy && k.pending == [])
  {
  }

  lemma UnplugIs(s: Sys, q: nat)
    requires q in s.queues
    ensures var r := Step(s, Unplug(q));
            && r == s.(queues := r.queues) && OnlyQueue(s, r, q) && q in r.queues
            && r.queues[q] == s.queues[q].(plugged := false)
  {
  }

  /** An instance of item `w` that is queued or running on queue `q`. */
  ghost predicate On(s: Sys, q: nat, w: nat, inst: nat) {
    && IsUser(s, w) && s.items[w].queue == Some(q)
    && ((s.items[w].queued && s.items[w].qinst == inst) || (s.items[w].running && s.items[w].rinst == inst))
  }

  /** An instance stays on its queue until it is over, and over it stays. */
  lemma InstanceStays(s: Sys, op: Op, q: nat, w: nat, inst: nat)
    requires Inv(s) && (On(s, q, w, inst) || inst in s.over)
    ensures On(Step(s, op), q, w, inst) || inst in Step(s, op).over
  {
    hide Inv, Find, Before, NoDup, InsertBehind, Remove, DropFirst, DoCancel;
    if inst in s.over {
      OverStays(s, op, inst);
    } else if Enabled(s, op) {
      ItemIs(s, w);
      match op
      case Take(p) => HeadIs(s, p);
      case Finish(p) => HeadIs(s, p);
      case Cancel(v) => CancelIs(s, v);
      case CancelSync(v, c) => CancelSyncIs(s, v, c); CancelIs(s, v);
      case _ =>
    }
  }

  /** What a queue knows of the item it takes next, and of the one it handles. */
  lemma HeadIs(s: Sys, q: nat)
    requires Inv(s) && q in s.queues
    ensures s.queues[q].pending != [] ==> PendingOk(s, q, s.queues[q].pending[0])
    ensures s.queues[q].current.Some? ==> s.queues[q].current.value in s.items
  {
    assert QueueOk(s, q);
    assert s.queues[q].pending != [] ==> s.queues[q].pending[0] in s.queues[q].pending;
  }

  /** Only an empty queue stops draining. */
  lemma StopsEmpty(s: Sys, op: Op, q: nat)
    requires q in s.queues && s.queues[q].draining
    ensures var r := Step(s, op);
            q in r.queues && (!r.queues[q].draining ==> r.queues[q].pending == [] && r.queues[q].current.None?)
  {
    hide InsertBehind, Remove, DropFirst, DoCancel;
    match op
    case Cancel(v) => if Enabled(s, op) { CancelShrinks(s, v, q); }
    case CancelSync(v, _) => if Enabled(s, op) { CancelShrinks(s, v, q); }
    case _ =>
  }

  lemma NothingOn(s: Sys, q: nat, w: nat, inst: nat)
    requires Inv(s) && q in s.queues && s.queues[q].pending == [] && s.queues[q].current.None?
    ensures !On(s, q, w, inst)
  {
    assert IsUser(s, w) ==> ItemOk(s, w);
  }

  lemma {:induction false} DrainedIsDone(s: Sys, ops: seq<Op>, q: nat, w: nat, inst: nat)
    requires Inv(s) && q in s.queues && (s.queues[q].draining || inst in s.over)
    requires On(s, q, w, inst) || inst in s.over
    ensures q in Run(s, ops).queues
    ensures !Run(s, ops).queues[q].draining ==> inst in Run(s, ops).over
    decreases |ops|
  {
    hide Inv, Step, On;
    if ops != [] {
      var r := Step(s, ops[0]);
      StepKeeps(s, ops[0]);
      InstanceStays(s, ops[0], q, w, inst);
      QueueStays(s, ops[0], q);
      if s.queues[q].draining && !r.queues[q].draining {
        StopsEmpty(s, ops[0], q);
        NothingOn(r, q, w, inst);
      } else if inst in s.over {
        OverStays(s, ops[0], inst);
      }
      DrainedIsDone(r, ops[1..], q, w, inst);
    }
  }

  lemma QueueStays(s: Sys, op: Op, q: nat)
    requires q in s.queues
    ensures q in Step(s, op).queues
  {
    hide InsertBehind, Remove, DropFirst;
  }

  lemma OverStays(s: Sys, op: Op, inst: nat)
    requires inst in s.over
    ensures inst in Step(s, op).over
  {
    hide InsertBehind, Remove, DropFirst;
  }

  /** Whatever happens before and after it: when a queue no longer drains, every instance that
      was queued or running on it when the drain was asked for has finished or been cancelled. */
  lemma DrainIsHonoured(before: seq<Op>, q: nat, plug: bool, after: seq<Op>, w: nat, inst: nat)
    requires q in Run(BOOT, before).queues && On(Run(BOOT, before), q, w, inst)
    ensures var t := Run(Step(Run(BOOT, before), Drain(q, plug)), after);
            && q in t.queues && (!t.queues[q].draining ==> inst in t.over)
  {
    hide Inv, Run;
    BootOk();
    RunKeeps(BOOT, before);
    var s := Run(BOOT, before);
    StepKeeps(s, Drain(q, plug));
    BusyOn(s, q, w, inst);
    DrainedIsDone(Step(s, Drain(q, plug)), after, q, w, inst);
  }

  lemma BusyOn(s: Sys, q: nat, w: nat, inst: nat)
    requires Inv(s) && q in s.queues && On(s, q, w, inst)
    ensures s.queues[q].busy || s.queues[q].pending != []
  {
    assert ItemOk(s, w) && QueueOk(s, q);
  }

  // ---------- A drain ends ----------

  /** The turns a queue needs to be drained: two for each entry, one for the item being
      handled, and one to find the queue empty. */
  function DrainTurns(k: Queue): nat { 2 * |k.pending| + (if k.current.Some? then 1 else 0) + 1 }

  /** The calls in a run that may add to a draining queue: flushes, and submissions by the
      queue's own thread. */
  function Arrivals(ops: seq<Op>, q: nat): nat {
    if ops == [] then 0
    else (if ops[0].FlushWork? || (ops[0].Submit? && ops[0].caller == Some(q)) then 1 else 0) + Arrivals(ops[1..], q)
  }

  /** A draining queue can always take its next turn. */
  lemma DrainCanGoOn(s: Sys, q: nat)
    requires Inv(s) && q in s.queues
    ensures Enabled(s, Take(q)) || Enabled(s, Finish(q))
  {
    hide NoDup, Before;
    assert QueueOk(s, q);
    if s.queues[q].current.None? && s.queues[q].pending != [] {
      assert PendingOk(s, q, s.queues[q].pending[0]);
    }
  }

  lemma FlushGrows(s: Sys, v: nat, f: nat, q: nat)
    requires v in s.items && q in s.queues
    ensures var r := DoFlush(s, v, f);
            && q in r.queues && r.queues[q] == s.queues[q].(pending := r.queues[q].pending)
            && |r.queues[q].pending| <= |s.queues[q].pending| + 1
  {
    hide InsertBehind;
    if NeedsFlush(s.items[v]) && s.items[v].queue.value in s.queues {
      Inserted(s.queues[s.items[v].queue.value].pending, v, f);
    }
  }

  lemma SubmitGrows(s: Sys, w: nat, target: Option<nat>, caller: Option<nat>, q: nat)
    requires w in s.items && q in s.queues && s.queues[q].draining
    ensures var r := DoSubmit(s, w, target, caller);
            && q in r.queues && r.queues[q] == s.queues[q].(pending := r.queues[q].pending)
            && |r.queues[q].pending| <= |s.queues[q].pending| + (if caller == Some(q) then 1 else 0)
  {
  }

  lemma TurnsShrink(s: Sys, op: Op, q: nat)
    requires Inv(s) && q in s.queues && s.queues[q].draining
    ensures var r := Step(s, op);
            && q in r.queues
            && (r.queues[q].draining ==>
                  DrainTurns(r.queues[q]) + (if OwnTurn(s, op, q) then 1 else 0)
                  <= DrainTurns(s.queues[q]) + 2 * Arrivals([op], q))
  {
    hide Inv, DropFirst, DoCancel, DoFlush, DoSubmit;
    assert [op][1..] == [];
    match op
    case FlushWork(v, f) => if Enabled(s, op) { FlushGrows(s, v, f, q); }
    case Submit(w, target, caller) => if Enabled(s, op) { SubmitGrows(s, w, target, caller, q); }
    case Cancel(v) => if Enabled(s, op) { CancelShrinks(s, v, q); }
    case CancelSync(v, _) => if Enabled(s, op) { CancelShrinks(s, v, q); }
    case _ =>
  }

  /** A draining queue that takes the turns it needs, and two more for every arrival, has
      been drained after some part of the run. */
  lemma {:induction false} DrainEnds(s: Sys, ops: seq<Op>, q: nat) returns (k: nat)
    requires Inv(s) && q in s.queues
    requires s.queues[q].draining ==> OwnTurns(s, ops, q) >= DrainTurns(s.queues[q]) + 2 * Arrivals(ops, q)
    ensures k <= |ops| && q in Run(s, ops[..k]).queues && !Run(s, ops[..k]).queues[q].draining
    decreases |ops|
  {
    hide Inv, Step, DrainTurns, OwnTurn;
    if !s.queues[q].draining {
      assert ops[..0] == [];
      k := 0;
    } else {
      SomeTurns(s.queues[q]);
      StepKeeps(s, ops[0]);
      TurnsShrink(s, ops[0], q);
      ArrivalsOne(ops, q);
      var k' := DrainEnds(Step(s, ops[0]), ops[1..], q);
      k := k' + 1;
      assert ops[..k][0] == ops[0] && ops[..k][1..] == ops[1..][..k'];
    }
  }

  lemma SomeTurns(k: Queue)
    ensures DrainTurns(k) > 0
  {
  }

  lemma ArrivalsOne(ops: seq<Op>, q: nat)
    requires ops != []
    ensures Arrivals(ops, q) == Arrivals([ops[0]], q) + Arrivals(ops[1..], q)
  {
    assert [ops[0]][1..] == [];
  }

  // ---------- Every accepted submission is over exactly once ----------

  /** Instance `inst` of item `w` is queued or running. */
  ghost predicate Holds(s: Sys, w: nat, inst: nat) {
    IsUser(s, w) &&
    ((s.items[w].queued && s.items[w].qinst == inst) || (s.items[w].running && s.items[w].rinst == inst))
  }

  /** Each instance is either over or held, by one item, in one way. */
  ghost predicate Exact(s: Sys) {
    && (forall inst: nat | inst in s.over :: inst < s.next)
    && (forall w: nat, inst: nat | Holds(s, w, inst) :: inst < s.next && inst !in s.over)
    && (forall v: nat, w: nat, inst: nat | Holds(s, v, inst) && Holds(s, w, inst) :: v == w)
    && (forall w | IsUser(s, w) && s.items[w].queued && s.items[w].running :: s.items[w].qinst != s.items[w].rinst)
    && (forall inst: nat | inst < s.next && inst !in s.over :: exists w :: Holds(s, w, inst))
  }

  /** The same instances are held. */
  lemma SameHolds(s: Sys, r: Sys)
    requires Exact(s) && r.next == s.next && r.over == s.over
    requires forall w: nat, inst: nat :: Holds(r, w, inst) <==> Holds(s, w, inst)
    requires forall w | IsUser(r, w) && r.items[w].queued && r.items[w].running ::
               r.items[w].qinst != r.items[w].rinst
    ensures Exact(r)
  {
    forall inst: nat | inst < r.next && inst !in r.over ensures exists w :: Holds(r, w, inst) {
      var w :| Holds(s, w, inst);
      assert Holds(r, w, inst);
    }
  }

  lemma SubmitExact(s: Sys, w: nat, target: Option<nat>, caller: Option<nat>)
    requires Exact(s) && IsUser(s, w)
    ensures Exact(DoSubmit(s, w, target, caller))
  {
    var r := DoSubmit(s, w, target, caller);
    if SubmitCode(s, w, target, caller) > 0 {
      assert s.items[w].running ==> Holds(s, w, s.items[w].rinst);
      assert forall v: nat, inst: nat :: Holds(r, v, inst) <==> Holds(s, v, inst) || (v == w && inst == s.next);
      forall inst: nat | inst < r.next && inst !in r.over ensures exists v :: Holds(r, v, inst) {
        if inst == s.next {
          assert Holds(r, w, inst);
        } else {
          var v :| Holds(s, v, inst);
          assert Holds(r, v, inst);
        }
      }
    }
  }

  /** One held instance is over. */
  lemma OverExact(s: Sys, r: Sys, w: nat, gone: nat)
    requires Exact(s) && r.next == s.next && r.over == s.over + {gone}
    requires OnlyItem(s, r, w) && r.flushes == s.flushes && Holds(s, w, gone)
    requires forall inst: nat :: Holds(r, w, inst) <==> Holds(s, w, inst) && inst != gone
    requires !r.items[w].queued || !r.items[w].running
    ensures Exact(r)
  {
    assert forall v: nat, inst: nat | v != w :: Holds(r, v, inst) <==> Holds(s, v, inst);
    forall inst: nat | inst < r.next && inst !in r.over ensures exists v: nat :: Holds(r, v, inst) {
      var v :| Holds(s, v, inst);
      assert Holds(r, v, inst);
    }
  }

  lemma CancelExact(s: Sys, w: nat)
    requires Inv(s) && Exact(s) && IsUser(s, w)
    ensures Exact(DoCancel(s, w))
  {
    hide Find, Exact;
    CancelIs(s, w);
    var r := DoCancel(s, w);
    ExactParts(s, w);
    if s.items[w].queued {
      OverExact(s, r, w, s.items[w].qinst);
    } else {
      assert r.over == s.over;
      SameHolds(s, r);
    }
  }

  lemma ExactParts(s: Sys, w: nat)
    requires Exact(s) && IsUser(s, w)
    ensures s.items[w].queued && s.items[w].running ==> s.items[w].qinst != s.items[w].rinst
    ensures forall v | IsUser(s, v) && s.items[v].queued && s.items[v].running :: s.items[v].qinst != s.items[v].rinst
  {
  }

  lemma TakeExact(s: Sys, q: nat)
    requires Inv(s) && Exact(s) && Enabled(s, Take(q))
    ensures Exact(DoTake(s, q))
  {
    hide Exact;
    var r := DoTake(s, q);
    if s.queues[q].pending != [] {
      var w := s.queues[q].pending[0];
      assert QueueOk(s, q) && PendingOk(s, q, w);
      if w !in s.flushes {
        assert ItemOk(s, w);
        ExactParts(s, w);
      } else {
        ExactOthers(s);
      }
    } else {
      ExactOthers(s);
    }
    SameHolds(s, r);
  }

  lemma ExactOthers(s: Sys)
    requires Exact(s)
    ensures forall v | IsUser(s, v) && s.items[v].queued && s.items[v].running :: s.items[v].qinst != s.items[v].rinst
  {
  }

  lemma FinishExact(s: Sys, q: nat)
    requires Inv(s) && Exact(s) && Enabled(s, Finish(q))
    ensures Exact(DoFinish(s, q))
  {
    hide Exact, DropFirst;
    var r := DoFinish(s, q);
    var w := s.queues[q].current.value;
    assert QueueOk(s, q);
    ExactOthers(s);
    if w in s.flushes {
      SameHolds(s, r);
    } else {
      OverExact(s, r, w, s.items[w].rinst);
    }
  }

  lemma StepExact(s: Sys, op: Op)
    requires Inv(s) && Exact(s)
    ensures Exact(Step(s, op))
  {
    hide Inv, Exact, Holds, DoSubmit, DoFlush, DoTake, DoFinish, DoCancel;
    if Enabled(s, op) {
      match op
      case Submit(w, target, caller) => SubmitExact(s, w, target, caller);
      case FlushWork(w, f) => FlushExact(s, w, f);
      case Cancel(w) => CancelExact(s, w);
      case CancelSync(w, c) =>
        CancelExact(s, w);
        CancelsExact(DoCancel(s, w), DoCancel(s, w).cancels + [Canceller(c, w)]);
      case Take(q) => TakeExact(s, q);
      case Finish(q) => FinishExact(s, q);
      case NewItem(w) => NewExact(s, w);
      case _ => QueuesExact(s, Step(s, op).queues);
    }
  }

  lemma FlushExact(s: Sys, w: nat, f: nat)
    requires Exact(s) && IsUser(s, w) && f !in s.items
    ensures Exact(DoFlush(s, w, f))
  {
    hide Exact, InsertBehind;
    ExactOthers(s);
    SameHolds(s, DoFlush(s, w, f));
  }

  lemma NewExact(s: Sys, w: nat)
    requires Exact(s) && w !in s.items
    ensures Exact(Step(s, NewItem(w)))
  {
    hide Exact;
    ExactOthers(s);
    SameHolds(s, Step(s, NewItem(w)));
  }

  lemma CancelsExact(s: Sys, cancels: seq<Canceller>)
    requires Exact(s)
    ensures Exact(s.(cancels := cancels))
  {
    hide Exact;
    ExactOthers(s);
    SameHolds(s, s.(cancels := cancels));
  }

  lemma QueuesExact(s: Sys, queues: map<nat, Queue>)
    requires Exact(s)
    ensures Exact(s.(queues := queues))
  {
    hide Exact;
    ExactOthers(s);
    SameHolds(s, s.(queues := queues));
  }

  /** Over every run each accepted submission is queued or running, as one instance of one
      item, or it is over: none is lost, none is handled twice, none comes back. */
  lemma {:induction false} EverySubmissionOnce(s: Sys, ops: seq<Op>)
    requires Inv(s) && Exact(s)
    ensures Exact(Run(s, ops))
    decreases |ops|
  {
    hide Inv, Exact, Step;
    if ops != [] {
      StepKeeps(s, ops[0]);
      StepExact(s, ops[0]);
      EverySubmissionOnce(Step(s, ops[0]), ops[1..]);
    }
  }

  lemma BootIsExact()
    ensures Exact(BOOT)
  {
  }
}
