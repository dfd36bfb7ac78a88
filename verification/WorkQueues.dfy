/**
  The work module's locked sections as they update their fields, each proved to be the
  step of `WorkSpec` it stands for.
 */
module WorkQueues {
  import opened Common
  import opened WorkLaws
  import opened WorkSpec

  class System {
    var items: map<nat, Item>
    var queues: map<nat, Queue>
    var flushes: map<nat, Flush>
    var cancels: seq<Canceller>
    var next: nat
    ghost var over: set<nat>

    ghost function State(): Sys
      reads this
    {
      Sys(items, queues, flushes, cancels, next, over)
    }

    constructor ()
      ensures State() == BOOT && Valid()
    {
      items, queues, flushes, cancels := map[], map[], map[], [];
      next, over := 0, {};
    }

    ghost predicate Valid()
      reads this
    {
      Inv(State())
    }

    /** `k_work_init` */
    method InitItem(work: nat)
      requires work !in items
      modifies this`items
      ensures State() == Step(old(State()), NewItem(work))
    {
      items := items[work := Item(false, false, false, false, None, 0, 0)];
    }

    /** `k_work_queue_start` */
    method QueueStart(queue: nat)
      requires queue !in queues
      modifies this`queues
      ensures State() == Step(old(State()), StartQueue(queue))
    {
      queues := queues[queue := Queue([], None, true, false, false, false)];
    }

    /** `k_work_queue_drain` up to the wait for the queue to become idle. */
    method QueueDrain(queue: nat, plug: bool) returns (waits: bool)
      requires queue in queues
      modifies this`queues
      ensures State() == DoDrain(old(State()), queue, plug)
      ensures waits <==> plug || var q := old(queues)[queue]; q.busy || q.draining || q.pending != []
    {
      var q := queues[queue];
      waits := q.busy || q.draining || plug || q.pending != [];
      if waits {
        q := q.(draining := true);
        if plug {
          q := q.(plugged := true);
        }
        queues := queues[queue := q];
      }
    }

    /** `k_work_queue_unplug` */
    method QueueUnplug(queue: nat) returns (ret: int)
      requires queue in queues
      modifies this`queues
      ensures State() == Step(old(State()), Unplug(queue))
      ensures ret == if old(queues)[queue].plugged then 0 else -EALREADY
    {
      ret := -EALREADY;
      if queues[queue].plugged {
        ret := 0;
      }
      queues := queues[queue := queues[queue].(plugged := false)];
    }

    /** `queue_submit_locked` */
    method QueueSubmit(queue: Option<nat>, work: nat, caller: Option<nat>) returns (ret: int)
      modifies this`queues
      ensures ret == -EINVAL <==> queue.None? || queue.value !in old(queues)
      ensures queue.Some? && queue.value in old(queues) ==>
                var q := old(queues)[queue.value];
                && (ret == -ENODEV <==> !q.started)
                && (ret == -EBUSY <==> q.started && !LetsIn(q, caller == queue))
                && (ret == 1 <==> LetsIn(q, caller == queue))
      ensures ret in {-EINVAL, -ENODEV, -EBUSY, 1}
      ensures ret < 0 ==> queues == old(queues)
      ensures ret >= 0 ==> ret == 1 && var q := old(queues)[queue.value];
        queues == old(queues)[queue.value := q.(pending := q.pending + [work])]
    {
      if queue.None? || queue.value !in queues { return -EINVAL; }
      var q := queues[queue.value];
      var chained := caller == queue;
      if !q.started {
        ret := -ENODEV;
      } else if q.draining && !chained {
        ret := -EBUSY;
      } else if q.plugged && !q.draining {
        ret := -EBUSY;
      } else {
        queues := queues[queue.value := q.(pending := q.pending + [work])];
        ret := 1;
      }
    }

    /** `submit_to_queue_locked` */
    method SubmitToQueue(work: nat, target: Option<nat>, caller: Option<nat>) returns (ret: int)
      requires work in items
      modifies this`items, this`queues, this`next
      ensures ret == SubmitCode(old(State()), work, target, caller)
      ensures State() == DoSubmit(old(State()), work, target, caller)
      ensures forall q | Meant(old(items)[work], target, q) ::
                && SubmitAnswers(old(State()), work, q, caller, ret)
                && SubmitDoes(old(State()), work, q, ret, State())
    {
      forall q | Meant(items[work], target, q)
        ensures SubmitAnswers(State(), work, q, caller, SubmitCode(State(), work, target, caller))
        ensures SubmitDoes(State(), work, q, SubmitCode(State(), work, target, caller),
                           DoSubmit(State(), work, target, caller))
      {
        SubmitIs(State(), work, target, caller, q);
      }
      ret := 0;
      if items[work].canceling {
        ret := -EBUSY;
      } else if !items[work].queued {
        ret := 1;
        var queue := target;
        if queue.None? { queue := items[work].queue; }
        if items[work].running {
          queue := items[work].queue;
          ret := 2;
        }
        var rc := QueueSubmit(queue, work, caller);
        if rc < 0 {
          ret := rc;
        } else {
          items := items[work := items[work].(queued := true, queue := queue, qinst := next)];
          next := next + 1;
        }
      }
    }

    /** `queue_flusher_locked`: behind the item if the list still holds it, else in front. */
    method QueueFlusher(queue: nat, work: nat, flusher: nat)
      requires queue in queues && work in items
      modifies this`items, this`queues, this`flushes
      ensures items == old(items)[flusher := Item(false, false, false, true, None, 0, 0)]
      ensures queues == old(queues)[queue := old(queues)[queue].(
                pending := InsertBehind(old(queues)[queue].pending, work, flusher))]
      ensures flushes == old(flushes)[flusher := Flush(work, queue, WaitsFor(old(items)[work]), false)]
    {
      hide InsertBehind;
      var list := queues[queue].pending;
      var i := 0;
      while i < |list| && list[i] != work
        invariant i <= |list| && work !in list[..i]
      {
        i := i + 1;
      }
      PlacedAt(list, work, flusher, i);
      flushes := flushes[flusher := Flush(work, queue, WaitsFor(items[work]), false)];
      items := items[flusher := Item(false, false, false, true, None, 0, 0)];
      var list' := if i < |list| then list[..i + 1] + [flusher] + list[i + 1..] else [flusher] + list;
      queues := queues[queue := queues[queue].(pending := list')];
    }

    /** `k_work_flush` up to the wait for the flusher's semaphore. */
    method FlushItem(work: nat, flusher: nat) returns (needFlush: bool)
      requires work in items && (NeedsFlush(items[work]) ==> items[work].queue.value in queues)
      modifies this`items, this`queues, this`flushes
      ensures needFlush == NeedsFlush(old(items)[work])
      ensures State() == DoFlush(old(State()), work, flusher)
    {
      needFlush := (items[work].queued || items[work].running) && items[work].queue.Some?;
      if needFlush {
        QueueFlusher(items[work].queue.value, work, flusher);
      }
    }

    /** `sys_slist_find_and_remove` */
    method FindAndRemove(list: seq<nat>, work: nat) returns (r: seq<nat>)
      ensures r == Remove(list, work)
    {
      var i := 0;
      while i < |list| && list[i] != work
        invariant i <= |list| && work !in list[..i]
      {
        i := i + 1;
      }
      FoundAt(list, work, i);
      RemoveFound(list, work);
      r := if i < |list| then list[..i] + list[i + 1..] else list;
    }

    /** `queue_remove_locked` */
    method QueueRemove(work: nat)
      requires work in items
      modifies this`items, this`queues, this`over
      ensures State() == Dequeue(old(State()), work)
    {
      var i := items[work];
      if i.queued {
        items := items[work := i.(queued := false)];
        over := over + {i.qinst};
        if i.queue.Some? && i.queue.value in queues {
          var q := queues[i.queue.value];
          var list := FindAndRemove(q.pending, work);
          queues := queues[i.queue.value := q.(pending := list)];
        }
      }
    }

    /** `cancel_async_locked`: false means the item is idle. */
    method CancelAsync(work: nat) returns (busy: bool)
      requires work in items
      modifies this`items, this`queues, this`over
      ensures State() == DoCancel(old(State()), work) && work in items && busy == Busy(items[work])
    {
      if !items[work].canceling {
        QueueRemove(work);
      }
      busy := Busy(items[work]);
      if busy {
        items := items[work := items[work].(canceling := true)];
      }
    }

    /** `k_work_cancel_sync` up to the wait for the canceller's semaphore. */
    method CancelAndWait(work: nat, canceller: nat) returns (pending: bool, needWait: bool)
      requires work in items
      modifies this`items, this`queues, this`over, this`cancels
      ensures State() == DoCancelSync(old(State()), work, canceller)
      ensures pending == Busy(old(items)[work])
      ensures work in items && needWait == (pending && items[work].canceling)
    {
      pending := Busy(items[work]);
      needWait := false;
      if pending {
        var _ := CancelAsync(work);
        needWait := items[work].canceling;
        if needWait {
          cancels := cancels + [Canceller(canceller, work)];
        }
      }
    }

    /** `finalize_cancel_locked`: releases the first canceller of the item, if any. */
    method FinalizeCancel(work: nat)
      requires work in items
      modifies this`items, this`cancels
      ensures items == old(items)[work := old(items)[work].(canceling := false)]
      ensures cancels == DropFirst(old(cancels), work)
    {
      items := items[work := items[work].(canceling := false)];
      var i := 0;
      while i < |cancels|
        invariant i <= |cancels| && cancels == old(cancels)
        invariant items == old(items)[work := old(items)[work].(canceling := false)]
        invariant forall j | 0 <= j < i :: cancels[j].work != work
      {
        if cancels[i].work == work {
          DropsAt(cancels, work, i);
          cancels := cancels[..i] + cancels[i + 1..];
          return;
        }
        i := i + 1;
      }
      DropsAt(cancels, work, i);
    }

    /** The first locked section of `work_queue_main`'s loop. */
    method TakeNext(queue: nat)
      requires Enabled(State(), Take(queue))
      modifies this`items, this`queues
      ensures State() == DoTake(old(State()), queue)
    {
      var q := queues[queue];
      if q.pending != [] {
        var work := q.pending[0];
        var i := items[work];
        queues := queues[queue := q.(pending := q.pending[1..], current := Some(work), busy := true)];
        items := items[work := i.(running := true, queued := false, rinst := i.qinst)];
      } else {
        queues := queues[queue := q.(draining := false)];
      }
    }

    /** The second locked section, after the handler has returned. */
    method FinishCurrent(queue: nat)
      requires Enabled(State(), Finish(queue))
      modifies this`items, this`queues, this`flushes, this`cancels, this`over
      ensures State() == DoFinish(old(State()), queue)
    {
      var work := queues[queue].current.value;
      var i := items[work];
      if work !in flushes { over := over + {i.rinst}; }
      items := items[work := i.(running := false)];
      if i.flushing {
        items := items[work := items[work].(flushing := false)];
        if work in flushes { flushes := flushes[work := flushes[work].(released := true)]; }
      }
      if i.canceling {
        FinalizeCancel(work);
      }
      queues := queues[queue := queues[queue].(current := None, busy := false)];
      assert items == old(items)[work := i.(running := false, flushing := false, canceling := false)];
    }

    // ---------- Runs ----------

    method Perform(op: Op)
      requires Valid()
      modifies this
      ensures Valid() && State() == Step(old(State()), op)
    {
      hide Inv, DoSubmit, DoFlush, DoTake, DoFinish, DoCancel, DoCancelSync, DoDrain;
      StepKeeps(State(), op);
      if Enabled(Sys(items, queues, flushes, cancels, next, {}), op) {
        match op
        case NewItem(w) => InitItem(w);
        case StartQueue(q) => QueueStart(q);
        case Submit(w, target, caller) => var _ := SubmitToQueue(w, target, caller);
        case FlushWork(w, f) =>
          FlushTarget(State(), w);
          var _ := FlushItem(w, f);
        case Cancel(w) => var _ := CancelAsync(w);
        case CancelSync(w, c) => var _, _ := CancelAndWait(w, c);
        case Take(q) => TakeNext(q);
        case Finish(q) => FinishCurrent(q);
        case Drain(q, plug) => var _ := QueueDrain(q, plug);
        case Unplug(q) => var _ := QueueUnplug(q);
      }
    }

    /** Any interleaving of locked sections ends in the state to which `WorkSpec` runs. */
    method RunAll(ops: seq<Op>)
      requires Valid()
      modifies this
      ensures Valid() && State() == Run(old(State()), ops)
      decreases |ops|
    {
      hide Inv, Step;
      if ops != [] {
        Perform(ops[0]);
        RunAll(ops[1..]);
      }
    }
  }

  lemma FlushTarget(s: Sys, w: nat)
    requires Inv(s) && IsUser(s, w)
    ensures NeedsFlush(s.items[w]) ==> s.items[w].queue.value in s.queues
  {
    assert ItemOk(s, w);
  }

  lemma PlacedAt(s: seq<nat>, x: nat, y: nat, i: nat)
    requires i <= |s| && x !in s[..i] && (i < |s| ==> s[i] == x)
    ensures InsertBehind(s, x, y) == if i < |s| then s[..i + 1] + [y] + s[i + 1..] else [y] + s
  {
    hide Find;
    FoundAt(s, x, i);
  }

  lemma FoundAt(s: seq<nat>, x: nat, i: nat)
    requires i <= |s| && x !in s[..i] && (i < |s| ==> s[i] == x)
    ensures i < |s| ==> x in s && Find(s, x) == i
    ensures i == |s| ==> x !in s
  {
    assert i == |s| ==> s[..i] == s;
    assert forall j | 0 <= j < i :: s[..i][j] != x;
    assert forall j | 0 <= j < Find(s, x) :: s[..Find(s, x)][j] != x;
  }
}
