/**
  The kernel's timeout queue as it is stored: a list whose entries hold the ticks between
  one expiry and the next. Each operation is proved to do to the decoded schedule exactly
  what `TimeoutSpec` says.
 */
module TimeoutQueue {
  import opened TimeoutSpec

  /** `struct _timeout` while it is linked. */
  datatype Node = Node(id: Id, dticks: int)

  const EINVAL := 22
  const INT_MAX := 0x7fff_ffff

  function Sum(list: seq<Node>): int {
    if list == [] then 0 else list[0].dticks + Sum(list[1..])
  }

  /** Decodes the deltas into absolute expiry ticks. */
  function Schedule(list: seq<Node>, base: int): (s: seq<Entry>)
    ensures |s| == |list|
  {
    if list == [] then []
    else [Entry(list[0].id, base + list[0].dticks)] + Schedule(list[1..], base + list[0].dticks)
  }

  lemma {:induction false} ScheduleConcat(a: seq<Node>, b: seq<Node>, base: int)
    ensures Schedule(a + b, base) == Schedule(a, base) + Schedule(b, base + Sum(a))
  {
    if a == [] {
      assert a + b == b;
    } else {
      assert (a + b)[1..] == a[1..] + b;
      ScheduleConcat(a[1..], b, base + a[0].dticks);
    }
  }

  lemma {:induction false} SumConcat(a: seq<Node>, b: seq<Node>)
    ensures Sum(a + b) == Sum(a) + Sum(b)
  {
    if a == [] {
      assert a + b == b;
    } else {
      assert (a + b)[1..] == a[1..] + b;
      SumConcat(a[1..], b);
    }
  }

  lemma {:induction false} ScheduleAt(list: seq<Node>, base: int, i: nat)
    requires i < |list|
    ensures Schedule(list, base)[i] == Entry(list[i].id, base + Sum(list[..i + 1]))
    ensures Sum(list[..i + 1]) == Sum(list[..i]) + list[i].dticks
  {
    ScheduleConcat(list[..i], list[i..], base);
    SumConcat(list[..i], [list[i]]);
    assert list == list[..i] + list[i..];
    assert list[..i + 1] == list[..i] + [list[i]];
  }

  /** Splitting the delta at the insertion point inserts one expiry and moves no other. */
  lemma InsertDelta(list: seq<Node>, base: int, i: nat, n: Node)
    requires i < |list|
    ensures var m := list[i].(dticks := list[i].dticks - n.dticks);
      Schedule(list[..i] + [n, m] + list[i + 1..], base)
      == Schedule(list, base)[..i] + [Entry(n.id, base + Sum(list[..i]) + n.dticks)] + Schedule(list, base)[i..]
  {
    var m := list[i].(dticks := list[i].dticks - n.dticks);
    var b := base + Sum(list[..i]);
    assert list[..i] + [n, m] + list[i + 1..] == list[..i] + ([n] + ([m] + list[i + 1..]));
    ScheduleConcat(list[..i], [n] + ([m] + list[i + 1..]), base);
    ScheduleConcat(list[..i], list[i..], base);
    assert list == list[..i] + list[i..];
    var rest := [m] + list[i + 1..];
    assert ([n] + rest)[1..] == rest && rest[1..] == list[i + 1..] && list[i..][1..] == list[i + 1..];
    assert Schedule([n] + rest, b) == [Entry(n.id, b + n.dticks)] + Schedule(rest, b + n.dticks);
    assert Schedule(rest, b + n.dticks) == Schedule(list[i..], b);
  }

  /** Handing a removed entry's ticks to its successor moves no other expiry. */
  lemma RemoveDelta(list: seq<Node>, base: int, i: nat)
    requires i < |list|
    ensures Schedule(Unlink(list, i), base) == Schedule(list, base)[..i] + Schedule(list, base)[i + 1..]
  {
    var b := base + Sum(list[..i]);
    ScheduleConcat(list[..i], list[i..], base);
    assert list == list[..i] + list[i..];
    var rest := list[i + 1..];
    assert list[i..][1..] == rest;
    if rest != [] {
      var m := rest[0].(dticks := rest[0].dticks + list[i].dticks);
      assert Unlink(list, i) == list[..i] + ([m] + rest[1..]);
      ScheduleConcat(list[..i], [m] + rest[1..], base);
      assert ([m] + rest[1..])[1..] == rest[1..];
    } else {
      assert Unlink(list, i) == list[..i];
    }
  }

  lemma AddIs(c: Clock, id: Id, t: KTimeout, hw: nat)
    requires !Linked(c.sched, id)
    ensures t.Forever? ==> TimeoutSpec.AddTimeout(c, id, t, hw) == c
    ensures !t.Forever? ==>
      var e := Entry(id, c.now + if t.Abs? then Max(1, t.tick - c.now) else t.ticks + 1 + Elapsed(c, hw));
      TimeoutSpec.AddTimeout(c, id, t, hw) == c.(sched := Insert(c.sched, e), added := c.added + [e])
  {
  }

  /** Taking the head off with its own ticks added to the clock moves no other expiry. */
  lemma PopDelta(list: seq<Node>, base: int)
    requires list != []
    ensures var s := Schedule(list, base); var now := base + list[0].dticks;
      && s[0] == Entry(list[0].id, now)
      && Schedule(list[0 := list[0].(dticks := 0)], now)[1..] == s[1..]
  {
    assert list[0 := list[0].(dticks := 0)][1..] == list[1..];
  }

  lemma FireOneIs(c: Clock, cb: TimeoutSpec.Callback)
    requires Inv(c) && HasDue(c)
    ensures Inv(PopDue(c)) && InFlight(PopDue(c), c.sched[0].id)
    ensures var c1 := RunCallback(PopDue(c), c.sched[0].id, cb);
      FireOne(c, cb) == c1.(remaining := c.remaining - (c.sched[0].expiry - c.now))
  {
    PopKeeps(c);
  }

  lemma ScheduleLater(list: seq<Node>, base: int, n: int)
    ensures list == [] ==> Schedule(list, base + n) == Schedule(list, base)
    ensures list != [] ==>
              Schedule(list[0 := list[0].(dticks := list[0].dticks - n)], base + n) == Schedule(list, base)
  {
    if list != [] {
      assert list[0 := list[0].(dticks := list[0].dticks - n)][1..] == list[1..];
    }
  }

  lemma ScheduleStart(list: seq<Node>)
    ensures Sum(list[..0]) == 0
  {
  }

  lemma AddBefore(list: seq<Node>, base: int, i: nat, n: Node)
    requires i < |list| && list[i].dticks > n.dticks
    requires forall j | 0 <= j < i :: Schedule(list, base)[j].expiry <= base + Sum(list[..i]) + n.dticks
    ensures Schedule(list[..i] + [n, list[i].(dticks := list[i].dticks - n.dticks)] + list[i + 1..], base)
         == Insert(Schedule(list, base), Entry(n.id, base + Sum(list[..i]) + n.dticks))
  {
    hide Schedule, Sum, Slot;
    ScheduleAt(list, base, i);
    SlotUnique(Schedule(list, base), base + Sum(list[..i]) + n.dticks, i);
    InsertDelta(list, base, i, n);
  }

  lemma AddLast(list: seq<Node>, base: int, n: Node)
    requires forall j | 0 <= j < |list| :: Schedule(list, base)[j].expiry <= base + Sum(list) + n.dticks
    ensures Schedule(list + [n], base) == Insert(Schedule(list, base), Entry(n.id, base + Sum(list) + n.dticks))
  {
    SlotUnique(Schedule(list, base), base + Sum(list) + n.dticks, |list|);
    ScheduleConcat(list, [n], base);
  }

  function Unlink(list: seq<Node>, i: nat): seq<Node>
    requires i < |list|
  {
    if i + 1 < |list| then
      list[..i] + [list[i + 1].(dticks := list[i + 1].dticks + list[i].dticks)] + list[i + 2..]
    else list[..i]
  }

  class Queue {
    const is64: bool
    var list: seq<Node>
    var currTick: int
    var announceRemaining: nat
    var timers: map<Id, Timer>
    ghost var added: seq<Entry>
    ghost var dropped: multiset<Entry>
    ghost var fired: seq<Entry>

    ghost function View(): Clock
      reads this
    {
      Clock(is64, currTick, announceRemaining, Schedule(list, currTick), timers, added, dropped, fired)
    }

    constructor (is64: bool)
      ensures this.is64 == is64 && View() == Boot(is64)
    {
      this.is64 := is64;
      list, currTick, announceRemaining, timers := [], 0, 0, map[];
      added, dropped, fired := [], multiset{}, [];
    }

    /** `elapsed` */
    function ElapsedTicks(hw: nat): nat
      reads this
    {
      if announceRemaining == 0 then hw else 0
    }

    /** The position of a linked timeout, or the length of the list. */
    method Find(id: Id) returns (i: nat)
      ensures i == Index(View().sched, id)
      ensures i <= |list| && (i < |list| ==> list[i].id == id)
    {
      i := 0;
      while i < |list| && list[i].id != id
        invariant i <= |list|
        invariant forall j | 0 <= j < i :: list[j].id != id
      {
        i := i + 1;
      }
      IndexUnique(list, currTick, id, i);
    }

    /** `remove_timeout` */
    method RemoveTimeout(i: nat)
      requires i < |list|
      modifies this`list
      ensures View().sched == old(View().sched)[..i] + old(View().sched)[i + 1..]
    {
      RemoveDelta(list, currTick, i);
      list := Unlink(list, i);
    }

    /** `z_add_timeout` */
    method AddTimeout(id: Id, timeout: KTimeout, hw: nat)
      requires !Linked(View().sched, id)
      modifies this`list, this`added
      ensures View() == TimeoutSpec.AddTimeout(old(View()), id, timeout, hw)
    {
      hide Schedule, Slot, Insert, Index, Sum, Expiry, TimeoutSpec.AddTimeout;
      AddIs(View(), id, timeout, hw);
      if timeout.Forever? { return; }
      var rem := if timeout.Abs? then Max(1, timeout.tick - currTick)
                 else timeout.ticks + 1 + ElapsedTicks(hw);
      ghost var e := Entry(id, currTick + rem);
      ghost var s := Schedule(list, currTick);
      added := added + [e];
      var i := 0;
      assert Sum(list[..0]) == 0 by { ScheduleStart(list); }
      while i < |list|
        invariant i <= |list| && list == old(list) && added == old(added) + [e]
        invariant rem == e.expiry - currTick - Sum(list[..i])
        invariant forall j | 0 <= j < i :: s[j].expiry <= e.expiry
      {
        if list[i].dticks > rem {
          AddBefore(list, currTick, i, Node(id, rem));
          list := list[..i] + [Node(id, rem), list[i].(dticks := list[i].dticks - rem)] + list[i + 1..];
          return;
        }
        ScheduleAt(list, currTick, i);
        rem := rem - list[i].dticks;
        i := i + 1;
      }
      assert list[..i] == list;
      AddLast(list, currTick, Node(id, rem));
      list := list + [Node(id, rem)];
    }

    /** `z_abort_timeout` */
    method AbortTimeout(id: Id) returns (ret: int)
      modifies this`list, this`dropped
      ensures View() == TimeoutSpec.AbortTimeout(old(View()), id)
      ensures ret == if old(Linked(View().sched, id)) then 0 else -EINVAL
    {
      ret := -EINVAL;
      var i := Find(id);
      if i < |list| {
        dropped := dropped + multiset{View().sched[i]};
        RemoveTimeout(i);
        ret := 0;
      }
    }

    /** `timeout_rem`: ticks from the current one to the timeout's expiry. */
    method TimeoutRem(id: Id) returns (ticks: int)
      requires Linked(View().sched, id)
      ensures currTick + ticks == View().sched[Index(View().sched, id)].expiry
    {
      ticks := 0;
      var i := 0;
      while i < |list|
        invariant i <= |list| && ticks == Sum(list[..i])
        invariant forall j | 0 <= j < i :: list[j].id != id
      {
        ScheduleAt(list, currTick, i);
        ticks := ticks + list[i].dticks;
        if list[i].id == id {
          IndexUnique(list, currTick, id, i);
          return;
        }
        i := i + 1;
      }
      IndexUnique(list, currTick, id, i);
    }

    /** `z_timeout_expires`: the expiry fixed when the timeout was added. */
    method TimeoutExpires(id: Id) returns (ticks: int)
      ensures ticks == if Linked(View().sched, id) then View().sched[Index(View().sched, id)].expiry else currTick
    {
      ticks := currTick;
      var i := Find(id);
      if i < |list| {
        var rem := TimeoutRem(id);
        ticks := ticks + rem;
      }
    }

    /** `next_timeout`, without sloppy idle: no later than the first expiry. */
    method NextTimeout(hw: nat) returns (ticks: int)
      ensures 0 <= ticks <= INT_MAX
      ensures list == [] ==> ticks == INT_MAX
      ensures list != [] ==> var left := View().sched[0].expiry - (currTick + ElapsedTicks(hw));
        ticks == if left < 0 then 0 else if left > INT_MAX then INT_MAX else left
    {
      var elapsed := ElapsedTicks(hw);
      if list == [] || list[0].dticks - elapsed > INT_MAX {
        ticks := INT_MAX;
      } else {
        ticks := Max(0, list[0].dticks - elapsed);
      }
    }

    /** `z_impl_k_timer_start` */
    method TimerStart(id: Id, duration: KTimeout, period: KTimeout, hw: nat)
      requires Inv(View())
      modifies this`list, this`timers, this`added, this`dropped
      ensures View() == StartTimer(old(View()), id, duration, period, hw)
      ensures Started(old(View()), View(), id, duration, period, hw)
    {
      hide Started, Schedule, Slot, Insert, Index, TimeoutSpec.AddTimeout, TimeoutSpec.AbortTimeout;
      StartedTimer(View(), id, duration, period, hw);
      if duration.Forever? { return; }
      AbortKeeps(View(), id);
      var _ := AbortTimeout(id);
      timers := timers[id := Timer(period, 0, [], [], 0)];
      var first := duration;
      if is64 && first.Rel? {
        first := Rel(Max(first.ticks - 1, 0));
      }
      AddTimeout(id, first, hw);
    }

    /** `z_timer_expiration_handler` up to the user's expiry function. */
    method TimerExpiration(id: Id, hw: nat)
      requires 0 <= currTick && id in timers
      modifies this`list, this`timers, this`added
      ensures View() == HandleTimer(old(View()), id, hw)
    {
      hide Schedule, Slot, Insert, Index, TimeoutSpec.AddTimeout;
      var i := Find(id);
      if i < |list| { return; }
      var t := timers[id];
      var elapsed := ElapsedTicks(hw);
      if t.period != Rel(0) && !t.period.Forever? {
        var ticks := if t.period.Rel? then Max(t.period.ticks - 1, 0) else 0;
        AddTimeout(id, if is64 then Abs(currTick + elapsed + 1 + ticks) else Rel(ticks), hw);
      }
      timers := timers[id := Timer(t.period, t.status + 1, t.ticks + [currTick], t.lags + [elapsed], t.seen)];
    }

    /** `z_impl_k_timer_status_get` */
    method TimerStatusGet(id: Id) returns (n: nat)
      requires Inv(View()) && id in timers
      modifies this`timers
      ensures View() == ApplyOp(old(View()), StatusGet(id))
      ensures n == |old(timers)[id].ticks| - old(timers)[id].seen
      ensures timers[id].status == 0 && timers[id].seen == |timers[id].ticks|
    {
      assert TimerOk(timers[id]);
      n := timers[id].status;
      timers := timers[id := timers[id].(status := 0, seen := |timers[id].ticks|)];
    }

    /** Whatever other code does while the lock is free. */
    method Perform(op: Op)
      requires Inv(View())
      modifies this`list, this`timers, this`added, this`dropped
      ensures View() == ApplyOp(old(View()), op)
    {
      match op
      case Add(id, t, hw) =>
        var i := Find(id);
        if id !in timers && i == |list| { AddTimeout(id, t, hw); }
      case Abort(id) =>
        var _ := AbortTimeout(id);
      case TimerStart(id, duration, period, hw) => TimerStart(id, duration, period, hw);
      case StatusGet(id) =>
        if id in timers { var _ := TimerStatusGet(id); }
    }

    method PerformAll(ops: seq<Op>)
      requires Inv(View())
      modifies this`list, this`timers, this`added, this`dropped
      ensures View() == RunOps(old(View()), ops) && Inv(View())
    {
      var i := 0;
      OpsKeep(View(), ops, 0);
      while i < |ops|
        invariant i <= |ops| && Inv(View())
        invariant RunOps(View(), ops[i..]) == RunOps(old(View()), ops)
      {
        OpKeeps(View(), ops[i]);
        assert ops[i..][1..] == ops[i + 1..];
        Perform(ops[i]);
        i := i + 1;
      }
    }

    /** The callback of the timeout that was just taken off the list. */
    method Callback(id: Id, cb: TimeoutSpec.Callback)
      requires Inv(View()) && InFlight(View(), id)
      modifies this`list, this`timers, this`added, this`dropped
      ensures View() == RunCallback(old(View()), id, cb)
    {
      OpsKeep(View(), cb.before, id);
      PerformAll(cb.before);
      HandlerKeeps(View(), id, cb.hw);
      if id in timers {
        TimerExpiration(id, cb.hw);
      }
      PerformAll(cb.after);
    }

    /** One turn of the announce loop. */
    method FireFirst(cb: TimeoutSpec.Callback)
      requires Inv(View()) && HasDue(View())
      modifies this
      ensures View() == FireOne(old(View()), cb)
    {
      hide Slot, Insert, Index, Inv, Schedule, FireOne, RunCallback, PopDue;
      PopKeeps(View());
      PopDelta(list, currTick);
      var t := list[0];
      var dt := t.dticks;
      PopFirst();
      Callback(t.id, cb);
      announceRemaining := announceRemaining - dt;
      FireOneIs(old(View()), cb);
    }

    /** The first timeout leaves the list, and the current tick becomes its expiry. */
    method PopFirst()
      requires HasDue(View())
      modifies this
      ensures View() == PopDue(old(View())) && announceRemaining == old(announceRemaining)
    {
      hide Slot, Insert, Index, Schedule;
      PopDelta(list, currTick);
      var t := list[0];
      fired := fired + [Entry(t.id, currTick + t.dticks)];
      currTick := currTick + t.dticks;
      list := list[0 := t.(dticks := 0)];
      RemoveTimeout(0);
    }

    /** `sys_clock_announce` on one CPU. */
    method Announce(ticks: nat, script: seq<TimeoutSpec.Callback>)
      requires AtRest(View())
      modifies this
      ensures View() == ApplyStep(old(View()), TimeoutSpec.Announce(ticks, script))
      ensures AtRest(View()) && currTick == old(currTick) + ticks
    {
      hide Slot, FireOne, Inv, AllFrom;
      announceRemaining := ticks;
      InvIgnoresRemaining(old(View()), ticks);
      AnnounceReachesRest(View(), script);
      ghost var goal := FireAll(View(), script);
      var left := script;
      while list != [] && list[0].dticks <= announceRemaining
        invariant Inv(View()) && FireAll(View(), left) == goal
        decreases announceRemaining, Slot(View().sched, currTick)
      {
        FireFirst(HeadOf(left));
        left := TailOf(left);
      }
      UseUp();
    }

    /** The ticks that are left after the last due timeout come off the first delta. */
    method UseUp()
      modifies this`list, this`currTick, this`announceRemaining
      ensures View() == old(View()).(now := old(currTick) + old(announceRemaining), remaining := 0)
    {
      hide Schedule;
      ScheduleLater(list, currTick, announceRemaining);
      if list != [] {
        list := list[0 := list[0].(dticks := list[0].dticks - announceRemaining)];
      }
      currTick := currTick + announceRemaining;
      announceRemaining := 0;
    }
  }

  lemma {:induction false} IndexUnique(list: seq<Node>, base: int, id: Id, i: nat)
    requires i <= |list| && (i < |list| ==> list[i].id == id)
    requires forall j | 0 <= j < i :: list[j].id != id
    ensures Index(Schedule(list, base), id) == i
  {
    hide Schedule, Index;
    ScheduleHead(list, base);
    IndexHead(Schedule(list, base), id);
    if i > 0 {
      IndexUnique(list[1..], base + list[0].dticks, id, i - 1);
    }
  }

  lemma ScheduleHead(list: seq<Node>, base: int)
    ensures list != [] ==>
              && Schedule(list, base)[0] == Entry(list[0].id, base + list[0].dticks)
              && Schedule(list, base)[1..] == Schedule(list[1..], base + list[0].dticks)
  {
  }

  lemma IndexHead(s: seq<Entry>, id: Id)
    ensures Index(s, id) == if s == [] || s[0].id == id then 0 else 1 + Index(s[1..], id)
  {
  }
}
