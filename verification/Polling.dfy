/**
  The polling code, one method for each section under the poll lock, proved to take the
  steps of `PollSpec`.
 */
module Polling {
  import opened Common
  import opened PollSpec

  lemma {:induction false} InsertPlace(s: Sys, list: seq<Eid>, e: Eid, prio: int, k: nat)
    requires k <= |list| && forall i | 0 <= i < k :: PrioOf(s, list[i]) <= prio
    requires k < |list| ==> prio < PrioOf(s, list[k])
    ensures InsertEvent(s, list, e, prio) == list[..k] + [e] + list[k..]
  {
    if k == 0 {
      assert list[..0] == [] && list[0..] == list;
    } else {
      assert PrioOf(s, list[0]) <= prio;
      InsertPlace(s, list[1..], e, prio, k - 1);
      assert list[..k] == [list[0]] + list[1..][..k - 1];
      assert list[k..] == list[1..][k - 1..];
    }
  }

  class Kernel {
    var events: map<Eid, Event>
    var objs: map<Oid, Obj>
    var pollers: map<Tid, Poller>

    function View(): Sys
      reads this
    {
      Sys(events, objs, pollers)
    }

    ghost predicate Valid()
      reads this
    {
      Inv(View())
    }

    constructor (events0: map<Eid, Event>, objs0: map<Oid, bool>, prios: map<Tid, int>)
      ensures Valid() && View() == Init(events0, objs0, prios)
    {
      events := map e | e in events0 :: events0[e].(linked := false, poller := None, ready := false);
      objs := map o | o in objs0 :: Obj(objs0[o], []);
      pollers := map t | t in prios :: Poller(prios[t], false, [], false, Idle);
      new;
      InitOk(events0, objs0, prios);
    }

    /** `add_event`: most events go to the end of the list. */
    method AddToList(list: seq<Eid>, e: Eid, prio: int) returns (r: seq<Eid>)
      ensures r == AddEvent(View(), list, e, prio)
    {
      if list == [] || PrioOf(View(), list[|list| - 1]) < prio {
        return list + [e];
      }
      var k := 0;
      while k < |list|
        invariant 0 <= k <= |list| && forall i | 0 <= i < k :: PrioOf(View(), list[i]) <= prio
      {
        if prio < PrioOf(View(), list[k]) {
          InsertPlace(View(), list, e, prio, k);
          return list[..k] + [e] + list[k..];
        }
        k := k + 1;
      }
      InsertPlace(View(), list, e, prio, k);
      assert list[..k] == list && list[k..] == [];
      return list + [e];
    }

    method RegisterEvent(e: Eid, t: Tid)
      requires e in events && t in pollers
      modifies this`events, this`objs
      ensures View() == Link(old(View()), e, t)
    {
      hide AddEvent;
      var v := events[e];
      if v.obj.Some? && v.obj.value in objs {
        var o := v.obj.value;
        var list := AddToList(objs[o].list, e, pollers[t].prio);
        objs := objs[o := objs[o].(list := list)];
        v := v.(linked := true);
      }
      events := events[e := v.(poller := Some(t))];
    }

    method ClearEventRegistration(e: Eid)
      requires e in events
      modifies this`events, this`objs
      ensures View() == Unlink(old(View()), e)
    {
      hide Remove;
      var v := events[e].(poller := None);
      if v.linked && v.obj.Some? && v.obj.value in objs {
        var o := v.obj.value;
        objs := objs[o := objs[o].(list := Remove(objs[o].list, e))];
        v := v.(linked := false);
      }
      events := events[e := v];
    }

    /** The caller resets its events and enters the call. */
    method PollBegin(t: Tid, wanted: seq<Eid>, noWait: bool)
      requires Valid() && Allowed(View(), Begin(t, wanted, noWait))
      modifies this`pollers, this`events
      ensures Valid() && View() == Step(old(View()), Begin(t, wanted, noWait))
    {
      hide Inv;
      StepKeeps(View(), Begin(t, wanted, noWait));
      var i := 0;
      while i < |wanted|
        invariant 0 <= i <= |wanted| && pollers == old(pollers)
        invariant events == Reset(old(events), wanted[..i])
      {
        assert wanted[i] in wanted && wanted[..i + 1] == wanted[..i] + [wanted[i]];
        events := events[wanted[i] := events[wanted[i]].(ready := false)];
        i := i + 1;
      }
      assert wanted[..i] == wanted;
      pollers := pollers[t := Poller(pollers[t].prio, true, wanted, noWait, Registering(0, 0))];
    }

    /** One turn of `register_events`. */
    method RegisterOne(t: Tid)
      requires Valid() && Allowed(View(), RegisterNext(t))
      modifies this
      ensures Valid() && View() == Step(old(View()), RegisterNext(t))
    {
      hide Inv, Link, ListOk;
      StepKeeps(View(), RegisterNext(t));
      PollerOf(View(), t);
      var p := pollers[t];
      var e := p.events[p.phase.next];
      assert e in p.events;
      if ConditionMet(View(), e) {
        events := events[e := events[e].(poller := None, ready := true)];
        pollers := pollers[t := p.(polling := false, phase := p.phase.(next := p.phase.next + 1))];
      } else if !p.noWait && p.polling {
        RegisterEvent(e, t);
        LinkPollers(old(View()), e, t);
        pollers := pollers[t := p.(phase := Registering(p.phase.next + 1, p.phase.registered + 1))];
      } else {
        pollers := pollers[t := p.(phase := p.phase.(next := p.phase.next + 1))];
      }
    }

    /** After the registrations: return if an event came already, else wait. */
    method PollDecide(t: Tid)
      requires Valid() && Allowed(View(), Decide(t))
      modifies this`pollers
      ensures Valid() && View() == Step(old(View()), Decide(t))
      ensures pollers[t].phase.Pended? ==> AllLinked(View(), pollers[t], |pollers[t].events|)
    {
      hide Inv;
      StepKeeps(View(), Decide(t));
      PollerOf(Step(View(), Decide(t)), t);
      var p := pollers[t];
      if !p.polling {
        pollers := pollers[t := p.(phase := Clearing(p.phase.registered, Ok))];
      } else if p.noWait {
        pollers := pollers[t := p.(polling := false, phase := Returned(EAGAIN))];
      } else {
        pollers := pollers[t := p.(polling := false, phase := Pended(p.phase.registered))];
      }
    }

    /** One turn of `clear_event_registrations`, and the return once all are cleared. */
    method ClearOne(t: Tid)
      requires Valid() && Allowed(View(), ClearNext(t))
      modifies this
      ensures Valid() && View() == Step(old(View()), ClearNext(t))
      ensures pollers[t].phase.Returned? ==> forall e | e in events && events[e].owner == t :: !events[e].linked
    {
      hide Inv, Unlink, ListOk;
      StepKeeps(View(), ClearNext(t));
      PollerOf(View(), t);
      var p := pollers[t];
      if p.phase.left == 0 {
        pollers := pollers[t := p.(phase := Returned(p.phase.rc))];
      } else {
        var e := p.events[p.phase.left - 1];
        assert e in p.events;
        UnlinkPollers(View(), e);
        ClearEventRegistration(e);
        pollers := pollers[t := p.(phase := p.phase.(left := p.phase.left - 1))];
      }
      forall e | e in events
        ensures events[e].owner == t && pollers[t].phase.Returned? ==> !events[e].linked
      {
        EventOf(View(), e);
      }
    }

    method WaitTimesOut(t: Tid)
      requires Valid() && Allowed(View(), TimeOut(t))
      modifies this`pollers
      ensures Valid() && View() == Step(old(View()), TimeOut(t))
    {
      hide Inv;
      StepKeeps(View(), TimeOut(t));
      pollers := pollers[t := pollers[t].(phase := Clearing(pollers[t].phase.registered, EAGAIN))];
    }

    /** What other code does to an object decides whether its condition holds. */
    method SetObject(o: Oid, met: bool)
      requires Valid() && o in objs
      modifies this`objs
      ensures Valid() && View() == Step(old(View()), SetCondition(o, met))
    {
      hide Inv;
      StepKeeps(View(), SetCondition(o, met));
      objs := objs[o := objs[o].(met := met)];
    }

    /** `k_poll_signal_raise` and the like: the first event of the list is signalled. */
    method SignalRaise(o: Oid, cancel: bool)
      requires Valid() && o in objs
      modifies this
      ensures Valid() && View() == Step(old(View()), Raise(o, cancel))
      ensures old(objs[o].list) != [] ==>
        var e := old(objs[o].list)[0];
        e in old(events) && old(events)[e].owner in pollers && WillReturn(pollers[old(events)[e].owner])
    {
      hide Inv, ListOk;
      StepKeeps(View(), Raise(o, cancel));
      objs := objs[o := objs[o].(met := objs[o].met || !cancel)];
      if objs[o].list == [] {
        return;
      }
      MaySignal(old(View()), o);
      RaiseReleases(old(View()), o, cancel);
      var e := objs[o].list[0];
      var was := events[e];
      objs := objs[o := objs[o].(list := objs[o].list[1..])];
      if was.poller.Some? && was.poller.value in pollers {
        var p := pollers[was.poller.value];
        if p.phase.Pended? {
          p := p.(phase := Clearing(p.phase.registered, if cancel then EINTR else Ok));
        }
        pollers := pollers[was.poller.value := p.(polling := false)];
      }
      events := events[e := was.(linked := false, poller := None, ready := true)];
    }

    /** Any interleaving of sections ends in the state to which the specification runs. */
    method RunAll(ops: seq<Op>)
      requires Valid() && RunAllowed(View(), ops)
      modifies this
      ensures Valid() && View() == Run(old(View()), ops)
      ensures forall t | t in pollers :: PollPromises(View(), t)
      decreases |ops|
    {
      hide Inv, Step, PollPromises;
      EveryRunKeepsPromises(View(), ops);
      if ops != [] {
        Perform(ops[0]);
        RunAll(ops[1..]);
      }
    }

    method Perform(op: Op)
      requires Valid() && Allowed(View(), op)
      modifies this
      ensures Valid() && View() == Step(old(View()), op)
    {
      hide Inv, Step;
      match op
      case Begin(t, wanted, noWait) => PollBegin(t, wanted, noWait);
      case RegisterNext(t) => RegisterOne(t);
      case Decide(t) => PollDecide(t);
      case TimeOut(t) => WaitTimesOut(t);
      case ClearNext(t) => ClearOne(t);
      case Raise(o, cancel) => SignalRaise(o, cancel);
      case SetCondition(o, met) => SetObject(o, met);
    }
  }

  lemma LinkPollers(s: Sys, e: Eid, t: Tid)
    requires e in s.events && t in s.pollers
    ensures Link(s, e, t).pollers == s.pollers
  {
  }

  lemma UnlinkPollers(s: Sys, e: Eid)
    requires e in s.events
    ensures Unlink(s, e).pollers == s.pollers
  {
  }
}
