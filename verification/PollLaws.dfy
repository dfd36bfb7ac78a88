/**
  What the steps of polling promise besides the invariant: in which order the threads that
  poll an object are served, what each step changes, and when a call finds an event ready.
 */
module PollLaws {
  import opened Common
  import opened PollSpec

  // ---------- Order of service ----------

  /** The priority of the thread an event belongs to. */
  function Rank(s: Sys, e: Eid): int {
    if e in s.events && s.events[e].owner in s.pollers then s.pollers[s.events[e].owner].prio else 0
  }

  ghost predicate InOrder(s: Sys, list: seq<Eid>) {
    forall i, j | 0 <= i < j < |list| :: Rank(s, list[i]) <= Rank(s, list[j])
  }

  /** The list of every object is in the order of the priorities of the polling threads. */
  ghost predicate Ordered(s: Sys) { forall o | o in s.objs :: InOrder(s, s.objs[o].list) }

  /** The events on a list are registered by the threads they belong to. */
  ghost predicate Registered(s: Sys, list: seq<Eid>) { forall e | e in list :: PrioOf(s, e) == Rank(s, e) }

  lemma ListRegistered(s: Sys, o: Oid)
    requires Inv(s) && o in s.objs
    ensures Registered(s, s.objs[o].list)
  {
    hide Inv;
    ListOf(s, o);
    forall e | e in s.objs[o].list ensures PrioOf(s, e) == Rank(s, e) { EventOf(s, e); }
  }

  /** An event goes behind the events of threads of equal or better priority and before those
      of worse priority, although the end of the list is tried first. */
  lemma AddPlace(s: Sys, list: seq<Eid>, e: Eid, prio: int, k: nat)
    requires InOrder(s, list) && Registered(s, list) && k <= |list|
    requires forall i | 0 <= i < |list| :: i < k <==> Rank(s, list[i]) <= prio
    ensures AddEvent(s, list, e, prio) == list[..k] + [e] + list[k..]
  {
    hide PrioOf, Rank;
    assert forall i | 0 <= i < |list| :: list[i] in list;
    InsertPlace(s, list, e, prio, k);
    if list != [] && PrioOf(s, list[|list| - 1]) < prio { assert list[..k] == list && list[k..] == []; }
  }

  lemma {:induction false} InsertPlace(s: Sys, list: seq<Eid>, e: Eid, prio: int, k: nat)
    requires k <= |list| && (forall i | 0 <= i < k :: PrioOf(s, list[i]) <= prio)
    requires k < |list| ==> prio < PrioOf(s, list[k])
    ensures InsertEvent(s, list, e, prio) == list[..k] + [e] + list[k..]
  {
    hide PrioOf;
    if k > 0 {
      InsertPlace(s, list[1..], e, prio, k - 1);
      assert list[..k] == [list[0]] + list[1..][..k - 1] && list[k..] == list[1..][k - 1..];
    } else {
      assert list[..0] == [] && list[0..] == list;
    }
  }

  function Slot(s: Sys, list: seq<Eid>, prio: int): (k: nat)
    ensures k <= |list|
  {
    if list == [] || prio < Rank(s, list[0]) then 0 else 1 + Slot(s, list[1..], prio)
  }

  lemma {:induction false} SlotIs(s: Sys, list: seq<Eid>, prio: int)
    requires InOrder(s, list)
    ensures forall i | 0 <= i < |list| :: i < Slot(s, list, prio) <==> Rank(s, list[i]) <= prio
  {
    hide Rank;
    if list != [] {
      SlotIs(s, list[1..], prio);
      assert forall i | 0 < i < |list| :: list[i] == list[1..][i - 1];
    }
  }

  lemma {:induction false} RemoveInOrder(s: Sys, list: seq<Eid>, e: Eid)
    requires InOrder(s, list)
    ensures InOrder(s, Remove(list, e))
    ensures forall i | 0 <= i < |Remove(list, e)| :: list != [] && Rank(s, list[0]) <= Rank(s, Remove(list, e)[i])
  {
    hide Rank;
    if list != [] { RemoveInOrder(s, list[1..], e); }
  }

  lemma AddInOrder(s: Sys, list: seq<Eid>, e: Eid)
    requires InOrder(s, list) && Registered(s, list)
    ensures InOrder(s, AddEvent(s, list, e, Rank(s, e)))
  {
    hide Rank, PrioOf, AddEvent;
    SlotIs(s, list, Rank(s, e));
    AddPlace(s, list, e, Rank(s, e), Slot(s, list, Rank(s, e)));
  }

  /** What a step may do to a list. */
  ghost predicate ListMoves(s: Sys, list: seq<Eid>, list': seq<Eid>) {
    || list' == list
    || (list != [] && list' == list[1..])
    || (exists e :: list' == Remove(list, e))
    || (exists e :: list' == AddEvent(s, list, e, Rank(s, e)))
  }

  lemma MovesInOrder(s: Sys, list: seq<Eid>, list': seq<Eid>)
    requires InOrder(s, list) && Registered(s, list) && ListMoves(s, list, list')
    ensures InOrder(s, list')
  {
    hide Rank, PrioOf, AddEvent, Remove, Registered;
    if e :| list' == Remove(list, e) {
      RemoveInOrder(s, list, e);
    } else if e :| list' == AddEvent(s, list, e, Rank(s, e)) {
      AddInOrder(s, list, e);
    }
  }

  lemma StepLists(s: Sys, op: Op, o: Oid)
    requires Inv(s) && Allowed(s, op) && o in s.objs
    ensures o in Step(s, op).objs && ListMoves(s, s.objs[o].list, Step(s, op).objs[o].list)
  {
    hide Inv, Remove, AddEvent;
    match op
    case RegisterNext(t) =>
      RegisterOwns(s, t);
      var e := s.pollers[t].events[s.pollers[t].phase.next];
      assert AddEvent(s, s.objs[o].list, e, Rank(s, e)) == AddEvent(s, s.objs[o].list, e, s.pollers[t].prio);
    case _ =>
  }

  /** Priorities and owners never change. */
  lemma StepRanks(s: Sys, op: Op)
    requires Inv(s) && Allowed(s, op)
    ensures var r := Step(s, op);
            && r.events.Keys == s.events.Keys && r.pollers.Keys == s.pollers.Keys
            && (forall o :: o in r.objs <==> o in s.objs)
            && (forall e | e in s.events :: r.events[e].owner == s.events[e].owner)
            && (forall t | t in s.pollers :: r.pollers[t].prio == s.pollers[t].prio)
  {
    hide Inv, Step, InOrder;
    match op
    case Begin(t, events, noWait) => BeginIs(s, t, events, noWait);
    case RegisterNext(t) => RegisterIs(s, t);
    case Decide(t) => DecideIs(s, t);
    case TimeOut(t) => TimeOutIs(s, t);
    case ClearNext(t) => ClearsLast(s, t);
    case Raise(o, cancel) => RaiseIs(s, o, cancel);
    case SetCondition(o, met) => SetConditionIs(s, o, met);
  }

  lemma RanksSame(s: Sys, r: Sys, list: seq<Eid>)
    requires r.events.Keys == s.events.Keys && r.pollers.Keys == s.pollers.Keys
    requires forall e | e in s.events :: r.events[e].owner == s.events[e].owner
    requires forall t | t in s.pollers :: r.pollers[t].prio == s.pollers[t].prio
    ensures InOrder(s, list) ==> InOrder(r, list)
  {
    assert forall e :: Rank(r, e) == Rank(s, e);
  }

  lemma StepOrdered(s: Sys, op: Op)
    requires Inv(s) && Allowed(s, op) && Ordered(s)
    ensures Ordered(Step(s, op))
  {
    hide Inv, Step, InOrder, Allowed, ListMoves, Registered;
    var r := Step(s, op);
    StepRanks(s, op);
    forall o | o in r.objs ensures InOrder(r, r.objs[o].list) {
      StepLists(s, op, o);
      ListRegistered(s, o);
      MovesInOrder(s, s.objs[o].list, r.objs[o].list);
      RanksSame(s, r, r.objs[o].list);
    }
  }

  /** Over every run the event that a raise takes belongs to a thread of the best priority
      among those that poll the object, and of these to the one that registered first. */
  lemma {:induction false} EveryRunIsOrdered(s: Sys, ops: seq<Op>)
    requires Inv(s) && RunAllowed(s, ops) && Ordered(s)
    ensures Ordered(Run(s, ops))
    decreases |ops|
  {
    hide Inv, Step, Allowed, Ordered;
    if ops != [] {
      StepKeeps(s, ops[0]);
      StepOrdered(s, ops[0]);
      EveryRunIsOrdered(Step(s, ops[0]), ops[1..]);
    }
  }

  // ---------- What each step changes ----------

  ghost predicate OnlyPoller(s: Sys, r: Sys, t: Tid) {
    && r.pollers.Keys == s.pollers.Keys
    && forall u | u in s.pollers && u != t :: r.pollers[u] == s.pollers[u]
  }

  ghost predicate OnlyEvent(s: Sys, r: Sys, e: Eid) {
    && r.events.Keys == s.events.Keys
    && forall x | x in s.events && x != e :: r.events[x] == s.events[x]
  }

  ghost predicate OnlyObj(s: Sys, r: Sys, o: Oid) {
    && r.objs.Keys == s.objs.Keys
    && forall x | x in s.objs && x != o :: r.objs[x] == s.objs[x]
  }

  /** A call starts with none of its events ready, and polling. */
  lemma BeginIs(s: Sys, t: Tid, events: seq<Eid>, noWait: bool)
    requires Inv(s) && Allowed(s, Begin(t, events, noWait))
    ensures var r := Step(s, Begin(t, events, noWait));
            && OnlyPoller(s, r, t) && r.objs == s.objs && r.events.Keys == s.events.Keys
            && r.pollers[t] == Poller(s.pollers[t].prio, true, events, noWait, Registering(0, 0))
            && (forall e | e in s.events && e !in events :: r.events[e] == s.events[e])
            && (forall e | e in events ::
                  && r.events[e].obj == s.events[e].obj && r.events[e].owner == s.events[e].owner && !r.events[e].ready
                  && r.events[e].linked == s.events[e].linked && r.events[e].poller == s.events[e].poller)
  {
  }

  /** An event whose condition holds is ready at once, and the call will not wait. Otherwise
      it is registered with its object, if the call may still wait; an event without object
      is registered nowhere. */
  lemma RegisterIs(s: Sys, t: Tid)
    requires Inv(s) && Allowed(s, RegisterNext(t))
    ensures var r := Step(s, RegisterNext(t)); var p := s.pollers[t]; var e := p.events[p.phase.next];
            && e in s.events && !s.events[e].linked
            && OnlyPoller(s, r, t) && OnlyEvent(s, r, e)
            && r.pollers[t] == p.(polling := r.pollers[t].polling, phase := r.pollers[t].phase)
            && r.pollers[t].phase.Registering? && r.pollers[t].phase.next == p.phase.next + 1
            && r.events[e].obj == s.events[e].obj && r.events[e].owner == s.events[e].owner
            && (if ConditionMet(s, e) then
                  && r.objs == s.objs && r.events[e].ready && !r.events[e].linked && r.events[e].poller.None?
                  && !r.pollers[t].polling && r.pollers[t].phase.registered == p.phase.registered
                else
                  && r.events[e].ready == s.events[e].ready && r.pollers[t].polling == p.polling
                  && (p.noWait || !p.polling ==>
                        && r.events == s.events && r.objs == s.objs
                        && r.pollers[t].phase.registered == p.phase.registered)
                  && (!p.noWait && p.polling ==>
                        && r.pollers[t].phase.registered == p.phase.registered + 1
                        && r.events[e].poller == Some(t) && (r.events[e].linked <==> HasObj(s, e))
                        && (!HasObj(s, e) ==> r.objs == s.objs)
                        && (HasObj(s, e) ==>
                              && OnlyObj(s, r, s.events[e].obj.value)
                              && r.objs[s.events[e].obj.value].met == s.objs[s.events[e].obj.value].met
                              && e in r.objs[s.events[e].obj.value].list)))
  {
    hide Inv, AddEvent, NoDup;
    PollerOf(s, t);
    var p := s.pollers[t];
    var e := p.events[p.phase.next];
    assert e in p.events;
    EventOf(s, e);
    Unregistered(p, p.phase.next);
    if HasObj(s, e) {
      ListOf(s, s.events[e].obj.value);
      AddIs(s, s.objs[s.events[e].obj.value].list, e, p.prio);
    }
  }

  /** Whether an object's condition holds. */
  lemma ConditionIs(s: Sys, e: Eid)
    requires e in s.events
    ensures ConditionMet(s, e) <==> exists o | o in s.objs && s.events[e].obj == Some(o) :: s.objs[o].met
  {
  }

  /** When all events have been looked at, a call that found one ready goes on to return
      success; otherwise it waits, or returns at once if it may not. */
  lemma DecideIs(s: Sys, t: Tid)
    requires Inv(s) && Allowed(s, Decide(t))
    ensures var r := Step(s, Decide(t)); var p := s.pollers[t];
            && r == s.(pollers := r.pollers) && OnlyPoller(s, r, t)
            && r.pollers[t] == p.(polling := false, phase := r.pollers[t].phase)
            && (p.polling && !p.noWait <==> r.pollers[t].phase == Pended(|p.events|))
            && (p.polling && p.noWait <==> r.pollers[t].phase == Returned(EAGAIN))
            && (!p.polling <==> r.pollers[t].phase == Clearing(p.phase.registered, Ok))
  {
    hide Inv;
    PollerOf(s, t);
  }

  lemma TimeOutIs(s: Sys, t: Tid)
    requires Inv(s) && Allowed(s, TimeOut(t))
    ensures var r := Step(s, TimeOut(t)); var p := s.pollers[t];
            r == s.(pollers := s.pollers[t := p.(phase := Clearing(|p.events|, EAGAIN))])
  {
    hide Inv;
    PollerOf(s, t);
  }

  /** An event is no longer registered; it is off its list if it was on one. */
  ghost predicate Taken(s: Sys, r: Sys, e: Eid)
    requires e in s.events
  {
    && OnlyEvent(s, r, e) && r.events[e] == s.events[e].(linked := false, poller := None)
    && (!s.events[e].linked ==> r.objs == s.objs)
    && (s.events[e].linked ==>
          && HasObj(s, e) && OnlyObj(s, r, s.events[e].obj.value)
          && r.objs[s.events[e].obj.value].met == s.objs[s.events[e].obj.value].met
          && (forall x :: x in r.objs[s.events[e].obj.value].list <==>
                            x in s.objs[s.events[e].obj.value].list && x != e))
  }

  /** Clearing takes the last registered event off its list, if a raise has not, and keeps
      whether it is ready. */
  lemma ClearsLast(s: Sys, t: Tid)
    requires Inv(s) && Allowed(s, ClearNext(t))
    ensures var r := Step(s, ClearNext(t)); var p := s.pollers[t]; var k := p.phase.left;
            && OnlyPoller(s, r, t)
            && (k == 0 ==> r == s.(pollers := r.pollers) && r.pollers[t] == p.(phase := Returned(p.phase.rc)))
            && (k > 0 ==>
                  && k <= |p.events| && r.pollers[t] == p.(phase := Clearing(k - 1, p.phase.rc))
                  && p.events[k - 1] in s.events && Taken(s, r, p.events[k - 1]))
  {
    hide Inv, Remove, NoDup;
    PollerOf(s, t);
    var p := s.pollers[t];
    if p.phase.left > 0 {
      var e := p.events[p.phase.left - 1];
      assert e in p.events;
      EventOf(s, e);
      if s.events[e].linked {
        ListOf(s, s.events[e].obj.value);
        RemoveIs(s.objs[s.events[e].obj.value].list, e);
      }
    }
  }

  /** A thread one of whose events was raised no longer polls, and no longer waits. */
  function Released(p: Poller, cancel: bool): Poller {
    match p.phase
    case Pended(k) => p.(polling := false, phase := Clearing(k, if cancel then EINTR else Ok))
    case _ => p.(polling := false)
  }

  /** A raise takes one event, the first on the list, and makes it ready; the condition holds
      afterwards unless the raise is a cancellation. */
  lemma RaiseIs(s: Sys, o: Oid, cancel: bool)
    requires Inv(s) && Allowed(s, Raise(o, cancel))
    ensures var r := Step(s, Raise(o, cancel));
            && OnlyObj(s, r, o) && r.objs[o].met == (s.objs[o].met || !cancel)
            && (s.objs[o].list == [] ==> r.objs[o].list == [] && r.events == s.events && r.pollers == s.pollers)
            && (s.objs[o].list != [] ==>
                  var e := s.objs[o].list[0];
                  && [e] + r.objs[o].list == s.objs[o].list && e in s.events && OnlyEvent(s, r, e)
                  && r.events[e] == s.events[e].(linked := false, poller := None, ready := true)
                  && s.events[e].owner in s.pollers && OnlyPoller(s, r, s.events[e].owner)
                  && r.pollers[s.events[e].owner] == Released(s.pollers[s.events[e].owner], cancel))
  {
    hide Inv, NoDup;
    if s.objs[o].list != [] { MaySignal(s, o); }
  }

  lemma SetConditionIs(s: Sys, o: Oid, met: bool)
    requires Allowed(s, SetCondition(o, met))
    ensures var r := Step(s, SetCondition(o, met));
            && r == s.(objs := r.objs) && OnlyObj(s, r, o) && r.objs[o] == Obj(met, s.objs[o].list)
  {
  }

  // ---------- Ready events ----------

  /** A call polls exactly as long as it registers and none of its events is ready, and it
      waits only with none of them ready. */
  ghost predicate FindsReady(s: Sys, t: Tid)
    requires t in s.pollers
  {
    var p := s.pollers[t];
    && (p.phase.Registering? ==> (p.polling <==> !SomeReady(s, p)))
    && (!p.phase.Registering? ==> !p.polling)
    && (p.phase.Pended? ==> !SomeReady(s, p))
  }

  ghost predicate AllFind(s: Sys) { forall t | t in s.pollers :: FindsReady(s, t) }

  /** The readiness of its own events decides about a thread. */
  lemma SameReady(s: Sys, r: Sys, p: Poller)
    requires forall e | e in p.events :: e in s.events && e in r.events && r.events[e].ready == s.events[e].ready
    ensures SomeReady(r, p) <==> SomeReady(s, p)
  {
    assert forall i | 0 <= i < |p.events| :: p.events[i] in p.events;
  }

  lemma ReadyIs(s: Sys, p: Poller, e: Eid)
    requires e in p.events && e in s.events && s.events[e].ready
    ensures SomeReady(s, p)
  {
    var i :| 0 <= i < |p.events| && p.events[i] == e;
  }

  lemma OthersFind(s: Sys, r: Sys, t: Tid)
    requires Inv(s) && t in s.pollers && FindsReady(s, t) && t in r.pollers && r.pollers[t] == s.pollers[t]
    requires forall e | e in s.events && s.events[e].owner == t ::
               e in r.events && r.events[e].ready == s.events[e].ready
    ensures FindsReady(r, t)
  {
    hide Inv, SomeReady;
    PollerOf(s, t);
    SameReady(s, r, s.pollers[t]);
  }

  lemma StepFinds(s: Sys, op: Op)
    requires Inv(s) && Allowed(s, op) && AllFind(s)
    ensures AllFind(Step(s, op))
  {
    hide Inv, Step, FindsReady, Allowed;
    StepRanks(s, op);
    var r := Step(s, op);
    forall t | t in r.pollers ensures FindsReady(r, t) { StepFindsAt(s, op, t); }
  }

  lemma StepFindsAt(s: Sys, op: Op, t: Tid)
    requires Inv(s) && Allowed(s, op) && t in s.pollers && FindsReady(s, t)
    ensures t in Step(s, op).pollers && FindsReady(Step(s, op), t)
  {
    hide Inv, Step, FindsReady, SomeReady, InOrder;
    var r := Step(s, op);
    PollerOf(s, t);
    match op
    case Begin(u, events, noWait) =>
      BeginIs(s, u, events, noWait);
      if u == t { NoneReady(r, t); } else { OthersFind(s, r, t); }
    case RegisterNext(u) =>
      RegisterIs(s, u);
      if u == t { RegisterFinds(s, t); } else { RegisterOwns(s, u); OthersFind(s, r, t); }
    case Decide(u) =>
      DecideIs(s, u);
      if u == t { DecideFinds(s, t); } else { OthersFind(s, r, t); }
    case TimeOut(u) =>
      TimeOutIs(s, u);
      if u == t { OwnFinds(s, r, t); } else { OthersFind(s, r, t); }
    case ClearNext(u) =>
      ClearsLast(s, u);
      if u == t { OwnFinds(s, r, t); } else { OthersFind(s, r, t); }
    case Raise(o, cancel) => RaiseFinds(s, o, cancel, t);
    case SetCondition(o, met) =>
      SetConditionIs(s, o, met);
      OthersFind(s, r, t);
  }

  lemma NoneReady(r: Sys, t: Tid)
    requires t in r.pollers && r.pollers[t].polling && r.pollers[t].phase.Registering?
    requires forall e | e in r.pollers[t].events :: e in r.events && !r.events[e].ready
    ensures FindsReady(r, t)
  {
  }

  /** Neither registering nor waiting any more. */
  lemma OwnFinds(s: Sys, r: Sys, t: Tid)
    requires t in s.pollers && FindsReady(s, t) && t in r.pollers && r.pollers[t].polling == s.pollers[t].polling
    requires !s.pollers[t].phase.Registering? && !r.pollers[t].phase.Registering? && !r.pollers[t].phase.Pended?
    ensures FindsReady(r, t)
  {
  }

  lemma RegisterOwns(s: Sys, u: Tid)
    requires Inv(s) && Allowed(s, RegisterNext(u))
    ensures var e := s.pollers[u].events[s.pollers[u].phase.next]; e in s.events && s.events[e].owner == u
  {
    hide Inv;
    PollerOf(s, u);
    assert s.pollers[u].events[s.pollers[u].phase.next] in s.pollers[u].events;
  }

  lemma RegisterFinds(s: Sys, t: Tid)
    requires Inv(s) && Allowed(s, RegisterNext(t)) && FindsReady(s, t)
    ensures t in Step(s, RegisterNext(t)).pollers && FindsReady(Step(s, RegisterNext(t)), t)
  {
    hide Inv, Step, SomeReady;
    RegisterIs(s, t);
    PollerOf(s, t);
    var r := Step(s, RegisterNext(t));
    var p := s.pollers[t];
    var e := p.events[p.phase.next];
    assert e in p.events;
    ReadyOnlyEvents(r, p, r.pollers[t]);
    if ConditionMet(s, e) {
      ReadyIs(r, p, e);
    } else {
      SameReady(s, r, p);
    }
  }

  lemma ReadyOnlyEvents(s: Sys, p: Poller, q: Poller)
    requires p.events == q.events
    ensures SomeReady(s, p) <==> SomeReady(s, q)
  {
  }

  lemma DecideFinds(s: Sys, t: Tid)
    requires Inv(s) && Allowed(s, Decide(t)) && FindsReady(s, t)
    ensures t in Step(s, Decide(t)).pollers && FindsReady(Step(s, Decide(t)), t)
  {
    hide Inv, Step, SomeReady;
    DecideIs(s, t);
    PollerOf(s, t);
    var r := Step(s, Decide(t));
    ReadyOnlyEvents(r, s.pollers[t], r.pollers[t]);
    SameReady(s, r, s.pollers[t]);
  }

  lemma RaiseFinds(s: Sys, o: Oid, cancel: bool, t: Tid)
    requires Inv(s) && Allowed(s, Raise(o, cancel)) && t in s.pollers && FindsReady(s, t)
    ensures t in Step(s, Raise(o, cancel)).pollers && FindsReady(Step(s, Raise(o, cancel)), t)
  {
    hide Inv, FindsReady, SomeReady;
    RaiseIs(s, o, cancel);
    var r := Step(s, Raise(o, cancel));
    if s.objs[o].list == [] || s.events[s.objs[o].list[0]].owner != t {
      OthersFind(s, r, t);
    } else {
      RaisedFinds(s, o, cancel, t);
    }
  }

  lemma RaisedFinds(s: Sys, o: Oid, cancel: bool, t: Tid)
    requires Inv(s) && o in s.objs && s.objs[o].list != [] && t in s.pollers && FindsReady(s, t)
    requires s.objs[o].list[0] in s.events && s.events[s.objs[o].list[0]].owner == t
    ensures t in Step(s, Raise(o, cancel)).pollers && FindsReady(Step(s, Raise(o, cancel)), t)
  {
    hide Inv, SomeReady, NoDup;
    MaySignal(s, o);
    PollerOf(s, t);
    var e, r := s.objs[o].list[0], Step(s, Raise(o, cancel));
    assert r.events[e].ready && e in r.pollers[t].events;
    ReadyIs(r, r.pollers[t], e);
  }

  /** Over every run, a call that has looked at all its events goes on to success exactly if
      one of them is ready, and a call waits, or gives up at once, only if none is. */
  lemma {:induction false} EveryRunFindsReady(s: Sys, ops: seq<Op>)
    requires Inv(s) && RunAllowed(s, ops) && AllFind(s)
    ensures AllFind(Run(s, ops))
    decreases |ops|
  {
    hide Inv, Step, Allowed, AllFind;
    if ops != [] {
      StepKeeps(s, ops[0]);
      StepFinds(s, ops[0]);
      EveryRunFindsReady(Step(s, ops[0]), ops[1..]);
    }
  }

  lemma DecidesByReadiness(s: Sys, t: Tid)
    requires Inv(s) && Allowed(s, Decide(t)) && AllFind(s)
    ensures var r := Step(s, Decide(t)); var p := s.pollers[t];
            && t in r.pollers
            && (SomeReady(s, p) <==> r.pollers[t].phase == Clearing(p.phase.registered, Ok))
            && (!SomeReady(s, p) && !p.noWait <==> r.pollers[t].phase.Pended?)
            && (!SomeReady(s, p) && p.noWait <==> r.pollers[t].phase == Returned(EAGAIN))
  {
    hide Inv, Step;
    DecideIs(s, t);
    assert FindsReady(s, t);
  }

  lemma InitFinds(events: map<Eid, Event>, objs: map<Oid, bool>, prios: map<Tid, int>)
    ensures var s := Init(events, objs, prios); AllFind(s) && Ordered(s)
  {
  }
}
