/**
  Polling: a thread registers its events with kernel objects one at a time, releases the
  lock between them, and then waits. A raise takes the first event off an object's list.
  Every step below is one section under the poll lock.
 */
module PollSpec {
  import opened Common

  type Eid = nat
  type Oid = nat
  type Tid = nat

  /** `obj` is empty for an event of the type IGNORE. `owner` is the thread whose array the
      event is in, and `poller` is set while the event is registered. */
  datatype Event = Event(obj: Option<Oid>, owner: Tid, linked: bool, poller: Option<Tid>, ready: bool)

  datatype Obj = Obj(met: bool, list: seq<Eid>)

  datatype Code = Ok | EAGAIN | EINTR

  /** Where a thread is in its call. */
  datatype Phase =
    | Idle
    | Registering(next: nat, registered: nat)
    | Pended(registered: nat)
    | Clearing(left: nat, rc: Code)
    | Returned(rc: Code)

  datatype Poller = Poller(prio: int, polling: bool, events: seq<Eid>, noWait: bool, phase: Phase)

  datatype Sys = Sys(events: map<Eid, Event>, objs: map<Oid, Obj>, pollers: map<Tid, Poller>)

  datatype Op =
    | Begin(t: Tid, events: seq<Eid>, noWait: bool)
    | RegisterNext(t: Tid)
    | Decide(t: Tid)
    | TimeOut(t: Tid)
    | ClearNext(t: Tid)
    | Raise(o: Oid, cancel: bool)
    | SetCondition(o: Oid, met: bool)

  // ---------- Steps ----------

  function PrioOf(s: Sys, e: Eid): int {
    if e in s.events && s.events[e].poller.Some? && s.events[e].poller.value in s.pollers
    then s.pollers[s.events[e].poller.value].prio else 0
  }

  /** An event goes before the first one whose thread has a strictly worse priority. */
  function InsertEvent(s: Sys, list: seq<Eid>, e: Eid, prio: int): seq<Eid> {
    if list == [] then [e]
    else if prio < PrioOf(s, list[0]) then [e] + list
    else [list[0]] + InsertEvent(s, list[1..], e, prio)
  }

  /** The end of the list is tried first. */
  function AddEvent(s: Sys, list: seq<Eid>, e: Eid, prio: int): seq<Eid> {
    if list == [] || PrioOf(s, list[|list| - 1]) < prio then list + [e] else InsertEvent(s, list, e, prio)
  }

  function SetPoller(s: Sys, t: Tid, p: Poller): Sys { s.(pollers := s.pollers[t := p]) }

  function SetEvent(s: Sys, e: Eid, v: Event): Sys { s.(events := s.events[e := v]) }

  /** Before a call its events are reset to "not ready"; that is up to the caller. */
  function Reset(events: map<Eid, Event>, wanted: seq<Eid>): (r: map<Eid, Event>)
    ensures r.Keys == events.Keys
    ensures forall e | e in events :: r[e] == if e in wanted then events[e].(ready := false) else events[e]
  {
    map e | e in events :: if e in wanted then events[e].(ready := false) else events[e]
  }

  function MarkReady(s: Sys, e: Eid): Sys
    requires e in s.events
  {
    SetEvent(s, e, s.events[e].(poller := None, ready := true))
  }

  function Link(s: Sys, e: Eid, t: Tid): Sys
    requires e in s.events && t in s.pollers
  {
    var v := s.events[e];
    if v.obj.Some? && v.obj.value in s.objs then
      var o := v.obj.value;
      s.(events := s.events[e := v.(linked := true, poller := Some(t))],
         objs := s.objs[o := s.objs[o].(list := AddEvent(s, s.objs[o].list, e, s.pollers[t].prio))])
    else SetEvent(s, e, v.(poller := Some(t)))
  }

  function Unlink(s: Sys, e: Eid): Sys
    requires e in s.events
  {
    var v := s.events[e];
    if v.linked && v.obj.Some? && v.obj.value in s.objs then
      var o := v.obj.value;
      s.(events := s.events[e := v.(linked := false, poller := None)],
         objs := s.objs[o := s.objs[o].(list := Remove(s.objs[o].list, e))])
    else SetEvent(s, e, v.(poller := None))
  }

  predicate ConditionMet(s: Sys, e: Eid)
    requires e in s.events
  {
    var v := s.events[e];
    v.obj.Some? && v.obj.value in s.objs && s.objs[v.obj.value].met
  }

  /** The first event of an object's list is taken off it; its thread stops polling and, if
      it waits already, is released. */
  function Signal(s: Sys, o: Oid, cancel: bool): Sys
    requires o in s.objs && s.objs[o].list != [] && s.objs[o].list[0] in s.events
  {
    var e := s.objs[o].list[0];
    var r := s.(objs := s.objs[o := s.objs[o].(list := s.objs[o].list[1..])],
                events := s.events[e := s.events[e].(linked := false, poller := None, ready := true)]);
    match s.events[e].poller
    case None => r
    case Some(t) =>
      if t !in s.pollers then r
      else
        var p := s.pollers[t].(polling := false);
        SetPoller(r, t,
          if p.phase.Pended? then p.(phase := Clearing(p.phase.registered, if cancel then EINTR else Ok)) else p)
  }

  ghost predicate Allowed(s: Sys, op: Op) {
    match op
    case Begin(t, events, _) =>
      && t in s.pollers && (s.pollers[t].phase.Idle? || s.pollers[t].phase.Returned?) && NoDup(events)
      && forall e | e in events :: e in s.events && s.events[e].owner == t
    case RegisterNext(t) => t in s.pollers && s.pollers[t].phase.Registering?
      && s.pollers[t].phase.next < |s.pollers[t].events|
    case Decide(t) => t in s.pollers && s.pollers[t].phase.Registering?
      && s.pollers[t].phase.next == |s.pollers[t].events|
    case TimeOut(t) => t in s.pollers && s.pollers[t].phase.Pended?
    case ClearNext(t) => t in s.pollers && s.pollers[t].phase.Clearing?
    case Raise(o, _) => o in s.objs
    case SetCondition(o, _) => o in s.objs
  }

  function Step(s: Sys, op: Op): Sys {
    match op
    case Begin(t, events, noWait) =>
      if t in s.pollers
      then SetPoller(s.(events := Reset(s.events, events)), t,
          Poller(s.pollers[t].prio, true, events, noWait, Registering(0, 0)))
      else s
    case RegisterNext(t) =>
      if t in s.pollers && s.pollers[t].phase.Registering? && s.pollers[t].phase.next < |s.pollers[t].events|
         && s.pollers[t].events[s.pollers[t].phase.next] in s.events
      then Register(s, t, s.pollers[t].events[s.pollers[t].phase.next]) else s
    case Decide(t) =>
      if t in s.pollers && s.pollers[t].phase.Registering? then
        var p := s.pollers[t];
        SetPoller(s, t, if !p.polling then p.(phase := Clearing(p.phase.registered, Ok))
                        else if p.noWait then p.(polling := false, phase := Returned(EAGAIN))
                        else p.(polling := false, phase := Pended(p.phase.registered)))
      else s
    case TimeOut(t) =>
      if t in s.pollers && s.pollers[t].phase.Pended?
      then SetPoller(s, t, s.pollers[t].(phase := Clearing(s.pollers[t].phase.registered, EAGAIN))) else s
    case ClearNext(t) => if t in s.pollers && s.pollers[t].phase.Clearing? then Clear(s, t) else s
    case Raise(o, cancel) =>
      if o in s.objs then
        var r := s.(objs := s.objs[o := s.objs[o].(met := s.objs[o].met || !cancel)]);
        if s.objs[o].list != [] && s.objs[o].list[0] in s.events then Signal(r, o, cancel) else r
      else s
    case SetCondition(o, met) => if o in s.objs then s.(objs := s.objs[o := s.objs[o].(met := met)]) else s
  }

  function Register(s: Sys, t: Tid, e: Eid): Sys
    requires t in s.pollers && s.pollers[t].phase.Registering? && e in s.events
  {
    var p := s.pollers[t];
    var at := p.phase.next;
    if ConditionMet(s, e) then SetPoller(MarkReady(s, e), t, p.(polling := false, phase := p.phase.(next := at + 1)))
    else if !p.noWait && p.polling then
      SetPoller(Link(s, e, t), t, p.(phase := Registering(at + 1, p.phase.registered + 1)))
    else SetPoller(s, t, p.(phase := p.phase.(next := at + 1)))
  }

  function Clear(s: Sys, t: Tid): Sys
    requires t in s.pollers && s.pollers[t].phase.Clearing?
  {
    var p := s.pollers[t];
    if p.phase.left == 0 then SetPoller(s, t, p.(phase := Returned(p.phase.rc)))
    else if p.phase.left <= |p.events| && p.events[p.phase.left - 1] in s.events then
      SetPoller(Unlink(s, p.events[p.phase.left - 1]), t, p.(phase := p.phase.(left := p.phase.left - 1)))
    else s
  }

  // ---------- Invariant ----------

  /** How many events of a thread's array may be registered. */
  function Bound(p: Poller): nat {
    match p.phase
    case Registering(_, k) => k
    case Pended(k) => k
    case Clearing(k, _) => k
    case _ => 0
  }

  /** A linked event is on its object's list, belongs to a thread that is polling it, and is
      in the registered prefix of that thread's array. */
  ghost predicate EventOk(s: Sys, e: Eid)
    requires e in s.events
  {
    var v := s.events[e];
    v.linked ==>
      && v.obj.Some? && v.obj.value in s.objs && e in s.objs[v.obj.value].list && v.poller == Some(v.owner)
      && v.owner in s.pollers && InPrefix(s.pollers[v.owner], e)
  }

  ghost predicate InPrefix(p: Poller, e: Eid) { Bound(p) <= |p.events| && e in p.events[..Bound(p)] }

  ghost predicate ListOk(s: Sys, o: Oid)
    requires o in s.objs
  {
    NoDup(s.objs[o].list)
    && forall e | e in s.objs[o].list :: e in s.events && s.events[e].linked && s.events[e].obj == Some(o)
  }

  /** All events of a prefix are linked, except those that are ignored. */
  ghost predicate AllLinked(s: Sys, p: Poller, k: nat) {
    && k <= |p.events|
    && forall i | 0 <= i < k :: p.events[i] in s.events && (HasObj(s, p.events[i]) ==> s.events[p.events[i]].linked)
  }

  predicate HasObj(s: Sys, e: Eid) { e in s.events && s.events[e].obj.Some? && s.events[e].obj.value in s.objs }

  ghost predicate SomeReady(s: Sys, p: Poller) {
    exists i :: 0 <= i < |p.events| && p.events[i] in s.events && s.events[p.events[i]].ready
  }

  ghost predicate PollerOk(s: Sys, t: Tid)
    requires t in s.pollers
  {
    var p := s.pollers[t];
    && NoDup(p.events) && (forall e | e in p.events :: e in s.events && s.events[e].owner == t)
    && match p.phase
       case Registering(i, k) =>
         && k <= i <= |p.events| && (p.noWait ==> k == 0)
         && (p.polling && !p.noWait ==> k == i && AllLinked(s, p, k))
         && (!p.polling ==> SomeReady(s, p))
       case Pended(k) => k == |p.events| && AllLinked(s, p, k)
       case Clearing(k, rc) => k <= |p.events| && (rc == Ok ==> SomeReady(s, p))
       case Returned(rc) => rc == Ok ==> SomeReady(s, p)
       case Idle => true
  }

  ghost predicate Inv(s: Sys) {
    && (forall e | e in s.events :: EventOk(s, e))
    && (forall o | o in s.objs :: ListOk(s, o))
    && (forall t | t in s.pollers :: PollerOk(s, t))
  }

  // ---------- Every step keeps the invariant ----------

  lemma EventOf(s: Sys, e: Eid)
    requires Inv(s) && e in s.events
    ensures EventOk(s, e)
  {
  }

  lemma ListOf(s: Sys, o: Oid)
    requires Inv(s) && o in s.objs
    ensures ListOk(s, o)
  {
  }

  lemma PollerOf(s: Sys, t: Tid)
    requires Inv(s) && t in s.pollers
    ensures PollerOk(s, t)
  {
  }

  lemma InvHolds(s: Sys)
    requires forall e | e in s.events :: EventOk(s, e)
    requires forall o | o in s.objs :: ListOk(s, o)
    requires forall t | t in s.pollers :: PollerOk(s, t)
    ensures Inv(s)
  {
  }

  /** A thread is untouched by changes to other threads' events. */
  ghost predicate SameFor(s: Sys, r: Sys, u: Tid) {
    && r.objs.Keys == s.objs.Keys
    && forall e | e in s.events && s.events[e].owner == u :: e in r.events && r.events[e] == s.events[e]
  }

  lemma PollerFrame(s: Sys, r: Sys, u: Tid)
    requires u in s.pollers && PollerOk(s, u) && u in r.pollers && r.pollers[u] == s.pollers[u] && SameFor(s, r, u)
    ensures PollerOk(r, u)
  {
    var p := s.pollers[u];
    forall i | 0 <= i < |p.events| ensures p.events[i] in r.events && r.events[p.events[i]] == s.events[p.events[i]] {
      assert p.events[i] in p.events;
    }
    if SomeReady(s, p) { assert SomeReady(r, p); }
    forall k: nat | AllLinked(s, p, k) ensures AllLinked(r, p, k) { }
  }

  lemma AddIs(s: Sys, list: seq<Eid>, e: Eid, prio: int)
    requires NoDup(list) && e !in list
    ensures var r := AddEvent(s, list, e, prio); NoDup(r) && forall x :: x in r <==> x == e || x in list
  {
    InsertIs(s, list, e, prio);
  }

  lemma {:induction false} InsertIs(s: Sys, list: seq<Eid>, e: Eid, prio: int)
    requires NoDup(list) && e !in list
    ensures var r := InsertEvent(s, list, e, prio); NoDup(r) && forall x :: x in r <==> x == e || x in list
  {
    if list != [] && prio >= PrioOf(s, list[0]) {
      assert list == [list[0]] + list[1..];
      InsertIs(s, list[1..], e, prio);
      assert list[0] !in InsertEvent(s, list[1..], e, prio);
    } else {
      assert forall x :: x in [e] + list <==> x == e || x in list;
    }
  }

  /** Replacing a poller: its own facts and those of its linked events are to be shown. */
  lemma SetPollerKeeps(s: Sys, t: Tid, p: Poller)
    requires Inv(s) && t in s.pollers && PollerOk(SetPoller(s, t, p), t)
    requires forall e | e in s.events && s.events[e].linked && s.events[e].owner == t :: InPrefix(p, e)
    ensures Inv(SetPoller(s, t, p))
  {
    hide Inv, PollerOk, ListOk, InPrefix;
    var r := SetPoller(s, t, p);
    forall e | e in r.events ensures EventOk(r, e) { EventOf(s, e); }
    forall o | o in r.objs ensures ListOk(r, o) { ListOf(s, o); ListSame(s, r, o); }
    forall u | u in r.pollers ensures PollerOk(r, u) {
      if u != t {
        PollerOf(s, u);
        PollerFrame(s, r, u);
      }
    }
    InvHolds(r);
  }

  lemma ListSame(s: Sys, r: Sys, o: Oid)
    requires o in s.objs && ListOk(s, o) && r.events == s.events && o in r.objs && r.objs[o].list == s.objs[o].list
    ensures ListOk(r, o)
  {
  }

  lemma ConditionKeeps(s: Sys, o: Oid, met: bool)
    requires Inv(s) && o in s.objs
    ensures Inv(s.(objs := s.objs[o := s.objs[o].(met := met)]))
  {
    hide Inv, PollerOk, ListOk;
    var r := s.(objs := s.objs[o := s.objs[o].(met := met)]);
    forall e | e in r.events ensures EventOk(r, e) { EventOf(s, e); }
    forall x | x in r.objs ensures ListOk(r, x) { ListOf(s, x); ListSame(s, r, x); }
    forall u | u in r.pollers ensures PollerOk(r, u) { PollerOf(s, u); PollerFrame(s, r, u); }
    InvHolds(r);
  }

  lemma MarkKeeps(s: Sys, t: Tid, e: Eid)
    requires Inv(s) && t in s.pollers && s.pollers[t].phase.Registering? && e in s.events && s.events[e].owner == t
             && !s.events[e].linked
    requires s.pollers[t].phase.next < |s.pollers[t].events| && s.pollers[t].events[s.pollers[t].phase.next] == e
    ensures var p := s.pollers[t];
            Inv(SetPoller(MarkReady(s, e), t, p.(polling := false, phase := p.phase.(next := p.phase.next + 1))))
  {
    hide Inv, ListOk;
    var p := s.pollers[t];
    var r := SetPoller(MarkReady(s, e), t, p.(polling := false, phase := p.phase.(next := p.phase.next + 1)));
    PollerOf(s, t);
    forall x | x in r.events ensures EventOk(r, x) { EventOf(s, x); }
    forall o | o in r.objs ensures ListOk(r, o) { ListOf(s, o); ListMark(s, r, o, e); }
    forall u | u in r.pollers ensures PollerOk(r, u) {
      PollerOf(s, u);
      if u != t { PollerFrame(s, r, u); } else { assert SomeReady(r, r.pollers[t]); }
    }
    InvHolds(r);
  }

  lemma ListMark(s: Sys, r: Sys, o: Oid, e: Eid)
    requires o in s.objs && ListOk(s, o) && r.objs == s.objs && e in s.events && !s.events[e].linked
    requires forall x | x in s.events && x != e :: x in r.events && r.events[x] == s.events[x]
    ensures ListOk(r, o)
  {
  }

  /** One event changes and one list changes with it. */
  lemma LinkList(s: Sys, r: Sys, e: Eid, o: Oid, prio: int, x: Oid)
    requires e in s.events && !s.events[e].linked && s.events[e].obj == Some(o) && o in s.objs && x in s.objs
    requires ListOk(s, x) && ListOk(s, o)
    requires r.objs == s.objs[o := s.objs[o].(list := AddEvent(s, s.objs[o].list, e, prio))]
    requires e in r.events && r.events[e].linked && r.events[e].obj == Some(o)
    requires forall y | y in s.events && y != e :: y in r.events && r.events[y] == s.events[y]
    ensures ListOk(r, x)
  {
    hide NoDup, AddEvent;
    assert e !in s.objs[o].list;
    AddIs(s, s.objs[o].list, e, prio);
  }

  ghost predicate CanLink(s: Sys, t: Tid, e: Eid) {
    && t in s.pollers && e in s.events && s.events[e].owner == t && !s.events[e].linked
    && s.pollers[t].phase.Registering? && s.pollers[t].polling && !s.pollers[t].noWait
    && s.pollers[t].phase.next < |s.pollers[t].events| && s.pollers[t].events[s.pollers[t].phase.next] == e
    && PollerOk(s, t)
  }

  function Linked(s: Sys, t: Tid, e: Eid): Sys
    requires t in s.pollers && e in s.events && s.pollers[t].phase.Registering?
  {
    var p := s.pollers[t];
    SetPoller(Link(s, e, t), t, p.(phase := Registering(p.phase.next + 1, p.phase.registered + 1)))
  }

  lemma LinkKeeps(s: Sys, t: Tid, e: Eid)
    requires Inv(s) && CanLink(s, t, e)
    ensures Inv(Linked(s, t, e))
  {
    hide Inv, ListOk, EventOk, PollerOk, Linked, CanLink;
    LinkedIs(s, t, e);
    var r := Linked(s, t, e);
    if HasObj(s, e) {
      ListOf(s, s.events[e].obj.value);
      NotListed(s, e);
    }
    forall x | x in r.events ensures EventOk(r, x) { EventOf(s, x); LinkEvent(s, t, e, x); }
    forall o | o in r.objs ensures ListOk(r, o) { ListOf(s, o); LinkListOk(s, t, e, o); }
    forall u | u in r.pollers ensures PollerOk(r, u) {
      PollerOf(s, u);
      if u != t { PollerFrame(s, r, u); } else { LinkPoller(s, t, e); }
    }
    InvHolds(r);
  }

  lemma LinkedIs(s: Sys, t: Tid, e: Eid)
    requires CanLink(s, t, e)
    ensures t in s.pollers && e in s.events && s.pollers[t].phase.Registering?
    ensures var r := Linked(s, t, e);
            && r.events.Keys == s.events.Keys && r.objs.Keys == s.objs.Keys && r.pollers.Keys == s.pollers.Keys
            && (forall x | x in s.events && x != e :: r.events[x] == s.events[x])
            && (forall u | u in s.pollers && u != t :: r.pollers[u] == s.pollers[u])
            && (forall u | u in s.pollers && u != t :: SameFor(s, r, u))
            && !s.events[e].linked
  {
    hide AddEvent;
  }

  lemma NotListed(s: Sys, e: Eid)
    requires HasObj(s, e) && ListOk(s, s.events[e].obj.value) && !s.events[e].linked
    ensures NoDup(s.objs[s.events[e].obj.value].list) && e !in s.objs[s.events[e].obj.value].list
  {
  }

  lemma LinkEvent(s: Sys, t: Tid, e: Eid, x: Eid)
    requires CanLink(s, t, e) && x in s.events && EventOk(s, x)
    requires HasObj(s, e) ==> NoDup(s.objs[s.events[e].obj.value].list) && e !in s.objs[s.events[e].obj.value].list
    ensures x in Linked(s, t, e).events && EventOk(Linked(s, t, e), x)
  {
    hide AddEvent, NoDup;
    var p := s.pollers[t];
    PrefixMore(p.events, p.phase.next);
    if HasObj(s, e) { AddIs(s, s.objs[s.events[e].obj.value].list, e, p.prio); }
  }

  lemma LinkListOk(s: Sys, t: Tid, e: Eid, o: Oid)
    requires CanLink(s, t, e) && o in s.objs && ListOk(s, o) && (HasObj(s, e) ==> ListOk(s, s.events[e].obj.value))
    ensures o in Linked(s, t, e).objs && ListOk(Linked(s, t, e), o)
  {
    hide AddEvent, NoDup;
    if HasObj(s, e) {
      LinkList(s, Linked(s, t, e), e, s.events[e].obj.value, s.pollers[t].prio, o);
    } else {
      ListMark(s, Linked(s, t, e), o, e);
    }
  }

  lemma LinkPoller(s: Sys, t: Tid, e: Eid)
    requires CanLink(s, t, e)
    ensures t in Linked(s, t, e).pollers && PollerOk(Linked(s, t, e), t)
  {
    hide AddEvent;
    var p, r := s.pollers[t], Linked(s, t, e);
    var k := p.phase.next;
    forall i | 0 <= i <= k
      ensures p.events[i] in r.events && (HasObj(r, p.events[i]) ==> r.events[p.events[i]].linked)
    {
      assert p.events[i] in p.events;
    }
    assert AllLinked(r, r.pollers[t], k + 1);
  }

  ghost predicate CanClear(s: Sys, t: Tid) {
    && t in s.pollers && s.pollers[t].phase.Clearing? && 0 < s.pollers[t].phase.left <= |s.pollers[t].events|
    && s.pollers[t].events[s.pollers[t].phase.left - 1] in s.events && PollerOk(s, t)
    && EventOk(s, s.pollers[t].events[s.pollers[t].phase.left - 1])
  }

  lemma ClearKeeps(s: Sys, t: Tid)
    requires Inv(s) && CanClear(s, t)
    ensures Inv(Clear(s, t))
  {
    hide Inv, ListOk, EventOk, PollerOk, Clear, CanClear;
    ClearIs(s, t);
    var r := Clear(s, t);
    var e := s.pollers[t].events[s.pollers[t].phase.left - 1];
    if HasObj(s, e) { ListOf(s, s.events[e].obj.value); }
    forall x | x in r.events ensures EventOk(r, x) { EventOf(s, x); ClearEvent(s, t, x); }
    forall o | o in r.objs ensures ListOk(r, o) { ListOf(s, o); ClearList(s, t, o); }
    forall u | u in r.pollers ensures PollerOk(r, u) {
      PollerOf(s, u);
      if u != t { PollerFrame(s, r, u); } else { ClearPoller(s, t); }
    }
    InvHolds(r);
  }

  lemma ClearIs(s: Sys, t: Tid)
    requires CanClear(s, t)
    ensures t in s.pollers && s.pollers[t].phase.Clearing? && 0 < s.pollers[t].phase.left <= |s.pollers[t].events|
    ensures s.pollers[t].events[s.pollers[t].phase.left - 1] in s.events
    ensures var r := Clear(s, t); var e := s.pollers[t].events[s.pollers[t].phase.left - 1];
            && r.events.Keys == s.events.Keys && r.objs.Keys == s.objs.Keys && r.pollers.Keys == s.pollers.Keys
            && (forall x | x in s.events && x != e :: r.events[x] == s.events[x])
            && r.events[e] == s.events[e].(linked := false, poller := None)
            && (forall u | u in s.pollers && u != t :: r.pollers[u] == s.pollers[u])
            && (forall u | u in s.pollers && u != t :: SameFor(s, r, u))
            && r.pollers[t] == s.pollers[t].(phase := s.pollers[t].phase.(left := s.pollers[t].phase.left - 1))
  {
    hide Remove;
    var e := s.pollers[t].events[s.pollers[t].phase.left - 1];
    assert e in s.pollers[t].events;
  }

  lemma ClearEvent(s: Sys, t: Tid, x: Eid)
    requires CanClear(s, t) && x in s.events && EventOk(s, x)
    requires var e := s.pollers[t].events[s.pollers[t].phase.left - 1];
             HasObj(s, e) ==> ListOk(s, s.events[e].obj.value)
    ensures x in Clear(s, t).events && EventOk(Clear(s, t), x)
  {
    hide Remove, NoDup;
    var p := s.pollers[t];
    var k := p.phase.left - 1;
    PrefixMore(p.events, k);
    if HasObj(s, p.events[k]) { RemoveIs(s.objs[s.events[p.events[k]].obj.value].list, p.events[k]); }
  }

  lemma ClearList(s: Sys, t: Tid, o: Oid)
    requires CanClear(s, t) && o in s.objs && ListOk(s, o)
    ensures o in Clear(s, t).objs && ListOk(Clear(s, t), o)
  {
    hide Remove, NoDup;
    var e := s.pollers[t].events[s.pollers[t].phase.left - 1];
    RemoveIs(s.objs[o].list, e);
  }

  lemma ClearPoller(s: Sys, t: Tid)
    requires CanClear(s, t)
    ensures t in Clear(s, t).pollers && PollerOk(Clear(s, t), t)
  {
    hide Remove;
    ClearIs(s, t);
    var p, r := s.pollers[t], Clear(s, t);
    forall i | 0 <= i < |p.events|
      ensures p.events[i] in r.events && r.events[p.events[i]].ready == s.events[p.events[i]].ready
    {
      assert p.events[i] in p.events;
    }
    if SomeReady(s, p) { assert SomeReady(r, r.pollers[t]); }
  }

  // ---------- Raising ----------

  ghost predicate CanSignal(s: Sys, o: Oid) {
    && o in s.objs && s.objs[o].list != [] && ListOk(s, o)
    && s.objs[o].list[0] in s.events && EventOk(s, s.objs[o].list[0])
    && PollerOk(s, s.events[s.objs[o].list[0]].owner)
  }

  lemma SignalKeeps(s: Sys, o: Oid, cancel: bool)
    requires Inv(s) && CanSignal(s, o)
    ensures Inv(Signal(s, o, cancel))
  {
    hide Inv, ListOk, EventOk, PollerOk, Signal, CanSignal;
    SignalIs(s, o, cancel);
    var r := Signal(s, o, cancel);
    var t := s.events[s.objs[o].list[0]].owner;
    forall x | x in r.events ensures EventOk(r, x) { EventOf(s, x); SignalEvent(s, o, cancel, x); }
    forall q | q in r.objs ensures ListOk(r, q) { ListOf(s, q); SignalList(s, o, cancel, q); }
    forall u | u in r.pollers ensures PollerOk(r, u) {
      PollerOf(s, u);
      if u != t { PollerFrame(s, r, u); } else { SignalPoller(s, o, cancel); }
    }
    InvHolds(r);
  }

  lemma SignalIs(s: Sys, o: Oid, cancel: bool)
    requires CanSignal(s, o)
    ensures o in s.objs && s.objs[o].list != [] && s.objs[o].list[0] in s.events
    ensures var e := s.objs[o].list[0]; var t := s.events[e].owner; var r := Signal(s, o, cancel);
            && t in s.pollers && s.events[e].poller == Some(t)
            && r.events.Keys == s.events.Keys && r.objs.Keys == s.objs.Keys && r.pollers.Keys == s.pollers.Keys
            && (forall x | x in s.events && x != e :: r.events[x] == s.events[x])
            && r.events[e] == s.events[e].(linked := false, poller := None, ready := true)
            && (forall u | u in s.pollers && u != t :: r.pollers[u] == s.pollers[u])
            && (forall u | u in s.pollers && u != t :: SameFor(s, r, u))
  {
    assert s.objs[o].list[0] in s.objs[o].list;
  }

  lemma SignalEvent(s: Sys, o: Oid, cancel: bool, x: Eid)
    requires CanSignal(s, o) && x in s.events && EventOk(s, x)
    ensures x in Signal(s, o, cancel).events && EventOk(Signal(s, o, cancel), x)
  {
    hide NoDup;
    TailIs(s.objs[o].list);
  }

  lemma SignalList(s: Sys, o: Oid, cancel: bool, q: Oid)
    requires CanSignal(s, o) && q in s.objs && ListOk(s, q)
    ensures q in Signal(s, o, cancel).objs && ListOk(Signal(s, o, cancel), q)
  {
    hide NoDup;
    TailIs(s.objs[o].list);
  }

  lemma SignalPoller(s: Sys, o: Oid, cancel: bool)
    requires CanSignal(s, o)
    ensures var t := s.events[s.objs[o].list[0]].owner;
            t in Signal(s, o, cancel).pollers && PollerOk(Signal(s, o, cancel), t)
  {
    SignalIs(s, o, cancel);
    var e := s.objs[o].list[0];
    var t := s.events[e].owner;
    var p, r := s.pollers[t], Signal(s, o, cancel);
    assert e in s.objs[o].list;
    var i :| 0 <= i < |p.events| && p.events[i] == e;
    assert SomeReady(r, r.pollers[t]);
  }

  // ---------- Whole runs ----------

  lemma BeginKeeps(s: Sys, t: Tid, events: seq<Eid>, noWait: bool)
    requires Inv(s) && Allowed(s, Begin(t, events, noWait))
    ensures Inv(Step(s, Begin(t, events, noWait)))
  {
    hide Inv, ListOk, PollerOk;
    var r := Step(s, Begin(t, events, noWait));
    forall e | e in r.events ensures EventOk(r, e) { EventOf(s, e); }
    forall o | o in r.objs ensures ListOk(r, o) { ListOf(s, o); ListReset(s, r, o); }
    forall u | u in r.pollers ensures PollerOk(r, u) {
      if u == t {
        BeginPoller(s, t, events, noWait);
      } else {
        PollerOf(s, u);
        PollerFrame(s, r, u);
      }
    }
    InvHolds(r);
  }

  lemma ListReset(s: Sys, r: Sys, o: Oid)
    requires o in s.objs && ListOk(s, o) && r.objs == s.objs
    requires forall e | e in s.events :: e in r.events && r.events[e] == s.events[e].(ready := r.events[e].ready)
    ensures ListOk(r, o)
  {
  }

  lemma BeginPoller(s: Sys, t: Tid, events: seq<Eid>, noWait: bool)
    requires Allowed(s, Begin(t, events, noWait))
    ensures var r := Step(s, Begin(t, events, noWait)); t in r.pollers && PollerOk(r, t)
  {
  }

  lemma RegisterKeeps(s: Sys, t: Tid)
    requires Inv(s) && Allowed(s, RegisterNext(t))
    ensures Inv(Step(s, RegisterNext(t)))
  {
    hide Inv, ListOk;
    PollerOf(s, t);
    var p := s.pollers[t];
    var e := p.events[p.phase.next];
    assert e in p.events;
    EventOf(s, e);
    Unregistered(p, p.phase.next);
    if ConditionMet(s, e) {
      MarkKeeps(s, t, e);
    } else if !p.noWait && p.polling {
      LinkKeeps(s, t, e);
    } else {
      forall x | x in s.events && s.events[x].linked && s.events[x].owner == t ensures InPrefix(p, x) { EventOf(s, x); }
      SetPollerKeeps(s, t, p.(phase := p.phase.(next := p.phase.next + 1)));
    }
  }

  lemma Unregistered(p: Poller, i: nat)
    requires NoDup(p.events) && i < |p.events| && Bound(p) <= i
    ensures !InPrefix(p, p.events[i])
  {
  }

  lemma DecideKeeps(s: Sys, t: Tid)
    requires Inv(s) && Allowed(s, Decide(t))
    ensures Inv(Step(s, Decide(t)))
  {
    hide Inv, ListOk;
    PollerOf(s, t);
    var p := s.pollers[t];
    forall x | x in s.events && s.events[x].linked && s.events[x].owner == t ensures InPrefix(p, x) { EventOf(s, x); }
    SetPollerKeeps(s, t, Step(s, Decide(t)).pollers[t]);
  }

  lemma TimeOutKeeps(s: Sys, t: Tid)
    requires Inv(s) && Allowed(s, TimeOut(t))
    ensures Inv(Step(s, TimeOut(t)))
  {
    hide Inv, ListOk;
    PollerOf(s, t);
    var p := s.pollers[t];
    forall x | x in s.events && s.events[x].linked && s.events[x].owner == t ensures InPrefix(p, x) { EventOf(s, x); }
    SetPollerKeeps(s, t, p.(phase := Clearing(p.phase.registered, EAGAIN)));
  }

  lemma ClearStepKeeps(s: Sys, t: Tid)
    requires Inv(s) && Allowed(s, ClearNext(t))
    ensures Inv(Step(s, ClearNext(t)))
  {
    hide Inv, ListOk;
    PollerOf(s, t);
    var p := s.pollers[t];
    if p.phase.left == 0 {
      forall x | x in s.events && s.events[x].linked && s.events[x].owner == t ensures InPrefix(p, x) { EventOf(s, x); }
      SetPollerKeeps(s, t, p.(phase := Returned(p.phase.rc)));
    } else {
      assert p.events[p.phase.left - 1] in p.events;
      EventOf(s, p.events[p.phase.left - 1]);
      ClearKeeps(s, t);
    }
  }

  lemma MaySignal(s: Sys, o: Oid)
    requires Inv(s) && o in s.objs && s.objs[o].list != []
    ensures s.objs[o].list[0] in s.events && CanSignal(s, o)
  {
    hide Inv;
    ListOf(s, o);
    assert s.objs[o].list[0] in s.objs[o].list;
    EventOf(s, s.objs[o].list[0]);
    PollerOf(s, s.events[s.objs[o].list[0]].owner);
  }

  lemma StepKeeps(s: Sys, op: Op)
    requires Inv(s) && Allowed(s, op)
    ensures Inv(Step(s, op))
  {
    hide Inv, Signal, Register, Clear;
    match op
    case Begin(t, events, noWait) => BeginKeeps(s, t, events, noWait);
    case RegisterNext(t) => RegisterKeeps(s, t);
    case Decide(t) => DecideKeeps(s, t);
    case TimeOut(t) => TimeOutKeeps(s, t);
    case ClearNext(t) => ClearStepKeeps(s, t);
    case Raise(o, cancel) =>
      ConditionKeeps(s, o, s.objs[o].met || !cancel);
      var r := s.(objs := s.objs[o := s.objs[o].(met := s.objs[o].met || !cancel)]);
      if s.objs[o].list != [] {
        MaySignal(r, o);
        SignalKeeps(r, o, cancel);
      }
    case SetCondition(o, met) => ConditionKeeps(s, o, met);
  }

  ghost predicate RunAllowed(s: Sys, ops: seq<Op>)
    decreases |ops|
  {
    ops != [] ==> Allowed(s, ops[0]) && RunAllowed(Step(s, ops[0]), ops[1..])
  }

  function Run(s: Sys, ops: seq<Op>): Sys
    decreases |ops|
  {
    if ops == [] then s else Run(Step(s, ops[0]), ops[1..])
  }

  ghost predicate PollPromises(s: Sys, t: Tid)
    requires t in s.pollers
  {
    var p := s.pollers[t];
    && (forall e | e in s.events && s.events[e].owner == t && s.events[e].linked :: InPrefix(p, e))
    && (p.phase.Idle? || p.phase.Returned? ==>
       forall e | e in s.events && s.events[e].owner == t :: !s.events[e].linked)
    && (p.phase.Pended? ==> AllLinked(s, p, |p.events|))
    && (p.phase == Returned(Ok) ==> SomeReady(s, p))
  }

  /** After every run, whatever the interleaving of threads and raises: the registered events
      of a thread are a prefix of its array, none is linked once its call has returned, a
      thread that waits has all its events linked, and a call that returned success has an
      event that is ready. */
  lemma {:induction false} EveryRunKeepsPromises(s: Sys, ops: seq<Op>)
    requires Inv(s) && RunAllowed(s, ops)
    ensures Inv(Run(s, ops)) && forall t | t in Run(s, ops).pollers :: PollPromises(Run(s, ops), t)
    decreases |ops|
  {
    hide Inv, Step, Allowed;
    if ops == [] {
      forall t | t in s.pollers ensures PollPromises(s, t) {
        PollerOf(s, t);
        forall e | e in s.events && s.events[e].owner == t && s.events[e].linked
          ensures InPrefix(s.pollers[t], e)
        {
          EventOf(s, e);
        }
      }
    } else {
      StepKeeps(s, ops[0]);
      EveryRunKeepsPromises(Step(s, ops[0]), ops[1..]);
    }
  }

  /** The call of a thread is bound to return: it does not wait and will not. */
  predicate WillReturn(p: Poller) {
    (p.phase.Registering? && !p.polling) || p.phase.Clearing? || p.phase.Returned?
  }

  /** A raise that takes one of a thread's events off a list, at any moment after the event
      was registered, makes the thread's call return: with success, or as cancelled if the
      thread was waiting and the raise cancels, or with the code it is returning already. */
  lemma RaiseReleases(s: Sys, o: Oid, cancel: bool)
    requires Inv(s) && o in s.objs && s.objs[o].list != []
    ensures var e := s.objs[o].list[0]; var r := Step(s, Raise(o, cancel));
            && e in s.events && e in r.events && r.events[e].ready && !r.events[e].linked
            && s.events[e].owner in s.pollers && s.events[e].owner in r.pollers
            && WillReturn(r.pollers[s.events[e].owner])
            && CodeOf(r.pollers[s.events[e].owner]) ==
               (match s.pollers[s.events[e].owner].phase
                case Pended(_) => if cancel then EINTR else Ok
                case Clearing(_, rc) => rc
                case _ => Ok)
  {
    hide Inv, ListOk;
    ListOf(s, o);
    HeadLinked(s, o);
    EventOf(s, s.objs[o].list[0]);
    PollerOf(s, s.events[s.objs[o].list[0]].owner);
  }

  lemma HeadLinked(s: Sys, o: Oid)
    requires o in s.objs && ListOk(s, o) && s.objs[o].list != []
    ensures s.objs[o].list[0] in s.events && s.events[s.objs[o].list[0]].linked
  {
    assert s.objs[o].list[0] in s.objs[o].list;
  }

  /** How many own steps a call that is bound to return still takes. */
  function StepsLeft(p: Poller): nat {
    match p.phase
    case Registering(next, k) => (if next <= |p.events| then |p.events| - next else 0) + k + 2
    case Clearing(k, _) => k + 1
    case _ => 0
  }

  /** The code it returns. */
  function CodeOf(p: Poller): Code {
    match p.phase
    case Clearing(_, rc) => rc
    case Returned(rc) => rc
    case _ => Ok
  }

  predicate OwnStep(op: Op, t: Tid) {
    match op
    case RegisterNext(u) => u == t
    case Decide(u) => u == t
    case ClearNext(u) => u == t
    case TimeOut(u) => u == t
    case _ => false
  }

  /** There is always a next own step, until the call has returned. */
  lemma CanGoOn(s: Sys, t: Tid)
    requires Inv(s) && t in s.pollers && WillReturn(s.pollers[t])
    ensures StepsLeft(s.pollers[t]) == 0 <==> s.pollers[t].phase.Returned?
    ensures StepsLeft(s.pollers[t]) > 0 ==>
              Allowed(s, RegisterNext(t)) || Allowed(s, Decide(t)) || Allowed(s, ClearNext(t))
  {
    hide Inv;
    PollerOf(s, t);
  }

  /** Each own step takes the call one step closer to its return, no other step takes it
      further away, and the code it returns is settled. */
  lemma StaysReturning(s: Sys, op: Op, t: Tid)
    requires Inv(s) && Allowed(s, op) && t in s.pollers && WillReturn(s.pollers[t]) && !(op.Begin? && op.t == t)
    ensures t in Step(s, op).pollers && WillReturn(Step(s, op).pollers[t])
    ensures var p, q := s.pollers[t], Step(s, op).pollers[t];
            StepsLeft(q) == StepsLeft(p) - (if OwnStep(op, t) then 1 else 0) && CodeOf(q) == CodeOf(p)
  {
    hide Inv, Register, Clear;
    PollerOf(s, t);
    match op
    case RegisterNext(u) => RegisterPollers(s, u);
    case ClearNext(u) => ClearPollers(s, u);
    case _ =>
  }

  /** A registration turn changes no other thread and moves on by one event. */
  lemma RegisterPollers(s: Sys, u: Tid)
    requires Inv(s) && Allowed(s, RegisterNext(u))
    ensures var r := Step(s, RegisterNext(u)); var p := s.pollers[u];
            && u in r.pollers && (forall t | t in s.pollers && t != u :: t in r.pollers && r.pollers[t] == s.pollers[t])
            && r.pollers[u].events == p.events && r.pollers[u].phase.Registering?
            && r.pollers[u].phase.next == p.phase.next + 1
            && (!p.polling ==> !r.pollers[u].polling && r.pollers[u].phase.registered == p.phase.registered)
  {
    hide Inv, AddEvent;
    PollerOf(s, u);
    assert s.pollers[u].events[s.pollers[u].phase.next] in s.pollers[u].events;
  }

  lemma ClearPollers(s: Sys, u: Tid)
    requires Inv(s) && Allowed(s, ClearNext(u))
    ensures var r := Step(s, ClearNext(u)); var p := s.pollers[u];
            && u in r.pollers && (forall t | t in s.pollers && t != u :: t in r.pollers && r.pollers[t] == s.pollers[t])
            && r.pollers[u].phase ==
               if p.phase.left == 0 then Returned(p.phase.rc) else Clearing(p.phase.left - 1, p.phase.rc)
  {
    hide Inv, Remove;
    PollerOf(s, u);
    if s.pollers[u].phase.left > 0 {
      assert s.pollers[u].events[s.pollers[u].phase.left - 1] in s.pollers[u].events;
    }
  }

  function OwnSteps(ops: seq<Op>, t: Tid): nat {
    if ops == [] then 0 else (if OwnStep(ops[0], t) then 1 else 0) + OwnSteps(ops[1..], t)
  }

  /** Once a call is bound to return, no run brings it to wait again, and it has returned,
      with the code settled when it was released, exactly when it has taken the steps left. */
  lemma {:induction false} ReleasedCallReturns(s: Sys, ops: seq<Op>, t: Tid)
    requires Inv(s) && RunAllowed(s, ops) && t in s.pollers && WillReturn(s.pollers[t])
    requires forall i | 0 <= i < |ops| :: !(ops[i].Begin? && ops[i].t == t)
    ensures var n := StepsLeft(s.pollers[t]); var r := Run(s, ops);
            && t in r.pollers && !r.pollers[t].phase.Pended? && OwnSteps(ops, t) <= n
            && (r.pollers[t].phase == Returned(CodeOf(s.pollers[t])) <==> OwnSteps(ops, t) == n)
    decreases |ops|
  {
    hide Step, Inv, Allowed;
    if ops == [] {
      CanGoOn(s, t);
    } else {
      assert !(ops[0].Begin? && ops[0].t == t);
      StaysReturning(s, ops[0], t);
      StepKeeps(s, ops[0]);
      ReleasedCallReturns(Step(s, ops[0]), ops[1..], t);
    }
  }

  // ---------- Events that are overlooked ----------

  /** The event of a call that is not bound to return. */
  predicate Waits(s: Sys, e: Eid) {
    e in s.events && s.events[e].owner in s.pollers && !WillReturn(s.pollers[s.events[e].owner])
  }

  /** Some call goes on waiting for an object whose condition holds. */
  ghost predicate Overlooked(s: Sys, o: Oid) {
    o in s.objs && s.objs[o].met && exists e :: e in s.objs[o].list && Waits(s, e)
  }

  ghost predicate NoneOverlooked(s: Sys) { forall o | o in s.objs :: !Overlooked(s, o) }

  /** A raise that is not a cancellation while a second thread waits for the object, or a
      condition that comes to hold without a raise while some thread waits. */
  ghost predicate Overlooks(s: Sys, op: Op) {
    match op
    case Raise(o, cancel) =>
      && !cancel && o in s.objs
      && exists i :: 0 < i < |s.objs[o].list| && WaitsBehind(s, s.objs[o].list[0], s.objs[o].list[i])
    case SetCondition(o, met) => met && o in s.objs && exists e :: e in s.objs[o].list && Waits(s, e)
    case _ => false
  }

  /** The event `e` of a waiting thread other than that of `first`. */
  ghost predicate WaitsBehind(s: Sys, first: Eid, e: Eid) {
    Waits(s, e) && first in s.events && s.events[e].owner != s.events[first].owner
  }

  /** Nothing new is waited for, and no condition comes to hold. */
  lemma Quiet(s: Sys, r: Sys)
    requires NoneOverlooked(s)
    requires forall o, e | o in r.objs && r.objs[o].met && e in r.objs[o].list && Waits(r, e) ::
               o in s.objs && s.objs[o].met && e in s.objs[o].list && Waits(s, e)
    ensures NoneOverlooked(r)
  {
    forall o | o in r.objs ensures !Overlooked(r, o) {
      if Overlooked(r, o) {
        var e :| e in r.objs[o].list && Waits(r, e);
        assert Overlooked(s, o);
      }
    }
  }

  lemma BeginOverlooks(s: Sys, t: Tid, events: seq<Eid>, noWait: bool)
    requires Inv(s) && Allowed(s, Begin(t, events, noWait)) && NoneOverlooked(s)
    ensures NoneOverlooked(Step(s, Begin(t, events, noWait)))
  {
    hide Inv, Reset;
    var r := Step(s, Begin(t, events, noWait));
    forall o, e | o in r.objs && r.objs[o].met && e in r.objs[o].list && Waits(r, e)
      ensures o in s.objs && s.objs[o].met && e in s.objs[o].list && Waits(s, e)
    {
      ListOf(s, o);
      EventOf(s, e);
    }
    Quiet(s, r);
  }

  lemma RegisterOverlooks(s: Sys, t: Tid)
    requires Inv(s) && Allowed(s, RegisterNext(t)) && NoneOverlooked(s)
    ensures NoneOverlooked(Step(s, RegisterNext(t)))
  {
    hide Inv, AddEvent;
    PollerOf(s, t);
    var p := s.pollers[t];
    var e := p.events[p.phase.next];
    assert e in p.events;
    var r := Step(s, RegisterNext(t));
    if e in s.events && s.events[e].obj.Some? && s.events[e].obj.value in s.objs {
      var o := s.events[e].obj.value;
      ListOf(s, o);
      EventOf(s, e);
      Unregistered(p, p.phase.next);
      AddIs(s, s.objs[o].list, e, p.prio);
    }
    forall x, f | x in r.objs && r.objs[x].met && f in r.objs[x].list && Waits(r, f)
      ensures x in s.objs && s.objs[x].met && f in s.objs[x].list && Waits(s, f)
    {
    }
    Quiet(s, r);
  }

  /** Leaving out steps that raise or set a condition, calls only come closer to their return. */
  lemma OwnOverlooks(s: Sys, op: Op)
    requires Inv(s) && Allowed(s, op) && NoneOverlooked(s) && (op.Decide? || op.TimeOut? || op.ClearNext?)
    ensures NoneOverlooked(Step(s, op))
  {
    hide Inv, Remove;
    var r := Step(s, op);
    PollerOf(s, op.t);
    if op.ClearNext? && s.pollers[op.t].phase.left > 0 {
      var e := s.pollers[op.t].events[s.pollers[op.t].phase.left - 1];
      assert e in s.pollers[op.t].events;
      if HasObj(s, e) {
        ListOf(s, s.events[e].obj.value);
        RemoveIs(s.objs[s.events[e].obj.value].list, e);
      }
    }
    forall x, f | x in r.objs && r.objs[x].met && f in r.objs[x].list && Waits(r, f)
      ensures x in s.objs && s.objs[x].met && f in s.objs[x].list && Waits(s, f)
    {
    }
    Quiet(s, r);
  }

  lemma ConditionOverlooks(s: Sys, o: Oid, met: bool)
    requires Inv(s) && o in s.objs && NoneOverlooked(s)
    ensures NoneOverlooked(Step(s, SetCondition(o, met))) <==> !Overlooks(s, SetCondition(o, met))
  {
    hide Inv;
    var r := Step(s, SetCondition(o, met));
    if Overlooks(s, SetCondition(o, met)) {
      var e :| e in s.objs[o].list && Waits(s, e);
      assert e in r.objs[o].list && Waits(r, e);
      assert Overlooked(r, o);
    } else {
      Quiet(s, r);
    }
  }

  /** Of the events that stay on the list of a raised object, those of other threads than the
      first one's are waited for as before, and the others are not. */
  lemma RaisedWaits(s: Sys, o: Oid, cancel: bool, e: Eid)
    requires Inv(s) && o in s.objs && s.objs[o].list != [] && e in s.objs[o].list[1..]
    ensures e in s.objs[o].list && e != s.objs[o].list[0]
    ensures Waits(Step(s, Raise(o, cancel)), e) <==> WaitsBehind(s, s.objs[o].list[0], e)
  {
    hide Inv;
    ListOf(s, o);
    assert s.objs[o].list[0] in s.objs[o].list;
    EventOf(s, s.objs[o].list[0]);
    EventOf(s, e);
    RaiseReleases(s, o, cancel);
  }

  lemma RaiseOverlooks(s: Sys, o: Oid, cancel: bool)
    requires Inv(s) && o in s.objs && NoneOverlooked(s)
    ensures NoneOverlooked(Step(s, Raise(o, cancel))) <==> !Overlooks(s, Raise(o, cancel))
  {
    hide Inv;
    var list, r := s.objs[o].list, Step(s, Raise(o, cancel));
    ListOf(s, o);
    if list == [] {
      Quiet(s, r);
      return;
    }
    var head := list[0];
    assert head in list;
    EventOf(s, head);
    forall e | e in list[1..] ensures e in list && e != head && (Waits(r, e) <==> WaitsBehind(s, head, e)) {
      RaisedWaits(s, o, cancel, e);
    }
    if Overlooks(s, Raise(o, cancel)) {
      var i :| 0 < i < |list| && WaitsBehind(s, head, list[i]);
      assert list[i] == list[1..][i - 1];
      assert list[i] in r.objs[o].list && Waits(r, list[i]);
      assert Overlooked(r, o);
    } else {
      forall x, f | x in r.objs && r.objs[x].met && f in r.objs[x].list && Waits(r, f)
        ensures x in s.objs && s.objs[x].met && f in s.objs[x].list && Waits(s, f)
      {
      }
      Quiet(s, r);
    }
  }

  /** The exact condition under which a step leaves some call waiting for an object whose
      condition holds. */
  lemma StepOverlooksIff(s: Sys, op: Op)
    requires Inv(s) && Allowed(s, op) && NoneOverlooked(s)
    ensures NoneOverlooked(Step(s, op)) <==> !Overlooks(s, op)
  {
    hide Inv, NoneOverlooked, Step;
    match op
    case Begin(t, events, noWait) => BeginOverlooks(s, t, events, noWait);
    case RegisterNext(t) => RegisterOverlooks(s, t);
    case Raise(o, cancel) => RaiseOverlooks(s, o, cancel);
    case SetCondition(o, met) => ConditionOverlooks(s, o, met);
    case _ => OwnOverlooks(s, op);
  }

  // ---------- Initialisation ----------

  /** Objects, events and threads as they are set up: nothing is linked and nobody polls. */
  function Init(events: map<Eid, Event>, objs: map<Oid, bool>, prios: map<Tid, int>): Sys {
    Sys(map e | e in events :: events[e].(linked := false, poller := None, ready := false),
        map o | o in objs :: Obj(objs[o], []),
        map t | t in prios :: Poller(prios[t], false, [], false, Idle))
  }

  lemma InitOk(events: map<Eid, Event>, objs: map<Oid, bool>, prios: map<Tid, int>)
    ensures Inv(Init(events, objs, prios))
  {
  }

  // ---------- A run that overlooks a waiting call ----------

  /** Two threads, each with one event on the same object. */
  function Pair(): Sys {
    Init(map[0 := Event(Some(0), 0, false, None, false), 1 := Event(Some(0), 1, false, None, false)],
         map[0 := false], map[0 := 5, 1 := 5])
  }

  function Free(t: Tid): Event { Event(Some(0), t, false, None, false) }

  function Held(t: Tid): Event { Event(Some(0), t, true, Some(t), false) }

  const RESTING := Poller(5, false, [], false, Idle)

  function Starting(t: Tid): Poller { Poller(5, true, [t], false, Registering(0, 0)) }

  function Registered(t: Tid): Poller { Poller(5, true, [t], false, Registering(1, 1)) }

  function Waiting(t: Tid): Poller { Poller(5, false, [t], false, Pended(1)) }

  function Duo(list: seq<Eid>, e: Event, f: Event, p: Poller, q: Poller): Sys {
    Sys(map[0 := e, 1 := f], map[0 := Obj(false, list)], map[0 := p, 1 := q])
  }

  function BothWait(): Sys { Duo([0, 1], Held(0), Held(1), Waiting(0), Waiting(1)) }

  lemma PairIs()
    ensures Pair() == Duo([], Free(0), Free(1), RESTING, RESTING)
  {
    var s, r := Pair(), Duo([], Free(0), Free(1), RESTING, RESTING);
    assert s.events == r.events && s.objs == r.objs && s.pollers == r.pollers;
  }

  lemma FirstBegins()
    ensures var s := Duo([], Free(0), Free(1), RESTING, RESTING);
            && Allowed(s, Begin(0, [0], false))
            && Step(s, Begin(0, [0], false)) == Duo([], Free(0), Free(1), Starting(0), RESTING)
  {
    var s := Duo([], Free(0), Free(1), RESTING, RESTING);
    assert Reset(s.events, [0]) == s.events;
  }

  lemma FirstRegisters()
    ensures var s := Duo([], Free(0), Free(1), Starting(0), RESTING);
            && Allowed(s, RegisterNext(0))
            && Step(s, RegisterNext(0)) == Duo([0], Held(0), Free(1), Registered(0), RESTING)
  {
    var s := Duo([], Free(0), Free(1), Starting(0), RESTING);
    assert AddEvent(s, [], 0, 5) == [0];
  }

  lemma FirstWaits()
    ensures var s := Duo([0], Held(0), Free(1), Registered(0), RESTING);
            && Allowed(s, Decide(0))
            && Step(s, Decide(0)) == Duo([0], Held(0), Free(1), Waiting(0), RESTING)
  {
  }

  lemma SecondBegins()
    ensures var s := Duo([0], Held(0), Free(1), Waiting(0), RESTING);
            && Allowed(s, Begin(1, [1], false))
            && Step(s, Begin(1, [1], false)) == Duo([0], Held(0), Free(1), Waiting(0), Starting(1))
  {
    var s := Duo([0], Held(0), Free(1), Waiting(0), RESTING);
    assert Reset(s.events, [1]) == s.events;
  }

  lemma SecondRegisters()
    ensures var s := Duo([0], Held(0), Free(1), Waiting(0), Starting(1));
            && Allowed(s, RegisterNext(1))
            && Step(s, RegisterNext(1)) == Duo([0, 1], Held(0), Held(1), Waiting(0), Registered(1))
  {
    var s := Duo([0], Held(0), Free(1), Waiting(0), Starting(1));
    assert PrioOf(s, 0) == 5 && [0][1..] == [];
    assert InsertEvent(s, [], 1, 5) == [1];
    assert AddEvent(s, [0], 1, 5) == [0, 1];
  }

  lemma SecondWaits()
    ensures var s := Duo([0, 1], Held(0), Held(1), Waiting(0), Registered(1));
            Allowed(s, Decide(1)) && Step(s, Decide(1)) == BothWait()
  {
  }

  lemma RaiseMisses()
    ensures var r := Step(BothWait(), Raise(0, false));
            Allowed(BothWait(), Raise(0, false)) && 1 in r.pollers && r.pollers[1] == Waiting(1) && Overlooked(r, 0)
  {
    var r := Step(BothWait(), Raise(0, false));
    assert r.objs[0].list == [1];
    assert 1 in r.objs[0].list && Waits(r, 1);
  }

  lemma RunCons(s: Sys, op: Op, ops: seq<Op>)
    requires Allowed(s, op) && RunAllowed(Step(s, op), ops)
    ensures RunAllowed(s, [op] + ops) && Run(s, [op] + ops) == Run(Step(s, op), ops)
  {
    hide Allowed, Step;
    assert ([op] + ops)[1..] == ops;
  }

  /** Two threads come to wait for one object; a raise releases the first, and the second
      goes on waiting although the condition holds. */
  lemma SecondPollerIsOverlooked()
    ensures Inv(Pair())
    ensures var ops := [Begin(0, [0], false), RegisterNext(0), Decide(0),
                        Begin(1, [1], false), RegisterNext(1), Decide(1), Raise(0, false)];
            && RunAllowed(Pair(), ops)
            && 1 in Run(Pair(), ops).pollers && Run(Pair(), ops).pollers[1] == Waiting(1)
            && Overlooked(Run(Pair(), ops), 0)
  {
    hide Inv, Allowed, Step, Overlooked, Duo, Pair, BothWait, Waiting;
    PairOk();
    var a, b, c := Begin(0, [0], false), RegisterNext(0), Decide(0);
    var d, e, f, g := Begin(1, [1], false), RegisterNext(1), Decide(1), Raise(0, false);
    PairIs();
    RaiseMisses();
    RunCons(BothWait(), g, []);
    SecondWaits();
    RunCons(Duo([0, 1], Held(0), Held(1), Waiting(0), Registered(1)), f, [g] + []);
    SecondRegisters();
    RunCons(Duo([0], Held(0), Free(1), Waiting(0), Starting(1)), e, [f] + ([g] + []));
    SecondBegins();
    RunCons(Duo([0], Held(0), Free(1), Waiting(0), RESTING), d, [e] + ([f] + ([g] + [])));
    FirstWaits();
    RunCons(Duo([0], Held(0), Free(1), Registered(0), RESTING), c, [d] + ([e] + ([f] + ([g] + []))));
    FirstRegisters();
    RunCons(Duo([], Free(0), Free(1), Starting(0), RESTING), b, [c] + ([d] + ([e] + ([f] + ([g] + [])))));
    FirstBegins();
    RunCons(Pair(), a, [b] + ([c] + ([d] + ([e] + ([f] + ([g] + []))))));
    assert [a, b, c, d, e, f, g] == [a] + ([b] + ([c] + ([d] + ([e] + ([f] + ([g] + []))))));
  }

  lemma PairOk()
    ensures Inv(Pair())
  {
    hide Inv;
    InitOk(map[0 := Free(0), 1 := Free(1)], map[0 := false], map[0 := 5, 1 := 5]);
  }
}
