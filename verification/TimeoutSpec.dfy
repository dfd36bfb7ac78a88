/**
  The timeout queue and the periodic timers seen from outside: an ordered schedule of
  (timeout, absolute expiry tick) pairs, a tick counter, and the announce loop that
  fires what is due and lets callbacks re-enter the queue.

  `added`, `dropped`, `fired`, and a timer's `ticks`, `lags` and `seen` are history: nothing
  reads them to decide what happens next, they only record what happened.
 */
module TimeoutSpec {

  type Id = nat

  /** `k_timeout_t`; K_NO_WAIT is `Rel(0)`. */
  datatype KTimeout = Forever | Rel(ticks: nat) | Abs(tick: nat)

  datatype Entry = Entry(id: Id, expiry: int)

  /** A `k_timer`. `ticks[k]` is the tick of its k-th expiry since it was last started, and
      `lags[k]` what `elapsed()` read while that expiry was being handled; `seen` is how many
      expiries there had been when the status was last read. */
  datatype Timer = Timer(period: KTimeout, status: nat, ticks: seq<int>, lags: seq<nat>, seen: nat)

  /** What other code may do to the queue while the lock is free; `hw` is the value
      `sys_clock_elapsed()` would return at that moment. */
  datatype Op =
    | Add(id: Id, timeout: KTimeout, hw: nat)
    | Abort(id: Id)
    | TimerStart(id: Id, duration: KTimeout, period: KTimeout, hw: nat)
    | StatusGet(id: Id)

  /** One callback of the announce loop: `before` runs between dropping the lock and the
      timer handler taking it, `after` is the user's expiry function and later interrupts. */
  datatype Callback = Callback(before: seq<Op>, hw: nat, after: seq<Op>)

  datatype Clock = Clock(
    is64: bool,
    now: int,
    remaining: nat,
    sched: seq<Entry>,
    timers: map<Id, Timer>,
    added: seq<Entry>,
    dropped: multiset<Entry>,
    fired: seq<Entry>)

  datatype Step = Do(op: Op) | Announce(ticks: nat, script: seq<Callback>)

  function Max(a: int, b: int): int { if a < b then b else a }

  // ---------- The ordered schedule ----------

  ghost predicate Sorted(s: seq<Entry>) {
    forall i, j | 0 <= i < j < |s| :: s[i].expiry <= s[j].expiry
  }

  ghost predicate UniqueIds(s: seq<Entry>) {
    forall i, j | 0 <= i < j < |s| :: s[i].id != s[j].id
  }

  ghost predicate AllFrom(s: seq<Entry>, tick: int) {
    forall i | 0 <= i < |s| :: tick <= s[i].expiry
  }

  /** How many leading entries expire no later than `tick`. */
  function Slot(s: seq<Entry>, tick: int): (k: nat)
    ensures k <= |s|
    ensures forall i | 0 <= i < k :: s[i].expiry <= tick
    ensures k < |s| ==> tick < s[k].expiry
  {
    if s == [] || tick < s[0].expiry then 0 else 1 + Slot(s[1..], tick)
  }

  /** Goes behind every entry that expires no later: equal expiries keep arrival order. */
  function Insert(s: seq<Entry>, e: Entry): seq<Entry> {
    s[..Slot(s, e.expiry)] + [e] + s[Slot(s, e.expiry)..]
  }

  /** The position of timeout `id`, or the length when it is not linked. */
  function Index(s: seq<Entry>, id: Id): (k: nat)
    ensures k <= |s|
    ensures forall i | 0 <= i < k :: s[i].id != id
    ensures k < |s| ==> s[k].id == id
  {
    if s == [] || s[0].id == id then 0 else 1 + Index(s[1..], id)
  }

  predicate Linked(s: seq<Entry>, id: Id) { Index(s, id) < |s| }

  function Remove(s: seq<Entry>, id: Id): seq<Entry> {
    var k := Index(s, id);
    if k < |s| then s[..k] + s[k + 1..] else s
  }

  // ---------- Operations ----------

  /** Ticks since the last announcement; none while an announcement has ticks left. */
  function Elapsed(c: Clock, hw: nat): nat { if c.remaining == 0 then hw else 0 }

  function Expiry(c: Clock, t: KTimeout, hw: nat): int
    requires !t.Forever?
  {
    match t
    case Abs(tick) => Max(c.now + 1, tick)
    case Rel(ticks) => c.now + ticks + 1 + Elapsed(c, hw)
  }

  /** `z_add_timeout`. Linking a linked timeout is ruled out by an assertion in the source;
      here such a call changes nothing. */
  function AddTimeout(c: Clock, id: Id, t: KTimeout, hw: nat): Clock {
    if t.Forever? || Linked(c.sched, id) then c
    else
      var e := Entry(id, Expiry(c, t, hw));
      c.(sched := Insert(c.sched, e), added := c.added + [e])
  }

  function AbortTimeout(c: Clock, id: Id): Clock {
    if Linked(c.sched, id) then
      c.(sched := Remove(c.sched, id), dropped := c.dropped + multiset{c.sched[Index(c.sched, id)]})
    else c
  }

  /** `k_timer_start` takes one tick off a relative duration; with 32-bit ticks the test that
      guards this is on an unsigned value and never holds. */
  function FirstTimeout(is64: bool, duration: KTimeout): KTimeout {
    if is64 && duration.Rel? then Rel(Max(duration.ticks - 1, 0)) else duration
  }

  function StartTimer(c: Clock, id: Id, duration: KTimeout, period: KTimeout, hw: nat): Clock {
    if duration.Forever? then c
    else
      var c1 := AbortTimeout(c, id);
      AddTimeout(c1.(timers := c1.timers[id := Timer(period, 0, [], [], 0)]), id,
                 FirstTimeout(c.is64, duration), hw)
  }

  /** `k_timer_status_get` starts the count anew. */
  function StatusRead(t: Timer): Timer { t.(status := 0, seen := |t.ticks|) }

  function ApplyOp(c: Clock, op: Op): Clock {
    match op
    case Add(id, t, hw) => if id in c.timers then c else AddTimeout(c, id, t, hw)
    case Abort(id) => AbortTimeout(c, id)
    case TimerStart(id, duration, period, hw) => StartTimer(c, id, duration, period, hw)
    case StatusGet(id) =>
      if id in c.timers then c.(timers := c.timers[id := StatusRead(c.timers[id])]) else c
  }

  function RunOps(c: Clock, ops: seq<Op>): Clock
    decreases |ops|
  {
    if ops == [] then c else RunOps(ApplyOp(c, ops[0]), ops[1..])
  }

  predicate Periodic(period: KTimeout) { period != Rel(0) && !period.Forever? }

  /** Period minus the tick that adding a timeout puts back. */
  function PeriodTicks(period: KTimeout): nat {
    if period.Rel? then Max(period.ticks - 1, 0) else 0
  }

  function Stride(period: KTimeout): nat { PeriodTicks(period) + 1 }

  /** The timeout the handler re-arms a periodic timer with. */
  function NextTimeout(c: Clock, period: KTimeout, hw: nat): KTimeout
    requires 0 <= c.now
  {
    if c.is64 then Abs(c.now + Elapsed(c, hw) + 1 + PeriodTicks(period))
    else Rel(PeriodTicks(period))
  }

  /** `z_timer_expiration_handler`, for timeouts that belong to a timer. */
  function HandleTimer(c: Clock, id: Id, hw: nat): Clock
    requires 0 <= c.now
  {
    if id !in c.timers || Linked(c.sched, id) then c
    else
      var t := c.timers[id];
      var c1 := if Periodic(t.period) then AddTimeout(c, id, NextTimeout(c, t.period, hw), hw) else c;
      c1.(timers := c1.timers[id := Expired(c, t, hw)])
  }

  function RunCallback(c: Clock, id: Id, cb: Callback): (r: Clock)
    requires Inv(c) && InFlight(c, id)
    ensures Kept(c, r)
  {
    CallbackKeeps(c, id, cb);
    RunOps(HandleTimer(RunOps(c, cb.before), id, cb.hw), cb.after)
  }

  /** The k-th callback of the announcement; a script that is too short means idle callbacks. */
  function HeadOf(script: seq<Callback>): Callback {
    if script == [] then Callback([], 0, []) else script[0]
  }

  function TailOf(script: seq<Callback>): seq<Callback> {
    if script == [] then [] else script[1..]
  }

  predicate HasDue(c: Clock) { c.sched != [] && c.sched[0].expiry <= c.now + c.remaining }

  /** The head leaves the list and the clock stands at its expiry. */
  function PopDue(c: Clock): Clock
    requires HasDue(c)
  {
    c.(now := c.sched[0].expiry, sched := c.sched[1..], fired := c.fired + [c.sched[0]])
  }

  /** One turn of the announce loop. */
  function FireOne(c: Clock, cb: Callback): (r: Clock)
    requires Inv(c) && HasDue(c)
    ensures Inv(r) && c.now <= r.now == c.sched[0].expiry && r.remaining == c.remaining - (r.now - c.now)
    ensures r.now == c.now ==> Slot(r.sched, r.now) < Slot(c.sched, c.now)
  {
    PopKeeps(c);
    var c1 := RunCallback(PopDue(c), c.sched[0].id, cb);
    c1.(remaining := c1.remaining - (c1.now - c.now))
  }

  /** The announce loop: at every turn either ticks are used up or one fewer timeout is due
      at the current tick, whatever the callbacks do. */
  function FireAll(c: Clock, script: seq<Callback>): (r: Clock)
    requires Inv(c)
    decreases c.remaining, Slot(c.sched, c.now)
  {
    if HasDue(c) then FireAll(FireOne(c, HeadOf(script)), TailOf(script))
    else c.(now := c.now + c.remaining, remaining := 0)
  }

  function ApplyStep(c: Clock, s: Step): Clock
    requires AtRest(c)
  {
    match s
    case Do(op) => ApplyOp(c, op)
    case Announce(ticks, script) =>
      assert Inv(c.(remaining := ticks));
      FireAll(c.(remaining := ticks), script)
  }

  // ---------- What every reachable state satisfies ----------

  /** The tick a running periodic timer is next due at. */
  function NextDue(t: Timer): int
    requires |t.ticks| == |t.lags| > 0
  {
    t.ticks[|t.ticks| - 1] + Stride(t.period) + t.lags[|t.lags| - 1]
  }

  /** The status counts the expiries since it was last read, and each expiry is one stride
      and the lag of the one before it later than that one. */
  ghost predicate TimerOk(t: Timer) {
    && |t.ticks| == |t.lags| && t.seen <= |t.ticks| && t.status == |t.ticks| - t.seen
    && forall k | 0 <= k < |t.ticks| - 1 :: t.ticks[k + 1] == t.ticks[k] + Stride(t.period) + t.lags[k]
  }

  ghost predicate TimersOk(timers: map<Id, Timer>) {
    forall id | id in timers :: TimerOk(timers[id])
  }

  /** A linked timer that has expired before is linked for its next due tick. */
  ghost predicate OnTime(e: Entry, timers: map<Id, Timer>)
    requires TimersOk(timers)
  {
    e.id in timers && timers[e.id].ticks != [] ==> e.expiry == NextDue(timers[e.id])
  }

  ghost predicate AllOnTime(s: seq<Entry>, timers: map<Id, Timer>)
    requires TimersOk(timers)
  {
    forall i | 0 <= i < |s| :: OnTime(s[i], timers)
  }

  /** Every timeout ever added is still linked, was cancelled, or has fired. */
  ghost predicate Accounted(c: Clock) {
    multiset(c.added) == multiset(c.sched) + multiset(c.fired) + c.dropped
  }

  ghost predicate SchedOk(s: seq<Entry>, now: int) {
    Sorted(s) && UniqueIds(s) && AllFrom(s, now)
  }

  ghost predicate FiredOk(fired: seq<Entry>, now: int) {
    Sorted(fired) && forall i | 0 <= i < |fired| :: fired[i].expiry <= now
  }

  ghost predicate Inv(c: Clock) {
    && 0 <= c.now
    && SchedOk(c.sched, c.now)
    && FiredOk(c.fired, c.now)
    && Accounted(c)
    && TimersOk(c.timers) && AllOnTime(c.sched, c.timers)
  }

  /** Between announcements: nothing that is linked is due. */
  ghost predicate AtRest(c: Clock) {
    Inv(c) && c.remaining == 0 && AllFrom(c.sched, c.now + 1)
  }

  // ---------- Schedule lemmas ----------

  lemma InsertAt(s: seq<Entry>, e: Entry)
    ensures var r := Insert(s, e); var k := Slot(s, e.expiry);
      |r| == |s| + 1 && r[k] == e && (forall i | 0 <= i < k :: r[i] == s[i])
      && (forall i | k < i < |r| :: r[i] == s[i - 1])
  {
  }

  lemma InsertBag(s: seq<Entry>, e: Entry)
    ensures multiset(Insert(s, e)) == multiset(s) + multiset{e}
  {
    var k := Slot(s, e.expiry);
    assert s == s[..k] + s[k..];
  }

  lemma InsertOk(s: seq<Entry>, e: Entry, now: int)
    requires SchedOk(s, now) && !Linked(s, e.id) && now <= e.expiry
    ensures SchedOk(Insert(s, e), now)
  {
    hide Insert, Slot;
    InsertAt(s, e);
    InsertUnique(s, e);
  }

  lemma InsertUnique(s: seq<Entry>, e: Entry)
    requires UniqueIds(s) && !Linked(s, e.id)
    ensures UniqueIds(Insert(s, e))
  {
    hide Insert, Slot;
    InsertAt(s, e);
    NotLinked(s, e);
  }

  /** In a sorted schedule the slot is the only cut between early and late entries. */
  lemma SlotUnique(s: seq<Entry>, t: int, k: nat)
    requires k <= |s|
    requires forall i | 0 <= i < k :: s[i].expiry <= t
    requires k < |s| ==> t < s[k].expiry
    ensures Slot(s, t) == k
  {
  }

  lemma InsertSlot(s: seq<Entry>, e: Entry, t: int)
    requires SchedOk(s, t) && t < e.expiry
    ensures Slot(Insert(s, e), t) == Slot(s, t)
  {
    InsertAt(s, e);
    SlotUnique(Insert(s, e), t, Slot(s, t));
  }

  lemma RemoveAt(s: seq<Entry>, id: Id)
    requires Linked(s, id)
    ensures var r := Remove(s, id); var k := Index(s, id);
      |r| == |s| - 1 && (forall i | 0 <= i < k :: r[i] == s[i]) && (forall i | k <= i < |r| :: r[i] == s[i + 1])
    ensures multiset(s) == multiset(Remove(s, id)) + multiset{s[Index(s, id)]}
  {
    hide Index;
    RemoveCounts(s, Index(s, id));
  }

  lemma RemoveCounts(s: seq<Entry>, k: nat)
    requires k < |s|
    ensures multiset(s) == multiset(s[..k] + s[k + 1..]) + multiset{s[k]}
  {
    assert s == s[..k] + [s[k]] + s[k + 1..];
  }

  lemma RemoveOk(s: seq<Entry>, id: Id, now: int)
    requires SchedOk(s, now) && Linked(s, id)
    ensures SchedOk(Remove(s, id), now) && !Linked(Remove(s, id), id)
  {
    RemoveAt(s, id);
  }

  lemma RemoveSlot(s: seq<Entry>, id: Id, t: int)
    requires SchedOk(s, t) && Linked(s, id)
    ensures Slot(Remove(s, id), t) <= Slot(s, t)
  {
    RemoveAt(s, id);
    SlotUnique(Remove(s, id), t, if Slot(s, t) <= Index(s, id) then Slot(s, t) else Slot(s, t) - 1);
  }

  // ---------- What stays linked, and in which order ----------

  /** Entry `e` comes before entry `f`. */
  ghost predicate Before(s: seq<Entry>, e: Entry, f: Entry) {
    exists i, j :: 0 <= i < j < |s| && s[i] == e && s[j] == f
  }

  /** Entry `e` was neither dropped nor fired between `c` and `r`. */
  ghost predicate Untouched(c: Clock, r: Clock, e: Entry) {
    r.dropped[e] == c.dropped[e] && multiset(r.fired)[e] == multiset(c.fired)[e]
  }

  /** One more than the position of the last arrival of `e`. */
  function Arrival(added: seq<Entry>, e: Entry): (k: nat)
    ensures k <= |added|
  {
    if added == [] then 0
    else if added[|added| - 1] == e then |added|
    else Arrival(added[..|added| - 1], e)
  }

  /** Linked timeouts of equal expiry are in the order in which they were added. */
  ghost predicate ByArrival(c: Clock) {
    forall i, j | 0 <= i < j < |c.sched| && c.sched[i].expiry == c.sched[j].expiry ::
      Arrival(c.added, c.sched[i]) < Arrival(c.added, c.sched[j])
  }

  ghost predicate LogsGrow(c: Clock, r: Clock) {
    (forall e :: c.dropped[e] <= r.dropped[e]) && (forall e :: multiset(c.fired)[e] <= multiset(r.fired)[e])
  }

  /** A linked timeout stays linked with its expiry until it is fired or dropped. */
  ghost predicate StaysLinked(c: Clock, r: Clock) {
    forall e | e in c.sched && Untouched(c, r, e) :: e in r.sched
  }

  /** Timeouts that stay linked keep their order. */
  ghost predicate StaysOrdered(c: Clock, r: Clock) {
    forall e, f | Before(c.sched, e, f) && Untouched(c, r, e) && Untouched(c, r, f) :: Before(r.sched, e, f)
  }

  ghost predicate Carried(c: Clock, r: Clock) {
    LogsGrow(c, r) && StaysLinked(c, r) && StaysOrdered(c, r) && (ByArrival(c) ==> ByArrival(r))
  }

  lemma CarriedTwice(c: Clock, m: Clock, r: Clock)
    requires Carried(c, m) && Carried(m, r)
    ensures Carried(c, r)
  {
    hide Before, ByArrival;
    forall e | Untouched(c, r, e) ensures Untouched(c, m, e) && Untouched(m, r, e) {
      assert c.dropped[e] <= m.dropped[e] <= r.dropped[e];
      assert multiset(c.fired)[e] <= multiset(m.fired)[e] <= multiset(r.fired)[e];
    }
  }

  /** Nothing happens to the schedule and its history. */
  lemma CarriedSame(c: Clock, r: Clock)
    requires r.sched == c.sched && r.added == c.added && r.dropped == c.dropped && r.fired == c.fired
    ensures Carried(c, r)
  {
  }

  lemma ArrivalMore(added: seq<Entry>, x: Entry, e: Entry)
    ensures Arrival(added + [x], e) == if x == e then |added| + 1 else Arrival(added, e)
  {
    assert (added + [x])[..|added|] == added;
  }

  lemma CarriedInsert(c: Clock, e: Entry)
    requires !Linked(c.sched, e.id) && Sorted(c.sched)
    ensures Carried(c, c.(sched := Insert(c.sched, e), added := c.added + [e]))
  {
    hide Insert, Slot, Arrival, Before, ByArrival, Linked, Sorted;
    InsertMembers(c.sched, e);
    InsertOrder(c.sched, e);
    if ByArrival(c) { InsertArrival(c, e); }
  }

  lemma InsertMembers(s: seq<Entry>, e: Entry)
    ensures forall x | x in s :: x in Insert(s, e)
  {
    hide Insert, Slot;
    InsertAt(s, e);
    var k, r := Slot(s, e.expiry), Insert(s, e);
    assert forall i | 0 <= i < |s| :: s[i] == r[if i < k then i else i + 1];
  }

  lemma InsertOrder(s: seq<Entry>, e: Entry)
    ensures forall x, y | Before(s, x, y) :: Before(Insert(s, e), x, y)
  {
    hide Insert, Slot;
    InsertAt(s, e);
    var k, r := Slot(s, e.expiry), Insert(s, e);
    forall x, y | Before(s, x, y) ensures Before(r, x, y) {
      var i, j :| 0 <= i < j < |s| && s[i] == x && s[j] == y;
      var i', j' := if i < k then i else i + 1, if j < k then j else j + 1;
      assert r[i'] == x && r[j'] == y;
    }
  }

  lemma InsertArrival(c: Clock, e: Entry)
    requires !Linked(c.sched, e.id) && Sorted(c.sched) && ByArrival(c)
    ensures ByArrival(c.(sched := Insert(c.sched, e), added := c.added + [e]))
  {
    hide Insert, Slot, Arrival;
    var r := c.(sched := Insert(c.sched, e), added := c.added + [e]);
    InsertAt(c.sched, e);
    var k := Slot(c.sched, e.expiry);
    forall i, j | 0 <= i < j < |r.sched| && r.sched[i].expiry == r.sched[j].expiry
      ensures Arrival(r.added, r.sched[i]) < Arrival(r.added, r.sched[j])
    {
      ArrivalMore(c.added, e, r.sched[i]);
      ArrivalMore(c.added, e, r.sched[j]);
      NotLinked(c.sched, e);
    }
  }

  lemma NotLinked(s: seq<Entry>, e: Entry)
    requires !Linked(s, e.id)
    ensures forall i | 0 <= i < |s| :: s[i] != e
  {
  }

  lemma CarriedRemove(c: Clock, id: Id)
    requires Linked(c.sched, id)
    ensures Carried(c, c.(sched := Remove(c.sched, id), dropped := c.dropped + multiset{c.sched[Index(c.sched, id)]}))
  {
    hide Remove, Index, Arrival, Before;
    var k := Index(c.sched, id);
    var r := c.(sched := Remove(c.sched, id), dropped := c.dropped + multiset{c.sched[k]});
    RemoveAt(c.sched, id);
    RemoveOrder(c.sched, id);
    forall e | Untouched(c, r, e) ensures e != c.sched[k] { }
    forall e | e in c.sched && Untouched(c, r, e) ensures e in r.sched {
      var i :| 0 <= i < |c.sched| && c.sched[i] == e;
      assert r.sched[if i < k then i else i - 1] == e;
    }
  }

  lemma RemoveOrder(s: seq<Entry>, id: Id)
    requires Linked(s, id)
    ensures forall x, y | Before(s, x, y) && x != s[Index(s, id)] && y != s[Index(s, id)] :: Before(Remove(s, id), x, y)
  {
    hide Remove, Index;
    RemoveAt(s, id);
    var k, r := Index(s, id), Remove(s, id);
    forall x, y | Before(s, x, y) && x != s[k] && y != s[k] ensures Before(r, x, y) {
      var i, j :| 0 <= i < j < |s| && s[i] == x && s[j] == y;
      var i', j' := if i < k then i else i - 1, if j < k then j else j - 1;
      assert r[i'] == x && r[j'] == y;
    }
  }

  lemma CarriedPop(c: Clock)
    requires HasDue(c)
    ensures Carried(c, PopDue(c))
  {
    hide Arrival;
    var r := PopDue(c);
    assert forall i | 0 <= i < |r.sched| :: r.sched[i] == c.sched[i + 1];
    assert multiset(r.fired) == multiset(c.fired) + multiset{c.sched[0]};
    forall e | Untouched(c, r, e) ensures e != c.sched[0] { }
    forall e | e in c.sched && Untouched(c, r, e) ensures e in r.sched {
      var i :| 0 <= i < |c.sched| && c.sched[i] == e;
      assert r.sched[i - 1] == e;
    }
    forall e, f | Before(c.sched, e, f) && Untouched(c, r, e) && Untouched(c, r, f) ensures Before(r.sched, e, f) {
      var i, j :| 0 <= i < j < |c.sched| && c.sched[i] == e && c.sched[j] == f;
      assert r.sched[i - 1] == e && r.sched[j - 1] == f;
    }
  }

  // ---------- Each operation keeps the invariant ----------

  /** Same instant, no more timeouts due now than before, rest is kept, and linked timeouts
      stay as they are unless they are dropped. */
  ghost predicate Kept(c: Clock, r: Clock)
    requires Inv(c)
  {
    && Inv(r) && r.now == c.now && r.remaining == c.remaining
    && Slot(r.sched, r.now) <= Slot(c.sched, c.now)
    && (AtRest(c) ==> AtRest(r))
    && r.fired == c.fired && Carried(c, r)
  }

  lemma KeptTwice(c: Clock, m: Clock, r: Clock)
    requires Inv(c) && Kept(c, m) && Kept(m, r)
    ensures Kept(c, r)
  {
    hide Inv, Slot, AtRest, Carried;
    CarriedTwice(c, m, r);
  }

  lemma AddKeeps(c: Clock, id: Id, t: KTimeout, hw: nat)
    requires Inv(c)
    requires !t.Forever? ==> OnTime(Entry(id, Expiry(c, t, hw)), c.timers)
    ensures Kept(c, AddTimeout(c, id, t, hw))
  {
    hide Slot, Insert, SchedOk, AllFrom, FiredOk, Carried, Linked;
    CarriedSame(c, c);
    if !t.Forever? && !Linked(c.sched, id) { AddLinked(c, Entry(id, Expiry(c, t, hw))); }
  }

  lemma AddLinked(c: Clock, e: Entry)
    requires Inv(c) && !Linked(c.sched, e.id) && OnTime(e, c.timers) && c.now < e.expiry
    ensures Kept(c, c.(sched := Insert(c.sched, e), added := c.added + [e]))
  {
    hide Slot, Insert, SchedOk, AllFrom, FiredOk, Carried, Linked, Sorted, UniqueIds, AllOnTime, TimersOk;
    SchedSorted(c.sched, c.now);
    CarriedInsert(c, e);
    InsertBag(c.sched, e);
    InsertOk(c.sched, e, c.now);
    InsertSlot(c.sched, e, c.now);
    InsertAll(c, e);
  }

  lemma SchedSorted(s: seq<Entry>, now: int)
    requires SchedOk(s, now)
    ensures Sorted(s) && UniqueIds(s)
  {
  }

  lemma InsertAll(c: Clock, e: Entry)
    requires Inv(c) && OnTime(e, c.timers) && c.now < e.expiry
    ensures AllOnTime(Insert(c.sched, e), c.timers)
    ensures AtRest(c) ==> AllFrom(Insert(c.sched, e), c.now + 1)
  {
    InsertAt(c.sched, e);
  }

  lemma AbortKeeps(c: Clock, id: Id)
    requires Inv(c)
    ensures Kept(c, AbortTimeout(c, id)) && !Linked(AbortTimeout(c, id).sched, id)
  {
    hide Slot, Carried, Inv, AtRest, Linked, Remove;
    CarriedSame(c, c);
    if Linked(c.sched, id) {
      CarriedRemove(c, id);
      AbortInv(c, id);
      RemoveSlot(c.sched, id, c.now);
    }
  }

  lemma AbortInv(c: Clock, id: Id)
    requires Inv(c) && Linked(c.sched, id)
    ensures var r := AbortTimeout(c, id);
            Inv(r) && !Linked(r.sched, id) && (AtRest(c) ==> AtRest(r)) && SchedOk(c.sched, c.now)
  {
    hide FiredOk, Remove, SchedOk, Linked;
    RemoveAt(c.sched, id);
    RemoveOk(c.sched, id, c.now);
  }

  lemma OpKeeps(c: Clock, op: Op)
    requires Inv(c)
    ensures Kept(c, ApplyOp(c, op))
  {
    hide Carried;
    CarriedSame(c, c);
    match op
    case Add(id, t, hw) => if id !in c.timers { AddKeeps(c, id, t, hw); }
    case Abort(id) => AbortKeeps(c, id);
    case TimerStart(id, duration, period, hw) => StartKeeps(c, id, duration, period, hw);
    case StatusGet(id) => if id in c.timers { SetTimerKeeps(c, id, StatusRead(c.timers[id])); }
  }

  lemma SetTimerKeeps(c: Clock, id: Id, t: Timer)
    requires Inv(c) && TimerOk(t)
    requires t.ticks == [] || !Linked(c.sched, id)
             || (id in c.timers && t == c.timers[id].(status := t.status, seen := t.seen))
    ensures Kept(c, c.(timers := c.timers[id := t]))
  {
    hide Carried;
    CarriedSame(c, c.(timers := c.timers[id := t]));
  }

  lemma StartKeeps(c: Clock, id: Id, duration: KTimeout, period: KTimeout, hw: nat)
    requires Inv(c)
    ensures Kept(c, StartTimer(c, id, duration, period, hw))
  {
    hide Carried, Slot, Insert;
    CarriedSame(c, c);
    if !duration.Forever? {
      AbortKeeps(c, id);
      var c1 := AbortTimeout(c, id);
      var t := Timer(period, 0, [], [], 0);
      var c2 := c1.(timers := c1.timers[id := t]);
      SetTimerKeeps(c1, id, t);
      AddKeeps(c2, id, FirstTimeout(c.is64, duration), hw);
      KeptTwice(c, c1, c2);
      KeptTwice(c, c2, AddTimeout(c2, id, FirstTimeout(c.is64, duration), hw));
    }
  }

  /** A timer whose expiry is being handled and that was not restarted meanwhile is handled
      at the very tick it was due. */
  ghost predicate InFlight(c: Clock, id: Id)
    requires Inv(c)
  {
    OnTime(Entry(id, c.now), c.timers)
  }

  function TimersAfter(timers: map<Id, Timer>, op: Op): map<Id, Timer> {
    match op
    case TimerStart(id, duration, period, _) =>
      if duration.Forever? then timers else timers[id := Timer(period, 0, [], [], 0)]
    case StatusGet(id) => if id in timers then timers[id := StatusRead(timers[id])] else timers
    case _ => timers
  }

  lemma OpTimers(c: Clock, op: Op)
    ensures ApplyOp(c, op).timers == TimersAfter(c.timers, op)
  {
    hide AddTimeout, AbortTimeout;
    match op
    case Add(id, t, hw) => LinksLeaveTimers(c, id, t, hw);
    case Abort(id) => LinksLeaveTimers(c, id, Forever, 0);
    case TimerStart(id, duration, period, hw) =>
      LinksLeaveTimers(c, id, duration, hw);
      var c1 := AbortTimeout(c, id);
      LinksLeaveTimers(c1.(timers := c1.timers[id := Timer(period, 0, [], [], 0)]), id, FirstTimeout(c.is64, duration),
          hw);
    case StatusGet(_) =>
  }

  lemma LinksLeaveTimers(c: Clock, id: Id, t: KTimeout, hw: nat)
    ensures AddTimeout(c, id, t, hw).timers == c.timers && AbortTimeout(c, id).timers == c.timers
  {
  }

  lemma OpKeepsOnTime(timers: map<Id, Timer>, op: Op, e: Entry)
    requires TimersOk(timers) && OnTime(e, timers)
    ensures TimersOk(TimersAfter(timers, op)) && OnTime(e, TimersAfter(timers, op))
  {
    hide TimerOk;
    TimersAfterOk(timers, op);
    if op.StatusGet? && op.id in timers && e.id == op.id {
      StatusOk(timers[op.id]);
    }
  }

  lemma TimersAfterOk(timers: map<Id, Timer>, op: Op)
    requires TimersOk(timers)
    ensures TimersOk(TimersAfter(timers, op))
  {
    hide TimerOk;
    if op.TimerStart? { StartOk(op.period); }
    if op.StatusGet? && op.id in timers { StatusOk(timers[op.id]); }
  }

  lemma StartOk(period: KTimeout)
    ensures TimerOk(Timer(period, 0, [], [], 0))
  {
  }

  lemma StatusOk(t: Timer)
    requires TimerOk(t)
    ensures TimerOk(StatusRead(t)) && (t.ticks != [] ==> NextDue(StatusRead(t)) == NextDue(t))
  {
  }

  lemma OpsKeep(c: Clock, ops: seq<Op>, id: Id)
    requires Inv(c)
    ensures Kept(c, RunOps(c, ops))
    ensures InFlight(c, id) ==> InFlight(RunOps(c, ops), id)
    decreases |ops|
  {
    hide Carried, Slot;
    CarriedSame(c, c);
    if ops != [] {
      OpKeeps(c, ops[0]);
      if InFlight(c, id) { OpTimers(c, ops[0]); OpKeepsOnTime(c.timers, ops[0], Entry(id, c.now)); }
      OpsKeep(ApplyOp(c, ops[0]), ops[1..], id);
      KeptTwice(c, ApplyOp(c, ops[0]), RunOps(c, ops));
    }
  }

  function Expired(c: Clock, t: Timer, hw: nat): Timer {
    Timer(t.period, t.status + 1, t.ticks + [c.now], t.lags + [Elapsed(c, hw)], t.seen)
  }

  lemma ExpiredOk(c: Clock, t: Timer, hw: nat)
    requires 0 <= c.now && TimerOk(t) && (t.ticks != [] ==> c.now == NextDue(t))
    ensures TimerOk(Expired(c, t, hw))
    ensures Expiry(c, NextTimeout(c, t.period, hw), hw) == NextDue(Expired(c, t, hw))
  {
  }

  lemma HandlerKeeps(c: Clock, id: Id, hw: nat)
    requires Inv(c) && InFlight(c, id)
    ensures Kept(c, HandleTimer(c, id, hw))
  {
    hide Carried, Slot, Insert;
    CarriedSame(c, c);
    if id in c.timers && !Linked(c.sched, id) {
      var t := c.timers[id];
      ExpiredOk(c, t, hw);
      SetTimerKeeps(c, id, Expired(c, t, hw));
      var c1 := c.(timers := c.timers[id := Expired(c, t, hw)]);
      if Periodic(t.period) {
        AddKeeps(c1, id, NextTimeout(c, t.period, hw), hw);
        assert HandleTimer(c, id, hw) == AddTimeout(c1, id, NextTimeout(c, t.period, hw), hw);
        KeptTwice(c, c1, HandleTimer(c, id, hw));
      }
    }
  }

  lemma CallbackKeeps(c: Clock, id: Id, cb: Callback)
    requires Inv(c) && InFlight(c, id)
    ensures 0 <= RunOps(c, cb.before).now
    ensures Kept(c, RunOps(HandleTimer(RunOps(c, cb.before), id, cb.hw), cb.after))
  {
    hide Carried, Slot, Linked, Insert;
    OpsKeep(c, cb.before, id);
    var c1 := RunOps(c, cb.before);
    HandlerKeeps(c1, id, cb.hw);
    var c2 := HandleTimer(c1, id, cb.hw);
    OpsKeep(c2, cb.after, id);
    KeptTwice(c, c1, c2);
    KeptTwice(c, c2, RunOps(c2, cb.after));
  }

  lemma PopKeeps(c: Clock)
    requires Inv(c) && HasDue(c)
    ensures 0 <= c.sched[0].expiry && Inv(PopDue(c)) && InFlight(PopDue(c), c.sched[0].id)
    ensures PopDue(c).now == c.now ==> Slot(PopDue(c).sched, c.now) < Slot(c.sched, c.now)
  {
    assert c.sched == [c.sched[0]] + c.sched[1..];
  }

  // ---------- Whole announcements and whole runs ----------

  lemma QuietIsRest(c: Clock)
    requires Inv(c) && !HasDue(c)
    ensures AtRest(c.(now := c.now + c.remaining, remaining := 0))
  {
  }

  /** An announcement of n ticks ends n ticks later with nothing due left behind; what it
      fired is appended in expiry order. */
  lemma {:induction false} AnnounceReachesRest(c: Clock, script: seq<Callback>)
    requires Inv(c)
    ensures AtRest(FireAll(c, script))
    ensures FireAll(c, script).now == c.now + c.remaining
    ensures c.fired <= FireAll(c, script).fired
    ensures forall i | |c.fired| <= i < |FireAll(c, script).fired| ::
              c.now <= FireAll(c, script).fired[i].expiry <= c.now + c.remaining
    decreases c.remaining, Slot(c.sched, c.now)
  {
    hide AtRest, Inv, Slot, FireOne;
    if HasDue(c) {
      FireOneLogs(c, HeadOf(script));
      AnnounceReachesRest(FireOne(c, HeadOf(script)), TailOf(script));
    } else {
      QuietIsRest(c);
    }
  }

  lemma CallbackLogs(c: Clock, id: Id, cb: Callback)
    requires Inv(c) && InFlight(c, id)
    ensures RunCallback(c, id, cb).fired == c.fired
  {
    hide Slot, Linked, Insert;
    OpsKeep(c, cb.before, id);
    OpsLog(c, cb.before);
    HandlerLogs(RunOps(c, cb.before), id, cb.hw);
    OpsLog(HandleTimer(RunOps(c, cb.before), id, cb.hw), cb.after);
  }

  lemma HandlerLogs(c: Clock, id: Id, hw: nat)
    requires 0 <= c.now
    ensures HandleTimer(c, id, hw).fired == c.fired
  {
  }

  lemma FireOneLogs(c: Clock, cb: Callback)
    requires Inv(c) && HasDue(c)
    ensures FireOne(c, cb).fired == c.fired + [c.sched[0]]
  {
    hide Inv, Slot, RunCallback;
    PopKeeps(c);
    CallbackLogs(PopDue(c), c.sched[0].id, cb);
  }

  lemma OpsLog(c: Clock, ops: seq<Op>)
    ensures RunOps(c, ops).fired == c.fired
    decreases |ops|
  {
    if ops != [] { OpsLog(ApplyOp(c, ops[0]), ops[1..]); }
  }

  ghost function Run(c: Clock, steps: seq<Step>): (r: Clock)
    requires AtRest(c)
    ensures AtRest(r)
    decreases |steps|
  {
    if steps == [] then c
    else
      StepKeepsRest(c, steps[0]);
      Run(ApplyStep(c, steps[0]), steps[1..])
  }

  lemma StepKeepsRest(c: Clock, s: Step)
    requires AtRest(c)
    ensures AtRest(ApplyStep(c, s))
  {
    match s
    case Do(op) => OpKeeps(c, op);
    case Announce(ticks, script) => AnnounceReachesRest(c.(remaining := ticks), script);
  }

  function Boot(is64: bool): Clock {
    Clock(is64, 0, 0, [], map[], [], multiset{}, [])
  }

  /** From boot on, after any run: timeouts fired in expiry order and never early, none that
      is due is still linked, and each one that came due has fired or was cancelled. */
  lemma NothingMissedOrEarly(is64: bool, steps: seq<Step>)
    ensures var c := Run(Boot(is64), steps);
      && Sorted(c.fired)
      && (forall e | e in c.fired :: e.expiry <= c.now && e in c.added)
      && (forall e | e in c.sched :: c.now < e.expiry && e in c.added)
      && (forall e | e in c.added && e.expiry <= c.now :: e in c.fired || e in c.dropped)
      && |c.added| == |c.fired| + |c.dropped| + |c.sched|
  {
    var c := Run(Boot(is64), steps);
    forall e | e in c.added && e.expiry <= c.now
      ensures e in c.fired || e in c.dropped
    {
      assert e in multiset(c.added) && e !in multiset(c.sched);
    }
    forall e | e in c.fired ensures e.expiry <= c.now && e in c.added {
      assert e in multiset(c.fired) && e in multiset(c.added);
    }
    forall e | e in c.sched ensures c.now < e.expiry && e in c.added {
      assert e in multiset(c.sched) && e in multiset(c.added);
    }
    assert |multiset(c.added)| == |c.added|;
  }

  lemma FireOneCarries(c: Clock, cb: Callback)
    requires Inv(c) && HasDue(c)
    ensures Carried(c, FireOne(c, cb))
  {
    hide Inv, Slot, RunCallback, Carried;
    PopKeeps(c);
    var c1 := RunCallback(PopDue(c), c.sched[0].id, cb);
    CarriedPop(c);
    CarriedTwice(c, PopDue(c), c1);
    CarriedSame(c1, FireOne(c, cb));
    CarriedTwice(c, c1, FireOne(c, cb));
  }

  lemma {:induction false} AnnounceCarries(c: Clock, script: seq<Callback>)
    requires Inv(c)
    ensures Carried(c, FireAll(c, script))
    decreases c.remaining, Slot(c.sched, c.now)
  {
    hide Inv, Slot, FireOne, Carried;
    if HasDue(c) {
      var c1 := FireOne(c, HeadOf(script));
      FireOneCarries(c, HeadOf(script));
      AnnounceCarries(c1, TailOf(script));
      CarriedTwice(c, c1, FireAll(c, script));
    } else {
      CarriedSame(c, FireAll(c, script));
    }
  }

  lemma StepCarries(c: Clock, s: Step)
    requires AtRest(c)
    ensures Carried(c, ApplyStep(c, s))
  {
    hide Slot, FireAll, Carried;
    match s
    case Do(op) => OpKeeps(c, op);
    case Announce(ticks, script) =>
      var c1 := c.(remaining := ticks);
      CarriedSame(c, c1);
      AnnounceCarries(c1, script);
      CarriedTwice(c, c1, ApplyStep(c, s));
  }

  lemma {:induction false} RunCarries(c: Clock, steps: seq<Step>)
    requires AtRest(c)
    ensures Carried(c, Run(c, steps))
    decreases |steps|
  {
    hide AtRest, ApplyStep, Carried;
    if steps == [] {
      CarriedSame(c, c);
    } else {
      StepKeepsRest(c, steps[0]);
      StepCarries(c, steps[0]);
      RunCarries(ApplyStep(c, steps[0]), steps[1..]);
      CarriedTwice(c, ApplyStep(c, steps[0]), Run(c, steps));
    }
  }

  /** From boot on, between any two moments: a timeout that is linked at the first is linked
      with the same expiry at the second, unless it was fired or dropped in between, and two
      such timeouts are in the same order. */
  lemma LinkedUntilFiredOrDropped(is64: bool, before: seq<Step>, after: seq<Step>)
    ensures var c := Run(Boot(is64), before); var r := Run(c, after);
      && (forall e | e in c.sched ::
            e in r.sched || c.dropped[e] < r.dropped[e] || multiset(c.fired)[e] < multiset(r.fired)[e])
      && StaysOrdered(c, r)
  {
    var c := Run(Boot(is64), before);
    RunCarries(c, after);
    assert LogsGrow(c, Run(c, after));
  }

  /** From boot on, after any run, linked timeouts of equal expiry are in the order in which
      they were added. */
  lemma EqualExpiriesKeepOrder(is64: bool, steps: seq<Step>)
    ensures ByArrival(Run(Boot(is64), steps))
  {
    RunCarries(Boot(is64), steps);
  }

  // ---------- Batching of announced ticks ----------

  ghost predicate NoLagOps(ops: seq<Op>) {
    forall i | 0 <= i < |ops| :: (ops[i].Add? || ops[i].TimerStart?) ==> ops[i].hw == 0
  }

  ghost predicate NoLag(script: seq<Callback>) {
    forall i | 0 <= i < |script| :: NoLagOps(script[i].before) && script[i].hw == 0 && NoLagOps(script[i].after)
  }

  lemma AddIgnoresRemaining(c: Clock, id: Id, t: KTimeout, r: nat)
    ensures AddTimeout(c.(remaining := r), id, t, 0) == AddTimeout(c, id, t, 0).(remaining := r)
  {
    hide Insert, Linked;
  }

  lemma OpIgnoresRemaining(c: Clock, op: Op, r: nat)
    requires (op.Add? || op.TimerStart?) ==> op.hw == 0
    ensures ApplyOp(c.(remaining := r), op) == ApplyOp(c, op).(remaining := r)
  {
    match op
    case Add(id, t, _) => AddIgnoresRemaining(c, id, t, r);
    case TimerStart(id, duration, period, _) =>
      var c1 := AbortTimeout(c, id);
      AddIgnoresRemaining(c1.(timers := c1.timers[id := Timer(period, 0, [], [], 0)]), id,
                          FirstTimeout(c.is64, duration), r);
    case _ =>
  }

  lemma HandlerIgnoresRemaining(c: Clock, id: Id, r: nat)
    requires 0 <= c.now
    ensures HandleTimer(c.(remaining := r), id, 0) == HandleTimer(c, id, 0).(remaining := r)
  {
    if id in c.timers { AddIgnoresRemaining(c, id, NextTimeout(c, c.timers[id].period, 0), r); }
  }

  lemma CallbackIgnoresRemaining(c: Clock, id: Id, cb: Callback, r: nat)
    requires Inv(c) && InFlight(c, id) && NoLagOps(cb.before) && cb.hw == 0 && NoLagOps(cb.after)
    ensures Inv(c.(remaining := r))
            && RunCallback(c.(remaining := r), id, cb) == RunCallback(c, id, cb).(remaining := r)
  {
    OpsKeep(c, cb.before, id);
    OpsIgnoreRemaining(c, cb.before, r);
    HandlerIgnoresRemaining(RunOps(c, cb.before), id, r);
    OpsIgnoreRemaining(HandleTimer(RunOps(c, cb.before), id, 0), cb.after, r);
  }

  lemma OpsIgnoreRemaining(c: Clock, ops: seq<Op>, r: nat)
    requires NoLagOps(ops)
    ensures RunOps(c.(remaining := r), ops) == RunOps(c, ops).(remaining := r)
    decreases |ops|
  {
    if ops != [] {
      OpIgnoresRemaining(c, ops[0], r);
      OpsIgnoreRemaining(ApplyOp(c, ops[0]), ops[1..], r);
    }
  }

  lemma FireIgnoresRemaining(c: Clock, cb: Callback, now: int, r: nat)
    requires NoLagOps(cb.before) && cb.hw == 0 && NoLagOps(cb.after)
    requires Inv(c) && HasDue(c) && Inv(c.(now := now, remaining := r)) && HasDue(c.(now := now, remaining := r))
    ensures FireOne(c.(now := now, remaining := r), cb)
         == FireOne(c, cb).(remaining := r - (c.sched[0].expiry - now))
  {
    PopKeeps(c);
    CallbackIgnoresRemaining(PopDue(c), c.sched[0].id, cb, r);
    assert PopDue(c.(now := now, remaining := r)) == PopDue(c).(remaining := r);
  }

  function Skip(script: seq<Callback>, k: nat): seq<Callback> {
    if k <= |script| then script[k..] else []
  }

  lemma NoLagTail(script: seq<Callback>)
    requires NoLag(script)
    ensures NoLag(TailOf(script))
    ensures NoLagOps(HeadOf(script).before) && HeadOf(script).hw == 0 && NoLagOps(HeadOf(script).after)
    ensures forall k: nat :: Skip(TailOf(script), k) == Skip(script, k + 1)
  {
  }

  lemma AdvanceKeeps(c: Clock, n1: nat, n2: nat)
    requires Inv(c) && AllFrom(c.sched, c.now + n1)
    ensures Inv(c.(remaining := n1 + n2)) && Inv(c.(now := c.now + n1, remaining := n2))
  {
  }

  lemma Advance(c: Clock, n1: nat, n2: nat, script: seq<Callback>)
    requires Inv(c) && NoLag(script) && AllFrom(c.sched, c.now + n1)
    ensures Inv(c.(remaining := n1 + n2)) && Inv(c.(now := c.now + n1, remaining := n2))
    ensures FireAll(c.(remaining := n1 + n2), script) == FireAll(c.(now := c.now + n1, remaining := n2), script)
  {
    hide Inv, Slot, FireOne, NoLag, AllFrom;
    var a, b := c.(remaining := n1 + n2), c.(now := c.now + n1, remaining := n2);
    AdvanceKeeps(c, n1, n2);
    NoLagTail(script);
    if HasDue(a) { FireIgnoresRemaining(a, HeadOf(script), c.now + n1, n2); }
  }

  lemma InvIgnoresRemaining(c: Clock, r: nat)
    requires Inv(c)
    ensures Inv(c.(remaining := r))
  {
  }

  /** With `n` more ticks, `c` and `d` end alike. */
  ghost predicate SameEnd(c: Clock, d: Clock, n: nat, script: seq<Callback>) {
    && Inv(c.(remaining := c.remaining + n)) && Inv(d.(remaining := d.remaining + n))
    && FireAll(c.(remaining := c.remaining + n), script) == FireAll(d.(remaining := d.remaining + n), TailOf(script))
  }

  lemma TurnWithMoreTicks(c: Clock, n: nat, script: seq<Callback>)
    requires Inv(c) && NoLag(script) && HasDue(c)
    ensures SameEnd(c, FireOne(c, HeadOf(script)), n, script)
  {
    hide Inv, Slot, FireOne, NoLag;
    NoLagTail(script);
    var b := c.(remaining := c.remaining + n);
    InvIgnoresRemaining(c, b.remaining);
    var c' := FireOne(c, HeadOf(script));
    InvIgnoresRemaining(c', c'.remaining + n);
    FireIgnoresRemaining(c, HeadOf(script), c.now, b.remaining);
    assert FireAll(b, script) == FireAll(FireOne(b, HeadOf(script)), TailOf(script));
  }

  /** Announcing what `c` has left and then `n` more ends where one announcement of both ends. */
  ghost predicate SplitsAt(c: Clock, n: nat, script: seq<Callback>)
    requires Inv(c)
  {
    var m := FireAll(c, script);
    && |c.fired| <= |m.fired| && Inv(m.(remaining := n)) && Inv(c.(remaining := c.remaining + n))
    && FireAll(m.(remaining := n), Skip(script, |m.fired| - |c.fired|))
       == FireAll(c.(remaining := c.remaining + n), script)
  }

  lemma SplitTurn(c: Clock, n: nat, script: seq<Callback>)
    requires Inv(c) && NoLag(script) && HasDue(c)
    requires SplitsAt(FireOne(c, HeadOf(script)), n, TailOf(script))
    ensures SplitsAt(c, n, script)
  {
    hide Inv, Slot, FireOne, NoLag, HasDue;
    NoLagTail(script);
    TurnWithMoreTicks(c, n, script);
    FireOneLogs(c, HeadOf(script));
    var c', m := FireOne(c, HeadOf(script)), FireAll(c, script);
    assert m == FireAll(c', TailOf(script));
    assert Skip(TailOf(script), |m.fired| - |c'.fired|) == Skip(script, |m.fired| - |c.fired|);
  }

  lemma QuietAhead(c: Clock)
    requires Inv(c) && !HasDue(c)
    ensures AllFrom(c.sched, c.now + c.remaining)
  {
  }

  lemma SplitQuiet(c: Clock, n: nat, script: seq<Callback>)
    requires Inv(c) && NoLag(script) && !HasDue(c)
    ensures SplitsAt(c, n, script)
  {
    hide Inv, Slot, FireOne, NoLag, AllFrom;
    QuietAhead(c);
    AdvanceKeeps(c, c.remaining, n);
    Advance(c, c.remaining, n, script);
    assert FireAll(c, script) == c.(now := c.now + c.remaining, remaining := 0);
  }

  /** However the same ticks are grouped into announcements, the same timeouts fire at the
      same ticks in the same order and the same state results, provided the hardware never
      reports ticks beyond those announced. */
  lemma {:induction false} BatchingIsInvisible(c: Clock, n: nat, script: seq<Callback>)
    requires Inv(c) && NoLag(script)
    ensures SplitsAt(c, n, script)
    decreases c.remaining, Slot(c.sched, c.now)
  {
    hide Inv, Slot, FireOne, NoLag, SplitsAt;
    if HasDue(c) {
      NoLagTail(script);
      BatchingIsInvisible(FireOne(c, HeadOf(script)), n, TailOf(script));
      SplitTurn(c, n, script);
    } else {
      SplitQuiet(c, n, script);
    }
  }

  // ---------- Periodic timers ----------

  function SumLags(lags: seq<nat>): nat {
    if lags == [] then 0 else SumLags(lags[..|lags| - 1]) + lags[|lags| - 1]
  }

  /** Expiry k of a timer falls k strides plus the accumulated lag after the first one. */
  lemma {:induction false} ExpiryFormula(t: Timer, k: nat)
    requires TimerOk(t) && k < |t.ticks|
    ensures t.ticks[k] == t.ticks[0] + k * Stride(t.period) + SumLags(t.lags[..k])
  {
    hide SumLags, Stride;
    if k == 0 {
      NoLags();
      assert t.lags[..0] == [];
    } else {
      ExpiryFormula(t, k - 1);
      SumLagsNext(t.lags, k);
      assert t.ticks[k - 1 + 1] == t.ticks[k - 1] + Stride(t.period) + t.lags[k - 1];
      OneStrideMore(k, Stride(t.period));
    }
  }

  lemma NoLags()
    ensures SumLags([]) == 0
  {
  }

  lemma SumLagsNext(lags: seq<nat>, k: nat)
    requires 0 < k <= |lags|
    ensures SumLags(lags[..k]) == SumLags(lags[..k - 1]) + lags[k - 1]
  {
    assert lags[..k][..k - 1] == lags[..k - 1];
  }

  lemma OneStrideMore(k: int, stride: int)
    ensures k * stride == (k - 1) * stride + stride
  {
  }

  /** A timer keeps its grid exactly when no expiry but possibly the last was handled late. */
  lemma NoDriftIff(t: Timer)
    requires TimerOk(t)
    ensures (forall k | 0 <= k < |t.ticks| :: t.ticks[k] == t.ticks[0] + k * Stride(t.period))
       <==> (forall k | 0 <= k < |t.ticks| - 1 :: t.lags[k] == 0)
  {
    if forall k | 0 <= k < |t.ticks| :: t.ticks[k] == t.ticks[0] + k * Stride(t.period) {
      forall k | 0 <= k < |t.ticks| - 1
        ensures t.lags[k] == 0
      {
        assert t.ticks[k + 1] == t.ticks[0] + (k + 1) * Stride(t.period);
        assert (k + 1) * Stride(t.period) == k * Stride(t.period) + Stride(t.period);
      }
    }
    if forall k | 0 <= k < |t.ticks| - 1 :: t.lags[k] == 0 {
      forall k | 0 <= k < |t.ticks|
        ensures t.ticks[k] == t.ticks[0] + k * Stride(t.period)
      {
        ExpiryFormula(t, k);
        NoLagSum(t.lags[..k]);
      }
    }
  }

  lemma NoLagSum(lags: seq<nat>)
    requires forall k | 0 <= k < |lags| :: lags[k] == 0
    ensures SumLags(lags) == 0
  {
  }

  /** Handlers run while the hardware reports no tick beyond those announced. */
  ghost predicate OnTimeHandlers(script: seq<Callback>) { forall i | 0 <= i < |script| :: script[i].hw == 0 }

  ghost predicate LagFree(timers: map<Id, Timer>) {
    forall id, k | id in timers && 0 <= k < |timers[id].lags| :: timers[id].lags[k] == 0
  }

  lemma {:induction false} OpsLagFree(c: Clock, ops: seq<Op>)
    requires LagFree(c.timers)
    ensures LagFree(RunOps(c, ops).timers)
    decreases |ops|
  {
    hide ApplyOp;
    if ops != [] {
      OpTimers(c, ops[0]);
      OpsLagFree(ApplyOp(c, ops[0]), ops[1..]);
    }
  }

  lemma HandlerLagFree(c: Clock, id: Id)
    requires 0 <= c.now && LagFree(c.timers)
    ensures LagFree(HandleTimer(c, id, 0).timers)
  {
    hide AddTimeout, Linked;
    if id in c.timers { LinksLeaveTimers(c, id, NextTimeout(c, c.timers[id].period, 0), 0); }
  }

  lemma FireOneLagFree(c: Clock, cb: Callback)
    requires Inv(c) && HasDue(c) && cb.hw == 0 && LagFree(c.timers)
    ensures LagFree(FireOne(c, cb).timers)
  {
    hide Inv, Slot, LagFree, HandleTimer, Kept;
    PopKeeps(c);
    var c0, id := PopDue(c), c.sched[0].id;
    CallbackKeeps(c0, id, cb);
    OpsLagFree(c0, cb.before);
    HandlerLagFree(RunOps(c0, cb.before), id);
    OpsLagFree(HandleTimer(RunOps(c0, cb.before), id, 0), cb.after);
  }

  lemma {:induction false} AnnounceLagFree(c: Clock, script: seq<Callback>)
    requires Inv(c) && OnTimeHandlers(script) && LagFree(c.timers)
    ensures LagFree(FireAll(c, script).timers)
    decreases c.remaining, Slot(c.sched, c.now)
  {
    hide Inv, Slot, FireOne, LagFree;
    if HasDue(c) {
      FireOneLagFree(c, HeadOf(script));
      AnnounceLagFree(FireOne(c, HeadOf(script)), TailOf(script));
    }
  }

  lemma {:induction false} RunLagFree(c: Clock, steps: seq<Step>)
    requires AtRest(c) && LagFree(c.timers)
    requires forall i | 0 <= i < |steps| && steps[i].Announce? :: OnTimeHandlers(steps[i].script)
    ensures LagFree(Run(c, steps).timers)
    decreases |steps|
  {
    hide AtRest, LagFree, Slot, FireAll, ApplyOp;
    if steps != [] {
      StepKeepsRest(c, steps[0]);
      match steps[0] {
        case Do(op) => OneOpLagFree(c, op);
        case Announce(ticks, script) =>
          assert OnTimeHandlers(steps[0].script);
          RestIsInv(c, ticks);
          AnnounceLagFree(c.(remaining := ticks), script);
      }
      RunLagFree(ApplyStep(c, steps[0]), steps[1..]);
    }
  }

  lemma OneOpLagFree(c: Clock, op: Op)
    requires LagFree(c.timers)
    ensures LagFree(ApplyOp(c, op).timers)
  {
    hide ApplyOp;
    OpTimers(c, op);
  }

  lemma RestIsInv(c: Clock, ticks: nat)
    requires AtRest(c)
    ensures Inv(c.(remaining := ticks))
  {
  }

  /** From boot on, for every grouping of ticks and whatever callbacks and other code do:
      while handlers run on time, expiry k of every timer falls exactly k strides after its
      first. */
  lemma TimersStayOnGrid(is64: bool, steps: seq<Step>, id: Id, k: nat)
    requires forall i | 0 <= i < |steps| && steps[i].Announce? :: OnTimeHandlers(steps[i].script)
    requires var c := Run(Boot(is64), steps); id in c.timers && k < |c.timers[id].ticks|
    ensures var t := Run(Boot(is64), steps).timers[id]; t.ticks[k] == t.ticks[0] + k * Stride(t.period)
  {
    RunLagFree(Boot(is64), steps);
    NoDriftIff(Run(Boot(is64), steps).timers[id]);
  }

  /** The re-armed timer is due exactly one stride after the tick being handled if and only
      if the announcement still had ticks left or the hardware reported none. */
  lemma RearmedOnGridIff(c: Clock, id: Id, hw: nat)
    requires Inv(c) && InFlight(c, id) && id in c.timers && !Linked(c.sched, id) && Periodic(c.timers[id].period)
    ensures var r := HandleTimer(c, id, hw);
      && Linked(r.sched, id)
      && (r.sched[Index(r.sched, id)].expiry == c.now + Stride(c.timers[id].period)
          <==> c.remaining > 0 || hw == 0)
  {
    hide Insert, Index, SchedOk, FiredOk, Accounted, AllOnTime;
    InsertedAt(c.sched, Entry(id, Expiry(c, NextTimeout(c, c.timers[id].period, hw), hw)));
  }

  lemma InsertedAt(s: seq<Entry>, e: Entry)
    requires !Linked(s, e.id)
    ensures Linked(Insert(s, e), e.id) && Insert(s, e)[Index(Insert(s, e), e.id)] == e
  {
    hide Insert, Slot, Index;
    InsertAt(s, e);
    var r, k := Insert(s, e), Slot(s, e.expiry);
    assert r[k].id == e.id;
    assert forall i | 0 <= i < k :: s[i].id != e.id;
  }

  /** Absolute re-arming (64-bit ticks) and relative re-arming choose the same expiry. */
  lemma FormsAgree(c: Clock, period: KTimeout, hw: nat)
    requires 0 <= c.now
    ensures Expiry(c, NextTimeout(c.(is64 := true), period, hw), hw)
         == Expiry(c, NextTimeout(c.(is64 := false), period, hw), hw)
         == c.now + Elapsed(c, hw) + Stride(period)
  {
  }

  lemma FireIdle(c: Clock, hw: nat)
    requires Inv(c) && HasDue(c)
    ensures 0 <= c.sched[0].expiry
    ensures FireOne(c, Callback([], hw, [])) ==
      HandleTimer(PopDue(c), c.sched[0].id, hw).(remaining := c.remaining - (c.sched[0].expiry - c.now))
  {
    hide Inv, Slot, Linked, Insert, HandleTimer;
    PopKeeps(c);
    OpsKeep(PopDue(c), [], c.sched[0].id);
    HandlerKeeps(PopDue(c), c.sched[0].id, hw);
  }

  lemma InsertLast(s: seq<Entry>, e: Entry)
    requires forall i | 0 <= i < |s| :: s[i].expiry <= e.expiry
    ensures Insert(s, e) == s + [e]
  {
    SlotUnique(s, e.expiry, |s|);
  }

  /** Two timers of period 2 that were started together at tick 0. */
  function BothStarted(): Clock {
    Clock(true, 0, 0, [Entry(0, 1), Entry(1, 1)],
          map[0 := Timer(Rel(2), 0, [], [], 0), 1 := Timer(Rel(2), 0, [], [], 0)],
          [Entry(0, 1), Entry(1, 1)], multiset{}, [])
  }

  function OneStarted(): Clock {
    Clock(true, 0, 0, [Entry(0, 1)], map[0 := Timer(Rel(2), 0, [], [], 0)], [Entry(0, 1)], multiset{}, [])
  }

  lemma BootRests(is64: bool)
    ensures AtRest(Boot(is64))
  {
  }

  lemma FirstStart()
    ensures ApplyOp(Boot(true), TimerStart(0, Rel(1), Rel(2), 0)) == OneStarted()
  {
    hide Insert, Slot;
    InsertLast([], Entry(0, 1));
  }

  lemma SecondStart()
    ensures ApplyOp(OneStarted(), TimerStart(1, Rel(1), Rel(2), 0)) == BothStarted()
  {
    hide Insert, Slot;
    InsertLast([Entry(0, 1)], Entry(1, 1));
    var r := ApplyOp(OneStarted(), TimerStart(1, Rel(1), Rel(2), 0));
    assert r.timers == BothStarted().timers;
    assert r.added == BothStarted().added;
  }

  lemma StartedIsReached()
    ensures var start := [Do(TimerStart(0, Rel(1), Rel(2), 0)), Do(TimerStart(1, Rel(1), Rel(2), 0))];
      Run(Boot(true), start) == BothStarted()
  {
    hide AtRest, ApplyOp, Boot, OneStarted, BothStarted;
    var a, b := Do(TimerStart(0, Rel(1), Rel(2), 0)), Do(TimerStart(1, Rel(1), Rel(2), 0));
    BootRests(true);
    StepKeepsRest(Boot(true), a);
    FirstStart();
    StepKeepsRest(OneStarted(), b);
    SecondStart();
    assert [a, b][1..] == [b] && [b][1..] == [];
    assert Run(OneStarted(), [b]) == Run(BothStarted(), []);
  }

  lemma {:induction false} RunAfter(c: Clock, a: seq<Step>, b: seq<Step>)
    requires AtRest(c)
    ensures Run(c, a + b) == Run(Run(c, a), b)
    decreases |a|
  {
    hide AtRest, ApplyStep;
    if a == [] {
      assert a + b == b;
    } else {
      StepKeepsRest(c, a[0]);
      RunAfter(ApplyStep(c, a[0]), a[1..], b);
      assert (a + b)[0] == a[0] && (a + b)[1..] == a[1..] + b;
    }
  }

  /** A run from boot: two timers of period 2 are started together, and one tick passes in
      hardware before the second of them is handled. The first is due again on its grid, at
      tick 3, and the second is not: it is due at tick 4. */
  lemma DriftHappens()
    ensures var start := [Do(TimerStart(0, Rel(1), Rel(2), 0)), Do(TimerStart(1, Rel(1), Rel(2), 0))];
      Run(Boot(true), start + [Announce(1, [Callback([], 0, []), Callback([], 1, [])])]).sched ==
          [Entry(0, 3), Entry(1, 4)]
  {
    hide AtRest, ApplyStep, Boot, BothStarted;
    BootRests(true);
    var start := [Do(TimerStart(0, Rel(1), Rel(2), 0)), Do(TimerStart(1, Rel(1), Rel(2), 0))];
    var last := Announce(1, [Callback([], 0, []), Callback([], 1, [])]);
    StartedIsReached();
    RunAfter(Boot(true), start, [last]);
    var c := BothStarted();
    StepKeepsRest(c, last);
    assert [last][1..] == [];
    assert Run(c, [last]) == Run(ApplyStep(c, last), []);
    LastStep(c);
  }

  lemma LastStep(c: Clock)
    requires AtRest(c) && c == BothStarted()
    ensures ApplyStep(c, Announce(1, [Callback([], 0, []), Callback([], 1, [])])).sched == [Entry(0, 3), Entry(1, 4)]
  {
    hide AtRest, FireAll;
    RestIsInv(c, 1);
    DriftFirst(c.(remaining := 1));
  }

  lemma DriftFirst(c: Clock)
    requires Inv(c) && c.is64 && c.now == 0 && c.remaining == 1 && c.sched == [Entry(0, 1), Entry(1, 1)]
    requires c.timers == map[0 := Timer(Rel(2), 0, [], [], 0), 1 := Timer(Rel(2), 0, [], [], 0)]
    ensures FireAll(c, [Callback([], 0, []), Callback([], 1, [])]).sched == [Entry(0, 3), Entry(1, 4)]
  {
    hide Inv, Slot, Insert, FireOne;
    var script := [Callback([], 0, []), Callback([], 1, [])];
    FireIdle(c, 0);
    InsertLast([Entry(1, 1)], Entry(0, 3));
    assert PopDue(c).sched == [Entry(1, 1)];
    var c1 := FireOne(c, script[0]);
    assert c1.sched == [Entry(1, 1), Entry(0, 3)];
    DriftSecond(c1);
    assert FireAll(c, script) == FireAll(c1, script[1..]);
  }

  lemma DriftSecond(c: Clock)
    requires Inv(c) && c.is64 && c.now == 1 && c.remaining == 0 && c.sched == [Entry(1, 1), Entry(0, 3)]
    requires 1 in c.timers && c.timers[1] == Timer(Rel(2), 0, [], [], 0)
    ensures FireAll(c, [Callback([], 1, [])]).sched == [Entry(0, 3), Entry(1, 4)]
  {
    hide Inv, Slot, Insert, FireOne;
    var script := [Callback([], 1, [])];
    FireIdle(c, 1);
    InsertLast([Entry(0, 3)], Entry(1, 4));
    assert PopDue(c).sched == [Entry(0, 3)];
    assert FireOne(c, script[0]).sched == [Entry(0, 3), Entry(1, 4)];
    assert FireAll(c, script) == FireAll(FireOne(c, script[0]), script[1..]);
  }

  // ---------- What each operation does ----------

  /** The other timeouts of a schedule, in order. */
  function Others(s: seq<Entry>, id: Id): seq<Entry> {
    if s == [] then [] else (if s[0].id == id then [] else [s[0]]) + Others(s[1..], id)
  }

  lemma {:induction false} OthersConcat(a: seq<Entry>, b: seq<Entry>, id: Id)
    ensures Others(a + b, id) == Others(a, id) + Others(b, id)
  {
    if a == [] {
      assert a + b == b;
    } else {
      assert (a + b)[1..] == a[1..] + b;
      OthersConcat(a[1..], b, id);
    }
  }

  lemma OthersInsert(s: seq<Entry>, e: Entry)
    ensures Others(Insert(s, e), e.id) == Others(s, e.id)
  {
    hide Others, Slot;
    var k := Slot(s, e.expiry);
    OthersConcat(s[..k] + [e], s[k..], e.id);
    OthersConcat(s[..k], [e], e.id);
    OthersConcat(s[..k], s[k..], e.id);
    OthersNone(e);
    assert s == s[..k] + s[k..];
  }

  lemma OthersNone(e: Entry)
    ensures Others([e], e.id) == []
  {
    assert [e][1..] == [];
  }

  lemma OthersRemove(s: seq<Entry>, id: Id)
    ensures Others(Remove(s, id), id) == Others(s, id)
  {
    var k := Index(s, id);
    if k < |s| {
      OthersConcat(s[..k], s[k + 1..], id);
      OthersConcat(s[..k], s[k..], id);
      assert s == s[..k] + s[k..] && s[k..][1..] == s[k + 1..] && s[k..][0].id == id;
    }
  }

  /** A timeout that is linked is linked once, so this is the tick at which it fires. */
  function DueAt(c: Clock, id: Id): int
    requires Linked(c.sched, id)
  {
    c.sched[Index(c.sched, id)].expiry
  }

  /** Nothing but timeout `id` changes. */
  ghost predicate Elsewhere(c: Clock, r: Clock, id: Id) {
    && r.is64 == c.is64 && r.now == c.now && r.remaining == c.remaining && r.fired == c.fired
    && Others(r.sched, id) == Others(c.sched, id)
    && forall u | u != id :: (u in r.timers <==> u in c.timers) && (u in c.timers ==> r.timers[u] == c.timers[u])
  }

  /** The ticks that the hardware counts beyond the last announcement; within an announcement
      time stands at the timeout being handled. */
  function Beyond(c: Clock, hw: nat): nat { if c.remaining > 0 then 0 else hw }

  /** A timeout that is added is due after its ticks, rounded up to the next tick, or at its
      absolute tick if that is still ahead. */
  lemma AddedTimeout(c: Clock, id: Id, t: KTimeout, hw: nat)
    requires Inv(c)
    ensures var r := ApplyOp(c, Add(id, t, hw));
            && (t.Forever? || Linked(c.sched, id) || id in c.timers ==> r == c)
            && (!t.Forever? && !Linked(c.sched, id) && id !in c.timers ==>
                  && Linked(r.sched, id) && Elsewhere(c, r, id) && r.timers == c.timers && r.dropped == c.dropped
                  && (t.Rel? ==> DueAt(r, id) == c.now + t.ticks + 1 + Beyond(c, hw))
                  && (t.Abs? ==> DueAt(r, id) == if t.tick > c.now then t.tick else c.now + 1))
  {
    hide Insert, Index;
    if !t.Forever? && !Linked(c.sched, id) && id !in c.timers {
      var e := Entry(id, Expiry(c, t, hw));
      InsertedAt(c.sched, e);
      OthersInsert(c.sched, e);
    }
  }

  lemma AbortedTimeout(c: Clock, id: Id)
    requires Inv(c)
    ensures var r := ApplyOp(c, Abort(id));
            && !Linked(r.sched, id) && Elsewhere(c, r, id) && r.timers == c.timers && r.added == c.added
            && (!Linked(c.sched, id) ==> r == c)
            && (Linked(c.sched, id) ==> r.dropped == c.dropped + multiset{Entry(id, DueAt(c, id))})
  {
    hide Inv, Kept, Remove, Index, Others;
    AbortKeeps(c, id);
    OthersRemove(c.sched, id);
  }

  /** A timer that is started is due after its duration: a relative one counts from the last
      tick with 64-bit ticks, and from the next one with 32-bit ticks. It has its new period
      and has not expired. Without a duration the call does nothing. */
  ghost predicate Started(c: Clock, r: Clock, id: Id, duration: KTimeout, period: KTimeout, hw: nat) {
    match duration
    case Forever => r == c
    case Rel(ticks) =>
      && StartedAlone(c, r, id, period)
      && DueAt(r, id) == c.now + Beyond(c, hw) + if !c.is64 then ticks + 1 else if ticks > 1 then ticks else 1
    case Abs(tick) =>
      && StartedAlone(c, r, id, period)
      && DueAt(r, id) == if tick > c.now then tick else c.now + 1
  }

  ghost predicate StartedAlone(c: Clock, r: Clock, id: Id, period: KTimeout) {
    && Linked(r.sched, id) && UniqueIds(r.sched) && Elsewhere(c, r, id)
    && r.timers == c.timers[id := Timer(period, 0, [], [], 0)]
  }

  lemma StartedTimer(c: Clock, id: Id, duration: KTimeout, period: KTimeout, hw: nat)
    requires Inv(c)
    ensures Started(c, ApplyOp(c, TimerStart(id, duration, period, hw)), id, duration, period, hw)
  {
    hide Inv, Insert, Index, Remove, Others, UniqueIds, Linked, Elsewhere, FirstTimeout, Expiry;
    if !duration.Forever? {
      StartedTail(c, id, duration, period, hw);
      FirstDue(c, duration, hw);
    }
  }

  /** A started timer is due at the expiry of its first timeout. */
  lemma StartedTail(c: Clock, id: Id, duration: KTimeout, period: KTimeout, hw: nat)
    requires Inv(c) && !duration.Forever?
    ensures var r := ApplyOp(c, TimerStart(id, duration, period, hw));
            StartedAlone(c, r, id, period) && DueAt(r, id) == Expiry(c, FirstTimeout(c.is64, duration), hw)
  {
    hide Inv, Kept, Insert, Index, Remove, Others, UniqueIds, Expiry;
    AbortedTimeout(c, id);
    var c1 := AbortTimeout(c, id);
    ExpiryOf(c, c1, FirstTimeout(c.is64, duration), hw);
    var e := Entry(id, Expiry(c, FirstTimeout(c.is64, duration), hw));
    InsertedAt(c1.sched, e);
    OthersInsert(c1.sched, e);
    OpUnique(c, TimerStart(id, duration, period, hw));
  }

  lemma ExpiryOf(a: Clock, b: Clock, t: KTimeout, hw: nat)
    requires a.now == b.now && a.remaining == b.remaining && !t.Forever?
    ensures forall timers :: Expiry(b.(timers := timers), t, hw) == Expiry(a, t, hw)
  {
  }

  lemma FirstDue(c: Clock, duration: KTimeout, hw: nat)
    requires !duration.Forever?
    ensures Expiry(c, FirstTimeout(c.is64, duration), hw) ==
            match duration
            case Rel(ticks) => c.now + Beyond(c, hw) + (if !c.is64 then ticks + 1 else if ticks > 1 then ticks else 1)
            case Abs(tick) => if tick > c.now then tick else c.now + 1
  {
  }

  lemma OpUnique(c: Clock, op: Op)
    requires Inv(c)
    ensures UniqueIds(ApplyOp(c, op).sched)
  {
    hide ApplyOp, Carried, Slot;
    OpKeeps(c, op);
  }

  /** Reading the status starts the count anew and changes nothing else. */
  lemma StatusIsRead(c: Clock, id: Id)
    ensures var r := ApplyOp(c, StatusGet(id));
            && (id !in c.timers ==> r == c)
            && (id in c.timers ==>
                  && r == c.(timers := r.timers) && r.timers.Keys == c.timers.Keys
                  && r.timers[id] == c.timers[id].(status := 0, seen := |c.timers[id].ticks|)
                  && forall u | u in c.timers && u != id :: r.timers[u] == c.timers[u])
  {
  }

  /** The handler of a timer that was restarted meanwhile does nothing. Otherwise it counts one
      expiry at the current tick; a one-shot timer stays off the list, and a periodic one is
      due one period later, at least one tick. */
  lemma HandledTimer(c: Clock, id: Id, hw: nat)
    requires Inv(c) && InFlight(c, id)
    ensures var r := HandleTimer(c, id, hw);
            && (id !in c.timers || Linked(c.sched, id) ==> r == c)
            && (id in c.timers && !Linked(c.sched, id) ==>
                  && Elsewhere(c, r, id) && id in r.timers
                  && r.timers[id].status == c.timers[id].status + 1 && r.timers[id].period == c.timers[id].period
                  && r.timers[id].ticks == c.timers[id].ticks + [c.now]
                  && r.timers[id].lags == c.timers[id].lags + [Beyond(c, hw)]
                  && (c.timers[id].period in {Rel(0), Forever} ==> r.sched == c.sched)
                  && (c.timers[id].period !in {Rel(0), Forever} ==>
                        && Linked(r.sched, id)
                        && DueAt(r, id) == c.now + Beyond(c, hw) +
                             if c.timers[id].period.Rel? then c.timers[id].period.ticks else 1))
  {
    hide Insert, Index;
    if id in c.timers && !Linked(c.sched, id) && Periodic(c.timers[id].period) {
      var e := Entry(id, Expiry(c, NextTimeout(c, c.timers[id].period, hw), hw));
      InsertedAt(c.sched, e);
      OthersInsert(c.sched, e);
    }
  }

  /** What is done before the handler is done to the state the timeout left behind. */
  lemma EarlierFirst(c: Clock, id: Id, op: Op, cb: Callback)
    requires Inv(c) && InFlight(c, id)
    ensures Inv(ApplyOp(c, op)) && InFlight(ApplyOp(c, op), id)
    ensures RunCallback(c, id, cb.(before := [op] + cb.before)) == RunCallback(ApplyOp(c, op), id, cb)
  {
    hide Inv, HandleTimer, Carried, Slot;
    OpsKeep(c, [op], id);
    OneOp(c, op);
    assert ([op] + cb.before)[1..] == cb.before;
  }

  lemma OneOp(c: Clock, op: Op)
    ensures RunOps(c, [op]) == ApplyOp(c, op)
  {
    assert [op][1..] == [];
  }

  /** What is done after the handler is done to the state the handler left behind. */
  lemma LaterLast(c: Clock, id: Id, op: Op, cb: Callback)
    requires Inv(c) && InFlight(c, id)
    ensures RunCallback(c, id, cb.(after := cb.after + [op])) == ApplyOp(RunCallback(c, id, cb), op)
  {
    hide Inv, Kept, HandleTimer;
    CallbackKeeps(c, id, cb);
    OpsAppend(HandleTimer(RunOps(c, cb.before), id, cb.hw), cb.after, op);
  }

  lemma {:induction false} OpsAppend(c: Clock, ops: seq<Op>, op: Op)
    ensures RunOps(c, ops + [op]) == ApplyOp(RunOps(c, ops), op)
    decreases |ops|
  {
    if ops == [] {
      assert ops + [op] == [op];
      OneOp(c, op);
    } else {
      assert (ops + [op])[1..] == ops[1..] + [op];
      OpsAppend(ApplyOp(c, ops[0]), ops[1..], op);
    }
  }

  /** With nothing else going on the callback is the handler. */
  lemma HandlerBetween(c: Clock, id: Id, hw: nat)
    requires Inv(c) && InFlight(c, id)
    ensures RunCallback(c, id, Callback([], hw, [])) == HandleTimer(c, id, hw)
  {
    hide Inv, Kept, HandleTimer;
  }

  /** A turn of the announce loop takes the next callback. It runs at the tick of the first
      timeout, which has left the list, and before the ticks of this turn are used up. */
  lemma TurnOfLoop(c: Clock, cb: Callback, script: seq<Callback>)
    requires Inv(c) && HasDue(c)
    ensures FireAll(c, [cb] + script) == FireAll(FireOne(c, cb), script)
    ensures FireAll(c, []) == FireAll(FireOne(c, Callback([], 0, [])), [])
    ensures var e := c.sched[0]; var c0 := c.(now := e.expiry, sched := c.sched[1..], fired := c.fired + [e]);
            && Inv(c0) && InFlight(c0, e.id)
            && FireOne(c, cb).(remaining := c.remaining) == RunCallback(c0, e.id, cb)
  {
    hide Inv, RunCallback, Kept, Slot;
    PopKeeps(c);
    CallbackKeeps(PopDue(c), c.sched[0].id, cb);
    assert ([cb] + script)[1..] == script;
  }

  // ---------- One-shot timers ----------

  /** A one-shot timer that has expired has done so once, and is not linked. */
  ghost predicate OneShots(c: Clock) {
    forall id | id in c.timers && c.timers[id].ticks != [] && c.timers[id].period in {Rel(0), Forever} ::
      |c.timers[id].ticks| == 1 && !Linked(c.sched, id)
  }

  /** A one-shot timer that is being handled has not expired before. */
  ghost predicate FirstExpiry(c: Clock, id: Id) {
    id in c.timers && c.timers[id].period in {Rel(0), Forever} ==> c.timers[id].ticks == []
  }

  lemma OpOneShots(c: Clock, op: Op, id: Id)
    requires Inv(c) && OneShots(c)
    ensures OneShots(ApplyOp(c, op)) && (FirstExpiry(c, id) ==> FirstExpiry(ApplyOp(c, op), id))
  {
    hide Inv, Slot, Insert, Index, Linked, Remove, AddTimeout, AbortTimeout;
    OpTimers(c, op);
    match op
    case Add(i, t, hw) => if i !in c.timers { AddLinks(c, i, t, hw); }
    case Abort(i) => AbortLinks(c, i);
    case TimerStart(i, d, p, hw) =>
      if !d.Forever? {
        AbortLinks(c, i);
        var c1 := AbortTimeout(c, i);
        AddLinks(c1.(timers := c1.timers[i := Timer(p, 0, [], [], 0)]), i, FirstTimeout(c.is64, d), hw);
        LinksLeaveTimers(c, i, d, hw);
      }
    case StatusGet(_) =>
  }

  /** Adding a timeout links no other one. */
  lemma AddLinks(c: Clock, id: Id, t: KTimeout, hw: nat)
    ensures forall u | u != id :: Linked(AddTimeout(c, id, t, hw).sched, u) ==> Linked(c.sched, u)
  {
    hide Insert;
    if !t.Forever? && !Linked(c.sched, id) { InsertLinks(c.sched, Entry(id, Expiry(c, t, hw))); }
  }

  lemma InsertLinks(s: seq<Entry>, e: Entry)
    ensures forall u | u != e.id :: Linked(Insert(s, e), u) ==> Linked(s, u)
  {
    hide Insert, Slot, Index;
    InsertAt(s, e);
    var r, k := Insert(s, e), Slot(s, e.expiry);
    forall u | u != e.id && Linked(r, u) ensures Linked(s, u) {
      var j := Index(r, u);
      assert s[if j < k then j else j - 1].id == u;
    }
  }

  lemma AbortLinks(c: Clock, id: Id)
    ensures forall u :: Linked(AbortTimeout(c, id).sched, u) ==> Linked(c.sched, u)
  {
    hide Index;
    if Linked(c.sched, id) {
      var r, k := Remove(c.sched, id), Index(c.sched, id);
      forall u | Linked(r, u) ensures Linked(c.sched, u) {
        var j := Index(r, u);
        assert c.sched[if j < k then j else j + 1].id == u;
      }
    }
  }

  lemma {:induction false} OpsOneShots(c: Clock, ops: seq<Op>, id: Id)
    requires Inv(c) && OneShots(c)
    ensures OneShots(RunOps(c, ops)) && (FirstExpiry(c, id) ==> FirstExpiry(RunOps(c, ops), id))
    decreases |ops|
  {
    hide Inv, OneShots, FirstExpiry, ApplyOp, Carried, Slot;
    if ops != [] {
      OpKeeps(c, ops[0]);
      OpOneShots(c, ops[0], id);
      OpsOneShots(ApplyOp(c, ops[0]), ops[1..], id);
    }
  }

  lemma HandlerOneShots(c: Clock, id: Id, hw: nat)
    requires Inv(c) && OneShots(c) && FirstExpiry(c, id)
    ensures OneShots(HandleTimer(c, id, hw))
  {
    hide Slot, Insert, Index, Linked, AddTimeout;
    if id in c.timers && !Linked(c.sched, id) {
      var t := c.timers[id];
      AddLinks(c, id, NextTimeout(c, t.period, hw), hw);
      LinksLeaveTimers(c, id, NextTimeout(c, t.period, hw), hw);
    }
  }

  lemma FireOneOneShots(c: Clock, cb: Callback)
    requires Inv(c) && HasDue(c) && OneShots(c)
    ensures OneShots(FireOne(c, cb))
  {
    hide Inv, Slot, OneShots, FirstExpiry, HandleTimer, Carried;
    PopKeeps(c);
    PopOneShots(c);
    var c0, id := PopDue(c), c.sched[0].id;
    CallbackKeeps(c0, id, cb);
    OpsKeep(c0, cb.before, id);
    OpsOneShots(c0, cb.before, id);
    var c1 := RunOps(c0, cb.before);
    HandlerOneShots(c1, id, cb.hw);
    HandlerKeeps(c1, id, cb.hw);
    OpsOneShots(HandleTimer(c1, id, cb.hw), cb.after, id);
    RemainingOneShots(RunCallback(c0, id, cb), FireOne(c, cb).remaining);
  }

  lemma RemainingOneShots(c: Clock, r: nat)
    requires OneShots(c)
    ensures OneShots(c.(remaining := r))
  {
  }

  lemma PopOneShots(c: Clock)
    requires Inv(c) && HasDue(c) && OneShots(c)
    ensures OneShots(PopDue(c)) && FirstExpiry(PopDue(c), c.sched[0].id)
  {
    hide Slot;
    assert Linked(c.sched, c.sched[0].id);
    forall u | Linked(c.sched[1..], u) ensures Linked(c.sched, u) {
      assert c.sched[1..][Index(c.sched[1..], u)] == c.sched[Index(c.sched[1..], u) + 1];
    }
  }

  lemma {:induction false} AnnounceOneShots(c: Clock, script: seq<Callback>)
    requires Inv(c) && OneShots(c)
    ensures OneShots(FireAll(c, script))
    decreases c.remaining, Slot(c.sched, c.now)
  {
    hide Inv, Slot, FireOne;
    if HasDue(c) {
      FireOneOneShots(c, HeadOf(script));
      AnnounceOneShots(FireOne(c, HeadOf(script)), TailOf(script));
    }
  }

  lemma {:induction false} RunOneShots(c: Clock, steps: seq<Step>)
    requires AtRest(c) && OneShots(c)
    ensures OneShots(Run(c, steps))
    decreases |steps|
  {
    hide AtRest, OneShots, Slot, FireAll, ApplyOp;
    if steps != [] {
      StepKeepsRest(c, steps[0]);
      RestIsInv(c, c.remaining);
      match steps[0] {
        case Do(op) =>
          RestInv(c);
          OpOneShots(c, op, 0);
        case Announce(ticks, script) =>
          RestIsInv(c, ticks);
          RemainingOneShots(c, ticks);
          AnnounceOneShots(c.(remaining := ticks), script);
      }
      RunOneShots(ApplyStep(c, steps[0]), steps[1..]);
    }
  }

  lemma RestInv(c: Clock)
    requires AtRest(c)
    ensures Inv(c)
  {
  }

  /** From boot on, whatever callbacks and other code do: a timer without period expires at most
      once after each start, and the status of every timer counts its expiries since it was
      last read. */
  lemma TimersCount(is64: bool, steps: seq<Step>, id: Id)
    requires id in Run(Boot(is64), steps).timers
    ensures var c := Run(Boot(is64), steps); var t := c.timers[id];
            && t.seen <= |t.ticks| && t.status == |t.ticks| - t.seen
            && (t.period in {Rel(0), Forever} && t.ticks != [] ==> |t.ticks| == 1 && !Linked(c.sched, id))
  {
    hide AtRest, Run, Linked;
    BootRests(is64);
    RunOneShots(Boot(is64), steps);
    TimersOf(Run(Boot(is64), steps), id);
  }

  lemma TimersOf(c: Clock, id: Id)
    requires AtRest(c) && id in c.timers
    ensures TimerOk(c.timers[id])
  {
  }
}
