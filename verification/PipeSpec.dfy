/**
  Pipes seen from outside: a bounded ring of bytes, readers waiting for bytes and writers
  waiting for room, both queued by priority. A `put` serves waiting readers first, then the
  ring; a `get` empties the ring, then waiting writers, and lets the writers refill the ring.

  `taken` and `delivered` are history: every byte that left a writer, and every byte handed
  to a reader, in order.
 */
module PipeSpec {
  import opened Common

  newtype byte = x: int | 0 <= x < 256

  /** A thread blocked in `k_pipe_put`; `data` is what it still has to write of the `asked`
      bytes, of which `min` are enough for success. */
  datatype Writer = Writer(thread: nat, prio: int, data: seq<byte>, asked: nat, min: nat)

  /** A thread blocked in `k_pipe_get` that still wants `want` of the `asked` bytes. */
  datatype Reader = Reader(thread: nat, prio: int, want: nat, got: seq<byte>, asked: nat, min: nat)

  datatype Pipe = Pipe(
    size: nat,
    ring: seq<byte>,
    readers: seq<Reader>,
    writers: seq<Writer>,
    taken: seq<byte>,
    delivered: seq<byte>)

  datatype Result = Ok(count: nat) | EAGAIN(count: nat) | EINVAL | EIO | Blocked

  datatype Op =
    | Put(thread: nat, prio: int, data: seq<byte>, minXfer: nat, noWait: bool)
    | Get(thread: nat, prio: int, bytes: nat, minXfer: nat, noWait: bool)
    | Expire(thread: nat)

  function Min(a: nat, b: nat): nat { if a < b then a else b }

  /** What a call that was blocked returns: success once it has transferred its minimum. */
  function CallerCode(asked: nat, left: nat, min: nat): Result
    requires left <= asked
  {
    if asked - left >= min then Ok(asked - left) else EAGAIN(asked - left)
  }

  // ---------- Wait queues ----------

  /** The bytes waiting writers still hold, in the order the queue will release them. */
  function Backlog(ws: seq<Writer>): seq<byte> {
    if ws == [] then [] else ws[0].data + Backlog(ws[1..])
  }

  /** What the pipe will deliver next, if nobody else writes. */
  function Stream(p: Pipe): seq<byte> { p.ring + Backlog(p.writers) }

  function Head(p: Pipe, bytes: nat): (h: seq<byte>)
    ensures |h| == Min(bytes, |Stream(p)|)
  {
    Stream(p)[..Min(bytes, |Stream(p)|)]
  }

  function Wants(rs: seq<Reader>): nat {
    if rs == [] then 0 else rs[0].want + Wants(rs[1..])
  }

  /** Behind everyone of equal or better (numerically lower or equal) priority. */
  function WriterSlot(ws: seq<Writer>, prio: int): (k: nat)
    ensures k <= |ws|
  {
    if ws == [] || prio < ws[0].prio then 0 else 1 + WriterSlot(ws[1..], prio)
  }

  function ReaderSlot(rs: seq<Reader>, prio: int): (k: nat)
    ensures k <= |rs|
  {
    if rs == [] || prio < rs[0].prio then 0 else 1 + ReaderSlot(rs[1..], prio)
  }

  function PendWriter(ws: seq<Writer>, w: Writer): seq<Writer> {
    ws[..WriterSlot(ws, w.prio)] + [w] + ws[WriterSlot(ws, w.prio)..]
  }

  function PendReader(rs: seq<Reader>, r: Reader): seq<Reader> {
    rs[..ReaderSlot(rs, r.prio)] + [r] + rs[ReaderSlot(rs, r.prio)..]
  }

  /** How many waiters a walk that needs `bytes` visits: it stops once it has seen enough,
      but always looks at the first. */
  function Walk(ws: seq<Writer>, bytes: nat): (k: nat)
    ensures k <= |ws|
  {
    if ws == [] then 0
    else if |ws[0].data| >= bytes then 1
    else 1 + Walk(ws[1..], bytes - |ws[0].data|)
  }

  function WalkReaders(rs: seq<Reader>, bytes: nat): (k: nat)
    ensures k <= |rs|
  {
    if rs == [] then 0
    else if rs[0].want >= bytes then 1
    else 1 + WalkReaders(rs[1..], bytes - rs[0].want)
  }

  // ---------- Writing ----------

  /** Hands bytes to the first waiting reader, as many as it wants. */
  function ServeFirst(p: Pipe, data: seq<byte>): Pipe
    requires p.readers != [] && |data| <= p.readers[0].want
  {
    var r := p.readers[0];
    var r' := r.(want := r.want - |data|, got := r.got + data);
    p.(readers := (if r'.want == 0 then [] else [r']) + p.readers[1..],
       taken := p.taken + data, delivered := p.delivered + data)
  }

  function Store(p: Pipe, data: seq<byte>): Pipe
    requires |p.ring| + |data| <= p.size
  {
    p.(ring := p.ring + data, taken := p.taken + data)
  }

  function Room(p: Pipe): nat { if |p.ring| <= p.size then p.size - |p.ring| else 0 }

  /** Writes what fits: waiting readers first, in queue order, then the ring. */
  function Pour(p: Pipe, data: seq<byte>): Pipe
    decreases |p.readers|
  {
    if p.readers == [] then
      if |p.ring| <= p.size then Store(p, data[..Min(|data|, Room(p))]) else p
    else if |data| < p.readers[0].want then ServeFirst(p, data)
    else
      var n := p.readers[0].want;
      Pour(ServeFirst(p, data[..n]), data[n..])
  }

  function Capacity(p: Pipe): nat { Wants(p.readers) + Room(p) }

  function DoPut(p: Pipe, thread: nat, prio: int, data: seq<byte>, minXfer: nat, noWait: bool): (Pipe, Result) {
    var n := Min(|data|, Capacity(p));
    if minXfer > |data| then (p, EINVAL)
    else if Capacity(p) < minXfer && noWait then (p, EIO)
    else if n == |data| || noWait || (n >= minXfer && minXfer > 0) then (Pour(p, data), Ok(n))
    else
      var p' := Pour(p, data);
      (p'.(writers := PendWriter(p'.writers, Writer(thread, prio, data[n..], |data|, minXfer))), Blocked)
  }

  // ---------- Reading ----------

  /** Takes `n` bytes out of the first `k` writers; those left with nothing leave the queue. */
  function Sweep(ws: seq<Writer>, k: nat, n: nat): seq<Writer> {
    if k == 0 || ws == [] then ws
    else
      var t := Min(n, |ws[0].data|);
      var w := ws[0].(data := ws[0].data[t..]);
      (if w.data == [] then [] else [w]) + Sweep(ws[1..], k - 1, n - t)
  }

  /** Takes `n` bytes out of the writers in queue order; nobody leaves the queue. */
  function Drain(ws: seq<Writer>, n: nat): seq<Writer> {
    if ws == [] then []
    else
      var t := Min(n, |ws[0].data|);
      [ws[0].(data := ws[0].data[t..])] + Drain(ws[1..], n - t)
  }

  /** The copy to the caller: ring first, then the walked writers. */
  function TakeOut(p: Pipe, bytes: nat): Pipe {
    var k := Min(bytes, |Stream(p)|);
    var r := Min(k, |p.ring|);
    var direct := Backlog(p.writers)[..Min(k - r, |Backlog(p.writers)|)];
    p.(ring := p.ring[r..],
       writers := Sweep(p.writers, Walk(p.writers, bytes), k - r),
       taken := p.taken + direct,
       delivered := p.delivered + p.ring[..r] + direct)
  }

  /** Moves waiting writers' bytes into the free part of the ring. */
  function Refill(p: Pipe): Pipe {
    var b := Backlog(p.writers);
    var n := Min(Room(p), |b|);
    p.(ring := p.ring + b[..n], writers := Drain(p.writers, n), taken := p.taken + b[..n])
  }

  function DoGet(p: Pipe, thread: nat, prio: int, bytes: nat, minXfer: nat, noWait: bool): (Pipe, Result, seq<byte>) {
    var k := Min(bytes, |Stream(p)|);
    if minXfer > bytes then (p, EINVAL, [])
    else if |Stream(p)| < minXfer && noWait then (p, EIO, [])
    else
      var out := Head(p, bytes);
      var p' := Refill(TakeOut(p, bytes));
      if k == bytes || noWait || (k >= minXfer && minXfer > 0) then (p', Ok(k), out)
      else (p'.(readers := PendReader(p'.readers, Reader(thread, prio, bytes - k, out, bytes, minXfer))), Blocked, [])
  }

  /** A waiter's timeout: it leaves the queue with what it has; bytes not yet taken stay its own. */
  function RemoveWriter(ws: seq<Writer>, thread: nat): seq<Writer> {
    if ws == [] then [] else if ws[0].thread == thread then ws[1..] else [ws[0]] + RemoveWriter(ws[1..], thread)
  }

  function RemoveReader(rs: seq<Reader>, thread: nat): seq<Reader> {
    if rs == [] then [] else if rs[0].thread == thread then rs[1..] else [rs[0]] + RemoveReader(rs[1..], thread)
  }

  function Apply(p: Pipe, op: Op): Pipe {
    match op
    case Put(thread, prio, data, minXfer, noWait) => DoPut(p, thread, prio, data, minXfer, noWait).0
    case Get(thread, prio, bytes, minXfer, noWait) => DoGet(p, thread, prio, bytes, minXfer, noWait).0
    case Expire(thread) => p.(readers := RemoveReader(p.readers, thread), writers := RemoveWriter(p.writers, thread))
  }

  function Run(p: Pipe, ops: seq<Op>): Pipe
    decreases |ops|
  {
    if ops == [] then p else Run(Apply(p, ops[0]), ops[1..])
  }

  function Init(size: nat): Pipe { Pipe(size, [], [], [], [], []) }

  // ---------- What every reachable state satisfies ----------

  /** A waiting reader means there is nothing to read anywhere; a writer with bytes left
      means the ring is full; and what was handed out is what was taken in, in order. */
  ghost predicate Inv(p: Pipe) {
    && |p.ring| <= p.size
    && (forall i | 0 <= i < |p.readers| :: p.readers[i].want > 0)
    && (p.readers != [] ==> p.ring == [] && Backlog(p.writers) == [])
    && (Backlog(p.writers) != [] ==> |p.ring| == p.size)
    && p.taken == p.delivered + p.ring
  }

  // ---------- Queue lemmas ----------

  lemma {:induction false} BacklogConcat(a: seq<Writer>, b: seq<Writer>)
    ensures Backlog(a + b) == Backlog(a) + Backlog(b)
  {
    if a == [] {
      assert a + b == b;
    } else {
      assert (a + b)[1..] == a[1..] + b;
      BacklogConcat(a[1..], b);
    }
  }

  lemma {:induction false} DrainBacklog(ws: seq<Writer>, n: nat)
    requires n <= |Backlog(ws)|
    ensures Backlog(Drain(ws, n)) == Backlog(ws)[n..]
  {
    if ws != [] {
      var t := Min(n, |ws[0].data|);
      DrainBacklog(ws[1..], n - t);
      assert Drain(ws, n)[1..] == Drain(ws[1..], n - t);
      DropConcat(ws[0].data, Backlog(ws[1..]), n);
    }
  }

  /** The walked writers hold at least the requested bytes, or everyone was walked. */
  lemma {:induction false} WalkEnough(ws: seq<Writer>, bytes: nat)
    ensures Walk(ws, bytes) < |ws| ==> |Backlog(ws[..Walk(ws, bytes)])| >= bytes
  {
    if ws != [] && |ws[0].data| < bytes {
      WalkEnough(ws[1..], bytes - |ws[0].data|);
      var k := Walk(ws[1..], bytes - |ws[0].data|);
      assert ws[..k + 1][1..] == ws[1..][..k];
    } else if ws != [] {
      assert ws[..1][1..] == [];
      assert Backlog(ws[..1]) == ws[0].data + [];
    }
  }

  lemma {:induction false} WalkReadersEnough(rs: seq<Reader>, bytes: nat)
    ensures WalkReaders(rs, bytes) < |rs| ==> Wants(rs[..WalkReaders(rs, bytes)]) >= bytes
  {
    if rs != [] && rs[0].want < bytes {
      WalkReadersEnough(rs[1..], bytes - rs[0].want);
      var k := WalkReaders(rs[1..], bytes - rs[0].want);
      assert rs[..k + 1][1..] == rs[1..][..k];
    } else if rs != [] {
      assert rs[..1][1..] == [];
    }
  }

  lemma {:induction false} SweepBacklog(ws: seq<Writer>, k: nat, n: nat)
    requires k <= |ws| && n <= |Backlog(ws[..k])|
    ensures n <= |Backlog(ws)| && Backlog(Sweep(ws, k, n)) == Backlog(ws)[n..]
  {
    BacklogConcat(ws[..k], ws[k..]);
    assert ws == ws[..k] + ws[k..];
    if k > 0 {
      var t := Min(n, |ws[0].data|);
      assert ws[..k][1..] == ws[1..][..k - 1];
      SweepBacklog(ws[1..], k - 1, n - t);
      SweepFirst(ws[0], t, Sweep(ws[1..], k - 1, n - t));
      DropConcat(ws[0].data, Backlog(ws[1..]), n);
    }
  }

  lemma SweepFirst(w: Writer, t: nat, rest: seq<Writer>)
    requires t <= |w.data|
    ensures var w' := w.(data := w.data[t..]);
            Backlog((if w'.data == [] then [] else [w']) + rest) == w.data[t..] + Backlog(rest)
  {
    var w' := w.(data := w.data[t..]);
    assert [] + rest == rest;
    assert ([w'] + rest)[1..] == rest;
  }

  lemma DropConcat(a: seq<byte>, b: seq<byte>, n: nat)
    requires n <= |a| + |b|
    ensures var t := Min(n, |a|); a[t..] + b[n - t..] == (a + b)[n..]
  {
    if n <= |a| {
      assert b[0..] == b;
      assert (a + b)[n..] == a[n..] + b;
    } else {
      assert a[|a|..] == [];
      assert (a + b)[n..] == b[n - |a|..];
    }
  }

  lemma SweepStream(p: Pipe, bytes: nat)
    requires |p.ring| <= p.size
    ensures var k := Min(bytes, |Stream(p)|);
      k - Min(k, |p.ring|) <= |Backlog(p.writers)|
      && Backlog(Sweep(p.writers, Walk(p.writers, bytes), k - Min(k, |p.ring|)))
      == Backlog(p.writers)[k - Min(k, |p.ring|)..]
  {
    var k := Min(bytes, |Stream(p)|);
    var w := Walk(p.writers, bytes);
    WalkEnough(p.writers, bytes);
    if w == |p.writers| { assert p.writers[..w] == p.writers; }
    SweepBacklog(p.writers, w, k - Min(k, |p.ring|));
  }

  lemma SplitAt(a: seq<byte>, b: seq<byte>, k: nat)
    requires k <= |a| + |b|
    ensures var r := Min(k, |a|); (a + b)[..k] == a[..r] + b[..k - r] && (a + b)[k..] == a[r..] + b[k - r..]
  {
    if k <= |a| {
      assert b[..0] == [] && b[0..] == b;
      assert (a + b)[..k] == a[..k] && (a + b)[k..] == a[k..] + b;
    } else {
      assert a[..|a|] == a && a[|a|..] == [];
      assert (a + b)[..k] == a + b[..k - |a|] && (a + b)[k..] == b[k - |a|..];
    }
  }

  // ---------- Reading delivers the head of the stream ----------

  lemma TakeOutStream(p: Pipe, bytes: nat)
    requires |p.ring| <= p.size && p.taken == p.delivered + p.ring
    ensures var k := Min(bytes, |Stream(p)|); var q := TakeOut(p, bytes);
      && Stream(q) == Stream(p)[k..]
      && q.delivered == p.delivered + Stream(p)[..k]
      && q.taken == q.delivered + q.ring
      && |q.ring| <= q.size
  {
    SweepStream(p, bytes);
    var k := Min(bytes, |Stream(p)|);
    SplitAt(p.ring, Backlog(p.writers), k);
    var r := Min(k, |p.ring|);
    var q, direct := TakeOut(p, bytes), Backlog(p.writers)[..k - r];
    assert q.delivered == p.delivered + (p.ring[..r] + direct);
    if direct == [] {
      assert p.ring == p.ring[..r] + p.ring[r..];
    } else {
      assert p.ring[..r] == p.ring && p.ring[r..] == [];
    }
  }

  /** Refilling moves the border between the ring and the writers and nothing else. */
  lemma RefillStream(p: Pipe)
    requires |p.ring| <= p.size
    ensures Stream(Refill(p)) == Stream(p)
    ensures |Refill(p).ring| <= p.size
    ensures Backlog(Refill(p).writers) != [] ==> |Refill(p).ring| == p.size
    ensures p.taken == p.delivered + p.ring ==> Refill(p).taken == Refill(p).delivered + Refill(p).ring
  {
    DrainBacklog(p.writers, Min(Room(p), |Backlog(p.writers)|));
  }

  /** A get that is not refused hands over the first k bytes of the stream, now or as the
      start of what a blocked reader collects, and leaves exactly the rest. */
  lemma GetTakesStreamPrefix(p: Pipe, thread: nat, prio: int, bytes: nat, minXfer: nat, noWait: bool)
    requires Inv(p) && minXfer <= bytes && (minXfer <= |Stream(p)| || !noWait)
    ensures var (q, res, out) := DoGet(p, thread, prio, bytes, minXfer, noWait);
      var k := Min(bytes, |Stream(p)|);
      && q.delivered == p.delivered + Stream(p)[..k]
      && Stream(q) == Stream(p)[k..]
      && (res.Ok? ==> res.count == k && out == Stream(p)[..k])
      && (res.Blocked? ==> k < bytes && Stream(q) == [])
      && (res.Blocked? ==>
            q.readers == PendReader(p.readers, Reader(thread, prio, bytes - k, Stream(p), bytes, minXfer)))
      && (res.Ok? || res.Blocked?)
  {
    TakeOutStream(p, bytes);
    RefillStream(TakeOut(p, bytes));
    assert Stream(p)[..|Stream(p)|] == Stream(p);
  }

  // ---------- Writing ----------

  /** What pouring takes, and where it stops. */
  ghost predicate Poured(p: Pipe, data: seq<byte>, q: Pipe) {
    var n := Min(|data|, Capacity(p));
    && q.size == p.size && q.writers == p.writers
    && q.taken == p.taken + data[..n]
    && q.taken == q.delivered + q.ring
    && |q.ring| <= q.size
    && (q.readers != [] ==> q.ring == [])
    && (n < |data| ==> q.readers == [] && |q.ring| == q.size)
  }

  ghost predicate CanPour(p: Pipe) {
    |p.ring| <= p.size && p.taken == p.delivered + p.ring && (p.readers != [] ==> p.ring == [])
  }

  lemma {:induction false} PourFacts(p: Pipe, data: seq<byte>)
    requires CanPour(p)
    ensures Poured(p, data, Pour(p, data))
    decreases |p.readers|
  {
    hide Poured, CanPour;
    if p.readers == [] {
      PourLast(p, data);
    } else if |data| < p.readers[0].want {
      PourPart(p, data);
    } else {
      var n := p.readers[0].want;
      ServedPours(p, data);
      PourFacts(ServeFirst(p, data[..n]), data[n..]);
      PouredOn(p, data, Pour(ServeFirst(p, data[..n]), data[n..]));
    }
  }

  lemma PourLast(p: Pipe, data: seq<byte>)
    requires CanPour(p) && p.readers == []
    ensures Poured(p, data, Pour(p, data))
  {
    var n := Min(|data|, Room(p));
    assert p.delivered + p.ring + data[..n] == p.delivered + (p.ring + data[..n]);
  }

  lemma PourPart(p: Pipe, data: seq<byte>)
    requires CanPour(p) && p.readers != [] && |data| < p.readers[0].want
    ensures Poured(p, data, Pour(p, data))
  {
    assert Wants(p.readers) >= p.readers[0].want;
    assert data[..|data|] == data;
  }

  lemma ServedPours(p: Pipe, data: seq<byte>)
    requires CanPour(p) && p.readers != [] && |data| >= p.readers[0].want
    ensures CanPour(ServeFirst(p, data[..p.readers[0].want]))
  {
  }

  lemma PouredOn(p: Pipe, data: seq<byte>, q: Pipe)
    requires CanPour(p) && p.readers != [] && |data| >= p.readers[0].want
    requires Poured(ServeFirst(p, data[..p.readers[0].want]), data[p.readers[0].want..], q)
    ensures Poured(p, data, q)
  {
    var n := p.readers[0].want;
    var p1 := ServeFirst(p, data[..n]);
    assert p1.readers == p.readers[1..];
    var k := Min(|data| - n, Capacity(p1));
    TakeConcat(data, n, k);
    assert p.taken + data[..n] + data[n..][..k] == p.taken + (data[..n] + data[n..][..k]);
  }

  lemma TakeConcat(data: seq<byte>, n: nat, k: nat)
    requires n + k <= |data|
    ensures data[..n] + data[n..][..k] == data[..n + k]
  {
  }

  lemma {:induction false} PourReaders(p: Pipe, data: seq<byte>)
    requires forall i | 0 <= i < |p.readers| :: p.readers[i].want > 0
    ensures var q := Pour(p, data); forall i | 0 <= i < |q.readers| :: q.readers[i].want > 0
    ensures p.readers == [] ==> Pour(p, data).readers == []
    decreases |p.readers|
  {
    if p.readers != [] && |data| >= p.readers[0].want {
      var n := p.readers[0].want;
      PourReaders(ServeFirst(p, data[..n]), data[n..]);
      assert Pour(p, data) == Pour(ServeFirst(p, data[..n]), data[n..]);
    }
  }

  lemma ServeSplit(p: Pipe, a: seq<byte>, b: seq<byte>)
    requires p.readers != [] && |a| < p.readers[0].want && |a + b| <= p.readers[0].want
    ensures ServeFirst(p, a).readers != [] && ServeFirst(p, a).readers[0].want == p.readers[0].want - |a|
    ensures ServeFirst(ServeFirst(p, a), b) == ServeFirst(p, a + b)
  {
    assert p.readers[0].got + a + b == p.readers[0].got + (a + b);
    assert p.taken + a + b == p.taken + (a + b) && p.delivered + a + b == p.delivered + (a + b);
    assert ServeFirst(p, a).readers[1..] == p.readers[1..];
  }

  /** Writing in two pieces is writing the whole. */
  lemma {:induction false} PourSplit(p: Pipe, a: seq<byte>, b: seq<byte>)
    requires |p.ring| <= p.size
    requires |a| <= Capacity(p)
    ensures Pour(Pour(p, a), b) == Pour(p, a + b)
    decreases |p.readers|
  {
    if p.readers == [] {
      var q := Pour(p, a);
      assert a[..|a|] == a;
      assert (a + b)[..Min(|a + b|, Room(p))] == a + b[..Min(|b|, Room(q))];
      assert p.ring + a + b[..Min(|b|, Room(q))] == p.ring + (a + b[..Min(|b|, Room(q))]);
      assert p.taken + a + b[..Min(|b|, Room(q))] == p.taken + (a + b[..Min(|b|, Room(q))]);
    } else {
      var n := p.readers[0].want;
      if |a| < n {
        if |a + b| < n {
          ServeSplit(p, a, b);
        } else {
          ServeSplit(p, a, b[..n - |a|]);
          assert (a + b)[..n] == a + b[..n - |a|] && (a + b)[n..] == b[n - |a|..];
        }
      } else {
        assert (a + b)[..n] == a[..n] && (a + b)[n..] == a[n..] + b;
        assert ServeFirst(p, a[..n]).readers == p.readers[1..];
        PourSplit(ServeFirst(p, a[..n]), a[n..], b);
      }
    }
  }

  /** A put hands over as much as the waiting readers and the ring can hold, readers first;
      a blocked writer queues with exactly the bytes that did not fit. */
  lemma PutFillsCapacity(p: Pipe, thread: nat, prio: int, data: seq<byte>, minXfer: nat, noWait: bool)
    requires Inv(p) && minXfer <= |data| && (minXfer <= Capacity(p) || !noWait)
    ensures var (q, res) := DoPut(p, thread, prio, data, minXfer, noWait);
      var n := Min(|data|, Capacity(p)); var served := Min(n, Wants(p.readers));
      && q.taken == p.taken + data[..n]
      && q.delivered == p.delivered + data[..served]
      && q.ring == p.ring + data[served..n]
      && (res.Ok? ==> res.count == n && q.writers == p.writers)
      && (res.Blocked? ==> n < |data|)
      && (res.Blocked? ==>
            q.writers == PendWriter(p.writers, Writer(thread, prio, data[n..], |data|, minXfer)))
      && (res.Blocked? ==> q.readers == [] && |q.ring| == q.size)
      && (res.Ok? || res.Blocked?)
  {
    hide Pour, Wants, PendWriter;
    PourFacts(p, data);
    PourDelivers(p, data);
    PourFills(p, data);
  }

  lemma PourFills(p: Pipe, data: seq<byte>)
    requires Inv(p)
    ensures var n := Min(|data|, Capacity(p)); var served := Min(n, Wants(p.readers));
            Pour(p, data).ring == p.ring + data[served..n]
  {
    hide Pour, Backlog;
    PourFacts(p, data);
    PourDelivers(p, data);
    var n := Min(|data|, Capacity(p));
    var served := Min(n, Wants(p.readers));
    assert data[..n] == data[..served] + data[served..n];
    CancelFront(p.delivered, p.ring, data[..served], data[served..n], Pour(p, data).ring);
  }

  lemma CancelFront(d: seq<byte>, ring: seq<byte>, s: seq<byte>, t: seq<byte>, r: seq<byte>)
    requires d + ring + (s + t) == d + s + r && (ring == [] || s == [])
    ensures r == ring + t
  {
    assert r == (d + s + r)[|d + s|..];
    assert ring + t == (d + ring + (s + t))[|d + s|..];
  }

  lemma {:induction false} PourDelivers(p: Pipe, data: seq<byte>)
    requires |p.ring| <= p.size
    ensures Pour(p, data).delivered == p.delivered + data[..Min(|data|, Wants(p.readers))]
    decreases |p.readers|
  {
    if p.readers == [] {
    } else if |data| < p.readers[0].want {
      assert data[..|data|] == data;
    } else {
      var n := p.readers[0].want;
      var p1 := ServeFirst(p, data[..n]);
      assert p1.readers == p.readers[1..];
      PourDelivers(p1, data[n..]);
      var m := Min(|data|, Wants(p.readers));
      assert data[..n] + data[n..][..m - n] == data[..m];
    }
  }

  lemma PendBacklog(ws: seq<Writer>, w: Writer)
    ensures var k := WriterSlot(ws, w.prio);
      Backlog(PendWriter(ws, w)) == Backlog(ws[..k]) + w.data + Backlog(ws[k..])
  {
    var k := WriterSlot(ws, w.prio);
    BacklogConcat(ws[..k] + [w], ws[k..]);
    BacklogConcat(ws[..k], [w]);
    assert Backlog([w]) == w.data + Backlog([w][1..]);
  }

  lemma PutKeepsInv(p: Pipe, thread: nat, prio: int, data: seq<byte>, minXfer: nat, noWait: bool)
    requires Inv(p)
    ensures Inv(DoPut(p, thread, prio, data, minXfer, noWait).0)
  {
    PourFacts(p, data);
    PourReaders(p, data);
  }

  lemma GetKeepsInv(p: Pipe, thread: nat, prio: int, bytes: nat, minXfer: nat, noWait: bool)
    requires Inv(p)
    ensures Inv(DoGet(p, thread, prio, bytes, minXfer, noWait).0)
  {
    hide Backlog, Head, TakeOut, Refill, PendReader;
    if minXfer <= bytes && (minXfer <= |Stream(p)| || !noWait) {
      TakeOutStream(p, bytes);
      RefillStream(TakeOut(p, bytes));
      CopyKeepsReaders(p, bytes);
      assert |Stream(Refill(TakeOut(p, bytes)))| == |Stream(p)| - Min(bytes, |Stream(p)|);
      if bytes > |Stream(p)| {
        PendWants(p.readers, Reader(thread, prio, bytes - |Stream(p)|, Head(p, bytes), bytes, minXfer));
      }
    }
  }

  lemma CopyKeepsReaders(p: Pipe, bytes: nat)
    ensures var q := Refill(TakeOut(p, bytes)); q.size == TakeOut(p, bytes).size == p.size && q.readers == p.readers
  {
    hide Backlog, Sweep, Drain;
  }

  lemma PendWants(rs: seq<Reader>, r: Reader)
    requires r.want > 0 && forall i | 0 <= i < |rs| :: rs[i].want > 0
    ensures forall i | 0 <= i < |PendReader(rs, r)| :: PendReader(rs, r)[i].want > 0
  {
    hide ReaderSlot;
  }

  lemma {:induction false} ExpireKeepsQueues(ws: seq<Writer>, rs: seq<Reader>, thread: nat)
    ensures Backlog(ws) == [] ==> Backlog(RemoveWriter(ws, thread)) == []
    ensures rs == [] ==> RemoveReader(rs, thread) == []
    ensures (forall i | 0 <= i < |rs| :: rs[i].want > 0)
        ==> (forall i | 0 <= i < |RemoveReader(rs, thread)| :: RemoveReader(rs, thread)[i].want > 0)
    decreases |ws| + |rs|
  {
    if ws != [] && ws[0].thread != thread {
      ExpireKeepsQueues(ws[1..], [], thread);
      assert ([ws[0]] + RemoveWriter(ws[1..], thread))[1..] == RemoveWriter(ws[1..], thread);
    }
    if rs != [] && rs[0].thread != thread {
      ExpireKeepsQueues([], rs[1..], thread);
    }
  }

  lemma OpKeepsInv(p: Pipe, op: Op)
    requires Inv(p)
    ensures Inv(Apply(p, op))
  {
    match op
    case Put(thread, prio, data, minXfer, noWait) => PutKeepsInv(p, thread, prio, data, minXfer, noWait);
    case Get(thread, prio, bytes, minXfer, noWait) => GetKeepsInv(p, thread, prio, bytes, minXfer, noWait);
    case Expire(thread) => ExpireKeepsQueues(p.writers, p.readers, thread);
  }

  /** After any run of puts, gets and timeouts the pipe is a byte stream: what was delivered
      is a prefix of what was taken in, and the ring holds exactly the difference. */
  lemma {:induction false} EveryRunIsAStream(p: Pipe, ops: seq<Op>)
    requires Inv(p)
    ensures Inv(Run(p, ops))
    ensures Run(p, ops).delivered <= Run(p, ops).taken
    ensures Run(p, ops).taken[|Run(p, ops).delivered|..] == Run(p, ops).ring
    decreases |ops|
  {
    if ops != [] {
      OpKeepsInv(p, ops[0]);
      EveryRunIsAStream(Apply(p, ops[0]), ops[1..]);
    }
  }

  // ---------- What blocked calls return ----------

  predicate ReaderOk(r: Reader) { |r.got| + r.want == r.asked && r.min <= r.asked }

  predicate WriterOk(w: Writer) { |w.data| <= w.asked && w.min <= w.asked }

  ghost predicate ReadersOk(rs: seq<Reader>) { forall i | 0 <= i < |rs| :: ReaderOk(rs[i]) }

  ghost predicate WritersOk(ws: seq<Writer>) { forall i | 0 <= i < |ws| :: WriterOk(ws[i]) }

  /** The code of the waiting call of a thread, should its wait end now. */
  function CodeNow(p: Pipe, thread: nat): Option<Result> {
    match FindReader(p.readers, thread)
    case Some(r) => if r.want <= r.asked then Some(CallerCode(r.asked, r.want, r.min)) else None
    case None =>
      match FindWriter(p.writers, thread)
      case Some(w) => if |w.data| <= w.asked then Some(CallerCode(w.asked, |w.data|, w.min)) else None
      case None => None
  }

  function FindReader(rs: seq<Reader>, thread: nat): Option<Reader> {
    if rs == [] then None else if rs[0].thread == thread then Some(rs[0]) else FindReader(rs[1..], thread)
  }

  function FindWriter(ws: seq<Writer>, thread: nat): Option<Writer> {
    if ws == [] then None else if ws[0].thread == thread then Some(ws[0]) else FindWriter(ws[1..], thread)
  }

  lemma {:induction false} PourAccounted(p: Pipe, data: seq<byte>)
    requires ReadersOk(p.readers)
    ensures ReadersOk(Pour(p, data).readers)
    decreases |p.readers|
  {
    if p.readers != [] && |data| >= p.readers[0].want {
      var n := p.readers[0].want;
      assert ServeFirst(p, data[..n]).readers == p.readers[1..];
      PourAccounted(ServeFirst(p, data[..n]), data[n..]);
    }
  }

  lemma {:induction false} SweepAccounted(ws: seq<Writer>, k: nat, n: nat)
    requires WritersOk(ws)
    ensures WritersOk(Sweep(ws, k, n))
  {
    if k > 0 && ws != [] {
      SweepAccounted(ws[1..], k - 1, n - Min(n, |ws[0].data|));
    }
  }

  lemma {:induction false} DrainAccounted(ws: seq<Writer>, n: nat)
    requires WritersOk(ws)
    ensures WritersOk(Drain(ws, n))
  {
    if ws != [] {
      DrainAccounted(ws[1..], n - Min(n, |ws[0].data|));
    }
  }

  lemma {:induction false} RemoveAccounted(rs: seq<Reader>, ws: seq<Writer>, thread: nat)
    requires ReadersOk(rs) && WritersOk(ws)
    ensures ReadersOk(RemoveReader(rs, thread)) && WritersOk(RemoveWriter(ws, thread))
    decreases |rs| + |ws|
  {
    if rs != [] && rs[0].thread != thread { RemoveAccounted(rs[1..], [], thread); }
    if ws != [] && ws[0].thread != thread { RemoveAccounted([], ws[1..], thread); }
  }

  lemma OpAccounted(p: Pipe, op: Op)
    requires Inv(p) && ReadersOk(p.readers) && WritersOk(p.writers)
    ensures ReadersOk(Apply(p, op).readers) && WritersOk(Apply(p, op).writers)
  {
    hide Pour, Sweep, Drain, Backlog, Walk, RemoveReader, RemoveWriter;
    match op
    case Put(thread, prio, data, minXfer, noWait) =>
      PourFacts(p, data);
      PourAccounted(p, data);
    case Get(thread, prio, bytes, minXfer, noWait) =>
      var k := Min(bytes, |Stream(p)|);
      SweepAccounted(p.writers, Walk(p.writers, bytes), k - Min(k, |p.ring|));
      var q := TakeOut(p, bytes);
      DrainAccounted(q.writers, Min(Room(q), |Backlog(q.writers)|));
    case Expire(thread) => RemoveAccounted(p.readers, p.writers, thread);
  }

  /** Over every run, what a blocked call has transferred and what it still has to adds up to
      what it asked for, and that is never less than its minimum: a call that gets everything
      succeeds. */
  lemma {:induction false} EveryRunIsAccounted(p: Pipe, ops: seq<Op>)
    requires Inv(p) && ReadersOk(p.readers) && WritersOk(p.writers)
    ensures ReadersOk(Run(p, ops).readers) && WritersOk(Run(p, ops).writers)
    decreases |ops|
  {
    hide Inv, Apply;
    if ops != [] {
      OpKeepsInv(p, ops[0]);
      OpAccounted(p, ops[0]);
      EveryRunIsAccounted(Apply(p, ops[0]), ops[1..]);
    }
  }

  /** The bytes of `data` that the reader at position `i` gets: those behind what the readers
      before it want, as many as it wants itself. */
  function Share(rs: seq<Reader>, i: nat, data: seq<byte>): seq<byte>
    requires i < |rs|
  {
    var from := Min(|data|, Wants(rs[..i]));
    data[from..][..Min(|data| - from, rs[i].want)]
  }

  lemma ShareNext(rs: seq<Reader>, i: nat, data: seq<byte>)
    requires 0 < i < |rs| && rs[0].want <= |data|
    ensures Wants(rs[..i]) == rs[0].want + Wants(rs[1..][..i - 1])
    ensures Share(rs, i, data) == Share(rs[1..], i - 1, data[rs[0].want..])
  {
    assert rs[..i][1..] == rs[1..][..i - 1];
    var a, b := rs[0].want, Min(|data| - rs[0].want, Wants(rs[1..][..i - 1]));
    assert data[a..][b..] == data[a + b..];
  }

  /** Of the readers `rs`, those whose share is all they want have left; the others are `qs`,
      in order, with their share added. */
  ghost predicate SharedOut(rs: seq<Reader>, qs: seq<Reader>, data: seq<byte>, i: nat)
    requires i < |rs|
  {
    var share := Share(rs, i, data);
    && |qs| <= |rs|
    && (i < |rs| - |qs| <==> |share| == rs[i].want)
    && (i >= |rs| - |qs| ==>
          qs[i - (|rs| - |qs|)] == rs[i].(want := rs[i].want - |share|, got := rs[i].got + share))
  }

  lemma SharedFirst(rs: seq<Reader>, data: seq<byte>, i: nat)
    requires i < |rs| && |data| < rs[0].want && rs[i].want > 0
    ensures SharedOut(rs, [rs[0].(want := rs[0].want - |data|, got := rs[0].got + data)] + rs[1..], data, i)
  {
    assert rs[..0] == [];
    if i > 0 {
      WantsFirst(rs, i);
      assert rs[i].got + [] == rs[i].got;
    } else {
      assert data[0..][..|data|] == data;
    }
  }

  lemma SharedNext(rs: seq<Reader>, qs: seq<Reader>, data: seq<byte>, i: nat)
    requires i < |rs| && |data| >= rs[0].want && |qs| < |rs|
    requires i > 0 ==> SharedOut(rs[1..], qs, data[rs[0].want..], i - 1)
    ensures SharedOut(rs, qs, data, i)
  {
    hide Wants, Share;
    if i > 0 {
      ShareNext(rs, i, data);
    } else {
      ShareAll(rs, data);
    }
  }

  lemma ShareAll(rs: seq<Reader>, data: seq<byte>)
    requires rs != [] && |data| >= rs[0].want
    ensures |Share(rs, 0, data)| == rs[0].want
  {
    assert rs[..0] == [];
  }

  /** A put gives each waiting reader its own share. Exactly the readers whose share is all
      they want leave, and the others wait on, in order, with their share added. */
  lemma {:induction false} PourShares(p: Pipe, data: seq<byte>, i: nat)
    requires i < |p.readers| && forall j | 0 <= j < |p.readers| :: p.readers[j].want > 0
    ensures SharedOut(p.readers, Pour(p, data).readers, data, i)
    decreases |p.readers|
  {
    hide SharedOut, Share, Wants;
    var rs := p.readers;
    if |data| < rs[0].want {
      SharedFirst(rs, data, i);
    } else {
      var p1 := ServeFirst(p, data[..rs[0].want]);
      assert p1.readers == rs[1..];
      PourFewer(p1, data[rs[0].want..]);
      if i > 0 {
        PourShares(p1, data[rs[0].want..], i - 1);
      }
      SharedNext(rs, Pour(p, data).readers, data, i);
    }
  }

  lemma {:induction false} PourFewer(p: Pipe, data: seq<byte>)
    ensures |Pour(p, data).readers| <= |p.readers|
    decreases |p.readers|
  {
    if p.readers != [] && |data| >= p.readers[0].want {
      PourFewer(ServeFirst(p, data[..p.readers[0].want]), data[p.readers[0].want..]);
    }
  }

  lemma WantsFirst(rs: seq<Reader>, i: nat)
    requires 0 < i <= |rs|
    ensures Wants(rs[..i]) >= rs[0].want
  {
    assert rs[..i][0] == rs[0];
  }

  /** A reader whose wait ends succeeds exactly when it has got its minimum, a writer when that
      much of its data is gone; the count is what was transferred. */
  lemma CodeNowIs(p: Pipe, thread: nat)
    requires ReadersOk(p.readers) && WritersOk(p.writers)
    ensures var r := FindReader(p.readers, thread);
            r.Some? ==> CodeNow(p, thread) ==
                          Some(if |r.value.got| >= r.value.min then Ok(|r.value.got|) else EAGAIN(|r.value.got|))
    ensures var w := FindWriter(p.writers, thread);
            FindReader(p.readers, thread).None? && w.Some? ==>
              && |w.value.data| <= w.value.asked && var n := w.value.asked - |w.value.data|;
              && CodeNow(p, thread) == Some(if n >= w.value.min then Ok(n) else EAGAIN(n))
    ensures CodeNow(p, thread).None? <==> FindReader(p.readers, thread).None? && FindWriter(p.writers, thread).None?
  {
    hide FindReader, FindWriter;
    FoundOk(p.readers, p.writers, thread);
  }

  lemma {:induction false} FoundOk(rs: seq<Reader>, ws: seq<Writer>, thread: nat)
    requires ReadersOk(rs) && WritersOk(ws)
    ensures FindReader(rs, thread).Some? ==> ReaderOk(FindReader(rs, thread).value)
    ensures FindWriter(ws, thread).Some? ==> WriterOk(FindWriter(ws, thread).value)
    decreases |rs| + |ws|
  {
    if rs != [] { FoundOk(rs[1..], [], thread); }
    if ws != [] { FoundOk([], ws[1..], thread); }
  }

  // ---------- What each call answers ----------

  /** The answer to a call that asks for `asked` bytes of which `can` could be transferred now:
      an impossible minimum is refused, a minimum out of reach is refused without waiting, and
      a caller willing to wait does so exactly as long as it has neither everything nor a
      minimum that it asked for. */
  ghost predicate Answers(res: Result, asked: nat, can: nat, minXfer: nat, noWait: bool) {
    var n := Min(asked, can);
    && (res == EINVAL <==> asked < minXfer)
    && (res == EIO <==> can < minXfer <= asked && noWait)
    && (res == Blocked <==> minXfer <= asked && !noWait && n < asked && (minXfer == 0 || n < minXfer))
    && (res.Ok? ==> res.count == n)
    && !res.EAGAIN?
  }

  lemma PutAnswers(p: Pipe, thread: nat, prio: int, data: seq<byte>, minXfer: nat, noWait: bool)
    requires |p.ring| <= p.size
    ensures var (q, res) := DoPut(p, thread, prio, data, minXfer, noWait);
            && Answers(res, |data|, Wants(p.readers) + p.size - |p.ring|, minXfer, noWait)
            && (res.EINVAL? || res.EIO? ==> q == p)
  {
    hide Pour, Wants, PendWriter;
  }

  lemma GetAnswers(p: Pipe, thread: nat, prio: int, bytes: nat, minXfer: nat, noWait: bool)
    ensures var (q, res, out) := DoGet(p, thread, prio, bytes, minXfer, noWait);
            && Answers(res, bytes, |p.ring| + |Backlog(p.writers)|, minXfer, noWait)
            && (res.EINVAL? || res.EIO? ==> q == p)
            && (!res.Ok? ==> out == [])
  {
    hide Backlog, TakeOut, Refill, PendReader;
  }

  // ---------- Order of the queues ----------

  ghost predicate WritersSorted(ws: seq<Writer>) { forall i, j | 0 <= i < j < |ws| :: ws[i].prio <= ws[j].prio }

  ghost predicate ReadersSorted(rs: seq<Reader>) { forall i, j | 0 <= i < j < |rs| :: rs[i].prio <= rs[j].prio }

  /** A writer that waits goes behind everyone of equal or better priority and before everyone
      of worse priority. */
  lemma {:induction false} WriterSlotIs(ws: seq<Writer>, prio: int)
    requires WritersSorted(ws)
    ensures forall i | 0 <= i < |ws| :: i < WriterSlot(ws, prio) <==> ws[i].prio <= prio
  {
    if ws != [] {
      WriterSlotIs(ws[1..], prio);
      assert forall i | 0 < i < |ws| :: ws[i] == ws[1..][i - 1];
    }
  }

  lemma {:induction false} ReaderSlotIs(rs: seq<Reader>, prio: int)
    requires ReadersSorted(rs)
    ensures forall i | 0 <= i < |rs| :: i < ReaderSlot(rs, prio) <==> rs[i].prio <= prio
  {
    if rs != [] {
      ReaderSlotIs(rs[1..], prio);
      assert forall i | 0 < i < |rs| :: rs[i] == rs[1..][i - 1];
    }
  }

  lemma PendSorted(ws: seq<Writer>, w: Writer, rs: seq<Reader>, r: Reader)
    requires WritersSorted(ws) && ReadersSorted(rs)
    ensures WritersSorted(PendWriter(ws, w)) && ReadersSorted(PendReader(rs, r))
  {
    hide WriterSlot, ReaderSlot;
    WriterSlotIs(ws, w.prio);
    ReaderSlotIs(rs, r.prio);
  }

  lemma {:induction false} WriterSlotFirst(ws: seq<Writer>, prio: int)
    ensures var k := WriterSlot(ws, prio);
            (forall i | 0 <= i < k :: ws[i].prio <= prio) && (k < |ws| ==> prio < ws[k].prio)
  {
    if ws != [] && prio >= ws[0].prio {
      WriterSlotFirst(ws[1..], prio);
      assert forall i | 0 < i < |ws| :: ws[i] == ws[1..][i - 1];
    }
  }

  lemma {:induction false} ReaderSlotFirst(rs: seq<Reader>, prio: int)
    ensures var k := ReaderSlot(rs, prio);
            (forall i | 0 <= i < k :: rs[i].prio <= prio) && (k < |rs| ==> prio < rs[k].prio)
  {
    if rs != [] && prio >= rs[0].prio {
      ReaderSlotFirst(rs[1..], prio);
      assert forall i | 0 < i < |rs| :: rs[i] == rs[1..][i - 1];
    }
  }

  /** A put that blocks waits with the bytes that did not fit, before the first writer of worse
      priority; the others stay as they are. */
  lemma BlockedPut(p: Pipe, thread: nat, prio: int, data: seq<byte>, minXfer: nat, noWait: bool) returns (k: nat)
    requires Inv(p) && DoPut(p, thread, prio, data, minXfer, noWait).1.Blocked?
    ensures var q := Apply(p, Put(thread, prio, data, minXfer, noWait)); var ws := p.writers;
            var n := Min(|data|, Wants(p.readers) + p.size - |p.ring|);
            && k <= |ws| && (forall i | 0 <= i < k :: ws[i].prio <= prio) && (k < |ws| ==> prio < ws[k].prio)
            && q.writers == ws[..k] + [Writer(thread, prio, data[n..], |data|, minXfer)] + ws[k..]
  {
    hide Pour, Wants, WriterSlot;
    PutFillsCapacity(p, thread, prio, data, minXfer, noWait);
    WriterSlotFirst(p.writers, prio);
    k := WriterSlot(p.writers, prio);
  }

  /** A get that blocks waits with what it has got so far, before the first reader of worse
      priority; the others stay as they are. */
  lemma BlockedGet(p: Pipe, thread: nat, prio: int, bytes: nat, minXfer: nat, noWait: bool) returns (k: nat)
    requires Inv(p) && DoGet(p, thread, prio, bytes, minXfer, noWait).1.Blocked?
    ensures var q := Apply(p, Get(thread, prio, bytes, minXfer, noWait)); var rs := p.readers;
            && |Stream(p)| <= bytes
            && k <= |rs| && (forall i | 0 <= i < k :: rs[i].prio <= prio) && (k < |rs| ==> prio < rs[k].prio)
            && q.readers == rs[..k] + [Reader(thread, prio, bytes - |Stream(p)|, Stream(p), bytes, minXfer)] + rs[k..]
  {
    hide Stream, TakeOut, Refill, ReaderSlot;
    GetTakesStreamPrefix(p, thread, prio, bytes, minXfer, noWait);
    ReaderSlotFirst(p.readers, prio);
    k := ReaderSlot(p.readers, prio);
  }

  /** What a call that is not refused takes in and hands out, for every operation of a run. */
  lemma OpTransfers(p: Pipe, op: Op)
    requires Inv(p)
    ensures var q := Apply(p, op);
            match op
            case Put(_, _, data, minXfer, noWait) =>
              var can := Wants(p.readers) + p.size - |p.ring|;
              if minXfer > |data| || (noWait && can < minXfer) then q == p
              else
                && q.taken == p.taken + data[..Min(|data|, can)]
                && q.delivered == p.delivered + data[..Min(|data|, Wants(p.readers))]
            case Get(_, _, bytes, minXfer, noWait) =>
              var can := |p.ring| + |Backlog(p.writers)|;
              if minXfer > bytes || (noWait && can < minXfer) then q == p
              else q.delivered == p.delivered + (p.ring + Backlog(p.writers))[..Min(bytes, can)]
            case Expire(_) => q.taken == p.taken && q.delivered == p.delivered && q.ring == p.ring
  {
    hide Pour, Wants, Backlog, TakeOut, Refill, PendReader, PendWriter, RemoveReader, RemoveWriter;
    match op
    case Put(thread, prio, data, minXfer, noWait) =>
      if minXfer <= |data| && (minXfer <= Capacity(p) || !noWait) {
        PutFillsCapacity(p, thread, prio, data, minXfer, noWait);
      }
    case Get(thread, prio, bytes, minXfer, noWait) =>
      if minXfer <= bytes && (minXfer <= |Stream(p)| || !noWait) {
        GetTakesStreamPrefix(p, thread, prio, bytes, minXfer, noWait);
      }
    case Expire(_) =>
  }

  /** What `n` bytes taken from the front of the queue leave of the writer at position `i`. */
  function Rest(ws: seq<Writer>, i: nat, n: nat): seq<byte>
    requires i < |ws|
  {
    var before := |Backlog(ws[..i])|;
    ws[i].data[if n <= before then 0 else Min(n - before, |ws[i].data|)..]
  }

  lemma RestNext(ws: seq<Writer>, i: nat, n: nat)
    requires 0 < i < |ws|
    ensures Rest(ws, i, n) == Rest(ws[1..], i - 1, n - Min(n, |ws[0].data|))
  {
    assert ws[..i][1..] == ws[1..][..i - 1];
  }

  /** Draining takes from each writer what those before it could not give, and changes nothing
      else about it. */
  lemma {:induction false} DrainShares(ws: seq<Writer>, n: nat)
    ensures |Drain(ws, n)| == |ws|
    ensures forall i | 0 <= i < |ws| :: Drain(ws, n)[i] == ws[i].(data := Rest(ws, i, n))
  {
    hide Rest, Backlog;
    if ws != [] {
      var t := Min(n, |ws[0].data|);
      DrainShares(ws[1..], n - t);
      RestFirst(ws, n);
      forall i | 0 < i < |ws| ensures Drain(ws, n)[i] == ws[i].(data := Rest(ws, i, n)) {
        RestNext(ws, i, n);
        assert Drain(ws, n)[i] == Drain(ws[1..], n - t)[i - 1];
      }
    }
  }

  lemma RestFirst(ws: seq<Writer>, n: nat)
    requires ws != []
    ensures Rest(ws, 0, n) == ws[0].data[Min(n, |ws[0].data|)..]
  {
    assert ws[..0] == [];
  }

  function Holding(ws: seq<Writer>): seq<Writer> {
    if ws == [] then [] else (if ws[0].data == [] then [] else [ws[0]]) + Holding(ws[1..])
  }

  /** A get drains the writers it visits; those left with nothing leave, the rest stay in order. */
  lemma {:induction false} SweepIs(ws: seq<Writer>, k: nat, n: nat)
    requires k <= |ws|
    ensures Sweep(ws, k, n) == Holding(Drain(ws[..k], n)) + ws[k..]
  {
    hide Holding;
    if k == 0 {
      assert ws[..0] == [] && ws[0..] == ws;
      HoldingNone();
    } else {
      var t := Min(n, |ws[0].data|);
      var rest := Drain(ws[1..][..k - 1], n - t);
      SweepIs(ws[1..], k - 1, n - t);
      assert ws[1..][k - 1..] == ws[k..];
      assert Drain(ws[..k], n) == [ws[0].(data := ws[0].data[t..])] + rest by {
        assert ws[..k][1..] == ws[1..][..k - 1];
      }
      HoldingCons(ws[0].(data := ws[0].data[t..]), rest, ws[k..]);
    }
  }

  lemma HoldingNone()
    ensures Holding([]) == []
  {
  }

  lemma HoldingCons(w: Writer, rest: seq<Writer>, behind: seq<Writer>)
    ensures Holding([w] + rest) + behind == (if w.data == [] then [] else [w]) + (Holding(rest) + behind)
  {
    assert ([w] + rest)[1..] == rest;
  }

  /** The visited writers are the fewest that hold the bytes, but at least one. */
  lemma {:induction false} WalkLeast(ws: seq<Writer>, bytes: nat, j: nat)
    requires 0 < j < Walk(ws, bytes)
    ensures |Backlog(ws[..j])| < bytes
  {
    assert ws[..j][1..] == ws[1..][..j - 1];
    if j == 1 {
      assert ws[..1][1..] == [] && Backlog(ws[..1]) == ws[0].data + [];
    } else {
      WalkLeast(ws[1..], bytes - |ws[0].data|, j - 1);
    }
  }

  lemma {:induction false} WalkReadersLeast(rs: seq<Reader>, bytes: nat, j: nat)
    requires 0 < j < WalkReaders(rs, bytes)
    ensures Wants(rs[..j]) < bytes
  {
    assert rs[..j][1..] == rs[1..][..j - 1];
    if j > 1 { WalkReadersLeast(rs[1..], bytes - rs[0].want, j - 1); }
  }

  /** What a get that is not refused leaves of the writers: it takes what the ring lacks from
      the ones it visits, and then the rest of them fill the ring. */
  lemma GetDrainsWriters(p: Pipe, thread: nat, prio: int, bytes: nat, minXfer: nat, noWait: bool)
    requires Inv(p) && minXfer <= bytes && (minXfer <= |Stream(p)| || !noWait)
    ensures var q := DoGet(p, thread, prio, bytes, minXfer, noWait).0;
            var held := |Backlog(p.writers)|;
            var direct := if bytes <= |p.ring| then 0 else Min(bytes - |p.ring|, held);
            var kept := if bytes <= |p.ring| then |p.ring| - bytes else 0;
            var w := Walk(p.writers, bytes);
            q.writers == Drain(Holding(Drain(p.writers[..w], direct)) + p.writers[w..],
                               Min(p.size - kept, held - direct))
  {
    hide Backlog, Walk, Sweep, Drain, Holding;
    var k := Min(bytes, |Stream(p)|);
    SweepIs(p.writers, Walk(p.writers, bytes), k - Min(k, |p.ring|));
    SweepStream(p, bytes);
  }

  lemma {:induction false} SweepSorted(ws: seq<Writer>, k: nat, n: nat)
    requires WritersSorted(ws)
    ensures WritersSorted(Sweep(ws, k, n))
    ensures forall i | 0 <= i < |Sweep(ws, k, n)| :: ws != [] && ws[0].prio <= Sweep(ws, k, n)[i].prio
  {
    if k > 0 && ws != [] { SweepSorted(ws[1..], k - 1, n - Min(n, |ws[0].data|)); }
  }

  lemma DrainSorted(ws: seq<Writer>, n: nat)
    requires WritersSorted(ws)
    ensures WritersSorted(Drain(ws, n))
  {
    hide Drain, Rest;
    DrainShares(ws, n);
  }

  function ServedBy(r: Reader, data: seq<byte>): Reader {
    if |data| <= r.want then r.(want := r.want - |data|, got := r.got + data) else r
  }

  lemma FirstSorted(rs: seq<Reader>, r: Reader)
    requires ReadersSorted(rs) && rs != [] && r.prio == rs[0].prio
    ensures ReadersSorted(rs[1..]) && ReadersSorted([r] + rs[1..])
  {
    var q := [r] + rs[1..];
    assert forall i | 0 <= i < |q| :: q[i].prio == rs[i].prio;
  }

  lemma {:induction false} PourSorted(p: Pipe, data: seq<byte>)
    requires ReadersSorted(p.readers)
    ensures ReadersSorted(Pour(p, data).readers) && Pour(p, data).writers == p.writers
    decreases |p.readers|
  {
    hide ReadersSorted;
    if p.readers != [] { FirstSorted(p.readers, ServedBy(p.readers[0], data)); }
    if p.readers != [] && |data| >= p.readers[0].want {
      var n := p.readers[0].want;
      assert ServeFirst(p, data[..n]).readers == p.readers[1..];
      PourSorted(ServeFirst(p, data[..n]), data[n..]);
    }
  }

  // ---------- Timeouts of waiting calls ----------

  /** The timeout of a waiting reader takes it, and nobody else, off the queue. */
  lemma {:induction false} ReaderLeaves(rs: seq<Reader>, thread: nat, i: nat)
    requires i <= |rs| && (forall j | 0 <= j < i :: rs[j].thread != thread)
    requires i < |rs| ==> rs[i].thread == thread
    ensures RemoveReader(rs, thread) == if i < |rs| then rs[..i] + rs[i + 1..] else rs
    ensures FindReader(rs, thread) == if i < |rs| then Some(rs[i]) else None
  {
    if i > 0 {
      ReaderLeaves(rs[1..], thread, i - 1);
      if i < |rs| { CutCons(rs, i); }
      assert rs == [rs[0]] + rs[1..];
    } else if rs != [] {
      assert rs[..0] + rs[1..] == rs[1..];
    }
  }

  lemma {:induction false} WriterLeaves(ws: seq<Writer>, thread: nat, i: nat)
    requires i <= |ws| && (forall j | 0 <= j < i :: ws[j].thread != thread)
    requires i < |ws| ==> ws[i].thread == thread
    ensures RemoveWriter(ws, thread) == if i < |ws| then ws[..i] + ws[i + 1..] else ws
    ensures FindWriter(ws, thread) == if i < |ws| then Some(ws[i]) else None
  {
    if i > 0 {
      WriterLeaves(ws[1..], thread, i - 1);
      if i < |ws| { CutCons(ws, i); }
      assert ws == [ws[0]] + ws[1..];
    } else if ws != [] {
      assert ws[..0] + ws[1..] == ws[1..];
    }
  }

  lemma {:induction false} RemoveSorted(rs: seq<Reader>, ws: seq<Writer>, thread: nat)
    requires ReadersSorted(rs) && WritersSorted(ws)
    ensures ReadersSorted(RemoveReader(rs, thread)) && WritersSorted(RemoveWriter(ws, thread))
    ensures forall i | 0 <= i < |RemoveReader(rs, thread)| ::
              rs != [] && rs[0].prio <= RemoveReader(rs, thread)[i].prio
    ensures forall i | 0 <= i < |RemoveWriter(ws, thread)| ::
              ws != [] && ws[0].prio <= RemoveWriter(ws, thread)[i].prio
    decreases |rs| + |ws|
  {
    if rs != [] && rs[0].thread != thread { RemoveSorted(rs[1..], [], thread); }
    if ws != [] && ws[0].thread != thread { RemoveSorted([], ws[1..], thread); }
  }

  /** A timeout takes a waiting call off its queue and leaves the ring and the history alone. */
  lemma ExpireKeepsRest(p: Pipe, thread: nat)
    ensures var q := Apply(p, Expire(thread));
            && q == p.(readers := RemoveReader(p.readers, thread), writers := RemoveWriter(p.writers, thread))
            && (FindReader(p.readers, thread).None? ==> q.readers == p.readers)
            && (FindWriter(p.writers, thread).None? ==> q.writers == p.writers)
  {
    NobodyLeaves(p.readers, p.writers, thread);
  }

  lemma {:induction false} NobodyLeaves(rs: seq<Reader>, ws: seq<Writer>, thread: nat)
    ensures FindReader(rs, thread).None? ==> RemoveReader(rs, thread) == rs
    ensures FindWriter(ws, thread).None? ==> RemoveWriter(ws, thread) == ws
    decreases |rs| + |ws|
  {
    if rs != [] { NobodyLeaves(rs[1..], [], thread); }
    if ws != [] { NobodyLeaves([], ws[1..], thread); }
  }

  lemma OpKeepsOrder(p: Pipe, op: Op)
    requires ReadersSorted(p.readers) && WritersSorted(p.writers)
    ensures ReadersSorted(Apply(p, op).readers) && WritersSorted(Apply(p, op).writers)
  {
    hide Pour, Sweep, Drain, Backlog, Walk, RemoveReader, RemoveWriter, PendReader, PendWriter;
    match op
    case Put(thread, prio, data, minXfer, noWait) =>
      PourSorted(p, data);
      PendSorted(p.writers, Writer(thread, prio, data[Min(|data|, Capacity(p))..], |data|, minXfer),
                 [], Reader(thread, prio, 0, [], 0, 0));
    case Get(thread, prio, bytes, minXfer, noWait) =>
      var k := Min(bytes, |Stream(p)|);
      SweepSorted(p.writers, Walk(p.writers, bytes), k - Min(k, |p.ring|));
      var q := TakeOut(p, bytes);
      DrainSorted(q.writers, Min(Room(q), |Backlog(q.writers)|));
      PendSorted([], Writer(thread, prio, [], 0, 0),
                 p.readers, Reader(thread, prio, bytes - k, Head(p, bytes), bytes, minXfer));
    case Expire(thread) => RemoveSorted(p.readers, p.writers, thread);
  }

  /** Over every run both queues are in priority order. */
  lemma {:induction false} EveryRunIsOrdered(p: Pipe, ops: seq<Op>)
    requires ReadersSorted(p.readers) && WritersSorted(p.writers)
    ensures ReadersSorted(Run(p, ops).readers) && WritersSorted(Run(p, ops).writers)
    decreases |ops|
  {
    hide ReadersSorted, WritersSorted, Apply;
    if ops != [] {
      OpKeepsOrder(p, ops[0]);
      EveryRunIsOrdered(Apply(p, ops[0]), ops[1..]);
    }
  }
}
