/**
  `struct k_pipe`: a ring buffer addressed by a read and a write index, and the copy loops
  over descriptor lists. Each operation is proved to do what `PipeSpec` says.
 */
module Pipes {
  import opened Common
  import opened PipeSpec

  /** An entry of the destination list: the next waiting reader, or a stretch of the ring. */
  datatype Dest = ToReader | ToRing(start: nat, len: nat)

  /** A stretch of the ring to read from. */
  datatype Span = Span(start: nat, len: nat)

  function Wrap(size: nat, i: nat): nat { if i >= size then i - size else i }

  /** The `n` bytes from index `r` on, around the end of the buffer. */
  function RingOf(buf: seq<byte>, r: nat, n: nat): (s: seq<byte>)
    requires n <= |buf| && r <= |buf|
    ensures |s| == n
  {
    if r + n <= |buf| then buf[r..r + n] else buf[r..] + buf[..r + n - |buf|]
  }

  lemma RingAppend(buf: seq<byte>, buf': seq<byte>, r: nat, n: nat, data: seq<byte>)
    requires r < |buf| && n + |data| <= |buf|
    requires var w := Wrap(|buf|, r + n); w + |data| <= |buf| && buf' == buf[..w] + data + buf[w + |data|..]
    ensures RingOf(buf', r, n + |data|) == RingOf(buf, r, n) + data
  {
  }

  lemma RingDrop(buf: seq<byte>, r: nat, n: nat, k: nat)
    requires r < |buf| && k <= n <= |buf| && r + k <= |buf|
    ensures RingOf(buf, r, n)[..k] == buf[r..r + k]
    ensures RingOf(buf, Wrap(|buf|, r + k), n - k) == RingOf(buf, r, n)[k..]
  {
  }

  /** The ring part of a destination list covers the free space from the write index on. */
  ghost predicate Frees(d: seq<Dest>, size: nat, w: nat, room: nat) {
    if d == [] then room == 0
    else
      && d[0].ToRing? && d[0].start == w && d[0].len <= room && w + d[0].len <= size
      && Frees(d[1..], size, Wrap(size, w + d[0].len), room - d[0].len)
  }

  /** A source list covers the used space from the read index on. */
  ghost predicate Covers(d: seq<Span>, size: nat, r: nat, used: nat) {
    if d == [] then used == 0
    else
      && d[0].start == r && d[0].len <= used && r + d[0].len <= size
      && Covers(d[1..], size, Wrap(size, r + d[0].len), used - d[0].len)
  }

  /** `pipe_buffer_list_populate` for writing: the free stretches of a ring that is not full. */
  function FreeList(size: nat, w: nat, r: nat): seq<Dest>
    requires w <= size
  {
    if w < r then [ToRing(w, r - w)] else [ToRing(w, size - w), ToRing(0, r)]
  }

  /** `pipe_buffer_list_populate` for reading: the used stretches of a ring that is not empty. */
  function UsedList(size: nat, r: nat, w: nat): seq<Span>
    requires r <= size
  {
    if r < w then [Span(r, w - r)] else [Span(r, size - r), Span(0, w)]
  }

  lemma FreeFrees(size: nat, r: nat, used: nat)
    requires r < size && used < size
    ensures var w := Wrap(size, r + used); Frees(FreeList(size, w, r), size, w, size - used)
  {
    var w := Wrap(size, r + used);
    var d := FreeList(size, w, r);
    if w < r {
      assert d[1..] == [];
    } else {
      assert d[1..] == [ToRing(0, r)] && d[1..][1..] == [];
    }
  }

  lemma UsedCovers(size: nat, r: nat, w: nat, used: nat)
    requires used <= size && (if size == 0 then r == w == 0 else r < size && w == Wrap(size, r + used))
    ensures Covers(if used != 0 then UsedList(size, r, w) else [], size, r, used)
  {
    if used != 0 {
      var d := UsedList(size, r, w);
      if r < w {
        assert d[1..] == [];
      } else {
        assert d[1..] == [Span(0, w)] && d[1..][1..] == [];
      }
    }
  }

  lemma Joined(a: seq<byte>, b: seq<byte>, c: seq<byte>)
    ensures a + (b + c) == a + b + c
  {
  }

  lemma Front(ring: seq<byte>, out: seq<byte>, rest: seq<byte>, bytes: nat)
    requires ring == out + rest && |out| <= bytes && (|out| == bytes || rest == [])
    ensures var r := Min(bytes, |ring|); out == ring[..r] && rest == ring[r..]
  {
  }

  lemma CoversNext(d: seq<Span>, size: nat, r: nat, used: nat)
    requires Covers(d, size, r, used)
    ensures d == [] ==> used == 0
    ensures d != [] ==>
      && d[0].start == r && d[0].len <= used && r + d[0].len <= size
      && Covers(d[1..], size, Wrap(size, r + d[0].len), used - d[0].len)
  {
  }

  lemma PourNothing(p: Pipe)
    requires |p.ring| <= p.size && forall i | 0 <= i < |p.readers| :: p.readers[i].want > 0
    ensures Pour(p, []) == p
  {
    if p.readers == [] {
      assert Store(p, []) == p;
    } else {
      var r := p.readers[0];
      assert r.(got := r.got + []) == r && p.readers == [r] + p.readers[1..];
      assert p.taken + [] == p.taken && p.delivered + [] == p.delivered;
    }
  }

  lemma PourFull(p: Pipe, data: seq<byte>)
    requires p.readers == [] && |p.ring| == p.size
    ensures Pour(p, data) == p
  {
    assert Store(p, []) == p;
  }

  class KPipe {
    const buffer: array<byte>
    var bytesUsed: nat
    var readIndex: nat
    var writeIndex: nat
    var readers: seq<Reader>
    var writers: seq<Writer>
    ghost var taken: seq<byte>
    ghost var delivered: seq<byte>

    ghost predicate Valid()
      reads this, buffer
    {
      && bytesUsed <= buffer.Length
      && (if buffer.Length == 0 then readIndex == writeIndex == 0
          else readIndex < buffer.Length && writeIndex == Wrap(buffer.Length, readIndex + bytesUsed))
      && (forall i | 0 <= i < |readers| :: readers[i].want > 0)
    }

    ghost function View(): Pipe
      reads this, buffer
      requires Valid()
    {
      Pipe(buffer.Length, RingOf(buffer[..], readIndex, bytesUsed), readers, writers, taken, delivered)
    }

    constructor (size: nat)
      ensures fresh(buffer) && Valid() && View() == Init(size)
    {
      buffer := new byte[size];
      bytesUsed, readIndex, writeIndex := 0, 0, 0;
      readers, writers := [], [];
      taken, delivered := [], [];
    }

    /** `pipe_waiter_list_populate` over waiting readers. */
    method PopulateReaders(bytes: nat) returns (k: nat, available: nat)
      ensures k == WalkReaders(readers, bytes) && available == Wants(readers[..k])
    {
      k, available := 0, 0;
      assert readers[..0] == [] && readers[0..] == readers;
      while k < |readers|
        invariant k <= |readers| && available == Wants(readers[..k])
        invariant k == 0 || available < bytes
        invariant k + WalkReaders(readers[k..], if available <= bytes then bytes - available else 0)
               == WalkReaders(readers, bytes)
      {
        WantsSnoc(readers, k);
        assert readers[k..][1..] == readers[k + 1..];
        available := available + readers[k].want;
        k := k + 1;
        if available >= bytes { return; }
      }
    }

    /** `pipe_waiter_list_populate` over waiting writers. */
    method PopulateWriters(bytes: nat) returns (k: nat, available: nat)
      ensures k == Walk(writers, bytes) && available == |Backlog(writers[..k])|
    {
      k, available := 0, 0;
      assert writers[..0] == [] && writers[0..] == writers;
      while k < |writers|
        invariant k <= |writers| && available == |Backlog(writers[..k])|
        invariant k == 0 || available < bytes
        invariant k + Walk(writers[k..], if available <= bytes then bytes - available else 0) == Walk(writers, bytes)
      {
        BacklogSnoc(writers, k);
        assert writers[k..][1..] == writers[k + 1..];
        available := available + |writers[k].data|;
        k := k + 1;
        if available >= bytes { return; }
      }
    }

    /** Copies into the ring at the write index. */
    method StoreBytes(data: seq<byte>)
      requires Valid() && bytesUsed + |data| <= buffer.Length && writeIndex + |data| <= buffer.Length
      requires buffer.Length > 0
      modifies this`bytesUsed, this`writeIndex, this`taken, buffer
      ensures Valid() && View() == Store(old(View()), data)
      ensures writeIndex == Wrap(buffer.Length, old(writeIndex) + |data|) && bytesUsed == old(bytesUsed) + |data|
    {
      hide RingOf;
      ghost var before := buffer[..];
      var w := writeIndex;
      forall j | 0 <= j < |data| { buffer[w + j] := data[j]; }
      assert buffer[..] == before[..w] + data + before[w + |data|..];
      RingAppend(before, buffer[..], readIndex, bytesUsed, data);
      bytesUsed := bytesUsed + |data|;
      writeIndex := writeIndex + |data|;
      if writeIndex >= buffer.Length { writeIndex := writeIndex - buffer.Length; }
      taken := taken + data;
    }

    /** Copies to the first waiting reader, which leaves the queue once it has enough. */
    method ServeReader(data: seq<byte>)
      requires Valid() && readers != [] && |data| <= readers[0].want
      modifies this`readers, this`taken, this`delivered
      ensures Valid() && View() == ServeFirst(old(View()), data)
    {
      var r := readers[0];
      r := r.(want := r.want - |data|, got := r.got + data);
      readers := (if r.want == 0 then [] else [r]) + readers[1..];
      taken, delivered := taken + data, delivered + data;
    }

    /** A destination list `pipe_write` may be given: waiting readers, then free ring space;
        readers left out of it are not needed for `bytes` bytes. */
    ghost predicate Accepts(d: seq<Dest>, m: nat, bytes: nat)
      reads this
    {
      && m <= |d| && m <= |readers|
      && (forall i | 0 <= i < m :: d[i].ToReader?)
      && (m < |readers| ==> Wants(readers[..m]) >= bytes)
      && bytesUsed <= buffer.Length
      && Frees(d[m..], buffer.Length, writeIndex, buffer.Length - bytesUsed)
    }

    /** A turn of `pipe_write`'s copy loop whose destination is a waiting reader. */
    method CopyToReader(data: seq<byte>, dest: seq<Dest>, ghost m: nat, ghost bytes: nat)
      returns (n: nat, d: seq<Dest>, ghost m': nat)
      requires Valid() && dest != [] && dest[0].ToReader? && |data| <= bytes && Accepts(dest, m, bytes)
      modifies this`readers, this`taken, this`delivered
      ensures n <= |data| && n <= Capacity(old(View()))
      ensures Valid() && View() == Pour(old(View()), data[..n])
      ensures Capacity(View()) == Capacity(old(View())) - n
      ensures Accepts(d, m', bytes - n)
      ensures |d| <= |dest| && (n < |data| ==> |d| < |dest|)
    {
      hide Pour, RingOf, Frees, Backlog, Wants, ServeFirst;
      if m == 0 { FreesRing(dest[m..], buffer.Length, writeIndex, buffer.Length - bytesUsed); }
      n := Min(readers[0].want, |data|);
      ghost var p := View();
      PourHead(p, data[..n]);
      var done := n == readers[0].want;
      ServeReader(data[..n]);
      ServedQueue(p, data[..n], m, bytes);
      d, m' := dest, m;
      if done {
        d, m' := dest[1..], m - 1;
        assert d[m'..] == dest[m..];
      }
    }

    /** A turn whose destination is free ring space. */
    method CopyToRing(data: seq<byte>, dest: seq<Dest>, ghost m: nat, ghost bytes: nat)
      returns (n: nat, d: seq<Dest>)
      requires Valid() && dest != [] && dest[0].ToRing? && |data| <= bytes && Accepts(dest, m, bytes)
      modifies this`bytesUsed, this`writeIndex, this`taken, buffer
      ensures n <= |data| && n <= Capacity(old(View()))
      ensures Valid() && View() == Pour(old(View()), data[..n])
      ensures Capacity(View()) == Capacity(old(View())) - n
      ensures Accepts(d, 0, bytes - n)
      ensures |d| <= |dest| && (n < |data| ==> |d| < |dest|)
    {
      hide RingOf, Backlog;
      assert m == 0 && dest[0..] == dest && readers[..0] == [];
      n := Min(dest[0].len, |data|);
      FreesAdvance(dest, buffer.Length, writeIndex, buffer.Length - bytesUsed, n);
      if n > 0 {
        assert readers == [];
        PourStore(View(), data[..n]);
        StoreBytes(data[..n]);
      } else {
        PourNothing(View());
      }
      d := dest[0 := ToRing(dest[0].start + n, dest[0].len - n)];
      if d[0].len == 0 { d := d[1..]; }
      assert d[0..] == d;
    }

    /** `pipe_write`: source descriptors are emptied in order into the destination list;
        a drained source is not taken off its wait queue here. */
    method PipeWrite(src: seq<Writer>, dest: seq<Dest>, ghost m: nat) returns (written: nat, left: seq<Writer>)
      requires Valid() && Accepts(dest, m, |Backlog(src)|)
      modifies this`readers, this`bytesUsed, this`writeIndex, this`taken, this`delivered, buffer
      ensures Valid() && View() == Pour(old(View()), Backlog(src))
      ensures written == Min(|Backlog(src)|, Capacity(old(View())))
      ensures left == Drain(src, written)
    {
      hide Pour, RingOf, Frees, Drain, Wants, Backlog, Capacity;
      var s, d, drained := src, dest, [];
      ghost var k: nat := m;
      written := 0;
      DrainNothing(src);
      while s != [] && d != []
        invariant Valid() && Accepts(d, k, |Backlog(s)|)
        invariant Pour(View(), Backlog(s)) == Pour(old(View()), Backlog(src))
        invariant written + |Backlog(s)| == |Backlog(src)| && written + Capacity(View()) == Capacity(old(View()))
        invariant drained + s == Drain(src, written)
        invariant forall i | 0 <= i < |drained| :: drained[i].data == []
        decreases |s| + |d|
      {
        ghost var p, b := View(), Backlog(s);
        var n;
        assert |s[0].data| <= |b| by { BacklogHead(s); }
        if d[0].ToReader? {
          n, d, k := CopyToReader(s[0].data, d, k, |b|);
        } else {
          n, d := CopyToRing(s[0].data, d, k, |b|);
          k := 0;
        }
        TurnPour(p, s, n);
        TurnDrain(src, written, drained, s, n);
        written := written + n;
        s := s[0 := s[0].(data := s[0].data[n..])];
        if s[0].data == [] {
          drained, s := drained + [s[0]], s[1..];
        }
      }
      left := drained + s;
      CopyStops(View(), s, d, k, writeIndex);
    }

    /** `z_impl_k_pipe_put` up to the point where a blocked caller sleeps. */
    method Put(thread: nat, prio: int, data: seq<byte>, minXfer: nat, noWait: bool) returns (res: Result)
      requires Valid()
      modifies this, buffer
      ensures Valid() && (View(), res) == DoPut(old(View()), thread, prio, data, minXfer, noWait)
      ensures Answers(res, |data|, Wants(old(readers)) + buffer.Length - old(bytesUsed), minXfer, noWait)
    {
      hide Pour, RingOf, Frees, Drain, Wants, Backlog, Answers, Capacity, PendWriter;
      PutAnswers(View(), thread, prio, data, minXfer, noWait);
      if minXfer > |data| { return EINVAL; }
      var k, can := PopulateReaders(|data|);
      var dest := seq(k, _ => ToReader);
      if bytesUsed != buffer.Length {
        dest := dest + FreeList(buffer.Length, writeIndex, readIndex);
        can := can + buffer.Length - bytesUsed;
      }
      PutLists(View(), data, minXfer, k, dest, writeIndex, readIndex);
      if can < minXfer && noWait { return EIO; }
      var src := Writer(thread, prio, data, |data|, minXfer);
      BacklogOne(src);
      var written, left := PipeWrite([src], dest, k);
      if written == |data| || noWait || (written >= minXfer && minXfer > 0) {
        return Ok(written);
      }
      assert [src] + [] == [src];
      DrainCons(src, [], written);
      DrainEmpty(0);
      writers := PendWriter(writers, left[0]);
      res := Blocked;
    }

    /** Copies `n` contiguous bytes out of the ring. */
    method TakeSpan(start: nat, n: nat) returns (out: seq<byte>)
      requires Valid() && 0 < n <= bytesUsed && start == readIndex && start + n <= buffer.Length
      modifies this`bytesUsed, this`readIndex
      ensures Valid() && out == old(View()).ring[..n] && View() == old(View()).(ring := old(View()).ring[n..])
      ensures bytesUsed == old(bytesUsed) - n && readIndex == Wrap(buffer.Length, old(readIndex) + n)
    {
      hide RingOf;
      RingDrop(buffer[..], readIndex, bytesUsed, n);
      out := buffer[start..start + n];
      assert out == buffer[..][readIndex..readIndex + n];
      bytesUsed := bytesUsed - n;
      readIndex := readIndex + n;
      if readIndex >= buffer.Length { readIndex := readIndex - buffer.Length; }
    }

    /** At most `limit` bytes of a stretch at the read index. */
    method TakeUpTo(span: Span, limit: nat) returns (out: seq<byte>)
      requires Valid() && span.start == readIndex && span.len <= bytesUsed && span.start + span.len <= buffer.Length
      modifies this`bytesUsed, this`readIndex
      ensures Valid() && |out| == Min(limit, span.len) && bytesUsed == old(bytesUsed) - |out|
      ensures old(RingOf(buffer[..], readIndex, bytesUsed)) == out + RingOf(buffer[..], readIndex, bytesUsed)
      ensures |out| == span.len ==> readIndex == Wrap(buffer.Length, old(readIndex) + span.len)
    {
      hide RingOf;
      var n := Min(limit, span.len);
      out := [];
      if n > 0 {
        ghost var ring := View().ring;
        out := TakeSpan(span.start, n);
        assert ring == ring[..n] + ring[n..];
      }
    }

    /** Up to two stretches leave the ring, advancing the read index. */
    method TakeSpans(bytes: nat) returns (out: seq<byte>)
      requires Valid()
      modifies this`bytesUsed, this`readIndex
      ensures Valid()
      ensures var ring := old(RingOf(buffer[..], readIndex, bytesUsed)); var r := Min(bytes, |ring|);
        out == ring[..r] && RingOf(buffer[..], readIndex, bytesUsed) == ring[r..]
    {
      hide Covers, RingOf, UsedList, Wrap;
      out := [];
      var spans := if bytesUsed != 0 then UsedList(buffer.Length, readIndex, writeIndex) else [];
      UsedCovers(buffer.Length, readIndex, writeIndex, bytesUsed);
      ghost var ring := RingOf(buffer[..], readIndex, bytesUsed);
      var i := 0;
      while i < |spans|
        invariant i <= |spans| && Valid() && |out| <= bytes
        invariant ring == out + RingOf(buffer[..], readIndex, bytesUsed)
        invariant |out| == bytes || Covers(spans[i..], buffer.Length, readIndex, bytesUsed)
      {
        if |out| < bytes {
          CoversNext(spans[i..], buffer.Length, readIndex, bytesUsed);
          assert spans[i..][1..] == spans[i + 1..];
          var chunk := TakeUpTo(spans[i], bytes - |out|);
          Joined(out, chunk, RingOf(buffer[..], readIndex, bytesUsed));
          out := out + chunk;
        }
        i := i + 1;
      }
      if |out| < bytes { CoversNext(spans[i..], buffer.Length, readIndex, bytesUsed); }
      Front(ring, out, RingOf(buffer[..], readIndex, bytesUsed), bytes);
    }

    /** The ring part of the copy to a reader. */
    method TakeRing(bytes: nat) returns (out: seq<byte>)
      requires Valid()
      modifies this`bytesUsed, this`readIndex, this`delivered
      ensures Valid()
      ensures var p := old(View()); var r := Min(bytes, |p.ring|);
        out == p.ring[..r] && View() == p.(ring := p.ring[r..], delivered := p.delivered + p.ring[..r])
    {
      hide RingOf;
      out := TakeSpans(bytes);
      delivered := delivered + out;
    }

    /** The writer part of the copy: the first `k` writers are emptied in order, and those
        left with nothing leave the queue. */
    method TakeWriters(k: nat, want: nat) returns (out: seq<byte>)
      requires Valid() && k <= |writers|
      modifies this`writers, this`taken, this`delivered
      ensures Valid()
      ensures out == Backlog(old(writers)[..k])[..Min(want, |Backlog(old(writers)[..k])|)]
      ensures View() == old(View()).(writers := Sweep(old(writers), k, |out|),
                                     taken := old(taken) + out, delivered := old(delivered) + out)
    {
      hide RingOf, Backlog, Sweep;
      out := [];
      var i, pos := 0, 0;
      ghost var ws := writers;
      BacklogStart(ws);
      while i < k
        invariant i <= k && pos <= |writers| && writers[pos..] == ws[i..]
        invariant out == Backlog(ws[..i])[..Min(want, |Backlog(ws[..i])|)]
        invariant writers[..pos] == Sweep(ws[..i], i, |out|)
        invariant taken == old(taken) && delivered == old(delivered)
      {
        var n := Min(want - |out|, |writers[pos].data|);
        assert writers[pos] == writers[pos..][0] == ws[i];
        BacklogSnoc(ws, i);
        SweepSnoc(ws[..i], ws[i], |out|, n);
        assert ws[..i + 1] == ws[..i] + [ws[i]];
        out := out + writers[pos].data[..n];
        var w := writers[pos].(data := writers[pos].data[n..]);
        if w.data == [] {
          writers := writers[..pos] + writers[pos + 1..];
        } else {
          writers := writers[pos := w];
          pos := pos + 1;
        }
        i := i + 1;
      }
      SweepPrefix(ws, k, |out|);
      assert writers == writers[..pos] + writers[pos..];
      taken, delivered := taken + out, delivered + out;
    }

    /** The third step of a get: waiting writers refill the ring. */
    method RefillRing()
      requires Valid() && (readers != [] ==> Backlog(writers) == [])
      modifies this`readers, this`writers, this`bytesUsed, this`writeIndex, this`taken, this`delivered, buffer
      ensures Valid() && View() == Refill(old(View()))
    {
      hide RingOf, Backlog, Pour, Drain, Frees, FreeList, Walk;
      ghost var p := View();
      RefillLists(p, writeIndex, readIndex);
      if bytesUsed != buffer.Length {
        var k, _ := PopulateWriters(buffer.Length - bytesUsed);
        var dest := FreeList(buffer.Length, writeIndex, readIndex);
        assert dest[0..] == dest && readers[..0] == [];
        var written, left := PipeWrite(writers[..k], dest, 0);
        writers := left + writers[k..];
        RefillWrites(p, k, written);
      } else {
        RefillNone(p);
      }
    }

    /** The copy to the caller: ring first, then the walked writers. */
    method CopyOut(bytes: nat, k: nat) returns (out: seq<byte>)
      requires Valid() && k == Walk(writers, bytes)
      modifies this`writers, this`bytesUsed, this`readIndex, this`taken, this`delivered
      ensures Valid() && out == Head(old(View()), bytes)
      ensures View() == TakeOut(old(View()), bytes)
    {
      hide RingOf, Backlog, Sweep, Walk;
      ghost var p := View();
      var fromRing := TakeRing(bytes);
      var direct := TakeWriters(k, bytes - |fromRing|);
      TakenOut(p, bytes, k, fromRing, direct);
      out := fromRing + direct;
    }

    /** `pipe_get_internal` up to the point where a blocked caller sleeps. */
    method Get(thread: nat, prio: int, bytes: nat, minXfer: nat, noWait: bool) returns (res: Result, out: seq<byte>)
      requires Valid() && Inv(View())
      modifies this, buffer
      ensures Valid() && (View(), res, out) == DoGet(old(View()), thread, prio, bytes, minXfer, noWait)
      ensures Answers(res, bytes, old(bytesUsed) + |Backlog(old(writers))|, minXfer, noWait)
    {
      hide RingOf, Backlog, Pour, Drain, Sweep, Walk, Inv, TakeOut, Refill, Stream, Answers;
      GetAnswers(View(), thread, prio, bytes, minXfer, noWait);
      out := [];
      if minXfer > bytes { return EINVAL, out; }
      var k, can := PopulateWriters(bytes);
      GetLists(View(), bytes, minXfer, k);
      if bytesUsed + can < minXfer && noWait { return EIO, out; }
      TakeOutQuiet(View(), bytes);
      out := CopyOut(bytes, k);
      RefillRing();
      if |out| == bytes || noWait || (|out| >= minXfer && minXfer > 0) {
        return Ok(|out|), out;
      }
      readers := PendReader(readers, Reader(thread, prio, bytes - |out|, out, bytes, minXfer));
      res, out := Blocked, [];
    }

    /** The timeout of a waiting thread, and what its call then returns. */
    method WaiterExpires(thread: nat) returns (res: Option<Result>)
      requires Valid()
      modifies this`readers, this`writers
      ensures Valid() && View() == Apply(old(View()), Expire(thread)) && res == CodeNow(old(View()), thread)
    {
      ExpireKeepsQueues(writers, readers, thread);
      var r, w := FindReader(readers, thread), FindWriter(writers, thread);
      res := None;
      if r.Some? && r.value.want <= r.value.asked {
        res := Some(CallerCode(r.value.asked, r.value.want, r.value.min));
      } else if r.None? && w.Some? && |w.value.data| <= w.value.asked {
        res := Some(CallerCode(w.value.asked, |w.value.data|, w.value.min));
      }
      readers := RemoveReader(readers, thread);
      writers := RemoveWriter(writers, thread);
    }

    /** `z_impl_k_pipe_read_avail` */
    method ReadAvail() returns (n: nat)
      requires Valid()
      ensures n == |View().ring|
    {
      if buffer.Length == 0 { return 0; }
      if readIndex == writeIndex {
        n := bytesUsed;
      } else if readIndex < writeIndex {
        n := writeIndex - readIndex;
      } else {
        n := buffer.Length - (readIndex - writeIndex);
      }
    }

    /** `z_impl_k_pipe_write_avail` */
    method WriteAvail() returns (n: nat)
      requires Valid()
      ensures n == View().size - |View().ring|
    {
      if buffer.Length == 0 { return 0; }
      if writeIndex == readIndex {
        n := buffer.Length - bytesUsed;
      } else if writeIndex < readIndex {
        n := readIndex - writeIndex;
      } else {
        n := buffer.Length - (writeIndex - readIndex);
      }
    }

    /** Any sequence of calls leaves the pipe in the state the specification runs to. */
    method RunAll(ops: seq<Op>)
      requires Valid() && Inv(View())
      modifies this, buffer
      ensures Valid() && Inv(View()) && View() == Run(old(View()), ops)
    {
      hide Inv, Apply, DoPut, DoGet;
      var i := 0;
      while i < |ops|
        invariant i <= |ops| && Valid() && Inv(View()) && Run(View(), ops[i..]) == Run(old(View()), ops)
      {
        OpKeepsInv(View(), ops[i]);
        assert ops[i..][1..] == ops[i + 1..];
        Call(ops[i]);
        i := i + 1;
      }
    }

    method Call(op: Op)
      requires Valid() && Inv(View())
      modifies this, buffer
      ensures Valid() && View() == Apply(old(View()), op)
    {
      hide Inv, DoPut, DoGet;
      match op
      case Put(thread, prio, data, minXfer, noWait) => var _ := Put(thread, prio, data, minXfer, noWait);
      case Get(thread, prio, bytes, minXfer, noWait) => var _, _ := Get(thread, prio, bytes, minXfer, noWait);
      case Expire(thread) => var _ := WaiterExpires(thread);
    }
  }

  lemma {:induction false} WantsSnoc(rs: seq<Reader>, k: nat)
    requires k < |rs|
    ensures Wants(rs[..k + 1]) == Wants(rs[..k]) + rs[k].want
  {
    if k == 0 {
      assert rs[..1][1..] == [];
    } else {
      WantsSnoc(rs[1..], k - 1);
      assert rs[..k + 1][1..] == rs[1..][..k] && rs[..k][1..] == rs[1..][..k - 1];
    }
  }

  /** After a reader was served, the readers of the list still cover the bytes that are left. */
  lemma ServedQueue(p: Pipe, data: seq<byte>, m: nat, bytes: nat)
    requires 0 < m <= |p.readers| && |data| <= p.readers[0].want && |data| <= bytes
    requires m < |p.readers| ==> Wants(p.readers[..m]) >= bytes
    ensures var q := ServeFirst(p, data); var m' := if |data| == p.readers[0].want then m - 1 else m;
            && m' <= |q.readers| && |data| <= Wants(p.readers[..m])
            && (m' < |q.readers| ==> Wants(q.readers[..m']) >= bytes - |data|)
  {
    WantsTake(p.readers, m, |data|);
    var q := ServeFirst(p, data);
    if |data| == p.readers[0].want {
      assert q.readers == p.readers[1..];
    } else {
      assert q.readers == [q.readers[0]] + p.readers[1..];
    }
  }

  lemma BacklogHead(ws: seq<Writer>)
    requires ws != []
    ensures |ws[0].data| <= |Backlog(ws)|
  {
  }

  lemma BacklogSnoc(ws: seq<Writer>, k: nat)
    requires k < |ws|
    ensures Backlog(ws[..k + 1]) == Backlog(ws[..k]) + ws[k].data
  {
    BacklogConcat(ws[..k], [ws[k]]);
    assert ws[..k + 1] == ws[..k] + [ws[k]];
    assert Backlog([ws[k]]) == ws[k].data + Backlog([ws[k]][1..]);
  }

  lemma PourHead(p: Pipe, data: seq<byte>)
    requires p.readers != [] && |data| <= p.readers[0].want && |p.ring| <= p.size
    requires forall i | 0 <= i < |p.readers| :: p.readers[i].want > 0
    ensures Pour(p, data) == ServeFirst(p, data)
    ensures Capacity(ServeFirst(p, data)) == Capacity(p) - |data|
  {
    var q := ServeFirst(p, data);
    if |data| == p.readers[0].want {
      assert data[..|data|] == data && data[|data|..] == [];
      assert q.readers == p.readers[1..];
      PourNothing(q);
    } else {
      assert q.readers[1..] == p.readers[1..];
    }
  }

  /** Serving the first reader keeps the walked readers large enough for what is left. */
  lemma WantsTake(rs: seq<Reader>, m: nat, n: nat)
    requires 0 < m <= |rs| && n <= rs[0].want
    ensures n < rs[0].want ==>
            forall r: Reader | r.want == rs[0].want - n :: Wants(([r] + rs[1..])[..m]) == Wants(rs[..m]) - n
    ensures n == rs[0].want ==> Wants(rs[1..][..m - 1]) == Wants(rs[..m]) - n
  {
    assert rs[..m][1..] == rs[1..][..m - 1];
    forall r: Reader | r.want == rs[0].want - n
      ensures Wants(([r] + rs[1..])[..m]) == Wants(rs[..m]) - n
    {
      assert ([r] + rs[1..])[..m][1..] == rs[1..][..m - 1];
    }
  }

  lemma PourStore(p: Pipe, data: seq<byte>)
    requires p.readers == [] && |p.ring| + |data| <= p.size
    ensures Pour(p, data) == Store(p, data)
  {
    assert data[..|data|] == data;
  }

  lemma FreesRing(d: seq<Dest>, size: nat, w: nat, room: nat)
    requires d != [] && Frees(d, size, w, room)
    ensures d[0].ToRing?
  {
  }

  /** The list still covers the free space after its head has taken `n` bytes. */
  lemma FreesAdvance(d: seq<Dest>, size: nat, w: nat, room: nat, n: nat)
    requires d != [] && Frees(d, size, w, room) && n <= d[0].len && (n > 0 ==> w < size)
    ensures d[0].ToRing? && d[0].start == w && d[0].len <= room && w + d[0].len <= size
    ensures n == d[0].len ==> Frees(d[1..], size, Wrap(size, w + n), room - n)
    ensures n < d[0].len ==>
      Wrap(size, w + n) == w + n && Frees(d[0 := ToRing(w + n, d[0].len - n)], size, w + n, room - n)
  {
    var d' := d[0 := ToRing(w + n, d[0].len - n)];
    assert d'[1..] == d[1..];
  }

  function Advance(s: seq<Writer>, n: nat): seq<Writer>
    requires s != [] && n <= |s[0].data|
  {
    var s' := s[0 := s[0].(data := s[0].data[n..])];
    if s'[0].data == [] then s'[1..] else s'
  }

  lemma TurnPour(p: Pipe, s: seq<Writer>, n: nat)
    requires |p.ring| <= p.size && s != [] && n <= |s[0].data| && n <= Capacity(p)
    ensures Backlog(Advance(s, n)) == Backlog(s)[n..]
    ensures Pour(Pour(p, s[0].data[..n]), Backlog(Advance(s, n))) == Pour(p, Backlog(s))
  {
    hide Pour, Backlog;
    AdvanceBacklog(s, n);
    PourSplit(p, s[0].data[..n], Backlog(s)[n..]);
  }

  lemma AdvanceBacklog(s: seq<Writer>, n: nat)
    requires s != [] && n <= |s[0].data|
    ensures n <= |Backlog(s)| && Backlog(Advance(s, n)) == Backlog(s)[n..]
    ensures s[0].data[..n] + Backlog(s)[n..] == Backlog(s)
  {
    var s' := s[0 := s[0].(data := s[0].data[n..])];
    assert s'[1..] == s[1..];
    assert s[0].data == s[0].data[..n] + s[0].data[n..];
    BacklogPieces(s[0].data, Backlog(s[1..]), n);
    assert s'[0].data == [] ==> s'[0].data + Backlog(s[1..]) == Backlog(s[1..]);
  }

  lemma BacklogPieces(a: seq<byte>, b: seq<byte>, n: nat)
    requires n <= |a|
    ensures (a + b)[n..] == a[n..] + b && a[..n] + (a[n..] + b) == a + b
  {
  }

  lemma {:induction false} DrainNothing(s: seq<Writer>)
    ensures Drain(s, 0) == s
  {
    if s != [] { DrainNothing(s[1..]); }
  }

  lemma DrainCons(w: Writer, rest: seq<Writer>, n: nat)
    ensures var t := Min(n, |w.data|);
      Drain([w] + rest, n) == [w.(data := w.data[t..])] + Drain(rest, n - t)
  {
    assert ([w] + rest)[1..] == rest;
  }

  lemma DrainEmpty(n: nat)
    ensures Drain([], n) == []
  {
  }

  lemma {:induction false} DrainTwice(ws: seq<Writer>, a: nat, b: nat)
    ensures Drain(Drain(ws, a), b) == Drain(ws, a + b)
  {
    hide Drain;
    if ws == [] {
      DrainEmpty(a);
      DrainEmpty(b);
      DrainEmpty(a + b);
    } else {
      var w, rest := ws[0], ws[1..];
      assert ws == [w] + rest;
      var t := Min(a, |w.data|);
      var w1 := w.(data := w.data[t..]);
      var u := Min(b, |w1.data|);
      DrainCons(w, rest, a);
      DrainCons(w1, Drain(rest, a - t), b);
      DrainCons(w, rest, a + b);
      DrainTwice(rest, a - t, b - u);
      assert w.data[t..][u..] == w.data[t + u..];
    }
  }

  lemma {:induction false} DrainSkip(drained: seq<Writer>, s: seq<Writer>, n: nat)
    requires forall i | 0 <= i < |drained| :: drained[i].data == []
    ensures Drain(drained + s, n) == drained + Drain(s, n)
  {
    if drained == [] {
      assert drained + s == s;
    } else {
      assert (drained + s)[1..] == drained[1..] + s;
      DrainSkip(drained[1..], s, n);
      assert drained[0].(data := drained[0].data[0..]) == drained[0];
    }
  }

  lemma TurnDrain(src: seq<Writer>, done: nat, drained: seq<Writer>, s: seq<Writer>, n: nat)
    requires s != [] && n <= |s[0].data| && drained + s == Drain(src, done)
    requires forall i | 0 <= i < |drained| :: drained[i].data == []
    ensures drained + s[0 := s[0].(data := s[0].data[n..])] == Drain(src, done + n)
  {
    hide Drain;
    DrainTwice(src, done, n);
    DrainSkip(drained, s, n);
    DrainNothing(s[1..]);
    assert s == [s[0]] + s[1..];
    DrainCons(s[0], s[1..], n);
  }

  /** When the copy loop ends, nothing more can be written. */
  lemma CopyStops(p: Pipe, s: seq<Writer>, d: seq<Dest>, k: nat, w: nat)
    requires |p.ring| <= p.size && (forall i | 0 <= i < |p.readers| :: p.readers[i].want > 0)
    requires s == [] || d == []
    requires k <= |d| && k <= |p.readers| && (k < |p.readers| ==> Wants(p.readers[..k]) >= |Backlog(s)|)
    requires Frees(d[k..], p.size, w, Room(p))
    ensures Pour(p, Backlog(s)) == p && (|Backlog(s)| == 0 || Capacity(p) == 0)
  {
    if s != [] && p.readers == [] {
      PourFull(p, Backlog(s));
    } else {
      assert k < |p.readers| && d == [] ==> p.readers[..k] == [];
      PourNothing(p);
    }
  }

  lemma BacklogOne(w: Writer)
    ensures Backlog([w]) == w.data
  {
    assert Backlog([w]) == w.data + Backlog([w][1..]);
  }

  /** The lists a put builds suffice for its data, and their size decides the refusal. */
  lemma PutLists(p: Pipe, data: seq<byte>, minXfer: nat, k: nat, dest: seq<Dest>, w: nat, r: nat)
    requires |p.ring| <= p.size && minXfer <= |data| && k == WalkReaders(p.readers, |data|)
    requires if p.size == 0 then r == w == 0 else r < p.size && w == Wrap(p.size, r + |p.ring|)
    requires w <= p.size
    requires dest == seq(k, _ => ToReader) + (if |p.ring| != p.size then FreeList(p.size, w, r) else [])
    ensures k <= |dest| && forall i | 0 <= i < k :: dest[i].ToReader?
    ensures k < |p.readers| ==> Wants(p.readers[..k]) >= |data|
    ensures Frees(dest[k..], p.size, w, Room(p))
    ensures Wants(p.readers[..k]) + Room(p) < minXfer <==> Capacity(p) < minXfer
  {
    WalkReadersEnough(p.readers, |data|);
    assert dest[k..] == if |p.ring| != p.size then FreeList(p.size, w, r) else [];
    if |p.ring| != p.size { FreeFrees(p.size, r, |p.ring|); }
    if k == |p.readers| { assert p.readers[..k] == p.readers; } else { WantsPrefix(p.readers, k); }
  }

  lemma {:induction false} WantsPrefix(rs: seq<Reader>, k: nat)
    requires k <= |rs|
    ensures Wants(rs[..k]) <= Wants(rs)
  {
    if k > 0 {
      WantsPrefix(rs[1..], k - 1);
      assert rs[..k][1..] == rs[1..][..k - 1];
    }
  }

  lemma BacklogStart(ws: seq<Writer>)
    ensures Backlog(ws[..0]) == [] && Sweep(ws[..0], 0, 0) == []
  {
  }

  lemma SweepCons(w: Writer, rest: seq<Writer>, k: nat, n: nat)
    requires k > 0
    ensures var t := Min(n, |w.data|); var w' := w.(data := w.data[t..]);
      Sweep([w] + rest, k, n) == (if w'.data == [] then [] else [w']) + Sweep(rest, k - 1, n - t)
    ensures Backlog([w] + rest) == w.data + Backlog(rest)
  {
    assert ([w] + rest)[1..] == rest;
  }

  /** Sweeping one writer more. */
  lemma {:induction false} SweepSnoc(ws: seq<Writer>, w: Writer, m: nat, n: nat)
    requires m <= |Backlog(ws)| && n <= |w.data| && (n > 0 ==> m == |Backlog(ws)|)
    ensures Sweep(ws + [w], |ws| + 1, m + n)
         == Sweep(ws, |ws|, m) + if w.data[n..] == [] then [] else [w.(data := w.data[n..])]
  {
    hide Sweep, Backlog;
    var last := if w.data[n..] == [] then [] else [w.(data := w.data[n..])];
    if ws == [] {
      BacklogStart(ws);
      assert ws[..0] == ws && ws + [w] == [w] + ws;
      SweepCons(w, ws, 1, m + n);
      assert Sweep(ws, 0, 0) == [];
    } else {
      var v, rest := ws[0], ws[1..];
      var t := Min(m, |v.data|);
      assert ws == [v] + rest && ws + [w] == [v] + (rest + [w]);
      SweepCons(v, rest, |ws|, m);
      SweepCons(v, rest + [w], |ws| + 1, m + n);
      SweepSnoc(rest, w, m - t, n);
      var first := if v.data[t..] == [] then [] else [v.(data := v.data[t..])];
      assert first + (Sweep(rest, |rest|, m - t) + last) == first + Sweep(rest, |rest|, m - t) + last;
    }
  }

  /** Writers beyond the walked ones are untouched. */
  lemma {:induction false} SweepPrefix(ws: seq<Writer>, k: nat, n: nat)
    requires k <= |ws|
    ensures Sweep(ws, k, n) == Sweep(ws[..k], k, n) + ws[k..]
  {
    hide Sweep;
    if k == 0 {
      SweepNone(ws, n);
      SweepNone(ws[..0], n);
    } else {
      var v, rest := ws[0], ws[1..];
      var t := Min(n, |v.data|);
      assert ws == [v] + rest && ws[..k] == [v] + rest[..k - 1] && ws[k..] == rest[k - 1..];
      SweepCons(v, rest, k, n);
      SweepCons(v, rest[..k - 1], k, n);
      SweepPrefix(rest, k - 1, n - t);
      WritersJoined(if v.data[t..] == [] then [] else [v.(data := v.data[t..])],
                    Sweep(rest[..k - 1], k - 1, n - t), rest[k - 1..]);
    }
  }

  lemma WritersJoined(a: seq<Writer>, b: seq<Writer>, c: seq<Writer>)
    ensures a + (b + c) == a + b + c
  {
  }

  lemma SweepNone(ws: seq<Writer>, n: nat)
    ensures Sweep(ws, 0, n) == ws
  {
  }

  lemma RefillNone(p: Pipe)
    requires |p.ring| == p.size
    ensures Refill(p) == p
  {
    DrainNothing(p.writers);
    assert p.ring + [] == p.ring && p.taken + [] == p.taken;
  }

  /** The lists a refill builds are acceptable to `pipe_write`. */
  lemma RefillLists(p: Pipe, w: nat, r: nat)
    requires |p.ring| <= p.size && (p.readers != [] ==> Backlog(p.writers) == [])
    requires if p.size == 0 then r == w == 0 else r < p.size && w == Wrap(p.size, r + |p.ring|)
    ensures |p.ring| != p.size ==> w <= p.size && Frees(FreeList(p.size, w, r), p.size, w, Room(p))
    ensures p.readers != [] ==> Backlog(p.writers[..Walk(p.writers, Room(p))]) == []
    ensures Wants([]) == 0
  {
    if |p.ring| != p.size { FreeFrees(p.size, r, |p.ring|); }
    var k := Walk(p.writers, Room(p));
    BacklogConcat(p.writers[..k], p.writers[k..]);
    assert p.writers == p.writers[..k] + p.writers[k..];
  }

  /** What the walked writers give is what all writers could give. */
  lemma RefillWrites(p: Pipe, k: nat, written: nat)
    requires |p.ring| <= p.size && (p.readers != [] ==> Backlog(p.writers) == [])
    requires forall i | 0 <= i < |p.readers| :: p.readers[i].want > 0
    requires k == Walk(p.writers, Room(p)) && written == Min(|Backlog(p.writers[..k])|, Capacity(p))
    ensures Pour(p, Backlog(p.writers[..k])).(writers := Drain(p.writers[..k], written) + p.writers[k..]) == Refill(p)
  {
    var b := Backlog(p.writers);
    var n := Min(Room(p), |b|);
    var front := p.writers[..k];
    BacklogConcat(front, p.writers[k..]);
    assert p.writers == front + p.writers[k..];
    WalkEnough(p.writers, Room(p));
    assert p.writers[k..] == [] ==> Backlog(front) == b;
    if p.readers == [] {
      assert written == n && Backlog(front)[..n] == b[..n];
    } else {
      PourNothing(p);
      assert p.ring + b[..0] == p.ring && p.taken + b[..0] == p.taken;
    }
    DrainSplit(front, p.writers[k..], n);
  }

  lemma {:induction false} DrainSplit(a: seq<Writer>, b: seq<Writer>, n: nat)
    requires n <= |Backlog(a)|
    ensures Drain(a + b, n) == Drain(a, n) + b
  {
    hide Drain, Backlog;
    if a == [] {
      assert a + b == b && a[..0] == a;
      BacklogStart(a);
      DrainNothing(b);
      DrainEmpty(n);
    } else {
      var w, rest := a[0], a[1..];
      assert a == [w] + rest && a + b == [w] + (rest + b);
      SweepCons(w, rest, 1, 0);
      DrainCons(w, rest, n);
      DrainCons(w, rest + b, n);
      DrainSplit(rest, b, n - Min(n, |w.data|));
    }
  }

  lemma GetLists(p: Pipe, bytes: nat, minXfer: nat, k: nat)
    requires minXfer <= bytes && k == Walk(p.writers, bytes)
    ensures |p.ring| + |Backlog(p.writers[..k])| < minXfer <==> |Stream(p)| < minXfer
  {
    WalkEnough(p.writers, bytes);
    BacklogConcat(p.writers[..k], p.writers[k..]);
    assert p.writers == p.writers[..k] + p.writers[k..];
    assert p.writers[k..] == [] ==> p.writers[..k] == p.writers;
  }

  lemma TakeOutQuiet(p: Pipe, bytes: nat)
    requires Inv(p)
    ensures TakeOut(p, bytes).readers != [] ==> Backlog(TakeOut(p, bytes).writers) == []
  {
    SweepStream(p, bytes);
  }

  /** Together, the two parts of the copy are the head of the stream. */
  lemma TakenOut(p: Pipe, bytes: nat, k: nat, fromRing: seq<byte>, direct: seq<byte>)
    requires k == Walk(p.writers, bytes) && fromRing == p.ring[..Min(bytes, |p.ring|)]
    requires var b := Backlog(p.writers[..k]); direct == b[..Min(bytes - |fromRing|, |b|)]
    ensures var n := Min(bytes, |Stream(p)|);
      && fromRing + direct == Stream(p)[..n]
      && |fromRing| == Min(n, |p.ring|) && |direct| == n - |fromRing|
      && direct == Backlog(p.writers)[..Min(n - |fromRing|, |Backlog(p.writers)|)]
  {
    hide Backlog, Walk;
    WalkEnough(p.writers, bytes);
    BacklogConcat(p.writers[..k], p.writers[k..]);
    assert p.writers == p.writers[..k] + p.writers[k..];
    assert k == |p.writers| ==> p.writers[..k] == p.writers;
    SplitAt(p.ring, Backlog(p.writers), Min(bytes, |Stream(p)|));
  }
}
