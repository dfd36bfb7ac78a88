/**
  The message queue over its byte buffer: messages of equal size in a ring, with a read
  and a write position in bytes that wrap at the end of the buffer.
 */
module MsgQueues {
  import opened Common
  import opened MsgqSpec

  /** The message in slot `k` of a buffer. */
  ghost function Slot(buf: seq<byte>, size: nat, k: nat): (m: Msg)
    requires (k + 1) * size <= |buf|
  {
    SlotBounds(k, size);
    buf[k * size..(k + 1) * size]
  }

  lemma SlotBounds(k: nat, size: nat)
    ensures 0 <= k * size && k * size + size == (k + 1) * size
  {
  }

  lemma SlotOrder(j: nat, k: nat, size: nat)
    requires j < k
    ensures (j + 1) * size <= k * size
  {
    assert (k - j - 1) * size >= 0;
    assert (k - j - 1) * size == k * size - (j + 1) * size;
  }

  /** The slots of the ring in order from the read position. */
  function At(rs: nat, i: nat, max: nat): (k: nat)
    requires rs < max && i <= max
    ensures k < max
  {
    if rs + i < max then rs + i else rs + i - max
  }

  ghost predicate Holds(buf: seq<byte>, size: nat, max: nat, rs: nat, ring: seq<Msg>) {
    && max > 0 && rs < max && |ring| <= max && |buf| == max * size
    && forall i | 0 <= i < |ring| :: SlotIs(buf, size, max, At(rs, i, max), ring[i])
  }

  ghost predicate SlotIs(buf: seq<byte>, size: nat, max: nat, k: nat, m: Msg) {
    |buf| == max * size && k < max && (k + 1) * size <= |buf| && Slot(buf, size, k) == m
  }

  lemma SlotFits(k: nat, max: nat, size: nat)
    requires k < max
    ensures (k + 1) * size <= max * size
  {
    assert (max - k - 1) * size >= 0;
    assert (max - k - 1) * size == max * size - (k + 1) * size;
  }

  /** Writing one slot leaves every other slot alone. */
  lemma OtherSlot(a: seq<byte>, b: seq<byte>, size: nat, max: nat, w: nat, k: nat, m: Msg)
    requires SlotIs(a, size, max, k, m) && w < max && w != k && |b| == |a|
    requires forall i | 0 <= i < |a| && !(w * size <= i < (w + 1) * size) :: b[i] == a[i]
    ensures SlotIs(b, size, max, k, m)
  {
    SlotBounds(k, size);
    if w < k { SlotOrder(w, k, size); } else { SlotOrder(k, w, size); }
    assert Slot(b, size, k) == Slot(a, size, k);
  }

  lemma AtDistinct(rs: nat, i: nat, j: nat, max: nat)
    requires max > 0 && rs < max && i < j < max
    ensures At(rs, i, max) != At(rs, j, max)
  {
  }

  lemma AtNext(rs: nat, i: nat, max: nat)
    requires rs < max && i < max
    ensures At(At(rs, 1, max), i, max) == At(rs, i + 1, max)
  {
  }

  /** Appending a message in the slot after the last. */
  lemma HoldsMore(a: seq<byte>, b: seq<byte>, size: nat, max: nat, rs: nat, ring: seq<Msg>, m: Msg)
    requires Holds(a, size, max, rs, ring) && |ring| < max && |b| == |a|
    requires forall i | 0 <= i < |a| && !(At(rs, |ring|, max) * size <= i < (At(rs, |ring|, max) + 1) * size) ::
             b[i] == a[i]
    requires SlotIs(b, size, max, At(rs, |ring|, max), m)
    ensures Holds(b, size, max, rs, ring + [m])
  {
    hide At;
    forall i | 0 <= i < |ring| ensures SlotIs(b, size, max, At(rs, i, max), ring[i]) {
      AtDistinct(rs, i, |ring|, max);
      OtherSlot(a, b, size, max, At(rs, |ring|, max), At(rs, i, max), ring[i]);
    }
  }

  lemma HoldsLess(a: seq<byte>, size: nat, max: nat, rs: nat, ring: seq<Msg>)
    requires Holds(a, size, max, rs, ring) && ring != []
    ensures Holds(a, size, max, At(rs, 1, max), ring[1..])
  {
    forall i | 0 <= i < |ring| - 1 ensures SlotIs(a, size, max, At(At(rs, 1, max), i, max), ring[1..][i]) {
      AtNext(rs, i, max);
    }
  }

  lemma Spliced(a: seq<byte>, b: seq<byte>, size: nat, max: nat, w: nat, m: Msg)
    requires |a| == max * size && w < max && |m| == size && w * size + size == (w + 1) * size <= |a|
    requires b == a[..w * size] + m + a[w * size + size..]
    ensures |b| == |a| && SlotIs(b, size, max, w, m)
    ensures forall i | 0 <= i < |a| && !(w * size <= i < (w + 1) * size) :: b[i] == a[i]
  {
    assert Slot(b, size, w) == m;
  }

  class MsgQueue {
    const buffer: array<byte>
    const msgSize: nat
    const maxMsgs: nat
    var readPtr: nat
    var writePtr: nat
    var used: nat
    var waiters: seq<Waiter>
    /** What the calls that were blocked have returned. */
    var woken: seq<Woken>
    ghost var state: State
    /** The slot of the read position. */
    ghost var rs: nat

    ghost predicate Valid()
      reads this, buffer
    {
      && Inv(state) && state.max == maxMsgs && waiters == state.waiters && used == |state.ring|
      && woken == state.woken
      && msgSize > 0 && Holds(buffer[..], msgSize, maxMsgs, rs, state.ring)
      && (forall w | w in waiters && w.msg.Some? :: |w.msg.value| == msgSize)
      && readPtr == rs * msgSize && writePtr == At(rs, used, maxMsgs) * msgSize
    }

    constructor (size: nat, max: nat)
      requires size > 0 && max > 0
      ensures Valid() && fresh(buffer) && state == Init(max) && msgSize == size && maxMsgs == max
    {
      buffer := new byte[max * size](_ => 0);
      msgSize, maxMsgs := size, max;
      readPtr, writePtr, used, waiters, woken := 0, 0, 0, [], [];
      rs, state := 0, Init(max);
    }

    /** A position one message further, at the start of the buffer after its end. */
    method Advance(p: nat, ghost k: nat) returns (q: nat)
      requires maxMsgs > 0 && k < maxMsgs && p == k * msgSize && msgSize > 0 && buffer.Length == maxMsgs * msgSize
      ensures q == At(k, 1, maxMsgs) * msgSize
    {
      q := p + msgSize;
      SlotBounds(k, msgSize);
      if q == buffer.Length {
        SameSlot(k + 1, maxMsgs, msgSize);
        q := 0;
      }
      assert k + 1 == maxMsgs ==> q == 0;
    }

    method CopyTo(p: nat, m: Msg)
      requires p + |m| <= buffer.Length
      modifies buffer
      ensures buffer[..] == old(buffer[..p]) + m + old(buffer[p + |m|..])
    {
      var i := 0;
      while i < |m|
        invariant 0 <= i <= |m|
        invariant buffer[..] == old(buffer[..p]) + m[..i] + old(buffer[p + i..])
      {
        assert m[..i + 1] == m[..i] + [m[i]];
        buffer[p + i] := m[i];
        i := i + 1;
      }
      assert m[..i] == m;
    }

    /** Copies a message to the write position. */
    method Append(m: Msg)
      requires msgSize > 0 && Holds(buffer[..], msgSize, maxMsgs, rs, state.ring) && used == |state.ring| < maxMsgs
      requires writePtr == At(rs, used, maxMsgs) * msgSize && |m| == msgSize
      modifies buffer, this`writePtr, this`used
      ensures used == old(used) + 1 && Holds(buffer[..], msgSize, maxMsgs, rs, state.ring + [m])
      ensures writePtr == At(rs, used, maxMsgs) * msgSize
    {
      hide At;
      ghost var was := buffer[..];
      ghost var w := At(rs, used, maxMsgs);
      SlotFits(w, maxMsgs, msgSize);
      SlotBounds(w, msgSize);
      CopyTo(writePtr, m);
      Spliced(was, buffer[..], msgSize, maxMsgs, w, m);
      HoldsMore(was, buffer[..], msgSize, maxMsgs, rs, state.ring, m);
      writePtr := Advance(writePtr, w);
      AtMore(rs, used, maxMsgs);
      used := used + 1;
    }

    method ReadAt(p: nat, ghost k: nat) returns (m: Msg)
      requires maxMsgs > 0 && k < maxMsgs && p == k * msgSize && buffer.Length == maxMsgs * msgSize
      ensures SlotIs(buffer[..], msgSize, maxMsgs, k, m)
    {
      SlotFits(k, maxMsgs, msgSize);
      SlotBounds(k, msgSize);
      m := buffer[p..p + msgSize];
    }

    /** `k_msgq_put`: hands the message to a waiting reader, stores it, or waits. */
    method Put(tid: nat, prio: int, msg: Msg, wait: bool) returns (r: Result)
      requires Valid() && |msg| == msgSize
      modifies this, buffer
      ensures Valid() && (state, r) == DoPut(old(state), tid, prio, msg, wait)
    {
      hide At, Holds, Left;
      PutKeeps(state, tid, prio, msg, wait);
      HoldsBound();
      if used < maxMsgs {
        if waiters != [] {
          woken := woken + [Woken(waiters[0].tid, Message(msg))];
          waiters := waiters[1..];
        } else {
          Append(msg);
        }
        r := Ok;
      } else if !wait {
        r := ENOMSG;
      } else {
        waiters := Join(waiters, Waiter(tid, prio, Some(msg)));
        r := Blocked;
      }
      state := DoPut(state, tid, prio, msg, wait).0;
    }

    lemma HoldsBound()
      requires Valid()
      ensures rs < maxMsgs && maxMsgs > 0 && buffer.Length == maxMsgs * msgSize && used <= maxMsgs
    {
    }

    /** `k_msgq_get`: takes the first message and lets the first waiting writer, if there is
        one, put its message into the place that became free. */
    method Get(tid: nat, prio: int, wait: bool) returns (r: Result)
      requires Valid()
      modifies this, buffer
      ensures Valid() && (state, r) == DoGet(old(state), tid, prio, wait)
    {
      hide At, Holds, Left;
      GetKeeps(state, tid, prio, wait);
      HoldsBound();
      ghost var was := state;
      if used > 0 {
        FirstSlot();
        var m := ReadAt(readPtr, rs);
        readPtr := Advance(readPtr, rs);
        HoldsLess(buffer[..], msgSize, maxMsgs, rs, state.ring);
        AtShift(rs, used, maxMsgs);
        rs := At(rs, 1, maxMsgs);
        used := used - 1;
        state := state.(ring := state.ring[1..]);
        if waiters != [] {
          assert waiters[0] in waiters;
          Append(waiters[0].msg.value);
          woken := woken + [Woken(waiters[0].tid, Ok)];
          waiters := waiters[1..];
        }
        r := Message(m);
      } else if !wait {
        r := ENOMSG;
      } else {
        waiters := Join(waiters, Waiter(tid, prio, None));
        r := Blocked;
      }
      state := DoGet(was, tid, prio, wait).0;
    }

    lemma FirstSlot()
      requires Valid() && used > 0
      ensures SlotIs(buffer[..], msgSize, maxMsgs, rs, state.ring[0])
    {
      assert At(rs, 0, maxMsgs) == rs;
    }

    /** `k_msgq_peek_at`: element `i` of the queue, found with one wrap at the end of the buffer. */
    method PeekAt(i: nat) returns (r: Result)
      requires Valid()
      ensures r == if i < |state.ring| then Message(state.ring[i]) else ENOMSG
    {
      HoldsBound();
      if used > i {
        var bytesToEnd := buffer.Length - readPtr;
        var byteOffset := i * msgSize;
        var start := readPtr;
        PeekPlace(rs, i, maxMsgs, msgSize);
        if bytesToEnd <= byteOffset {
          byteOffset := byteOffset - bytesToEnd;
          start := 0;
        }
        assert SlotIs(buffer[..], msgSize, maxMsgs, At(rs, i, maxMsgs), state.ring[i]);
        var m := ReadAt(start + byteOffset, At(rs, i, maxMsgs));
        r := Message(m);
      } else {
        r := ENOMSG;
      }
    }

    /** `k_msgq_purge`: wakes every waiter with -ENOMSG and empties the ring. */
    method Purge()
      requires Valid()
      modifies this
      ensures Valid() && state == Step(old(state), Op.Purge)
    {
      PurgeKeeps(state);
      ghost var i := 0;
      while waiters != []
        invariant state == old(state) && readPtr == old(readPtr) && writePtr == old(writePtr) && rs == old(rs)
          && used == old(used)
        invariant 0 <= i <= |old(waiters)| && waiters == old(waiters)[i..]
        invariant woken == old(woken) + AllWoken(old(waiters), ENOMSG)[..i]
        decreases |waiters|
      {
        woken := woken + [Woken(waiters[0].tid, ENOMSG)];
        waiters := waiters[1..];
        i := i + 1;
      }
      rs := At(rs, used, maxMsgs);
      used := 0;
      readPtr := writePtr;
      state := Step(state, Op.Purge);
    }

    /** The timeout of a waiting thread: its call returns -EAGAIN. */
    method WaiterExpires(tid: nat)
      requires Valid()
      modifies this`waiters, this`woken, this`state
      ensures Valid() && state == Step(old(state), Expire(tid))
    {
      StepKeeps(state, Expire(tid));
      if Waiting(waiters, tid) {
        waiters := Leave(waiters, tid);
        woken := woken + [Woken(tid, EAGAIN)];
      }
      state := Step(state, Expire(tid));
    }
  }

  lemma SameSlot(j: nat, k: nat, size: nat)
    requires size > 0 && j * size == k * size
    ensures j == k
  {
    if j < k {
      SlotOrder(j, k, size);
      SlotBounds(j, size);
    } else if k < j {
      SlotOrder(k, j, size);
      SlotBounds(k, size);
    }
  }

  lemma AtMore(rs: nat, used: nat, max: nat)
    requires rs < max && used < max
    ensures At(At(rs, used, max), 1, max) == At(rs, used + 1, max)
  {
  }

  lemma AtShift(rs: nat, used: nat, max: nat)
    requires rs < max && 0 < used <= max
    ensures At(At(rs, 1, max), used - 1, max) == At(rs, used, max)
  {
  }

  /** The byte position of element `i`, with at most one wrap. */
  lemma PeekPlace(rs: nat, i: nat, max: nat, size: nat)
    requires max > 0 && rs < max && i < max && size > 0
    ensures rs * size <= max * size
    ensures max * size - rs * size <= i * size ==> At(rs, i, max) * size == i * size - (max * size - rs * size)
    ensures max * size - rs * size > i * size ==> At(rs, i, max) * size == rs * size + i * size
  {
    assert (max - rs) * size == max * size - rs * size;
    assert (max - rs) * size >= 0;
    if rs + i >= max {
      assert At(rs, i, max) == rs + i - max;
      assert (rs + i - max) * size == rs * size + i * size - max * size;
      assert (rs + i - max) * size >= 0;
    } else {
      assert At(rs, i, max) == rs + i;
      assert (rs + i) * size == rs * size + i * size;
      SlotOrder(rs + i, max, size);
      SlotBounds(rs + i, size);
    }
  }
}
