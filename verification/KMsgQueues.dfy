/** `struct k_msgq` as its calls update it: a ring of equal cells in one byte buffer. */
module KMsgQueues {
  import opened Seqs
  import opened WaitQueues
  import opened MsgQueues

  // ----- Cells of the ring ----------------------------------------------------------------

  function Cell(buf: seq<Byte>, size: nat, n: nat, k: nat): (cell: Msg)
    requires |buf| == n * size && k < n
    ensures |cell| == size
  {
    CellsApart(k, n, size);
    buf[k * size..k * size + size]
  }

  /** The cell `i` places after `head` in a ring of `n`. */
  function RingAt(head: nat, i: nat, n: nat): nat {
    if head + i < n then head + i else if head + i - n < n then head + i - n else 0
  }

  function Cells(buf: seq<Byte>, size: nat, n: nat, head: nat, used: nat): (cells: seq<Msg>)
    requires |buf| == n * size && used <= n && (head < n || n == head == 0)
    ensures |cells| == used
    ensures forall i | 0 <= i < used :: cells[i] == Cell(buf, size, n, RingAt(head, i, n))
  {
    seq(used, i requires 0 <= i < used => Cell(buf, size, n, RingAt(head, i, n)))
  }

  /** A message copied into the cell behind the used ones is queued last. */
  lemma {:induction false} WriteExtends(before: seq<Byte>, after: seq<Byte>, size: nat, n: nat, head: nat, used: nat,
                                        msg: Msg)
    requires |before| == |after| == n * size && used < n && head < n && |msg| == size
    requires Cell(after, size, n, RingAt(head, used, n)) == msg
    requires forall i | 0 <= i < |before|
                        && !(RingAt(head, used, n) * size <= i < RingAt(head, used, n) * size + size) ::
               after[i] == before[i]
    ensures Cells(after, size, n, head, used + 1) == Cells(before, size, n, head, used) + [msg]
  {
    var a, b := Cells(after, size, n, head, used + 1), Cells(before, size, n, head, used) + [msg];
    forall i | 0 <= i < used + 1 ensures a[i] == b[i] {
      if i < used {
        OtherCell(before, after, size, n, RingAt(head, used, n), RingAt(head, i, n));
      }
    }
  }

  lemma {:induction false} OtherCell(before: seq<Byte>, after: seq<Byte>, size: nat, n: nat, w: nat, k: nat)
    requires |before| == |after| == n * size && w < n && k < n && w != k
    requires forall i | 0 <= i < |before| && !(w * size <= i < w * size + size) :: after[i] == before[i]
    ensures Cell(after, size, n, k) == Cell(before, size, n, k)
  {
    CellsApart(k, n, size);
    if k < w {
      CellsApart(k, w, size);
    } else {
      CellsApart(w, k, size);
    }
    forall i | 0 <= i < size ensures Cell(after, size, n, k)[i] == Cell(before, size, n, k)[i] {
      assert after[k * size + i] == before[k * size + i];
    }
  }

  /** Taking the first cell leaves the others in order. */
  lemma {:induction false} ReadAdvances(buf: seq<Byte>, size: nat, n: nat, head: nat, used: nat)
    requires |buf| == n * size && 0 < used <= n && head < n
    ensures Cells(buf, size, n, RingAt(head, 1, n), used - 1) == Cells(buf, size, n, head, used)[1..]
    ensures Cells(buf, size, n, head, used)[0] == Cell(buf, size, n, head)
  {
  }

  /** Moving a pointer past a cell, back to the start at the end of the buffer. */
  function Advance(ptr: nat, size: nat, end: nat): nat {
    if ptr + size == end then 0 else ptr + size
  }

  lemma {:induction false} AdvanceIsNext(k: nat, size: nat, n: nat)
    requires k < n
    ensures Advance(k * size, size, n * size) == RingAt(k, 1, n) * size
  {
    if k + 1 < n {
      CellsApart(k + 1, n, size);
      assert (k + 1) * size == k * size + size;
      if size == 0 {
        assert RingAt(k, 1, n) * 0 == 0;
      }
    } else {
      assert (k + 1) * size == k * size + size;
    }
  }

  /** memcpy into the buffer */
  method CopyIn(buffer: array<Byte>, at: nat, msg: Msg)
    requires at + |msg| <= buffer.Length
    modifies buffer
    ensures buffer[at..at + |msg|] == msg
    ensures forall k | 0 <= k < buffer.Length && !(at <= k < at + |msg|) :: buffer[k] == old(buffer[k])
  {
    for i := 0 to |msg|
      invariant forall k | 0 <= k < i :: buffer[at + k] == msg[k]
      invariant forall k | 0 <= k < buffer.Length && !(at <= k < at + |msg|) :: buffer[k] == old(buffer[k])
    {
      buffer[at + i] := msg[i];
    }
  }

  /** The pointers stand at the first used cell and the first free one. */
  ghost predicate RingOk(size: nat, n: nat, length: nat, head: nat, used: nat, readPtr: nat, writePtr: nat) {
    && length == n * size && used <= n && (head < n || n == head == 0)
    && readPtr == head * size && writePtr == RingAt(head, used, n) * size
  }

  method WakeAll(waiters: seq<Waiter<Slot>>) returns (woken: seq<Wake>)
    ensures woken == Woken(waiters, NoMsg)
  {
    var waitQ := waiters;
    woken := [];
    while |waitQ| > 0
      invariant woken + Woken(waitQ, NoMsg) == Woken(waiters, NoMsg)
      decreases |waitQ|
    {
      woken := woken + [Wake(waitQ[0].id, NoMsg, waitQ[0].data.buffer)];
      waitQ := waitQ[1..];
    }
  }

  // ----- The queue ------------------------------------------------------------------------

  class KMsgq {
    const msgSize: nat
    const maxMsgs: nat
    const buffer: array<Byte>
    var readPtr: nat
    var writePtr: nat
    var usedMsgs: nat
    var waitQ: seq<Waiter<Slot>>
    ghost var head: nat
    ghost var accepted: seq<Msg>
    ghost var left: seq<Departure>

    ghost predicate Ring()
      reads this, buffer
    {
      RingOk(msgSize, maxMsgs, buffer.Length, head, usedMsgs, readPtr, writePtr)
    }

    ghost predicate Valid()
      reads this, buffer
    {
      && Ring()
      && (forall i | 0 <= i < |waitQ| :: |waitQ[i].data.buffer| == msgSize)
      && Inv(View())
    }

    ghost function Contents(): seq<Msg>
      requires Ring()
      reads this, buffer
    {
      Cells(buffer[..], msgSize, maxMsgs, head, usedMsgs)
    }

    ghost function View(): Queue
      requires Ring()
      reads this, buffer
    {
      Queue(maxMsgs, Contents(), waitQ, accepted, left)
    }

    /** k_msgq_init */
    constructor (buffer: array<Byte>, msgSize: nat, maxMsgs: nat)
      requires buffer.Length == maxMsgs * msgSize
      ensures Valid() && View() == Fresh(maxMsgs) && this.msgSize == msgSize && this.buffer == buffer
    {
      this.buffer, this.msgSize, this.maxMsgs := buffer, msgSize, maxMsgs;
      readPtr, writePtr, usedMsgs, waitQ := 0, 0, 0, [];
      head, accepted, left := 0, [], [];
      new;
      assert RingAt(0, 0, maxMsgs) == 0;
    }

    /** Copies a message behind the used cells and moves the write pointer on. */
    method Store(msg: Msg)
      requires Ring() && usedMsgs < maxMsgs && |msg| == msgSize
      modifies this`writePtr, this`usedMsgs, buffer
      ensures Ring() && Contents() == old(Contents()) + [msg]
    {
      ghost var w := RingAt(head, usedMsgs, maxMsgs);
      CellsApart(w, maxMsgs, msgSize);
      CopyIn(buffer, writePtr, msg);
      assert Cell(buffer[..], msgSize, maxMsgs, w) == msg;
      WriteExtends(old(buffer[..]), buffer[..], msgSize, maxMsgs, head, usedMsgs, msg);
      AdvanceIsNext(w, msgSize, maxMsgs);
      writePtr := Advance(writePtr, msgSize, buffer.Length);
      usedMsgs := usedMsgs + 1;
    }

    /** Copies the oldest message out. */
    method Load() returns (msg: Msg)
      requires Ring() && usedMsgs > 0
      ensures msg == Contents()[0] && |msg| == msgSize
    {
      CellsApart(head, maxMsgs, msgSize);
      msg := buffer[readPtr..readPtr + msgSize];
    }

    /** Copies the oldest message out and moves the read pointer on. */
    method Take() returns (msg: Msg)
      requires Ring() && usedMsgs > 0
      modifies this`readPtr, this`usedMsgs, this`head
      ensures Ring() && Contents() == old(Contents())[1..] && usedMsgs == old(usedMsgs) - 1
      ensures msg == old(Contents())[0] && |msg| == msgSize
    {
      msg := Load();
      ReadAdvances(buffer[..], msgSize, maxMsgs, head, usedMsgs);
      AdvanceIsNext(head, msgSize, maxMsgs);
      assert RingAt(RingAt(head, 1, maxMsgs), usedMsgs - 1, maxMsgs) == RingAt(head, usedMsgs, maxMsgs);
      readPtr := Advance(readPtr, msgSize, buffer.Length);
      head := RingAt(head, 1, maxMsgs);
      usedMsgs := usedMsgs - 1;
    }

    /** Forgets every message. */
    method Clear()
      requires Ring()
      modifies this`readPtr, this`usedMsgs, this`head
      ensures Ring() && Contents() == []
    {
      head := RingAt(head, usedMsgs, maxMsgs);
      usedMsgs := 0;
      readPtr := writePtr;
      assert RingAt(head, 0, maxMsgs) == head;
    }

    /** z_impl_k_msgq_put */
    method Put(id: nat, prio: int, msg: Msg, wait: bool) returns (reply: Reply)
      requires Valid() && |msg| == msgSize && Allowed(View(), Call.Put(id, prio, msg, wait))
      modifies this, buffer
      ensures Valid() && (View(), reply) == Step(old(View()), Call.Put(id, prio, msg, wait))
    {
      hide Inv, RingOk, Cells;
      StepKeepsInv(View(), Call.Put(id, prio, msg, wait));
      if usedMsgs < maxMsgs {
        if |waitQ| > 0 {
          reply := Reply(Ok, msg, [Wake(waitQ[0].id, Ok, msg)]);
          waitQ := waitQ[1..];
          left := left + [Taken(msg)];
        } else {
          Store(msg);
          reply := Reply(Ok, msg, []);
        }
        accepted := accepted + [msg];
      } else if !wait {
        reply := Reply(NoMsg, msg, []);
      } else {
        var w := Waiter(id, prio, Slot(true, msg));
        Members(waitQ, w);
        waitQ := PriqAdd(waitQ, w);
        reply := Reply(Pending, msg, []);
      }
    }

    /** z_impl_k_msgq_get */
    method Get(id: nat, prio: int, data: Msg, wait: bool) returns (reply: Reply)
      requires Valid() && |data| == msgSize && Allowed(View(), Call.Get(id, prio, data, wait))
      modifies this, buffer
      ensures Valid() && (View(), reply) == Step(old(View()), Call.Get(id, prio, data, wait))
    {
      assert usedMsgs <= maxMsgs;
      hide Inv, RingOk, Cells;
      StepKeepsInv(View(), Call.Get(id, prio, data, wait));
      if usedMsgs > 0 {
        var msg := Take();
        left := left + [Taken(msg)];
        if |waitQ| > 0 {
          var first := waitQ[0];
          Store(first.data.buffer);
          accepted := accepted + [first.data.buffer];
          waitQ := waitQ[1..];
          reply := Reply(Ok, msg, [Wake(first.id, Ok, first.data.buffer)]);
        } else {
          reply := Reply(Ok, msg, []);
        }
      } else if !wait {
        reply := Reply(NoMsg, data, []);
      } else {
        var w := Waiter(id, prio, Slot(false, data));
        Members(waitQ, w);
        waitQ := PriqAdd(waitQ, w);
        reply := Reply(Pending, data, []);
      }
    }

    /** z_impl_k_msgq_peek */
    method Peek(data: Msg) returns (reply: Reply)
      requires Valid() && |data| == msgSize
      ensures (View(), reply) == Step(View(), Call.Peek(data))
    {
      if usedMsgs > 0 {
        var msg := Load();
        reply := Reply(Ok, msg, []);
      } else {
        reply := Reply(NoMsg, data, []);
      }
    }

    /** z_impl_k_msgq_purge */
    method Purge() returns (reply: Reply)
      requires Valid()
      modifies this
      ensures Valid() && (View(), reply) == Step(old(View()), Call.Purge)
    {
      hide Inv, RingOk, Cells;
      StepKeepsInv(View(), Call.Purge);
      var woken := WakeAll(waitQ);
      waitQ := [];
      left := left + AllPurged(Contents());
      Clear();
      reply := Reply(Ok, [], woken);
    }

    /** A waiting thread's timeout */
    method Expire(id: nat) returns (reply: Reply)
      requires Valid() && Allowed(View(), Call.Expire(id))
      modifies this`waitQ
      ensures Valid() && (View(), reply) == Step(old(View()), Call.Expire(id))
    {
      StepKeepsInv(View(), Call.Expire(id));
      DropMembers(waitQ, id);
      reply := Reply(Again, [], [Wake(id, Again, BufferOf(waitQ, id))]);
      waitQ := PriqRemove(waitQ, id);
    }
  }
}
