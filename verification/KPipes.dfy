/** Pipes as the kernel runs them: a ring buffer with indices, and working lists of waiters. */
module KPipes {
  import PipeOutcomes
  import opened Pipes
  import opened Seqs

  // ----- The ring -------------------------------------------------------------------------

  function Wrap(i: nat, size: nat): nat {
    if i < size then i else if i - size < size then i - size else 0
  }

  /** The `used` bytes that start at index `r` of a ring. */
  function Slice(buf: seq<Byte>, r: nat, used: nat): (s: seq<Byte>)
    requires used <= |buf| && (r < |buf| || |buf| == r == 0)
    ensures |s| == used
    ensures forall i | 0 <= i < used :: s[i] == buf[Wrap(r + i, |buf|)]
  {
    if r + used <= |buf| then buf[r..r + used] else buf[r..] + buf[..r + used - |buf|]
  }

  /** Bytes written in one piece behind the used part extend it. */
  lemma {:induction false} SliceExtends(before: seq<Byte>, after: seq<Byte>, r: nat, used: nat, w: nat,
                                        chunk: seq<Byte>)
    requires |before| == |after| && used + |chunk| <= |before| && w + |chunk| <= |before|
    requires r < |before| || |before| == r == 0
    requires w == Wrap(r + used, |before|)
    requires forall i | 0 <= i < |chunk| :: after[w + i] == chunk[i]
    requires forall i | 0 <= i < |before| && !(w <= i < w + |chunk|) :: after[i] == before[i]
    ensures Slice(after, r, used + |chunk|) == Slice(before, r, used) + chunk
  {
  }

  lemma {:induction false} SliceSplits(buf: seq<Byte>, r: nat, used: nat, n: nat)
    requires used <= |buf| && (r < |buf| || |buf| == r == 0)
    requires n <= used && r + n <= |buf|
    ensures Slice(buf, r, used) == buf[r..r + n] + Slice(buf, Wrap(r + n, |buf|), used - n)
  {
  }

  // ----- Working lists --------------------------------------------------------------------

  function Total(sizes: seq<nat>): nat {
    if sizes == [] then 0 else sizes[0] + Total(sizes[1..])
  }

  /** How many waiters, from the front, a transfer of `n` bytes serves in full. */
  function Fits(sizes: seq<nat>, n: nat): (k: nat)
    ensures k <= |sizes|
  {
    if sizes == [] || n < sizes[0] then 0 else 1 + Fits(sizes[1..], n - sizes[0])
  }

  function Wants(readers: seq<Reader>): (sizes: seq<nat>)
    ensures |sizes| == |readers|
    ensures forall i | 0 <= i < |readers| :: sizes[i] == readers[i].want
  {
    if readers == [] then [] else [readers[0].want] + Wants(readers[1..])
  }

  function Lengths(writers: seq<Writer>): (sizes: seq<nat>)
    ensures |sizes| == |writers|
    ensures forall i | 0 <= i < |writers| :: sizes[i] == |writers[i].data|
  {
    if writers == [] then [] else [|writers[0].data|] + Lengths(writers[1..])
  }

  lemma {:induction false} WantsTotal(readers: seq<Reader>)
    ensures Total(Wants(readers)) == Demand(readers)
  {
    if readers != [] {
      WantsTotal(readers[1..]);
    }
  }

  lemma {:induction false} LengthsTotal(writers: seq<Writer>)
    ensures Total(Lengths(writers)) == |Offer(writers)|
  {
    if writers != [] {
      LengthsTotal(writers[1..]);
    }
  }

  /**
   pipe_xfer_prepare, over the sizes of the waiters' requests. It succeeds unless the call may
   not wait and the minimum is out of reach; `moved` waiters go to the working list, and
   `partial` says that the next one stays behind to be served in part.
   */
  method XferPrepare(sizes: seq<nat>, space: nat, bytes: nat, need: nat, noWait: bool)
    returns (ok: bool, moved: nat, partial: bool)
    requires need <= bytes
    ensures ok == (!noWait || Total(sizes) + space >= need)
    ensures ok ==> moved == Fits(sizes, bytes) && partial == (moved < |sizes|)
  {
    moved, partial := 0, false;
    var num := 0;
    if noWait {
      var i := 0;
      while i < |sizes|
        invariant 0 <= i <= |sizes|
        invariant num + Total(sizes[i..]) == Total(sizes)
        invariant num < bytes || i == 0
      {
        num := num + sizes[i];
        assert sizes[i..][1..] == sizes[i + 1..];
        i := i + 1;
        if num >= bytes {
          break;
        }
      }
      if num + space < need {
        return false, 0, false;
      }
    }
    num := 0;
    while moved < |sizes|
      invariant 0 <= moved <= |sizes| && num <= bytes
      invariant moved + Fits(sizes[moved..], bytes - num) == Fits(sizes, bytes)
    {
      assert sizes[moved..][1..] == sizes[moved + 1..];
      num := num + sizes[moved];
      if num > bytes {
        break;
      }
      moved := moved + 1;
    }
    ok, partial := true, num > bytes;
  }

  // ----- Feeding readers ------------------------------------------------------------------

  lemma {:induction false} FedStep(xfer: seq<Reader>, rest: seq<Reader>, d: seq<Byte>)
    requires xfer != [] && Fits(Wants(xfer + rest), |d|) == |xfer|
    ensures var w := xfer[0].want;
            && w <= |d|
            && Fits(Wants(xfer[1..] + rest), |d| - w) == |xfer| - 1
            && Fed(xfer + rest, d) == [Give(xfer[0], d[..w])] + Fed(xfer[1..] + rest, d[w..])
            && Hungry(xfer + rest, d) == Hungry(xfer[1..] + rest, d[w..])
            && Demand(xfer + rest) == w + Demand(xfer[1..] + rest)
  {
    var all := xfer + rest;
    assert all[0] == xfer[0] && all[1..] == xfer[1..] + rest;
  }

  lemma {:induction false} SliceOfSlice<T>(s: seq<T>, i: nat, n: nat)
    requires i + n <= |s|
    ensures s[i..][n..] == s[i + n..] && s[i..][..n] == s[i..i + n]
  {
  }

  /** When the working list is used up, the first reader left, if any, takes what is left. */
  lemma {:induction false} FedEnd(rest: seq<Reader>, data: seq<Byte>)
    requires Fits(Wants(rest), |data|) == 0
    ensures Fed(rest, data) == []
    ensures rest == [] ==> Hungry(rest, data) == [] && Demand(rest) == 0
    ensures rest != [] ==> |data| < rest[0].want <= Demand(rest)
                           && Hungry(rest, data) == [Give(rest[0], data)] + rest[1..]
  {
  }

  // ----- Drawing from writers -------------------------------------------------------------

  lemma {:induction false} NoOffer()
    ensures Offer([]) == []
  {
  }

  lemma {:induction false} OfferCons(w: Writer, rest: seq<Writer>)
    ensures Offer([w] + rest) == w.data + Offer(rest)
  {
  }

  lemma {:induction false} OfferAppend(a: seq<Writer>, b: seq<Writer>)
    ensures Offer(a + b) == Offer(a) + Offer(b)
  {
    if a == [] {
      assert a + b == b;
    } else {
      OfferAppend(a[1..], b);
      assert a + b == [a[0]] + (a[1..] + b);
      OfferCons(a[0], a[1..] + b);
      assert a[0].data + (Offer(a[1..]) + Offer(b)) == (a[0].data + Offer(a[1..])) + Offer(b);
    }
  }

  lemma {:induction false} FitsTail(writers: seq<Writer>, n: nat)
    requires writers != [] && |writers[0].data| <= n
    ensures Fits(Lengths(writers), n) == 1 + Fits(Lengths(writers[1..]), n - |writers[0].data|)
  {
    assert Lengths(writers)[1..] == Lengths(writers[1..]);
  }

  /** The first `k` writers' data fits into `n` bytes, and the next one's does not. */
  predicate Bounds(writers: seq<Writer>, n: nat, k: nat)
    requires k <= |writers|
  {
    |Offer(writers[..k])| <= n && (k < |writers| ==> |Offer(writers[..k])| + |writers[k].data| > n)
  }

  lemma {:induction false} BoundsCons(w: Writer, tail: seq<Writer>, n: nat, k: nat)
    requires k <= |tail| && |w.data| <= n && Bounds(tail, n - |w.data|, k)
    ensures Bounds([w] + tail, n, k + 1)
  {
    OfferCons(w, tail[..k]);
    hide Offer;
    assert ([w] + tail)[..k + 1] == [w] + tail[..k];
  }

  lemma {:induction false} NoneFits(writers: seq<Writer>, n: nat)
    requires writers == [] || n < |writers[0].data|
    ensures Fits(Lengths(writers), n) == 0 && Bounds(writers, n, 0)
  {
    hide Offer;
    NoOffer();
    assert writers[..0] == [];
  }

  /** What the working list asks for fits the transfer, and one waiter more does not. */
  lemma {:induction false} FitsBounds(writers: seq<Writer>, n: nat)
    ensures Bounds(writers, n, Fits(Lengths(writers), n))
  {
    if writers == [] || n < |writers[0].data| {
      NoneFits(writers, n);
    } else {
      hide Fits, Lengths, Offer, Bounds;
      var tail := writers[1..];
      FitsTail(writers, n);
      FitsBounds(tail, n - |writers[0].data|);
      BoundsCons(writers[0], tail, n, Fits(Lengths(tail), n - |writers[0].data|));
      assert writers == [writers[0]] + tail;
    }
  }

  lemma {:induction false} ConsumeAll(writers: seq<Writer>)
    ensures Consume(writers, |Offer(writers)|) == []
  {
    if writers != [] {
      ConsumeAll(writers[1..]);
    }
  }

  lemma {:induction false} ConsumeInto(writers: seq<Writer>, k: nat, j: nat)
    requires k < |writers| && j < |writers[k].data|
    ensures Consume(writers, |Offer(writers[..k])| + j)
            == [writers[k].(data := writers[k].data[j..])] + writers[k + 1..]
  {
    if k > 0 {
      assert writers[..k][1..] == writers[1..][..k - 1];
      ConsumeInto(writers[1..], k - 1, j);
    }
  }

  /** Copying from the first writer moves the boundary between what is out and what is on offer. */
  lemma {:induction false} DirectCopy(writers: seq<Writer>, out: seq<Byte>, n: nat)
    requires writers != [] && n <= |writers[0].data|
    ensures var w := writers[0];
            (out + w.data[..n]) + Offer([w.(data := w.data[n..])] + writers[1..]) == out + Offer(writers)
  {
  }

  /** The writers from the `k`-th on, without the first `j` bytes of that one. */
  function Rest(writers: seq<Writer>, k: nat, j: nat): seq<Writer>
    requires k <= |writers|
  {
    if k < |writers| && j <= |writers[k].data| then [writers[k].(data := writers[k].data[j..])] + writers[k + 1..]
    else writers[k..]
  }

  lemma {:induction false} RestNone(writers: seq<Writer>, k: nat)
    requires k <= |writers|
    ensures Rest(writers, k, 0) == writers[k..]
  {
  }

  lemma {:induction false} WaiterEq(writers: seq<Writer>, got: seq<Byte>, j: nat)
    requires writers != [] && j <= |writers[0].data|
    ensures var w := writers[0];
            (got + w.data[..j]) + [] + ([] + Offer([w.(data := w.data[j..])] + writers[1..]))
              == got + [] + ([] + Offer(writers))
  {
  }

  /** Bytes go straight from the list to the reader only when the ring has run dry. */
  lemma {:induction false} DrawnEq(ring0: seq<Byte>, taken: seq<Byte>, ring: seq<Byte>, got: seq<Byte>,
                left: seq<Byte>, moving: seq<Byte>, waiting: seq<Byte>)
    requires ring0 == taken + ring && taken <= got
    requires got + left == taken + moving
    requires ring == [] || got == taken
    ensures got + ring + (left + waiting) == ring0 + (moving + waiting)
    ensures |got| + |ring| + |left| == |ring0| + |moving|
  {
    if ring == [] {
      assert got + ring + (left + waiting) == (got + left) + waiting;
      assert ring0 + (moving + waiting) == (taken + moving) + waiting;
    } else {
      assert left == (got + left)[|got|..] == moving;
    }
  }

  lemma {:induction false} RefillEq(got: seq<Byte>, ring: seq<Byte>, list: seq<Byte>, waiting: seq<Byte>)
    ensures got + (ring + list) + waiting == got + ring + (list + waiting)
  {
  }

  lemma {:induction false} RestMore(writers: seq<Writer>, k: nat, j: nat, n: nat)
    requires k < |writers| && j <= |writers[k].data| && n <= |writers[k].data| - j
    ensures var rest := Rest(writers, k, j);
            Rest(writers, k, j + n) == [rest[0].(data := rest[0].data[n..])] + rest[1..]
  {
  }

  lemma {:induction false} WaiterRefills(writers: seq<Writer>, n: nat)
    requires writers != [] && n <= |writers[0].data|
    ensures var w := writers[0];
            w.data[..n] + Offer([w.(data := w.data[n..])] + writers[1..]) == Offer(writers)
  {
  }

  /** How much the writers from the `k`-th on still offer. */
  lemma {:induction false} RestOffer(writers: seq<Writer>, k: nat, j: nat)
    requires k <= |writers| && (k < |writers| ==> j <= |writers[k].data|)
    ensures k < |writers| ==>
              && |Offer(Rest(writers, k, j))| == |Offer(writers)| - |Offer(writers[..k])| - j
              && |Offer(Rest(writers, k, j))| == |writers[k].data| - j + |Offer(writers[k + 1..])|
    ensures k == |writers| ==> Rest(writers, k, j) == []
  {
    if k < |writers| {
      assert writers == writers[..k] + writers[k..];
      OfferAppend(writers[..k], writers[k..]);
      assert writers[k..] == [writers[k]] + writers[k + 1..];
      OfferCons(writers[k], writers[k + 1..]);
      OfferCons(writers[k].(data := writers[k].data[j..]), writers[k + 1..]);
    }
  }

  /** Bytes split as the kernel splits them are split as a draw from the stream does. */
  lemma {:induction false} DrawnIs(p: Pipe, want: nat, got: seq<Byte>, ring: seq<Byte>, k: nat, j: nat)
    requires |p.ring| <= p.size && k <= |p.writers| && (k < |p.writers| ==> j < |p.writers[k].data|)
    requires got + ring + Offer(Rest(p.writers, k, j)) == Stream(p)
    requires |got| == Min(want, |Stream(p)|) && |ring| == Min(p.size, |Stream(p)| - |got|)
    ensures got == Stream(p)[..|got|]
    ensures Drawn(p, want) == Pipe(p.size, ring, p.readers, Rest(p.writers, k, j),
                                   p.accepted + Stream(p)[|p.ring|..|got| + |ring|], p.delivered + got)
  {
    hide Offer, Rest;
    var s := Stream(p);
    var rest := Offer(Rest(p.writers, k, j));
    var end := |got| + |ring|;
    assert got == (got + ring + rest)[..|got|];
    assert ring == (got + ring + rest)[|got|..end];
    assert |rest| == |s| - end;
    RestOffer(p.writers, k, j);
    NoOffer();
    assert Consume(p.writers, end - |p.ring|) == Rest(p.writers, k, j) by {
      if k < |p.writers| {
        ConsumeInto(p.writers, k, j);
        RestIs(p.writers, k, j);
      } else {
        ConsumeAll(p.writers);
      }
    }
  }

  lemma {:induction false} RestIs(writers: seq<Writer>, k: nat, j: nat)
    requires k < |writers| && j <= |writers[k].data|
    ensures Rest(writers, k, j) == [writers[k].(data := writers[k].data[j..])] + writers[k + 1..]
  {
  }

  class KPipe {
    const buffer: array<Byte>
    var bytesUsed: nat
    var readIndex: nat
    var writeIndex: nat
    var readers: seq<Reader>
    var writers: seq<Writer>
    ghost var accepted: seq<Byte>
    ghost var delivered: seq<Byte>

    ghost predicate RingOk()
      reads this
    {
      && bytesUsed <= buffer.Length
      && (readIndex < buffer.Length || buffer.Length == readIndex == 0)
      && writeIndex == Wrap(readIndex + bytesUsed, buffer.Length)
    }

    ghost function Contents(): (s: seq<Byte>)
      requires RingOk()
      reads this, buffer
      ensures |s| == bytesUsed
    {
      Slice(buffer[..], readIndex, bytesUsed)
    }

    ghost function View(): Pipe
      requires RingOk()
      reads this, buffer
    {
      Pipe(buffer.Length, Contents(), readers, writers, accepted, delivered)
    }

    ghost predicate Valid()
      reads this, buffer
    {
      RingOk() && Inv(View())
    }

    /** k_pipe_init */
    constructor (buffer: array<Byte>)
      ensures Valid() && this.buffer == buffer && View() == Fresh(buffer.Length)
    {
      this.buffer := buffer;
      bytesUsed, readIndex, writeIndex := 0, 0, 0;
      readers, writers := [], [];
      accepted, delivered := [], [];
    }

    /** pipe_xfer into the ring */
    method XferIn(offset: nat, room: nat, src: seq<Byte>) returns (n: nat)
      requires offset + room <= buffer.Length
      modifies buffer
      ensures n == Min(room, |src|)
      ensures forall i | 0 <= i < n :: buffer[offset + i] == src[i]
      ensures forall i | 0 <= i < buffer.Length && !(offset <= i < offset + n) :: buffer[i] == old(buffer[i])
    {
      n := Min(room, |src|);
      var i := 0;
      while i < n
        invariant 0 <= i <= n
        invariant forall j | 0 <= j < i :: buffer[offset + j] == src[j]
        invariant forall j | 0 <= j < buffer.Length && !(offset <= j < offset + i) :: buffer[j] == old(buffer[j])
      {
        buffer[offset + i] := src[i];
        i := i + 1;
      }
    }

    /** pipe_xfer out of the ring */
    method XferOut(room: nat, offset: nat, size: nat) returns (out: seq<Byte>)
      requires offset + size <= buffer.Length
      ensures out == buffer[offset..offset + Min(room, size)]
    {
      var n := Min(room, size);
      out := [];
      while |out| < n
        invariant |out| <= n && out == buffer[offset..offset + |out|]
      {
        out := out + [buffer[offset + |out|]];
      }
    }

    /** One of the two passes of pipe_buffer_put */
    method PutPass(src: seq<Byte>) returns (n: nat)
      requires RingOk()
      modifies this`bytesUsed, this`writeIndex, buffer
      ensures RingOk() && n <= |src| && bytesUsed == old(bytesUsed) + n
      ensures Contents() == old(Contents()) + src[..n]
      ensures n == |src| || bytesUsed == buffer.Length || writeIndex == 0
      ensures old(writeIndex) == 0 ==> n == |src| || bytesUsed == buffer.Length
    {
      hide Slice;
      var run := Min(buffer.Length - bytesUsed, buffer.Length - writeIndex);
      ghost var before := buffer[..];
      n := XferIn(writeIndex, run, src);
      SliceExtends(before, buffer[..], readIndex, bytesUsed, writeIndex, src[..n]);
      bytesUsed := bytesUsed + n;
      writeIndex := writeIndex + n;
      if writeIndex == buffer.Length {
        writeIndex := 0;
      }
    }

    /** pipe_buffer_put */
    method BufferPut(src: seq<Byte>) returns (written: nat)
      requires RingOk()
      modifies this`bytesUsed, this`writeIndex, buffer
      ensures RingOk() && written == Min(|src|, buffer.Length - old(bytesUsed))
      ensures Contents() == old(Contents()) + src[..written]
    {
      hide Slice;
      written := 0;
      for i := 0 to 2
        invariant RingOk() && written <= |src| && bytesUsed == old(bytesUsed) + written
        invariant Contents() == old(Contents()) + src[..written]
        invariant i == 1 ==> written == |src| || bytesUsed == buffer.Length || writeIndex == 0
        invariant i == 2 ==> written == |src| || bytesUsed == buffer.Length
      {
        var n := PutPass(src[written..]);
        assert src[..written] + src[written..][..n] == src[..written + n];
        written := written + n;
      }
    }

    /** One of the two passes of pipe_buffer_get */
    method GetPass(room: nat) returns (out: seq<Byte>)
      requires RingOk()
      modifies this`bytesUsed, this`readIndex
      ensures RingOk() && |out| <= room && bytesUsed == old(bytesUsed) - |out|
      ensures old(Contents()) == out + Contents()
      ensures |out| == room || bytesUsed == 0 || readIndex == 0
      ensures old(readIndex) == 0 ==> |out| == room || bytesUsed == 0
    {
      hide Slice;
      var run := Min(bytesUsed, buffer.Length - readIndex);
      out := XferOut(room, readIndex, run);
      SliceSplits(buffer[..], readIndex, bytesUsed, |out|);
      bytesUsed := bytesUsed - |out|;
      readIndex := readIndex + |out|;
      if readIndex == buffer.Length {
        readIndex := 0;
      }
    }

    /** pipe_buffer_get */
    method BufferGet(room: nat) returns (out: seq<Byte>)
      requires RingOk()
      modifies this`bytesUsed, this`readIndex
      ensures RingOk() && |out| == Min(room, old(bytesUsed))
      ensures old(Contents()) == out + Contents()
    {
      hide Slice;
      out := [];
      for i := 0 to 2
        invariant RingOk() && |out| <= room && bytesUsed == old(bytesUsed) - |out|
        invariant old(Contents()) == out + Contents()
        invariant i == 1 ==> |out| == room || bytesUsed == 0 || readIndex == 0
        invariant i == 2 ==> |out| == room || bytesUsed == 0
      {
        ghost var before := Contents();
        var more := GetPass(room - |out|);
        assert before == more + Contents();
        Associative(out, more, Contents());
        out := out + more;
      }
    }

    /** z_impl_k_pipe_read_avail, from the indices alone where they tell the ring's fill */
    method ReadAvail() returns (n: nat)
      requires RingOk()
      ensures n == |Contents()|
    {
      if buffer.Length == 0 {
        n := 0;
      } else if readIndex == writeIndex {
        n := bytesUsed;
      } else if readIndex < writeIndex {
        n := writeIndex - readIndex;
      } else {
        n := buffer.Length - (readIndex - writeIndex);
      }
    }

    /** z_impl_k_pipe_write_avail */
    method WriteAvail() returns (n: nat)
      requires RingOk()
      ensures n == buffer.Length - |Contents()|
    {
      if buffer.Length == 0 {
        n := 0;
      } else if writeIndex == readIndex {
        n := buffer.Length - bytesUsed;
      } else if writeIndex < readIndex {
        n := readIndex - writeIndex;
      } else {
        n := buffer.Length - (writeIndex - readIndex);
      }
    }

    /** The copies of z_pipe_put_internal to its working list: each reader is served in full and readied. */
    static method ServeList(list: seq<Reader>, rest: seq<Reader>, data: seq<Byte>)
      returns (num: nat, served: seq<Reader>)
      requires Fits(Wants(list + rest), |data|) == |list|
      ensures num <= |data| && Fits(Wants(rest), |data| - num) == 0
      ensures served + Fed(rest, data[num..]) == Fed(list + rest, data)
      ensures Hungry(rest, data[num..]) == Hungry(list + rest, data)
      ensures num + Demand(rest) == Demand(list + rest)
    {
      hide Fits, Fed, Hungry, Demand, Wants;
      var xfer := list;
      num, served := 0, [];
      assert data[0..] == data;
      while xfer != []
        invariant num <= |data| && Fits(Wants(xfer + rest), |data| - num) == |xfer|
        invariant served + Fed(xfer + rest, data[num..]) == Fed(list + rest, data)
        invariant Hungry(xfer + rest, data[num..]) == Hungry(list + rest, data)
        invariant num + Demand(xfer + rest) == Demand(list + rest)
        decreases |xfer|
      {
        FedStep(xfer, rest, data[num..]);
        var n := Min(xfer[0].want, |data| - num);
        SliceOfSlice(data, num, n);
        Associative(served, [Give(xfer[0], data[num..num + n])], Fed(xfer[1..] + rest, data[num + n..]));
        served := served + [Give(xfer[0], data[num..num + n])];
        num := num + n;
        xfer := xfer[1..];
      }
      assert xfer + rest == rest;
    }

    /** The direct copies of z_pipe_put_internal: a reader left on the queue takes what is left. */
    method FeedReaders(data: seq<Byte>, moved: nat, partial: bool) returns (num: nat, served: seq<Reader>)
      requires moved == Fits(Wants(readers), |data|) && partial == (moved < |readers|)
      modifies this`readers
      ensures num == Min(|data|, Demand(old(readers)))
      ensures served == Fed(old(readers), data) && readers == Hungry(old(readers), data)
    {
      hide Fits, Fed, Hungry, Demand, Wants;
      assert readers[..moved] + readers[moved..] == readers;
      num, served := ServeList(readers[..moved], readers[moved..], data);
      readers := readers[moved..];
      FedEnd(readers, data[num..]);
      if partial {
        var n := Min(readers[0].want, |data| - num);
        assert data[num..num + n] == data[num..];
        readers := [Give(readers[0], data[num..num + n])] + readers[1..];
        num := num + n;
      }
    }

    /** Everything z_pipe_put_internal copies: first to readers, then into the ring. */
    method Pour(data: seq<Byte>, moved: nat, partial: bool) returns (num: nat, served: seq<Reader>)
      requires RingOk() && |View().ring| <= View().size
      requires moved == Fits(Wants(readers), |data|) && partial == (moved < |readers|)
      modifies this, buffer
      ensures RingOk() && View() == Poured(old(View()), data)
      ensures num == Accepts(old(View()), |data|) && served == Fed(old(readers), data)
    {
      hide Fits, Fed, Hungry, Demand, Slice;
      num, served := FeedReaders(data, moved, partial);
      ghost var direct := num;
      var more := BufferPut(data[num..]);
      num := num + more;
      assert data[direct..][..more] == data[direct..num];
      accepted, delivered := accepted + data[..num], delivered + data[..direct];
    }

    /** z_pipe_put_internal for a thread, up to the point where it pends */
    method Put(data: seq<Byte>, q: Request) returns (o: Outcome, served: seq<Reader>)
      requires Valid()
      modifies this, buffer
      ensures Valid() && (View(), o) == Pipes.Put(old(View()), data, q)
      ensures o != Returned(EINVAL, 0) && o != Returned(EIO, 0) ==> served == Fed(old(readers), data)
      ensures var taken := Min(|data|, Demand(old(readers)) + old(buffer.Length - bytesUsed));
              q.need <= |data| ==> (o.Blocked? <==> !q.noWait && taken < |data| && (q.need == 0 || taken < q.need))
    {
      hide Fed, Hungry, Demand, Slice, Wrap, Poured, StreamKept, WaitersJustified;
      PutKeepsInv(View(), data, q);
      PipeOutcomes.PutOutcome(View(), data, q);
      served := [];
      if q.need > |data| {
        return Returned(EINVAL, 0), [];
      }
      var ok, moved, partial := XferPrepare(Wants(readers), buffer.Length - bytesUsed, |data|, q.need, q.noWait);
      WantsTotal(readers);
      if !ok {
        return Returned(EIO, 0), [];
      }
      var num;
      num, served := Pour(data, moved, partial);
      if num == |data| {
        return Returned(0, num), served;
      }
      if !q.noWait && num >= q.need && q.need > 0 {
        return Returned(0, num), served;
      }
      if !q.noWait {
        writers := QueueWriter(writers, Writer(q.id, q.prio, |data|, q.need, data[num..]));
        return Blocked, served;
      }
      o := Returned(ReturnCode(q.need, |data| - num, |data|), num);
    }

    /** The reader's copies straight from the working list of z_impl_k_pipe_get. */
    method DrawFromList(list: seq<Writer>, got: seq<Byte>, want: nat) returns (left: seq<Writer>, out: seq<Byte>)
      requires |got| <= want
      ensures got <= out && |out| <= want
      ensures out + Offer(left) == got + Offer(list)
      ensures |left| <= |list| && (left != [] ==> |out| == want)
    {
      left, out := list, got;
      while left != [] && |out| < want
        invariant got <= out && |out| <= want && |left| <= |list|
        invariant out + Offer(left) == got + Offer(list)
        decreases |left|
      {
        var w := left[0];
        var n := Min(want - |out|, |w.data|);
        DirectCopy(left, out, n);
        out := out + w.data[..n];
        left := [w.(data := w.data[n..])] + left[1..];
        if |out| == want {
          break;
        }
        OfferCons(left[0], left[1..]);
        left := left[1..];
      }
    }

    /**
     The reading half of z_impl_k_pipe_get: the ring first, then the working list, then the
     writer left on the queue, of whose data `j` bytes are taken.
     */
    method DrawDirect(want: nat, moved: nat, partial: bool) returns (got: seq<Byte>, list: seq<Writer>, j: nat)
      requires Valid()
      requires moved == Fits(Lengths(writers), want) && partial == (moved < |writers|)
      modifies this`bytesUsed, this`readIndex, this`writers
      ensures RingOk() && |got| <= want && |list| <= moved
      ensures got + Contents() + (Offer(list) + Offer(writers)) == Stream(old(View()))
      ensures |got| < want ==> bytesUsed == 0 && list == [] && !partial
      ensures bytesUsed + |Offer(list)| <= old(bytesUsed)
      ensures partial ==> j <= |old(writers)[moved].data|
      ensures writers == Rest(old(writers), moved, j)
    {
      hide Slice, Wrap, Fits, Lengths, Offer, StreamKept, WaitersJustified;
      FitsBounds(writers, want);
      ghost var p := View();
      got := BufferGet(want);
      ghost var ring := Contents();
      ghost var taken := got;
      list, writers, j := writers[..moved], writers[moved..], 0;
      ghost var moving := list;
      assert p.writers == moving + writers;
      OfferAppend(moving, writers);
      list, got := DrawFromList(list, got, want);
      DrawnEq(p.ring, taken, ring, got, Offer(list), Offer(moving), Offer(writers));
      RestNone(p.writers, moved);
      NoOffer();
      if partial && |got| < want {
        assert ring == [] && list == [];
        got, j := DrawFromWaiter(got, want);
      }
    }

    /** The writer left on the queue gives what the reader still wants. */
    method DrawFromWaiter(got: seq<Byte>, want: nat) returns (got': seq<Byte>, j: nat)
      requires writers != [] && |got| <= want
      modifies this`writers
      ensures j == Min(want - |got|, |old(writers)[0].data|) && |got'| == |got| + j
      ensures writers == [old(writers)[0].(data := old(writers)[0].data[j..])] + old(writers)[1..]
      ensures got' + [] + ([] + Offer(writers)) == got + [] + ([] + Offer(old(writers)))
    {
      hide Offer;
      j := Min(want - |got|, |writers[0].data|);
      WaiterEq(writers, got, j);
      got' := got + writers[0].data[..j];
      writers := [writers[0].(data := writers[0].data[j..])] + writers[1..];
    }

    /** The working list's left-overs go into the ring, where the read has made room for them. */
    method RefillFromList(list: seq<Writer>)
      requires RingOk() && bytesUsed + |Offer(list)| <= buffer.Length
      modifies this`bytesUsed, this`writeIndex, buffer
      ensures RingOk() && Contents() == old(Contents()) + Offer(list)
    {
      hide Slice, Wrap, Offer;
      var left := list;
      while left != []
        invariant RingOk() && bytesUsed + |Offer(left)| <= buffer.Length
        invariant Contents() + Offer(left) == old(Contents()) + Offer(list)
        decreases |left|
      {
        assert left == [left[0]] + left[1..];
        OfferCons(left[0], left[1..]);
        Associative(Contents(), left[0].data, Offer(left[1..]));
        var n := BufferPut(left[0].data);
        assert left[0].data[..n] == left[0].data;
        left := left[1..];
      }
      NoOffer();
    }

    /** The writer left on the queue fills up what room is left. */
    method RefillFromWaiter() returns (n: nat)
      requires RingOk() && writers != []
      modifies this`bytesUsed, this`writeIndex, this`writers, buffer
      ensures RingOk() && n == Min(|old(writers)[0].data|, buffer.Length - old(bytesUsed))
      ensures bytesUsed == old(bytesUsed) + n
      ensures Contents() + Offer(writers) == old(Contents()) + Offer(old(writers))
      ensures writers == [old(writers)[0].(data := old(writers)[0].data[n..])] + old(writers)[1..]
    {
      hide Slice, Wrap, Offer;
      ghost var ring := Contents();
      n := BufferPut(writers[0].data);
      WaiterRefills(writers, n);
      Associative(ring, writers[0].data[..n], Offer([writers[0].(data := writers[0].data[n..])] + writers[1..]));
      writers := [writers[0].(data := writers[0].data[n..])] + writers[1..];
    }

    /** What the working list and the writer left on the queue put into the ring. */
    method Refill(list: seq<Writer>, partial: bool, ghost got: seq<Byte>) returns (n: nat)
      requires RingOk() && bytesUsed + |Offer(list)| <= buffer.Length && partial == (writers != [])
      modifies this`bytesUsed, this`writeIndex, this`writers, buffer
      ensures RingOk() && bytesUsed == old(bytesUsed) + |Offer(list)| + n
      ensures got + Contents() + Offer(writers) == got + old(Contents()) + (Offer(list) + Offer(old(writers)))
      ensures !partial ==> n == 0 && writers == old(writers)
      ensures partial ==>
                && n == Min(|old(writers)[0].data|, buffer.Length - old(bytesUsed) - |Offer(list)|)
                && writers == [old(writers)[0].(data := old(writers)[0].data[n..])] + old(writers)[1..]
    {
      hide Slice, Wrap, Offer;
      n := 0;
      RefillFromList(list);
      RefillEq(got, old(Contents()), Offer(list), Offer(writers));
      if partial {
        Associative(got, Contents(), Offer(writers));
        n := RefillFromWaiter();
        Associative(got, Contents(), Offer(writers));
      }
    }

    /** Everything z_impl_k_pipe_get copies. */
    method Draw(want: nat, moved: nat, partial: bool) returns (got: seq<Byte>)
      requires Valid()
      requires moved == Fits(Lengths(writers), want) && partial == (moved < |writers|)
      modifies this, buffer
      ensures RingOk() && View() == Drawn(old(View()), want)
      ensures got == Stream(old(View()))[..Min(want, |Stream(old(View()))|)]
    {
      hide Slice, Wrap, Offer, Fits, Lengths, StreamKept, Drawn, ReaderOk, WriterOk;
      ghost var p := View();
      assert writers != [] ==> bytesUsed == buffer.Length;
      hide Inv;
      FitsBounds(writers, want);
      var list, j;
      got, list, j := DrawDirect(want, moved, partial);
      RestOffer(p.writers, moved, j);
      RestOffer(p.writers, moved, 0);
      NoOffer();
      var n := Refill(list, partial, got);
      assert |got| + bytesUsed + |Offer(writers)| == |Stream(p)|;
      if partial {
        RestMore(p.writers, moved, j, n);
        j := j + n;
      }
      DrawnIs(p, want, got, Contents(), moved, j);
      Account(p.accepted + Stream(p)[|p.ring|..|got| + bytesUsed], p.delivered + got);
    }

    /** Takes down which bytes came and went; the pipe itself keeps no such record. */
    ghost method Account(came: seq<Byte>, went: seq<Byte>)
      requires RingOk()
      modifies this`accepted, this`delivered
      ensures RingOk() && View() == old(View()).(accepted := came, delivered := went)
    {
      hide Slice, Wrap;
      accepted, delivered := came, went;
    }

    /** z_impl_k_pipe_get, up to the point where it pends */
    method Get(want: nat, q: Request) returns (got: seq<Byte>, o: Outcome)
      requires Valid()
      modifies this, buffer
      ensures Valid() && (View(), got, o) == Pipes.Get(old(View()), want, q)
      ensures var taken := Min(want, old(bytesUsed) + |Offer(old(writers))|);
              q.need <= want ==> (o.Blocked? <==> !q.noWait && taken < want && (q.need == 0 || taken < q.need))
    {
      hide Offer, Slice, Wrap, Drawn, StreamKept, WaitersJustified;
      GetKeepsInv(View(), want, q);
      PipeOutcomes.GetOutcome(View(), want, q);
      if q.need > want {
        return [], Returned(EINVAL, 0);
      }
      var ok, moved, partial := XferPrepare(Lengths(writers), bytesUsed, want, q.need, q.noWait);
      LengthsTotal(writers);
      if !ok {
        return [], Returned(EIO, 0);
      }
      got := Draw(want, moved, partial);
      if |got| == want {
        return got, Returned(0, |got|);
      }
      if !q.noWait && |got| >= q.need && q.need > 0 {
        return got, Returned(0, |got|);
      }
      if !q.noWait {
        readers := QueueReader(readers, Reader(q.id, q.prio, want, q.need, want - |got|, got));
        return got, Blocked;
      }
      o := Returned(ReturnCode(q.need, want - |got|, want), |got|);
    }

    /** A reader's timeout expires: it comes off the queue and returns from its get. */
    method ReaderExpires(i: nat) returns (o: Outcome)
      requires Valid() && i < |readers|
      modifies this`readers
      ensures Valid() && (View(), o) == ExpireReader(old(View()), i)
    {
      var r := readers[i];
      readers := readers[..i] + readers[i + 1..];
      o := Returned(ReturnCode(r.need, r.want, r.total), r.total - r.want);
    }

    /** A writer's timeout expires: it comes off the queue and returns from its put. */
    method WriterExpires(i: nat) returns (o: Outcome)
      requires Valid() && i < |writers|
      modifies this`writers
      ensures Valid() && (View(), o) == ExpireWriter(old(View()), i)
    {
      var w := writers[i];
      writers := writers[..i] + writers[i + 1..];
      o := Returned(ReturnCode(w.need, |w.data|, w.total), w.total - |w.data|);
    }
  }
}
