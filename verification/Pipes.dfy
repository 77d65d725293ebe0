/**
 Pipes (kernel/pipes.c): a bounded byte stream with direct hand-off between readers and writers.

 This module says what a put and a get do in terms of the stream alone. The working lists,
 the two-pass copies and the ring indices by which the kernel does it are in KPipes.
 */
module Pipes {
  import opened Seqs

  /** A thread pended in a put: the bytes it has not handed over yet. */
  datatype Writer = Writer(id: nat, prio: int, total: nat, need: nat, data: seq<Byte>)

  /** A thread pended in a get: how much it still wants, and what it has got. */
  datatype Reader = Reader(id: nat, prio: int, total: nat, need: nat, want: nat, got: seq<Byte>)

  /** `accepted` and `delivered` record every byte taken from a writer and given to a reader. */
  datatype Pipe = Pipe(size: nat, ring: seq<Byte>, readers: seq<Reader>, writers: seq<Writer>,
                       accepted: seq<Byte>, delivered: seq<Byte>)

  const EIO := -5
  const EAGAIN := -11
  const EINVAL := -22

  datatype Outcome = Returned(code: int, bytes: nat) | Blocked

  function Min(a: nat, b: nat): nat {
    if a < b then a else b
  }

  // ----- Waiting threads ------------------------------------------------------------------

  /** Everything the waiting writers have to offer, in the order it will be taken. */
  function Offer(writers: seq<Writer>): seq<Byte> {
    if writers == [] then [] else writers[0].data + Offer(writers[1..])
  }

  /** Everything the waiting readers ask for. */
  function Demand(readers: seq<Reader>): nat {
    if readers == [] then 0 else readers[0].want + Demand(readers[1..])
  }

  function Give(r: Reader, data: seq<Byte>): Reader
    requires |data| <= r.want
  {
    r.(want := r.want - |data|, got := r.got + data)
  }

  /** The readers that a put of `data` satisfies, each with the bytes it got. */
  function Fed(readers: seq<Reader>, data: seq<Byte>): seq<Reader> {
    if readers == [] || |data| < readers[0].want then []
    else [Give(readers[0], data[..readers[0].want])] + Fed(readers[1..], data[readers[0].want..])
  }

  /** The readers that are left waiting, the first of them with what was left for it. */
  function Hungry(readers: seq<Reader>, data: seq<Byte>): seq<Reader> {
    if readers == [] then []
    else if |data| < readers[0].want then [Give(readers[0], data)] + readers[1..]
    else Hungry(readers[1..], data[readers[0].want..])
  }

  /** The writers that remain when `n` bytes have been taken from the front. */
  function Consume(writers: seq<Writer>, n: nat): seq<Writer> {
    if writers == [] then []
    else if |writers[0].data| <= n then Consume(writers[1..], n - |writers[0].data|)
    else [writers[0].(data := writers[0].data[n..])] + writers[1..]
  }

  /** z_priq_dumb_add on a wait queue: after all threads of the same or higher priority. */
  function QueueReader(readers: seq<Reader>, r: Reader): seq<Reader> {
    if readers == [] || r.prio < readers[0].prio then [r] + readers
    else [readers[0]] + QueueReader(readers[1..], r)
  }

  function QueueWriter(writers: seq<Writer>, w: Writer): seq<Writer> {
    if writers == [] || w.prio < writers[0].prio then [w] + writers
    else [writers[0]] + QueueWriter(writers[1..], w)
  }

  // ----- Put and get ----------------------------------------------------------------------

  /** pipe_return_code */
  function ReturnCode(need: nat, remaining: nat, requested: nat): int
    requires remaining <= requested
  {
    if requested - remaining >= need then 0 else EAGAIN
  }

  /** How many of `n` offered bytes a pipe takes at once. */
  function Accepts(p: Pipe, n: nat): nat
    requires |p.ring| <= p.size
  {
    Min(n, Demand(p.readers) + (p.size - |p.ring|))
  }

  /** The stream as a reader sees it: first the buffered bytes, then what writers wait to add. */
  function Stream(p: Pipe): seq<Byte> {
    p.ring + Offer(p.writers)
  }

  /** Readers are fed first; the ring takes what it can of the rest. */
  function Poured(p: Pipe, data: seq<Byte>): Pipe
    requires |p.ring| <= p.size
  {
    var direct := Min(|data|, Demand(p.readers));
    var taken := Accepts(p, |data|);
    Pipe(p.size, p.ring + data[direct..taken], Hungry(p.readers, data), p.writers,
         p.accepted + data[..taken], p.delivered + data[..direct])
  }

  /** The front of the stream goes to the reader, and the ring is filled up again from the rest. */
  function Drawn(p: Pipe, n: nat): Pipe
    requires |p.ring| <= p.size
  {
    var s := Stream(p);
    var out := Min(n, |s|);
    var end := out + Min(p.size, |s| - out);
    Pipe(p.size, s[out..end], p.readers, Consume(p.writers, end - |p.ring|),
         p.accepted + s[|p.ring|..end], p.delivered + s[..out])
  }

  datatype Request = Request(id: nat, prio: int, need: nat, noWait: bool)

  function Put(p: Pipe, data: seq<Byte>, q: Request): (Pipe, Outcome)
    requires |p.ring| <= p.size
  {
    if q.need > |data| then
      (p, Returned(EINVAL, 0))
    else if q.noWait && Accepts(p, |data|) < q.need then
      (p, Returned(EIO, 0))
    else
      var n := Accepts(p, |data|);
      var p' := Poured(p, data);
      if n == |data| || (!q.noWait && n >= q.need && q.need > 0) then
        (p', Returned(0, n))
      else if q.noWait then
        (p', Returned(ReturnCode(q.need, |data| - n, |data|), n))
      else
        (p'.(writers := QueueWriter(p'.writers, Writer(q.id, q.prio, |data|, q.need, data[n..]))), Blocked)
  }

  function Get(p: Pipe, want: nat, q: Request): (Pipe, seq<Byte>, Outcome)
    requires |p.ring| <= p.size
  {
    var n := Min(want, |Stream(p)|);
    if q.need > want then
      (p, [], Returned(EINVAL, 0))
    else if q.noWait && n < q.need then
      (p, [], Returned(EIO, 0))
    else
      var p' := Drawn(p, want);
      var got := Stream(p)[..n];
      if n == want || (!q.noWait && n >= q.need && q.need > 0) then
        (p', got, Returned(0, n))
      else if q.noWait then
        (p', got, Returned(ReturnCode(q.need, want - n, want), n))
      else
        (p'.(readers := QueueReader(p'.readers, Reader(q.id, q.prio, want, q.need, want - n, got))), got, Blocked)
  }

  /** A waiting thread's timeout expires: it leaves its queue and returns with what it has moved. */
  function ExpireReader(p: Pipe, i: nat): (Pipe, Outcome)
    requires i < |p.readers| && p.readers[i].want <= p.readers[i].total
  {
    var r := p.readers[i];
    (p.(readers := p.readers[..i] + p.readers[i + 1..]),
     Returned(ReturnCode(r.need, r.want, r.total), r.total - r.want))
  }

  function ExpireWriter(p: Pipe, i: nat): (Pipe, Outcome)
    requires i < |p.writers| && |p.writers[i].data| <= p.writers[i].total
  {
    var w := p.writers[i];
    (p.(writers := p.writers[..i] + p.writers[i + 1..]),
     Returned(ReturnCode(w.need, |w.data|, w.total), w.total - |w.data|))
  }

  // ----- The invariant --------------------------------------------------------------------

  predicate ReaderOk(r: Reader) {
    0 < r.want <= r.total && |r.got| == r.total - r.want
  }

  predicate WriterOk(w: Writer) {
    0 < |w.data| <= w.total
  }

  /** Nothing is lost, repeated or reordered between the writers and the readers. */
  predicate StreamKept(p: Pipe) {
    p.delivered + p.ring == p.accepted
  }

  /** Readers wait only on an empty ring, writers only on a full one, and never both at once. */
  predicate WaitersJustified(p: Pipe) {
    && (p.readers != [] ==> p.ring == [])
    && (p.writers != [] ==> |p.ring| == p.size)
    && (p.readers == [] || p.writers == [])
  }

  predicate Inv(p: Pipe) {
    && |p.ring| <= p.size
    && StreamKept(p)
    && WaitersJustified(p)
    && (forall i | 0 <= i < |p.readers| :: ReaderOk(p.readers[i]))
    && (forall i | 0 <= i < |p.writers| :: WriterOk(p.writers[i]))
  }

  // ----- What a put does to the readers ---------------------------------------------------

  /** Those who are fed leave with all they asked for; those who stay still want something. */
  lemma {:induction false} FedIsSatisfied(readers: seq<Reader>, data: seq<Byte>)
    requires forall i | 0 <= i < |readers| :: ReaderOk(readers[i])
    ensures |Fed(readers, data)| + |Hungry(readers, data)| == |readers|
    ensures forall i | 0 <= i < |Fed(readers, data)| ::
              Fed(readers, data)[i].want == 0 && |Fed(readers, data)[i].got| == readers[i].total
    ensures forall i | 0 <= i < |Hungry(readers, data)| :: ReaderOk(Hungry(readers, data)[i])
    ensures Hungry(readers, data) == [] <==> Demand(readers) <= |data|
  {
    if readers != [] && |data| >= readers[0].want {
      FedIsSatisfied(readers[1..], data[readers[0].want..]);
    }
  }

  predicate Grown(before: seq<Reader>, after: seq<Reader>) {
    |before| == |after| && forall i | 0 <= i < |before| :: before[i].id == after[i].id && before[i].got <= after[i].got
  }

  /** The bytes that the readers got out of a put, one after the other. */
  function Received(before: seq<Reader>, after: seq<Reader>): seq<Byte>
    requires Grown(before, after)
  {
    if before == [] then [] else after[0].got[|before[0].got|..] + Received(before[1..], after[1..])
  }

  lemma {:induction false} ReceivedCons(r: Reader, before: seq<Reader>, x: Reader, after: seq<Reader>)
    requires Grown(before, after) && r.id == x.id && r.got <= x.got
    ensures Grown([r] + before, [x] + after)
    ensures Received([r] + before, [x] + after) == x.got[|r.got|..] + Received(before, after)
  {
  }

  /** What the readers received is exactly the front of what was put, in order. */
  lemma {:induction false} FedInOrder(readers: seq<Reader>, data: seq<Byte>)
    ensures Grown(readers, Fed(readers, data) + Hungry(readers, data))
    ensures Received(readers, Fed(readers, data) + Hungry(readers, data)) == data[..Min(|data|, Demand(readers))]
  {
    if readers != [] {
      if |data| < readers[0].want {
        LastIsFed(readers, data);
      } else {
        FedInOrder(readers[1..], data[readers[0].want..]);
        FirstIsFed(readers, data);
      }
    }
  }

  lemma {:induction false} LastIsFed(readers: seq<Reader>, data: seq<Byte>)
    requires readers != [] && |data| < readers[0].want
    ensures Grown(readers, Fed(readers, data) + Hungry(readers, data))
    ensures Received(readers, Fed(readers, data) + Hungry(readers, data)) == data
            == data[..Min(|data|, Demand(readers))]
  {
    var r, tail := readers[0], readers[1..];
    assert Fed(readers, data) == [] && Hungry(readers, data) == [Give(r, data)] + tail;
    hide Fed, Hungry, Received;
    assert readers == [r] + tail && [] + Hungry(readers, data) == Hungry(readers, data);
    NothingReceived(tail);
    ReceivedCons(r, tail, Give(r, data), tail);
    assert Give(r, data).got[|r.got|..] + [] == data;
  }

  lemma {:induction false} FirstIsFed(readers: seq<Reader>, data: seq<Byte>)
    requires readers != [] && |data| >= readers[0].want
    requires var rest := Fed(readers[1..], data[readers[0].want..]) + Hungry(readers[1..], data[readers[0].want..]);
             Grown(readers[1..], rest)
             && Received(readers[1..], rest)
               == data[readers[0].want..][..Min(|data| - readers[0].want, Demand(readers[1..]))]
    ensures Grown(readers, Fed(readers, data) + Hungry(readers, data))
    ensures Received(readers, Fed(readers, data) + Hungry(readers, data)) == data[..Min(|data|, Demand(readers))]
  {
    var r, tail := readers[0], readers[1..];
    var x, left := Give(r, data[..r.want]), data[r.want..];
    assert Fed(readers, data) == [x] + Fed(tail, left) && Hungry(readers, data) == Hungry(tail, left);
    hide Fed, Hungry, Received;
    assert readers == [r] + tail;
    Associative([x], Fed(tail, left), Hungry(tail, left));
    ReceivedCons(r, tail, x, Fed(tail, left) + Hungry(tail, left));
    assert x.got[|r.got|..] == data[..r.want];
    TakeMore(data, r.want, Min(|data| - r.want, Demand(tail)));
  }

  lemma {:induction false} TakeMore(data: seq<Byte>, n: nat, m: nat)
    requires n + m <= |data|
    ensures data[..n] + data[n..][..m] == data[..n + m]
  {
  }

  lemma {:induction false} NothingReceived(readers: seq<Reader>)
    ensures Grown(readers, readers) && Received(readers, readers) == []
  {
    if readers != [] {
      NothingReceived(readers[1..]);
    }
  }

  // ----- What a get does to the writers ---------------------------------------------------

  /** Taking bytes from the front of the writers is taking them from the front of their offer. */
  lemma {:induction false} ConsumeTakesFront(writers: seq<Writer>, n: nat)
    requires n <= |Offer(writers)|
    requires forall i | 0 <= i < |writers| :: WriterOk(writers[i])
    ensures Offer(Consume(writers, n)) == Offer(writers)[n..]
    ensures forall i | 0 <= i < |Consume(writers, n)| :: WriterOk(Consume(writers, n)[i])
    ensures Consume(writers, n) == [] <==> n == |Offer(writers)|
  {
    if writers != [] {
      var w := writers[0];
      if |w.data| <= n {
        ConsumeTakesFront(writers[1..], n - |w.data|);
        assert Offer(writers)[n..] == Offer(writers[1..])[n - |w.data|..];
      } else {
        var left := [w.(data := w.data[n..])] + writers[1..];
        assert left[1..] == writers[1..];
        assert Offer(left) == w.data[n..] + Offer(writers[1..]);
      }
    }
  }

  // ----- Every call keeps the invariant ---------------------------------------------------

  lemma {:induction false} PouredKeepsInv(p: Pipe, data: seq<Byte>)
    requires Inv(p)
    ensures Inv(Poured(p, data))
    ensures Accepts(p, |data|) < |data| ==> Poured(p, data).readers == [] && |Poured(p, data).ring| == p.size
  {
    var direct := Min(|data|, Demand(p.readers));
    var taken := Accepts(p, |data|);
    var p' := Poured(p, data);
    FedIsSatisfied(p.readers, data);
    if p.readers == [] {
      assert direct == 0;
      assert p'.delivered + p'.ring == p.delivered + p.ring + data[..taken];
    } else {
      assert p'.delivered + p'.ring == p.delivered + (data[..direct] + data[direct..taken]);
      assert data[..direct] + data[direct..taken] == data[..taken];
    }
  }

  lemma {:induction false} DrawnKeepsInv(p: Pipe, n: nat)
    requires Inv(p)
    ensures Inv(Drawn(p, n))
    ensures n > |Stream(p)| ==> Drawn(p, n).writers == [] && Drawn(p, n).ring == []
  {
    hide StreamKept;
    var s := Stream(p);
    var out := Min(n, |s|);
    var end := out + Min(p.size, |s| - out);
    ConsumeTakesFront(p.writers, end - |p.ring|);
    DrawnKeepsStream(p, n);
  }

  lemma {:induction false} DrawnKeepsStream(p: Pipe, n: nat)
    requires |p.ring| <= p.size && StreamKept(p)
    ensures StreamKept(Drawn(p, n))
  {
  }

  lemma {:induction false} QueuedReaders(readers: seq<Reader>, r: Reader)
    requires ReaderOk(r) && forall i | 0 <= i < |readers| :: ReaderOk(readers[i])
    ensures QueueReader(readers, r) != []
    ensures forall i | 0 <= i < |QueueReader(readers, r)| :: ReaderOk(QueueReader(readers, r)[i])
  {
    if readers != [] && r.prio >= readers[0].prio {
      QueuedReaders(readers[1..], r);
    }
  }

  lemma {:induction false} QueuedWriters(writers: seq<Writer>, w: Writer)
    requires WriterOk(w) && forall i | 0 <= i < |writers| :: WriterOk(writers[i])
    ensures QueueWriter(writers, w) != []
    ensures forall i | 0 <= i < |QueueWriter(writers, w)| :: WriterOk(QueueWriter(writers, w)[i])
  {
    if writers != [] && w.prio >= writers[0].prio {
      QueuedWriters(writers[1..], w);
    }
  }

  lemma {:induction false} PutKeepsInv(p: Pipe, data: seq<Byte>, q: Request)
    requires Inv(p)
    ensures Inv(Put(p, data, q).0)
  {
    hide StreamKept;
    PouredKeepsInv(p, data);
    if Put(p, data, q).1 == Blocked {
      var n := Accepts(p, |data|);
      QueuedWriters(p.writers, Writer(q.id, q.prio, |data|, q.need, data[n..]));
      SameStream(Poured(p, data), Put(p, data, q).0);
    }
  }

  lemma {:induction false} GetKeepsInv(p: Pipe, want: nat, q: Request)
    requires Inv(p)
    ensures Inv(Get(p, want, q).0)
  {
    hide StreamKept;
    DrawnKeepsInv(p, want);
    if Get(p, want, q).2 == Blocked {
      var n := |Stream(p)|;
      QueuedReaders(p.readers, Reader(q.id, q.prio, want, q.need, want - n, Stream(p)[..n]));
      SameStream(Drawn(p, want), Get(p, want, q).0);
    }
  }

  lemma {:induction false} SameStream(p: Pipe, p': Pipe)
    requires StreamKept(p) && p'.ring == p.ring && p'.accepted == p.accepted && p'.delivered == p.delivered
    ensures StreamKept(p')
  {
  }

  // ----- Whole runs -----------------------------------------------------------------------

  datatype Call =
    | PutCall(data: seq<Byte>, request: Request)
    | GetCall(want: nat, request: Request)
    | ReaderTimeout(i: nat)
    | WriterTimeout(i: nat)

  /** A timeout only concerns a thread that is waiting. */
  function Step(p: Pipe, call: Call): (p': Pipe)
    requires Inv(p)
    ensures Inv(p')
  {
    match call
    case PutCall(data, q) => PutKeepsInv(p, data, q); Put(p, data, q).0
    case GetCall(want, q) => GetKeepsInv(p, want, q); Get(p, want, q).0
    case ReaderTimeout(i) => if i < |p.readers| then ExpireReader(p, i).0 else p
    case WriterTimeout(i) => if i < |p.writers| then ExpireWriter(p, i).0 else p
  }

  function Run(p: Pipe, calls: seq<Call>): Pipe
    requires Inv(p)
    decreases calls
  {
    if calls == [] then p else Run(Step(p, calls[0]), calls[1..])
  }

  function Fresh(size: nat): Pipe {
    Pipe(size, [], [], [], [], [])
  }

  /**
   Over every run of puts, gets and expiries, from a fresh pipe on: the bytes delivered to
   readers, followed by the bytes in the ring, are the bytes accepted from writers, in the same
   order; and readers wait only on an empty ring, writers only on a full one, never both.
   */
  lemma {:induction false} EveryRun(p: Pipe, calls: seq<Call>)
    requires Inv(p)
    ensures Inv(Run(p, calls))
    decreases calls
  {
    if calls != [] {
      EveryRun(Step(p, calls[0]), calls[1..]);
    }
  }

  lemma {:induction false} FreshIsValid(size: nat)
    ensures Inv(Fresh(size))
  {
  }

  /** A call that may not wait fails without effect, or moves at least the minimum. */
  lemma {:induction false} NoWaitAllOrNothing(p: Pipe, data: seq<Byte>, want: nat, q: Request)
    requires Inv(p) && q.noWait
    ensures q.need <= |data| ==>
              var (p', o) := Put(p, data, q);
              (o == Returned(EIO, 0) && p' == p) || (o.Returned? && o.code == 0 && o.bytes >= q.need)
    ensures q.need <= want ==>
              var (p', got, o) := Get(p, want, q);
              (o == Returned(EIO, 0) && p' == p) || (o.Returned? && o.code == 0 && o.bytes == |got| >= q.need)
  {
  }

  /** A put reports exactly what it accepted, and succeeds exactly with the minimum; what waits is the rest. */
  lemma {:induction false} PutReportsAccepted(p: Pipe, data: seq<Byte>, q: Request)
    requires Inv(p) && q.need <= |data|
    ensures var (p', o) := Put(p, data, q);
            match o
            case Returned(code, bytes) =>
              bytes <= |data| && p'.accepted == p.accepted + data[..bytes] && (code == 0 <==> bytes >= q.need)
            case Blocked =>
              var n := Accepts(p, |data|);
              p'.accepted == p.accepted + data[..n] && Writer(q.id, q.prio, |data|, q.need, data[n..]) in p'.writers
    ensures var room := Demand(p.readers) + p.size - |p.ring|;
            Put(p, data, q).1.Blocked? <==> !q.noWait && room < |data| && (q.need == 0 || room < q.need)
  {
    var n := Accepts(p, |data|);
    WriterIsQueued(p.writers, Writer(q.id, q.prio, |data|, q.need, data[n..]));
    assert data[..0] == [];
  }

  /** A get reports exactly what was delivered to it, and succeeds exactly with the minimum. */
  lemma {:induction false} GetReportsDelivered(p: Pipe, want: nat, q: Request)
    requires Inv(p) && q.need <= want
    ensures var (p', got, o) := Get(p, want, q);
            && p'.delivered == p.delivered + got
            && (o.Returned? ==> o.bytes == |got| <= want && (o.code == 0 <==> o.bytes >= q.need))
            && (o.Blocked? ==> Reader(q.id, q.prio, want, q.need, want - |got|, got) in p'.readers)
  {
    var n := Min(want, |Stream(p)|);
    var got := Stream(p)[..n];
    ReaderIsQueued(p.readers, Reader(q.id, q.prio, want, q.need, want - n, got));
  }

  lemma {:induction false} WriterIsQueued(writers: seq<Writer>, w: Writer)
    ensures w in QueueWriter(writers, w)
  {
    if writers != [] && w.prio >= writers[0].prio {
      WriterIsQueued(writers[1..], w);
    }
  }

  lemma {:induction false} ReaderIsQueued(readers: seq<Reader>, r: Reader)
    ensures r in QueueReader(readers, r)
  {
    if readers != [] && r.prio >= readers[0].prio {
      ReaderIsQueued(readers[1..], r);
    }
  }
}
