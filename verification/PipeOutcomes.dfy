/**
 What callers of a pipe see: when a call returns, when it waits, with what code and how many
 bytes; who gets the bytes; and in which order those who wait stand.
 */
module PipeOutcomes {
  import opened Seqs
  import opened Pipes

  // ----- Codes and counts -----------------------------------------------------------------

  /**
   A put takes what waiting readers ask for and the ring has room for. It waits exactly when it
   may, something is left over, and its minimum is zero or not reached; it fails without effect
   when it may not wait and the minimum is out of reach; otherwise it succeeds.
   */
  lemma {:induction false} PutOutcome(p: Pipe, data: seq<Byte>, q: Request)
    requires Inv(p)
    ensures q.need > |data| ==> Put(p, data, q) == (p, Returned(-22, 0))
    ensures var room := Demand(p.readers) + p.size - |p.ring|;
            var taken := if |data| < room then |data| else room;
            var (p', o) := Put(p, data, q);
            q.need <= |data| ==>
              && (o.Blocked? <==> !q.noWait && taken < |data| && (q.need == 0 || taken < q.need))
              && (q.noWait && taken < q.need ==> o == Returned(-5, 0) && p' == p)
              && (o.Returned? && !(q.noWait && taken < q.need) ==> o == Returned(0, taken))
              && (!(q.noWait && taken < q.need) ==> p'.accepted == p.accepted + data[..taken])
  {
  }

  /** A get takes from the ring and the waiting writers, and waits, fails or succeeds by the same rule. */
  lemma {:induction false} GetOutcome(p: Pipe, want: nat, q: Request)
    requires Inv(p)
    ensures q.need > want ==> Get(p, want, q) == (p, [], Returned(-22, 0))
    ensures var all := p.ring + Offer(p.writers);
            var taken := if want < |all| then want else |all|;
            var (p', got, o) := Get(p, want, q);
            q.need <= want ==>
              && (o.Blocked? <==> !q.noWait && taken < want && (q.need == 0 || taken < q.need))
              && (q.noWait && taken < q.need ==> o == Returned(-5, 0) && p' == p && got == [])
              && (o.Returned? && !(q.noWait && taken < q.need) ==> o == Returned(0, taken))
              && (!(q.noWait && taken < q.need) ==> got == all[..taken])
  {
  }

  /** A waiter that times out reports what it moved, and succeeds exactly if that is its minimum. */
  lemma {:induction false} TimeoutOutcome(p: Pipe, i: nat)
    requires Inv(p)
    ensures i < |p.readers| ==>
              var r := p.readers[i];
              && ExpireReader(p, i).1 == Returned(if |r.got| >= r.need then 0 else -11, |r.got|)
              && ExpireReader(p, i).0 == p.(readers := Dropped(p.readers, i))
    ensures i < |p.writers| ==>
              var w := p.writers[i];
              && ExpireWriter(p, i).1 ==
                 Returned(if w.total - |w.data| >= w.need then 0 else -11, w.total - |w.data|)
              && ExpireWriter(p, i).0 == p.(writers := Dropped(p.writers, i))
  {
  }

  // ----- Who gets the bytes ---------------------------------------------------------------

  /** Waiting readers get the front of a put, one after the other, and the ring what it takes of the rest. */
  lemma {:induction false} PutFeedsReaders(p: Pipe, data: seq<Byte>, q: Request)
    requires Inv(p) && Put(p, data, q).0 != p
    ensures var p' := Put(p, data, q).0;
            var direct := if |data| < Demand(p.readers) then |data| else Demand(p.readers);
            var taken := |p'.accepted| - |p.accepted|;
            && Grown(p.readers, Fed(p.readers, data) + p'.readers)
            && Received(p.readers, Fed(p.readers, data) + p'.readers) == data[..direct]
            && direct <= taken <= |data| && p'.ring == p.ring + data[direct..taken]
  {
    hide Received, Fed, Hungry, Grown, Demand, Offer, QueueWriter, StreamKept, WaitersJustified;
    FedInOrder(p.readers, data);
    var taken := Accepts(p, |data|);
    var p' := Put(p, data, q).0;
    assert p'.readers == Hungry(p.readers, data);
    assert p'.accepted == p.accepted + data[..taken];
  }

  /** What a get does not take stays, in order, and the ring holds as much of it as it can. */
  lemma {:induction false} GetLeavesTheRest(p: Pipe, want: nat, q: Request)
    requires Inv(p)
    ensures var (p', got, o) := Get(p, want, q);
            && got + (p'.ring + Offer(p'.writers)) == p.ring + Offer(p.writers)
            && (p'.writers != [] ==> |p'.ring| == p.size)
  {
    hide StreamKept, Drawn, Offer;
    DrawnLeavesTheRest(p, want);
    DrawnKeepsInv(p, want);
    assert [] + Stream(p) == Stream(p);
  }

  lemma {:induction false} DrawnLeavesTheRest(p: Pipe, want: nat)
    requires Inv(p)
    ensures Stream(p)[..Min(want, |Stream(p)|)] + Stream(Drawn(p, want)) == Stream(p)
    ensures Drawn(p, want).size == p.size
  {
    hide StreamKept, Offer, Consume;
    var s := Stream(p);
    var out := Min(want, |s|);
    var end := out + Min(p.size, |s| - out);
    ConsumeTakesFront(p.writers, end - |p.ring|);
    assert Offer(Drawn(p, want).writers) == s[end..];
    assert s[..out] + (s[out..end] + s[end..]) == s;
  }

  // ----- The order of those who wait ------------------------------------------------------

  predicate ReadersByPrio(readers: seq<Reader>) {
    forall i, j | 0 <= i < j < |readers| :: readers[i].prio <= readers[j].prio
  }

  predicate WritersByPrio(writers: seq<Writer>) {
    forall i, j | 0 <= i < j < |writers| :: writers[i].prio <= writers[j].prio
  }

  /** A reader that starts to wait stands behind all of the same or a higher priority, and before the others. */
  lemma {:induction false} ReaderStandsLast(readers: seq<Reader>, r: Reader) returns (k: nat)
    requires ReadersByPrio(readers)
    ensures k <= |readers| && QueueReader(readers, r) == Spliced(readers, k, r)
    ensures forall i | 0 <= i < k :: readers[i].prio <= r.prio
    ensures forall i | k <= i < |readers| :: r.prio < readers[i].prio
  {
    if readers == [] || r.prio < readers[0].prio {
      k := 0;
    } else {
      k := ReaderStandsLast(readers[1..], r);
      k := k + 1;
      SplicedTail(readers, k, r);
      assert forall i | 1 <= i < |readers| :: readers[i] == readers[1..][i - 1];
    }
  }

  lemma {:induction false} WriterStandsLast(writers: seq<Writer>, w: Writer) returns (k: nat)
    requires WritersByPrio(writers)
    ensures k <= |writers| && QueueWriter(writers, w) == Spliced(writers, k, w)
    ensures forall i | 0 <= i < k :: writers[i].prio <= w.prio
    ensures forall i | k <= i < |writers| :: w.prio < writers[i].prio
  {
    if writers == [] || w.prio < writers[0].prio {
      k := 0;
    } else {
      k := WriterStandsLast(writers[1..], w);
      k := k + 1;
      SplicedTail(writers, k, w);
      assert forall i | 1 <= i < |writers| :: writers[i] == writers[1..][i - 1];
    }
  }

  ghost predicate InOrder(p: Pipe) {
    ReadersByPrio(p.readers) && WritersByPrio(p.writers)
  }

  /** Those left hungry are the last of those who waited. */
  lemma {:induction false} HungryInOrder(readers: seq<Reader>, data: seq<Byte>)
    requires ReadersByPrio(readers)
    ensures ReadersByPrio(Hungry(readers, data))
  {
    if readers != [] && |data| >= readers[0].want {
      HungryInOrder(readers[1..], data[readers[0].want..]);
    }
  }

  lemma {:induction false} ConsumeInOrder(writers: seq<Writer>, n: nat)
    requires WritersByPrio(writers)
    ensures WritersByPrio(Consume(writers, n))
  {
    if writers != [] && |writers[0].data| <= n {
      ConsumeInOrder(writers[1..], n - |writers[0].data|);
    }
  }

  lemma {:induction false} PutInOrder(p: Pipe, data: seq<Byte>, q: Request)
    requires Inv(p) && InOrder(p)
    ensures InOrder(Put(p, data, q).0)
  {
    hide StreamKept, WaitersJustified, Hungry, QueueWriter;
    HungryInOrder(p.readers, data);
    var n := Accepts(p, |data|);
    var k := WriterStandsLast(p.writers, Writer(q.id, q.prio, |data|, q.need, data[n..]));
  }

  lemma {:induction false} GetInOrder(p: Pipe, want: nat, q: Request)
    requires Inv(p) && InOrder(p)
    ensures InOrder(Get(p, want, q).0)
  {
    hide StreamKept, WaitersJustified, Consume, QueueReader, Offer;
    var s := Stream(p);
    var out := Min(want, |s|);
    var end := out + Min(p.size, |s| - out);
    ConsumeInOrder(p.writers, end - |p.ring|);
    var k := ReaderStandsLast(p.readers, Reader(q.id, q.prio, want, q.need, want - out, s[..out]));
  }

  lemma {:induction false} StepInOrder(p: Pipe, call: Call)
    requires Inv(p) && InOrder(p)
    ensures InOrder(Step(p, call))
  {
    match call
    case PutCall(data, q) => PutInOrder(p, data, q);
    case GetCall(want, q) => GetInOrder(p, want, q);
    case ReaderTimeout(i) =>
    case WriterTimeout(i) =>
  }

  /** After every run those who wait stand in order of priority. */
  lemma {:induction false} EveryRunInOrder(p: Pipe, calls: seq<Call>)
    requires Inv(p) && InOrder(p)
    ensures InOrder(Run(p, calls))
    decreases calls
  {
    if calls != [] {
      StepInOrder(p, calls[0]);
      EveryRunInOrder(Step(p, calls[0]), calls[1..]);
    }
  }
}
