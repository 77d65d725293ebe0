/**
 Wait queues: threads in order of priority, and among equals in order of arrival. `data` is
 what the thread's `swap_data` points to while it waits.
 */
module WaitQueues {
  import opened Seqs

  datatype Waiter<T> = Waiter(id: nat, prio: int, data: T)

  /** z_priq_dumb_add */
  function Insert<T>(q: seq<Waiter<T>>, w: Waiter<T>): seq<Waiter<T>> {
    if q == [] || w.prio < q[0].prio then [w] + q else [q[0]] + Insert(q[1..], w)
  }

  /** z_priq_dumb_remove */
  function Drop<T>(q: seq<Waiter<T>>, id: nat): seq<Waiter<T>> {
    if q == [] then [] else if q[0].id == id then q[1..] else [q[0]] + Drop(q[1..], id)
  }

  predicate Has<T>(q: seq<Waiter<T>>, id: nat) {
    exists i :: 0 <= i < |q| && q[i].id == id
  }

  /** No thread waits twice, and the queue is in order of priority. */
  predicate Ordered<T>(q: seq<Waiter<T>>) {
    forall i, j | 0 <= i < j < |q| :: q[i].id != q[j].id && q[i].prio <= q[j].prio
  }

  lemma {:induction false} Members<T>(q: seq<Waiter<T>>, w: Waiter<T>)
    ensures |Insert(q, w)| == |q| + 1
    ensures forall i | 0 <= i < |Insert(q, w)| :: Insert(q, w)[i] == w || Insert(q, w)[i] in q
    ensures w in Insert(q, w) && forall i | 0 <= i < |q| :: q[i] in Insert(q, w)
  {
    if q != [] && w.prio >= q[0].prio {
      Members(q[1..], w);
      assert q == [q[0]] + q[1..];
    }
  }

  lemma {:induction false} InsertOrdered<T>(q: seq<Waiter<T>>, w: Waiter<T>)
    requires Ordered(q) && !Has(q, w.id)
    ensures Ordered(Insert(q, w))
  {
    if q != [] && w.prio >= q[0].prio {
      var rest := Insert(q[1..], w);
      assert forall i | 0 <= i < |q[1..]| :: q[1..][i] == q[i + 1];
      InsertOrdered(q[1..], w);
      Members(q[1..], w);
      forall i | 0 <= i < |rest| ensures rest[i].id != q[0].id && q[0].prio <= rest[i].prio {
        if rest[i] != w {
          FirstOrders(q, rest[i]);
        }
      }
    }
  }

  /** A thread that starts to wait stands behind all of the same or a higher priority, and before the others. */
  lemma {:induction false} StandsLast<T>(q: seq<Waiter<T>>, w: Waiter<T>) returns (k: nat)
    requires forall i, j | 0 <= i < j < |q| :: q[i].prio <= q[j].prio
    ensures k <= |q| && Insert(q, w) == Spliced(q, k, w)
    ensures forall i | 0 <= i < k :: q[i].prio <= w.prio
    ensures forall i | k <= i < |q| :: w.prio < q[i].prio
  {
    if q == [] || w.prio < q[0].prio {
      k := 0;
    } else {
      k := StandsLast(q[1..], w);
      k := k + 1;
      SplicedTail(q, k, w);
      assert forall i | 1 <= i < |q| :: q[i] == q[1..][i - 1];
    }
  }

  /** The thread has joined the queue, last among those of its priority. */
  ghost predicate Queued<T>(before: seq<Waiter<T>>, after: seq<Waiter<T>>, w: Waiter<T>) {
    exists k | 0 <= k <= |before| :: QueuedAt(before, after, w, k)
  }

  predicate QueuedAt<T(==)>(before: seq<Waiter<T>>, after: seq<Waiter<T>>, w: Waiter<T>, k: nat)
    requires k <= |before|
  {
    && after == Spliced(before, k, w)
    && (forall i | 0 <= i < k :: before[i].prio <= w.prio)
    && (forall i | k <= i < |before| :: w.prio < before[i].prio)
  }

  lemma {:induction false} InsertQueues<T>(q: seq<Waiter<T>>, w: Waiter<T>)
    requires forall i, j | 0 <= i < j < |q| :: q[i].prio <= q[j].prio
    ensures Queued(q, Insert(q, w), w)
  {
    var k := StandsLast(q, w);
    assert QueuedAt(q, Insert(q, w), w, k);
  }

  /** The thread has left the queue, and the others are in their order. */
  ghost predicate Left<T>(before: seq<Waiter<T>>, after: seq<Waiter<T>>, id: nat) {
    exists k | 0 <= k < |before| :: before[k].id == id && after == Dropped(before, k)
  }

  lemma {:induction false} DropLeaves<T>(q: seq<Waiter<T>>, id: nat)
    requires Has(q, id)
    ensures Left(q, Drop(q, id), id)
  {
    var k := DropIsOne(q, id);
    assert q[k].id == id;
  }

  /** The thread that leaves a wait queue leaves the others in their order. */
  lemma {:induction false} DropIsOne<T>(q: seq<Waiter<T>>, id: nat) returns (k: nat)
    requires Has(q, id)
    ensures k < |q| && q[k].id == id && Drop(q, id) == Dropped(q, k)
  {
    if q[0].id == id {
      k := 0;
    } else {
      var i :| 0 <= i < |q| && q[i].id == id;
      assert q[1..][i - 1].id == id;
      k := DropIsOne(q[1..], id);
      k := k + 1;
    }
  }

  lemma {:induction false} FirstOrders<T>(q: seq<Waiter<T>>, x: Waiter<T>)
    requires q != [] && Ordered(q) && x in q[1..]
    ensures x.id != q[0].id && q[0].prio <= x.prio
  {
  }

  /** A waiter is dropped with its whole entry, and only that one. */
  lemma {:induction false} DropMembers<T>(q: seq<Waiter<T>>, id: nat)
    requires Ordered(q)
    ensures forall i | 0 <= i < |Drop(q, id)| :: Drop(q, id)[i] in q && Drop(q, id)[i].id != id
    ensures forall i | 0 <= i < |q| && q[i].id != id :: q[i] in Drop(q, id)
    ensures Ordered(Drop(q, id))
  {
    if q != [] {
      forall i | 0 <= i < |q[1..]| ensures q[1..][i].id != q[0].id && q[0].prio <= q[1..][i].prio {
        assert q[1..][i] == q[i + 1];
      }
      if q[0].id != id {
        DropMembers(q[1..], id);
        var rest := Drop(q[1..], id);
        forall i | 0 <= i < |rest| ensures rest[i].id != q[0].id && q[0].prio <= rest[i].prio {
          FirstOrders(q, rest[i]);
        }
      }
      forall i | 0 <= i < |q| && q[i].id != id ensures q[i] in Drop(q, id) {
        if i > 0 {
          assert q[1..][i - 1] == q[i];
        }
      }
    }
  }

  lemma {:induction false} InsertPasses<T>(q: seq<Waiter<T>>, i: nat, w: Waiter<T>)
    requires i < |q| && q[i].prio <= w.prio
    ensures q[..i] + Insert(q[i..], w) == q[..i + 1] + Insert(q[i + 1..], w)
  {
    assert q[i..][1..] == q[i + 1..];
  }

  lemma {:induction false} DropPasses<T>(q: seq<Waiter<T>>, i: nat, id: nat)
    requires i < |q| && q[i].id != id
    ensures q[..i] + Drop(q[i..], id) == q[..i + 1] + Drop(q[i + 1..], id)
  {
    assert q[i..][1..] == q[i + 1..];
  }

  /** z_priq_dumb_add walks to the first thread of lower priority. */
  method PriqAdd<T>(q: seq<Waiter<T>>, w: Waiter<T>) returns (r: seq<Waiter<T>>)
    ensures r == Insert(q, w)
  {
    var i := 0;
    while i < |q| && q[i].prio <= w.prio
      invariant 0 <= i <= |q|
      invariant q[..i] + Insert(q[i..], w) == Insert(q, w)
    {
      InsertPasses(q, i, w);
      i := i + 1;
    }
    assert q[..i] + ([w] + q[i..]) == q[..i] + [w] + q[i..];
    r := q[..i] + [w] + q[i..];
  }

  method PriqRemove<T>(q: seq<Waiter<T>>, id: nat) returns (r: seq<Waiter<T>>)
    ensures r == Drop(q, id)
  {
    var i := 0;
    while i < |q| && q[i].id != id
      invariant 0 <= i <= |q|
      invariant q[..i] + Drop(q[i..], id) == Drop(q, id)
    {
      DropPasses(q, i, id);
      i := i + 1;
    }
    if i < |q| {
      assert q[i..][1..] == q[i + 1..];
      r := q[..i] + q[i + 1..];
    } else {
      r := q;
    }
  }
}
