/**
 Message queues (kernel/msg_q.c): a bounded FIFO whose single wait queue holds getters and
 putters alike. A waiting thread leaves a pointer to its buffer behind, and nothing but the
 state of the FIFO tells whether that buffer is to be read or written.
 */
module MsgQueues {
  import opened Seqs
  import opened WaitQueues

  type Msg = seq<Byte>

  /** `putting` says which call the thread is in; the kernel keeps no such note. */
  datatype Slot = Slot(putting: bool, buffer: Msg)

  datatype Departure = Taken(msg: Msg) | Purged(msg: Msg)

  /** `accepted` and `left` record the messages that went in and those that came out. */
  datatype Queue = Queue(max: nat, fifo: seq<Msg>, waiters: seq<Waiter<Slot>>,
                         accepted: seq<Msg>, left: seq<Departure>)

  datatype Code = Ok | NoMsg | Again | Pending

  /** What a woken thread finds: the result of its call and its buffer. */
  datatype Wake = Wake(id: nat, code: Code, buffer: Msg)

  datatype Reply = Reply(code: Code, buffer: Msg, woken: seq<Wake>)

  datatype Call =
    | Put(id: nat, prio: int, msg: Msg, wait: bool)
    | Get(id: nat, prio: int, buffer: Msg, wait: bool)
    | Peek(buffer: Msg)
    | Purge
    | Expire(id: nat)

  predicate Allowed(q: Queue, call: Call) {
    match call
    case Put(id, _, _, _) => !Has(q.waiters, id)
    case Get(id, _, _, _) => !Has(q.waiters, id)
    case Peek(_) => true
    case Purge => true
    case Expire(id) => Has(q.waiters, id)
  }

  function Woken(waiters: seq<Waiter<Slot>>, code: Code): seq<Wake> {
    if waiters == [] then []
    else [Wake(waiters[0].id, code, waiters[0].data.buffer)] + Woken(waiters[1..], code)
  }

  function AllPurged(msgs: seq<Msg>): (r: seq<Departure>)
    ensures |r| == |msgs| && forall i | 0 <= i < |r| :: r[i] == Purged(msgs[i])
  {
    seq(|msgs|, i requires 0 <= i < |msgs| => Purged(msgs[i]))
  }

  function BufferOf(waiters: seq<Waiter<Slot>>, id: nat): Msg
    requires Has(waiters, id)
  {
    if waiters[0].id == id then waiters[0].data.buffer
    else
      assert Has(waiters[1..], id) by {
        var i :| 0 <= i < |waiters| && waiters[i].id == id;
        assert waiters[1..][i - 1].id == id;
      }
      BufferOf(waiters[1..], id)
  }

  /** The first waiter's buffer is written on a put and read on a get, whoever that waiter is. */
  function Step(q: Queue, call: Call): (Queue, Reply)
    requires Allowed(q, call)
  {
    match call
    case Put(id, prio, msg, wait) =>
      if |q.fifo| < q.max then
        if q.waiters != [] then
          (q.(waiters := q.waiters[1..], accepted := q.accepted + [msg], left := q.left + [Taken(msg)]),
           Reply(Ok, msg, [Wake(q.waiters[0].id, Ok, msg)]))
        else
          (q.(fifo := q.fifo + [msg], accepted := q.accepted + [msg]), Reply(Ok, msg, []))
      else if !wait then (q, Reply(NoMsg, msg, []))
      else (q.(waiters := Insert(q.waiters, Waiter(id, prio, Slot(true, msg)))), Reply(Pending, msg, []))
    case Get(id, prio, buffer, wait) =>
      if q.fifo != [] then
        var q' := q.(fifo := q.fifo[1..], left := q.left + [Taken(q.fifo[0])]);
        if q.waiters != [] then
          var theirs := q.waiters[0].data.buffer;
          (q'.(fifo := q'.fifo + [theirs], waiters := q.waiters[1..], accepted := q.accepted + [theirs]),
           Reply(Ok, q.fifo[0], [Wake(q.waiters[0].id, Ok, theirs)]))
        else
          (q', Reply(Ok, q.fifo[0], []))
      else if !wait then (q, Reply(NoMsg, buffer, []))
      else (q.(waiters := Insert(q.waiters, Waiter(id, prio, Slot(false, buffer)))), Reply(Pending, buffer, []))
    case Peek(buffer) =>
      if q.fifo != [] then (q, Reply(Ok, q.fifo[0], [])) else (q, Reply(NoMsg, buffer, []))
    case Purge =>
      (q.(fifo := [], waiters := [], left := q.left + AllPurged(q.fifo)), Reply(Ok, [], Woken(q.waiters, NoMsg)))
    case Expire(id) =>
      (q.(waiters := Drop(q.waiters, id)), Reply(Again, [], [Wake(id, Again, BufferOf(q.waiters, id))]))
  }

  // ----- What every step keeps ------------------------------------------------------------

  /** Getters wait only while there is nothing to get, putters only while there is no room. */
  predicate Directed(q: Queue) {
    forall i | 0 <= i < |q.waiters| ::
      if q.waiters[i].data.putting then |q.fifo| == q.max else q.fifo == []
  }

  function MsgOf(d: Departure): Msg {
    d.msg
  }

  /** The messages that came out are the first that went in, in order; the others are queued. */
  predicate InOrder(q: Queue) {
    && |q.accepted| == |q.left| + |q.fifo|
    && (forall i | 0 <= i < |q.left| :: MsgOf(q.left[i]) == q.accepted[i])
    && (forall i | 0 <= i < |q.fifo| :: q.fifo[i] == q.accepted[|q.left| + i])
  }

  predicate Inv(q: Queue) {
    |q.fifo| <= q.max && Ordered(q.waiters) && Directed(q) && InOrder(q)
  }

  lemma {:induction false} PutKeepsInv(q: Queue, id: nat, prio: int, msg: Msg, wait: bool)
    requires Inv(q) && Allowed(q, Put(id, prio, msg, wait))
    ensures Inv(Step(q, Put(id, prio, msg, wait)).0)
  {
    if |q.fifo| == q.max && wait {
      var w := Waiter(id, prio, Slot(true, msg));
      InsertOrdered(q.waiters, w);
      Members(q.waiters, w);
      WaitingKeepsDirected(q, w);
    }
  }

  lemma {:induction false} GetKeepsInv(q: Queue, id: nat, prio: int, buffer: Msg, wait: bool)
    requires Inv(q) && Allowed(q, Get(id, prio, buffer, wait))
    ensures Inv(Step(q, Get(id, prio, buffer, wait)).0)
  {
    if q.fifo == [] && wait {
      var w := Waiter(id, prio, Slot(false, buffer));
      InsertOrdered(q.waiters, w);
      WaitingKeepsDirected(q, w);
    }
  }

  lemma {:induction false} WaitingKeepsDirected(q: Queue, w: Waiter<Slot>)
    requires Directed(q) && if w.data.putting then |q.fifo| == q.max else q.fifo == []
    ensures Directed(q.(waiters := Insert(q.waiters, w)))
  {
    Members(q.waiters, w);
    var r := Insert(q.waiters, w);
    forall i | 0 <= i < |r| ensures if r[i].data.putting then |q.fifo| == q.max else q.fifo == [] {
      if r[i] != w {
        assert r[i] in q.waiters;
      }
    }
  }

  lemma {:induction false} ExpireKeepsInv(q: Queue, id: nat)
    requires Inv(q) && Allowed(q, Expire(id))
    ensures Inv(Step(q, Expire(id)).0)
  {
    DropMembers(q.waiters, id);
    var r := Drop(q.waiters, id);
    forall i | 0 <= i < |r| ensures if r[i].data.putting then |q.fifo| == q.max else q.fifo == [] {
      assert r[i] in q.waiters;
    }
  }

  lemma {:induction false} PurgeKeepsInv(q: Queue)
    requires Inv(q)
    ensures Inv(Step(q, Purge).0)
  {
  }

  lemma {:induction false} StepKeepsInv(q: Queue, call: Call)
    requires Inv(q) && Allowed(q, call)
    ensures Inv(Step(q, call).0)
  {
    hide Inv;
    match call
    case Put(id, prio, msg, wait) => PutKeepsInv(q, id, prio, msg, wait);
    case Get(id, prio, buffer, wait) => GetKeepsInv(q, id, prio, buffer, wait);
    case Peek(_) =>
    case Purge => PurgeKeepsInv(q);
    case Expire(id) => ExpireKeepsInv(q, id);
  }

  // ----- Every run ------------------------------------------------------------------------

  ghost predicate Runs(from: Queue, calls: seq<Call>, to: Queue)
    decreases |calls|
  {
    if calls == [] then to == from
    else Allowed(from, calls[0]) && Runs(Step(from, calls[0]).0, calls[1..], to)
  }

  function Fresh(max: nat): Queue {
    Queue(max, [], [], [], [])
  }

  /** A bounded FIFO after every run: nothing lost, repeated or reordered, and no needless wait. */
  lemma {:induction false} EveryRun(max: nat, calls: seq<Call>, q: Queue)
    requires Runs(Fresh(max), calls, q)
    ensures Inv(q) && q.max == max
  {
    RunKeepsInv(Fresh(max), calls, q);
  }

  lemma {:induction false} RunKeepsInv(from: Queue, calls: seq<Call>, to: Queue)
    requires Inv(from) && Runs(from, calls, to)
    ensures Inv(to) && to.max == from.max
    decreases |calls|
  {
    if calls != [] {
      StepKeepsInv(from, calls[0]);
      hide Inv;
      RunKeepsInv(Step(from, calls[0]).0, calls[1..], to);
    }
  }

  /** A put writes only into a getter's buffer, and a get reads only from a putter's. */
  lemma {:induction false} RightDirection(q: Queue, call: Call)
    requires Inv(q) && Allowed(q, call) && Step(q, call).1.woken != []
    ensures call.Put? ==> !q.waiters[0].data.putting
    ensures call.Get? ==> q.waiters[0].data.putting
  {
  }

  /** A get hands over the oldest message that is still queued, and a peek shows the same one. */
  lemma {:induction false} GetIsOldest(q: Queue, id: nat, prio: int, buffer: Msg, wait: bool)
    requires Inv(q) && Allowed(q, Get(id, prio, buffer, wait)) && q.fifo != []
    ensures Step(q, Get(id, prio, buffer, wait)).1.buffer == q.accepted[|q.left|]
    ensures Step(q, Peek(buffer)).1.buffer == q.accepted[|q.left|]
  {
  }

  /** A getter that was waiting gets the next message put, which no other message can precede. */
  lemma {:induction false} WaitingGetterIsNext(q: Queue, id: nat, prio: int, msg: Msg, wait: bool)
    requires Inv(q) && Allowed(q, Put(id, prio, msg, wait)) && q.max > 0
    requires q.waiters != [] && !q.waiters[0].data.putting
    ensures var (q', reply) := Step(q, Put(id, prio, msg, wait));
            reply.code == Ok && reply.woken == [Wake(q.waiters[0].id, Ok, msg)] && |q.accepted| == |q.left|
  {
  }

  /** A refused or unfinished call moves no message, and a finished put is accepted last. */
  lemma {:induction false} NothingMovesWithoutSuccess(q: Queue, call: Call)
    requires Inv(q) && Allowed(q, call) && (call.Put? || call.Get?)
    ensures Step(q, call).1.code == NoMsg ==> Step(q, call).0 == q && !call.wait
    ensures Step(q, call).1.code == Pending ==> Step(q, call).0.fifo == q.fifo && Step(q, call).0.accepted == q.accepted
    ensures call.Put? && Step(q, call).1.code == Ok ==> Step(q, call).0.accepted == q.accepted + [call.msg]
    ensures call.Put? ==> (Step(q, call).1.code == Ok <==> |q.fifo| < q.max)
    ensures call.Get? ==> (Step(q, call).1.code == Ok <==> q.fifo != [])
  {
  }

  /** A purge wakes every waiter, in order, with -ENOMSG and its buffer as it left it. */
  lemma {:induction false} PurgeWakesAll(waiters: seq<Waiter<Slot>>, i: nat)
    requires i < |waiters|
    ensures |Woken(waiters, NoMsg)| == |waiters|
    ensures Woken(waiters, NoMsg)[i] == Wake(waiters[i].id, NoMsg, waiters[i].data.buffer)
  {
    if i > 0 {
      PurgeWakesAll(waiters[1..], i - 1);
    } else if |waiters| > 1 {
      PurgeWakesAll(waiters[1..], 0);
    }
  }

  // ----- What callers and waiters are told ------------------------------------------------

  /**
   A put goes to the thread that waits, or behind the messages that are queued; without room it is
   refused with -ENOMSG or waits last among those of its priority.
   */
  lemma {:induction false} PutOutcome(q: Queue, id: nat, prio: int, msg: Msg, wait: bool)
    requires Inv(q) && Allowed(q, Put(id, prio, msg, wait))
    ensures var (q', reply) := Step(q, Put(id, prio, msg, wait));
            && (|q.fifo| < q.max && q.waiters != [] ==>
                  && reply.code == Ok && reply.woken == [Wake(q.waiters[0].id, Ok, msg)]
                  && q'.waiters == q.waiters[1..] && q'.fifo == q.fifo == [])
            && (|q.fifo| < q.max && q.waiters == [] ==>
                  reply.code == Ok && reply.woken == [] && q'.waiters == [] && q'.fifo == q.fifo + [msg])
            && (|q.fifo| == q.max && !wait ==> reply.code == NoMsg && reply.woken == [] && q' == q)
            && (|q.fifo| == q.max && wait ==>
                  && reply.code == Pending && reply.woken == [] && q' == q.(waiters := q'.waiters)
                  && Queued(q.waiters, q'.waiters, Waiter(id, prio, Slot(true, msg))))
  {
    InsertQueues(q.waiters, Waiter(id, prio, Slot(true, msg)));
    hide Queued, InOrder;
  }

  /**
   A get takes the oldest message, and a putter that waits is woken with its message queued in the
   room made; with nothing to get it is refused with -ENOMSG or waits last among its priority.
   */
  lemma {:induction false} GetOutcome(q: Queue, id: nat, prio: int, buffer: Msg, wait: bool)
    requires Inv(q) && Allowed(q, Get(id, prio, buffer, wait))
    ensures var (q', reply) := Step(q, Get(id, prio, buffer, wait));
            && (q.fifo != [] && q.waiters != [] ==>
                  var theirs := q.waiters[0].data.buffer;
                  && reply == Reply(Ok, q.fifo[0], [Wake(q.waiters[0].id, Ok, theirs)])
                  && q'.waiters == q.waiters[1..] && q'.fifo == q.fifo[1..] + [theirs]
                  && q'.accepted == q.accepted + [theirs])
            && (q.fifo != [] && q.waiters == [] ==>
                  reply == Reply(Ok, q.fifo[0], []) && q'.waiters == [] && q'.fifo == q.fifo[1..])
            && (q.fifo == [] && !wait ==> reply == Reply(NoMsg, buffer, []) && q' == q)
            && (q.fifo == [] && wait ==>
                  && reply == Reply(Pending, buffer, []) && q' == q.(waiters := q'.waiters)
                  && Queued(q.waiters, q'.waiters, Waiter(id, prio, Slot(false, buffer))))
  {
    hide Queued, InOrder, Insert;
    InsertQueues(q.waiters, Waiter(id, prio, Slot(false, buffer)));
    hide Ordered;
  }

  /** A peek shows the oldest message, or is refused with -ENOMSG, and changes nothing. */
  lemma {:induction false} PeekOutcome(q: Queue, buffer: Msg)
    ensures Step(q, Peek(buffer)) == (q, if q.fifo == [] then Reply(NoMsg, buffer, []) else Reply(Ok, q.fifo[0], []))
  {
  }

  /** A purge drops every message and wakes every waiter, in order, with -ENOMSG and its own buffer. */
  lemma {:induction false} PurgeOutcome(q: Queue, i: nat)
    requires Inv(q)
    ensures var (q', reply) := Step(q, Purge);
            && q'.fifo == [] && q'.waiters == [] && q'.accepted == q.accepted && reply.code == Ok
            && |reply.woken| == |q.waiters|
            && (i < |q.waiters| ==> reply.woken[i] == Wake(q.waiters[i].id, NoMsg, q.waiters[i].data.buffer))
  {
    if i < |q.waiters| {
      PurgeWakesAll(q.waiters, i);
    } else if q.waiters != [] {
      PurgeWakesAll(q.waiters, 0);
    }
  }

  /** A waiter whose timeout strikes is the one that leaves, with -EAGAIN and its buffer as it left it. */
  lemma {:induction false} ExpireOutcome(q: Queue, i: nat)
    requires Inv(q) && i < |q.waiters|
    ensures var id := q.waiters[i].id;
            && Allowed(q, Expire(id))
            && var (q', reply) := Step(q, Expire(id));
               && q' == q.(waiters := q'.waiters) && Left(q.waiters, q'.waiters, id) && reply.code == Again
               && reply.woken == [Wake(id, Again, q.waiters[i].data.buffer)]
  {
    DropLeaves(q.waiters, q.waiters[i].id);
    OwnBuffer(q.waiters, i);
    hide Left;
  }

  lemma {:induction false} OwnBuffer(waiters: seq<Waiter<Slot>>, i: nat)
    requires Ordered(waiters) && i < |waiters|
    ensures Has(waiters, waiters[i].id) && BufferOf(waiters, waiters[i].id) == waiters[i].data.buffer
  {
    if i > 0 {
      assert waiters[1..][i - 1] == waiters[i];
      OwnBuffer(waiters[1..], i - 1);
    }
  }

  predicate BothWait(q: Queue) {
    (exists i :: 0 <= i < |q.waiters| && q.waiters[i].data.putting)
    && (exists i :: 0 <= i < |q.waiters| && !q.waiters[i].data.putting)
  }

  /** Getters and putters never wait together, unless the queue has no room for any message. */
  lemma {:induction false} NeverBothWait(q: Queue)
    requires Inv(q) && BothWait(q)
    ensures q.max == 0
  {
  }

  lemma {:induction false} BothWaitWithoutRoom(a: nat, b: nat, prio: int, msg: Msg)
    requires a != b
    ensures exists q :: Runs(Fresh(0), [Put(a, prio, msg, true), Get(b, prio, msg, true)], q) && BothWait(q)
  {
    var put, get := Put(a, prio, msg, true), Get(b, prio, msg, true);
    var q1 := Step(Fresh(0), put).0;
    var q2 := Step(q1, get).0;
    assert [put, get][1..] == [get] && [get][1..] == [];
    assert Runs(q2, [], q2);
    assert Runs(q1, [get], q2);
    var wa, wb := Waiter(a, prio, Slot(true, msg)), Waiter(b, prio, Slot(false, msg));
    assert q1.waiters == [wa] && [wa][1..] == [] && Insert([], wb) == [wb];
    assert !Has(q1.waiters, b);
    assert q2.waiters == [wa, wb];
    assert q2.waiters[0].data.putting && !q2.waiters[1].data.putting;
    assert [put, get][0] == put;
    assert Runs(Fresh(0), [put, get], q2) && BothWait(q2);
  }
}
