/**
 Mailboxes (kernel/mailbox.c): senders and receivers that name each other, or anybody, are
 matched one to one; the sender hears back when the receiver has disposed of the message.
 */
module Mailboxes {
  import opened Seqs
  import opened WaitQueues

  /** A transmit descriptor. `desc` is the asynchronous descriptor it lives in, if any. */
  datatype Tx = Tx(msg: nat, sender: nat, target: Option<nat>, size: nat, info: nat,
                   data: Option<seq<Byte>>, desc: Option<nat>)

  /** A receive descriptor. `now` says that a buffer for the data came with the call. */
  datatype Rx = Rx(receiver: nat, source: Option<nat>, size: nat, info: nat, now: bool)

  /**
   A receive descriptor that has been matched: what was sent to it, its own fields, the size and
   the `info` it came with, and whether its syncing thread is set. It stays with its receiver for
   good, who may ask for the data again.
   */
  datatype Receipt = Receipt(tx: Tx, rx: Rx, asked: nat, reply: nat, syncing: bool)

  /** What became of a message: who took it, what the sender was told, what was copied. */
  datatype Fate = Refused | Expired | Delivered(to: nat, size: nat, reply: nat, bytes: seq<Byte>)

  /** The wake-up of a sender, or the semaphore given for it. */
  datatype Report = Report(msg: nat, size: nat)

  /** `sent` is what each message was sent as, `outbox` what its transmit descriptor says now. */
  datatype Mailbox = Mailbox(tx: seq<Waiter<Tx>>, rx: seq<Waiter<Rx>>, receipts: seq<Receipt>, free: seq<nat>,
                             sent: map<nat, Tx>, outbox: map<nat, Tx>, done: map<nat, Fate>, reports: seq<Report>)

  // ----- Matching -------------------------------------------------------------------------

  predicate Admits(wanted: Option<nat>, thread: nat) {
    wanted.None? || wanted.value == thread
  }

  predicate Compatible(tx: Tx, rx: Rx) {
    Admits(tx.target, rx.receiver) && Admits(rx.source, tx.sender)
  }

  function Min(a: nat, b: nat): nat {
    if a < b then a else b
  }

  /** mbox_message_match: what the receiver's descriptor says afterwards */
  function Matched(tx: Tx, rx: Rx): (r: Receipt)
    ensures r.rx.size == Min(tx.size, rx.size)
  {
    Receipt(tx, rx.(source := Some(tx.sender), info := tx.info, size := if rx.size > tx.size then tx.size else rx.size),
            rx.size, rx.info, true)
  }

  /** mbox_message_match: what the sender's descriptor says afterwards */
  function Told(r: Receipt): Tx {
    r.tx.(target := Some(r.rx.receiver), info := r.reply)
  }

  /** The first compatible receiver, or the length of the queue. */
  function FindRx(tx: Tx, q: seq<Waiter<Rx>>): (k: nat)
    ensures k <= |q| && (k < |q| ==> Compatible(tx, q[k].data))
    ensures forall i | 0 <= i < k :: !Compatible(tx, q[i].data)
  {
    if q == [] || Compatible(tx, q[0].data) then 0
    else
      var k := FindRx(tx, q[1..]);
      assert forall i | 1 <= i < k + 1 :: q[i] == q[1..][i - 1];
      k + 1
  }

  function FindTx(q: seq<Waiter<Tx>>, rx: Rx): (k: nat)
    ensures k <= |q| && (k < |q| ==> Compatible(q[k].data, rx))
    ensures forall i | 0 <= i < k :: !Compatible(q[i].data, rx)
  {
    if q == [] || Compatible(q[0].data, rx) then 0
    else
      var k := FindTx(q[1..], rx);
      assert forall i | 1 <= i < k + 1 :: q[i] == q[1..][i - 1];
      k + 1
  }

  // ----- Calls ----------------------------------------------------------------------------

  datatype Call =
    | Put(tx: Tx, prio: int, wait: bool)
    | AsyncPut(tx: Tx, prio: int)
    | Get(rx: Rx, prio: int, wait: bool)
    | Check(k: nat)
    | DataGet(k: nat, discard: bool)
    | ExpireTx(k: nat)
    | ExpireRx(k: nat)

  datatype Code = Ok | NoMsg | Pending

  predicate WellFormed(tx: Tx) {
    tx.data.Some? ==> |tx.data.value| == tx.size
  }

  /** There is as much data as the descriptor says. */
  predicate HasData(r: Receipt) {
    WellFormed(r.tx) && r.rx.size <= r.tx.size
  }

  /**
   Messages are numbered afresh; an asynchronous send waits elsewhere for a free descriptor. The
   data of a receipt may be asked for at any time, also after the message was disposed of.
   */
  predicate Allowed(m: Mailbox, call: Call) {
    match call
    case Put(tx, _, _) => tx.msg !in m.sent && WellFormed(tx) && tx.desc.None?
    case AsyncPut(tx, _) => tx.msg !in m.sent && WellFormed(tx) && m.free != []
    case Get(_, _, _) => true
    case Check(k) => k < |m.receipts| && HasData(m.receipts[k])
    case DataGet(k, _) => k < |m.receipts| && HasData(m.receipts[k])
    case ExpireTx(k) => k < |m.tx| && m.tx[k].data.desc.None?
    case ExpireRx(k) => k < |m.rx|
  }

  /** A sender and a receiver have found each other. */
  function Paired(m: Mailbox, r: Receipt): Mailbox {
    m.(receipts := m.receipts + [r], outbox := m.outbox[r.tx.msg := Told(r)])
  }

  /** mbox_message_put */
  function Posted(m: Mailbox, tx: Tx, prio: int, wait: bool): (Mailbox, Code) {
    var k := FindRx(tx, m.rx);
    var m1 := m.(sent := m.sent[tx.msg := tx], outbox := m.outbox[tx.msg := tx]);
    if k < |m.rx| then
      (Paired(m1.(rx := Dropped(m.rx, k)), Matched(tx, m.rx[k].data)), if tx.desc.Some? then Ok else Pending)
    else if !wait then (m1.(done := m.done[tx.msg := Refused]), NoMsg)
    else (m1.(tx := Insert(m.tx, Waiter(tx.msg, prio, tx))), if tx.desc.Some? then Ok else Pending)
  }

  /** k_mbox_get up to the data check or the wait */
  function Received(m: Mailbox, rx: Rx, prio: int, wait: bool): (Mailbox, Code) {
    var k := FindTx(m.tx, rx);
    if k < |m.tx| then (Paired(m.(tx := Dropped(m.tx, k)), Matched(m.tx[k].data, rx)), Ok)
    else if !wait then (m, NoMsg)
    else (m.(rx := Insert(m.rx, Waiter(rx.receiver, prio, rx))), Pending)
  }

  /** The bytes copied into a buffer of the size the descriptor says. */
  function Copied(r: Receipt): seq<Byte>
    requires HasData(r)
  {
    if r.tx.data.Some? && r.rx.size > 0 then r.tx.data.value[..r.rx.size] else []
  }

  /** mbox_message_dispose: does nothing unless the syncing thread is still set */
  function Disposed(m: Mailbox, k: nat, bytes: seq<Byte>): Mailbox
    requires k < |m.receipts|
  {
    var r := m.receipts[k];
    if !r.syncing then m
    else
      m.(receipts := m.receipts[k := r.(syncing := false)],
         outbox := m.outbox[r.tx.msg := Told(r).(size := r.rx.size)],
         done := m.done[r.tx.msg := Delivered(r.rx.receiver, r.rx.size, r.reply, bytes)],
         free := if r.tx.desc.Some? then m.free + [r.tx.desc.value] else m.free,
         reports := m.reports + [Report(r.tx.msg, r.rx.size)])
  }

  /** The receiver gives up on the data. */
  function Emptied(m: Mailbox, k: nat): Mailbox
    requires k < |m.receipts|
  {
    m.(receipts := m.receipts[k := m.receipts[k].(rx := m.receipts[k].rx.(size := 0))])
  }

  /** k_mbox_data_get */
  function Fetched(m: Mailbox, k: nat, discard: bool): Mailbox
    requires k < |m.receipts| && HasData(m.receipts[k])
  {
    if discard then Disposed(Emptied(m, k), k, []) else Disposed(m, k, Copied(m.receipts[k]))
  }

  /** mbox_message_data_check */
  function CheckedData(m: Mailbox, k: nat): Mailbox
    requires k < |m.receipts| && HasData(m.receipts[k])
  {
    if m.receipts[k].rx.now then Fetched(m, k, false)
    else if m.receipts[k].rx.size == 0 then Disposed(m, k, [])
    else m
  }

  function Step(m: Mailbox, call: Call): (Mailbox, Code)
    requires Allowed(m, call)
  {
    match call
    case Put(tx, prio, wait) => Posted(m, tx, prio, wait)
    case AsyncPut(tx, prio) =>
      var last := |m.free| - 1;
      Posted(m.(free := m.free[..last]), tx.(desc := Some(m.free[last])), prio, true)
    case Get(rx, prio, wait) => Received(m, rx, prio, wait)
    case Check(k) => (CheckedData(m, k), Ok)
    case DataGet(k, discard) => (Fetched(m, k, discard), Ok)
    case ExpireTx(k) =>
      (m.(tx := Dropped(m.tx, k), done := m.done[m.tx[k].data.msg := Expired]), Pending)
    case ExpireRx(k) => (m.(rx := Dropped(m.rx, k)), Pending)
  }

  // ----- Bags -----------------------------------------------------------------------------

  function Parcels(q: seq<Waiter<Tx>>): (p: seq<Tx>)
    ensures |p| == |q| && forall i | 0 <= i < |q| :: p[i] == q[i].data
  {
    seq(|q|, i requires 0 <= i < |q| => q[i].data)
  }

  function MsgOf(tx: Tx): multiset<nat> {
    multiset{tx.msg}
  }

  function DescOf(tx: Tx): multiset<nat> {
    if tx.desc.Some? then multiset{tx.desc.value} else multiset{}
  }

  function Bag(p: seq<Tx>, f: Tx -> multiset<nat>): multiset<nat> {
    if p == [] then multiset{} else f(p[0]) + Bag(p[1..], f)
  }

  lemma {:induction false} Regroup(a: multiset<nat>, b: multiset<nat>, c: multiset<nat>)
    ensures a + (b + c) == (a + b) + c && a + b == b + a
  {
  }

  lemma {:induction false} BagCons(x: Tx, p: seq<Tx>, f: Tx -> multiset<nat>)
    ensures Bag([x] + p, f) == f(x) + Bag(p, f)
  {
  }

  lemma {:induction false} BagSpliced(p: seq<Tx>, k: nat, x: Tx, f: Tx -> multiset<nat>)
    requires k <= |p|
    ensures Bag(Spliced(p, k, x), f) == Bag(p, f) + f(x)
  {
    if k == 0 {
      assert Spliced(p, 0, x) == [x] + p;
      BagCons(x, p, f);
      Regroup(f(x), Bag(p, f), multiset{});
    } else {
      BagSpliced(p[1..], k - 1, x, f);
      SplicedTail(p, k, x);
      BagCons(p[0], Spliced(p[1..], k - 1, x), f);
      Regroup(f(p[0]), Bag(p[1..], f), f(x));
    }
  }

  lemma {:induction false} BagDropped(p: seq<Tx>, k: nat, f: Tx -> multiset<nat>)
    requires k < |p|
    ensures Bag(p, f) == Bag(Dropped(p, k), f) + f(p[k])
  {
    BagSpliced(Dropped(p, k), k, p[k], f);
    assert Spliced(Dropped(p, k), k, p[k]) == p;
  }

  /** Where a thread goes in a wait queue. */
  lemma {:induction false} InsertedAt<T>(q: seq<Waiter<T>>, w: Waiter<T>) returns (k: nat)
    ensures k <= |q| && Insert(q, w) == Spliced(q, k, w)
  {
    if q == [] || w.prio < q[0].prio {
      k := 0;
    } else {
      k := InsertedAt(q[1..], w);
      k := k + 1;
      SplicedTail(q, k, w);
    }
  }

  lemma {:induction false} BagInserted(q: seq<Waiter<Tx>>, w: Waiter<Tx>, f: Tx -> multiset<nat>)
    ensures Bag(Parcels(Insert(q, w)), f) == Bag(Parcels(q), f) + f(w.data)
  {
    var k := InsertedAt(q, w);
    assert Parcels(Spliced(q, k, w)) == Spliced(Parcels(q), k, w.data);
    BagSpliced(Parcels(q), k, w.data, f);
  }

  /** What a receipt still holds. */
  function Holds(r: Receipt, f: Tx -> multiset<nat>): multiset<nat> {
    if r.syncing then f(r.tx) else multiset{}
  }

  /** What matched messages that have not been disposed of hold between them. */
  function Open(receipts: seq<Receipt>, f: Tx -> multiset<nat>): multiset<nat> {
    if receipts == [] then multiset{} else Holds(receipts[0], f) + Open(receipts[1..], f)
  }

  lemma {:induction false} OpenAppended(receipts: seq<Receipt>, r: Receipt, f: Tx -> multiset<nat>)
    ensures Open(receipts + [r], f) == Open(receipts, f) + Holds(r, f)
  {
    if receipts == [] {
      assert receipts + [r] == [r] && [r][1..] == [];
    } else {
      OpenAppended(receipts[1..], r, f);
      assert (receipts + [r])[1..] == receipts[1..] + [r];
      Regroup(Holds(receipts[0], f), Open(receipts[1..], f), Holds(r, f));
    }
  }

  /** Changing one receipt changes what is held by what that one holds. */
  lemma {:induction false} OpenUpdated(receipts: seq<Receipt>, k: nat, r: Receipt, f: Tx -> multiset<nat>)
    requires k < |receipts|
    ensures Open(receipts[k := r], f) + Holds(receipts[k], f) == Open(receipts, f) + Holds(r, f)
  {
    var after := receipts[k := r];
    if k == 0 {
      assert after[1..] == receipts[1..];
    } else {
      OpenUpdated(receipts[1..], k - 1, r, f);
      assert after[1..] == receipts[1..][k - 1 := r];
      Shuffle(Holds(receipts[0], f), Open(after[1..], f), Holds(receipts[k], f), Open(receipts[1..], f), Holds(r, f));
    }
  }

  /** A receipt whose syncing thread is cleared no longer holds its message. */
  lemma {:induction false} OpenClosed(receipts: seq<Receipt>, k: nat, r: Receipt, f: Tx -> multiset<nat>)
    requires k < |receipts| && receipts[k].syncing && !r.syncing
    ensures Open(receipts, f) == Open(receipts[k := r], f) + f(receipts[k].tx)
  {
    OpenUpdated(receipts, k, r, f);
    assert Open(receipts, f) + multiset{} == Open(receipts, f);
  }

  /** A receipt without a syncing thread may change as it likes. */
  lemma {:induction false} OpenSame(receipts: seq<Receipt>, k: nat, r: Receipt, f: Tx -> multiset<nat>)
    requires k < |receipts| && !receipts[k].syncing && !r.syncing
    ensures Open(receipts[k := r], f) == Open(receipts, f)
  {
    OpenUpdated(receipts, k, r, f);
    assert Open(receipts, f) + multiset{} == Open(receipts, f);
    assert Open(receipts[k := r], f) + multiset{} == Open(receipts[k := r], f);
  }

  lemma {:induction false} Shuffle(a: multiset<nat>, b: multiset<nat>, c: multiset<nat>, d: multiset<nat>,
                                   e: multiset<nat>)
    requires b + c == d + e
    ensures (a + b) + c == (a + d) + e
  {
    Regroup(a, b, c);
    Regroup(a, d, e);
  }

  // ----- What every step keeps ------------------------------------------------------------

  /** Nobody waits for somebody who waits for them. */
  predicate NoPair(tx: seq<Waiter<Tx>>, rx: seq<Waiter<Rx>>) {
    forall i, j | 0 <= i < |tx| && 0 <= j < |rx| :: !Compatible(tx[i].data, rx[j].data)
  }

  predicate ByPrio<T>(q: seq<Waiter<T>>) {
    forall i, j | 0 <= i < j < |q| :: q[i].prio <= q[j].prio
  }

  /** Every message ever sent is in exactly one place: queued, matched, or done with. */
  predicate Once(tx: seq<Waiter<Tx>>, receipts: seq<Receipt>, done: map<nat, Fate>, sent: map<nat, Tx>) {
    Bag(Parcels(tx), MsgOf) + Open(receipts, MsgOf) + multiset(done.Keys) == multiset(sent.Keys)
  }

  /** Every asynchronous descriptor is in exactly one place: free, queued, or matched. */
  predicate Conserved(free: seq<nat>, tx: seq<Waiter<Tx>>, receipts: seq<Receipt>, pool: multiset<nat>) {
    multiset(free) + Bag(Parcels(tx), DescOf) + Open(receipts, DescOf) == pool
  }

  /** A queued message is as it was sent. */
  predicate QueuedOk(sent: map<nat, Tx>, outbox: map<nat, Tx>, tx: Tx) {
    tx.msg in sent && tx.msg in outbox && sent[tx.msg] == outbox[tx.msg] == tx && WellFormed(tx)
  }

  /** A receipt names its message and its sender's descriptor its receiver, until disposal settles the fate. */
  predicate ReceiptOk(sent: map<nat, Tx>, outbox: map<nat, Tx>, done: map<nat, Fate>, r: Receipt) {
    && r.tx.msg in sent && sent[r.tx.msg] == r.tx && HasData(r)
    && Admits(r.tx.target, r.rx.receiver) && r.rx.source == Some(r.tx.sender)
    && (if r.syncing then
          r.tx.msg in outbox && outbox[r.tx.msg] == Told(r) && r.rx.size == Min(r.tx.size, r.asked)
        else
          r.tx.msg in done && SettledBy(done[r.tx.msg], r))
  }

  /** A fate that this receipt's disposal brought about: all that fits was taken, or nothing. */
  predicate SettledBy(fate: Fate, r: Receipt) {
    && fate.Delivered? && fate.to == r.rx.receiver && fate.reply == r.reply
    && (fate.size == 0 || fate.size == Min(r.tx.size, r.asked))
  }

  /** The first bytes of a message, none if it carries none. */
  function Front(tx: Tx, n: nat): seq<Byte>
    requires WellFormed(tx) && n <= tx.size
  {
    if tx.data.Some? then tx.data.value[..n] else []
  }

  /** What was delivered is the front of what was sent, and the sender's descriptor says how it went. */
  predicate FateOk(tx: Tx, now: Tx, fate: Fate) {
    match fate
    case Delivered(to, size, reply, bytes) =>
      && size <= tx.size && Admits(tx.target, to)
      && WellFormed(tx) && bytes == Front(tx, size)
      && now == tx.(target := Some(to), info := reply, size := size)
    case _ => tx.desc.None? && now == tx
  }

  predicate AllFatesOk(sent: map<nat, Tx>, outbox: map<nat, Tx>, done: map<nat, Fate>) {
    forall x | x in done :: x in sent && x in outbox && FateOk(sent[x], outbox[x], done[x])
  }

  predicate Faithful(m: Mailbox) {
    && (forall i | 0 <= i < |m.tx| :: QueuedOk(m.sent, m.outbox, m.tx[i].data))
    && (forall i | 0 <= i < |m.receipts| :: ReceiptOk(m.sent, m.outbox, m.done, m.receipts[i]))
    && AllFatesOk(m.sent, m.outbox, m.done)
  }

  predicate Reported(reports: seq<Report>, x: nat) {
    exists i :: 0 <= i < |reports| && reports[i].msg == x
  }

  /** The sender of each delivered message, and of no other, has heard of it, once, with the size. */
  predicate ReportsOk(done: map<nat, Fate>, reports: seq<Report>) {
    && (forall i | 0 <= i < |reports| ::
          reports[i].msg in done && done[reports[i].msg].Delivered? && done[reports[i].msg].size == reports[i].size)
    && (forall i, j | 0 <= i < j < |reports| :: reports[i].msg != reports[j].msg)
    && (forall x | x in done && done[x].Delivered? :: Reported(reports, x))
  }

  ghost predicate Inv(m: Mailbox, pool: multiset<nat>) {
    && NoPair(m.tx, m.rx) && ByPrio(m.tx) && ByPrio(m.rx)
    && Once(m.tx, m.receipts, m.done, m.sent)
    && Conserved(m.free, m.tx, m.receipts, pool)
    && Faithful(m)
    && ReportsOk(m.done, m.reports)
  }

  // ----- Queues ---------------------------------------------------------------------------

  lemma {:induction false} InsertByPrio<T>(q: seq<Waiter<T>>, w: Waiter<T>)
    requires ByPrio(q)
    ensures ByPrio(Insert(q, w))
  {
    if q != [] && w.prio >= q[0].prio {
      var rest := Insert(q[1..], w);
      InsertByPrio(q[1..], w);
      Members(q[1..], w);
      forall i | 0 <= i < |rest| ensures q[0].prio <= rest[i].prio {
        if rest[i] != w {
          var j :| 0 <= j < |q[1..]| && q[1..][j] == rest[i];
          assert q[j + 1] == rest[i];
        }
      }
    }
  }

  lemma {:induction false} TxWaits(tx: seq<Waiter<Tx>>, rx: seq<Waiter<Rx>>, w: Waiter<Tx>)
    requires NoPair(tx, rx) && FindRx(w.data, rx) == |rx|
    ensures NoPair(Insert(tx, w), rx)
  {
    var k := InsertedAt(tx, w);
  }

  lemma {:induction false} RxWaits(tx: seq<Waiter<Tx>>, rx: seq<Waiter<Rx>>, w: Waiter<Rx>)
    requires NoPair(tx, rx) && FindTx(tx, w.data) == |tx|
    ensures NoPair(tx, Insert(rx, w))
  {
    var k := InsertedAt(rx, w);
  }

  // ----- Steps ----------------------------------------------------------------------------

  lemma {:induction false} ParcelDropped(q: seq<Waiter<Tx>>, k: nat, f: Tx -> multiset<nat>)
    requires k < |q|
    ensures Bag(Parcels(q), f) == Bag(Parcels(Dropped(q, k)), f) + f(q[k].data)
  {
    BagDropped(Parcels(q), k, f);
    assert Parcels(Dropped(q, k)) == Dropped(Parcels(q), k);
  }


  // ----- One place for each message -------------------------------------------------------

  lemma {:induction false} AtMostOnce(a: multiset<nat>, b: multiset<nat>, d: set<nat>, all: set<nat>, x: nat)
    requires a + b + multiset(d) == multiset(all)
    ensures a[x] + b[x] + (if x in d then 1 else 0) == if x in all then 1 else 0
  {
    assert (a + b + multiset(d))[x] == a[x] + b[x] + multiset(d)[x];
  }

  lemma {:induction false} QueuedCounts(q: seq<Waiter<Tx>>, i: nat)
    requires i < |q|
    ensures Bag(Parcels(q), MsgOf)[q[i].data.msg] >= 1
  {
    ParcelDropped(q, i, MsgOf);
  }

  lemma {:induction false} OpenCounts(receipts: seq<Receipt>, i: nat)
    requires i < |receipts| && receipts[i].syncing
    ensures Open(receipts, MsgOf)[receipts[i].tx.msg] >= 1
  {
    OpenClosed(receipts, i, receipts[i].(syncing := false), MsgOf);
  }

  /** A queued message is queued once, not matched, and not done with. */
  lemma {:induction false} QueuedAlone(m: Mailbox, k: nat)
    requires Once(m.tx, m.receipts, m.done, m.sent) && k < |m.tx|
    ensures m.tx[k].data.msg !in m.done
    ensures forall i | 0 <= i < |m.tx| && i != k :: m.tx[i].data.msg != m.tx[k].data.msg
    ensures forall i | 0 <= i < |m.receipts| && m.receipts[i].syncing :: m.receipts[i].tx.msg != m.tx[k].data.msg
  {
    hide Bag, Open;
    var x := m.tx[k].data.msg;
    AtMostOnce(Bag(Parcels(m.tx), MsgOf), Open(m.receipts, MsgOf), m.done.Keys, m.sent.Keys, x);
    ParcelDropped(m.tx, k, MsgOf);
    var others := Dropped(m.tx, k);
    forall i | 0 <= i < |m.tx| && i != k ensures m.tx[i].data.msg != x {
      var j := if i < k then i else i - 1;
      assert others[j] == m.tx[i];
      QueuedCounts(others, j);
    }
    forall i | 0 <= i < |m.receipts| && m.receipts[i].syncing ensures m.receipts[i].tx.msg != x {
      OpenCounts(m.receipts, i);
    }
  }

  /** A matched message is with one receiver, not queued, and not done with. */
  lemma {:induction false} OpenAlone(m: Mailbox, k: nat)
    requires Once(m.tx, m.receipts, m.done, m.sent) && k < |m.receipts| && m.receipts[k].syncing
    ensures m.receipts[k].tx.msg !in m.done
    ensures forall i | 0 <= i < |m.tx| :: m.tx[i].data.msg != m.receipts[k].tx.msg
    ensures forall i | 0 <= i < |m.receipts| && i != k && m.receipts[i].syncing ::
              m.receipts[i].tx.msg != m.receipts[k].tx.msg
  {
    hide Bag, Open;
    var x := m.receipts[k].tx.msg;
    AtMostOnce(Bag(Parcels(m.tx), MsgOf), Open(m.receipts, MsgOf), m.done.Keys, m.sent.Keys, x);
    var others := m.receipts[k := m.receipts[k].(syncing := false)];
    OpenClosed(m.receipts, k, others[k], MsgOf);
    forall i | 0 <= i < |m.tx| ensures m.tx[i].data.msg != x {
      QueuedCounts(m.tx, i);
    }
    forall i | 0 <= i < |m.receipts| && i != k && m.receipts[i].syncing ensures m.receipts[i].tx.msg != x {
      OpenCounts(others, i);
    }
  }

  lemma {:induction false} KeysAdd<V>(a: map<nat, V>, x: nat, v: V)
    requires x !in a
    ensures multiset(a[x := v].Keys) == multiset(a.Keys) + multiset{x}
  {
  }

  // A put ---------------------------------------------------------------------------------

  lemma {:induction false} NotSentNotDone(m: Mailbox, x: nat)
    requires Faithful(m) && x !in m.sent
    ensures x !in m.done
  {
  }

  lemma {:induction false} PostedOnce(m: Mailbox, tx: Tx, prio: int, wait: bool)
    requires Once(m.tx, m.receipts, m.done, m.sent) && tx.msg !in m.sent && tx.msg !in m.done
    ensures var m' := Posted(m, tx, prio, wait).0; Once(m'.tx, m'.receipts, m'.done, m'.sent)
  {
    hide Bag, Open;
    KeysAdd(m.sent, tx.msg, tx);
    var k := FindRx(tx, m.rx);
    if k < |m.rx| {
      OpenAppended(m.receipts, Matched(tx, m.rx[k].data), MsgOf);
    } else if !wait {
      KeysAdd(m.done, tx.msg, Refused);
    } else {
      BagInserted(m.tx, Waiter(tx.msg, prio, tx), MsgOf);
    }
  }

  /** A put takes the descriptor it came with into the queue or to the receiver. */
  lemma {:induction false} PostedConserves(m: Mailbox, tx: Tx, prio: int, wait: bool, pool: multiset<nat>)
    requires multiset(m.free) + Bag(Parcels(m.tx), DescOf) + Open(m.receipts, DescOf) + DescOf(tx) == pool
    requires tx.desc.Some? ==> wait
    ensures var m' := Posted(m, tx, prio, wait).0; Conserved(m'.free, m'.tx, m'.receipts, pool)
  {
    hide Bag, Open;
    var k := FindRx(tx, m.rx);
    if k < |m.rx| {
      OpenAppended(m.receipts, Matched(tx, m.rx[k].data), DescOf);
    } else if wait {
      BagInserted(m.tx, Waiter(tx.msg, prio, tx), DescOf);
    }
  }

  lemma {:induction false} PostedQueues(m: Mailbox, tx: Tx, prio: int, wait: bool)
    requires NoPair(m.tx, m.rx) && ByPrio(m.tx) && ByPrio(m.rx)
    ensures var m' := Posted(m, tx, prio, wait).0; NoPair(m'.tx, m'.rx) && ByPrio(m'.tx) && ByPrio(m'.rx)
  {
    if FindRx(tx, m.rx) == |m.rx| && wait {
      TxWaits(m.tx, m.rx, Waiter(tx.msg, prio, tx));
      InsertByPrio(m.tx, Waiter(tx.msg, prio, tx));
    }
  }

  lemma {:induction false} PostedQueuedOk(m: Mailbox, tx: Tx, prio: int, wait: bool, i: nat)
    requires Faithful(m) && tx.msg !in m.sent && WellFormed(tx) && i < |Posted(m, tx, prio, wait).0.tx|
    ensures var m' := Posted(m, tx, prio, wait).0; QueuedOk(m'.sent, m'.outbox, m'.tx[i].data)
  {
    hide AllFatesOk, ReceiptOk;
    var m' := Posted(m, tx, prio, wait).0;
    Members(m.tx, Waiter(tx.msg, prio, tx));
    if m'.tx[i].data != tx {
      assert m'.tx[i] in m.tx;
    }
  }

  lemma {:induction false} PostedReceiptOk(m: Mailbox, tx: Tx, prio: int, wait: bool, i: nat)
    requires Faithful(m) && tx.msg !in m.sent && WellFormed(tx) && i < |Posted(m, tx, prio, wait).0.receipts|
    ensures var m' := Posted(m, tx, prio, wait).0; ReceiptOk(m'.sent, m'.outbox, m'.done, m'.receipts[i])
  {
    hide AllFatesOk, QueuedOk;
    if i < |m.receipts| {
      assert ReceiptOk(m.sent, m.outbox, m.done, m.receipts[i]);
    }
  }

  lemma {:induction false} PostedFaithful(m: Mailbox, tx: Tx, prio: int, wait: bool)
    requires Faithful(m) && tx.msg !in m.sent && WellFormed(tx) && (tx.desc.Some? ==> wait)
    ensures Faithful(Posted(m, tx, prio, wait).0)
  {
    hide QueuedOk, ReceiptOk;
    var m' := Posted(m, tx, prio, wait).0;
    forall i | 0 <= i < |m'.tx| ensures QueuedOk(m'.sent, m'.outbox, m'.tx[i].data) {
      PostedQueuedOk(m, tx, prio, wait, i);
    }
    forall i | 0 <= i < |m'.receipts| ensures ReceiptOk(m'.sent, m'.outbox, m'.done, m'.receipts[i]) {
      PostedReceiptOk(m, tx, prio, wait, i);
    }
  }

  lemma {:induction false} PutKeepsInv(m: Mailbox, pool: multiset<nat>, tx: Tx, prio: int, wait: bool)
    requires Inv(m, pool) && Allowed(m, Put(tx, prio, wait))
    ensures Inv(Step(m, Put(tx, prio, wait)).0, pool)
  {
    hide Bag, Open, Once, NoPair, ByPrio, Faithful;
    NotSentNotDone(m, tx.msg);
    PostedOnce(m, tx, prio, wait);
    PostedConserves(m, tx, prio, wait, pool);
    PostedQueues(m, tx, prio, wait);
    PostedFaithful(m, tx, prio, wait);
  }

  lemma {:induction false} AsyncPutKeepsInv(m: Mailbox, pool: multiset<nat>, tx: Tx, prio: int)
    requires Inv(m, pool) && Allowed(m, AsyncPut(tx, prio))
    ensures Inv(Step(m, AsyncPut(tx, prio)).0, pool)
  {
    hide Bag, Open, Once, NoPair, ByPrio;
    var last := |m.free| - 1;
    var m1 := m.(free := m.free[..last]);
    var tx1 := tx.(desc := Some(m.free[last]));
    assert m.free == m.free[..last] + [m.free[last]];
    NotSentNotDone(m, tx.msg);
    PostedOnce(m1, tx1, prio, true);
    PostedConserves(m1, tx1, prio, true, pool);
    PostedQueues(m1, tx1, prio, true);
    PostedFaithful(m1, tx1, prio, true);
  }

  // A get and what follows it -------------------------------------------------------------

  lemma {:induction false} TakenConserves(m: Mailbox, pool: multiset<nat>, k: nat, r: Receipt)
    requires k < |m.tx| && r.tx == m.tx[k].data && r.syncing
    requires Once(m.tx, m.receipts, m.done, m.sent) && Conserved(m.free, m.tx, m.receipts, pool)
    ensures Once(Dropped(m.tx, k), m.receipts + [r], m.done, m.sent)
    ensures Conserved(m.free, Dropped(m.tx, k), m.receipts + [r], pool)
  {
    hide Bag, Open;
    ParcelDropped(m.tx, k, MsgOf);
    ParcelDropped(m.tx, k, DescOf);
    OpenAppended(m.receipts, r, MsgOf);
    OpenAppended(m.receipts, r, DescOf);
  }

  lemma {:induction false} TakenFaithful(m: Mailbox, k: nat, rx: Rx)
    requires Faithful(m) && Once(m.tx, m.receipts, m.done, m.sent)
    requires k < |m.tx| && Compatible(m.tx[k].data, rx)
    ensures Faithful(Paired(m.(tx := Dropped(m.tx, k)), Matched(m.tx[k].data, rx)))
  {
    hide Once;
    QueuedAlone(m, k);
    var m' := Paired(m.(tx := Dropped(m.tx, k)), Matched(m.tx[k].data, rx));
    assert QueuedOk(m.sent, m.outbox, m.tx[k].data);
    forall i | 0 <= i < |m'.receipts| ensures ReceiptOk(m'.sent, m'.outbox, m'.done, m'.receipts[i]) {
      if i < |m.receipts| {
        assert ReceiptOk(m.sent, m.outbox, m.done, m.receipts[i]);
      }
    }
    forall i | 0 <= i < |m'.tx| ensures QueuedOk(m'.sent, m'.outbox, m'.tx[i].data) {
      assert QueuedOk(m.sent, m.outbox, m.tx[if i < k then i else i + 1].data);
    }
  }

  lemma {:induction false} GetKeepsInv(m: Mailbox, pool: multiset<nat>, rx: Rx, prio: int, wait: bool)
    requires Inv(m, pool)
    ensures Inv(Step(m, Get(rx, prio, wait)).0, pool)
  {
    hide Bag, Open, Once, Conserved, Faithful, ReportsOk;
    var k := FindTx(m.tx, rx);
    if k < |m.tx| {
      TakenConserves(m, pool, k, Matched(m.tx[k].data, rx));
      TakenFaithful(m, k, rx);
    } else if wait {
      RxWaits(m.tx, m.rx, Waiter(rx.receiver, prio, rx));
      InsertByPrio(m.rx, Waiter(rx.receiver, prio, rx));
      SameParcels(m, m.(rx := Insert(m.rx, Waiter(rx.receiver, prio, rx))));
    }
  }

  /** The queue of receivers has no part in what became of messages. */
  lemma {:induction false} SameParcels(m: Mailbox, m': Mailbox)
    requires Faithful(m) && m' == m.(rx := m'.rx)
    ensures Faithful(m')
  {
  }

  // Disposal ------------------------------------------------------------------------------

  /** The first disposal of a matched message, with the size the descriptor ends with. */
  function Closed(m: Mailbox, k: nat, size: nat, bytes: seq<Byte>): Mailbox
    requires k < |m.receipts|
  {
    var r := m.receipts[k];
    m.(receipts := m.receipts[k := r.(rx := r.rx.(size := size), syncing := false)],
       outbox := m.outbox[r.tx.msg := Told(r).(size := size)],
       done := m.done[r.tx.msg := Delivered(r.rx.receiver, size, r.reply, bytes)],
       free := if r.tx.desc.Some? then m.free + [r.tx.desc.value] else m.free,
       reports := m.reports + [Report(r.tx.msg, size)])
  }

  lemma {:induction false} ClosedOnce(m: Mailbox, k: nat, size: nat, bytes: seq<Byte>)
    requires Once(m.tx, m.receipts, m.done, m.sent) && k < |m.receipts| && m.receipts[k].syncing
    requires m.receipts[k].tx.msg !in m.done
    ensures var m' := Closed(m, k, size, bytes); Once(m'.tx, m'.receipts, m'.done, m'.sent)
  {
    hide Bag, Open;
    var m' := Closed(m, k, size, bytes);
    var x := m.receipts[k].tx.msg;
    OpenClosed(m.receipts, k, m'.receipts[k], MsgOf);
    KeysAdd(m.done, x, m'.done[x]);
    Regroup(Open(m'.receipts, MsgOf), multiset{x}, multiset(m.done.Keys));
    Regroup(multiset{x}, multiset(m.done.Keys), multiset{});
    Regroup(Bag(Parcels(m.tx), MsgOf), Open(m.receipts, MsgOf), multiset(m.done.Keys));
    Regroup(Bag(Parcels(m.tx), MsgOf), Open(m'.receipts, MsgOf), multiset(m'.done.Keys));
  }

  lemma {:induction false} ClosedConserves(m: Mailbox, pool: multiset<nat>, k: nat, size: nat, bytes: seq<Byte>)
    requires Conserved(m.free, m.tx, m.receipts, pool) && k < |m.receipts| && m.receipts[k].syncing
    ensures var m' := Closed(m, k, size, bytes); Conserved(m'.free, m'.tx, m'.receipts, pool)
  {
    hide Bag, Open;
    var m' := Closed(m, k, size, bytes);
    OpenClosed(m.receipts, k, m'.receipts[k], DescOf);
    var d := DescOf(m.receipts[k].tx);
    assert multiset(m'.free) == multiset(m.free) + d;
    Regroup(multiset(m.free), d, Bag(Parcels(m.tx), DescOf));
    Regroup(multiset(m.free) + Bag(Parcels(m.tx), DescOf), Open(m'.receipts, DescOf), d);
  }

  lemma {:induction false} ClosedFaithful(m: Mailbox, k: nat, size: nat, bytes: seq<Byte>)
    requires Faithful(m) && Once(m.tx, m.receipts, m.done, m.sent)
    requires k < |m.receipts| && m.receipts[k].syncing && HasData(m.receipts[k])
    requires size == 0 || size == m.receipts[k].rx.size
    requires bytes == Front(m.receipts[k].tx, size)
    ensures Faithful(Closed(m, k, size, bytes))
  {
    OpenAlone(m, k);
    hide Once;
    var m' := Closed(m, k, size, bytes);
    var x := m.receipts[k].tx.msg;
    assert ReceiptOk(m.sent, m.outbox, m.done, m.receipts[k]);
    forall i | 0 <= i < |m'.tx| ensures QueuedOk(m'.sent, m'.outbox, m'.tx[i].data) {
      assert QueuedOk(m.sent, m.outbox, m.tx[i].data);
    }
    forall i | 0 <= i < |m'.receipts| ensures ReceiptOk(m'.sent, m'.outbox, m'.done, m'.receipts[i]) {
      assert ReceiptOk(m.sent, m.outbox, m.done, m.receipts[i]);
    }
    assert FateOk(m'.sent[x], m'.outbox[x], m'.done[x]);
  }

  lemma {:induction false} ClosedReports(m: Mailbox, k: nat, size: nat, bytes: seq<Byte>)
    requires ReportsOk(m.done, m.reports) && k < |m.receipts| && m.receipts[k].tx.msg !in m.done
    ensures ReportsOk(Closed(m, k, size, bytes).done, Closed(m, k, size, bytes).reports)
  {
    var m' := Closed(m, k, size, bytes);
    forall x | x in m'.done && m'.done[x].Delivered? ensures Reported(m'.reports, x) {
      if x == m.receipts[k].tx.msg {
        assert m'.reports[|m.reports|].msg == x;
      } else {
        var i :| 0 <= i < |m.reports| && m.reports[i].msg == x;
        assert m'.reports[i].msg == x;
      }
    }
  }

  /** The first disposal keeps the invariant. */
  lemma {:induction false} ClosedKeepsInv(m: Mailbox, pool: multiset<nat>, k: nat, size: nat, bytes: seq<Byte>)
    requires Inv(m, pool) && k < |m.receipts| && m.receipts[k].syncing && HasData(m.receipts[k])
    requires size == 0 || size == m.receipts[k].rx.size
    requires bytes == Front(m.receipts[k].tx, size)
    ensures Inv(Closed(m, k, size, bytes), pool)
  {
    OpenAlone(m, k);
    hide Bag, Open, Once, NoPair, ByPrio, Faithful, ReportsOk, Conserved;
    ClosedOnce(m, k, size, bytes);
    ClosedConserves(m, pool, k, size, bytes);
    ClosedFaithful(m, k, size, bytes);
    ClosedReports(m, k, size, bytes);
  }

  /** Giving up on the data of a message that was disposed of before concerns nobody else. */
  lemma {:induction false} EmptiedKeepsInv(m: Mailbox, pool: multiset<nat>, k: nat)
    requires Inv(m, pool) && k < |m.receipts| && !m.receipts[k].syncing
    ensures Inv(Emptied(m, k), pool)
  {
    hide Bag, Open, NoPair, ByPrio, ReportsOk;
    var r := m.receipts[k].(rx := m.receipts[k].rx.(size := 0));
    OpenSame(m.receipts, k, r, MsgOf);
    OpenSame(m.receipts, k, r, DescOf);
    assert ReceiptOk(m.sent, m.outbox, m.done, m.receipts[k]);
  }

  /** A call for the data is the first disposal, or concerns the receiver alone. */
  lemma {:induction false} FetchedIs(m: Mailbox, k: nat, discard: bool)
    requires k < |m.receipts| && HasData(m.receipts[k])
    ensures var r := m.receipts[k];
            Fetched(m, k, discard) ==
            if r.syncing then Closed(m, k, if discard then 0 else r.rx.size, if discard then [] else Copied(r))
            else if discard then Emptied(m, k) else m
  {
    var r := m.receipts[k];
    assert r.rx.(size := r.rx.size) == r.rx;
    var r1 := r.(rx := r.rx.(size := 0));
    assert m.receipts[k := r1][k := r1.(syncing := false)] == m.receipts[k := r1.(syncing := false)];
  }

  lemma {:induction false} FetchedKeepsInv(m: Mailbox, pool: multiset<nat>, k: nat, discard: bool)
    requires Inv(m, pool) && k < |m.receipts| && HasData(m.receipts[k])
    ensures Inv(Fetched(m, k, discard), pool)
  {
    hide Inv, Fetched, Closed, Emptied;
    FetchedIs(m, k, discard);
    var r := m.receipts[k];
    if r.syncing {
      ClosedKeepsInv(m, pool, k, if discard then 0 else r.rx.size, if discard then [] else Copied(r));
    } else if discard {
      EmptiedKeepsInv(m, pool, k);
    }
  }

  lemma {:induction false} CheckKeepsInv(m: Mailbox, pool: multiset<nat>, k: nat)
    requires Inv(m, pool) && k < |m.receipts| && HasData(m.receipts[k])
    ensures Inv(CheckedData(m, k), pool)
  {
    FetchedIs(m, k, false);
    hide Inv, Fetched;
    var r := m.receipts[k];
    if r.rx.now || (r.rx.size == 0 && r.syncing) {
      FetchedKeepsInv(m, pool, k, false);
      assert r.rx.size == 0 ==> Copied(r) == [];
    }
  }

  lemma {:induction false} ExpiredConserves(m: Mailbox, pool: multiset<nat>, k: nat)
    requires Once(m.tx, m.receipts, m.done, m.sent) && Conserved(m.free, m.tx, m.receipts, pool)
    requires k < |m.tx| && m.tx[k].data.desc.None? && m.tx[k].data.msg !in m.done
    ensures Once(Dropped(m.tx, k), m.receipts, m.done[m.tx[k].data.msg := Expired], m.sent)
    ensures Conserved(m.free, Dropped(m.tx, k), m.receipts, pool)
  {
    hide Bag, Open;
    ParcelDropped(m.tx, k, MsgOf);
    ParcelDropped(m.tx, k, DescOf);
    KeysAdd(m.done, m.tx[k].data.msg, Expired);
  }

  lemma {:induction false} ExpiredFaithful(m: Mailbox, k: nat)
    requires Faithful(m) && k < |m.tx| && m.tx[k].data.desc.None? && m.tx[k].data.msg !in m.done
    ensures Faithful(m.(tx := Dropped(m.tx, k), done := m.done[m.tx[k].data.msg := Expired]))
  {
    assert QueuedOk(m.sent, m.outbox, m.tx[k].data);
    forall i | 0 <= i < |m.receipts|
      ensures ReceiptOk(m.sent, m.outbox, m.done[m.tx[k].data.msg := Expired], m.receipts[i])
    {
      assert ReceiptOk(m.sent, m.outbox, m.done, m.receipts[i]);
    }
  }

  lemma {:induction false} ExpiredReports(done: map<nat, Fate>, reports: seq<Report>, x: nat)
    requires ReportsOk(done, reports) && x !in done
    ensures ReportsOk(done[x := Expired], reports)
  {
  }

  lemma {:induction false} ExpireTxKeepsInv(m: Mailbox, pool: multiset<nat>, k: nat)
    requires Inv(m, pool) && Allowed(m, ExpireTx(k))
    ensures Inv(Step(m, ExpireTx(k)).0, pool)
  {
    hide Bag, Open, Once, Conserved, Faithful, ReportsOk, NoPair, ByPrio;
    QueuedAlone(m, k);
    ExpiredConserves(m, pool, k);
    ExpiredFaithful(m, k);
    ExpiredReports(m.done, m.reports, m.tx[k].data.msg);
    DroppedKeepsQueues(m.tx, m.rx, k, |m.rx|);
  }

  lemma {:induction false} ExpireRxKeepsInv(m: Mailbox, pool: multiset<nat>, k: nat)
    requires Inv(m, pool) && Allowed(m, ExpireRx(k))
    ensures Inv(Step(m, ExpireRx(k)).0, pool)
  {
    hide Bag, Open, Once, Conserved, Faithful, ReportsOk, NoPair, ByPrio;
    SameParcels(m, m.(rx := Dropped(m.rx, k)));
    DroppedKeepsQueues(m.tx, m.rx, |m.tx|, k);
  }

  /** Waiters who leave leave no compatible pair behind. */
  lemma {:induction false} DroppedKeepsQueues(tx: seq<Waiter<Tx>>, rx: seq<Waiter<Rx>>, i: nat, j: nat)
    requires NoPair(tx, rx) && ByPrio(tx) && ByPrio(rx)
    ensures i < |tx| ==> NoPair(Dropped(tx, i), rx) && ByPrio(Dropped(tx, i))
    ensures j < |rx| ==> NoPair(tx, Dropped(rx, j)) && ByPrio(Dropped(rx, j))
  {
  }

  lemma {:induction false} StepKeepsInv(m: Mailbox, pool: multiset<nat>, call: Call)
    requires Inv(m, pool) && Allowed(m, call)
    ensures Inv(Step(m, call).0, pool)
  {
    hide Inv, Fetched, CheckedData;
    match call
    case Put(tx, prio, wait) => PutKeepsInv(m, pool, tx, prio, wait);
    case AsyncPut(tx, prio) => AsyncPutKeepsInv(m, pool, tx, prio);
    case Get(rx, prio, wait) => GetKeepsInv(m, pool, rx, prio, wait);
    case Check(k) => CheckKeepsInv(m, pool, k);
    case DataGet(k, discard) => FetchedKeepsInv(m, pool, k, discard);
    case ExpireTx(k) => ExpireTxKeepsInv(m, pool, k);
    case ExpireRx(k) => ExpireRxKeepsInv(m, pool, k);
  }

  // ----- Every run ------------------------------------------------------------------------

  ghost predicate Runs(from: Mailbox, calls: seq<Call>, to: Mailbox)
    decreases |calls|
  {
    if calls == [] then to == from
    else Allowed(from, calls[0]) && Runs(Step(from, calls[0]).0, calls[1..], to)
  }

  function Fresh(descs: seq<nat>): Mailbox {
    Mailbox([], [], [], descs, map[], map[], map[], [])
  }

  lemma {:induction false} FreshInv(descs: seq<nat>)
    ensures Inv(Fresh(descs), multiset(descs))
  {
  }

  /**
   No compatible pair waits, every message has one fate, no descriptor is lost or shared, and
   each sender hears of its message once, however often receivers ask for the data.
   */
  lemma {:induction false} EveryRun(from: Mailbox, pool: multiset<nat>, calls: seq<Call>, to: Mailbox)
    requires Inv(from, pool) && Runs(from, calls, to)
    ensures Inv(to, pool)
    decreases |calls|
  {
    hide Inv, Step;
    if calls != [] {
      StepKeepsInv(from, pool, calls[0]);
      EveryRun(Step(from, calls[0]).0, pool, calls[1..], to);
    }
  }

  /** The data of every descriptor ever matched may be asked for, as often as one likes. */
  lemma {:induction false} AlwaysAllowed(m: Mailbox, pool: multiset<nat>, k: nat, discard: bool)
    requires Inv(m, pool) && k < |m.receipts|
    ensures Allowed(m, DataGet(k, discard)) && Allowed(m, Check(k))
  {
    assert ReceiptOk(m.sent, m.outbox, m.done, m.receipts[k]);
  }

  lemma {:induction false} ReceiptStays(m: Mailbox, call: Call, k: nat)
    requires Allowed(m, call) && k < |m.receipts|
    ensures var after := Step(m, call).0.receipts;
            k < |after| && after[k].tx == m.receipts[k].tx && (after[k].syncing ==> m.receipts[k].syncing)
  {
    match call
    case Put(_, _, _) =>
    case AsyncPut(_, _) =>
    case Get(_, _, _) =>
    case Check(_) =>
    case DataGet(_, _) =>
    case ExpireTx(_) =>
    case ExpireRx(_) =>
  }

  /** A receipt stays a receipt of the same message, and once disposed of stays so, over every run. */
  lemma {:induction false} DisposedStays(from: Mailbox, pool: multiset<nat>, calls: seq<Call>, to: Mailbox, k: nat)
    requires Inv(from, pool) && Runs(from, calls, to) && k < |from.receipts|
    ensures k < |to.receipts| && to.receipts[k].tx == from.receipts[k].tx
    ensures !from.receipts[k].syncing ==> !to.receipts[k].syncing
    decreases |calls|
  {
    if calls != [] {
      StepKeepsInv(from, pool, calls[0]);
      ReceiptStays(from, calls[0], k);
      hide Inv, Step;
      DisposedStays(Step(from, calls[0]).0, pool, calls[1..], to, k);
    }
  }

  /** Asking again for a message that was disposed of wakes nobody, frees nothing and changes no fate. */
  lemma {:induction false} SecondDisposalIsNothing(m: Mailbox, pool: multiset<nat>, k: nat, call: Call)
    requires Inv(m, pool) && k < |m.receipts| && !m.receipts[k].syncing
    requires call == Check(k) || call == DataGet(k, true) || call == DataGet(k, false)
    ensures Allowed(m, call)
    ensures Step(m, call).0 == m.(receipts := Step(m, call).0.receipts)
    ensures Open(Step(m, call).0.receipts, MsgOf) == Open(m.receipts, MsgOf)
    ensures Open(Step(m, call).0.receipts, DescOf) == Open(m.receipts, DescOf)
  {
    hide Inv, Open, Fetched;
    AlwaysAllowed(m, pool, k, false);
    FetchedIs(m, k, true);
    FetchedIs(m, k, false);
    var r := m.receipts[k].(rx := m.receipts[k].rx.(size := 0));
    OpenSame(m.receipts, k, r, MsgOf);
    OpenSame(m.receipts, k, r, DescOf);
  }

  /** Two receivers never hold the same message, and one that holds it is the only one to settle its fate. */
  lemma {:induction false} MatchedOnce(m: Mailbox, pool: multiset<nat>, i: nat, j: nat)
    requires Inv(m, pool) && i < |m.receipts| && j < |m.receipts| && i != j && m.receipts[i].syncing
    ensures m.receipts[i].tx.msg != m.receipts[j].tx.msg && m.receipts[i].tx.msg !in m.done
  {
    OpenAlone(m, i);
    assert ReceiptOk(m.sent, m.outbox, m.done, m.receipts[j]);
    hide Open, Bag, NoPair, ByPrio;
  }

  lemma {:induction false} DoneWasSent(m: Mailbox, pool: multiset<nat>, x: nat)
    requires Inv(m, pool) && x in m.done
    ensures x in m.sent && forall k | 0 <= k < |m.tx| :: m.tx[k].data.msg != x
  {
    hide Bag, Open, NoPair, ByPrio;
    forall k | 0 <= k < |m.tx| ensures m.tx[k].data.msg != x {
      QueuedAlone(m, k);
    }
  }

  lemma {:induction false} PostedChanges(m: Mailbox, tx: Tx, prio: int, wait: bool, x: nat)
    requires x in m.done && x != tx.msg
    ensures x in Posted(m, tx, prio, wait).0.done && Posted(m, tx, prio, wait).0.done[x] == m.done[x]
  {
  }

  lemma {:induction false} ReceivedChanges(m: Mailbox, rx: Rx, prio: int, wait: bool)
    ensures Received(m, rx, prio, wait).0.done == m.done
  {
  }

  lemma {:induction false} FetchedChanges(m: Mailbox, pool: multiset<nat>, k: nat, discard: bool, x: nat)
    requires Inv(m, pool) && k < |m.receipts| && HasData(m.receipts[k]) && x in m.done
    ensures x in Fetched(m, k, discard).done && Fetched(m, k, discard).done[x] == m.done[x]
    ensures m.receipts[k].syncing ==> m.receipts[k].tx.msg != x
  {
    if m.receipts[k].syncing {
      OpenAlone(m, k);
    }
    hide Inv;
  }

  /** Once a message is done with, its fate never changes. */
  lemma {:induction false} FateIsFinal(m: Mailbox, pool: multiset<nat>, call: Call, x: nat)
    requires Inv(m, pool) && Allowed(m, call) && x in m.done
    ensures x in Step(m, call).0.done && Step(m, call).0.done[x] == m.done[x]
  {
    hide Inv, Fetched, Posted, Received;
    DoneWasSent(m, pool, x);
    match call
    case Put(tx, prio, wait) => PostedChanges(m, tx, prio, wait, x);
    case AsyncPut(tx, prio) =>
      var last := |m.free| - 1;
      PostedChanges(m.(free := m.free[..last]), tx.(desc := Some(m.free[last])), prio, true, x);
    case Get(rx, prio, wait) => ReceivedChanges(m, rx, prio, wait);
    case Check(k) => FetchedChanges(m, pool, k, false, x);
    case DataGet(k, discard) => FetchedChanges(m, pool, k, discard, x);
    case ExpireTx(_) =>
    case ExpireRx(_) =>
  }

  /**
   When a sender wakes after its message was received, its descriptor names the receiver and
   holds what the receiver took: all that fits into what it asked for, or nothing at all.
   */
  lemma {:induction false} SizeReported(descs: seq<nat>, calls: seq<Call>, m: Mailbox, i: nat)
    requires Runs(Fresh(descs), calls, m) && i < |m.reports|
    ensures var x := m.reports[i].msg;
            && x in m.outbox && m.outbox[x].size == m.reports[i].size
            && x in m.done && m.done[x].Delivered? && m.outbox[x].target == Some(m.done[x].to)
            && forall k | 0 <= k < |m.receipts| && m.receipts[k].tx.msg == x ::
                 && !m.receipts[k].syncing && m.receipts[k].rx.receiver == m.done[x].to
                 && m.outbox[x].info == m.receipts[k].reply
                 && (m.reports[i].size == 0 || m.reports[i].size == Min(m.receipts[k].tx.size, m.receipts[k].asked))
  {
    FreshInv(descs);
    EveryRun(Fresh(descs), multiset(descs), calls, m);
    var x := m.reports[i].msg;
    forall k | 0 <= k < |m.receipts| && m.receipts[k].tx.msg == x
      ensures !m.receipts[k].syncing && ReceiptOk(m.sent, m.outbox, m.done, m.receipts[k])
    {
      if m.receipts[k].syncing {
        OpenAlone(m, k);
      }
    }
    hide Open, Bag, NoPair, ByPrio, Once, Conserved;
  }

  /** The number of descriptors in use and free always add up to the pool. */
  lemma {:induction false} DescriptorsAddUp(m: Mailbox, pool: multiset<nat>)
    requires Inv(m, pool)
    ensures |m.free| + |Bag(Parcels(m.tx), DescOf)| + |Open(m.receipts, DescOf)| == |pool|
  {
  }

  /** A message goes to the compatible receiver that is first by priority, then by arrival. */
  lemma {:induction false} BestReceiver(m: Mailbox, pool: multiset<nat>, tx: Tx, prio: int, wait: bool, i: nat)
    requires Inv(m, pool) && Allowed(m, Put(tx, prio, wait)) && i < |m.rx| && Compatible(tx, m.rx[i].data)
    ensures var k := FindRx(tx, m.rx);
            && k <= i && m.rx[k].prio <= m.rx[i].prio
            && Step(m, Put(tx, prio, wait)).0.receipts == m.receipts + [Matched(tx, m.rx[k].data)]
  {    hide Bag, Open, Once, Conserved, Faithful, ReportsOk, NoPair;
  }
}
