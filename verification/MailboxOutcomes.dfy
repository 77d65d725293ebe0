/** What senders and receivers are told by each mailbox call, and what the call does to the others. */
module MailboxOutcomes {
  import opened Seqs
  import opened WaitQueues
  import opened Mailboxes

  // ----- A match --------------------------------------------------------------------------

  /**
   A match tells the receiver who sent, the sender's info and the smaller size; it keeps what the
   receiver asked for and its own info, and sets the syncing thread.
   */
  predicate IsMatch(r: Receipt, tx: Tx, rx: Rx) {
    && r.tx == tx && r.syncing && r.asked == rx.size && r.reply == rx.info
    && r.rx == Rx(rx.receiver, Some(tx.sender), if tx.size < rx.size then tx.size else rx.size, tx.info, rx.now)
  }

  /** A match tells the sender who receives, and the receiver's info. */
  predicate IsTold(now: Tx, tx: Tx, rx: Rx) {
    now == tx.(target := Some(rx.receiver), info := rx.info)
  }

  /** The two were paired: one more receipt, and the sender's descriptor says so. */
  predicate Pairs(m: Mailbox, m': Mailbox, tx: Tx, rx: Rx) {
    && |m'.receipts| == |m.receipts| + 1 && m'.receipts[..|m.receipts|] == m.receipts
    && IsMatch(m'.receipts[|m.receipts|], tx, rx)
    && tx.msg in m'.outbox && IsTold(m'.outbox[tx.msg], tx, rx)
    && m'.done == m.done && m'.reports == m.reports
  }

  predicate FirstRx(m: Mailbox, tx: Tx, k: nat) {
    && k < |m.rx| && Compatible(tx, m.rx[k].data)
    && forall i | 0 <= i < k :: !Compatible(tx, m.rx[i].data)
  }

  predicate FirstTx(m: Mailbox, rx: Rx, k: nat) {
    && k < |m.tx| && Compatible(m.tx[k].data, rx)
    && forall i | 0 <= i < k :: !Compatible(m.tx[i].data, rx)
  }

  predicate NoRx(m: Mailbox, tx: Tx) {
    forall i | 0 <= i < |m.rx| :: !Compatible(tx, m.rx[i].data)
  }

  predicate NoTx(m: Mailbox, rx: Rx) {
    forall i | 0 <= i < |m.tx| :: !Compatible(m.tx[i].data, rx)
  }

  /** Compatible is what both sides admit, and nobody in particular admits everybody. */
  lemma {:induction false} CompatibleIs(tx: Tx, rx: Rx)
    ensures Compatible(tx, rx) <==>
              && (tx.target == None || tx.target == Some(rx.receiver))
              && (rx.source == None || rx.source == Some(tx.sender))
  {
  }

  // ----- Sending --------------------------------------------------------------------------

  /** What a send does, with the descriptor it is sent with, if it is asynchronous. */
  ghost predicate Sent(m: Mailbox, m': Mailbox, tx: Tx, prio: int, wait: bool) {
    && m'.sent == m.sent[tx.msg := tx]
    && (forall k: nat | FirstRx(m, tx, k) ::
          Pairs(m, m', tx, m.rx[k].data) && m'.rx == Dropped(m.rx, k) && m'.tx == m.tx)
    && (NoRx(m, tx) ==> m'.rx == m.rx && m'.receipts == m.receipts && m'.reports == m.reports)
    && (NoRx(m, tx) && !wait ==> m'.tx == m.tx && m'.done == m.done[tx.msg := Refused])
    && (NoRx(m, tx) && wait ==> Queued(m.tx, m'.tx, Waiter(tx.msg, prio, tx)) && m'.done == m.done)
  }

  lemma {:induction false} PostedSends(m: Mailbox, tx: Tx, prio: int, wait: bool)
    requires ByPrio(m.tx)
    ensures Sent(m, Posted(m, tx, prio, wait).0, tx, prio, wait) && Posted(m, tx, prio, wait).0.free == m.free
    ensures Posted(m, tx, prio, wait).1 ==
            if NoRx(m, tx) && !wait then NoMsg else if tx.desc.Some? then Ok else Pending
  {
    InsertQueues(m.tx, Waiter(tx.msg, prio, tx));
    var k := FindRx(tx, m.rx);
    if k < |m.rx| {
      assert FirstRx(m, tx, k);
      forall j: nat | FirstRx(m, tx, j) ensures j == k {
      }
    }
    hide Queued;
  }

  /**
   A synchronous send is refused with -ENOMSG exactly when nobody fitting waits and it may not
   wait either; otherwise it pends, paired with the first fitting receiver or in the queue.
   */
  lemma {:induction false} PutOutcome(m: Mailbox, pool: multiset<nat>, tx: Tx, prio: int, wait: bool)
    requires Inv(m, pool) && Allowed(m, Put(tx, prio, wait))
    ensures var (m', code) := Step(m, Put(tx, prio, wait));
            && Sent(m, m', tx, prio, wait) && m'.free == m.free
            && code == if NoRx(m, tx) && !wait then NoMsg else Pending
  {
    hide Sent, Posted;
    PostedSends(m, tx, prio, wait);
  }

  /** An asynchronous send takes the descriptor freed last, never waits and never fails. */
  lemma {:induction false} AsyncPutOutcome(m: Mailbox, pool: multiset<nat>, tx: Tx, prio: int)
    requires Inv(m, pool) && Allowed(m, AsyncPut(tx, prio))
    ensures var (m', code) := Step(m, AsyncPut(tx, prio));
            var last := |m.free| - 1;
            && m'.free == m.free[..last] && code == Ok
            && Sent(m.(free := m'.free), m', tx.(desc := Some(m.free[last])), prio, true)
  {
    var last := |m.free| - 1;
    PostedSends(m.(free := m.free[..last]), tx.(desc := Some(m.free[last])), prio, true);
    hide Inv, Sent, Posted;
  }

  // ----- Receiving ------------------------------------------------------------------------

  /** What a receive does up to the check of the data. */
  ghost predicate Got(m: Mailbox, m': Mailbox, code: Code, rx: Rx, prio: int, wait: bool) {
    && m'.sent == m.sent && m'.free == m.free
    && (forall k: nat | FirstTx(m, rx, k) ::
          Pairs(m, m', m.tx[k].data, rx) && m'.tx == Dropped(m.tx, k) && m'.rx == m.rx && code == Ok)
    && (NoTx(m, rx) && !wait ==> m' == m && code == NoMsg)
    && (NoTx(m, rx) && wait ==>
          m' == m.(rx := m'.rx) && Queued(m.rx, m'.rx, Waiter(rx.receiver, prio, rx)) && code == Pending)
  }

  lemma {:induction false} ReceivedGets(m: Mailbox, rx: Rx, prio: int, wait: bool)
    requires ByPrio(m.rx)
    ensures Got(m, Received(m, rx, prio, wait).0, Received(m, rx, prio, wait).1, rx, prio, wait)
  {
    InsertQueues(m.rx, Waiter(rx.receiver, prio, rx));
    var k := FindTx(m.tx, rx);
    if k < |m.tx| {
      assert FirstTx(m, rx, k);
      forall j: nat | FirstTx(m, rx, j) ensures j == k {
      }
    }
    hide Queued;
  }

  /**
   A receive is paired with the first fitting sender, at once; without one it is refused with
   -ENOMSG if it may not wait, and waits last among those of its priority otherwise.
   */
  lemma {:induction false} GetOutcome(m: Mailbox, pool: multiset<nat>, rx: Rx, prio: int, wait: bool)
    requires Inv(m, pool)
    ensures Got(m, Step(m, Get(rx, prio, wait)).0, Step(m, Get(rx, prio, wait)).1, rx, prio, wait)
  {
    ReceivedGets(m, rx, prio, wait);
    hide Inv, Got, Received;
  }

  // ----- Disposing ------------------------------------------------------------------------

  /**
   The first call for the data ends the message: the sender is told, once, the size that was
   taken; what was taken is the front of what was sent; an asynchronous descriptor is free again.
   */
  predicate Ends(m: Mailbox, m': Mailbox, k: nat, size: nat)
    requires k < |m.receipts|
  {
    var r := m.receipts[k];
    && WellFormed(r.tx) && size <= r.tx.size
    && m'.receipts == m.receipts[k := r.(rx := r.rx.(size := size), syncing := false)]
    && m'.done == m.done[r.tx.msg := Delivered(r.rx.receiver, size, r.reply, Front(r.tx, size))]
    && m'.reports == m.reports + [Report(r.tx.msg, size)]
    && m'.free == (if r.tx.desc.Some? then m.free + [r.tx.desc.value] else m.free)
    && r.tx.msg in m'.outbox && m'.outbox[r.tx.msg].size == size
    && m'.tx == m.tx && m'.rx == m.rx && m'.sent == m.sent
  }

  lemma {:induction false} DataGetOutcome(m: Mailbox, pool: multiset<nat>, k: nat, discard: bool)
    requires Inv(m, pool) && k < |m.receipts| && m.receipts[k].syncing
    ensures Allowed(m, DataGet(k, discard))
    ensures var r := m.receipts[k];
            Ends(m, Step(m, DataGet(k, discard)).0, k, if discard then 0 else Min(r.tx.size, r.asked))
  {
    AlwaysAllowed(m, pool, k, discard);
    assert ReceiptOk(m.sent, m.outbox, m.done, m.receipts[k]);
    hide Inv;
    FetchedIs(m, k, discard);
  }

  /** The check after a receive takes the data at once with a buffer or without data, and keeps it otherwise. */
  lemma {:induction false} CheckOutcome(m: Mailbox, pool: multiset<nat>, k: nat)
    requires Inv(m, pool) && k < |m.receipts| && m.receipts[k].syncing
    ensures Allowed(m, Check(k))
    ensures var r := m.receipts[k];
            if r.rx.now || Min(r.tx.size, r.asked) == 0 then Ends(m, Step(m, Check(k)).0, k, Min(r.tx.size, r.asked))
            else Step(m, Check(k)).0 == m
  {
    AlwaysAllowed(m, pool, k, false);
    assert ReceiptOk(m.sent, m.outbox, m.done, m.receipts[k]);
    hide Inv;
    FetchedIs(m, k, false);
  }

  /** A sender or a receiver whose timeout strikes leaves its queue, and a message that was not sent stays so. */
  lemma {:induction false} TimeoutOutcome(m: Mailbox, k: nat)
    ensures Allowed(m, ExpireTx(k)) ==>
              Step(m, ExpireTx(k)).0 == m.(tx := Dropped(m.tx, k), done := m.done[m.tx[k].data.msg := Expired])
    ensures k < |m.rx| ==> Step(m, ExpireRx(k)).0 == m.(rx := Dropped(m.rx, k))
  {
  }
}
