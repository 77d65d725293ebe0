/** `struct k_mbox` and the pool of asynchronous descriptors as the calls update them. */
module KMailboxes {
  import opened Seqs
  import opened WaitQueues
  import opened Mailboxes

  class KMbox {
    var txQueue: seq<Waiter<Tx>>
    var rxQueue: seq<Waiter<Rx>>
    var receipts: seq<Receipt>
    var asyncFree: seq<nat>
    var outbox: map<nat, Tx>
    var reports: seq<Report>
    ghost var sent: map<nat, Tx>
    ghost var done: map<nat, Fate>

    ghost function View(): Mailbox
      reads this
    {
      Mailbox(txQueue, rxQueue, receipts, asyncFree, sent, outbox, done, reports)
    }

    /** k_mbox_init, with init_mbox_module's stack of descriptors */
    constructor (count: nat)
      ensures Inv(View(), multiset(asyncFree)) && |asyncFree| == count
      ensures View() == Fresh(asyncFree) && forall i | 0 <= i < count :: asyncFree[i] == i
    {
      var stack := [];
      for i := 0 to count
        invariant |stack| == i && forall j | 0 <= j < i :: stack[j] == j
      {
        stack := stack + [i];
      }
      txQueue, rxQueue, receipts, asyncFree, outbox, reports := [], [], [], stack, map[], [];
      sent, done := map[], map[];
      new;
      FreshInv(asyncFree);
    }

    /** mbox_message_match, once the two descriptors are known to be compatible */
    method Pair(tx: Tx, rx: Rx)
      requires Compatible(tx, rx)
      modifies `receipts, `outbox
      ensures View() == Paired(old(View()), Matched(tx, rx))
    {
      receipts := receipts + [Matched(tx, rx)];
      outbox := outbox[tx.msg := tx.(target := Some(rx.receiver), info := rx.info)];
    }

    /** mbox_message_put */
    method MessagePut(tx: Tx, prio: int, wait: bool) returns (code: Code)
      modifies this
      ensures (View(), code) == Posted(old(View()), tx, prio, wait)
    {
      sent, outbox := sent[tx.msg := tx], outbox[tx.msg := tx];
      var i := 0;
      while i < |rxQueue|
        invariant 0 <= i <= |rxQueue|
        invariant View() == old(View()).(sent := old(sent)[tx.msg := tx], outbox := old(outbox)[tx.msg := tx])
        invariant forall j | 0 <= j < i :: !Compatible(tx, rxQueue[j].data)
      {
        if Compatible(tx, rxQueue[i].data) {
          FoundFirstRx(tx, rxQueue, i);
          Pair(tx, rxQueue[i].data);
          rxQueue := rxQueue[..i] + rxQueue[i + 1..];
          return if tx.desc.Some? then Ok else Pending;
        }
        i := i + 1;
      }
      FoundFirstRx(tx, rxQueue, i);
      if !wait {
        done := done[tx.msg := Refused];
        return NoMsg;
      }
      txQueue := PriqAdd(txQueue, Waiter(tx.msg, prio, tx));
      return if tx.desc.Some? then Ok else Pending;
    }

    /** k_mbox_put */
    method Put(tx: Tx, prio: int, wait: bool, ghost pool: multiset<nat>) returns (code: Code)
      requires Inv(View(), pool) && Allowed(View(), Call.Put(tx, prio, wait))
      modifies this
      ensures (View(), code) == Step(old(View()), Call.Put(tx, prio, wait)) && Inv(View(), pool)
    {
      StepKeepsInv(View(), pool, Call.Put(tx, prio, wait));
      hide Inv, Posted;
      code := MessagePut(tx, prio, wait);
    }

    /** k_mbox_async_put, once a descriptor is free */
    method AsyncPut(tx: Tx, prio: int, ghost pool: multiset<nat>)
      requires Inv(View(), pool) && Allowed(View(), Call.AsyncPut(tx, prio))
      modifies this
      ensures View() == Step(old(View()), Call.AsyncPut(tx, prio)).0 && Inv(View(), pool)
    {
      StepKeepsInv(View(), pool, Call.AsyncPut(tx, prio));
      hide Inv, Posted;
      var desc := asyncFree[|asyncFree| - 1];
      asyncFree := asyncFree[..|asyncFree| - 1];
      var _ := MessagePut(tx.(desc := Some(desc)), prio, true);
    }

    method MessageGet(rx: Rx, prio: int, wait: bool) returns (code: Code)
      modifies this
      ensures (View(), code) == Received(old(View()), rx, prio, wait)
    {
      var i := 0;
      while i < |txQueue|
        invariant 0 <= i <= |txQueue| && unchanged(this)
        invariant forall j | 0 <= j < i :: !Compatible(txQueue[j].data, rx)
      {
        if Compatible(txQueue[i].data, rx) {
          FoundFirstTx(txQueue, rx, i);
          Pair(txQueue[i].data, rx);
          txQueue := txQueue[..i] + txQueue[i + 1..];
          return Ok;
        }
        i := i + 1;
      }
      FoundFirstTx(txQueue, rx, i);
      if !wait {
        return NoMsg;
      }
      rxQueue := PriqAdd(rxQueue, Waiter(rx.receiver, prio, rx));
      return Pending;
    }

    /** k_mbox_get up to the data check or the wait */
    method Get(rx: Rx, prio: int, wait: bool, ghost pool: multiset<nat>) returns (code: Code)
      requires Inv(View(), pool)
      modifies this
      ensures (View(), code) == Step(old(View()), Call.Get(rx, prio, wait)) && Inv(View(), pool)
    {
      StepKeepsInv(View(), pool, Call.Get(rx, prio, wait));
      hide Inv, Received;
      code := MessageGet(rx, prio, wait);
    }

    /**
     mbox_message_dispose: the sender hears of its message, with the size, exactly when the
     syncing thread was still set; afterwards it is not.
     */
    method Dispose(k: nat, ghost bytes: seq<Byte>)
      requires k < |receipts|
      modifies this
      ensures View() == Disposed(old(View()), k, bytes)
      ensures k < |receipts| && !receipts[k].syncing
      ensures reports != old(reports) <==> old(receipts[k].syncing)
      ensures reports != old(reports) ==>
                && reports == old(reports) + [Report(receipts[k].tx.msg, receipts[k].rx.size)]
                && receipts[k].tx.msg in outbox && outbox[receipts[k].tx.msg].size == receipts[k].rx.size
      ensures reports == old(reports) ==> unchanged(this)
    {
      var r := receipts[k];
      if !r.syncing {
        return;
      }
      receipts := receipts[k := r.(syncing := false)];
      outbox := outbox[r.tx.msg := Told(r).(size := r.rx.size)];
      done := done[r.tx.msg := Delivered(r.rx.receiver, r.rx.size, r.reply, bytes)];
      if r.tx.desc.Some? {
        asyncFree := asyncFree + [r.tx.desc.value];
      }
      reports := reports + [Report(r.tx.msg, r.rx.size)];
    }

    method Fetch(k: nat, discard: bool) returns (buffer: seq<Byte>)
      requires k < |receipts| && HasData(receipts[k])
      modifies this
      ensures View() == Fetched(old(View()), k, discard)
      ensures old(receipts[k].syncing) ==> buffer == if discard then [] else Copied(old(receipts)[k])
    {
      if discard {
        receipts := receipts[k := receipts[k].(rx := receipts[k].rx.(size := 0))];
        buffer := [];
        Dispose(k, []);
      } else {
        var r := receipts[k];
        buffer := if r.tx.data.Some? && r.rx.size > 0 then r.tx.data.value[..r.rx.size] else [];
        Dispose(k, buffer);
      }
    }

    method CheckData(k: nat)
      requires k < |receipts| && HasData(receipts[k])
      modifies this
      ensures View() == CheckedData(old(View()), k)
    {
      if receipts[k].rx.now {
        var _ := Fetch(k, false);
      } else if receipts[k].rx.size == 0 {
        Dispose(k, []);
      }
    }

    /** k_mbox_data_get: the buffer's new contents, and no more than the first call disposes of the message */
    method DataGet(k: nat, discard: bool, ghost pool: multiset<nat>) returns (buffer: seq<Byte>)
      requires Inv(View(), pool) && k < |receipts|
      modifies this
      ensures Allowed(old(View()), Call.DataGet(k, discard))
      ensures View() == Step(old(View()), Call.DataGet(k, discard)).0 && Inv(View(), pool)
      ensures old(receipts[k].syncing) ==>
                var r := old(receipts)[k];
                buffer == if discard || r.tx.data.None? then [] else r.tx.data.value[..Min(r.tx.size, r.asked)]
    {
      AlwaysAllowed(View(), pool, k, discard);
      StepKeepsInv(View(), pool, Call.DataGet(k, discard));
      assert ReceiptOk(sent, outbox, done, receipts[k]);
      hide Inv, Fetched, ReceiptOk;
      buffer := Fetch(k, discard);
    }

    /** mbox_message_data_check */
    method DataCheck(k: nat, ghost pool: multiset<nat>)
      requires Inv(View(), pool) && k < |receipts|
      modifies this
      ensures Allowed(old(View()), Call.Check(k))
      ensures View() == Step(old(View()), Call.Check(k)).0 && Inv(View(), pool)
    {
      AlwaysAllowed(View(), pool, k, false);
      StepKeepsInv(View(), pool, Call.Check(k));
      hide Inv, CheckedData;
      CheckData(k);
    }
  }

  lemma {:induction false} FoundFirstRx(tx: Tx, q: seq<Waiter<Rx>>, k: nat)
    requires k <= |q| && forall i | 0 <= i < k :: !Compatible(tx, q[i].data)
    requires k < |q| ==> Compatible(tx, q[k].data)
    ensures FindRx(tx, q) == k
  {
  }

  lemma {:induction false} FoundFirstTx(q: seq<Waiter<Tx>>, rx: Rx, k: nat)
    requires k <= |q| && forall i | 0 <= i < k :: !Compatible(q[i].data, rx)
    requires k < |q| ==> Compatible(q[k].data, rx)
    ensures FindTx(q, rx) == k
  {
  }
}
