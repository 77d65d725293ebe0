/**
 Runs of the timeout queue, kept against a ledger.

 The ledger records every timeout ever added with the deadline it was given, and its fate. The
 invariant says that the delta list holds exactly the pending ones, ordered by deadline and then
 by age, and that whatever has fired did so once, in that same order, at its own deadline.
 */
module TimeoutLedger {
  import opened Seqs
  import opened Timeouts

  datatype Fate = Pending | Fired(at: int) | Aborted

  /** One call of z_add_timeout; its position in the log is its age. */
  datatype Instance = Instance(id: nat, due: int, fate: Fate)

  datatype Firing = Firing(id: nat, stamp: nat, at: int)

  /** `order` names, by age, the instances that the nodes of the delta list stand for. */
  datatype Kernel = Kernel(clock: Clock, log: seq<Instance>, order: seq<nat>, firings: seq<Firing>)

  /** What callbacks, interrupts and threads do to the queue. */
  datatype Action = AddTimeout(id: nat, timeout: int, hardware: nat) | AbortTimeout(id: nat)

  /** What is done during the n-th expiry of an announcement, when it is that of the given timeout. */
  type Callbacks = (nat, nat) -> seq<Action>

  // ----- The invariant --------------------------------------------------------------------

  /** Earlier deadline first, equal deadlines by age. */
  predicate Before(log: seq<Instance>, s: nat, t: nat) {
    s < |log| && t < |log| && (log[s].due < log[t].due || (log[s].due == log[t].due && s < t))
  }

  /** The nodes of the delta list stand for the ordered instances and their deadlines. */
  ghost predicate Encodes(now: int, list: seq<Entry>, log: seq<Instance>, order: seq<nat>) {
    && |list| == |order|
    && (forall i | 0 <= i < |order| :: order[i] < |log|)
    && (forall i | 0 <= i < |order| :: EncodesAt(now, list, log, order, i))
  }

  ghost predicate EncodesAt(now: int, list: seq<Entry>, log: seq<Instance>, order: seq<nat>, i: nat)
    requires i < |list| == |order| && order[i] < |log|
  {
    list[i].id == log[order[i]].id && now + Sum(list, i + 1) == log[order[i]].due
  }

  /** `order` lists all pending instances, each once, no two for the same timeout. */
  ghost predicate PendingInOrder(log: seq<Instance>, order: seq<nat>) {
    && (forall i | 0 <= i < |order| :: order[i] < |log| && log[order[i]].fate == Pending)
    && (forall s | 0 <= s < |log| && log[s].fate == Pending :: s in order)
    && (forall i, j | 0 <= i < j < |order| :: Before(log, order[i], order[j]))
    && (forall i, j | 0 <= i < j < |order| :: log[order[i]].id != log[order[j]].id)
  }

  /** Every expiry happened once, at its own deadline, in deadline order and then by age. */
  ghost predicate FiredInOrder(log: seq<Instance>, firings: seq<Firing>) {
    && (forall i | 0 <= i < |firings| ::
          var f := firings[i];
          f.stamp < |log| && log[f.stamp] == Instance(f.id, f.at, Fired(f.at)))
    && (forall s | 0 <= s < |log| && log[s].fate.Fired? ::
          exists i | 0 <= i < |firings| :: firings[i].stamp == s)
    && (forall i, j | 0 <= i < j < |firings| :: Before(log, firings[i].stamp, firings[j].stamp))
  }

  /** What has fired lies at or before the present, what is pending at or after it. */
  ghost predicate SplitByNow(now: int, log: seq<Instance>, order: seq<nat>, firings: seq<Firing>) {
    && (forall i | 0 <= i < |firings| :: firings[i].at <= now)
    && (forall j | 0 <= j < |order| :: order[j] < |log| && now <= log[order[j]].due)
    && (forall i, j | 0 <= i < |firings| && 0 <= j < |order| :: Before(log, firings[i].stamp, order[j]))
  }

  ghost predicate Inv(k: Kernel) {
    && NonNegative(k.clock.list)
    && PendingInOrder(k.log, k.order)
    && FiredInOrder(k.log, k.firings)
    && SplitByNow(k.clock.now, k.log, k.order, k.firings)
    && Encodes(k.clock.now, k.clock.list, k.log, k.order)
  }

  /** Between announcements nothing is overdue. */
  ghost predicate Idle(k: Kernel) {
    && Inv(k)
    && k.clock.remaining == 0
    && forall s | 0 <= s < |k.log| && k.log[s].fate == Pending :: k.clock.now < k.log[s].due
  }

  /** Instances keep their deadline, and a fate once met is never changed. */
  ghost predicate Continues(before: seq<Instance>, after: seq<Instance>) {
    && |before| <= |after|
    && forall s | 0 <= s < |before| ::
         && after[s].id == before[s].id
         && after[s].due == before[s].due
         && (before[s].fate != Pending ==> after[s].fate == before[s].fate)
  }

  lemma {:induction false} ContinuesChain(a: seq<Instance>, b: seq<Instance>, c: seq<Instance>)
    requires Continues(a, b) && Continues(b, c)
    ensures Continues(a, c)
  {
  }

  const Boot := Kernel(Clock(0, 0, []), [], [], [])

  // ----- Single steps ---------------------------------------------------------------------

  ghost function Added(k: Kernel, id: nat, timeout: int, hardware: nat): Kernel
    requires Inv(k)
  {
    var due := Deadline(k.clock, timeout, hardware);
    Kernel(Add(k.clock, id, timeout, hardware), k.log + [Instance(id, due, Pending)],
           Spliced(k.order, Place(k.clock.list, due - k.clock.now), |k.log|), k.firings)
  }

  lemma {:induction false} AddedKeepsInv(k: Kernel, id: nat, timeout: int, hardware: nat)
    requires Inv(k) && !Linked(k.clock.list, id)
    ensures Inv(Added(k, id, timeout, hardware))
    ensures DueNow(Added(k, id, timeout, hardware).clock.list) == DueNow(k.clock.list)
  {
    hide PendingInOrder, FiredInOrder, SplitByNow, NonNegative, Encodes, Linked, Insert, Place;
    var due := Deadline(k.clock, timeout, hardware);
    var d := due - k.clock.now;
    var p := Place(k.clock.list, d);
    var inst := Instance(id, due, Pending);
    assert Add(k.clock, id, timeout, hardware).list == Insert(k.clock.list, id, d);
    InsertNeverDueNow(k.clock.list, id, d);
    UnlinkedIsNotPending(k.clock, k.log, k.order, id);
    PlaceSplits(k.clock.now, k.clock.list, k.log, k.order, due);
    SplicedPending(k.log, k.order, p, inst);
    SplicedEncodes(k.clock.now, k.clock.list, k.log, k.order, inst);
    AppendedFired(k.log, k.firings, inst);
    SplicedSplit(k.clock.now, k.log, k.order, k.firings, p, inst);
  }

  lemma {:induction false} UnlinkedIsNotPending(c: Clock, log: seq<Instance>, order: seq<nat>, id: nat)
    requires Encodes(c.now, c.list, log, order) && !Linked(c.list, id)
    ensures forall i | 0 <= i < |order| :: order[i] < |log| && log[order[i]].id != id
  {
    forall i | 0 <= i < |order| ensures log[order[i]].id != id {
      assert EncodesAt(c.now, c.list, log, order, i);
    }
  }

  /** The place found in the delta list separates earlier and equal deadlines from later ones. */
  lemma {:induction false} PlaceSplits(now: int, list: seq<Entry>, log: seq<Instance>, order: seq<nat>, due: int)
    requires Encodes(now, list, log, order) && NonNegative(list)
    ensures var p := Place(list, due - now);
            && p <= |order|
            && (forall i | 0 <= i < p :: log[order[i]].due <= due)
            && (forall i | p <= i < |order| :: due < log[order[i]].due)
  {
    var p := Place(list, due - now);
    forall i | 0 <= i < p ensures log[order[i]].due <= due {
      assert EncodesAt(now, list, log, order, i);
    }
    forall i | p <= i < |order| ensures due < log[order[i]].due {
      assert EncodesAt(now, list, log, order, i);
      SumMonotonic(list, p + 1, i + 1);
    }
  }

  /** The new instance has its place between those due no later and those due later. */
  ghost predicate FitsAt(log: seq<Instance>, order: seq<nat>, p: nat, inst: Instance)
    requires p <= |order| && forall i | 0 <= i < |order| :: order[i] < |log|
  {
    && (forall i | 0 <= i < |order| :: log[order[i]].id != inst.id)
    && (forall i | 0 <= i < p :: log[order[i]].due <= inst.due)
    && (forall i | p <= i < |order| :: inst.due < log[order[i]].due)
  }

  lemma {:induction false} SplicedPair(log: seq<Instance>, order: seq<nat>, p: nat, inst: Instance, i: nat, j: nat)
    requires PendingInOrder(log, order) && p <= |order| && FitsAt(log, order, p, inst) && i < j <= |order|
    ensures var order' := Spliced(order, p, |log|);
            && order'[i] <= |log| && order'[j] <= |log|
            && Before(log + [inst], order'[i], order'[j])
            && (log + [inst])[order'[i]].id != (log + [inst])[order'[j]].id
  {
    var order' := Spliced(order, p, |log|);
    var i0 := if i < p then i else i - 1;
    var j0 := if j < p then j else j - 1;
    if i != p && j != p {
      assert order'[i] == order[i0] && order'[j] == order[j0];
      assert Before(log, order[i0], order[j0]);
    }
  }

  lemma {:induction false} SplicedPending(log: seq<Instance>, order: seq<nat>, p: nat, inst: Instance)
    requires PendingInOrder(log, order) && p <= |order| && inst.fate == Pending && FitsAt(log, order, p, inst)
    ensures PendingInOrder(log + [inst], Spliced(order, p, |log|))
  {
    var log' := log + [inst];
    var order' := Spliced(order, p, |log|);
    SplicedCovers(log, order, p, inst);
    forall i | 0 <= i < |order'| ensures order'[i] < |log'| && log'[order'[i]].fate == Pending {
    }
    hide FitsAt;
    forall i, j | 0 <= i < j < |order'|
      ensures Before(log', order'[i], order'[j]) && log'[order'[i]].id != log'[order'[j]].id
    {
      SplicedPair(log, order, p, inst, i, j);
    }
    hide Before;
  }

  lemma {:induction false} SplicedCovers(log: seq<Instance>, order: seq<nat>, p: nat, inst: Instance)
    requires p <= |order|
    requires forall s | 0 <= s < |log| && log[s].fate == Pending :: s in order
    ensures forall s | 0 <= s <= |log| && (log + [inst])[s].fate == Pending :: s in Spliced(order, p, |log|)
  {
  }

  lemma {:induction false} SplicedEncodes(now: int, list: seq<Entry>, log: seq<Instance>, order: seq<nat>,
                                          inst: Instance)
    requires Encodes(now, list, log, order)
    ensures var d := inst.due - now;
            Encodes(now, Insert(list, inst.id, d), log + [inst], Spliced(order, Place(list, d), |log|))
  {
    hide Insert, Place, Sum, EncodesAt;
    var d := inst.due - now;
    var list', log', order' := Insert(list, inst.id, d), log + [inst], Spliced(order, Place(list, d), |log|);
    forall i | 0 <= i < |order'| ensures EncodesAt(now, list', log', order', i) {
      SplicedEncodesAt(now, list, log, order, inst, i);
    }
  }

  lemma {:induction false} SplicedEncodesAt(now: int, list: seq<Entry>, log: seq<Instance>, order: seq<nat>,
                                            inst: Instance, i: nat)
    requires Encodes(now, list, log, order) && i <= |list|
    ensures var d := inst.due - now;
            EncodesAt(now, Insert(list, inst.id, d), log + [inst], Spliced(order, Place(list, d), |log|), i)
  {
    hide Place, Sum;
    var d := inst.due - now;
    SumInsert(list, inst.id, d, i + 1);
    var p := Place(list, d);
    if i < p {
      assert EncodesAt(now, list, log, order, i);
      assert Insert(list, inst.id, d)[i].id == list[i].id;
      assert Spliced(order, p, |log|)[i] == order[i];
    } else if i > p {
      assert EncodesAt(now, list, log, order, i - 1);
      assert Sum(list, (i - 1) + 1) == Sum(list, i);
    }
  }

  lemma {:induction false} AppendedFired(log: seq<Instance>, firings: seq<Firing>, inst: Instance)
    requires FiredInOrder(log, firings) && inst.fate == Pending
    ensures FiredInOrder(log + [inst], firings)
  {
  }

  lemma {:induction false} SplicedSplit(now: int, log: seq<Instance>, order: seq<nat>, firings: seq<Firing>, p: nat,
                                        inst: Instance)
    requires SplitByNow(now, log, order, firings) && FiredInOrder(log, firings)
    requires inst.due > now && p <= |order|
    ensures SplitByNow(now, log + [inst], Spliced(order, p, |log|), firings)
  {
  }

  /** An instance that meets its fate leaves the order of the pending ones, and nothing else does. */
  lemma {:induction false} DroppedPending(log: seq<Instance>, order: seq<nat>, i: nat, fate: Fate)
    requires PendingInOrder(log, order) && i < |order| && fate != Pending
    ensures PendingInOrder(log[order[i] := log[order[i]].(fate := fate)], Dropped(order, i))
    ensures order[i] !in Dropped(order, i)
    ensures log[order[i]].fate == Pending
  {
  }

  lemma {:induction false} DroppedEncodes(now: int, list: seq<Entry>, log: seq<Instance>, order: seq<nat>, i: nat,
                                          fate: Fate)
    requires Encodes(now, list, log, order) && i < |order|
    ensures Encodes(now, RemoveAt(list, i), log[order[i] := log[order[i]].(fate := fate)], Dropped(order, i))
  {
    var log' := log[order[i] := log[order[i]].(fate := fate)];
    forall j | 0 <= j < |list| - 1 ensures EncodesAt(now, RemoveAt(list, i), log', Dropped(order, i), j) {
      SumRemoveAt(list, i, j + 1);
      assert EncodesAt(now, list, log, order, if j < i then j else j + 1);
    }
  }

  lemma {:induction false} AbortedFired(log: seq<Instance>, firings: seq<Firing>, s: nat)
    requires FiredInOrder(log, firings) && s < |log| && log[s].fate == Pending
    ensures FiredInOrder(log[s := log[s].(fate := Aborted)], firings)
  {
  }

  ghost function Removed(k: Kernel, id: nat): Kernel
    requires Inv(k) && Linked(k.clock.list, id)
  {
    var i := IndexOf(k.clock.list, id);
    var s := k.order[i];
    Kernel(k.clock.(list := RemoveAt(k.clock.list, i)), k.log[s := k.log[s].(fate := Aborted)],
           Dropped(k.order, i), k.firings)
  }

  lemma {:induction false} RemovedKeepsInv(k: Kernel, id: nat)
    requires Inv(k) && Linked(k.clock.list, id)
    ensures Inv(Removed(k, id))
    ensures DueNow(Removed(k, id).clock.list) <= DueNow(k.clock.list)
    ensures Continues(k.log, Removed(k, id).log)
  {
    var i := IndexOf(k.clock.list, id);
    RemoveNeverDueNow(k.clock.list, i);
    DroppedPending(k.log, k.order, i, Aborted);
    DroppedEncodes(k.clock.now, k.clock.list, k.log, k.order, i, Aborted);
    AbortedFired(k.log, k.firings, k.order[i]);
    DroppedSplit(k.clock.now, k.log, k.order, k.firings, i, Aborted);
  }

  lemma {:induction false} DroppedSplit(now: int, log: seq<Instance>, order: seq<nat>, firings: seq<Firing>, i: nat,
                                        fate: Fate)
    requires SplitByNow(now, log, order, firings) && i < |order|
    ensures SplitByNow(now, log[order[i] := log[order[i]].(fate := fate)], Dropped(order, i), firings)
  {
  }

  ghost function Expired(k: Kernel): Kernel
    requires Inv(k) && CanFire(k.clock)
  {
    var s := k.order[0];
    var c := Fire(k.clock);
    Kernel(c, k.log[s := k.log[s].(fate := Fired(c.now))], Dropped(k.order, 0),
           k.firings + [Firing(k.log[s].id, s, c.now)])
  }

  /** The first node expires exactly at the deadline it was given. */
  lemma {:induction false} ExpiredKeepsInv(k: Kernel)
    requires Inv(k) && CanFire(k.clock)
    ensures Inv(Expired(k))
    ensures Expired(k).clock.now == k.log[k.order[0]].due >= k.clock.now
    ensures Continues(k.log, Expired(k).log)
  {
    hide PendingInOrder, FiredInOrder, NonNegative, DueNow;
    var now := Fire(k.clock).now;
    var s := k.order[0];
    FireDescends(k.clock);
    SumFire(k.clock, 0);
    assert EncodesAt(k.clock.now, k.clock.list, k.log, k.order, 0);
    DroppedPending(k.log, k.order, 0, Fired(now));
    ExpiredEncodes(k.clock, k.log, k.order);
    ExpiredFired(k.log, k.firings, s, k.order);
    ExpiredSplit(k.clock.now, k.log, k.order, k.firings);
  }

  lemma {:induction false} ExpiredEncodes(c: Clock, log: seq<Instance>, order: seq<nat>)
    requires Encodes(c.now, c.list, log, order) && CanFire(c) && NonNegative(c.list)
    ensures Encodes(Fire(c).now, Fire(c).list, log[order[0] := log[order[0]].(fate := Fired(Fire(c).now))],
                    Dropped(order, 0))
  {
    var log' := log[order[0] := log[order[0]].(fate := Fired(Fire(c).now))];
    forall j | 0 <= j < |c.list| - 1 ensures EncodesAt(Fire(c).now, Fire(c).list, log', Dropped(order, 0), j) {
      ExpiredEncodesAt(c, log, order, j);
    }
    hide NonNegative, EncodesAt;
  }

  lemma {:induction false} ExpiredEncodesAt(c: Clock, log: seq<Instance>, order: seq<nat>, j: nat)
    requires Encodes(c.now, c.list, log, order) && CanFire(c) && NonNegative(c.list) && j < |c.list| - 1
    ensures EncodesAt(Fire(c).now, Fire(c).list, log[order[0] := log[order[0]].(fate := Fired(Fire(c).now))],
                      Dropped(order, 0), j)
  {
    FireIds(c, j);
    SumFire(c, j + 1);
    assert EncodesAt(c.now, c.list, log, order, j + 1);
    hide Sum, Fire, NonNegative, CanFire;
    assert Dropped(order, 0)[j] == order[j + 1];
  }

  lemma {:induction false} FireIds(c: Clock, j: nat)
    requires CanFire(c) && NonNegative(c.list) && j < |c.list| - 1
    ensures |Fire(c).list| == |c.list| - 1 && Fire(c).list[j].id == c.list[j + 1].id
  {
  }

  lemma {:induction false} ExpiredFired(log: seq<Instance>, firings: seq<Firing>, s: nat, order: seq<nat>)
    requires PendingInOrder(log, order) && order != [] && s == order[0]
    requires FiredInOrder(log, firings)
    requires forall i | 0 <= i < |firings| :: Before(log, firings[i].stamp, s)
    ensures FiredInOrder(log[s := log[s].(fate := Fired(log[s].due))], firings + [Firing(log[s].id, s, log[s].due)])
  {
    var log' := log[s := log[s].(fate := Fired(log[s].due))];
    var firings' := firings + [Firing(log[s].id, s, log[s].due)];
    forall t | 0 <= t < |log'| && log'[t].fate.Fired?
      ensures exists i | 0 <= i < |firings'| :: firings'[i].stamp == t
    {
      if t == s {
        assert firings'[|firings|].stamp == t;
      } else {
        assert log[t].fate.Fired?;
        var i :| 0 <= i < |firings| && firings[i].stamp == t;
        assert firings'[i].stamp == t;
      }
    }
    forall i, j | 0 <= i < j < |firings'| ensures Before(log', firings'[i].stamp, firings'[j].stamp) {
      assert Before(log, firings[i].stamp, if j < |firings| then firings[j].stamp else s);
    }
  }

  lemma {:induction false} ExpiredSplit(now: int, log: seq<Instance>, order: seq<nat>, firings: seq<Firing>)
    requires SplitByNow(now, log, order, firings) && PendingInOrder(log, order) && order != []
    ensures var s := order[0];
            SplitByNow(log[s].due, log[s := log[s].(fate := Fired(log[s].due))], Dropped(order, 0),
                       firings + [Firing(log[s].id, s, log[s].due)])
  {
  }

  // ----- Announcements --------------------------------------------------------------------

  /** A timeout is only added while unlinked; the kernel asserts this, so a clash does nothing here. */
  ghost function Act(k: Kernel, a: Action): (r: Kernel)
    requires Inv(k)
    ensures Inv(r) && Continues(k.log, r.log)
    ensures r.clock.now == k.clock.now && r.clock.remaining == k.clock.remaining && r.firings == k.firings
    ensures DueNow(r.clock.list) <= DueNow(k.clock.list)
  {
    match a
    case AddTimeout(id, timeout, hardware) =>
      if timeout == FOREVER || Linked(k.clock.list, id) then k
      else AddedKeepsInv(k, id, timeout, hardware); Added(k, id, timeout, hardware)
    case AbortTimeout(id) =>
      if Linked(k.clock.list, id) then RemovedKeepsInv(k, id); Removed(k, id) else k
  }

  ghost function ActAll(k: Kernel, actions: seq<Action>): (r: Kernel)
    requires Inv(k)
    ensures Inv(r) && Continues(k.log, r.log)
    ensures r.clock.now == k.clock.now && r.clock.remaining == k.clock.remaining && r.firings == k.firings
    ensures DueNow(r.clock.list) <= DueNow(k.clock.list)
    decreases actions
  {
    if actions == [] then k else ActAll(Act(k, actions[0]), actions[1..])
  }

  /** The timeout whose node comes first. */
  function FirstId(k: Kernel): nat
    requires CanFire(k.clock)
  {
    k.clock.list[0].id
  }

  /** The announcement loop. It ends whatever the callbacks add, because they add nothing due now. */
  ghost function Drain(k: Kernel, callbacks: Callbacks, n: nat): (r: Kernel)
    requires Inv(k)
    ensures Inv(r) && Continues(k.log, r.log) && !CanFire(r.clock)
    ensures r.clock.now + r.clock.remaining == k.clock.now + k.clock.remaining
    ensures k.firings <= r.firings
    decreases k.clock.remaining, DueNow(k.clock.list)
  {
    if CanFire(k.clock) then
      hide PendingInOrder, FiredInOrder, SplitByNow, Encodes, DueNow, Continues;
      FireDescends(k.clock);
      ExpiredKeepsInv(k);
      var fired := Expired(k);
      var next := ActAll(fired, callbacks(n, FirstId(k)));
      var r := Drain(next, callbacks, n + 1);
      ContinuesChain(k.log, fired.log, next.log);
      ContinuesChain(k.log, next.log, r.log);
      r
    else
      k
  }

  ghost function Announce(k: Kernel, ticks: nat, callbacks: Callbacks): Kernel
    requires Idle(k)
  {
    var drained := Drain(k.(clock := k.clock.(remaining := ticks)), callbacks, 0);
    drained.(clock := Finish(drained.clock))
  }

  /**
   An announcement of `ticks` moves the clock by exactly that much and leaves nothing overdue:
   everything due by then has been aborted or has fired at its own deadline.
   */
  lemma {:induction false} AnnounceReachesDeadlines(k: Kernel, ticks: nat, callbacks: Callbacks)
    requires Idle(k)
    ensures var r := Announce(k, ticks, callbacks);
            && Idle(r)
            && r.clock.now == k.clock.now + ticks
            && Continues(k.log, r.log)
            && k.firings <= r.firings
            && FiredWithin(r.firings[|k.firings|..], k.clock.now, r.clock.now)
            && NothingOverdue(r)
  {
    hide Drain, Continues, FiredInOrder, Encodes, NonNegative, DueNow;
    var start := k.(clock := k.clock.(remaining := ticks));
    var drained := Drain(start, callbacks, 0);
    var r := Announce(k, ticks, callbacks);
    FinishedIsIdle(drained);
    DrainFiresAfter(start, callbacks, 0, k.clock.now);
    IdleFates(r);
    forall s | 0 <= s < |r.log| && r.log[s].due <= r.clock.now
      ensures r.log[s].fate == Aborted || r.log[s].fate == Fired(r.log[s].due)
    {
      assert FateIsRight(r, s);
    }
  }

  predicate FiredWithin(firings: seq<Firing>, after: int, until: int) {
    forall i | 0 <= i < |firings| :: after < firings[i].at <= until
  }

  predicate NothingOverdue(k: Kernel) {
    forall s | 0 <= s < |k.log| && k.log[s].due <= k.clock.now ::
      k.log[s].fate == Aborted || k.log[s].fate == Fired(k.log[s].due)
  }

  lemma {:induction false} FinishedIsIdle(d: Kernel)
    requires Inv(d) && !CanFire(d.clock)
    ensures Idle(d.(clock := Finish(d.clock)))
    ensures forall i | 0 <= i < |d.firings| :: d.firings[i].at <= Finish(d.clock).now
  {
    hide FiredInOrder;
    var c := Finish(d.clock);
    forall i | 0 <= i < |d.order|
      ensures c.now < d.log[d.order[i]].due && EncodesAt(c.now, c.list, d.log, d.order, i)
    {
      assert EncodesAt(d.clock.now, d.clock.list, d.log, d.order, i);
      SumMonotonic(d.clock.list, 1, i + 1);
      assert Sum(d.clock.list, 1) == Sum(d.clock.list, 0) + d.clock.list[0].dticks;
      SumFinish(d.clock, i + 1);
    }
  }

  lemma {:induction false} DrainFiresAfter(k: Kernel, callbacks: Callbacks, n: nat, late: int)
    requires Inv(k) && late <= k.clock.now
    requires forall i | 0 <= i < |k.order| :: late < k.log[k.order[i]].due
    ensures forall i | |k.firings| <= i < |Drain(k, callbacks, n).firings| ::
              late < Drain(k, callbacks, n).firings[i].at
    decreases k.clock.remaining, DueNow(k.clock.list)
  {
    hide DueNow, PendingInOrder, FiredInOrder, Encodes, NonNegative;
    var r := Drain(k, callbacks, n);
    if CanFire(k.clock) {
      FireDescends(k.clock);
      ExpiredKeepsInv(k);
      var fired := Expired(k);
      var next := ActAll(fired, callbacks(n, FirstId(k)));
      DrainFiresAfter(next, callbacks, n + 1, late);
      assert r == Drain(next, callbacks, n + 1);
      assert r.firings[|k.firings|] == fired.firings[|k.firings|];
    } else {
      assert r == k;
    }
  }

  /** Whatever no callback aborts is not lost: it fires at its deadline. */
  lemma {:induction false} AnnounceFiresUnaborted(k: Kernel, ticks: nat, callbacks: Callbacks, s: nat)
    requires Idle(k) && s < |k.log| && k.log[s].fate == Pending && k.log[s].due <= k.clock.now + ticks
    requires forall n, id :: AbortTimeout(k.log[s].id) !in callbacks(n, id)
    ensures Announce(k, ticks, callbacks).log[s].fate == Fired(k.log[s].due)
  {
    AnnounceReachesDeadlines(k, ticks, callbacks);
    DrainSpares(k.(clock := k.clock.(remaining := ticks)), callbacks, 0, s);
  }

  lemma {:induction false} DrainSpares(k: Kernel, callbacks: Callbacks, n: nat, s: nat)
    requires Inv(k) && s < |k.log| && k.log[s].fate != Aborted
    requires forall n, id :: AbortTimeout(k.log[s].id) !in callbacks(n, id)
    ensures Drain(k, callbacks, n).log[s].fate != Aborted
    decreases k.clock.remaining, DueNow(k.clock.list)
  {
    hide DueNow, PendingInOrder, FiredInOrder, Encodes, NonNegative, SplitByNow, Continues;
    if CanFire(k.clock) {
      FireDescends(k.clock);
      ExpiredKeepsInv(k);
      var fired := Expired(k);
      var next := ActAll(fired, callbacks(n, FirstId(k)));
      SameId(k.log, fired.log, s);
      ActAllSpares(fired, callbacks(n, FirstId(k)), s);
      SameId(fired.log, next.log, s);
      DrainSpares(next, callbacks, n + 1, s);
    }
  }

  lemma {:induction false} SameId(before: seq<Instance>, after: seq<Instance>, s: nat)
    requires Continues(before, after) && s < |before|
    ensures s < |after| && after[s].id == before[s].id
  {
  }

  lemma {:induction false} ActAllSpares(k: Kernel, actions: seq<Action>, s: nat)
    requires Inv(k) && s < |k.log| && k.log[s].fate != Aborted
    requires AbortTimeout(k.log[s].id) !in actions
    ensures ActAll(k, actions).log[s].fate != Aborted
    decreases actions
  {
    if actions != [] {
      ActSpares(k, actions[0], s);
      ActAllSpares(Act(k, actions[0]), actions[1..], s);
    }
  }

  lemma {:induction false} ActSpares(k: Kernel, a: Action, s: nat)
    requires Inv(k) && s < |k.log| && k.log[s].fate != Aborted
    requires a != AbortTimeout(k.log[s].id)
    ensures Act(k, a).log[s].fate != Aborted
  {
    if a.AbortTimeout? && Linked(k.clock.list, a.id) {
      var i := IndexOf(k.clock.list, a.id);
      assert EncodesAt(k.clock.now, k.clock.list, k.log, k.order, i);
    }
  }

  // ----- Whole runs -----------------------------------------------------------------------

  datatype Step = Do(action: Action) | Tick(ticks: nat, callbacks: Callbacks)

  ghost function Run(k: Kernel, steps: seq<Step>): (r: Kernel)
    requires Idle(k)
    ensures Idle(r) && Continues(k.log, r.log) && k.firings <= r.firings
    decreases steps
  {
    if steps == [] then k else
      match steps[0]
      case Do(a) =>
        IdleAct(k, a); Run(Act(k, a), steps[1..])
      case Tick(n, callbacks) =>
        AnnounceReachesDeadlines(k, n, callbacks); Run(Announce(k, n, callbacks), steps[1..])
  }

  lemma {:induction false} IdleAct(k: Kernel, a: Action)
    requires Idle(k)
    ensures Idle(Act(k, a))
  {
  }

  /**
   From boot, over every run: each timeout ever added is pending with a deadline still ahead and
   stands in the delta list, or was aborted, or fired once and exactly at its deadline; and
   firings are ordered by deadline and then by age.
   */
  lemma {:induction false} EveryRun(steps: seq<Step>)
    ensures Idle(Boot)
    ensures FatesAreRight(Run(Boot, steps))
    ensures FiredOnceInOrder(Run(Boot, steps).firings)
  {
    var k := Run(Boot, steps);
    IdleFates(k);
    IdleFirings(k);
  }

  /** The delta list has a node for the timeout that encodes the deadline. */
  ghost predicate Listed(c: Clock, id: nat, due: int) {
    exists i | 0 <= i < |c.list| :: c.list[i].id == id && c.now + Sum(c.list, i + 1) == due
  }

  ghost predicate FateIsRight(k: Kernel, s: nat)
    requires s < |k.log|
  {
    match k.log[s].fate
    case Pending => k.clock.now < k.log[s].due && Listed(k.clock, k.log[s].id, k.log[s].due)
    case Fired(at) => at == k.log[s].due <= k.clock.now && Firing(k.log[s].id, s, at) in k.firings
    case Aborted => true
  }

  ghost predicate FatesAreRight(k: Kernel) {
    forall s | 0 <= s < |k.log| :: FateIsRight(k, s)
  }

  predicate FiredOnceInOrder(firings: seq<Firing>) {
    forall i, j | 0 <= i < j < |firings| :: FiredBefore(firings[i], firings[j])
  }

  predicate FiredBefore(f: Firing, g: Firing) {
    f.stamp != g.stamp && (f.at < g.at || (f.at == g.at && f.stamp < g.stamp))
  }

  lemma {:induction false} IdleFate(k: Kernel, s: nat)
    requires Idle(k) && s < |k.log|
    ensures FateIsRight(k, s)
  {
    match k.log[s].fate
    case Pending =>
      var i :| 0 <= i < |k.order| && k.order[i] == s;
      assert EncodesAt(k.clock.now, k.clock.list, k.log, k.order, i);
    case Fired(at) =>
      var i :| 0 <= i < |k.firings| && k.firings[i].stamp == s;
      assert k.firings[i] == Firing(k.log[s].id, s, at);
    case Aborted =>
  }

  lemma {:induction false} IdleFates(k: Kernel)
    requires Idle(k)
    ensures FatesAreRight(k)
  {
    forall s | 0 <= s < |k.log| ensures FateIsRight(k, s) {
      IdleFate(k, s);
    }
  }

  lemma {:induction false} IdleFirings(k: Kernel)
    requires Idle(k)
    ensures FiredOnceInOrder(k.firings)
  {
  }
}
