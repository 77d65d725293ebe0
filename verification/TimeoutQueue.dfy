/** The timeout queue as the kernel runs it: a list of deltas walked and changed in place. */
module TimeoutQueues {
  import opened Timeouts
  import opened TimeoutLedger

  class TimeoutQueue {
    var currTick: int
    var announceRemaining: nat
    var list: seq<Entry>

    // The ledger this queue is held against
    ghost var log: seq<Instance>
    ghost var order: seq<nat>
    ghost var firings: seq<Firing>

    ghost function View(): Kernel
      reads this
    {
      Kernel(State(), log, order, firings)
    }

    function State(): Clock
      reads this
    {
      Clock(currTick, announceRemaining, list)
    }

    constructor ()
      ensures View() == Boot
    {
      currTick, announceRemaining, list := 0, 0, [];
      log, order, firings := [], [], [];
    }

    /** Takes over the fields of a ledger entry that the code itself does not keep. */
    ghost method Record(k: Kernel)
      modifies this`log, this`order, this`firings
      ensures log == k.log && order == k.order && firings == k.firings
    {
      log, order, firings := k.log, k.order, k.firings;
    }

    /** z_add_timeout */
    method AddTimeout(id: nat, timeout: int, hardware: nat)
      requires Inv(View())
      modifies this
      ensures View() == Act(old(View()), Action.AddTimeout(id, timeout, hardware))
      ensures timeout >= 0 && !Linked(old(list), id) ==>
                var present := currTick + if announceRemaining == 0 then hardware else 0;
                log == old(log) + [Instance(id, present + timeout + 1, Fate.Pending)]
    {
      hide PendingInOrder, FiredInOrder, SplitByNow, Encodes, DueNow, NonNegative, Insert, Place;
      ghost var k := View();
      if timeout >= 0 && !Linked(list, id) {
        RelativeDeadline(k, id, timeout, hardware);
      }
      var linked := exists i | 0 <= i < |list| :: list[i].id == id;
      if timeout == FOREVER || linked {
        return;
      }
      LinkInOrder(id, TicksAhead(State(), timeout, hardware) + Elapsed(State(), hardware));
      Record(Added(k, id, timeout, hardware));
    }

    /** The walk that finds a node its place. */
    method LinkInOrder(id: nat, ahead: int)
      modifies this`list
      ensures list == Insert(old(list), id, ahead)
    {
      var d := ahead;
      var i := 0;
      while i < |list| && list[i].dticks <= d
        invariant 0 <= i <= |list| && list == old(list)
        invariant d == ahead - Sum(list, i)
        invariant PlaceFrom(list, ahead, i) == Place(list, ahead)
      {
        d := d - list[i].dticks;
        i := i + 1;
      }
      if i < |list| {
        list := list[i := list[i].(dticks := list[i].dticks - d)];
      }
      list := list[..i] + [Entry(id, d)] + list[i..];
    }

    /** remove_timeout */
    method RemoveTimeout(i: nat)
      requires i < |list|
      modifies this`list
      ensures list == RemoveAt(old(list), i)
      ensures forall j | 0 <= j < |list| ::
                var was := if j < i then j else j + 1;
                list[j].id == old(list)[was].id && Sum(list, j + 1) == Sum(old(list), was + 1)
    {
      forall n | 0 <= n < |list| ensures Sum(RemoveAt(list, i), n) == Sum(list, if n <= i then n else n + 1) {
        SumRemoveAt(list, i, n);
      }
      if i + 1 < |list| {
        list := list[i + 1 := list[i + 1].(dticks := list[i + 1].dticks + list[i].dticks)];
      }
      list := list[..i] + list[i + 1..];
    }

    /** z_abort_timeout, which fails when the timeout is not active */
    method AbortTimeout(id: nat) returns (aborted: bool)
      requires Inv(View())
      modifies this
      ensures aborted == Linked(old(list), id)
      ensures View() == Act(old(View()), Action.AbortTimeout(id))
    {
      ghost var k := View();
      var i := IndexOf(list, id);
      aborted := i < |list|;
      if aborted {
        RemoveTimeout(i);
        Record(Removed(k, id));
      }
    }

    /** The body of a callback, or whatever else happens while the lock is released. */
    method Perform(actions: seq<Action>)
      requires Inv(View())
      modifies this
      ensures View() == ActAll(old(View()), actions)
    {
      hide Inv, Act;
      var i := 0;
      while i < |actions|
        invariant 0 <= i <= |actions| && Inv(View())
        invariant ActAll(View(), actions[i..]) == ActAll(old(View()), actions)
      {
        assert actions[i..][0] == actions[i] && actions[i..][1..] == actions[i + 1..];
        match actions[i] {
          case AddTimeout(id, timeout, hardware) => AddTimeout(id, timeout, hardware);
          case AbortTimeout(id) => var _ := AbortTimeout(id);
        }
        i := i + 1;
      }
    }

    /** Unlinks the first node at its deadline. */
    method ExpireFirst() returns (id: nat)
      requires Inv(View()) && CanFire(State())
      modifies this
      ensures id == FirstId(old(View())) && View() == Expired(old(View()))
    {
      ghost var k := View();
      id := list[0].id;
      var dt := list[0].dticks;
      currTick := currTick + dt;
      announceRemaining := announceRemaining - dt;
      list := list[0 := list[0].(dticks := 0)];
      RemoveTimeout(0);
      Record(Expired(k));
    }

    /** Absorbs the ticks that no timeout was due in. */
    method FinishAnnouncing()
      modifies this`currTick, this`announceRemaining, this`list
      ensures State() == Finish(old(State()))
    {
      if list != [] {
        list := list[0 := list[0].(dticks := list[0].dticks - announceRemaining)];
      }
      currTick := currTick + announceRemaining;
      announceRemaining := 0;
    }

    /** z_clock_announce */
    method Announce(ticks: nat, callbacks: Callbacks)
      requires Idle(View())
      modifies this
      ensures View() == TimeoutLedger.Announce(old(View()), ticks, callbacks)
    {
      hide PendingInOrder, FiredInOrder, SplitByNow, Encodes, NonNegative, DueNow, Fire, Finish;
      announceRemaining := ticks;
      ghost var start := View();
      var n := 0;
      while list != [] && list[0].dticks <= announceRemaining
        invariant Inv(View())
        invariant Drain(View(), callbacks, n) == Drain(start, callbacks, 0)
        decreases announceRemaining, DueNow(list)
      {
        FireDescends(State());
        ExpiredKeepsInv(View());
        var id := ExpireFirst();
        Perform(callbacks(n, id));
        n := n + 1;
      }
      FinishAnnouncing();
    }

    /** next_timeout without time slicing, for either value of MAX_WAIT */
    method NextTimeout(hardware: nat, maxWait: int) returns (wait: int)
      requires Inv(View())
      ensures wait == NextWait(State(), hardware, maxWait)
      ensures WaitsInTime(View(), hardware, wait) <==>
              maxWait >= 0 || NonePending(View()) || SomeDue(View(), hardware)
      ensures maxWait >= 0 ==> 0 <= wait <= maxWait
      ensures 0 <= wait < maxWait ==>
                exists s | 0 <= s < |log| && log[s].fate == Pending ::
                  log[s].due <= currTick + (if announceRemaining == 0 then hardware else 0) + wait
    {
      var elapsed := if announceRemaining == 0 then hardware else 0;
      if list == [] {
        wait := maxWait;
      } else {
        var left := list[0].dticks - elapsed;
        wait := if left <= 0 then 0 else if left < maxWait then left else maxWait;
      }
      NextWaitInTime(View(), hardware, maxWait);
    }

    /** timeout_rem: the ticks left until the deadline, counted from the present */
    method TimeoutRemaining(id: nat, hardware: nat) returns (ticks: int)
      requires Inv(View())
      ensures !Linked(list, id) ==> ticks == 0
      ensures forall s | 0 <= s < |log| && log[s].fate == Pending && log[s].id == id ::
                currTick + (if announceRemaining == 0 then hardware else 0) + ticks == log[s].due
    {
      hide PendingInOrder, FiredInOrder, SplitByNow, Encodes, Before;
      var linked := exists i | 0 <= i < |list| :: list[i].id == id;
      if !linked {
        forall s | 0 <= s < |log| && log[s].fate == Pending ensures log[s].id != id {
          PendingIsLinked(View(), s);
        }
        return 0;
      }
      ticks := 0;
      var i := 0;
      while list[i].id != id
        invariant 0 <= i < |list|
        invariant exists j | i <= j < |list| :: list[j].id == id
        invariant ticks == Sum(list, i)
        decreases |list| - i
      {
        ticks := ticks + list[i].dticks;
        i := i + 1;
      }
      ticks := ticks + list[i].dticks - Elapsed(State(), hardware);
      OnlyPending(View(), i);
    }

    /**
     z_timeout_expires. Its documentation promises the uptime of expiry. What it returns falls
     short of that by the ticks the driver has counted but not announced.
     */
    method TimeoutExpires(id: nat, hardware: nat) returns (tick: int)
      requires Inv(View())
      ensures !Linked(list, id) ==> tick == currTick
      ensures forall s | 0 <= s < |log| && log[s].fate == Pending && log[s].id == id ::
                tick == log[s].due - if announceRemaining == 0 then hardware else 0
      ensures forall s | 0 <= s < |log| && log[s].fate == Pending && log[s].id == id ::
                tick == log[s].due <==> announceRemaining > 0 || hardware == 0
    {
      var ticks := TimeoutRemaining(id, hardware);
      tick := currTick + ticks;
    }
  }

  // ----- The code's view of the ledger ----------------------------------------------------

  /** The first node carries the earliest of all pending deadlines. */
  lemma {:induction false} FirstIsEarliest(k: Kernel)
    requires Inv(k) && k.clock.list != []
    ensures var first := k.clock.now + k.clock.list[0].dticks;
            && (forall s | 0 <= s < |k.log| && k.log[s].fate == Pending :: first <= k.log[s].due)
            && k.order[0] < |k.log| && k.log[k.order[0]].fate == Pending && k.log[k.order[0]].due == first
  {
    assert Sum(k.clock.list, 0 + 1) == Sum(k.clock.list, 0) + k.clock.list[0].dticks;
    assert EncodesAt(k.clock.now, k.clock.list, k.log, k.order, 0);
    forall s | 0 <= s < |k.log| && k.log[s].fate == Pending ensures k.log[k.order[0]].due <= k.log[s].due {
      var i :| 0 <= i < |k.order| && k.order[i] == s;
      assert i > 0 ==> Before(k.log, k.order[0], k.order[i]);
    }
  }

  // ----- How long the driver may wait -----------------------------------------------------

  /** The wait ends no later than any pending timeout is due; a negative one never ends. */
  ghost predicate WaitsInTime(k: Kernel, hardware: nat, wait: int) {
    forall s | 0 <= s < |k.log| && k.log[s].fate == Pending ::
      wait == 0 ||
      (wait > 0 && k.clock.now + (if k.clock.remaining == 0 then hardware else 0) + wait <= k.log[s].due)
  }

  predicate NonePending(k: Kernel) {
    forall s | 0 <= s < |k.log| :: k.log[s].fate != Pending
  }

  predicate SomeDue(k: Kernel, hardware: nat) {
    exists s | 0 <= s < |k.log| ::
      && k.log[s].fate == Pending
      && k.log[s].due <= k.clock.now + if k.clock.remaining == 0 then hardware else 0
  }

  /**
   The driver is never told to sleep past a deadline exactly when MAX_WAIT is a number of ticks,
   or nothing is pending, or something is due already. With K_TICKS_FOREVER for MAX_WAIT it is
   told to sleep forever on every timeout that is still ahead.
   */
  lemma {:induction false} NextWaitInTime(k: Kernel, hardware: nat, maxWait: int)
    requires Inv(k)
    ensures WaitsInTime(k, hardware, NextWait(k.clock, hardware, maxWait)) <==>
            maxWait >= 0 || NonePending(k) || SomeDue(k, hardware)
    ensures maxWait >= 0 ==> 0 <= NextWait(k.clock, hardware, maxWait) <= maxWait
    ensures 0 <= NextWait(k.clock, hardware, maxWait) < maxWait ==>
              exists s | 0 <= s < |k.log| && k.log[s].fate == Pending ::
                k.log[s].due <= k.clock.now + (if k.clock.remaining == 0 then hardware else 0)
                                + NextWait(k.clock, hardware, maxWait)
  {
    if k.clock.list == [] {
      forall s | 0 <= s < |k.log| ensures k.log[s].fate != Pending {
        if k.log[s].fate == Pending {
          PendingIsLinked(k, s);
        }
      }
    } else {
      FirstIsEarliest(k);
      hide Inv;
    }
  }

  /** One timeout, ten ticks ahead, and the driver may sleep forever. */
  lemma {:induction false} SloppyIdleOversleeps(id: nat)
    ensures Inv(Boot)
    ensures var k := Act(Boot, AddTimeout(id, 9, 0));
            NextWait(k.clock, 0, FOREVER) == FOREVER && !WaitsInTime(k, 0, FOREVER)
  {
    EveryRun([]);
    hide Inv, Continues, DueNow, NonNegative;
    var k := Act(Boot, AddTimeout(id, 9, 0));
    RelativeDeadline(Boot, id, 9, 0);
    assert Insert([], id, 10) == [Entry(id, 10)];
    assert k.clock.list == [Entry(id, 10)] && k.log == [Instance(id, 10, Pending)];
    assert k.log[0].fate == Pending;
  }

  lemma {:induction false} PendingIsLinked(k: Kernel, s: nat)
    requires Inv(k) && s < |k.log| && k.log[s].fate == Pending
    ensures Linked(k.clock.list, k.log[s].id)
  {
    var i :| 0 <= i < |k.order| && k.order[i] == s;
    assert EncodesAt(k.clock.now, k.clock.list, k.log, k.order, i);
  }

  /** A linked timeout has one pending instance, with the deadline the list encodes for it. */
  lemma {:induction false} OnlyPending(k: Kernel, i: nat)
    requires Inv(k) && i < |k.clock.list|
    ensures forall s | 0 <= s < |k.log| && k.log[s].fate == Pending && k.log[s].id == k.clock.list[i].id ::
              k.log[s].due == k.clock.now + Sum(k.clock.list, i + 1)
  {
    forall s | 0 <= s < |k.log| && k.log[s].fate == Pending && k.log[s].id == k.clock.list[i].id
      ensures k.log[s].due == k.clock.now + Sum(k.clock.list, i + 1)
    {
      var j :| 0 <= j < |k.order| && k.order[j] == s;
      assert EncodesAt(k.clock.now, k.clock.list, k.log, k.order, i);
      assert EncodesAt(k.clock.now, k.clock.list, k.log, k.order, j);
    }
  }

  // ----- When an added timeout is due -----------------------------------------------------

  /**
   A relative timeout is due that many ticks, plus the one in progress, from the present: past
   the clock by what the driver has counted, or at the clock while ticks are being announced.
   */
  lemma {:induction false} RelativeDeadline(k: Kernel, id: nat, ticks: nat, hardware: nat)
    requires Inv(k) && !Linked(k.clock.list, id)
    ensures var log := Act(k, AddTimeout(id, ticks, hardware)).log;
            && (k.clock.remaining == 0 ==>
                  log == k.log + [Instance(id, k.clock.now + hardware + ticks + 1, Pending)])
            && (k.clock.remaining > 0 ==> log == k.log + [Instance(id, k.clock.now + ticks + 1, Pending)])
  {
    hide Inv;
  }

  /**
   K_TIMEOUT_ABS_TICKS(t) is meant to expire when the uptime reaches t. Because one tick is
   added before the value is recognised as absolute, a future t is met exactly when it is the
   very next tick; any later one is met a tick early, and one that is past in the next tick.
   */
  lemma {:induction false} AbsoluteDeadline(k: Kernel, id: nat, t: nat, hardware: nat)
    requires Inv(k) && !Linked(k.clock.list, id) && k.clock.now >= 0
    ensures var present := k.clock.now + if k.clock.remaining == 0 then hardware else 0;
            var log := Act(k, AddTimeout(id, -2 - t, hardware)).log;
            && log == k.log + [Instance(id, log[|k.log|].due, Pending)]
            && (t > present ==> (log[|k.log|].due == t <==> t == present + 1))
            && (t > present + 1 ==> log[|k.log|].due == t - 1)
            && (t <= present ==> log[|k.log|].due == present + 1)
  {
    hide Inv;
  }

  /** Adding a timeout that never expires, or one that is linked already, changes nothing. */
  lemma {:induction false} AddedForNothing(k: Kernel, id: nat, timeout: int, hardware: nat)
    requires Inv(k) && (timeout == -1 || Linked(k.clock.list, id))
    ensures Act(k, AddTimeout(id, timeout, hardware)) == k
  {
  }

  /** An abort meets the one pending instance of the timeout, if there is one, and no other. */
  lemma {:induction false} AbortMeetsOne(k: Kernel, id: nat)
    requires Inv(k)
    ensures var r := Act(k, AbortTimeout(id));
            && |r.log| == |k.log| && r.clock.now == k.clock.now
            && (forall s | 0 <= s < |k.log| ::
                  r.log[s] == if k.log[s].id == id && k.log[s].fate == Pending then k.log[s].(fate := Aborted)
                              else k.log[s])
            && !Linked(r.clock.list, id)
  {
    AbortUnlinks(k, id);
    if Linked(k.clock.list, id) {
      var i := IndexOf(k.clock.list, id);
      assert EncodesAt(k.clock.now, k.clock.list, k.log, k.order, i);
      forall s | 0 <= s < |k.log| && k.log[s].id == id && k.log[s].fate == Pending ensures s == k.order[i] {
        OnePending(k, s, k.order[i]);
      }
    } else {
      forall s | 0 <= s < |k.log| && k.log[s].fate == Pending ensures k.log[s].id != id {
        PendingIsLinked(k, s);
      }
    }
  }

  lemma {:induction false} AbortUnlinks(k: Kernel, id: nat)
    requires Inv(k)
    ensures !Linked(Act(k, AbortTimeout(id)).clock.list, id)
  {
    if Linked(k.clock.list, id) {
      var i := IndexOf(k.clock.list, id);
      var list := Act(k, AbortTimeout(id)).clock.list;
      assert EncodesAt(k.clock.now, k.clock.list, k.log, k.order, i);
      forall j | 0 <= j < |list| ensures list[j].id != id {
        assert EncodesAt(k.clock.now, k.clock.list, k.log, k.order, if j < i then j else j + 1);
      }
    }
  }

  lemma {:induction false} OnePending(k: Kernel, s: nat, t: nat)
    requires Inv(k) && s < |k.log| && t < |k.log|
    requires k.log[s].fate == k.log[t].fate == Pending && k.log[s].id == k.log[t].id
    ensures s == t
  {
  }
}
