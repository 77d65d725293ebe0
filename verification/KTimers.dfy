/** `struct k_timer` as its calls, its expiry handler and the announcement loop update it. */
module KTimers {
  import opened Timeouts
  import opened TimeoutLedger
  import opened TimeoutQueues
  import opened Timers
  import opened TimerRuns
  import opened TimerBeats
  import WaitQueues

  class KTimer {
    const id: nat
    const queue: TimeoutQueue
    var period: int
    var status: nat
    var waitQ: seq<WaitQueues.Waiter<()>>
    var awake: set<nat>

    // The account this timer is held against
    ghost var reset: nat
    ghost var started: nat
    ghost var counted: nat
    ghost var results: seq<Read>

    ghost function View(): Timer
      reads this, queue
    {
      Timer(queue.View(), id, period, status, waitQ, awake, reset, started, counted, results)
    }

    /** k_timer_init */
    constructor (id: nat, queue: TimeoutQueue)
      ensures this.id == id && this.queue == queue && View() == Created(queue.View(), id) && Counted(View())
    {
      this.id, this.queue, period, status, waitQ := id, queue, NO_WAIT, 0, [];
      awake, reset, started, counted, results := {}, |queue.firings|, |queue.firings|, 0, [];
      new;
      NoneYet(queue.firings, id);
    }

    /** z_impl_k_timer_start */
    method Start(duration: int, period: int, hardware: nat)
      requires Inv(queue.View()) && Counted(View())
      modifies this, queue
      ensures View() == Done(old(View()), TimerAction.Start(duration, period, hardware)) && Counted(View())
      ensures duration >= 0 && period >= 0 ==>
                var present := queue.currTick + if queue.announceRemaining == 0 then hardware else 0;
                && |queue.log| == |old(queue.log)| + 1
                && queue.log[|old(queue.log)|] ==
                   Instance(id, present + (if duration == 0 then 1 else duration), Fate.Pending)
                && this.period == (if period == 0 then 0 else if period == 1 then 1 else period - 1)
    {
      hide Inv, Act, Counted;
      DoneKeepsCount(View(), TimerAction.Start(duration, period, hardware));
      if duration >= 0 && period >= 0 {
        StartSchedules(View(), duration, period, hardware);
      }
      if duration == FOREVER {
        return;
      }
      var _ := queue.AbortTimeout(id);
      this.period := StartPeriod(period);
      status := 0;
      queue.AddTimeout(id, StartDuration(duration), hardware);
      reset, started, counted := |queue.firings|, |queue.firings|, 0;
    }

    /** Takes one thread off the wait queue. */
    method WakeFirst()
      modifies this`waitQ, this`awake
      ensures View() == FirstWoken(old(View()))
    {
      if |waitQ| > 0 {
        awake := awake + {waitQ[0].id};
        waitQ := waitQ[1..];
      }
    }

    /** z_impl_k_timer_stop, which does nothing unless the timer was running */
    method Stop()
      requires Inv(queue.View()) && Counted(View())
      modifies this, queue
      ensures View() == Done(old(View()), TimerAction.Stop) && Counted(View())
      ensures !Linked(queue.list, id)
    {
      StopUnschedules(View());
      hide Inv, Act, Counted;
      DoneKeepsCount(View(), TimerAction.Stop);
      ghost var before := View();
      var wasActive := queue.AbortTimeout(id);
      if wasActive {
        WakeFirst();
      } else {
        InactiveAbort(before.k, id);
      }
    }

    /** z_impl_k_timer_status_get: the expiries since the status was last read or the timer started */
    method StatusGet() returns (result: nat)
      requires Inv(queue.View()) && Counted(View())
      modifies this
      ensures View() == Done(old(View()), TimerAction.StatusGet) && Counted(View())
      ensures result == old(Expiries(View(), reset))
    {
      DoneKeepsCount(View(), TimerAction.StatusGet);
      result := status;
      results := results + [Read(status, reset, |queue.firings|)];
      reset, counted := |queue.firings|, counted + status;
      status := 0;
    }

    /** z_impl_k_timer_status_sync up to its wait; a thread does not wait once there is an expiry to report */
    method StatusSync(thread: nat, prio: int) returns (waits: bool, result: nat)
      requires Inv(queue.View()) && Counted(View())
      modifies this
      ensures View() == Done(old(View()), TimerAction.StatusSync(thread, prio)) && Counted(View())
      ensures waits <==> old(Expiries(View(), reset)) == 0 && Linked(old(queue.list), id)
      ensures !waits ==> result == old(Expiries(View(), reset))
    {
      hide Inv;
      DoneKeepsCount(View(), TimerAction.StatusSync(thread, prio));
      result := status;
      waits := false;
      if result == 0 {
        var i := IndexOf(queue.list, id);
        if i < |queue.list| {
          waits := true;
          waitQ := WaitQueues.PriqAdd(waitQ, WaitQueues.Waiter(thread, prio, ()));
          return;
        }
      }
      result := StatusGet();
    }

    /** The end of z_impl_k_timer_status_sync for a thread that waited */
    method SyncReturns(thread: nat) returns (result: nat)
      requires Inv(queue.View()) && Counted(View()) && thread in awake
      modifies this
      ensures View() == Done(old(View()), TimerAction.SyncReturns(thread)) && Counted(View())
      ensures result == old(Expiries(View(), reset))
    {
      hide Inv;
      SameCount(View(), View().(awake := awake - {thread}));
      awake := awake - {thread};
      result := StatusGet();
    }

    /** Calls that user functions make, whatever they are. */
    method Perform(actions: seq<TimerAction>)
      requires Inv(queue.View()) && Counted(View())
      modifies this, queue
      ensures View() == AllDone(old(View()), actions) && Counted(View())
    {
      hide Inv, Counted, Act, Done;
      var i := 0;
      while i < |actions|
        invariant 0 <= i <= |actions| && Inv(queue.View()) && Counted(View())
        invariant AllDone(View(), actions[i..]) == AllDone(old(View()), actions)
      {
        assert actions[i..][1..] == actions[i + 1..];
        PerformOne(actions[i]);
        i := i + 1;
      }
    }

    method PerformOne(action: TimerAction)
      requires Inv(queue.View()) && Counted(View())
      modifies this, queue
      ensures View() == Done(old(View()), action) && Counted(View())
    {
      hide Inv, Counted;
      DoneKeepsCount(View(), action);
      match action
      case Other(a) => queue.Perform([a]); OneAction(old(queue.View()), a);
      case Start(duration, p, hardware) => Start(duration, p, hardware);
      case Stop => Stop();
      case StatusGet => var _ := StatusGet();
      case StatusSync(thread, prio) => var _, _ := StatusSync(thread, prio);
      case SyncReturns(thread) =>
        if thread in awake {
          var _ := SyncReturns(thread);
        }
    }

    /** z_timer_expiration_handler, with what the user's expiry function does */
    method HandleExpiry(hardware: nat, expiry: seq<TimerAction>)
      requires Inv(queue.View()) && Counted(View().(status := status + 1))
      modifies this, queue
      ensures View() == FirstWoken(AllDone(Counting(old(View()), hardware), expiry)) && Counted(View())
    {
      hide Inv, Act, AllDone;
      if period != NO_WAIT && period != FOREVER {
        queue.AddTimeout(id, period, hardware);
      }
      status := status + 1;
      SameCount(old(View()).(status := status), View());
      hide Counted;
      Perform(expiry);
      SameCount(View(), FirstWoken(View()));
      WakeFirst();
    }

    /** z_clock_announce where this timer's handler is among the callbacks */
    method Announce(ticks: nat, turns: Turns)
      requires Idle(queue.View()) && Counted(View())
      modifies this, queue
      ensures View() == Announced(old(View()), ticks, turns) && Counted(View())
    {
      hide PendingInOrder, FiredInOrder, SplitByNow, Encodes, NonNegative, DueNow, Counted, Fire, Finish;
      AnnounceKeepsCount(View(), ticks, turns);
      queue.announceRemaining := ticks;
      ghost var start := View();
      SameCount(old(View()), start);
      var n := 0;
      while queue.list != [] && queue.list[0].dticks <= queue.announceRemaining
        invariant Inv(queue.View()) && Counted(View())
        invariant Drained(View(), turns, n) == Drained(start, turns, 0)
        decreases queue.announceRemaining, DueNow(queue.list)
      {
        FireDescends(queue.State());
        ExpireOne(turns, n);
        n := n + 1;
      }
      queue.FinishAnnouncing();
    }

    /** One pass of the loop: whoever's deadline it is, its callback runs. */
    method ExpireOne(turns: Turns, n: nat)
      requires Inv(queue.View()) && Counted(View()) && CanFire(queue.State())
      modifies this, queue
      ensures View() == Passed(old(View()), turns(n, FirstId(old(queue.View())))) && Counted(View())
    {
      hide Inv, Act, AllDone, Counted, Expired;
      ghost var f := FiringAppended(queue.View());
      var first := queue.ExpireFirst();
      var turn := turns(n, first);
      if first == id {
        FiringCounted(old(View()), View().(status := status + 1), f);
        HandleExpiry(turn.hardware, turn.actions);
      } else {
        FiringCounted(old(View()), View(), f);
        Perform(turn.actions);
      }
    }
  }

  lemma {:induction false} InactiveAbort(k: Kernel, id: nat)
    requires Inv(k) && !Linked(k.clock.list, id)
    ensures Act(k, AbortTimeout(id)) == k
  {
  }

  lemma {:induction false} OneAction(k: Kernel, a: Action)
    requires Inv(k)
    ensures ActAll(k, [a]) == Act(k, a)
  {
    assert [a][1..] == [];
  }
}
