/**
 When a timer expires. Between a start and whatever next starts or stops it, a periodic timer
 keeps its beat and a one-shot timer expires once, however ticks are batched and whatever else
 goes on, in and out of callbacks.
 */
module TimerBeats {
  import opened Timeouts
  import opened TimeoutLedger
  import opened TimeoutQueues
  import opened Timers
  import opened TimerRuns
  import WaitQueues

  // ----- What a start makes pending -------------------------------------------------------

  /** A start replaces whatever was pending by one expiry, after the duration but not before the next tick. */
  lemma {:induction false} StartSchedules(t: Timer, duration: nat, period: nat, hardware: nat)
    requires Inv(t.k)
    ensures var r := Done(t, TimerAction.Start(duration, period, hardware));
            var present := t.k.clock.now + if t.k.clock.remaining == 0 then hardware else 0;
            var due := present + if duration == 0 then 1 else duration;
            && |r.k.log| == |t.k.log| + 1 && r.k.log[|t.k.log|] == Instance(t.id, due, Pending)
            && (forall s | 0 <= s < |t.k.log| && t.k.log[s].id == t.id :: r.k.log[s].fate != Pending)
            && (forall s | 0 <= s < |t.k.log| && t.k.log[s].id != t.id :: r.k.log[s] == t.k.log[s])
            && r.period == (if period == 0 then 0 else if period == 1 then 1 else period - 1) && r.status == 0
  {
    hide Inv, Act, Linked;
    AbortMeetsOne(t.k, t.id);
    FirstExpiry(Act(t.k, AbortTimeout(t.id)), t.id, duration, hardware);
  }

  /** An absolute start is taken as it comes: due a tick early, like any absolute timeout, or else in the next tick. */
  lemma {:induction false} AbsoluteStart(t: Timer, at: nat, period: nat, hardware: nat)
    requires Inv(t.k) && t.k.clock.now >= 0
    ensures var r := Done(t, TimerAction.Start(-2 - at, period, hardware));
            var present := t.k.clock.now + if t.k.clock.remaining == 0 then hardware else 0;
            && |r.k.log| == |t.k.log| + 1
            && r.k.log[|t.k.log|] == Instance(t.id, if at > present + 1 then at - 1 else present + 1, Pending)
            && r.period == (if period == 0 then 0 else if period == 1 then 1 else period - 1) && r.status == 0
  {
    hide Inv, Act, Linked;
    AbortMeetsOne(t.k, t.id);
    AbsoluteDeadline(Act(t.k, AbortTimeout(t.id)), t.id, at, hardware);
  }

  /** A start with K_FOREVER for its duration is no start. */
  lemma {:induction false} StartForeverIsNothing(t: Timer, period: int, hardware: nat)
    requires Inv(t.k)
    ensures Done(t, TimerAction.Start(-1, period, hardware)) == t
  {
  }

  /** A stop takes the pending expiry away and lets the first waiter go, if the timer is running. */
  lemma {:induction false} StopUnschedules(t: Timer)
    requires Inv(t.k)
    ensures var r := Done(t, TimerAction.Stop);
            && !Linked(r.k.clock.list, t.id) && r.status == t.status
            && (!Linked(t.k.clock.list, t.id) ==> r == t)
            && (Linked(t.k.clock.list, t.id) && t.waiters != [] ==>
                  r.waiters == t.waiters[1..] && r.awake == t.awake + {t.waiters[0].id})
  {
    AbortUnlinks(t.k, t.id);
  }

  /** The timer's expiry counts one and lets the thread go that has waited longest of the highest priority. */
  lemma {:induction false} ExpiryLetsOneGo(t: Timer, hardware: nat)
    requires Inv(t.k) && CanFire(t.k.clock)
    ensures var r := Passed(t, Turn(hardware, []));
            if FirstId(t.k) != t.id then r == t.(k := r.k)
            else
              && r.status == t.status + 1
              && (t.waiters == [] ==> r.waiters == [] && r.awake == t.awake)
              && (t.waiters != [] ==> r.waiters == t.waiters[1..] && r.awake == t.awake + {t.waiters[0].id})
  {
    hide Inv, Act, Expired, DueNow;
    assert AllDone(Called(t, hardware), []) == Called(t, hardware);
  }

  /** The handler restarts the timer before it calls the user's function, so a stop from there holds. */
  lemma {:induction false} StopFromCallback(t: Timer, hardware: nat)
    requires Inv(t.k) && CanFire(t.k.clock) && FirstId(t.k) == t.id
    ensures var r := Passed(t, Turn(hardware, [TimerAction.Stop]));
            !Linked(r.k.clock.list, t.id) && r.status == t.status + 1
  {
    hide Inv, Act, Expired, DueNow, Linked;
    var called := Called(t, hardware);
    StopUnschedules(called);
    var stopped := Done(called, TimerAction.Stop);
    assert [TimerAction.Stop][1..] == [];
    assert AllDone(called, [TimerAction.Stop]) == AllDone(stopped, []) == stopped;
  }

  /** A thread that waits for the timer joins those who do, and only when there is nothing to report yet. */
  lemma {:induction false} SyncWaits(t: Timer, thread: nat, prio: int)
    requires Inv(t.k)
    ensures var r := Done(t, TimerAction.StatusSync(thread, prio));
            if t.status == 0 && Linked(t.k.clock.list, t.id) then
              && r == t.(waiters := r.waiters) && |r.waiters| == |t.waiters| + 1
              && WaitQueues.Waiter(thread, prio, ()) in r.waiters
              && forall i | 0 <= i < |t.waiters| :: t.waiters[i] in r.waiters
            else r.waiters == t.waiters && r.status == 0 && r.k == t.k
  {
    WaitQueues.Members(t.waiters, WaitQueues.Waiter(thread, prio, ()));
    hide Inv;
  }

  /** A read, at once or after waiting, returns what was counted and starts from nothing; it changes no timeout. */
  lemma {:induction false} ReadStartsOver(t: Timer, thread: nat)
    requires Inv(t.k)
    ensures var r := Done(t, TimerAction.StatusGet);
            && r.status == 0 && r.k == t.k && r.waiters == t.waiters && r.awake == t.awake && r.period == t.period
            && |r.results| == |t.results| + 1 && r.results[|t.results|].value == t.status
    ensures var r := Done(t, TimerAction.SyncReturns(thread));
            if thread in t.awake then r == Done(t, TimerAction.StatusGet).(awake := t.awake - {thread}) else r == t
  {
    hide Inv;
  }

  // ----- Quiet runs -----------------------------------------------------------------------

  /** Neither starts nor stops the timer. */
  predicate LetsRun(a: TimerAction, id: nat) {
    !a.Start? && !a.Stop? && (a.Other? ==> a.action.id != id)
  }

  predicate AllLetRun(actions: seq<TimerAction>, id: nat) {
    forall i | 0 <= i < |actions| :: LetsRun(actions[i], id)
  }

  /** No callback starts or stops the timer, and the driver's count stands still while ticks are announced. */
  ghost predicate QuietTurns(turns: Turns, id: nat) {
    forall n, i :: turns(n, i).hardware == 0 && AllLetRun(turns(n, i).actions, id)
  }

  ghost predicate Quiet(steps: seq<TimerStep>, id: nat) {
    forall i | 0 <= i < |steps| ::
      match steps[i]
      case Do(a) => LetsRun(a, id)
      case Tick(_, turns) => QuietTurns(turns, id)
  }

  // ----- A running timer ------------------------------------------------------------------

  /** A one-shot timer has yet to expire, or has done so, when it should, and is not pending any more. */
  ghost predicate Single(k: Kernel, b: Beat) {
    && b.from <= |k.firings|
    && var ticks := ExpiryTicks(k.firings, b.from, b.id);
       (ticks == [] && OnBeat(k, b)) || (ticks == [b.first] && NoneFor(k.log, b.id))
  }

  predicate NoneFor(log: seq<Instance>, id: nat) {
    forall s | 0 <= s < |log| && log[s].id == id :: log[s].fate != Pending
  }

  /** What the timer stores is one tick less than its beat, or nothing if it is to expire once. */
  ghost predicate Ticking(t: Timer, b: Beat) {
    && b.id == t.id
    && if b.period == 0 then t.period == 0 && Single(t.k, b)
       else t.period >= 1 && b.period == t.period + 1 && OnBeat(t.k, b)
  }

  lemma {:induction false} ActKeepsSingle(k: Kernel, a: Action, b: Beat)
    requires Inv(k) && Single(k, b) && a.id != b.id
    ensures Single(Act(k, a), b)
  {
    if OnBeat(k, b) && ExpiryTicks(k.firings, b.from, b.id) == [] {
      hide Inv, OnBeat, Act;
      ActKeepsBeat(k, a, b);
    } else {
      ActKeepsNone(k, a, b.id);
    }
  }

  lemma {:induction false} ActKeepsNone(k: Kernel, a: Action, id: nat)
    requires Inv(k) && NoneFor(k.log, id) && a.id != id
    ensures NoneFor(Act(k, a).log, id)
  {
  }

  lemma {:induction false} DoneKeepsTicking(t: Timer, a: TimerAction, b: Beat)
    requires Inv(t.k) && Ticking(t, b) && LetsRun(a, t.id)
    ensures Ticking(Done(t, a), b)
  {
    hide Inv, OnBeat, Act, Single;
    if a.Other? {
      if b.period == 0 {
        ActKeepsSingle(t.k, a.action, b);
      } else {
        ActKeepsBeat(t.k, a.action, b);
      }
    }
  }

  lemma {:induction false} AllDoneKeepsTicking(t: Timer, actions: seq<TimerAction>, b: Beat)
    requires Inv(t.k) && Ticking(t, b) && AllLetRun(actions, t.id)
    ensures Ticking(AllDone(t, actions), b)
    decreases actions
  {
    hide Inv, Done, Ticking;
    if actions != [] {
      assert LetsRun(actions[0], t.id);
      DoneKeepsTicking(t, actions[0], b);
      AllDoneKeepsTicking(Done(t, actions[0]), actions[1..], b);
    }
  }

  lemma {:induction false} ExpiryKeepsSingle(k: Kernel, b: Beat)
    requires Inv(k) && CanFire(k.clock) && Single(k, b) && b.period == 0
    ensures Inv(Expired(k)) && Single(Expired(k), b)
  {
    ExpiredKeepsInv(k);
    var r := Expired(k);
    if FirstId(k) != b.id {
      OtherSpares(k, b);
      if OnBeat(k, b) {
        OtherExpiryKeepsBeat(k, b);
      }
    } else {
      FirstIsPending(k);
      OwnExpiryIsOnBeat(k, b);
      UnlinkedIsNone(r, b.id);
    }
    hide Inv, OnBeat, Expired;
  }

  lemma {:induction false} OtherSpares(k: Kernel, b: Beat)
    requires Inv(k) && CanFire(k.clock) && FirstId(k) != b.id && b.from <= |k.firings|
    ensures ExpiryTicks(Expired(k).firings, b.from, b.id) == ExpiryTicks(k.firings, b.from, b.id)
    ensures b.from <= |Expired(k).firings| && (NoneFor(k.log, b.id) ==> NoneFor(Expired(k).log, b.id))
  {
    assert EncodesAt(k.clock.now, k.clock.list, k.log, k.order, 0);
    assert Expired(k).firings[..|Expired(k).firings| - 1] == k.firings;
  }

  lemma {:induction false} FirstIsPending(k: Kernel)
    requires Inv(k) && CanFire(k.clock)
    ensures !NoneFor(k.log, FirstId(k))
  {
    assert EncodesAt(k.clock.now, k.clock.list, k.log, k.order, 0);
    assert k.log[k.order[0]].fate == Pending;
  }

  lemma {:induction false} UnlinkedIsNone(k: Kernel, id: nat)
    requires Inv(k) && !Linked(k.clock.list, id)
    ensures NoneFor(k.log, id)
  {
    forall s | 0 <= s < |k.log| && k.log[s].id == id ensures k.log[s].fate != Pending {
      if k.log[s].fate == Pending {
        PendingIsLinked(k, s);
      }
    }
  }

  /** The timer's own expiry comes on the beat and makes the next one pending; another's leaves it alone. */
  lemma {:induction false} CallKeepsTicking(t: Timer, b: Beat)
    requires Inv(t.k) && CanFire(t.k.clock) && Ticking(t, b)
    ensures Ticking(Called(t, 0), b)
  {
    hide Inv, OnBeat, Act, Expired, Single, NonNegative;
    if b.period == 0 {
      ExpiryKeepsSingle(t.k, b);
    } else if FirstId(t.k) == t.id {
      ExpiredKeepsInv(t.k);
      OwnExpiryIsOnBeat(t.k, b);
      RestartIsOnBeat(Expired(t.k), b, |ExpiryTicks(t.k.firings, b.from, b.id)|);
    } else {
      OtherExpiryKeepsBeat(t.k, b);
    }
  }

  lemma {:induction false} PassKeepsTicking(t: Timer, turn: Turn, b: Beat)
    requires Inv(t.k) && CanFire(t.k.clock) && Ticking(t, b) && turn.hardware == 0 && AllLetRun(turn.actions, t.id)
    ensures Ticking(Passed(t, turn), b)
  {
    hide Inv, OnBeat, Called, AllDone, Expired;
    CallKeepsTicking(t, b);
    AllDoneKeepsTicking(Called(t, 0), turn.actions, b);
  }

  lemma {:induction false} DrainKeepsTicking(t: Timer, turns: Turns, n: nat, b: Beat)
    requires Inv(t.k) && Ticking(t, b) && QuietTurns(turns, t.id)
    ensures Ticking(Drained(t, turns, n), b)
    decreases t.k.clock.remaining, DueNow(t.k.clock.list)
  {
    if CanFire(t.k.clock) {
      hide PendingInOrder, FiredInOrder, SplitByNow, Encodes, DueNow, Ticking, AllLetRun;
      FireDescends(t.k.clock);
      var turn := turns(n, FirstId(t.k));
      PassKeepsTicking(t, turn, b);
      DrainKeepsTicking(Passed(t, turn), turns, n + 1, b);
    }
  }

  lemma {:induction false} AnnounceKeepsTicking(t: Timer, ticks: nat, turns: Turns, b: Beat)
    requires Idle(t.k) && Ticking(t, b) && QuietTurns(turns, t.id)
    ensures Ticking(Announced(t, ticks, turns), b)
  {
    hide Drained, PendingInOrder, FiredInOrder, SplitByNow, Encodes, QuietTurns, OnBeat;
    var start := t.(k := t.k.(clock := t.k.clock.(remaining := ticks)));
    SameTicking(t, start, b);
    DrainKeepsTicking(start, turns, 0, b);
    SameTicking(Drained(start, turns, 0), Announced(t, ticks, turns), b);
  }

  lemma {:induction false} SameTicking(t: Timer, r: Timer, b: Beat)
    requires Ticking(t, b) && r.id == t.id && r.period == t.period
    requires r.k.log == t.k.log && r.k.firings == t.k.firings
    ensures Ticking(r, b)
  {
    if OnBeat(t.k, b) {
      SameBeat(t.k, r.k, b);
    }
    hide OnBeat;
  }

  lemma {:induction false} RunKeepsTicking(t: Timer, steps: seq<TimerStep>, b: Beat)
    requires Idle(t.k) && Ticking(t, b) && Quiet(steps, t.id)
    ensures Ticking(Ran(t, steps), b)
    decreases steps
  {
    hide Inv, Done, Announced, Ticking, QuietTurns;
    if steps != [] {
      match steps[0]
      case Do(a) =>
        DoneIsIdle(t, a);
        DoneKeepsTicking(t, a, b);
        RunKeepsTicking(Done(t, a), steps[1..], b);
      case Tick(ticks, turns) =>
        AnnounceKeepsTicking(t, ticks, turns, b);
        RunKeepsTicking(Announced(t, ticks, turns), steps[1..], b);
    }
  }

  /**
   A periodic timer does not drift. Started with a duration and a period, it has expired, by the
   time the clock reads `now`, exactly at first, first + p, first + 2p, ... up to the last such
   tick that is not after `now`. A period of one tick is kept as two.
   */
  lemma {:induction false} NoDrift(t: Timer, duration: nat, period: nat, hardware: nat, steps: seq<TimerStep>)
    requires Idle(t.k) && period >= 1 && Quiet(steps, t.id)
    ensures Idle(Done(t, TimerAction.Start(duration, period, hardware)).k)
    ensures var r := Ran(Done(t, TimerAction.Start(duration, period, hardware)), steps);
            var ticks := ExpiryTicks(r.k.firings, |t.k.firings|, t.id);
            var first := t.k.clock.now + hardware + if duration == 0 then 1 else duration;
            var p := if period == 1 then 2 else period;
            && (forall n | 0 <= n < |ticks| :: ticks[n] == first + n * p)
            && r.k.clock.now < first + |ticks| * p
  {
    var start := TimerAction.Start(duration, period, hardware);
    var first := t.k.clock.now + hardware + if duration == 0 then 1 else duration;
    var b := Beat(t.id, |t.k.firings|, first, if period == 1 then 2 else period);
    DoneIsIdle(t, start);
    StartIsTicking(t, duration, period, hardware, b);
    hide Inv, Done, Ran;
    RunKeepsTicking(Done(t, start), steps, b);
    BeatIsOnTime(Ran(Done(t, start), steps).k, b);
  }

  lemma {:induction false} StartIsTicking(t: Timer, duration: nat, period: nat, hardware: nat, b: Beat)
    requires Idle(t.k)
    requires b == Beat(t.id, |t.k.firings|, t.k.clock.now + hardware + (if duration == 0 then 1 else duration),
                       if period == 1 then 2 else period)
    ensures Ticking(Done(t, TimerAction.Start(duration, period, hardware)), b)
  {
    hide Inv, Act;
    StartSchedules(t, duration, period, hardware);
    NoneYet(t.k.firings, t.id);
    var r := Done(t, TimerAction.Start(duration, period, hardware));
    hide Done;
    assert PendingAt(r.k, |t.k.log|, b);
  }

  /** A one-shot timer expires once, after its duration, and never again. */
  lemma {:induction false} ExpiresOnce(t: Timer, duration: nat, hardware: nat, steps: seq<TimerStep>)
    requires Idle(t.k) && Quiet(steps, t.id)
    ensures Idle(Done(t, TimerAction.Start(duration, 0, hardware)).k)
    ensures var r := Ran(Done(t, TimerAction.Start(duration, 0, hardware)), steps);
            var first := t.k.clock.now + hardware + if duration == 0 then 1 else duration;
            ExpiryTicks(r.k.firings, |t.k.firings|, t.id) == if r.k.clock.now < first then [] else [first]
  {
    hide Inv, Done, Ran, Single, ExpiryTicks, Quiet, Continues;
    var start := TimerAction.Start(duration, 0, hardware);
    var first := t.k.clock.now + hardware + if duration == 0 then 1 else duration;
    var b := Beat(t.id, |t.k.firings|, first, 0);
    DoneIsIdle(t, start);
    StartIsTicking(t, duration, 0, hardware, b);
    RunKeepsTicking(Done(t, start), steps, b);
    var r := Ran(Done(t, start), steps);
    SingleIsOnTime(r.k, b);
  }

  lemma {:induction false} SingleIsOnTime(k: Kernel, b: Beat)
    requires Idle(k) && Single(k, b) && b.period == 0
    ensures ExpiryTicks(k.firings, b.from, b.id) == if k.clock.now < b.first then [] else [b.first]
  {
    if ExpiryTicks(k.firings, b.from, b.id) == [] {
      BeatIsOnTime(k, b);
      assert NthTick(b, 0) == b.first;
    } else {
      FiredIsPast(k, b.from, b.id);
      assert ExpiryTicks(k.firings, b.from, b.id)[0] == b.first;
    }
  }

  /** No expiry lies ahead of the clock. */
  lemma {:induction false} FiredIsPast(k: Kernel, from: nat, id: nat)
    requires forall i | 0 <= i < |k.firings| :: k.firings[i].at <= k.clock.now
    ensures forall j | 0 <= j < |ExpiryTicks(k.firings, from, id)| ::
              ExpiryTicks(k.firings, from, id)[j] <= k.clock.now
    decreases |k.firings|
  {
    if |k.firings| > from {
      FiredIsPast(k.(firings := k.firings[..|k.firings| - 1]), from, id);
    }
  }
}
