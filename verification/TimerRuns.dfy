/**
 A kernel timer and everything that happens to it: starts, stops, reads of its status, threads
 that wait for it, and announcements whose expiries run its handler.
 */
module TimerRuns {
  import opened Timeouts
  import opened TimeoutLedger
  import opened Timers
  import WaitQueues

  /** A read of the status: its result, and the firings it stands for. */
  datatype Read = Read(value: nat, from: nat, to: nat)

  /**
   `struct k_timer` with the kernel's timeouts around it. `reset` and `started` are how many
   firings there had been when the status was last reset and when the timer was last started,
   and `counted` is what reads have returned since that start.
   */
  datatype Timer = Timer(k: Kernel, id: nat, period: int, status: nat, waiters: seq<WaitQueues.Waiter<()>>,
                         awake: set<nat>, reset: nat, started: nat, counted: nat, results: seq<Read>)

  datatype TimerAction =
    | Other(action: Action)
    | Start(duration: int, period: int, hardware: nat)
    | Stop
    | StatusGet
    | StatusSync(thread: nat, prio: int)
    | SyncReturns(thread: nat)

  /** What the user's functions do in one pass of the announcement loop, with the driver's count. */
  datatype Turn = Turn(hardware: nat, actions: seq<TimerAction>)

  type Turns = (nat, nat) -> Turn

  // ----- Calls ----------------------------------------------------------------------------

  /** The status is returned and reset. */
  function StatusRead(t: Timer): Timer {
    t.(status := 0, reset := |t.k.firings|, counted := t.counted + t.status,
       results := t.results + [Read(t.status, t.reset, |t.k.firings|)])
  }

  function FirstWoken(t: Timer): Timer {
    if t.waiters == [] then t else t.(waiters := t.waiters[1..], awake := t.awake + {t.waiters[0].id})
  }

  /** A timer's calls; a thread that waited returns from its call in a step of its own. */
  ghost function Done(t: Timer, a: TimerAction): (r: Timer)
    requires Inv(t.k)
    ensures Inv(r.k) && r.id == t.id
    ensures r.k.clock.now == t.k.clock.now && r.k.clock.remaining == t.k.clock.remaining
    ensures r.k.firings == t.k.firings && DueNow(r.k.clock.list) <= DueNow(t.k.clock.list)
  {
    hide Inv, DueNow;
    match a
    case Other(action) => t.(k := Act(t.k, action))
    case Start(duration, period, hardware) =>
      if duration == FOREVER then t
      else
        var stopped := Act(t.k, AbortTimeout(t.id));
        var k := Act(stopped, AddTimeout(t.id, StartDuration(duration), hardware));
        t.(k := k, period := StartPeriod(period), status := 0, reset := |t.k.firings|,
           started := |t.k.firings|, counted := 0)
    case Stop =>
      if !Linked(t.k.clock.list, t.id) then t else FirstWoken(t.(k := Act(t.k, AbortTimeout(t.id))))
    case StatusGet => StatusRead(t)
    case StatusSync(thread, prio) =>
      if t.status == 0 && Linked(t.k.clock.list, t.id) then
        t.(waiters := WaitQueues.Insert(t.waiters, WaitQueues.Waiter(thread, prio, ())))
      else StatusRead(t)
    case SyncReturns(thread) =>
      if thread in t.awake then StatusRead(t.(awake := t.awake - {thread})) else t
  }

  ghost function AllDone(t: Timer, actions: seq<TimerAction>): (r: Timer)
    requires Inv(t.k)
    ensures Inv(r.k) && r.id == t.id
    ensures r.k.clock.now == t.k.clock.now && r.k.clock.remaining == t.k.clock.remaining
    ensures r.k.firings == t.k.firings && DueNow(r.k.clock.list) <= DueNow(t.k.clock.list)
    decreases actions
  {
    hide Inv, DueNow, Done;
    if actions == [] then t
    else AllDone(Done(t, actions[0]), actions[1..])
  }

  // ----- Announcements --------------------------------------------------------------------

  /** z_timer_expiration_handler before it calls the user's function */
  ghost function Counting(t: Timer, hardware: nat): Timer
    requires Inv(t.k)
  {
    t.(k := if Restarts(t.period) then Act(t.k, AddTimeout(t.id, t.period, hardware)) else t.k, status := t.status + 1)
  }

  /** The clock moves on to the first deadline; if it is the timer's own, its handler is called. */
  ghost function Called(t: Timer, hardware: nat): (r: Timer)
    requires Inv(t.k) && CanFire(t.k.clock)
    ensures Inv(r.k) && r.id == t.id && r.k.firings == Expired(t.k).firings
    ensures r.k.clock.now == Expired(t.k).clock.now && r.k.clock.remaining == Expired(t.k).clock.remaining
    ensures DueNow(r.k.clock.list) <= DueNow(Expired(t.k).clock.list)
  {
    ExpiredKeepsInv(t.k);
    hide PendingInOrder, FiredInOrder, SplitByNow, Encodes, DueNow;
    if FirstId(t.k) == t.id then Counting(t.(k := Expired(t.k)), hardware) else t.(k := Expired(t.k))
  }

  /** One expiry with all that its callback does; the timer's own wakes a waiting thread at the end. */
  ghost function Passed(t: Timer, turn: Turn): (r: Timer)
    requires Inv(t.k) && CanFire(t.k.clock)
    ensures Inv(r.k) && r.id == t.id && r.k.firings == Expired(t.k).firings
    ensures r.k.clock.now == Expired(t.k).clock.now && r.k.clock.remaining == Expired(t.k).clock.remaining
    ensures DueNow(r.k.clock.list) <= DueNow(Expired(t.k).clock.list)
  {
    hide Inv, DueNow, AllDone, Called, Expired;
    var r := AllDone(Called(t, turn.hardware), turn.actions);
    if FirstId(t.k) == t.id then FirstWoken(r) else r
  }

  /** The announcement loop, with the timer's handler among the callbacks */
  ghost function Drained(t: Timer, turns: Turns, n: nat): (r: Timer)
    requires Inv(t.k)
    ensures Inv(r.k) && r.id == t.id && !CanFire(r.k.clock)
    ensures r.k.clock.now + r.k.clock.remaining == t.k.clock.now + t.k.clock.remaining
    decreases t.k.clock.remaining, DueNow(t.k.clock.list)
  {
    if CanFire(t.k.clock) then
      hide PendingInOrder, FiredInOrder, SplitByNow, Encodes, DueNow;
      FireDescends(t.k.clock);
      Drained(Passed(t, turns(n, FirstId(t.k))), turns, n + 1)
    else t
  }

  ghost function Announced(t: Timer, ticks: nat, turns: Turns): (r: Timer)
    requires Idle(t.k)
    ensures Idle(r.k) && r.id == t.id && r.k.clock.now == t.k.clock.now + ticks
  {
    hide Drained, PendingInOrder, FiredInOrder, SplitByNow, Encodes;
    var r := Drained(t.(k := t.k.(clock := t.k.clock.(remaining := ticks))), turns, 0);
    FinishedIsIdle(r.k);
    r.(k := r.k.(clock := Finish(r.k.clock)))
  }

  // ----- Every run ------------------------------------------------------------------------

  datatype TimerStep = Do(action: TimerAction) | Tick(ticks: nat, turns: Turns)

  ghost function Ran(t: Timer, steps: seq<TimerStep>): (r: Timer)
    requires Idle(t.k)
    ensures Idle(r.k) && r.id == t.id
    decreases steps
  {
    if steps == [] then t
    else
      match steps[0]
      case Do(a) => DoneIsIdle(t, a); Ran(Done(t, a), steps[1..])
      case Tick(ticks, turns) => Ran(Announced(t, ticks, turns), steps[1..])
  }

  lemma {:induction false} DoneIsIdle(t: Timer, a: TimerAction)
    requires Idle(t.k)
    ensures Idle(Done(t, a).k)
  {
    hide Inv, Act;
    match a
    case Other(action) => IdleAct(t.k, action);
    case Start(duration, _, hardware) =>
      if duration != FOREVER {
        IdleAct(t.k, AbortTimeout(t.id));
        IdleAct(Act(t.k, AbortTimeout(t.id)), AddTimeout(t.id, StartDuration(duration), hardware));
      }
    case Stop => IdleAct(t.k, AbortTimeout(t.id));
    case StatusGet =>
    case StatusSync(_, _) =>
    case SyncReturns(_) =>
  }

  /** How often the timer has expired since there were `from` firings. */
  function Expiries(t: Timer, from: nat): nat {
    |ExpiryTicks(t.k.firings, from, t.id)|
  }

  predicate ReadIsRight(t: Timer, r: Read) {
    r.from <= r.to <= |t.k.firings| && r.value == |ExpiryTicks(t.k.firings[..r.to], r.from, t.id)|
  }

  /**
   The status is the number of expiries since it was last reset, every read returned the number
   of expiries up to then, and since the timer was started none is lost and none is read twice.
   */
  predicate Counted(t: Timer) {
    && t.started <= t.reset <= |t.k.firings|
    && t.status == Expiries(t, t.reset)
    && t.counted + t.status == Expiries(t, t.started)
    && (forall i | 0 <= i < |t.results| :: ReadIsRight(t, t.results[i]) && t.results[i].to <= t.reset)
    && (forall i, j | 0 <= i < j < |t.results| :: t.results[i].to <= t.results[j].from)
  }

  /** No expiry is counted from a point that is not past yet. */
  lemma {:induction false} NoneYet(firings: seq<Firing>, id: nat)
    ensures ExpiryTicks(firings, |firings|, id) == []
  {
  }

  lemma {:induction false} DoneKeepsCount(t: Timer, a: TimerAction)
    requires Inv(t.k) && Counted(t)
    ensures Counted(Done(t, a))
  {
    hide Inv, Act, ExpiryTicks, WaitQueues.Insert;
    NoneYet(t.k.firings, t.id);
    assert t.k.firings[..|t.k.firings|] == t.k.firings;
  }

  lemma {:induction false} AllDoneKeepsCount(t: Timer, actions: seq<TimerAction>)
    requires Inv(t.k) && Counted(t)
    ensures Counted(AllDone(t, actions))
    decreases actions
  {
    hide Inv, Done, Counted;
    if actions != [] {
      DoneKeepsCount(t, actions[0]);
      AllDoneKeepsCount(Done(t, actions[0]), actions[1..]);
    }
  }

  /** A firing is one more expiry of the timer it belongs to, and of no other. */
  lemma {:induction false} OneMore(firings: seq<Firing>, f: Firing, from: nat, id: nat)
    requires from <= |firings|
    ensures |ExpiryTicks(firings + [f], from, id)| == |ExpiryTicks(firings, from, id)| + if f.id == id then 1 else 0
  {
    assert (firings + [f])[..|firings|] == firings;
  }

  lemma {:induction false} FiringAppended(k: Kernel) returns (f: Firing)
    requires Inv(k) && CanFire(k.clock)
    ensures Inv(Expired(k)) && Expired(k).firings == k.firings + [f] && f.id == FirstId(k)
  {
    ExpiredKeepsInv(k);
    assert EncodesAt(k.clock.now, k.clock.list, k.log, k.order, 0);
    f := Expired(k).firings[|k.firings|];
  }

  /** With one more firing, counting it exactly when it is the timer's own keeps the count. */
  lemma {:induction false} FiringCounted(t: Timer, r: Timer, f: Firing)
    requires Counted(t) && r.k.firings == t.k.firings + [f]
    requires r == t.(k := r.k, status := t.status + if f.id == t.id then 1 else 0)
    ensures Counted(r)
  {
    hide ExpiryTicks;
    OneMore(t.k.firings, f, t.reset, t.id);
    OneMore(t.k.firings, f, t.started, t.id);
    forall i | 0 <= i < |t.results| ensures r.k.firings[..t.results[i].to] == t.k.firings[..t.results[i].to] {
      assert ReadIsRight(t, t.results[i]);
    }
    forall i | 0 <= i < |t.results| ensures ReadIsRight(r, r.results[i]) {
      assert ReadIsRight(t, t.results[i]);
    }
  }

  /** One pass of the announcement loop counts the timer's expiry exactly when it is its own. */
  lemma {:induction false} PassKeepsCount(t: Timer, turn: Turn)
    requires Inv(t.k) && CanFire(t.k.clock) && Counted(t)
    ensures Counted(Passed(t, turn))
  {
    hide Inv, Act, AllDone, Counted, Expired;
    var f := FiringAppended(t.k);
    var called := Called(t, turn.hardware);
    FiringCounted(t, called, f);
    AllDoneKeepsCount(called, turn.actions);
    SameCount(AllDone(called, turn.actions), FirstWoken(AllDone(called, turn.actions)));
  }

  lemma {:induction false} DrainKeepsCount(t: Timer, turns: Turns, n: nat)
    requires Inv(t.k) && Counted(t)
    ensures Counted(Drained(t, turns, n))
    decreases t.k.clock.remaining, DueNow(t.k.clock.list)
  {
    if CanFire(t.k.clock) {
      hide PendingInOrder, FiredInOrder, SplitByNow, Encodes, DueNow, Counted;
      FireDescends(t.k.clock);
      PassKeepsCount(t, turns(n, FirstId(t.k)));
      DrainKeepsCount(Passed(t, turns(n, FirstId(t.k))), turns, n + 1);
    }
  }

  function Created(k: Kernel, id: nat): Timer {
    Timer(k, id, NO_WAIT, 0, [], {}, |k.firings|, |k.firings|, 0, [])
  }

  /** Over every run of calls and announcements the status counts expiries since the last read. */
  lemma {:induction false} StatusCountsExpiries(k: Kernel, id: nat, steps: seq<TimerStep>)
    requires Idle(k)
    ensures Counted(Ran(Created(k, id), steps))
  {
    NoneYet(k.firings, id);
    RunKeepsCount(Created(k, id), steps);
  }

  lemma {:induction false} RunKeepsCount(t: Timer, steps: seq<TimerStep>)
    requires Idle(t.k) && Counted(t)
    ensures Counted(Ran(t, steps))
    decreases steps
  {
    hide Inv, Done, Drained, Counted;
    if steps != [] {
      match steps[0]
      case Do(a) =>
        DoneIsIdle(t, a);
        DoneKeepsCount(t, a);
        RunKeepsCount(Done(t, a), steps[1..]);
      case Tick(ticks, turns) =>
        AnnounceKeepsCount(t, ticks, turns);
        RunKeepsCount(Announced(t, ticks, turns), steps[1..]);
    }
  }

  lemma {:induction false} AnnounceKeepsCount(t: Timer, ticks: nat, turns: Turns)
    requires Idle(t.k) && Counted(t)
    ensures Counted(Announced(t, ticks, turns))
  {
    hide PendingInOrder, FiredInOrder, SplitByNow, Encodes, Drained;
    var start := t.(k := t.k.(clock := t.k.clock.(remaining := ticks)));
    SameCount(t, start);
    DrainKeepsCount(start, turns, 0);
    SameCount(Drained(start, turns, 0), Announced(t, ticks, turns));
  }

  lemma {:induction false} SameCount(t: Timer, r: Timer)
    requires Counted(t) && r == t.(k := r.k, waiters := r.waiters, awake := r.awake) && r.k.firings == t.k.firings
    ensures Counted(r)
  {
  }
}
