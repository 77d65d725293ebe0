/** Kernel timers (kernel/timer.c): what start makes of its arguments, and periodic timers that do not drift. */
module Timers {
  import opened Timeouts
  import opened TimeoutLedger
  import opened TimeoutQueues

  /** K_NO_WAIT */
  const NO_WAIT := 0

  /** What k_timer_start makes of a period: the tick that z_add_timeout adds is taken off. */
  function StartPeriod(period: int): int {
    if period != 0 && TickAbs(period) < 0 then Max(period - 1, 1) else period
  }

  /** What k_timer_start makes of a duration. */
  function StartDuration(duration: int): int {
    if TickAbs(duration) < 0 then Max(duration - 1, 0) else duration
  }

  /** The expiry handler restarts the timer. */
  predicate Restarts(period: int) {
    period != NO_WAIT && period != FOREVER
  }

  // ----- What start makes of its arguments ------------------------------------------------

  /** The first expiry comes after the duration, but never in the tick in progress. */
  lemma {:induction false} FirstExpiry(k: Kernel, id: nat, duration: nat, hardware: nat)
    requires Inv(k) && !Linked(k.clock.list, id)
    ensures var present := k.clock.now + if k.clock.remaining == 0 then hardware else 0;
            Act(k, AddTimeout(id, StartDuration(duration), hardware)).log ==
            k.log + [Instance(id, present + (if duration == 0 then 1 else duration), Pending)]
  {
    hide Inv, Act, Linked;
    RelativeDeadline(k, id, StartDuration(duration), hardware);
  }

  /**
   A restart from the handler, at the tick of the expiry, is due one period later exactly when
   the period is not a single tick and the driver has counted nothing past the announced ticks.
   */
  lemma {:induction false} RestartInterval(k: Kernel, id: nat, period: nat, hardware: nat)
    requires Inv(k) && !Linked(k.clock.list, id) && period > 0
    ensures var present := k.clock.now + if k.clock.remaining == 0 then hardware else 0;
            var log := Act(k, AddTimeout(id, StartPeriod(period), hardware)).log;
            && log == k.log + [Instance(id, present + (if period == 1 then 2 else period), Pending)]
            && (log[|k.log|].due == k.clock.now + period <==> period >= 2 && present == k.clock.now)
  {
    hide Inv, Act, Linked;
    RelativeDeadline(k, id, StartPeriod(period), hardware);
  }

  /** A timer is one-shot only for period zero: a period of K_FOREVER turns into a short one. */
  lemma {:induction false} OneShot(period: int)
    requires period >= FOREVER
    ensures Restarts(StartPeriod(period)) <==> period != 0
    ensures StartPeriod(FOREVER) == 1
  {
  }

  // ----- No drift -------------------------------------------------------------------------

  /** The ticks at which a timeout fired, among the firings from `from` on. */
  function ExpiryTicks(firings: seq<Firing>, from: nat, id: nat): seq<int> {
    if |firings| <= from then []
    else
      var last := firings[|firings| - 1];
      ExpiryTicks(firings[..|firings| - 1], from, id) + if last.id == id then [last.at] else []
  }

  /** A running periodic timer: when it was first due and how long its period is. */
  datatype Beat = Beat(id: nat, from: nat, first: int, period: nat)

  /** The timer has kept its beat so far and is pending for the next one. */
  ghost predicate OnBeat(k: Kernel, b: Beat) {
    && Kept(k, b)
    && exists s | 0 <= s < |k.log| :: PendingAt(k, s, b)
  }

  predicate Kept(k: Kernel, b: Beat) {
    b.from <= |k.firings| && Beats(ExpiryTicks(k.firings, b.from, b.id), b)
  }

  predicate Beats(ticks: seq<int>, b: Beat) {
    forall j | 0 <= j < |ticks| :: ticks[j] == NthTick(b, j)
  }

  function NthTick(b: Beat, n: nat): int {
    b.first + n * b.period
  }

  predicate PendingAt(k: Kernel, s: nat, b: Beat)
    requires s < |k.log|
  {
    k.log[s] == Instance(b.id, NthTick(b, |ExpiryTicks(k.firings, b.from, b.id)|), Pending)
  }

  lemma {:induction false} ActKeepsBeat(k: Kernel, a: Action, b: Beat)
    requires Inv(k) && OnBeat(k, b) && a.id != b.id
    ensures OnBeat(Act(k, a), b)
  {
    var s :| 0 <= s < |k.log| && PendingAt(k, s, b);
    ActSpares(k, a, s);
    ActKeepsUnfired(k, a, s);
    assert PendingAt(Act(k, a), s, b);
  }

  lemma {:induction false} ActKeepsUnfired(k: Kernel, a: Action, s: nat)
    requires Inv(k) && s < |k.log| && k.log[s].fate == Pending
    ensures !Act(k, a).log[s].fate.Fired?
  {
  }

  /** Someone else's expiry does not disturb the beat. */
  lemma {:induction false} OtherExpiryKeepsBeat(k: Kernel, b: Beat)
    requires Inv(k) && CanFire(k.clock) && FirstId(k) != b.id && OnBeat(k, b)
    ensures OnBeat(Expired(k), b)
  {
    var s :| 0 <= s < |k.log| && PendingAt(k, s, b);
    var r := Expired(k);
    assert EncodesAt(k.clock.now, k.clock.list, k.log, k.order, 0);
    assert r.firings[..|r.firings| - 1] == k.firings;
    assert PendingAt(r, s, b);
  }

  /** The timer's own expiry is on the beat, and leaves it unlinked. */
  lemma {:induction false} OwnExpiryIsOnBeat(k: Kernel, b: Beat)
    requires Inv(k) && CanFire(k.clock) && FirstId(k) == b.id && OnBeat(k, b)
    ensures var r := Expired(k);
            var m := |ExpiryTicks(k.firings, b.from, b.id)|;
            && Kept(r, b) && !Linked(r.clock.list, b.id)
            && |ExpiryTicks(r.firings, b.from, b.id)| == m + 1
            && r.clock.now == NthTick(b, m)
  {
    var s :| 0 <= s < |k.log| && PendingAt(k, s, b);
    var r := Expired(k);
    ExpiredKeepsInv(k);
    assert EncodesAt(k.clock.now, k.clock.list, k.log, k.order, 0);
    OnePending(k, k.order[0], s);
    assert r.firings[..|r.firings| - 1] == k.firings;
    ExpiryUnlinks(k);
  }

  lemma {:induction false} ExpiryUnlinks(k: Kernel)
    requires Inv(k) && CanFire(k.clock)
    ensures !Linked(Expired(k).clock.list, FirstId(k))
  {
    var list := Expired(k).clock.list;
    assert EncodesAt(k.clock.now, k.clock.list, k.log, k.order, 0);
    forall i | 0 <= i < |list| ensures list[i].id != FirstId(k) {
      assert EncodesAt(k.clock.now, k.clock.list, k.log, k.order, i + 1);
    }
  }

  /** Restarted by its handler, the timer is pending one beat on. */
  lemma {:induction false} RestartIsOnBeat(k: Kernel, b: Beat, m: nat)
    requires Inv(k) && b.period >= 2 && Kept(k, b) && !Linked(k.clock.list, b.id)
    requires |ExpiryTicks(k.firings, b.from, b.id)| == m + 1 && k.clock.now == NthTick(b, m)
    ensures OnBeat(Act(k, AddTimeout(b.id, b.period - 1, 0)), b)
  {
    hide Inv, Kept, ExpiryTicks;
    RelativeDeadline(k, b.id, b.period - 1, 0);
    assert (m + 1) * b.period == m * b.period + b.period;
    var r := Act(k, AddTimeout(b.id, b.period - 1, 0));
    assert r.firings == k.firings;
    assert PendingAt(r, |k.log|, b);
    assert Kept(r, b) by { KeptByFirings(k, r, b); }
  }

  lemma {:induction false} KeptByFirings(k: Kernel, r: Kernel, b: Beat)
    requires Kept(k, b) && r.firings == k.firings
    ensures Kept(r, b)
  {
  }

  lemma {:induction false} SameBeat(k: Kernel, r: Kernel, b: Beat)
    requires OnBeat(k, b) && r.log == k.log && r.firings == k.firings
    ensures OnBeat(r, b)
  {
    var s :| 0 <= s < |k.log| && PendingAt(k, s, b);
    assert PendingAt(r, s, b);
  }

  ghost predicate OnTime(k: Kernel, b: Beat) {
    var ticks := ExpiryTicks(k.firings, b.from, b.id);
    Beats(ticks, b) && k.clock.now < NthTick(b, |ticks|)
  }

  lemma {:induction false} BeatIsOnTime(k: Kernel, b: Beat)
    requires Idle(k) && OnBeat(k, b)
    ensures OnTime(k, b)
  {
  }
}
