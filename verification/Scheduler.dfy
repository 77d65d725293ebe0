/**
 The uniprocessor scheduler (kernel/sched.c): thread states, the ready queue and the cached
 choice of the next thread, which context switches use without looking at the queue again.
 */
module Scheduler {
  import opened RunQueues

  /** The scheduling part of `struct k_thread`; `locked` counts k_sched_lock calls in force. */
  datatype TState = TState(prio: int, pending: bool, suspended: bool, prestart: bool, dead: bool,
                           queued: bool, timeout: bool, locked: nat)

  datatype Sched = Sched(threads: map<nat, TState>, runq: seq<Thread>, cache: nat, current: nat, idle: nat)

  /** z_is_thread_prevented_from_running */
  predicate Prevented(t: TState) {
    t.pending || t.prestart || t.dead || t.suspended
  }

  /** z_is_thread_ready */
  predicate Ready(t: TState) {
    !Prevented(t) && !t.timeout
  }

  /** is_preempt: neither cooperative nor holding the scheduler locked */
  predicate Preemptible(t: TState) {
    t.prio >= 0 && t.locked == 0
  }

  predicate Known(s: Sched) {
    s.current in s.threads && s.idle in s.threads && s.cache in s.threads
  }

  /** next_up: the head of the queue, or the idle thread */
  function NextUp(s: Sched): nat {
    if s.runq == [] then s.idle else s.runq[0].id
  }

  /** should_preempt */
  predicate ShouldPreempt(s: Sched, preemptOk: bool)
    requires s.current in s.threads
  {
    preemptOk || Prevented(s.threads[s.current]) || Preemptible(s.threads[s.current])
  }

  /** update_cache */
  function UpdateCache(s: Sched, preemptOk: bool): Sched
    requires s.current in s.threads
  {
    s.(cache := if ShouldPreempt(s, preemptOk) then NextUp(s) else s.current)
  }

  function Chosen(s: Sched): Sched {
    s.(cache := NextUp(s))
  }

  function SetState(s: Sched, id: nat, t: TState): Sched {
    s.(threads := s.threads[id := t])
  }

  function Enqueue(s: Sched, id: nat): Sched
    requires id in s.threads
  {
    var t := s.threads[id];
    SetState(s, id, t.(queued := true)).(runq := DumbAdd(s.runq, Thread(id, t.prio)))
  }

  function Dequeue(s: Sched, id: nat): Sched
    requires id in s.threads
  {
    SetState(s, id, s.threads[id].(queued := false)).(runq := DumbRemove(s.runq, id))
  }

  /** ready_thread */
  function ReadyThread(s: Sched, id: nat): Sched
    requires id in s.threads && s.current in s.threads
  {
    if !s.threads[id].queued && Ready(s.threads[id]) then UpdateCache(Enqueue(s, id), false) else s
  }

  /** unready_thread */
  function UnreadyThread(s: Sched, id: nat): Sched
    requires id in s.threads && s.current in s.threads
  {
    UpdateCache(if s.threads[id].queued then Dequeue(s, id) else s, id == s.current)
  }

  /** A waiter taken off its queue, and its timeout aborted, is readied. */
  function Woken(s: Sched, id: nat): Sched
    requires id in s.threads && s.current in s.threads
  {
    ReadyThread(SetState(s, id, s.threads[id].(pending := false, timeout := false)), id)
  }

  function WakeAll(s: Sched, ids: seq<nat>): Sched
    requires s.current in s.threads && forall i | 0 <= i < |ids| :: ids[i] in s.threads
    decreases |ids|
  {
    if ids == [] then s else WakeAll(Woken(s, ids[0]), ids[1..])
  }

  /** z_thread_single_abort up to the waking of those who wait to join */
  function Buried(s: Sched, id: nat): Sched
    requires id in s.threads && s.current in s.threads
  {
    var t := s.threads[id];
    var s1 := SetState(s, id, t.(timeout := false, dead := true));
    if Prevented(t) then SetState(s1, id, s1.threads[id].(pending := false)) else UnreadyThread(s1, id)
  }

  // ----- The scheduler's entry points -----------------------------------------------------

  /** A thread that pends or sleeps is switched away from in the same step. */
  datatype Op =
    | Create(id: nat, prio: int, delayed: bool)
    | Pend(id: nat, timed: bool)
    | Unpend(id: nat)
    | Expire(id: nat)
    | Suspend(id: nat)
    | Resume(id: nat)
    | Start(id: nat)
    | Sleep
    | SetPrio(id: nat, prio: int)
    | Yield
    | Lock
    | Unlock
    | Wakeup(id: nat)
    | Abort(id: nat, joiners: seq<nat>)
    | Switch

  /** What callers owe: real threads, a running thread for calls by the running thread, and so on. */
  predicate Allowed(s: Sched, op: Op) {
    Known(s) &&
    match op
    case Create(id, _, _) => id !in s.threads
    case Pend(id, _) => id in s.threads && id != s.idle && !Prevented(s.threads[id])
    case Unpend(id) => id in s.threads && id != s.idle
    case Expire(id) => id in s.threads && id != s.idle && s.threads[id].timeout
    case Suspend(id) => id in s.threads && id != s.idle
    case Resume(id) => id in s.threads && id != s.idle
    case Start(id) => id in s.threads && id != s.idle
    case Sleep => s.current != s.idle && Ready(s.threads[s.current])
    case SetPrio(id, _) => id in s.threads && id != s.idle
    case Yield => Ready(s.threads[s.current])
    case Lock => s.threads[s.current].locked < 255
    case Unlock => s.threads[s.current].locked > 0
    case Wakeup(id) => id in s.threads && id != s.idle
    case Abort(id, joiners) =>
      && id in s.threads && id != s.idle
      && forall i | 0 <= i < |joiners| :: joiners[i] in s.threads && joiners[i] != s.idle && joiners[i] != id
    case Switch => true
  }

  function Step(s: Sched, op: Op): Sched
    requires Allowed(s, op)
  {
    match op
    case Create(id, prio, delayed) =>
      SetState(s, id, TState(prio, false, false, true, false, false, delayed, 0))
    case Pend(id, timed) =>
      var s1 := UnreadyThread(s, id);
      var s2 := SetState(s1, id, s1.threads[id].(pending := true, timeout := timed));
      if id == s.current then s2.(current := s2.cache) else s2
    case Unpend(id) =>
      Woken(s, id)
    case Expire(id) =>
      ReadyThread(SetState(s, id, s.threads[id].(pending := false, prestart := false, suspended := false,
                                                 timeout := false)), id)
    case Suspend(id) =>
      var s1 := SetState(s, id, s.threads[id].(timeout := false));
      var s2 := if s1.threads[id].queued then Dequeue(s1, id) else s1;
      UpdateCache(SetState(s2, id, s2.threads[id].(suspended := true)), id == s.current)
    case Resume(id) =>
      if s.threads[id].suspended then ReadyThread(SetState(s, id, s.threads[id].(suspended := false)), id) else s
    case Start(id) =>
      if s.threads[id].prestart then ReadyThread(SetState(s, id, s.threads[id].(prestart := false)), id) else s
    case Sleep =>
      var s1 := UnreadyThread(s, s.current);
      SetState(s1, s1.current, s1.threads[s1.current].(timeout := true, suspended := true)).(current := s1.cache)
    case SetPrio(id, prio) =>
      if Ready(s.threads[id]) then
        var s1 := s.(runq := DumbRemove(s.runq, id));
        var s2 := SetState(s1, id, s1.threads[id].(prio := prio));
        UpdateCache(s2.(runq := DumbAdd(s2.runq, Thread(id, prio))), true)
      else
        SetState(s, id, s.threads[id].(prio := prio))
    case Yield =>
      if s.current == s.idle then s
      else UpdateCache(Enqueue(s.(runq := DumbRemove(s.runq, s.current)), s.current), true)
    case Lock =>
      SetState(s, s.current, s.threads[s.current].(locked := s.threads[s.current].locked + 1))
    case Unlock =>
      UpdateCache(SetState(s, s.current, s.threads[s.current].(locked := s.threads[s.current].locked - 1)), false)
    case Wakeup(id) =>
      var t := s.threads[id];
      if t.pending || (!t.timeout && (!t.suspended || t.prestart || t.dead || t.queued)) then s
      else ReadyThread(SetState(s, id, t.(timeout := false, suspended := false)), id)
    case Abort(id, joiners) =>
      if s.threads[id].dead then s else
      var s1 := WakeAll(Buried(s, id), joiners);
      if s1.current == s1.idle then Chosen(s1) else s1
    case Switch =>
      s.(current := s.cache)
  }

  // ----- The invariant --------------------------------------------------------------------

  /** The QUEUED flag is membership in the queue, and entries carry their thread's priority. */
  ghost predicate QueueOk(threads: map<nat, TState>, runq: seq<Thread>) {
    && DistinctIds(runq) && SortedByPrio(runq)
    && (forall i | 0 <= i < |runq| ::
          runq[i].id in threads && threads[runq[i].id].queued && threads[runq[i].id].prio == runq[i].prio)
    && (forall id | id in threads && threads[id].queued :: HasId(runq, id))
  }

  /** Exactly the ready threads are queued; the idle thread is always ready and never queued. */
  ghost predicate ReadyIsQueued(threads: map<nat, TState>, idle: nat) {
    forall id | id in threads ::
      if id == idle then Ready(threads[id]) && !threads[id].queued
      else threads[id].queued <==> Ready(threads[id])
  }

  /** The cached choice is right whenever the running thread could be switched away from. */
  predicate CacheOk(s: Sched)
    requires s.current in s.threads
  {
    s.cache == NextUp(s) || (s.cache == s.current && !ShouldPreempt(s, false))
  }

  ghost predicate Inv(s: Sched) {
    && Known(s)
    && QueueOk(s.threads, s.runq)
    && ReadyIsQueued(s.threads, s.idle)
    && CacheOk(s)
    && !s.threads[s.current].timeout
  }

  // ----- Queue upkeep ---------------------------------------------------------------------

  lemma {:induction false} EnqueueOk(threads: map<nat, TState>, runq: seq<Thread>, id: nat, t: TState)
    requires QueueOk(threads, runq) && id in threads && !threads[id].queued && t.queued
    ensures QueueOk(threads[id := t], DumbAdd(runq, Thread(id, t.prio)))
  {
    var th := Thread(id, t.prio);
    DumbAddDistinct(runq, th);
    AddSorted(runq, th);
    DumbAddMembers(runq, th);
    forall i | 0 <= i < |DumbAdd(runq, th)| ensures DumbAdd(runq, th)[i].id in threads {
    }
    forall x | x in threads[id := t] && threads[id := t][x].queued ensures HasId(DumbAdd(runq, th), x) {
      AddHas(runq, th, x);
    }
  }

  lemma {:induction false} DequeueOk(threads: map<nat, TState>, runq: seq<Thread>, id: nat, t: TState)
    requires QueueOk(threads, runq) && id in threads && !t.queued
    ensures QueueOk(threads[id := t], DumbRemove(runq, id))
  {
    DumbRemoveDistinct(runq, id);
    RemoveSorted(runq, id);
    DumbRemoveMembers(runq, id);
    forall x | x in threads[id := t] && threads[id := t][x].queued ensures HasId(DumbRemove(runq, id), x) {
      RemoveHas(runq, id, x);
    }
  }

  /** State bits other than QUEUED and the priority do not concern the queue. */
  lemma {:induction false} RelabelOk(threads: map<nat, TState>, runq: seq<Thread>, id: nat, t: TState)
    requires QueueOk(threads, runq) && id in threads
    requires t.queued == threads[id].queued && (t.queued ==> t.prio == threads[id].prio)
    ensures QueueOk(threads[id := t], runq)
  {
  }

  // ----- Every step keeps the invariant ---------------------------------------------------

  /** The invariant, except that the given thread may have become ready without being queued. */
  ghost predicate AlmostInv(s: Sched, id: nat) {
    && Known(s) && id in s.threads && id != s.idle
    && QueueOk(s.threads, s.runq)
    && (forall x | x in s.threads ::
          if x == s.idle then Ready(s.threads[x]) && !s.threads[x].queued
          else if x == id then s.threads[x].queued ==> Ready(s.threads[x])
          else s.threads[x].queued <==> Ready(s.threads[x]))
    && CacheOk(s)
    && !s.threads[s.current].timeout
  }

  lemma {:induction false} NextUpKnown(s: Sched)
    requires Known(s) && QueueOk(s.threads, s.runq)
    ensures NextUp(s) in s.threads
  {
  }

  lemma {:induction false} ReadyThreadRepairs(s: Sched, id: nat)
    requires AlmostInv(s, id)
    ensures Inv(ReadyThread(s, id))
  {
    if !s.threads[id].queued && Ready(s.threads[id]) {
      var t := s.threads[id].(queued := true);
      EnqueueOk(s.threads, s.runq, id, t);
      NextUpKnown(Enqueue(s, id));
    }
  }

  /** Nothing holds the second that did not hold the first. */
  predicate Eases(a: TState, b: TState) {
    && b.prio == a.prio && b.queued == a.queued && b.locked == a.locked
    && (b.pending ==> a.pending) && (b.suspended ==> a.suspended) && (b.prestart ==> a.prestart)
    && (b.dead ==> a.dead) && (b.timeout ==> a.timeout)
  }

  /** Clearing state bits can only make a thread ready. */
  lemma {:induction false} ClearedBits(s: Sched, id: nat, t: TState)
    requires Inv(s) && id in s.threads && id != s.idle
    requires Eases(s.threads[id], t)
    ensures AlmostInv(SetState(s, id, t), id)
  {
  }

  /** The state after a thread is taken off the queue and marked as not ready. */
  function Marked(s: Sched, id: nat, t: TState): Sched {
    SetState(s, id, t).(runq := DumbRemove(s.runq, id))
  }

  lemma {:induction false} MarkedUnready(s: Sched, id: nat, t: TState)
    requires Inv(s) && id in s.threads && id != s.idle && !t.queued && !Ready(t)
    requires id == s.current ==> Prevented(t)
    ensures Inv(Chosen(Marked(s, id, t)).(current := NextUp(Marked(s, id, t))))
    ensures (id == s.current ==> !t.timeout) ==> Inv(Chosen(Marked(s, id, t)))
    ensures id != s.current ==> Inv(UpdateCache(Marked(s, id, t), false))
  {
    DequeueOk(s.threads, s.runq, id, t);
    NextUpKnown(Marked(s, id, t).(cache := s.current));
  }

  /** A thread that is not queued need not be taken off the queue. */
  lemma {:induction false} UnqueuedIsMarked(s: Sched, id: nat)
    requires Inv(s) && id in s.threads
    ensures !s.threads[id].queued ==> DumbRemove(s.runq, id) == s.runq
  {
    if !s.threads[id].queued {
      RemoveAbsent(s.runq, id);
    }
  }

  /** Running the cached choice keeps the invariant. */
  lemma {:induction false} SwitchKeepsInv(s: Sched)
    requires Inv(s)
    ensures Inv(s.(current := s.cache))
  {
  }

  lemma {:induction false} CreateKeepsInv(s: Sched, id: nat, prio: int, delayed: bool)
    requires Inv(s) && Allowed(s, Create(id, prio, delayed))
    ensures Inv(Step(s, Create(id, prio, delayed)))
  {
  }

  lemma {:induction false} PendKeepsInv(s: Sched, id: nat, timed: bool)
    requires Inv(s) && Allowed(s, Pend(id, timed))
    ensures Inv(Step(s, Pend(id, timed)))
  {
    hide QueueOk, ReadyIsQueued;
    var t := s.threads[id].(queued := false, pending := true, timeout := timed);
    UnqueuedIsMarked(s, id);
    MarkedUnready(s, id, t);
    assert UnreadyThread(s, id).threads[id := t] == s.threads[id := t];
  }

  lemma {:induction false} SleepKeepsInv(s: Sched)
    requires Inv(s) && Allowed(s, Sleep)
    ensures Inv(Step(s, Sleep))
  {
    hide QueueOk, ReadyIsQueued;
    var id := s.current;
    var t := s.threads[id].(queued := false, timeout := true, suspended := true);
    UnqueuedIsMarked(s, id);
    MarkedUnready(s, id, t);
    assert UnreadyThread(s, id).threads[id := t] == s.threads[id := t];
  }

  lemma {:induction false} SuspendKeepsInv(s: Sched, id: nat)
    requires Inv(s) && Allowed(s, Suspend(id))
    ensures Inv(Step(s, Suspend(id)))
  {
    hide QueueOk, ReadyIsQueued;
    var t := s.threads[id].(queued := false, timeout := false, suspended := true);
    UnqueuedIsMarked(s, id);
    MarkedUnready(s, id, t);
    var s1 := SetState(s, id, s.threads[id].(timeout := false));
    var s2 := if s1.threads[id].queued then Dequeue(s1, id) else s1;
    assert s2.threads[id := t] == s.threads[id := t];
  }

  /** A thread that dies leaves the queue, and is not chosen again. */
  lemma {:induction false} BuriedKeepsInv(s: Sched, id: nat)
    requires Inv(s) && id in s.threads && id != s.idle
    ensures Inv(Buried(s, id))
  {
    hide QueueOk, ReadyIsQueued;
    var t := s.threads[id];
    if Prevented(t) {
      var dead := t.(timeout := false, dead := true, pending := false);
      assert Buried(s, id).threads == s.threads[id := dead];
      StaysUnready(s, id, dead);
    } else {
      var dead := t.(timeout := false, dead := true, queued := false);
      UnqueuedIsMarked(s, id);
      MarkedUnready(s, id, dead);
      assert Buried(s, id).threads == s.threads[id := dead];
    }
  }

  lemma {:induction false} StaysUnready(s: Sched, id: nat, t: TState)
    requires Inv(s) && id in s.threads && id != s.idle && Prevented(s.threads[id]) && t.dead && !t.timeout
    requires t.queued == s.threads[id].queued && t.prio == s.threads[id].prio
    ensures Inv(SetState(s, id, t))
  {
  }

  lemma {:induction false} WakeAllKeepsInv(s: Sched, ids: seq<nat>)
    requires Inv(s) && forall i | 0 <= i < |ids| :: ids[i] in s.threads && ids[i] != s.idle
    ensures Inv(WakeAll(s, ids))
    ensures WakeAll(s, ids).current == s.current && WakeAll(s, ids).idle == s.idle
    decreases |ids|
  {
    if ids != [] {
      var t := s.threads[ids[0]].(pending := false, timeout := false);
      WakeKeepsInv(s, ids[0], t);
      hide Inv, ReadyThread;
      ReadyThreadFrame(SetState(s, ids[0], t), ids[0]);
      WakeAllKeepsInv(Woken(s, ids[0]), ids[1..]);
    }
  }

  lemma {:induction false} ReadyThreadFrame(s: Sched, id: nat)
    requires id in s.threads && s.current in s.threads
    ensures var s' := ReadyThread(s, id);
            && s'.threads.Keys == s.threads.Keys && s'.current == s.current && s'.idle == s.idle
            && s'.threads == s.threads[id := s'.threads[id]]
            && s'.threads[id] == s.threads[id].(queued := s.threads[id].queued || Ready(s.threads[id]))
  {
  }

  lemma {:induction false} ChosenKeepsInv(s: Sched)
    requires Inv(s)
    ensures Inv(Chosen(s))
  {
    NextUpKnown(s);
  }

  lemma {:induction false} AbortKeepsInv(s: Sched, id: nat, joiners: seq<nat>)
    requires Inv(s) && Allowed(s, Abort(id, joiners))
    ensures Inv(Step(s, Abort(id, joiners)))
  {
    if !s.threads[id].dead {
      BuriedKeepsInv(s, id);
      assert Buried(s, id).threads.Keys == s.threads.Keys && Buried(s, id).idle == s.idle;
      hide Inv, WakeAll, Buried;
      WakeAllKeepsInv(Buried(s, id), joiners);
      ChosenKeepsInv(WakeAll(Buried(s, id), joiners));
    }
  }

  lemma {:induction false} SetPrioKeepsInv(s: Sched, id: nat, prio: int)
    requires Inv(s) && Allowed(s, SetPrio(id, prio))
    ensures Inv(Step(s, SetPrio(id, prio)))
  {
    hide QueueOk;
    var t := s.threads[id].(prio := prio);
    if Ready(s.threads[id]) {
      var out := t.(queued := false);
      DequeueOk(s.threads, s.runq, id, out);
      EnqueueOk(s.threads[id := out], DumbRemove(s.runq, id), id, t);
      assert s.threads[id := out][id := t] == s.threads[id := t];
      NextUpKnown(Step(s, SetPrio(id, prio)).(cache := s.idle));
    } else {
      RelabelOk(s.threads, s.runq, id, t);
    }
  }

  lemma {:induction false} YieldKeepsInv(s: Sched)
    requires Inv(s) && Allowed(s, Yield) && s.current != s.idle
    ensures Inv(Step(s, Yield))
  {
    hide QueueOk;
    var id := s.current;
    var out := s.threads[id].(queued := false);
    DequeueOk(s.threads, s.runq, id, out);
    EnqueueOk(s.threads[id := out], DumbRemove(s.runq, id), id, s.threads[id]);
    assert s.threads[id := out][id := s.threads[id]] == s.threads;
    assert s.threads[id := s.threads[id].(queued := true)] == s.threads;
    NextUpKnown(Step(s, Yield).(cache := s.idle));
  }

  lemma {:induction false} LockKeepsInv(s: Sched)
    requires Inv(s) && s.threads[s.current].locked < 255
    ensures Inv(Step(s, Lock))
  {
  }

  lemma {:induction false} UnlockKeepsInv(s: Sched)
    requires Inv(s) && s.threads[s.current].locked > 0
    ensures Inv(Step(s, Unlock))
  {
  }

  /** Every step keeps the flags, the queue and the cached choice in agreement. */
  lemma {:induction false} StepKeepsInv(s: Sched, op: Op)
    requires Inv(s) && Allowed(s, op)
    ensures Inv(Step(s, op))
  {
    hide QueueOk, ReadyIsQueued, CacheOk;
    match op
    case Create(id, prio, delayed) => CreateKeepsInv(s, id, prio, delayed);
    case Pend(id, timed) => PendKeepsInv(s, id, timed);
    case Unpend(id) => WakeKeepsInv(s, id, s.threads[id].(pending := false, timeout := false));
    case Expire(id) =>
      WakeKeepsInv(s, id, s.threads[id].(pending := false, prestart := false, suspended := false, timeout := false));
    case Suspend(id) => SuspendKeepsInv(s, id);
    case Resume(id) =>
      if s.threads[id].suspended { WakeKeepsInv(s, id, s.threads[id].(suspended := false)); }
    case Start(id) =>
      if s.threads[id].prestart { WakeKeepsInv(s, id, s.threads[id].(prestart := false)); }
    case Sleep => SleepKeepsInv(s);
    case SetPrio(id, prio) => SetPrioKeepsInv(s, id, prio);
    case Yield => if s.current != s.idle { YieldKeepsInv(s); }
    case Lock => LockKeepsInv(s);
    case Unlock => UnlockKeepsInv(s);
    case Wakeup(id) => WakeKeepsInv(s, id, s.threads[id].(timeout := false, suspended := false));
    case Abort(id, joiners) => AbortKeepsInv(s, id, joiners);
    case Switch => SwitchKeepsInv(s);
  }

  lemma {:induction false} WakeKeepsInv(s: Sched, id: nat, t: TState)
    requires Inv(s) && id in s.threads && id != s.idle
    requires Eases(s.threads[id], t)
    ensures Inv(ReadyThread(SetState(s, id, t), id))
  {
    ClearedBits(s, id, t);
    ReadyThreadRepairs(SetState(s, id, t), id);
  }

  // ----- Every run ------------------------------------------------------------------------

  /** `to` is reached from `from` by calls their callers are entitled to make. */
  ghost predicate Runs(from: Sched, ops: seq<Op>, to: Sched)
    decreases |ops|
  {
    if ops == [] then to == from
    else Allowed(from, ops[0]) && Runs(Step(from, ops[0]), ops[1..], to)
  }

  /** At boot only the main thread and the idle thread exist, and main is running. */
  function Boot(main: nat, idle: nat, prio: int, idlePrio: int): Sched {
    Sched(map[main := TState(prio, false, false, false, false, true, false, 0),
              idle := TState(idlePrio, false, false, false, false, false, false, 0)],
          [Thread(main, prio)], main, main, idle)
  }

  lemma {:induction false} BootInv(main: nat, idle: nat, prio: int, idlePrio: int)
    requires main != idle
    ensures Inv(Boot(main, idle, prio, idlePrio))
  {
    assert Boot(main, idle, prio, idlePrio).runq[0].id == main;
  }

  /** The flags, the queue and the cached choice agree after every run. */
  lemma {:induction false} EveryRun(from: Sched, ops: seq<Op>, to: Sched)
    requires Inv(from) && Runs(from, ops, to)
    ensures Inv(to)
    decreases |ops|
  {
    hide Inv, Step;
    if ops != [] {
      StepKeepsInv(from, ops[0]);
      EveryRun(Step(from, ops[0]), ops[1..], to);
    }
  }

  // ----- What the agreement means ---------------------------------------------------------

  ghost predicate BestReady(s: Sched, id: nat) {
    && id in s.threads && Ready(s.threads[id])
    && (forall x | x in s.threads && x != s.idle && Ready(s.threads[x]) ::
          id != s.idle && s.threads[id].prio <= s.threads[x].prio)
  }

  /**
   When the running thread may be switched away from, the cached choice is a ready thread of the
   highest ready priority, and is the idle thread only when nothing else is ready.
   */
  lemma {:induction false} BestReadyRunsNext(s: Sched)
    requires Inv(s) && ShouldPreempt(s, false)
    ensures BestReady(s, s.cache)
  {
  }

  /** A switch never leaves a preemptible thread running while a better one is ready. */
  lemma {:induction false} NoInversionAfterSwitch(s: Sched)
    requires Inv(s) && ShouldPreempt(s, false)
    ensures BestReady(Step(s, Switch), Step(s, Switch).current)
  {
  }

  /** A thread that cannot be preempted keeps running unless its own call made room. */
  lemma {:induction false} CooperativeKeepsRunning(s: Sched, id: nat)
    requires Inv(s) && id in s.threads && id != s.idle
    requires s.cache == s.current && !ShouldPreempt(s, false)
    ensures Step(s, Unpend(id)).cache == s.current
    ensures Step(s, Start(id)).cache == s.current
    ensures Step(s, Resume(id)).cache == s.current
    ensures Step(s, Wakeup(id)).cache == s.current
    ensures s.threads[id].timeout ==> Step(s, Expire(id)).cache == s.current
  {
  }

  /** Yielding gives way exactly when another ready thread has the same or a higher priority. */
  lemma {:induction false} YieldGivesWay(s: Sched)
    requires Inv(s) && Allowed(s, Yield) && s.current != s.idle
    ensures Step(s, Yield).cache != s.current <==>
            exists x :: x in s.threads && x != s.idle && x != s.current && Ready(s.threads[x])
                        && s.threads[x].prio <= s.threads[s.current].prio
  {
  }

  // ----- What one call undoes -------------------------------------------------------------

  lemma {:induction false} SuspendFrame(s: Sched, id: nat)
    requires Known(s) && id in s.threads && id != s.idle
    ensures var s' := Step(s, Suspend(id));
            && s'.idle == s.idle && s'.current == s.current
            && s'.threads == s.threads[id := s.threads[id].(timeout := false, queued := false, suspended := true)]
  {
  }

  lemma {:induction false} PendFrame(s: Sched, id: nat, timed: bool)
    requires Allowed(s, Pend(id, timed))
    ensures var s' := Step(s, Pend(id, timed));
            && s'.idle == s.idle
            && s'.threads == s.threads[id := s.threads[id].(queued := false, pending := true, timeout := timed)]
  {
  }

  lemma {:induction false} SleepFrame(s: Sched)
    requires Allowed(s, Sleep)
    ensures var s' := Step(s, Sleep);
            && s'.idle == s.idle
            && s'.threads == s.threads[s.current :=
                 s.threads[s.current].(queued := false, timeout := true, suspended := true)]
  {
  }

  /** What readying a thread with some bits cleared makes of it */
  lemma {:induction false} WakeFrame(s: Sched, op: Op, id: nat, t: TState)
    requires Allowed(s, op) && id in s.threads
    requires Step(s, op) == ReadyThread(SetState(s, id, t), id)
    ensures Step(s, op).threads == s.threads[id := t.(queued := t.queued || Ready(t))]
  {
    ReadyThreadFrame(SetState(s, id, t), id);
  }

  lemma {:induction false} UpdatedBack(threads: map<nat, TState>, id: nat, t: TState)
    requires id in threads
    ensures threads[id := t] == threads <==> t == threads[id]
  {
    assert threads[id := t][id] == t;
  }

  lemma {:induction false} SuspendKnown(s: Sched, id: nat)
    requires Inv(s) && id in s.threads && id != s.idle
    ensures Known(Step(s, Suspend(id)))
  {
    StepKeepsInv(s, Suspend(id));
    hide QueueOk, ReadyIsQueued, CacheOk, Step;
  }

  /** The state of a thread after it was suspended and resumed */
  function Revived(t: TState): TState {
    var t1 := t.(timeout := false, suspended := false);
    t1.(queued := Ready(t1))
  }

  lemma {:induction false} SuspendThenResume(s: Sched, id: nat)
    requires Known(s) && id in s.threads && id != s.idle && Known(Step(s, Suspend(id)))
    ensures id in Step(s, Suspend(id)).threads && id != Step(s, Suspend(id)).idle
    ensures Step(Step(s, Suspend(id)), Resume(id)).threads == s.threads[id := Revived(s.threads[id])]
  {
    SuspendFrame(s, id);
    var s1 := Step(s, Suspend(id));
    hide ReadyThread;
    WakeFrame(s1, Resume(id), id, s1.threads[id].(suspended := false));
  }

  /**
   A thread that is suspended and resumed is as it was before exactly when it was not suspended
   already and no timeout of its was pending: suspension aborts the timeout for good.
   */
  lemma {:induction false} ResumeUndoesSuspend(s: Sched, id: nat)
    requires Inv(s) && id in s.threads && id != s.idle
    ensures Known(Step(s, Suspend(id))) && id in Step(s, Suspend(id)).threads && id != Step(s, Suspend(id)).idle
    ensures Step(Step(s, Suspend(id)), Resume(id)).threads == s.threads
            <==> !s.threads[id].suspended && !s.threads[id].timeout
  {
    hide QueueOk, CacheOk, Step;
    SuspendKnown(s, id);
    SuspendThenResume(s, id);
    UpdatedBack(s.threads, id, Revived(s.threads[id]));
  }

  /** A ready thread that pends is as it was before when it is unpended or times out. */
  lemma {:induction false} UnpendUndoesPend(s: Sched, id: nat, timed: bool)
    requires Inv(s) && id in s.threads && id != s.idle && Ready(s.threads[id])
    ensures Known(Step(s, Pend(id, timed))) && id in Step(s, Pend(id, timed)).threads
    ensures Step(s, Pend(id, timed)).idle == s.idle && Step(s, Pend(id, timed)).threads[id].timeout == timed
    ensures Step(Step(s, Pend(id, timed)), Unpend(id)).threads == s.threads
    ensures timed ==> Step(Step(s, Pend(id, timed)), Expire(id)).threads == s.threads
  {
    var t := s.threads[id];
    assert t.queued;
    StepKeepsInv(s, Pend(id, timed));
    var s1 := Step(s, Pend(id, timed));
    assert Known(s1);
    hide Inv, ReadyThread;
    PendFrame(s, id, timed);
    var t1 := s1.threads[id].(pending := false, timeout := false);
    WakeFrame(s1, Unpend(id), id, t1);
    if timed {
      WakeFrame(s1, Expire(id), id, t1.(prestart := false, suspended := false));
    }
  }

  /** The running thread that sleeps is as it was when its timeout comes or it is woken up. */
  lemma {:induction false} SleepEnds(s: Sched)
    requires Inv(s) && Allowed(s, Sleep)
    ensures Known(Step(s, Sleep)) && s.current in Step(s, Sleep).threads
    ensures Step(s, Sleep).idle == s.idle && Step(s, Sleep).threads[s.current].timeout
    ensures Step(Step(s, Sleep), Expire(s.current)).threads == s.threads
    ensures Step(Step(s, Sleep), Wakeup(s.current)).threads == s.threads
  {
    assert s.threads[s.current].queued;
    StepKeepsInv(s, Sleep);
    var s1 := Step(s, Sleep);
    assert Known(s1);
    hide Inv, ReadyThread;
    SleepFrame(s);
    var t1 := s1.threads[s.current].(timeout := false, suspended := false);
    WakeFrame(s1, Wakeup(s.current), s.current, t1);
    WakeFrame(s1, Expire(s.current), s.current, t1.(pending := false, prestart := false));
  }

  /** A new thread runs only once it is started, or its delay is over. */
  lemma {:induction false} StartMakesReady(s: Sched, id: nat, prio: int, delayed: bool)
    requires Inv(s) && id !in s.threads
    ensures !Ready(Step(s, Create(id, prio, delayed)).threads[id])
    ensures !delayed ==> Ready(Step(Step(s, Create(id, prio, delayed)), Start(id)).threads[id])
    ensures delayed ==> Ready(Step(Step(s, Create(id, prio, delayed)), Expire(id)).threads[id])
  {
    hide QueueOk, CacheOk;
  }

  lemma {:induction false} WakeAllFrame(s: Sched, ids: seq<nat>, id: nat)
    requires s.current in s.threads && forall i | 0 <= i < |ids| :: ids[i] in s.threads
    requires id in s.threads
    ensures id in WakeAll(s, ids).threads
    ensures id !in ids ==> WakeAll(s, ids).threads[id] == s.threads[id]
    ensures var t := s.threads[id].(pending := false, timeout := false);
            id in ids ==> WakeAll(s, ids).threads[id] == t.(queued := t.queued || Ready(t))
    decreases |ids|
  {
    if ids != [] {
      ReadyThreadFrame(SetState(s, ids[0], s.threads[ids[0]].(pending := false, timeout := false)), ids[0]);
      hide ReadyThread;
      WakeAllFrame(Woken(s, ids[0]), ids[1..], id);
    }
  }

  lemma {:induction false} BuriedFrame(s: Sched, id: nat, x: nat)
    requires id in s.threads && s.current in s.threads && x in s.threads
    ensures Buried(s, id).current == s.current && Buried(s, id).threads.Keys == s.threads.Keys
    ensures Buried(s, id).threads[id].dead && (x != id ==> Buried(s, id).threads[x] == s.threads[x])
  {
  }

  /** Everybody who waits to join a thread is woken when it is aborted, and is ready if nothing else holds them. */
  lemma {:induction false} AbortWakesJoiners(s: Sched, id: nat, joiners: seq<nat>, i: nat)
    requires Inv(s) && Allowed(s, Abort(id, joiners)) && !s.threads[id].dead && i < |joiners|
    ensures id in Step(s, Abort(id, joiners)).threads && Step(s, Abort(id, joiners)).threads[id].dead
    ensures joiners[i] in Step(s, Abort(id, joiners)).threads
    ensures var was := s.threads[joiners[i]];
            var now := Step(s, Abort(id, joiners)).threads[joiners[i]];
            !now.pending && (Ready(now) <==> !was.prestart && !was.dead && !was.suspended)
  {
    hide Inv, Buried, WakeAll;
    BuriedFrame(s, id, joiners[i]);
    WakeAllFrame(Buried(s, id), joiners, id);
    WakeAllFrame(Buried(s, id), joiners, joiners[i]);
  }

  /** A dead thread never becomes ready again. */
  lemma {:induction false} DeadStaysDead(s: Sched, op: Op, id: nat)
    requires Inv(s) && Allowed(s, op) && id in s.threads && s.threads[id].dead
    ensures id in Step(s, op).threads && Step(s, op).threads[id].dead
  {
    hide QueueOk, CacheOk, Inv, Buried, WakeAll;
    if op.Abort? && !s.threads[op.id].dead {
      BuriedFrame(s, op.id, id);
      WakeAllFrame(Buried(s, op.id), op.joiners, id);
    }
  }

  /** A call for one thread changes no other thread's state. */
  lemma {:induction false} OthersUntouched(s: Sched, op: Op, id: nat)
    requires Inv(s) && Allowed(s, op) && id in s.threads
    requires match op
             case Sleep => id != s.current
             case Yield => id != s.current
             case Lock => id != s.current
             case Unlock => id != s.current
             case Switch => true
             case Abort(x, joiners) => id != x && id !in joiners
             case _ => id != op.id
    ensures id in Step(s, op).threads && Step(s, op).threads[id] == s.threads[id]
  {
    hide QueueOk, CacheOk, Inv, Buried, WakeAll;
    if op.Abort? && !s.threads[op.id].dead {
      BuriedFrame(s, op.id, id);
      WakeAllFrame(Buried(s, op.id), op.joiners, id);
    }
  }
}
