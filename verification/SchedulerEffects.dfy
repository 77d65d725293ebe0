/**
 What each scheduler call makes of the thread it is for, of the queue and of the choice, given
 that flags, queue and choice agreed before.
 */
module SchedulerEffects {
  import opened Seqs
  import opened RunQueues
  import opened Scheduler

  /** A queue without one of its threads, the others in order. */
  predicate LeavesAt(before: seq<Thread>, after: seq<Thread>, id: nat, k: nat)
    requires k < |before|
  {
    before[k].id == id && after == Dropped(before, k)
  }

  ghost predicate Leaves(before: seq<Thread>, after: seq<Thread>, id: nat) {
    exists k | 0 <= k < |before| :: LeavesAt(before, after, id, k)
  }

  lemma {:induction false} RemoveLeaves(q: seq<Thread>, id: nat)
    requires HasId(q, id)
    ensures Leaves(q, DumbRemove(q, id), id)
  {
    var k := RemovedAt(q, id);
    assert LeavesAt(q, DumbRemove(q, id), id, k);
  }

  lemma {:induction false} RemovedAt(q: seq<Thread>, id: nat) returns (k: nat)
    requires HasId(q, id)
    ensures k < |q| && LeavesAt(q, DumbRemove(q, id), id, k)
  {
    if q[0].id == id {
      k := 0;
    } else {
      var i :| 0 <= i < |q| && q[i].id == id;
      assert q[1..][i - 1].id == id;
      var j := RemovedAt(q[1..], id);
      k := j + 1;
      assert DumbRemove(q, id) == [q[0]] + Dropped(q[1..], j);
      hide DumbRemove, HasId;
      DroppedTail(q, j);
    }
  }

  lemma {:induction false} DroppedTail(q: seq<Thread>, j: nat)
    requires j + 1 < |q|
    ensures [q[0]] + Dropped(q[1..], j) == Dropped(q, j + 1)
  {
    assert q[1..][..j] == q[1..j + 1] && q[1..][j + 1..] == q[j + 2..];
  }

  // ----- Changing a priority --------------------------------------------------------------

  /**
   The thread has the new priority and nothing else of it changes. A ready one stands last among
   those of its new priority, and the choice is right for the new priorities.
   */
  lemma {:induction false} SetPrioEffect(s: Sched, id: nat, prio: int)
    requires Inv(s) && Scheduler.Allowed(s, SetPrio(id, prio))
    ensures var r := Step(s, SetPrio(id, prio));
            && r.threads == s.threads[id := s.threads[id].(prio := prio)]
            && r.current == s.current
            && (!Ready(s.threads[id]) ==> r.runq == s.runq && r.cache == s.cache)
            && (Ready(s.threads[id]) ==>
                  && Moves(s.runq, r.runq, Thread(id, prio))
                  && BestReady(r, r.cache))
  {
    SetPrioKeepsInv(s, id, prio);
    hide QueueOk, Step;
    SetPrioFrame(s, id, prio);
    if Ready(s.threads[id]) {
      QueuedMoves(s, id, prio);
      ChosenIsBest(Step(s, SetPrio(id, prio)));
    }
  }

  lemma {:induction false} SetPrioFrame(s: Sched, id: nat, prio: int)
    requires Known(s) && id in s.threads && id != s.idle
    ensures var r := Step(s, SetPrio(id, prio));
            && r.threads == s.threads[id := s.threads[id].(prio := prio)] && r.current == s.current
            && (Ready(s.threads[id]) ==>
                  r.runq == DumbAdd(DumbRemove(s.runq, id), Thread(id, prio)) && r.cache == NextUp(r))
            && (!Ready(s.threads[id]) ==> r.runq == s.runq && r.cache == s.cache)
  {
  }

  /** The thread with this number leaves the queue and comes back last among those of its priority. */
  ghost predicate Moves(before: seq<Thread>, after: seq<Thread>, t: Thread) {
    exists rest :: Leaves(before, rest, t.id) && JoinsLast(rest, after, t)
  }

  lemma {:induction false} QueuedMoves(s: Sched, id: nat, prio: int)
    requires Inv(s) && id in s.threads && s.threads[id].queued
    ensures Moves(s.runq, DumbAdd(DumbRemove(s.runq, id), Thread(id, prio)), Thread(id, prio))
  {
    assert HasId(s.runq, id);
    RemoveLeaves(s.runq, id);
    RemoveSorted(s.runq, id);
    hide Leaves, JoinsLast, HasId;
    AddJoinsLast(DumbRemove(s.runq, id), Thread(id, prio));
  }

  lemma {:induction false} ChosenIsBest(s: Sched)
    requires Inv(s) && s.cache == NextUp(s)
    ensures BestReady(s, s.cache)
  {
  }

  // ----- Threads come to be ---------------------------------------------------------------

  /** A new thread has the priority it was given, has not started, and changes nothing for the others. */
  lemma {:induction false} CreateEffect(s: Sched, id: nat, prio: int, delayed: bool)
    requires Inv(s) && Scheduler.Allowed(s, Create(id, prio, delayed))
    ensures var r := Step(s, Create(id, prio, delayed));
            && r == s.(threads := r.threads) && r.threads.Keys == s.threads.Keys + {id}
            && r.threads[id].prio == prio && r.threads[id].prestart && r.threads[id].timeout == delayed
            && !r.threads[id].queued && r.threads[id].locked == 0
            && !r.threads[id].pending && !r.threads[id].suspended && !r.threads[id].dead
  {
  }

  // ----- Threads become ready -------------------------------------------------------------

  /** A thread that may run now stands last among those of its priority; otherwise the queue is as it was. */
  ghost predicate Joined(s: Sched, r: Sched, id: nat, t: TState)
    requires id in s.threads
  {
    && r.threads == s.threads[id := t.(queued := Ready(t))] && r.current == s.current
    && (if Ready(t) && !Ready(s.threads[id]) then JoinsLast(s.runq, r.runq, Thread(id, t.prio))
        else r.runq == s.runq)
  }

  lemma {:induction false} WakeEffect(s: Sched, id: nat, t: TState)
    requires Inv(s) && id in s.threads && id != s.idle && Eases(s.threads[id], t)
    ensures Joined(s, ReadyThread(SetState(s, id, t), id), id, t)
  {
    AddJoinsLast(s.runq, Thread(id, t.prio));
    hide JoinsLast;
  }

  /** A thread taken off its wait queue waits no longer, nor for a timeout; what else holds it still does. */
  lemma {:induction false} UnpendEffect(s: Sched, id: nat)
    requires Inv(s) && Scheduler.Allowed(s, Unpend(id))
    ensures Joined(s, Step(s, Unpend(id)), id, s.threads[id].(pending := false, timeout := false))
  {
    WakeEffect(s, id, s.threads[id].(pending := false, timeout := false));
    hide Inv, Joined;
  }

  /** A timeout ends a wait, a sleep, a suspension and the delay before a start. */
  lemma {:induction false} ExpireEffect(s: Sched, id: nat)
    requires Inv(s) && Scheduler.Allowed(s, Expire(id))
    ensures Joined(s, Step(s, Expire(id)), id,
                   s.threads[id].(pending := false, timeout := false, prestart := false, suspended := false))
  {
    WakeEffect(s, id, s.threads[id].(pending := false, prestart := false, suspended := false, timeout := false));
    hide Inv, Joined;
  }

  /** Resuming ends a suspension, and nothing else; starting starts, and nothing else. */
  lemma {:induction false} ResumeStartEffect(s: Sched, id: nat)
    requires Inv(s) && id in s.threads && id != s.idle
    ensures !s.threads[id].suspended ==> Step(s, Resume(id)) == s
    ensures s.threads[id].suspended ==> Joined(s, Step(s, Resume(id)), id, s.threads[id].(suspended := false))
    ensures !s.threads[id].prestart ==> Step(s, Start(id)) == s
    ensures s.threads[id].prestart ==> Joined(s, Step(s, Start(id)), id, s.threads[id].(prestart := false))
  {
    WakeEffect(s, id, s.threads[id].(suspended := false));
    WakeEffect(s, id, s.threads[id].(prestart := false));
    hide Inv, Joined;
  }

  /** k_wakeup ends a sleep: a timeout that is not a wait's, or a suspension that nothing else goes with. */
  lemma {:induction false} WakeupEffect(s: Sched, id: nat)
    requires Inv(s) && Scheduler.Allowed(s, Wakeup(id))
    ensures var t := s.threads[id];
            if !t.pending && (t.timeout || (t.suspended && !t.prestart && !t.dead)) then
              Joined(s, Step(s, Wakeup(id)), id, t.(timeout := false, suspended := false))
            else Step(s, Wakeup(id)) == s
  {
    WakeEffect(s, id, s.threads[id].(timeout := false, suspended := false));
    assert s.threads[id].queued <==> Ready(s.threads[id]);
    hide Inv, Joined;
  }

  // ----- Threads stop being ready ---------------------------------------------------------

  /** The thread has left the queue, if it was on it, and the others are as they were. */
  ghost predicate Gone(s: Sched, r: Sched, id: nat, t: TState)
    requires id in s.threads
  {
    && r.threads == s.threads[id := t.(queued := false)]
    && if s.threads[id].queued then Leaves(s.runq, r.runq, id) else r.runq == s.runq
  }

  lemma {:induction false} PendEffect(s: Sched, id: nat, timed: bool)
    requires Inv(s) && Scheduler.Allowed(s, Pend(id, timed))
    ensures var r := Step(s, Pend(id, timed));
            && Gone(s, r, id, s.threads[id].(pending := true, timeout := timed))
            && (id != s.current ==> r.current == s.current) && (id == s.current ==> r.current == r.cache)
  {
    PendFrame(s, id, timed);
    if s.threads[id].queued {
      RemoveLeaves(s.runq, id);
    }
    hide Leaves, HasId, QueueOk;
  }

  lemma {:induction false} SuspendEffect(s: Sched, id: nat)
    requires Inv(s) && Scheduler.Allowed(s, Suspend(id))
    ensures var r := Step(s, Suspend(id));
            Gone(s, r, id, s.threads[id].(suspended := true, timeout := false)) && r.current == s.current
  {
    SuspendFrame(s, id);
    if s.threads[id].queued {
      RemoveLeaves(s.runq, id);
    }
    hide Leaves, HasId, QueueOk;
  }

  lemma {:induction false} SleepEffect(s: Sched)
    requires Inv(s) && Scheduler.Allowed(s, Sleep)
    ensures var r := Step(s, Sleep);
            && Gone(s, r, s.current, s.threads[s.current].(suspended := true, timeout := true))
            && r.current == r.cache
  {
    SleepFrame(s);
    RemoveLeaves(s.runq, s.current);
    hide Leaves, HasId, QueueOk;
  }

  /** An aborted thread waits for nothing, is dead and off the queue. */
  lemma {:induction false} BuriedEffect(s: Sched, id: nat)
    requires Inv(s) && id in s.threads && id != s.idle
    ensures Gone(s, Buried(s, id), id, s.threads[id].(pending := false, timeout := false, dead := true))
  {
    hide Leaves;
    assert s.threads[id].queued <==> Ready(s.threads[id]);
    BuriedIs(s, id);
    if s.threads[id].queued {
      assert HasId(s.runq, id);
      RemoveLeaves(s.runq, id);
    }
    hide HasId, Inv, Buried;
  }

  lemma {:induction false} BuriedIs(s: Sched, id: nat)
    requires id in s.threads && s.current in s.threads && (s.threads[id].queued <==> Ready(s.threads[id]))
    ensures var t := s.threads[id];
            && Buried(s, id).threads ==
               s.threads[id := t.(pending := false, timeout := false, dead := true, queued := false)]
            && Buried(s, id).runq == if t.queued then DumbRemove(s.runq, id) else s.runq
  {
    hide DumbRemove;
  }

  /**
   An abort of a dead thread does nothing. Otherwise those who wait to join are readied in turn, the
   running thread stays, and from the idle thread the best ready one is next.
   */
  lemma {:induction false} AbortEffect(s: Sched, id: nat, joiners: seq<nat>)
    requires Inv(s) && Scheduler.Allowed(s, Abort(id, joiners))
    ensures var r := Step(s, Abort(id, joiners));
            && (s.threads[id].dead ==> r == s)
            && r.current == s.current
            && (!s.threads[id].dead && s.current == s.idle ==> BestReady(r, r.cache))
  {
    AbortKeepsInv(s, id, joiners);
    if !s.threads[id].dead {
      BuriedKeepsInv(s, id);
      BuriedFrame(s, id, id);
      assert Buried(s, id).idle == s.idle;
      hide Inv, WakeAll, Buried;
      WakeAllKeepsInv(Buried(s, id), joiners);
      if s.current == s.idle {
        ChosenIsBest(Step(s, Abort(id, joiners)));
      }
    }
  }

  // ----- The running thread ---------------------------------------------------------------

  /** Yielding changes no state; the running thread goes behind the others of its priority. */
  lemma {:induction false} YieldEffect(s: Sched)
    requires Inv(s) && Scheduler.Allowed(s, Yield)
    ensures var r := Step(s, Yield);
            && r.threads == s.threads && r.current == s.current
            && (s.current == s.idle ==> r == s)
            && (s.current != s.idle ==> Moves(s.runq, r.runq, Thread(s.current, s.threads[s.current].prio)))
  {
    hide Moves;
    if s.current != s.idle {
      QueuedMoves(s, s.current, s.threads[s.current].prio);
      assert s.threads[s.current := s.threads[s.current].(queued := true)] == s.threads;
    }
    hide QueueOk;
  }

  /** Between a lock and its unlock the running thread is not preempted; the unlock restores it. */
  lemma {:induction false} LockEffect(s: Sched)
    requires Inv(s) && Scheduler.Allowed(s, Lock)
    ensures var r := Step(s, Lock);
            && r == s.(threads := s.threads[s.current := r.threads[s.current]])
            && !Preemptible(r.threads[s.current])
            && Scheduler.Allowed(r, Unlock) && Step(r, Unlock).threads == s.threads
            && CacheOk(Step(r, Unlock))
  {
    hide QueueOk;
    var r := Step(s, Lock);
    assert s.threads[s.current := r.threads[s.current]][s.current := s.threads[s.current]] == s.threads;
  }

  lemma {:induction false} SwitchEffect(s: Sched)
    requires Inv(s)
    ensures Step(s, Switch) == s.(current := s.cache)
  {
  }
}
