/**
 The scheduler's entry points as they update the bytes of thread states, the ready queue the
 build chose and the cached choice. Each is proved to do what Scheduler says it does.
 */
module KScheduler {
  import opened Seqs
  import RunQueues
  import opened KRunQueues
  import opened KThreads
  import opened Scheduler
  import SchedulerEffects

  class ReadyQueue {
    var threads: map<nat, KThread>
    const runq: PriQueue
    var cache: nat
    var current: nat
    const idle: nat

    ghost function View(): Sched
      reads this, runq.Repr()
    {
      Sched(Abstract(threads), runq.Contents(), cache, current, idle)
    }

    /** Real threads whose priorities have a place in the queue */
    ghost predicate Based()
      reads this, runq.Repr()
    {
      && this !in runq.Repr() && runq.Valid()
      && forall id | id in threads :: Real(threads[id]) && (id != idle ==> runq.Fits(threads[id].prio))
    }

    ghost predicate Valid()
      reads this, runq.Repr()
    {
      Based() && forall id | id in threads :: Settled(threads[id])
    }

    /** Order keys are left for this many more adds. */
    ghost predicate Room(adds: nat)
      reads runq.Repr()
    {
      runq.Used() + adds < RunQueues.KEYS
    }

    constructor (main: nat, idle: nat, prio: Int8, idlePrio: Int8, queue: PriQueue)
      requires main != idle && queue.Valid() && queue.Contents() == [] && queue.Used() == 0 && queue.Fits(prio)
      modifies queue.Repr()
      ensures runq == queue && Valid() && View() == Boot(main, idle, prio, idlePrio) && Inv(View())
    {
      hide PriQueue.Contents, PriQueue.Fits, Has, Inv, Abs, Settled;
      this.idle := idle;
      threads := map[main := With(KThread(prio, 0, 0, false), Queued), idle := KThread(idlePrio, 0, 0, false)];
      cache, current := main, main;
      runq := queue;
      new;
      runq.Add(RunQueues.Thread(main, prio));
      BootThreads(main, idle, prio, idlePrio);
      BootInv(main, idle, prio, idlePrio);
      assert View().threads == Boot(main, idle, prio, idlePrio).threads;
      assert View().runq == [RunQueues.Thread(main, prio)];
    }

    // ----- Bytes --------------------------------------------------------------------------

    /** A thread's bytes change. */
    method Store(id: nat, t: KThread)
      requires Based() && Real(t) && (id != idle ==> runq.Fits(t.prio))
      modifies this`threads
      ensures Based() && threads == old(threads)[id := t] && View() == SetState(old(View()), id, Abs(t))
    {
      AbstractUpdate(threads, id, t);
      threads := threads[id := t];
    }

    /** z_set_thread_states: one flag is raised and no other changes */
    method Mark(id: nat, f: Flag)
      requires Based() && id in threads && f != Dummy
      modifies this`threads
      ensures Based() && KeepsOthers(old(threads), threads, id, f == Aborting)
      ensures View() == SetState(old(View()), id, Raised(old(View()).threads[id], f))
      ensures f == Dead ==> Settled(threads[id])
      ensures Has(threads[id], f)
    {
      hide Has, IsSet, Abs, PriQueue.Contents, PriQueue.Valid, PriQueue.Fits;
      WithMeans(threads[id], f);
      SetBit(threads[id], f, f);
      Store(id, With(threads[id], f));
    }

    /** z_reset_thread_states: one flag is lowered and no other changes */
    method Unmark(id: nat, f: Flag)
      requires Based() && id in threads && f != Dead && f != Aborting
      modifies this`threads
      ensures Based() && KeepsOthers(old(threads), threads, id, false)
      ensures View() == SetState(old(View()), id, Lowered(old(View()).threads[id], f))
      ensures !Has(threads[id], f)
    {
      hide Has, IsSet, Abs, PriQueue.Contents, PriQueue.Valid, PriQueue.Fits;
      WithoutMeans(threads[id], f);
      ClearBit(threads[id], f, f);
      Store(id, Without(threads[id], f));
    }

    /** z_add_thread_timeout or z_abort_thread_timeout */
    method SetTimeout(id: nat, armed: bool)
      requires Based() && id in threads
      modifies this`threads
      ensures Based() && KeepsOthers(old(threads), threads, id, false)
      ensures View() == SetState(old(View()), id, old(View()).threads[id].(timeout := armed))
    {
      hide Has, IsSet, Abs, PriQueue.Contents, PriQueue.Valid, PriQueue.Fits;
      TimeoutMeans(threads[id], armed);
      Store(id, threads[id].(timeout := armed));
    }

    // ----- The queue and the choice -------------------------------------------------------

    /** next_up: the head of the queue; a running thread that is being aborted is marked dead on the way */
    method NextUp() returns (next: nat)
      requires Based() && current in threads
      modifies this`threads
      ensures Based() && View() == old(View()) && next == Scheduler.NextUp(View())
      ensures KeepsOthers(old(threads), threads, current, false)
      ensures Has(threads[current], Aborting) ==> Settled(threads[current])
    {
      hide Has, IsSet, PriQueue.Contents, PriQueue.Valid, PriQueue.Fits, Abs;
      var best := runq.Best();
      next := match best case None => idle case Some(t) => t.id;
      if Has(threads[current], Aborting) {
        AlreadyDead(threads[current]);
        UpdatedBack(View().threads, current, Raised(Abs(threads[current]), Dead));
        Mark(current, Dead);
      }
    }

    /** update_cache */
    method UpdateCache(preemptOk: bool)
      requires Based() && current in threads
      modifies this`cache, this`threads
      ensures Based() && View() == Scheduler.UpdateCache(old(View()), preemptOk)
      ensures CacheOk(View()) && (preemptOk ==> cache == Scheduler.NextUp(View()))
      ensures KeepsOthers(old(threads), threads, current, false)
    {
      hide Has, IsSet, PriQueue.Contents, PriQueue.Valid, PriQueue.Fits, Stopped, IsPreempt, Abs;
      var next := NextUp();
      var me := threads[current];
      TestsMean(me);
      if preemptOk || Stopped(me) || IsPreempt(me) {
        cache := next;
      } else {
        cache := current;
      }
    }

    /** ready_thread: what was missing for the queue and the choice to be right is done */
    method ReadyThread(id: nat)
      requires Based() && id in threads && Settled(threads[id]) && AlmostInv(View(), id) && Room(1)
      modifies this, runq.Repr()
      ensures Based() && View() == Scheduler.ReadyThread(old(View()), id) && Inv(View())
      ensures runq.Used() <= old(runq.Used()) + 1 && SettledStay(old(threads), threads)
    {
      hide Has, IsSet, PriQueue.Contents, PriQueue.Valid, PriQueue.Fits, Stopped, IsPreempt, Inv, QueueOk;
      hide ReadyToRun, Abs;
      ReadyThreadRepairs(View(), id);
      TestsMean(threads[id]);
      FlagsMean(threads[id]);
      if !Has(threads[id], Queued) && ReadyToRun(threads[id]) {
        Enqueue(id);
        UpdateCache(false);
      }
    }

    /** A thread joins the queue. */
    method Enqueue(id: nat)
      requires Based() && id in threads && id != idle && QueueOk(View().threads, View().runq) && Room(1)
      requires !View().threads[id].queued
      modifies this`threads, runq.Repr()
      ensures Based() && View() == Scheduler.Enqueue(old(View()), id)
      ensures runq.Used() <= old(runq.Used()) + 1 && KeepsOthers(old(threads), threads, id, false)
    {
      hide Has, PriQueue.Contents, PriQueue.Valid, PriQueue.Fits, QueueOk, Abs, RunQueues.HasId, RunQueues.DumbAdd;
      FlagsMean(threads[id]);
      AbsentUnlessQueued(View(), id);
      runq.Add(RunQueues.Thread(id, threads[id].prio));
      Mark(id, Queued);
    }

    /** A queued thread leaves the queue. */
    method Dequeue(id: nat)
      requires Based() && id in threads && QueueOk(View().threads, View().runq)
      modifies this`threads, runq.Repr()
      ensures Based()
      ensures View() == if old(View()).threads[id].queued then Scheduler.Dequeue(old(View()), id) else old(View())
      ensures runq.Used() <= old(runq.Used()) && KeepsOthers(old(threads), threads, id, false)
      ensures !RunQueues.HasId(runq.Contents(), id) && !Has(threads[id], Queued)
    {
      hide Has, IsSet, PriQueue.Contents, PriQueue.Valid, PriQueue.Fits, QueueOk, Abs, RunQueues.HasId;
      hide RunQueues.DumbRemove;
      AbsentUnlessQueued(View(), id);
      FlagsMean(threads[id]);
      RemovedOnly(View(), id);
      if Has(threads[id], Queued) {
        runq.Remove(RunQueues.Thread(id, threads[id].prio));
        Unmark(id, Queued);
      }
    }

    /** unready_thread: the thread is off the queue, everybody else on it as before, and the choice right */
    method UnreadyThread(id: nat)
      requires Based() && id in threads && current in threads && QueueOk(View().threads, View().runq)
      modifies this, runq.Repr()
      ensures Based() && View() == Scheduler.UnreadyThread(old(View()), id)
      ensures !RunQueues.HasId(runq.Contents(), id) && CacheOk(View())
      ensures forall x | x != id && x in threads ::
                RunQueues.HasId(runq.Contents(), x) <==> old(RunQueues.HasId(runq.Contents(), x))
      ensures runq.Used() <= old(runq.Used()) && SettledStay(old(threads), threads)
    {
      hide Has, IsSet, PriQueue.Contents, PriQueue.Valid, PriQueue.Fits, QueueOk, Abs, RunQueues.HasId;
      hide RunQueues.DumbRemove;
      RemovedOnly(View(), id);
      Dequeue(id);
      UpdateCache(id == current);
    }

    // ----- Entry points -------------------------------------------------------------------

    /** The scheduling part of k_thread_create, before the thread is started */
    method Create(id: nat, prio: Int8, delayed: bool)
      requires Valid() && Inv(View()) && Allowed(View(), Op.Create(id, prio, delayed)) && runq.Fits(prio)
      modifies this`threads
      ensures Valid() && View() == Step(old(View()), Op.Create(id, prio, delayed)) && Inv(View())
      ensures threads.Keys == old(threads.Keys) + {id} && threads[id].prio == prio && !ReadyToRun(threads[id])
    {
      hide Has, IsSet, PriQueue.Contents, PriQueue.Valid, PriQueue.Fits, Inv, Abs;
      StepKeepsInv(View(), Op.Create(id, prio, delayed));
      var t := With(KThread(prio, 0, 0, false), Prestart);
      NewThread(prio);
      WithMeans(KThread(prio, 0, 0, false), Prestart);
      TimeoutMeans(t, delayed);
      TestsMean(t.(timeout := delayed));
      Store(id, t.(timeout := delayed));
    }

    /** pend: off the ready queue, marked as pending, and timed if there is a timeout */
    method PendOnly(id: nat, timed: bool)
      requires Valid() && id in threads && current in threads && QueueOk(View().threads, View().runq)
      modifies this, runq.Repr()
      ensures Valid() && current == old(current) && View() == Blocked(old(View()), id, timed)
    {
      hide QueueOk, PriQueue.Contents, PriQueue.Valid, PriQueue.Fits, Abs, Settled, Real, RunQueues.HasId, CacheOk;
      UnreadyThread(id);
      hide Scheduler.UnreadyThread;
      ghost var s1 := View();
      Mark(id, Pending);
      SetTimeout(id, timed);
      SetTwice(s1, id, s1.threads[id].(pending := true), s1.threads[id].(pending := true, timeout := timed));
    }

    /** z_pend_curr: pend, then swap */
    method Pend(id: nat, timed: bool)
      requires Valid() && Inv(View()) && Allowed(View(), Op.Pend(id, timed))
      modifies this, runq.Repr()
      ensures Valid() && View() == Step(old(View()), Op.Pend(id, timed)) && Inv(View())
    {
      hide Inv, QueueOk, PriQueue.Contents, PriQueue.Valid, PriQueue.Fits, Abs, Settled, Real;
      InvParts(View());
      StepKeepsInv(View(), Op.Pend(id, timed));
      PendOnly(id, timed);
      if id == current {
        current := cache;
      }
    }

    /** Some of a thread's flags are lowered, and it is readied. */
    method Rouse(id: nat, t: KThread)
      requires Based() && Inv(View()) && id in threads && id != idle && Settled(t) && Room(1)
      requires Eases(Abs(threads[id]), Abs(t))
      modifies this, runq.Repr()
      ensures Based() && View() == Scheduler.ReadyThread(SetState(old(View()), id, Abs(t)), id) && Inv(View())
      ensures runq.Used() <= old(runq.Used()) + 1 && SettledStay(old(threads), threads)
    {
      hide Inv, AlmostInv, QueueOk, PriQueue.Contents, PriQueue.Valid, PriQueue.Fits, Has, IsSet, Abs, Eases;
      hide Scheduler.ReadyThread;
      ClearedBits(View(), id, Abs(t));
      SamePrio(threads[id], t);
      Store(id, t);
      ReadyThread(id);
    }

    /** z_unpend_thread followed by z_ready_thread */
    method Unpend(id: nat)
      requires Valid() && Inv(View()) && Allowed(View(), Op.Unpend(id)) && Room(1)
      modifies this, runq.Repr()
      ensures Valid() && View() == Step(old(View()), Op.Unpend(id)) && Inv(View())
      ensures runq.Used() <= old(runq.Used()) + 1
    {
      hide Inv, AlmostInv, QueueOk, PriQueue.Contents, PriQueue.Valid, PriQueue.Fits, Abs, Settled, Real;
      UnpendedMeans(threads[id]);
      Rouse(id, Unpended(threads[id]));
    }

    /** z_thread_timeout */
    method Expire(id: nat)
      requires Valid() && Inv(View()) && Allowed(View(), Op.Expire(id)) && Room(1)
      modifies this, runq.Repr()
      ensures Valid() && View() == Step(old(View()), Op.Expire(id)) && Inv(View())
    {
      hide Inv, AlmostInv, QueueOk, PriQueue.Contents, PriQueue.Valid, PriQueue.Fits, Abs, Settled, Real;
      TimedOutMeans(threads[id]);
      Rouse(id, TimedOut(threads[id]));
    }

    /** A suspended thread has no timeout and is not queued. */
    method Park(id: nat)
      requires Valid() && id in threads && QueueOk(View().threads, View().runq)
      modifies this`threads, runq.Repr()
      ensures Valid() && threads.Keys == old(threads.Keys) && View() == Parked(old(View()), id)
    {
      hide QueueOk, PriQueue.Contents, PriQueue.Valid, PriQueue.Fits, Abs, Settled, Real, RunQueues.HasId;
      ghost var s := View();
      RelabelOk(s.threads, s.runq, id, s.threads[id].(timeout := false));
      SetTimeout(id, false);
      ghost var s1 := View();
      Dequeue(id);
      assert View().threads[id].timeout == false;
      hide Scheduler.Dequeue;
      Mark(id, Suspended);
    }

    /** z_impl_k_thread_suspend */
    method Suspend(id: nat)
      requires Valid() && Inv(View()) && Allowed(View(), Op.Suspend(id))
      modifies this, runq.Repr()
      ensures Valid() && View() == Step(old(View()), Op.Suspend(id)) && Inv(View())
    {
      hide Inv, AlmostInv, QueueOk, PriQueue.Contents, PriQueue.Valid, PriQueue.Fits, Abs, Settled, Real;
      InvParts(View());
      StepKeepsInv(View(), Op.Suspend(id));
      Park(id);
      UpdateCache(id == current);
    }

    /** z_impl_k_thread_resume */
    method Resume(id: nat)
      requires Valid() && Inv(View()) && Allowed(View(), Op.Resume(id)) && Room(1)
      modifies this, runq.Repr()
      ensures Valid() && View() == Step(old(View()), Op.Resume(id)) && Inv(View())
    {
      hide Inv, AlmostInv, QueueOk, PriQueue.Contents, PriQueue.Valid, PriQueue.Fits, Abs, Settled, Real;
      FlagsMean(threads[id]);
      if Has(threads[id], Suspended) {
        WithoutMeans(threads[id], Suspended);
        Rouse(id, Without(threads[id], Suspended));
      }
    }

    /** z_sched_start */
    method Start(id: nat)
      requires Valid() && Inv(View()) && Allowed(View(), Op.Start(id)) && Room(1)
      modifies this, runq.Repr()
      ensures Valid() && View() == Step(old(View()), Op.Start(id)) && Inv(View())
    {
      hide Inv, AlmostInv, QueueOk, PriQueue.Contents, PriQueue.Valid, PriQueue.Fits, Abs, Settled, Real;
      FlagsMean(threads[id]);
      if Has(threads[id], Prestart) {
        WithoutMeans(threads[id], Prestart);
        Rouse(id, Without(threads[id], Prestart));
      }
    }

    method DozeOff()
      requires Valid() && current in threads && QueueOk(View().threads, View().runq)
      modifies this, runq.Repr()
      ensures Valid() && current == old(current) && View() == Dozing(old(View()))
    {
      hide QueueOk, PriQueue.Contents, PriQueue.Valid, PriQueue.Fits, Abs, Settled, Real, RunQueues.HasId, CacheOk;
      UnreadyThread(current);
      hide Scheduler.UnreadyThread;
      ghost var s1 := View();
      ghost var t1 := s1.threads[current].(timeout := true);
      SetTimeout(current, true);
      Mark(current, Suspended);
      SetTwice(s1, current, t1, t1.(suspended := true));
    }

    /** z_tick_sleep */
    method Sleep()
      requires Valid() && Inv(View()) && Allowed(View(), Op.Sleep)
      modifies this, runq.Repr()
      ensures Valid() && View() == Step(old(View()), Op.Sleep) && Inv(View())
    {
      hide Inv, AlmostInv, QueueOk, PriQueue.Contents, PriQueue.Valid, PriQueue.Fits, Abs, Settled, Real;
      InvParts(View());
      StepKeepsInv(View(), Op.Sleep);
      DozeOff();
      current := cache;
    }

    /** z_set_prio */
    method SetPrio(id: nat, prio: Int8) returns (needSched: bool)
      requires Valid() && Inv(View()) && Allowed(View(), Op.SetPrio(id, prio)) && runq.Fits(prio) && Room(1)
      modifies this, runq.Repr()
      ensures Valid() && View() == Step(old(View()), Op.SetPrio(id, prio)) && Inv(View())
      ensures needSched == Ready(old(View()).threads[id])
      ensures threads.Keys == old(threads.Keys) && threads[id].prio == prio
      ensures needSched ==> BestReady(View(), cache)
    {
      hide Inv, AlmostInv, QueueOk, PriQueue.Contents, PriQueue.Valid, PriQueue.Fits, Abs, Settled, Real;
      hide BestReady, SchedulerEffects.Moves;
      InvParts(View());
      StepKeepsInv(View(), Op.SetPrio(id, prio));
      SchedulerEffects.SetPrioEffect(View(), id, prio);
      TestsMean(threads[id]);
      PrioMeans(threads[id], prio);
      needSched := ReadyToRun(threads[id]);
      if needSched {
        ReadyQueued(View(), id);
        Requeue(id, threads[id].(prio := prio));
        UpdateCache(true);
      } else {
        Store(id, threads[id].(prio := prio));
      }
      FlagsMean(threads[id]);
    }

    /** A queued thread leaves the queue and comes back last among those of its new priority. */
    method Requeue(id: nat, t: KThread)
      requires Valid() && id in threads && QueueOk(View().threads, View().runq) && Abs(threads[id]).queued
      requires Settled(t) && runq.Fits(t.prio) && Room(1)
      modifies this`threads, runq.Repr()
      ensures Valid() && threads == old(threads)[id := t] && View() == Requeued(old(View()), id, Abs(t))
    {
      hide QueueOk, PriQueue.Contents, PriQueue.Valid, PriQueue.Fits, Has, IsSet, RunQueues.HasId;
      AbsentUnlessQueued(View(), id);
      RemovedOnly(View(), id);
      runq.Remove(RunQueues.Thread(id, threads[id].prio));
      Store(id, t);
      runq.Add(RunQueues.Thread(id, t.prio));
    }

    /** z_impl_k_yield up to the swap */
    method Yield()
      requires Valid() && Inv(View()) && Allowed(View(), Op.Yield) && Room(1)
      modifies this, runq.Repr()
      ensures Valid() && View() == Step(old(View()), Op.Yield) && Inv(View())
    {
      hide Inv, AlmostInv, QueueOk, PriQueue.Contents, PriQueue.Valid, PriQueue.Fits, Abs, Settled, Real;
      InvParts(View());
      StepKeepsInv(View(), Op.Yield);
      if current != idle {
        ReadyQueued(View(), current);
        WithMeans(threads[current], Queued);
        Requeue(current, With(threads[current], Queued));
        UpdateCache(true);
      }
    }

    /** k_sched_lock */
    method Lock()
      requires Valid() && Inv(View()) && Allowed(View(), Op.Lock)
      modifies this`threads
      ensures Valid() && View() == Step(old(View()), Op.Lock) && Inv(View())
      ensures current in threads && !IsPreempt(threads[current])
    {
      hide Inv, AlmostInv, QueueOk, PriQueue.Contents, PriQueue.Valid, PriQueue.Fits, Abs, Settled, Real;
      StepKeepsInv(View(), Op.Lock);
      LocksMean(threads[current]);
      LockKeeps(threads[current]);
      TestsMean(Locked(threads[current]));
      Store(current, Locked(threads[current]));
    }

    /** k_sched_unlock */
    method Unlock()
      requires Valid() && Inv(View()) && Allowed(View(), Op.Unlock)
      modifies this
      ensures Valid() && View() == Step(old(View()), Op.Unlock) && Inv(View())
    {
      hide Inv, AlmostInv, QueueOk, PriQueue.Contents, PriQueue.Valid, PriQueue.Fits, Abs, Settled, Real;
      StepKeepsInv(View(), Op.Unlock);
      LocksMean(threads[current]);
      LockKeeps(threads[current]);
      Store(current, Unlocked(threads[current]));
      UpdateCache(false);
    }

    /** z_impl_k_wakeup, which compares the whole state byte */
    method Wakeup(id: nat)
      requires Valid() && Inv(View()) && Allowed(View(), Op.Wakeup(id)) && Room(1)
      modifies this, runq.Repr()
      ensures Valid() && View() == Step(old(View()), Op.Wakeup(id)) && Inv(View())
    {
      hide Inv, AlmostInv, QueueOk, PriQueue.Contents, PriQueue.Valid, PriQueue.Fits, Abs, Settled, Real;
      FlagsMean(threads[id]);
      ByteMeans(threads[id]);
      if Has(threads[id], Pending) {
        return;
      }
      if !threads[id].timeout && threads[id].state != Bit(Suspended) {
        return;
      }
      WokenUpMeans(threads[id]);
      Rouse(id, WokenUp(threads[id]));
    }

    /** z_thread_single_abort up to the waking of those who wait to join */
    method Bury(id: nat)
      requires Valid() && id in threads && current in threads && QueueOk(View().threads, View().runq)
      requires !View().threads[id].dead
      modifies this, runq.Repr()
      ensures Based() && View() == Buried(old(View()), id) && runq.Used() <= old(runq.Used())
      ensures threads.Keys == old(threads.Keys) && forall x | x in threads && x != id :: Settled(threads[x])
    {
      hide QueueOk, PriQueue.Contents, PriQueue.Valid, PriQueue.Fits, Has, IsSet, Abs, ReadyToRun, RunQueues.HasId;
      hide Settled, Real, CacheOk;
      ghost var s := View();
      DoomedMeans(threads[id]);
      RelabelOk(s.threads, s.runq, id, s.threads[id].(timeout := false, dead := true));
      Store(id, Doomed(threads[id]));
      if ReadyToRun(threads[id]) {
        UnreadyThread(id);
      } else {
        Unmark(id, Pending);
      }
    }

    /** z_thread_single_abort; `joiners` is the queue of those who wait to join */
    method Abort(id: nat, joiners: seq<nat>)
      requires Valid() && Inv(View()) && Allowed(View(), Op.Abort(id, joiners)) && Room(|joiners|)
      modifies this, runq.Repr()
      ensures Valid() && View() == Step(old(View()), Op.Abort(id, joiners)) && Inv(View())
    {
      hide Inv, QueueOk, PriQueue.Contents, PriQueue.Valid, PriQueue.Fits, Has, IsSet, Abs, Buried, WakeAll, Settled;
      hide Real, RunQueues.HasId;
      ghost var s := View();
      StepKeepsInv(s, Op.Abort(id, joiners));
      InvParts(s);
      DeadMeans(threads[id]);
      if Has(threads[id], Aborting) || Has(threads[id], Dead) {
        return;
      }
      BuriedKeepsInv(s, id);
      BuriedFrame(s, id, id);
      Bury(id);
      WakeJoiners(id, joiners);
      Finish(id);
    }

    /** The end of z_thread_single_abort */
    method Finish(id: nat)
      requires Based() && Known(View()) && id in threads && View().threads[id].dead
      requires forall x | x in threads && x != id :: Settled(threads[x])
      modifies this`cache, this`threads
      ensures Valid() && View() == if current == idle then Chosen(old(View())) else old(View())
    {
      hide PriQueue.Contents, PriQueue.Valid, PriQueue.Fits, Has, IsSet, Abs, Settled, Real;
      if current == idle {
        UpdateCache(true);
      }
      UpdatedBack(View().threads, id, Raised(View().threads[id], Dead));
      Mark(id, Dead);
    }

    /** Everybody who waits to join is readied, best first. */
    method WakeJoiners(id: nat, joiners: seq<nat>)
      requires Based() && Inv(View()) && Room(|joiners|) && id in threads && View().threads[id].dead
      requires forall i | 0 <= i < |joiners| :: joiners[i] in threads && joiners[i] != idle && joiners[i] != id
      requires forall x | x in threads && x != id :: Settled(threads[x])
      modifies this, runq.Repr()
      ensures Based() && View() == WakeAll(old(View()), joiners) && Inv(View())
      ensures threads.Keys == old(threads.Keys) && View().threads[id].dead && Known(View())
      ensures forall x | x in threads && x != id :: Settled(threads[x])
    {
      hide Inv, QueueOk, PriQueue.Contents, PriQueue.Valid, PriQueue.Fits, Has, IsSet, Abs, Settled, Real;
      InvParts(View());
      var i := 0;
      while i < |joiners|
        invariant 0 <= i <= |joiners| && Based() && Inv(View()) && Known(View()) && current == old(current)
        invariant threads.Keys == old(threads.Keys) && View().threads[id].dead && Room(|joiners| - i)
        invariant forall x | x in threads && x != id :: Settled(threads[x])
        invariant WakeAll(View(), joiners[i..]) == WakeAll(old(View()), joiners)
      {
        var w := joiners[i];
        ghost var s := View();
        UnpendedMeans(threads[w]);
        Rouse(w, Unpended(threads[w]));
        ReadyThreadFrame(SetState(s, w, s.threads[w].(pending := false, timeout := false)), w);
        assert joiners[i..][0] == w && joiners[i..][1..] == joiners[i + 1..];
        InvParts(View());
        i := i + 1;
      }
      assert joiners[i..] == [];
    }

    /** The context switch takes the cached thread. */
    method Switch()
      requires Valid() && Inv(View())
      modifies this`current
      ensures Valid() && View() == Step(old(View()), Op.Switch) && Inv(View())
      ensures old(ShouldPreempt(View(), false)) ==> BestReady(View(), current)
    {
      hide Inv, AlmostInv, QueueOk, PriQueue.Contents, PriQueue.Valid, PriQueue.Fits, Abs, Settled, Real;
      ghost var s := View();
      InvParts(s);
      StepKeepsInv(s, Op.Switch);
      if ShouldPreempt(s, false) {
        NoInversionAfterSwitch(s);
      }
      current := cache;
    }
  }

  function Parked(s: Sched, id: nat): Sched
    requires id in s.threads
  {
    var s1 := SetState(s, id, s.threads[id].(timeout := false));
    var s2 := if s1.threads[id].queued then Scheduler.Dequeue(s1, id) else s1;
    SetState(s2, id, s2.threads[id].(suspended := true))
  }

  function Requeued(s: Sched, id: nat, t: TState): Sched {
    SetState(s, id, t).(runq := RunQueues.DumbAdd(RunQueues.DumbRemove(s.runq, id), RunQueues.Thread(id, t.prio)))
  }

  function Dozing(s: Sched): Sched
    requires s.current in s.threads
  {
    var s1 := Scheduler.UnreadyThread(s, s.current);
    SetState(s1, s.current, s1.threads[s.current].(timeout := true, suspended := true))
  }

  function Blocked(s: Sched, id: nat, timed: bool): Sched
    requires id in s.threads && s.current in s.threads
  {
    var s1 := Scheduler.UnreadyThread(s, id);
    SetState(s1, id, s1.threads[id].(pending := true, timeout := timed))
  }

  /** No thread but one changes, and that one becomes unsettled only if it may. */
  predicate KeepsOthers(before: map<nat, KThread>, after: map<nat, KThread>, id: nat, unsettles: bool) {
    && id in before && before.Keys == after.Keys && after == before[id := after[id]]
    && (Settled(before[id]) && !unsettles ==> Settled(after[id]))
  }

  predicate SettledStay(before: map<nat, KThread>, after: map<nat, KThread>) {
    before.Keys == after.Keys && forall x | x in before && Settled(before[x]) :: Settled(after[x])
  }

  lemma {:induction false} NewThread(prio: Int8)
    ensures Abs(KThread(prio, 0, 0, false)) == TState(prio, false, false, false, false, false, false, 0)
    ensures Settled(KThread(prio, 0, 0, false))
  {
  }

  lemma {:induction false} BootThreads(main: nat, idle: nat, prio: Int8, idlePrio: Int8)
    requires main != idle
    ensures var m := With(KThread(prio, 0, 0, false), Queued);
            var i := KThread(idlePrio, 0, 0, false);
            && Settled(m) && Settled(i) && Real(m) && Real(i)
            && Abstract(map[main := m, idle := i]) == Boot(main, idle, prio, idlePrio).threads
  {
    NewThread(prio);
    NewThread(idlePrio);
    WithMeans(KThread(prio, 0, 0, false), Queued);
    hide Abs, Real;
  }

  /** Flags do not depend on the rest. */
  lemma {:induction false} TimeoutMeans(t: KThread, timed: bool)
    ensures Abs(t.(timeout := timed)) == Abs(t).(timeout := timed)
    ensures Settled(t.(timeout := timed)) <==> Settled(t)
    ensures Real(t.(timeout := timed)) <==> Real(t)
  {
  }

  /** A thread that is being aborted, its timeout gone */
  function Doomed(t: KThread): KThread {
    With(t, Aborting).(timeout := false)
  }

  lemma {:induction false} DoomedMeans(t: KThread)
    requires Settled(t) && !Abs(t).dead
    ensures Abs(Doomed(t)) == Abs(t).(timeout := false, dead := true)
    ensures Real(Doomed(t)) && Doomed(t).prio == t.prio
    ensures ReadyToRun(Doomed(t)) <==> !Prevented(Abs(t))
  {
    AbortingMeans(t);
    WithMeans(t, Aborting);
    hide Has, IsSet, Bit, Abs;
    TimeoutMeans(With(t, Aborting), false);
  }

  /** What taking a thread off its wait queue, and aborting its timeout, makes of it */
  function Unpended(t: KThread): KThread {
    Without(t, Pending).(timeout := false)
  }

  lemma {:induction false} UnpendedMeans(t: KThread)
    ensures Abs(Unpended(t)) == Abs(t).(pending := false, timeout := false)
    ensures Settled(t) ==> Settled(Unpended(t))
    ensures Eases(Abs(t), Abs(Unpended(t)))
  {
    hide Has, IsSet, Bit, Abs, Settled;
    WithoutMeans(t, Pending);
    TimeoutMeans(Without(t, Pending), false);
  }

  lemma {:induction false} SamePrio(t: KThread, u: KThread)
    requires Eases(Abs(t), Abs(u))
    ensures t.prio == u.prio
  {
  }

  lemma {:induction false} DeadMeans(t: KThread)
    ensures Abs(t).dead <==> Has(t, Aborting) || Has(t, Dead)
  {
  }

  /** What k_wakeup makes of a sleeping thread before readying it */
  function WokenUp(t: KThread): KThread {
    Without(t.(timeout := false), Suspended)
  }

  lemma {:induction false} WokenUpMeans(t: KThread)
    ensures Abs(WokenUp(t)) == Abs(t).(timeout := false, suspended := false)
    ensures Settled(t) ==> Settled(WokenUp(t))
    ensures Eases(Abs(t), Abs(WokenUp(t)))
  {
    hide Has, IsSet, Bit, Abs, Settled;
    TimeoutMeans(t, false);
    WithoutMeans(t.(timeout := false), Suspended);
  }

  /** What z_thread_timeout makes of a thread before readying it */
  function TimedOut(t: KThread): KThread {
    Without(Without(Without(t.(timeout := false), Pending), Prestart), Suspended)
  }

  lemma {:induction false} TimedOutMeans(t: KThread)
    ensures Abs(TimedOut(t)) ==
            Abs(t).(pending := false, prestart := false, suspended := false, timeout := false)
    ensures Settled(t) ==> Settled(TimedOut(t))
  {
    hide Has, IsSet, Bit, Abs, Settled;
    var t1 := t.(timeout := false);
    TimeoutMeans(t, false);
    WithoutMeans(t1, Pending);
    WithoutMeans(Without(t1, Pending), Prestart);
    WithoutMeans(Without(Without(t1, Pending), Prestart), Suspended);
  }

  lemma {:induction false} FlagsMean(t: KThread)
    ensures Abs(t).queued == Has(t, Queued) && Abs(t).pending == Has(t, Pending)
    ensures Abs(t).suspended == Has(t, Suspended) && Abs(t).prestart == Has(t, Prestart)
    ensures Abs(t).prio == t.prio && Abs(t).timeout == t.timeout
  {
  }

  lemma {:induction false} LockKeeps(t: KThread)
    ensures Settled(t) ==> Settled(Locked(t)) && Settled(Unlocked(t))
    ensures Real(t) ==> Real(Locked(t)) && Real(Unlocked(t))
    ensures Locked(t).prio == Unlocked(t).prio == t.prio
  {
  }

  /** Taking one thread off the queue takes off no other. */
  lemma {:induction false} RemovedOnly(s: Sched, id: nat)
    requires QueueOk(s.threads, s.runq) && id in s.threads
    ensures !RunQueues.HasId(RunQueues.DumbRemove(s.runq, id), id)
    ensures forall x | x != id && x in s.threads ::
              RunQueues.HasId(RunQueues.DumbRemove(s.runq, id), x) <==> RunQueues.HasId(s.runq, x)
  {
    RunQueues.DumbRemoveDistinct(s.runq, id);
    forall x | x != id && x in s.threads
      ensures RunQueues.HasId(RunQueues.DumbRemove(s.runq, id), x) <==> RunQueues.HasId(s.runq, x)
    {
      RunQueues.RemoveHas(s.runq, id, x);
    }
  }

  lemma {:induction false} SetTwice(s: Sched, id: nat, a: TState, b: TState)
    ensures SetState(SetState(s, id, a), id, b) == SetState(s, id, b)
  {
    assert s.threads[id := a][id := b] == s.threads[id := b];
  }

  lemma {:induction false} ReadyQueued(s: Sched, id: nat)
    requires Inv(s) && id in s.threads && id != s.idle && Ready(s.threads[id])
    ensures s.threads[id].queued
  {
  }

  lemma {:induction false} PrioMeans(t: KThread, prio: Int8)
    ensures Abs(t.(prio := prio)) == Abs(t).(prio := prio)
    ensures Settled(t) ==> Settled(t.(prio := prio))
  {
  }

  lemma {:induction false} InvParts(s: Sched)
    requires Inv(s)
    ensures Known(s) && QueueOk(s.threads, s.runq)
  {
  }

  lemma {:induction false} AlreadyDead(t: KThread)
    requires Has(t, Aborting)
    ensures Abs(t).dead
  {
  }

  lemma {:induction false} AbsentUnlessQueued(s: Sched, id: nat)
    requires QueueOk(s.threads, s.runq) && id in s.threads
    ensures RunQueues.HasId(s.runq, id) <==> s.threads[id].queued
    ensures s.threads[id].queued ==> RunQueues.Thread(id, s.threads[id].prio) in s.runq
  {
    if RunQueues.HasId(s.runq, id) {
      var i :| 0 <= i < |s.runq| && s.runq[i].id == id;
      assert s.runq[i] == RunQueues.Thread(id, s.threads[id].prio);
    }
  }
}
