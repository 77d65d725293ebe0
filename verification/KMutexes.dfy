/** `struct k_mutex` as its calls update it. */
module KMutexes {
  import RunQueues
  import opened Seqs
  import opened KRunQueues
  import opened Mutexes

  class KMutex {
    const ceiling: int
    var owner: Option<nat>
    var lockCount: nat
    var ownerOrigPrio: int
    const waitq: SortedList
    var prios: map<nat, int>
    ghost var expired: set<nat>

    ghost function View(): Mutex
      reads this, waitq
    {
      Mutex(owner, lockCount, ownerOrigPrio, waitq.list, prios, expired)
    }

    /** k_mutex_init, for threads of the given priorities */
    constructor (ceiling: int, base: map<nat, int>)
      ensures View() == Fresh(base) && Inv(ceiling, View(), base) && this.ceiling == ceiling && fresh(waitq)
    {
      this.ceiling := ceiling;
      owner, lockCount, ownerOrigPrio, prios, expired := None, 0, 0, base, {};
      waitq := new SortedList();
      new;
      FreshInv(ceiling, base);
    }

    /** adjust_owner_prio */
    method AdjustOwnerPrio(prio: int) returns (changed: bool)
      requires owner.Some? && owner.value in prios
      modifies this`prios
      ensures View() == SetOwnerPrio(old(View()), prio)
      ensures changed == (old(OwnerPrio(View())) != prio)
    {
      changed := prios[owner.value] != prio;
      if changed {
        prios := prios[owner.value := prio];
      }
      assert prios == old(prios)[owner.value := prio];
    }

    /** z_impl_k_mutex_lock up to the point where the caller pends */
    method Lock(me: nat, wait: bool, ghost base: map<nat, int>) returns (code: Code)
      requires Inv(ceiling, View(), base) && Allowed(View(), Call.Lock(me, wait))
      modifies this, waitq
      ensures (View(), code) == Step(ceiling, old(View()), Call.Lock(me, wait)) && Inv(ceiling, View(), base)
    {
      StepKeepsInv(ceiling, View(), base, Call.Lock(me, wait));
      if lockCount == 0 || owner == Some(me) {
        ownerOrigPrio := if lockCount == 0 then prios[me] else ownerOrigPrio;
        lockCount := lockCount + 1;
        owner := Some(me);
        return Ok;
      }
      if !wait {
        return Busy;
      }
      var mine := prios[me];
      var prio := ForInheritance(ceiling, mine, prios[owner.value]);
      if prio < prios[owner.value] {
        var _ := AdjustOwnerPrio(prio);
      }
      waitq.Add(RunQueues.Thread(me, mine));
      return Pending;
    }

    /** The wait of a thread times out (z_thread_timeout) */
    method Expire(who: nat, ghost base: map<nat, int>)
      requires Inv(ceiling, View(), base) && Allowed(View(), Call.Expire(who))
      modifies this, waitq
      ensures View() == Step(ceiling, old(View()), Call.Expire(who)).0 && Inv(ceiling, View(), base)
    {
      StepKeepsInv(ceiling, View(), base, Call.Expire(who));
      waitq.Remove(who);
      expired := expired + {who};
    }

    /** The end of z_impl_k_mutex_lock after a timed-out wait */
    method Readjust(me: nat, ghost base: map<nat, int>) returns (code: Code)
      requires Inv(ceiling, View(), base) && Defined(View(), Call.Readjust(me))
      modifies this
      ensures (View(), code) == Step(ceiling, old(View()), Call.Readjust(me)) && Inv(ceiling, View(), base)
    {
      StepKeepsInv(ceiling, View(), base, Call.Readjust(me));
      var waiter := waitq.Best();
      var prio := match waiter
        case None => ownerOrigPrio
        case Some(t) => ForInheritance(ceiling, t.prio, ownerOrigPrio);
      var _ := AdjustOwnerPrio(prio);
      expired := expired - {me};
      return TimedOut;
    }

    /** z_impl_k_mutex_unlock */
    method Unlock(me: nat, ghost base: map<nat, int>) returns (code: Code)
      requires Inv(ceiling, View(), base) && Allowed(View(), Call.Unlock(me))
      modifies this, waitq
      ensures (View(), code) == Step(ceiling, old(View()), Call.Unlock(me)) && Inv(ceiling, View(), base)
    {
      StepKeepsInv(ceiling, View(), base, Call.Unlock(me));
      if owner.None? {
        return NotLocked;
      }
      if owner != Some(me) {
        return NotOwner;
      }
      if lockCount - 1 != 0 {
        lockCount := lockCount - 1;
        return Ok;
      }
      var _ := AdjustOwnerPrio(ownerOrigPrio);
      var head := waitq.Best();
      match head {
        case None =>
          owner, lockCount := None, 0;
        case Some(next) =>
          waitq.Remove(next.id);
          owner, ownerOrigPrio := Some(next.id), prios[next.id];
      }
      return Ok;
    }
  }
}
