/**
 Priority-inheriting mutexes (kernel/mutex.c). A smaller number is a higher priority. The end of
 k_mutex_lock after a timed-out wait runs some time after the timeout itself, so the two are
 separate steps.
 */
module Mutexes {
  import opened RunQueues
  import opened Seqs

  /** `expired` holds the threads whose wait timed out and that have yet to readjust the owner. */
  datatype Mutex = Mutex(owner: Option<nat>, count: nat, orig: int, waiters: seq<Thread>,
                         prios: map<nat, int>, expired: set<nat>)

  datatype Code = Ok | Busy | Pending | NotLocked | NotOwner | TimedOut

  function Higher(a: int, b: int): int {
    if a < b then a else b
  }

  /** z_get_new_prio_with_ceiling */
  function UnderCeiling(ceiling: int, prio: int): int {
    if prio >= ceiling then prio else ceiling
  }

  /** new_prio_for_inheritance */
  function ForInheritance(ceiling: int, target: int, limit: int): int {
    UnderCeiling(ceiling, Higher(target, limit))
  }

  // ----- Calls ----------------------------------------------------------------------------

  datatype Call = Lock(who: nat, wait: bool) | Unlock(who: nat) | Expire(who: nat) | Readjust(who: nat)

  predicate Waits(m: Mutex, t: nat) {
    HasId(m.waiters, t)
  }

  /** Calls come from threads that are running; timeouts hit threads that wait. */
  predicate Allowed(m: Mutex, call: Call) {
    call.who in m.prios &&
    match call
    case Lock(t, _) => !Waits(m, t) && t !in m.expired
    case Unlock(t) => !Waits(m, t) && t !in m.expired
    case Expire(t) => Waits(m, t)
    case Readjust(t) => t in m.expired
  }

  /** The readjustment reads the owner's priority without looking whether there is an owner. */
  predicate Faults(m: Mutex, call: Call) {
    call.Readjust? && m.owner.None?
  }

  predicate Defined(m: Mutex, call: Call) {
    && Allowed(m, call) && !Faults(m, call)
    && (m.count == 0 <==> m.owner.None?) && (m.owner.Some? ==> m.owner.value in m.prios)
  }

  function OwnerPrio(m: Mutex): int
    requires m.owner.Some? && m.owner.value in m.prios
  {
    m.prios[m.owner.value]
  }

  function SetOwnerPrio(m: Mutex, prio: int): Mutex
    requires m.owner.Some?
  {
    m.(prios := m.prios[m.owner.value := prio])
  }

  function Step(ceiling: int, m: Mutex, call: Call): (Mutex, Code)
    requires Defined(m, call)
  {
    match call
    case Lock(t, wait) =>
      if m.count == 0 || m.owner == Some(t) then
        (m.(owner := Some(t), count := m.count + 1, orig := if m.count == 0 then m.prios[t] else m.orig), Ok)
      else if !wait then
        (m, Busy)
      else
        var prio := ForInheritance(ceiling, m.prios[t], OwnerPrio(m));
        var m' := if prio < OwnerPrio(m) then SetOwnerPrio(m, prio) else m;
        (m'.(waiters := DumbAdd(m.waiters, Thread(t, m.prios[t]))), Pending)
    case Unlock(t) =>
      if m.owner.None? then (m, NotLocked)
      else if m.owner != Some(t) then (m, NotOwner)
      else if m.count != 1 then (m.(count := m.count - 1), Ok)
      else
        var m' := SetOwnerPrio(m, m.orig);
        if m.waiters == [] then (m'.(owner := None, count := 0), Ok)
        else (m'.(owner := Some(m.waiters[0].id), waiters := m.waiters[1..], orig := m.waiters[0].prio), Ok)
    case Expire(t) =>
      (m.(waiters := DumbRemove(m.waiters, t), expired := m.expired + {t}), Pending)
    case Readjust(t) =>
      var prio := if m.waiters == [] then m.orig else ForInheritance(ceiling, m.waiters[0].prio, m.orig);
      (SetOwnerPrio(m, prio).(expired := m.expired - {t}), TimedOut)
  }

  // ----- What every step keeps ------------------------------------------------------------

  /** The higher of the owner's own priority and its best waiter's, the latter cut at the ceiling. */
  function Boosted(ceiling: int, m: Mutex): int {
    if m.waiters == [] then m.orig else Higher(m.orig, UnderCeiling(ceiling, m.waiters[0].prio))
  }

  /** Waiters are queued once, by priority, at the priority they came with; the owner is not one. */
  ghost predicate WaitersOk(m: Mutex, base: map<nat, int>) {
    && DistinctIds(m.waiters) && SortedByPrio(m.waiters)
    && (forall i | 0 <= i < |m.waiters| ::
          && m.waiters[i].id in base && m.waiters[i].prio == base[m.waiters[i].id]
          && m.owner != Some(m.waiters[i].id) && m.waiters[i].id !in m.expired)
  }

  /** Nobody but the owner runs at a priority other than its own, and the owner's own is saved. */
  ghost predicate OnlyOwnerBoosted(m: Mutex, base: map<nat, int>) {
    && m.prios.Keys == base.Keys
    && (forall t | t in base :: m.owner == Some(t) || m.prios[t] == base[t])
    && (m.owner.Some? ==> m.owner.value in base && m.orig == base[m.owner.value])
  }

  /** The owner's priority is inherited from its best waiter, or stale until readjusted. */
  predicate Inherits(ceiling: int, m: Mutex)
    requires m.owner.Some? ==> m.owner.value in m.prios
  {
    m.owner.Some? && m.orig >= ceiling ==>
      && OwnerPrio(m) <= Boosted(ceiling, m)
      && (m.expired == {} ==> OwnerPrio(m) == Boosted(ceiling, m))
  }

  ghost predicate Inv(ceiling: int, m: Mutex, base: map<nat, int>) {
    && (m.count == 0 <==> m.owner.None?)
    && (m.waiters != [] ==> m.owner.Some?)
    && m.expired <= base.Keys
    && (m.owner.Some? ==> m.owner.value !in m.expired)
    && WaitersOk(m, base)
    && OnlyOwnerBoosted(m, base)
    && Inherits(ceiling, m)
  }

  lemma {:induction false} LockKeepsInv(ceiling: int, m: Mutex, base: map<nat, int>, t: nat, wait: bool)
    requires Inv(ceiling, m, base) && Allowed(m, Lock(t, wait))
    ensures Inv(ceiling, Step(ceiling, m, Lock(t, wait)).0, base)
  {
    if m.count != 0 && m.owner != Some(t) && wait {
      var th := Thread(t, m.prios[t]);
      DumbAddDistinct(m.waiters, th);
      AddSorted(m.waiters, th);
      DumbAddMembers(m.waiters, th);
    }
  }

  lemma {:induction false} UnlockKeepsInv(ceiling: int, m: Mutex, base: map<nat, int>, t: nat)
    requires Inv(ceiling, m, base) && Allowed(m, Unlock(t))
    ensures Inv(ceiling, Step(ceiling, m, Unlock(t)).0, base)
  {
  }

  lemma {:induction false} ExpireKeepsInv(ceiling: int, m: Mutex, base: map<nat, int>, t: nat)
    requires Inv(ceiling, m, base) && Allowed(m, Expire(t))
    ensures Inv(ceiling, Step(ceiling, m, Expire(t)).0, base)
  {
    DumbRemoveMembers(m.waiters, t);
    DumbRemoveDistinct(m.waiters, t);
    RemoveSorted(m.waiters, t);
    var rest := DumbRemove(m.waiters, t);
    forall i | 0 <= i < |rest| ensures rest[i].id in base && rest[i].prio == base[rest[i].id]
                                       && m.owner != Some(rest[i].id) && rest[i].id !in m.expired + {t} {
      assert rest[i] in m.waiters;
    }
    if rest != [] {
      assert rest[0] in m.waiters;
      assert m.waiters[0].prio <= rest[0].prio;
    }
  }

  lemma {:induction false} ReadjustKeepsInv(ceiling: int, m: Mutex, base: map<nat, int>, t: nat)
    requires Inv(ceiling, m, base) && Defined(m, Readjust(t))
    ensures Inv(ceiling, Step(ceiling, m, Readjust(t)).0, base)
  {
  }

  lemma {:induction false} StepKeepsInv(ceiling: int, m: Mutex, base: map<nat, int>, call: Call)
    requires Inv(ceiling, m, base) && Defined(m, call)
    ensures Inv(ceiling, Step(ceiling, m, call).0, base)
  {
    hide Inv, Step;
    match call
    case Lock(t, wait) => LockKeepsInv(ceiling, m, base, t, wait);
    case Unlock(t) => UnlockKeepsInv(ceiling, m, base, t);
    case Expire(t) => ExpireKeepsInv(ceiling, m, base, t);
    case Readjust(t) => ReadjustKeepsInv(ceiling, m, base, t);
  }

  // ----- Every run ------------------------------------------------------------------------

  ghost predicate Runs(ceiling: int, from: Mutex, calls: seq<Call>, to: Mutex)
    decreases |calls|
  {
    if calls == [] then to == from
    else Defined(from, calls[0]) && Runs(ceiling, Step(ceiling, from, calls[0]).0, calls[1..], to)
  }

  function Fresh(base: map<nat, int>): Mutex {
    Mutex(None, 0, 0, [], base, {})
  }

  lemma {:induction false} FreshInv(ceiling: int, base: map<nat, int>)
    ensures Inv(ceiling, Fresh(base), base)
  {
  }

  /**
   Whatever threads do, the mutex is counted as locked exactly while it has an owner, nobody else
   is boosted, and an owner whose own priority is within the ceiling runs at exactly the higher of
   that and its best waiter's whenever no timed-out waiter has yet to readjust it.
   */
  lemma {:induction false} EveryRun(ceiling: int, from: Mutex, base: map<nat, int>, calls: seq<Call>, to: Mutex)
    requires Inv(ceiling, from, base) && Runs(ceiling, from, calls, to)
    ensures Inv(ceiling, to, base)
    decreases |calls|
  {
    hide Inv, Step;
    if calls != [] {
      StepKeepsInv(ceiling, from, base, calls[0]);
      EveryRun(ceiling, Step(ceiling, from, calls[0]).0, base, calls[1..], to);
    }
  }

  /** An owner within the ceiling is never outranked by a waiter whose priority is within it too. */
  lemma {:induction false} NoInversion(ceiling: int, m: Mutex, base: map<nat, int>, i: nat)
    requires Inv(ceiling, m, base) && i < |m.waiters| && m.orig >= ceiling
    ensures OwnerPrio(m) <= UnderCeiling(ceiling, m.waiters[i].prio)
  {
  }

  /** Giving the mutex up returns the thread to the priority it had before it first locked it. */
  lemma {:induction false} ReleaseRestores(ceiling: int, m: Mutex, base: map<nat, int>, t: nat)
    requires Inv(ceiling, m, base) && Allowed(m, Unlock(t)) && m.owner == Some(t)
    ensures Step(ceiling, m, Unlock(t)).0.owner != Some(t) <==> m.count == 1
    ensures m.count == 1 ==> Step(ceiling, m, Unlock(t)).0.prios[t] == base[t]
  {
  }

  /** The mutex goes to a waiter of the highest priority, and stays locked while anybody waits. */
  lemma {:induction false} HandedToBest(ceiling: int, m: Mutex, base: map<nat, int>, t: nat, i: nat)
    requires Inv(ceiling, m, base) && Allowed(m, Unlock(t)) && m.owner == Some(t) && m.count == 1
    requires i < |m.waiters|
    ensures var m' := Step(ceiling, m, Unlock(t)).0;
            m'.owner.Some? && m'.count == 1 && base[m'.owner.value] <= m.waiters[i].prio
  {
  }

  /** A timeout whose readjustment follows at once. */
  function StepAtOnce(ceiling: int, m: Mutex, base: map<nat, int>, call: Call): Mutex
    requires Inv(ceiling, m, base) && Allowed(m, call)
    requires !call.Readjust?
  {
    if call.Expire? then
      assert m.waiters != [];
      Step(ceiling, Step(ceiling, m, call).0, Readjust(call.who)).0
    else Step(ceiling, m, call).0
  }

  /** With timeouts readjusted at once, the owner's priority is exact after every step. */
  lemma {:induction false} ExactAtOnce(ceiling: int, m: Mutex, base: map<nat, int>, call: Call)
    requires Inv(ceiling, m, base) && Allowed(m, call) && !call.Readjust? && m.expired == {}
    ensures Inv(ceiling, StepAtOnce(ceiling, m, base, call), base)
    ensures StepAtOnce(ceiling, m, base, call).expired == {}
    ensures var m' := StepAtOnce(ceiling, m, base, call);
            m'.owner.Some? && m'.orig >= ceiling ==> OwnerPrio(m') == Boosted(ceiling, m')
  {
    if call.Expire? {
      assert m.waiters != [];
      StepKeepsInv(ceiling, m, base, call);
      StepKeepsInv(ceiling, Step(ceiling, m, call).0, base, Readjust(call.who));
    } else {
      StepKeepsInv(ceiling, m, base, call);
    }
  }

  /** An unlock undoes a nested lock, and an uncontended lock leaves no trace when it is undone. */
  lemma {:induction false} UnlockUndoesLock(ceiling: int, m: Mutex, base: map<nat, int>, t: nat, wait: bool)
    requires Inv(ceiling, m, base) && Allowed(m, Lock(t, wait)) && (m.owner == Some(t) || m.owner == None)
    ensures var m' := Step(ceiling, Step(ceiling, m, Lock(t, wait)).0, Unlock(t)).0;
            m' == m.(orig := m'.orig) && (m.owner == Some(t) ==> m' == m)
  {
    assert m.owner == None ==> m.prios[t := base[t]] == m.prios;
  }

  /** A thread that waits and times out leaves the queue as it was. */
  lemma {:induction false} TimeoutUndoesWait(ceiling: int, m: Mutex, base: map<nat, int>, t: nat)
    requires Inv(ceiling, m, base) && Allowed(m, Lock(t, true)) && m.owner.Some? && m.owner != Some(t)
    ensures Allowed(Step(ceiling, m, Lock(t, true)).0, Expire(t))
    ensures Step(ceiling, Step(ceiling, m, Lock(t, true)).0, Expire(t)).0.waiters == m.waiters
  {
    AddHas(m.waiters, Thread(t, m.prios[t]), t);
    RemoveAdded(m.waiters, Thread(t, m.prios[t]));
  }

  lemma {:induction false} RemoveAdded(q: seq<Thread>, t: Thread)
    requires !HasId(q, t.id)
    ensures DumbRemove(DumbAdd(q, t), t.id) == q
  {
    if q != [] && t.prio >= q[0].prio {
      assert q == [q[0]] + q[1..];
      HasCons(q[0], q[1..], t.id);
      RemoveAdded(q[1..], t);
    }
  }

  // ----- Where the code falls short -------------------------------------------------------

  /** No timed-out waiter can find the mutex without an owner. */
  predicate Safe(m: Mutex) {
    m.expired != {} ==> m.owner.Some?
  }

  /** The last release of an uncontended mutex while a timed-out waiter has yet to readjust. */
  predicate StrandsExpired(m: Mutex, call: Call) {
    call.Unlock? && m.owner == Some(call.who) && m.count == 1 && m.waiters == [] && m.expired != {}
  }

  /** A step leaves every pending readjustment safe exactly when it is not such a release. */
  lemma {:induction false} SafeUnlessStranded(ceiling: int, m: Mutex, base: map<nat, int>, call: Call)
    requires Inv(ceiling, m, base) && Allowed(m, call) && Safe(m)
    ensures !Faults(m, call)
    ensures Safe(Step(ceiling, m, call).0) <==> !StrandsExpired(m, call)
  {
  }

  /** Two threads suffice: the wait of one times out just before the other gives the mutex up. */
  lemma {:induction false} ReadjustCanFault(ceiling: int, base: map<nat, int>)
    requires 0 in base && 1 in base
    ensures exists m :: Runs(ceiling, Fresh(base), [Lock(0, true), Lock(1, true), Expire(1), Unlock(0)], m)
                        && Allowed(m, Readjust(1)) && Faults(m, Readjust(1))
  {
    var m0 := Fresh(base);
    var m1 := Step(ceiling, m0, Lock(0, true)).0;
    assert m1.waiters == [] && m1.owner == Some(0) && m1.count == 1;
    var m2 := Step(ceiling, m1, Lock(1, true)).0;
    assert m2.waiters == [Thread(1, base[1])];
    assert m2.waiters[0].id == 1;
    var m3 := Step(ceiling, m2, Expire(1)).0;
    assert m3.waiters == [] && m3.expired == {1};
    var m4 := Step(ceiling, m3, Unlock(0)).0;
    RunsFour(ceiling, m0, m1, m2, m3, m4, Lock(0, true), Lock(1, true), Expire(1), Unlock(0));
  }

  lemma {:induction false} RunsFour(ceiling: int, m0: Mutex, m1: Mutex, m2: Mutex, m3: Mutex, m4: Mutex,
                                    a: Call, b: Call, c: Call, d: Call)
    requires Defined(m0, a) && Step(ceiling, m0, a).0 == m1
    requires Defined(m1, b) && Step(ceiling, m1, b).0 == m2
    requires Defined(m2, c) && Step(ceiling, m2, c).0 == m3
    requires Defined(m3, d) && Step(ceiling, m3, d).0 == m4
    ensures Runs(ceiling, m0, [a, b, c, d], m4)
  {
    hide Step, Defined;
    assert [a, b, c, d][1..] == [b, c, d] && [b, c, d][1..] == [c, d] && [c, d][1..] == [d] && [d][1..] == [];
    assert Runs(ceiling, m3, [d], m4);
    assert Runs(ceiling, m2, [c, d], m4);
    assert Runs(ceiling, m1, [b, c, d], m4);
  }

  /**
   Readjusting never leaves the owner below its own priority exactly when nobody waits or that
   priority is within the ceiling; otherwise the owner drops to the ceiling.
   */
  lemma {:induction false} ReadjustDemotes(ceiling: int, m: Mutex, base: map<nat, int>, t: nat)
    requires Inv(ceiling, m, base) && Defined(m, Readjust(t))
    ensures OwnerPrio(Step(ceiling, m, Readjust(t)).0) <= base[m.owner.value] <==>
            m.waiters == [] || base[m.owner.value] >= ceiling
    ensures OwnerPrio(Step(ceiling, m, Readjust(t)).0) ==
            if m.waiters != [] && base[m.owner.value] < ceiling then ceiling else Boosted(ceiling, m)
  {
  }

  /** Such a demotion is reached by three threads when one has a priority above the ceiling. */
  lemma {:induction false} DemotionHappens(ceiling: int, base: map<nat, int>)
    requires 0 in base && 1 in base && 2 in base && base[0] < ceiling
    ensures exists m :: Runs(ceiling, Fresh(base), [Lock(0, true), Lock(1, true), Lock(2, true), Expire(2)], m)
                        && Defined(m, Readjust(2)) && Step(ceiling, m, Readjust(2)).0.prios[0] > base[0]
  {
    var m0 := Fresh(base);
    var m1 := Step(ceiling, m0, Lock(0, true)).0;
    var m2 := Step(ceiling, m1, Lock(1, true)).0;
    assert m2.waiters == [Thread(1, base[1])];
    var m3 := Step(ceiling, m2, Lock(2, true)).0;
    FreshInv(ceiling, base);
    StepKeepsInv(ceiling, m0, base, Lock(0, true));
    StepKeepsInv(ceiling, m1, base, Lock(1, true));
    StepKeepsInv(ceiling, m2, base, Lock(2, true));
    AddHas(m2.waiters, Thread(2, base[2]), 2);
    AddHas(m2.waiters, Thread(2, base[2]), 1);
    var m4 := Step(ceiling, m3, Expire(2)).0;
    StepKeepsInv(ceiling, m3, base, Expire(2));
    RemoveHas(m3.waiters, 2, 1);
    assert m4.owner == Some(0) && m4.waiters != [] && m4.expired == {2};
    RunsFour(ceiling, m0, m1, m2, m3, m4, Lock(0, true), Lock(1, true), Lock(2, true), Expire(2));
    ReadjustDemotes(ceiling, m4, base, 2);
  }

  // ----- What callers are told ------------------------------------------------------------

  /**
   A lock succeeds exactly when nobody or the caller owns the mutex, and then the caller owns it,
   once more; otherwise it is refused with -EBUSY, or waits at its own priority and lends that, cut
   at the ceiling, to an owner below it.
   */
  lemma {:induction false} LockOutcome(ceiling: int, m: Mutex, base: map<nat, int>, t: nat, wait: bool)
    requires Inv(ceiling, m, base) && Defined(m, Lock(t, wait))
    ensures var (m', code) := Step(ceiling, m, Lock(t, wait));
            var free := m.owner == None || m.owner == Some(t);
            && (code == Ok <==> free) && (code == Ok <==> m'.owner == Some(t))
            && (free ==> m'.count == m.count + 1 && m'.waiters == m.waiters && m'.prios == m.prios)
            && (!free && !wait ==> code == Busy && m' == m)
            && (!free && wait ==>
                  && code == Pending && m'.owner == m.owner && m'.count == m.count
                  && JoinsLast(m.waiters, m'.waiters, Thread(t, m.prios[t]))
                  && var theirs := if m.prios[t] < ceiling then ceiling else m.prios[t];
                     m'.prios == if theirs < m.prios[m.owner.value] then m.prios[m.owner.value := theirs] else m.prios)
            && m'.expired == m.expired
  {
    AddJoinsLast(m.waiters, Thread(t, m.prios[t]));
    hide JoinsLast, Inherits;
  }

  /** An unlock is refused with -EINVAL without an owner and with -EPERM to others; a nested one only counts down. */
  lemma {:induction false} UnlockOutcome(ceiling: int, m: Mutex, base: map<nat, int>, t: nat)
    requires Inv(ceiling, m, base) && Defined(m, Unlock(t))
    ensures var (m', code) := Step(ceiling, m, Unlock(t));
            && (code == NotLocked <==> m.owner == None) && (code == NotOwner <==> m.owner != None && m.owner != Some(t))
            && (code == Ok <==> m.owner == Some(t)) && (code != Ok ==> m' == m)
            && (code == Ok && m.count > 1 ==> m' == m.(count := m.count - 1))
            && (code == Ok && m.count == 1 && m.waiters == [] ==> m'.owner == None && m'.count == 0)
            && (code == Ok && m.count == 1 && m.waiters != [] ==>
                  m'.owner == Some(m.waiters[0].id) && m'.count == 1 && m'.waiters == m.waiters[1..])
  {
  }

  /** A waiter that times out leaves the queue and, once it has readjusted the owner, returns -EAGAIN. */
  lemma {:induction false} TimeoutOutcome(ceiling: int, m: Mutex, base: map<nat, int>, t: nat)
    requires Inv(ceiling, m, base)
    ensures Defined(m, Expire(t)) ==>
              var m' := Step(ceiling, m, Expire(t)).0;
              && m' == m.(waiters := m'.waiters, expired := m.expired + {t}) && !Waits(m', t)
              && forall x | x != t :: Waits(m', x) <==> Waits(m, x)
    ensures Defined(m, Readjust(t)) ==>
              var (m', code) := Step(ceiling, m, Readjust(t));
              && code == TimedOut && m'.expired == m.expired - {t}
              && m'.owner == m.owner && m'.count == m.count && m'.waiters == m.waiters
  {
    if Defined(m, Expire(t)) {
      DumbRemoveDistinct(m.waiters, t);
      forall x | x != t ensures HasId(DumbRemove(m.waiters, t), x) <==> HasId(m.waiters, x) {
        RemoveHas(m.waiters, t, x);
      }
    }
  }
}
