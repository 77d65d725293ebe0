/** What a caller of k_poll is told, and what each step of the call does to its events and to others. */
module PollOutcomes {
  import opened Polls

  /** A call begins with the events it was given, none of them hooked or registered, and polls. */
  lemma {:induction false} BeginEffect(s: State, id: nat, prio: int, events: seq<Event>, noWait: bool)
    requires Inv(s) && Allowed(s, Begin(id, prio, events, noWait))
    ensures var r := Step(s, Begin(id, prio, events, noWait));
            && r == s.(calls := r.calls) && r.calls == s.calls[id := r.calls[id]]
            && r.calls[id].events == events && r.calls[id].prio == prio && r.calls[id].noWait == noWait
            && r.calls[id].registered == 0 && r.calls[id].isPolling && r.calls[id].phase == Registering(0)
  {
  }

  // ----- Registration ---------------------------------------------------------------------

  /**
   An event whose object's condition is met is ready and ends the polling; otherwise it is hooked
   if the call may wait and polls still. No other event and no other call changes.
   */
  lemma {:induction false} RegisterEffect(s: State, id: nat)
    requires Inv(s) && Allowed(s, Register(id))
    ensures var c := s.calls[id];
            var r := Step(s, Register(id));
            var k := c.phase.next;
            var met := c.events[k].target.On? && c.events[k].target.obj in s.met;
            && r.calls == s.calls[id := r.calls[id]] && r.met == s.met
            && r.calls[id].phase == Registering(k + 1) && |r.calls[id].events| == |c.events|
            && (forall j | 0 <= j < |c.events| && j != k :: r.calls[id].events[j] == c.events[j])
            && (met ==> r.calls[id].events[k].ready && r.calls[id].events[k].news && !r.calls[id].isPolling)
            && (!met ==> r.calls[id].events[k].ready == c.events[k].ready && r.calls[id].isPolling == c.isPolling)
            && (r.calls[id].events[k].hooked <==> !met && !c.noWait && c.isPolling)
            && r.calls[id].registered == c.registered + if !met && !c.noWait && c.isPolling then 1 else 0
  {
    assert CallOk(s.calls[id]);
    hide AllLinked, ListsOk, CallsOk;
  }

  // ----- The decision ---------------------------------------------------------------------

  /**
   A call that has come to the end of its events stops if one of them became ready, with 0; it
   returns -EAGAIN if none did and it may not wait, and sleeps otherwise.
   */
  lemma {:induction false} DecideEffect(s: State, id: nat)
    requires Inv(s) && Allowed(s, Decide(id))
    ensures var c := s.calls[id];
            var r := Step(s, Decide(id));
            && r == s.(calls := s.calls[id := c.(phase := r.calls[id].phase, isPolling := false)])
            && r.calls[id].phase ==
               (if SomeReady(c.events) then Clearing(c.registered, Ok)
                else if c.noWait then Done(Again) else Asleep)
  {
    assert CallOk(s.calls[id]);
    hide SomeReady, AllLinked, ListsOk, CallsOk;
  }

  /** A call that has its answer keeps it. */
  predicate Answered(c: Call, code: Code) {
    (c.phase.Clearing? && c.phase.code == code) || c.phase == Done(code)
  }

  predicate NoneBegins(ops: seq<Op>, id: nat) {
    forall i | 0 <= i < |ops| && ops[i].Begin? :: ops[i].id != id
  }

  lemma {:induction false} StepKeepsAnswer(s: State, op: Op, id: nat, code: Code)
    requires Allowed(s, op) && id in s.calls && Answered(s.calls[id], code) && (op.Begin? ==> op.id != id)
    ensures id in Step(s, op).calls && Answered(Step(s, op).calls[id], code)
  {
  }

  lemma {:induction false} RunKeepsAnswer(s: State, ops: seq<Op>, r: State, id: nat, code: Code)
    requires Runs(s, ops, r) && NoneBegins(ops, id) && id in s.calls && Answered(s.calls[id], code)
    ensures id in r.calls && Answered(r.calls[id], code)
    decreases |ops|
  {
    hide Step, Answered;
    if ops != [] {
      StepKeepsAnswer(s, ops[0], id, code);
      RunKeepsAnswer(Step(s, ops[0]), ops[1..], r, id, code);
    }
  }

  /** Whatever happens meanwhile, a call that leaves registration with a ready event returns 0, and nothing else. */
  lemma {:induction false} ReadyReturnsZero(s: State, ops: seq<Op>, r: State, id: nat)
    requires Inv(s) && Allowed(s, Decide(id)) && SomeReady(s.calls[id].events)
    requires Runs(Step(s, Decide(id)), ops, r) && NoneBegins(ops, id)
    ensures id in r.calls && (r.calls[id].phase.Done? ==> r.calls[id].phase.code == Ok)
  {
    DecideEffect(s, id);
    hide Inv, Step, SomeReady;
    RunKeepsAnswer(Step(s, Decide(id)), ops, r, id, Ok);
  }

  /** A call whose timeout strikes while it sleeps returns -EAGAIN, whatever is signalled while it clears up. */
  lemma {:induction false} TimeoutReturnsAgain(s: State, ops: seq<Op>, r: State, id: nat)
    requires Inv(s) && Allowed(s, Timeout(id)) && Runs(Step(s, Timeout(id)), ops, r) && NoneBegins(ops, id)
    ensures Step(s, Timeout(id)) == s.(calls := s.calls[id := Step(s, Timeout(id)).calls[id]])
    ensures Step(s, Timeout(id)).calls[id].phase == Clearing(|s.calls[id].events|, Again)
    ensures id in r.calls && (r.calls[id].phase.Done? ==> r.calls[id].phase.code == Again)
  {
    assert CallOk(s.calls[id]);
    RunKeepsAnswer(Step(s, Timeout(id)), ops, r, id, Again);
    hide Inv;
  }

  // ----- Clearing and signalling ----------------------------------------------------------

  /** One round of clearing unhooks the last event left, which is then on no list; the last round returns. */
  lemma {:induction false} ClearEffect(s: State, id: nat)
    requires Inv(s) && Allowed(s, Clear(id))
    ensures var c := s.calls[id];
            var r := Step(s, Clear(id));
            && r.calls == s.calls[id := r.calls[id]] && r.met == s.met
            && (c.phase.left == 0 ==> r == s.(calls := s.calls[id := c.(phase := Done(c.phase.code))]))
            && (c.phase.left > 0 ==>
                  var k := c.phase.left - 1;
                  && r.calls[id].phase == Clearing(k, c.phase.code) && !r.calls[id].events[k].hooked
                  && r.calls[id].events[k].ready == c.events[k].ready
                  && (c.events[k].target.On? ==> Unlisted(ListOf(r.lists, c.events[k].target.obj), id, k)))
  {
    assert CallOk(s.calls[id]);
    if s.calls[id].phase.left > 0 {
      var k := s.calls[id].phase.left - 1;
      if s.calls[id].events[k].target.On? {
        var obj := s.calls[id].events[k].target.obj;
        assert ListOk(s.calls, obj, ListOf(s.lists, obj));
        UnlinkedListOk(s.calls, obj, ListOf(s.lists, obj), id, k);
      }
    }
    hide AllLinked, ListsOk, CallsOk, ListOk;
  }

  /** A signal is told to the first event on the object's list and to no other, and takes it off. */
  lemma {:induction false} SignalTellsOne(s: State, obj: nat, cancelled: bool)
    requires Inv(s)
    ensures FirstThere(s, obj)
    ensures var list := ListOf(s.lists, obj);
            var r := Step(s, Signal(obj, cancelled));
            && (obj in r.met <==> obj in s.met || !cancelled)
            && (list == [] ==> r.calls == s.calls && r.lists == s.lists)
            && (list != [] ==>
                  && ListOf(r.lists, obj) == list[1..]
                  && r.calls == s.calls[list[0].id := r.calls[list[0].id]]
                  && forall j | 0 <= j < |s.calls[list[0].id].events| && j != list[0].data ::
                       r.calls[list[0].id].events[j] == s.calls[list[0].id].events[j])
  {
    SignalsFindPollers(s, obj);
    hide Inv;
  }
}
