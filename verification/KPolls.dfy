/** The polling subsystem's records as its critical sections update them. */
module KPolls {
  import opened WaitQueues
  import opened Polls
  import PollOutcomes

  /** add_event, with its shortcut for an event that belongs at the end */
  method AddEvent(list: seq<Ref>, event: Ref) returns (r: seq<Ref>)
    requires InListOrder(list)
    ensures r == Insert(list, event)
  {
    if list == [] || list[|list| - 1].prio < event.prio {
      LastInserts(list, event);
      return list + [event];
    }
    var i := 0;
    while i < |list|
      invariant 0 <= i <= |list|
      invariant list[..i] + Insert(list[i..], event) == Insert(list, event)
    {
      if event.prio < list[i].prio {
        assert list[..i] + ([event] + list[i..]) == list[..i] + [event] + list[i..];
        return list[..i] + [event] + list[i..];
      }
      InsertPast(list, i, event);
      i := i + 1;
    }
    r := list + [event];
  }

  lemma {:induction false} InsertPast(list: seq<Ref>, i: nat, event: Ref)
    requires i < |list| && list[i].prio <= event.prio
    ensures list[..i] + Insert(list[i..], event) == list[..i + 1] + Insert(list[i + 1..], event)
  {
    assert list[i..][1..] == list[i + 1..];
    assert Insert(list[i..], event) == [list[i]] + Insert(list[i + 1..], event);
    hide Insert;
    assert list[..i] + [list[i]] == list[..i + 1];
  }

  lemma {:induction false} LastInserts(list: seq<Ref>, event: Ref)
    requires InListOrder(list) && (list != [] ==> list[|list| - 1].prio < event.prio)
    ensures Insert(list, event) == list + [event]
  {
    if list != [] {
      assert list[0].prio <= list[|list| - 1].prio;
      LastInserts(list[1..], event);
    }
  }

  lemma {:induction false} UnlinkedPast(list: seq<Ref>, i: nat, id: nat, k: nat)
    requires i < |list| && (list[i].id != id || list[i].data != k)
    ensures list[..i] + Unlinked(list[i..], id, k) == list[..i + 1] + Unlinked(list[i + 1..], id, k)
  {
    assert list[i..][1..] == list[i + 1..];
    assert Unlinked(list[i..], id, k) == [list[i]] + Unlinked(list[i + 1..], id, k);
    hide Unlinked;
    assert list[..i] + [list[i]] == list[..i + 1];
  }

  /** sys_dlist_remove of an event's node, if it is linked */
  method RemoveEvent(list: seq<Ref>, id: nat, k: nat) returns (r: seq<Ref>)
    ensures r == Unlinked(list, id, k)
  {
    var i := 0;
    while i < |list| && (list[i].id != id || list[i].data != k)
      invariant 0 <= i <= |list|
      invariant list[..i] + Unlinked(list[i..], id, k) == Unlinked(list, id, k)
    {
      UnlinkedPast(list, i, id, k);
      i := i + 1;
    }
    if i < |list| {
      assert list[i..][1..] == list[i + 1..];
      r := list[..i] + list[i + 1..];
    } else {
      r := list;
    }
  }

  class PollTable {
    var calls: map<nat, Call>
    var lists: map<nat, seq<Ref>>
    var met: set<nat>

    ghost function View(): State
      reads this
    {
      State(calls, lists, met)
    }

    constructor ()
      ensures View() == Idle && Inv(View())
    {
      calls, lists, met := map[], map[], {};
    }

    /** The start of z_impl_k_poll */
    method Begin(id: nat, prio: int, events: seq<Event>, noWait: bool)
      requires Inv(View()) && Allowed(View(), Op.Begin(id, prio, events, noWait))
      modifies this
      ensures View() == Step(old(View()), Op.Begin(id, prio, events, noWait)) && Inv(View())
    {
      StepKeepsInv(View(), Op.Begin(id, prio, events, noWait));
      calls := calls[id := Call(prio, events, noWait, 0, true, Registering(0))];
    }

    /** The critical section of register_events, with is_condition_met and register_event */
    method RegisterNext(id: nat)
      requires Inv(View()) && Allowed(View(), Op.Register(id))
      modifies this
      ensures View() == Step(old(View()), Op.Register(id)) && Inv(View())
    {
      StepKeepsInv(View(), Op.Register(id));
      ghost var s := View();
      var c := calls[id];
      var k := c.phase.next;
      var event := c.events[k];
      c := c.(phase := Registering(k + 1));
      if event.target.On? && event.target.obj in met {
        c := c.(isPolling := false, events := c.events[k := event.(hooked := false, ready := true, news := true)]);
      } else if !c.noWait && c.isPolling {
        c := c.(registered := c.registered + 1, events := c.events[k := event.(hooked := true)]);
        if event.target.On? {
          var obj := event.target.obj;
          assert ListOk(s.calls, obj, ListOf(s.lists, obj));
          var list := AddEvent(ListOf(lists, obj), Waiter(id, c.prio, k));
          lists := lists[obj := list];
        }
      }
      hide Inv;
      calls := calls[id := c];
      assert View() == Registered(s, id);
    }

    /** The critical section of z_impl_k_poll after registration */
    method Decide(id: nat)
      requires Inv(View()) && Allowed(View(), Op.Decide(id))
      modifies this
      ensures View() == Step(old(View()), Op.Decide(id)) && Inv(View())
      ensures id in calls && calls[id].events == old(calls[id]).events
      ensures calls[id].phase == if SomeReady(old(calls[id]).events) then Clearing(old(calls[id]).registered, Ok)
                                 else if old(calls[id]).noWait then Done(Again) else Asleep
    {
      StepKeepsInv(View(), Op.Decide(id));
      PollOutcomes.DecideEffect(View(), id);
      var c := calls[id];
      if !c.isPolling {
        c := c.(phase := Clearing(c.registered, Ok));
      } else {
        c := c.(isPolling := false);
        c := c.(phase := if c.noWait then Done(Again) else Asleep);
      }
      calls := calls[id := c];
    }

    /** A sleeping poller's timeout */
    method Expire(id: nat)
      requires Inv(View()) && Allowed(View(), Op.Timeout(id))
      modifies this
      ensures View() == Step(old(View()), Op.Timeout(id)) && Inv(View())
    {
      StepKeepsInv(View(), Op.Timeout(id));
      calls := calls[id := calls[id].(phase := Clearing(calls[id].registered, Again))];
    }

    /** The critical section of clear_event_registrations */
    method ClearNext(id: nat)
      requires Inv(View()) && Allowed(View(), Op.Clear(id))
      modifies this
      ensures View() == Step(old(View()), Op.Clear(id)) && Inv(View())
    {
      StepKeepsInv(View(), Op.Clear(id));
      hide Inv;
      ghost var s := View();
      var c := calls[id];
      if c.phase.left == 0 {
        calls := calls[id := c.(phase := Done(c.phase.code))];
      } else {
        var k := c.phase.left - 1;
        var event := c.events[k];
        if event.target.On? {
          var list := RemoveEvent(ListOf(lists, event.target.obj), id, k);
          lists := lists[event.target.obj := list];
        }
        calls := calls[id := c.(phase := Clearing(k, c.phase.code), events := c.events[k := event.(hooked := false)])];
      }
      assert View() == Cleared(s, id);
    }

    /** z_handle_obj_poll_events, or k_poll_signal_raise, with signal_poll_event */
    method Raise(obj: nat, cancelled: bool)
      requires Inv(View())
      modifies this
      ensures FirstThere(old(View()), obj)
      ensures View() == Step(old(View()), Signal(obj, cancelled)) && Inv(View())
    {
      SignalsFindPollers(View(), obj);
      StepKeepsInv(View(), Signal(obj, cancelled));
      hide Inv;
      ghost var s := View();
      if !cancelled {
        met := met + {obj};
      }
      var list := ListOf(lists, obj);
      if list != [] {
        var first := list[0];
        lists := lists[obj := list[1..]];
        var c := calls[first.id];
        if c.phase.Asleep? {
          c := c.(phase := Clearing(c.registered, if cancelled then Interrupted else Ok));
        }
        c := c.(isPolling := false);
        var event := c.events[first.data];
        c := c.(events := c.events[first.data := event.(hooked := false, ready := true, news := true)]);
        calls := calls[first.id := c];
      }
      assert View() == Raised(s, obj, cancelled);
    }
  }
}
