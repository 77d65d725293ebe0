/**
 Polling (kernel/poll.c) by any number of threads on any number of objects. k_poll drops its
 lock between any two events it registers or clears, so each of those is a step of its own and
 signals may come in between.
 */
module Polls {
  import opened WaitQueues

  datatype Target = Ignore | On(obj: nat)

  /**
   `hooked` stands for a poller pointer that is not NULL, `ready` for a state other than NOT_READY.
   The state may be left over from an earlier call; `news` records that this call set it.
   */
  datatype Event = Event(target: Target, hooked: bool, ready: bool, news: bool)

  datatype Code = Ok | Again | Interrupted

  datatype Phase =
    | Registering(next: nat)
    | Asleep
    | Clearing(left: nat, code: Code)
    | Done(code: Code)

  /** A thread in k_poll; `registered` is the call's `events_registered`. */
  datatype Call = Call(prio: int, events: seq<Event>, noWait: bool, registered: nat, isPolling: bool, phase: Phase)

  /** An entry of an object's `poll_events` list: event `data` of thread `id`. */
  type Ref = Waiter<nat>

  /** `met` holds the objects whose condition is met at the moment. */
  datatype State = State(calls: map<nat, Call>, lists: map<nat, seq<Ref>>, met: set<nat>)

  function ListOf(lists: map<nat, seq<Ref>>, obj: nat): seq<Ref> {
    if obj in lists then lists[obj] else []
  }

  function Unlinked(list: seq<Ref>, id: nat, k: nat): seq<Ref> {
    if list == [] then []
    else if list[0].id == id && list[0].data == k then list[1..]
    else [list[0]] + Unlinked(list[1..], id, k)
  }

  // ----- Steps ----------------------------------------------------------------------------

  datatype Op =
    | Begin(id: nat, prio: int, events: seq<Event>, noWait: bool)
    | Register(id: nat)
    | Decide(id: nat)
    | Timeout(id: nat)
    | Clear(id: nat)
    | Signal(obj: nat, cancelled: bool)
    | Unmeet(obj: nat)

  /** The poller of the first event on a list, which a signal goes to, exists. */
  predicate FirstThere(s: State, obj: nat) {
    var list := ListOf(s.lists, obj);
    list != [] ==> list[0].id in s.calls && list[0].data < |s.calls[list[0].id].events|
  }

  predicate Allowed(s: State, op: Op) {
    match op
    case Begin(id, _, events, _) =>
      && (id in s.calls ==> s.calls[id].phase.Done?)
      && (forall k | 0 <= k < |events| :: !events[k].hooked && !events[k].news)
    case Register(id) =>
      id in s.calls && s.calls[id].phase.Registering? && s.calls[id].phase.next < |s.calls[id].events|
    case Decide(id) =>
      id in s.calls && s.calls[id].phase == Registering(|s.calls[id].events|)
    case Timeout(id) => id in s.calls && s.calls[id].phase.Asleep?
    case Clear(id) => id in s.calls && s.calls[id].phase.Clearing?
                      && s.calls[id].phase.left <= |s.calls[id].events|
    case Signal(obj, _) => FirstThere(s, obj)
    case Unmeet(_) => true
  }

  predicate ConditionMet(s: State, e: Event) {
    e.target.On? && e.target.obj in s.met
  }

  function SetEvent(c: Call, k: nat, hooked: bool, ready: bool): Call
    requires k < |c.events|
  {
    var e := c.events[k];
    c.(events := c.events[k := e.(hooked := hooked, ready := e.ready || ready, news := e.news || ready)])
  }

  /** One round of the loop in register_events */
  function Registered(s: State, id: nat): State
    requires Allowed(s, Register(id))
  {
    var c := s.calls[id];
    var k := c.phase.next;
    var c1 := c.(phase := Registering(k + 1));
    if ConditionMet(s, c.events[k]) then
      s.(calls := s.calls[id := SetEvent(c1, k, false, true).(isPolling := false)])
    else if !c.noWait && c.isPolling then
      var c2 := SetEvent(c1, k, true, false).(registered := c.registered + 1);
      var s1 := s.(calls := s.calls[id := c2]);
      match c.events[k].target
      case Ignore => s1
      case On(obj) => s1.(lists := s.lists[obj := Insert(ListOf(s.lists, obj), Waiter(id, c.prio, k))])
    else s.(calls := s.calls[id := c1])
  }

  /** k_poll between its registration loop and its sleep */
  function Decided(c: Call): Call {
    if !c.isPolling then c.(phase := Clearing(c.registered, Ok))
    else if c.noWait then c.(isPolling := false, phase := Done(Again))
    else c.(isPolling := false, phase := Asleep)
  }

  /** One round of the loop in clear_event_registrations, or the return after the last */
  function Cleared(s: State, id: nat): State
    requires Allowed(s, Clear(id))
  {
    var c := s.calls[id];
    if c.phase.left == 0 then s.(calls := s.calls[id := c.(phase := Done(c.phase.code))])
    else
      var k := c.phase.left - 1;
      var c1 := SetEvent(c, k, false, false).(phase := Clearing(k, c.phase.code));
      var s1 := s.(calls := s.calls[id := c1]);
      match c.events[k].target
      case Ignore => s1
      case On(obj) => s1.(lists := s.lists[obj := Unlinked(ListOf(s.lists, obj), id, k)])
  }

  /** signal_poll_event for a thread that polls, with signal_poller and set_event_ready */
  function Signalled(c: Call, k: nat, cancelled: bool): Call
    requires k < |c.events|
  {
    var c1 := if c.phase.Asleep? then c.(phase := Clearing(c.registered, if cancelled then Interrupted else Ok)) else c;
    SetEvent(c1.(isPolling := false), k, false, true)
  }

  /** z_handle_obj_poll_events and k_poll_signal_raise: only the first event on the list is told. */
  function Raised(s: State, obj: nat, cancelled: bool): State
    requires FirstThere(s, obj)
  {
    var met := if cancelled then s.met else s.met + {obj};
    var list := ListOf(s.lists, obj);
    if list == [] then s.(met := met)
    else
      var r := list[0];
      State(s.calls[r.id := Signalled(s.calls[r.id], r.data, cancelled)], s.lists[obj := list[1..]], met)
  }

  function Step(s: State, op: Op): State
    requires Allowed(s, op)
  {
    match op
    case Begin(id, prio, events, noWait) =>
      s.(calls := s.calls[id := Call(prio, events, noWait, 0, true, Registering(0))])
    case Register(id) => Registered(s, id)
    case Decide(id) => s.(calls := s.calls[id := Decided(s.calls[id])])
    case Timeout(id) => s.(calls := s.calls[id := s.calls[id].(phase := Clearing(s.calls[id].registered, Again))])
    case Clear(id) => Cleared(s, id)
    case Signal(obj, cancelled) => Raised(s, obj, cancelled)
    case Unmeet(obj) => s.(met := s.met - {obj})
  }

  // ----- What every step keeps ------------------------------------------------------------

  /** How many of a call's events, from the first, may be linked. */
  function Bound(c: Call): nat {
    match c.phase
    case Registering(_) => c.registered
    case Asleep => c.registered
    case Clearing(left, _) => left
    case Done(_) => 0
  }

  /** An event has become ready since the call began. */
  predicate SomeReady(events: seq<Event>) {
    exists k :: 0 <= k < |events| && events[k].ready && events[k].news
  }

  predicate AllHooked(events: seq<Event>, n: nat) {
    n <= |events| && forall k | 0 <= k < n :: events[k].hooked
  }

  predicate NoneHookedFrom(events: seq<Event>, n: nat) {
    forall k | n <= k < |events| :: !events[k].hooked
  }

  /**
   A call still polling has registered every event it has come to and none has become ready; a
   call asleep has registered them all and none has become ready; one that stopped polling has an
   event that has, and so has one that returns 0. One that may not wait returns -EAGAIN only
   without such an event.
   */
  predicate CallOk(c: Call) {
    && Bound(c) <= |c.events| && NoneHookedFrom(c.events, Bound(c))
    && match c.phase
       case Registering(next) =>
         && c.registered <= next <= |c.events|
         && (c.noWait ==> c.registered == 0)
         && (c.isPolling <==> !SomeReady(c.events))
         && (c.isPolling ==> c.noWait || (c.registered == next && AllHooked(c.events, next)))
       case Asleep =>
         !c.noWait && !SomeReady(c.events) && c.registered == |c.events| && AllHooked(c.events, |c.events|)
       case Clearing(left, code) =>
         left <= c.registered <= |c.events| && (code == Ok ==> SomeReady(c.events)) && (c.noWait ==> code == Ok)
       case Done(code) =>
         (code == Ok ==> SomeReady(c.events)) && (c.noWait && code != Ok ==> code == Again && !SomeReady(c.events))
  }

  /** An entry of an object's list is a registered, unsignalled event of a call in progress. */
  predicate RefOk(calls: map<nat, Call>, obj: nat, r: Ref) {
    && r.id in calls && r.prio == calls[r.id].prio
    && r.data < Bound(calls[r.id]) <= |calls[r.id].events|
    && calls[r.id].events[r.data].target == On(obj) && calls[r.id].events[r.data].hooked
  }

  /** By priority, and no event twice. */
  predicate InListOrder(list: seq<Ref>) {
    forall i, j | 0 <= i < j < |list| ::
      list[i].prio <= list[j].prio && (list[i].id != list[j].id || list[i].data != list[j].data)
  }

  predicate ListOk(calls: map<nat, Call>, obj: nat, list: seq<Ref>) {
    && InListOrder(list)
    && forall i | 0 <= i < |list| :: RefOk(calls, obj, list[i])
  }

  predicate Linked(lists: map<nat, seq<Ref>>, id: nat, k: nat, obj: nat) {
    exists i :: 0 <= i < |ListOf(lists, obj)| && ListOf(lists, obj)[i].id == id && ListOf(lists, obj)[i].data == k
  }

  /** A hooked event is on its object's list. */
  predicate LinksOk(lists: map<nat, seq<Ref>>, id: nat, c: Call) {
    forall k | 0 <= k < |c.events| && c.events[k].hooked && c.events[k].target.On? ::
      Linked(lists, id, k, c.events[k].target.obj)
  }

  predicate CallsOk(calls: map<nat, Call>) {
    forall id | id in calls :: CallOk(calls[id])
  }

  predicate AllLinked(calls: map<nat, Call>, lists: map<nat, seq<Ref>>) {
    forall id | id in calls :: LinksOk(lists, id, calls[id])
  }

  ghost predicate ListsOk(calls: map<nat, Call>, lists: map<nat, seq<Ref>>) {
    forall obj :: ListOk(calls, obj, ListOf(lists, obj))
  }

  ghost predicate Inv(s: State) {
    CallsOk(s.calls) && AllLinked(s.calls, s.lists) && ListsOk(s.calls, s.lists)
  }

  // ----- Lists ----------------------------------------------------------------------------

  predicate Unlisted(list: seq<Ref>, id: nat, k: nat) {
    forall i | 0 <= i < |list| :: list[i].id != id || list[i].data != k
  }

  /** `r` may stand before all of `list`. */
  predicate Leads(r: Ref, list: seq<Ref>) {
    forall i | 0 <= i < |list| :: r.prio <= list[i].prio && (r.id != list[i].id || r.data != list[i].data)
  }

  lemma {:induction false} InsertInOrder(list: seq<Ref>, r: Ref)
    requires InListOrder(list) && Unlisted(list, r.id, r.data)
    ensures InListOrder(Insert(list, r))
  {
    if list == [] || r.prio < list[0].prio {
      LedInOrder(r, list);
    } else {
      var tail := list[1..];
      assert forall i | 0 <= i < |tail| :: tail[i] == list[i + 1];
      assert Leads(list[0], tail);
      InsertInOrder(tail, r);
      Members(tail, r);
      hide InListOrder;
      LedInOrder(list[0], Insert(tail, r));
    }
  }

  lemma {:induction false} LedInOrder(r: Ref, list: seq<Ref>)
    requires Leads(r, list) && InListOrder(list)
    ensures InListOrder([r] + list)
  {
  }

  lemma {:induction false} InsertListOk(calls: map<nat, Call>, obj: nat, list: seq<Ref>, r: Ref)
    requires ListOk(calls, obj, list) && RefOk(calls, obj, r) && Unlisted(list, r.id, r.data)
    ensures ListOk(calls, obj, Insert(list, r))
  {
    InsertInOrder(list, r);
    Members(list, r);
    hide RefOk;
  }

  lemma {:induction false} UnlinkedMembers(list: seq<Ref>, id: nat, k: nat)
    ensures forall i | 0 <= i < |Unlinked(list, id, k)| :: Unlinked(list, id, k)[i] in list
    ensures forall i | 0 <= i < |list| && (list[i].id != id || list[i].data != k) :: list[i] in Unlinked(list, id, k)
  {
    if list != [] {
      var tail := list[1..];
      UnlinkedMembers(tail, id, k);
      forall i | 0 <= i < |list| && (list[i].id != id || list[i].data != k)
        ensures list[i] in Unlinked(list, id, k)
      {
        if i > 0 {
          assert tail[i - 1] == list[i];
        }
      }
    }
  }

  lemma {:induction false} UnlinkedInOrder(list: seq<Ref>, id: nat, k: nat)
    requires InListOrder(list)
    ensures InListOrder(Unlinked(list, id, k)) && Unlisted(Unlinked(list, id, k), id, k)
  {
    if list != [] {
      var tail := list[1..];
      assert forall i | 0 <= i < |tail| :: tail[i] == list[i + 1];
      assert Leads(list[0], tail);
      if list[0].id != id || list[0].data != k {
        UnlinkedInOrder(tail, id, k);
        UnlinkedMembers(tail, id, k);
        LeadsFewer(list[0], tail, Unlinked(tail, id, k));
        ConsInOrder(list[0], Unlinked(tail, id, k));
      }
    }
  }

  lemma {:induction false} LeadsFewer(r: Ref, list: seq<Ref>, fewer: seq<Ref>)
    requires Leads(r, list) && forall i | 0 <= i < |fewer| :: fewer[i] in list
    ensures Leads(r, fewer)
  {
  }

  lemma {:induction false} ConsInOrder(r: Ref, list: seq<Ref>)
    requires Leads(r, list) && InListOrder(list)
    ensures InListOrder([r] + list)
  {
  }

  lemma {:induction false} UnlinkedListOk(calls: map<nat, Call>, obj: nat, list: seq<Ref>, id: nat, k: nat)
    requires ListOk(calls, obj, list)
    ensures ListOk(calls, obj, Unlinked(list, id, k)) && Unlisted(Unlinked(list, id, k), id, k)
  {
    UnlinkedInOrder(list, id, k);
    UnlinkedMembers(list, id, k);
    hide RefOk;
  }

  // ----- Calls and lists together ---------------------------------------------------------

  /** Nothing that was linked before `c` became `d` has to be unlinked. */
  predicate KeepsHooks(c: Call, d: Call) {
    && d.prio == c.prio && |d.events| == |c.events| && Bound(c) <= Bound(d) <= |d.events|
    && forall k | 0 <= k < |c.events| ::
         d.events[k].target == c.events[k].target && (c.events[k].hooked ==> d.events[k].hooked)
  }

  lemma {:induction false} ListsKept(calls: map<nat, Call>, lists: map<nat, seq<Ref>>, id: nat, d: Call)
    requires ListsOk(calls, lists) && id in calls && KeepsHooks(calls[id], d)
    ensures ListsOk(calls[id := d], lists)
  {
  }

  /** A call that changes neither its hooks nor its lists. */
  lemma {:induction false} CallReplaced(s: State, id: nat, d: Call)
    requires Inv(s) && id in s.calls && KeepsHooks(s.calls[id], d) && CallOk(d)
    requires forall k | 0 <= k < |d.events| && d.events[k].hooked :: s.calls[id].events[k].hooked
    ensures Inv(s.(calls := s.calls[id := d]))
  {
  }

  lemma {:induction false} BeginKeepsInv(s: State, id: nat, prio: int, events: seq<Event>, noWait: bool)
    requires Inv(s) && Allowed(s, Begin(id, prio, events, noWait))
    ensures Inv(Step(s, Begin(id, prio, events, noWait)))
  {
  }

  lemma {:induction false} DecideKeepsInv(s: State, id: nat)
    requires Inv(s) && Allowed(s, Decide(id))
    ensures Inv(Step(s, Decide(id)))
  {
    assert CallOk(s.calls[id]);
    DecidedOk(s.calls[id]);
    hide CallOk, Inv, Decided;
    CallReplaced(s, id, Decided(s.calls[id]));
  }

  lemma {:induction false} DecidedOk(c: Call)
    requires CallOk(c) && c.phase.Registering? && c.phase.next == |c.events|
    ensures CallOk(Decided(c)) && Decided(c).events == c.events && KeepsHooks(c, Decided(c))
  {
  }

  lemma {:induction false} TimeoutKeepsInv(s: State, id: nat)
    requires Inv(s) && Allowed(s, Timeout(id))
    ensures Inv(Step(s, Timeout(id)))
  {
  }

  // ----- Registering ----------------------------------------------------------------------

  /** A call that comes to an event whose condition is met, or that has stopped polling. */
  lemma {:induction false} PassedKeepsInv(s: State, id: nat)
    requires Inv(s) && Allowed(s, Register(id))
    requires var c := s.calls[id]; ConditionMet(s, c.events[c.phase.next]) || c.noWait || !c.isPolling
    ensures Inv(Registered(s, id))
  {
    var c := s.calls[id];
    var k := c.phase.next;
    assert CallOk(c);
    var d := Registered(s, id).calls[id];
    if ConditionMet(s, c.events[k]) {
      assert d.events[k].ready && d.events[k].news;
    } else if !c.isPolling {
      var j :| 0 <= j < |c.events| && c.events[j].ready && c.events[j].news;
      assert d.events[j].ready && d.events[j].news;
    }
    CallReplaced(s, id, d);
  }

  /** The call after it has registered its next event. */
  function Hooking(c: Call): Call
    requires c.phase.Registering? && c.phase.next < |c.events|
  {
    SetEvent(c.(phase := Registering(c.phase.next + 1)), c.phase.next, true, false).(registered := c.registered + 1)
  }

  lemma {:induction false} HookingOk(c: Call)
    requires CallOk(c) && c.phase.Registering? && c.phase.next < |c.events| && c.isPolling && !c.noWait
    ensures CallOk(Hooking(c)) && KeepsHooks(c, Hooking(c)) && c.phase.next == Bound(c)
  {
  }

  lemma {:induction false} LinkedInsert(lists: map<nat, seq<Ref>>, r: Ref, to: nat, id: nat, k: nat, obj: nat)
    requires Linked(lists, id, k, obj) || (obj == to && r.id == id && r.data == k)
    ensures Linked(lists[to := Insert(ListOf(lists, to), r)], id, k, obj)
  {
    Members(ListOf(lists, to), r);
    var after := Insert(ListOf(lists, to), r);
    if obj == to {
      if Linked(lists, id, k, obj) {
        var i :| 0 <= i < |ListOf(lists, obj)| && ListOf(lists, obj)[i].id == id && ListOf(lists, obj)[i].data == k;
        var j :| 0 <= j < |after| && after[j] == ListOf(lists, obj)[i];
        assert ListOf(lists[to := after], obj)[j].id == id;
      } else {
        var j :| 0 <= j < |after| && after[j] == r;
        assert ListOf(lists[to := after], obj)[j].id == id;
      }
    } else {
      assert ListOf(lists[to := after], obj) == ListOf(lists, obj);
    }
  }

  lemma {:induction false} HookedLinks(s: State, id: nat, obj: nat, lists: map<nat, seq<Ref>>)
    requires Inv(s) && Allowed(s, Register(id))
    requires var c := s.calls[id]; c.events[c.phase.next].target == On(obj) && c.isPolling && !c.noWait
    requires lists == s.lists[obj := Insert(ListOf(s.lists, obj), Waiter(id, s.calls[id].prio, s.calls[id].phase.next))]
    ensures AllLinked(s.calls[id := Hooking(s.calls[id])], lists)
  {
    hide ListsOk, CallsOk;
    var r := Waiter(id, s.calls[id].prio, s.calls[id].phase.next);
    var calls := s.calls[id := Hooking(s.calls[id])];
    forall t | t in calls ensures LinksOk(lists, t, calls[t]) {
      assert LinksOk(s.lists, t, s.calls[t]);
      forall k | 0 <= k < |calls[t].events| && calls[t].events[k].hooked && calls[t].events[k].target.On?
        ensures Linked(lists, t, k, calls[t].events[k].target.obj)
      {
        LinkedInsert(s.lists, r, obj, t, k, calls[t].events[k].target.obj);
      }
    }
  }

  lemma {:induction false} HookedLists(s: State, id: nat, obj: nat, lists: map<nat, seq<Ref>>)
    requires Inv(s) && Allowed(s, Register(id))
    requires var c := s.calls[id]; c.events[c.phase.next].target == On(obj) && c.isPolling && !c.noWait
    requires lists == s.lists[obj := Insert(ListOf(s.lists, obj), Waiter(id, s.calls[id].prio, s.calls[id].phase.next))]
    ensures ListsOk(s.calls[id := Hooking(s.calls[id])], lists)
  {
    var c := s.calls[id];
    HookingOk(c);
    var calls := s.calls[id := Hooking(c)];
    ListsKept(s.calls, s.lists, id, Hooking(c));
    var list := ListOf(s.lists, obj);
    var r := Waiter(id, c.prio, c.phase.next);
    assert ListOk(s.calls, obj, list) && ListOk(calls, obj, list);
    forall i | 0 <= i < |list| ensures list[i].id != r.id || list[i].data != r.data {
      assert RefOk(s.calls, obj, list[i]);
    }
    InsertListOk(calls, obj, list, r);
    hide ListOk;
    forall o ensures ListOk(calls, o, ListOf(lists, o)) {
      if o != obj {
        assert ListOf(lists, o) == ListOf(s.lists, o);
      }
    }
  }

  lemma {:induction false} RegisterKeepsInv(s: State, id: nat)
    requires Inv(s) && Allowed(s, Register(id))
    ensures Inv(Step(s, Register(id)))
  {
    var c := s.calls[id];
    assert CallOk(c);
    if ConditionMet(s, c.events[c.phase.next]) || c.noWait || !c.isPolling {
      PassedKeepsInv(s, id);
    } else {
      HookingOk(c);
      var calls := s.calls[id := Hooking(c)];
      hide CallOk, ListOk;
      match c.events[c.phase.next].target
      case Ignore =>
        ListsKept(s.calls, s.lists, id, Hooking(c));
        assert LinksOk(s.lists, id, c);
      case On(obj) =>
        var lists := s.lists[obj := Insert(ListOf(s.lists, obj), Waiter(id, c.prio, c.phase.next))];
        HookedLinks(s, id, obj, lists);
        HookedLists(s, id, obj, lists);
        assert Registered(s, id) == State(calls, lists, s.met);
    }
  }

  // ----- Clearing and signalling ----------------------------------------------------------

  /** Event `k` of call `c` is unhooked, and nothing else of it that a list refers to changes. */
  predicate Unhooks(c: Call, d: Call, k: nat) {
    && d.prio == c.prio && |d.events| == |c.events| && k < |c.events|
    && (Bound(d) == Bound(c) || Bound(d) == k == Bound(c) - 1)
    && !d.events[k].hooked
    && forall j | 0 <= j < |c.events| ::
         d.events[j].target == c.events[j].target && (j != k ==> d.events[j].hooked == c.events[j].hooked)
  }

  /** An event is listed by no object but its own. */
  lemma {:induction false} NotElsewhere(calls: map<nat, Call>, obj: nat, list: seq<Ref>, id: nat, k: nat)
    requires ListOk(calls, obj, list) && id in calls && k < |calls[id].events| && calls[id].events[k].target != On(obj)
    ensures Unlisted(list, id, k)
  {
  }

  /** Taking exactly one entry off a list leaves every other event linked. */
  predicate TakesOff(before: seq<Ref>, after: seq<Ref>, id: nat, k: nat) {
    forall i | 0 <= i < |before| && (before[i].id != id || before[i].data != k) :: before[i] in after
  }

  lemma {:induction false} UnhookedLinks(s: State, id: nat, k: nat, d: Call, lists: map<nat, seq<Ref>>)
    requires AllLinked(s.calls, s.lists) && id in s.calls && Unhooks(s.calls[id], d, k)
    requires forall o :: TakesOff(ListOf(s.lists, o), ListOf(lists, o), id, k)
    ensures AllLinked(s.calls[id := d], lists)
  {
  }

  lemma {:induction false} UnhookedLists(s: State, id: nat, k: nat, d: Call, lists: map<nat, seq<Ref>>)
    requires ListsOk(s.calls, s.lists) && id in s.calls && Unhooks(s.calls[id], d, k)
    requires forall o :: ListOk(s.calls, o, ListOf(lists, o)) && Unlisted(ListOf(lists, o), id, k)
    ensures ListsOk(s.calls[id := d], lists)
  {
  }

  /** Unhooking an event and taking it off its list keeps everything in order. */
  lemma {:induction false} UnhookKeepsInv(s: State, id: nat, k: nat, d: Call, obj: nat, list: seq<Ref>)
    requires Inv(s) && id in s.calls && Unhooks(s.calls[id], d, k) && CallOk(d)
    requires s.calls[id].events[k].target == On(obj)
    requires ListOk(s.calls, obj, list) && Unlisted(list, id, k) && TakesOff(ListOf(s.lists, obj), list, id, k)
    ensures Inv(State(s.calls[id := d], s.lists[obj := list], s.met))
  {
    var lists := s.lists[obj := list];
    forall o ensures ListOk(s.calls, o, ListOf(lists, o)) && Unlisted(ListOf(lists, o), id, k)
                     && TakesOff(ListOf(s.lists, o), ListOf(lists, o), id, k) {
      assert ListOk(s.calls, o, ListOf(s.lists, o));
      if o != obj {
        NotElsewhere(s.calls, o, ListOf(s.lists, o), id, k);
      }
    }
    hide ListOk, CallOk;
    UnhookedLinks(s, id, k, d, lists);
    UnhookedLists(s, id, k, d, lists);
  }

  lemma {:induction false} ClearKeepsInv(s: State, id: nat)
    requires Inv(s) && Allowed(s, Clear(id))
    ensures Inv(Step(s, Clear(id)))
  {
    var c := s.calls[id];
    assert CallOk(c);
    if c.phase.left == 0 {
      CallReplaced(s, id, c.(phase := Done(c.phase.code)));
    } else {
      var k := c.phase.left - 1;
      var d := SetEvent(c, k, false, false).(phase := Clearing(k, c.phase.code));
      ClearedCall(c, d, k);
      hide CallOk, Unhooks;
      match c.events[k].target
      case On(obj) =>
        assert ListOk(s.calls, obj, ListOf(s.lists, obj));
        UnlinkedListOk(s.calls, obj, ListOf(s.lists, obj), id, k);
        UnlinkedMembers(ListOf(s.lists, obj), id, k);
        UnhookKeepsInv(s, id, k, d, obj, Unlinked(ListOf(s.lists, obj), id, k));
      case Ignore =>
        IgnoredKeepsInv(s, id, k, d);
    }
  }

  lemma {:induction false} ClearedCall(c: Call, d: Call, k: nat)
    requires CallOk(c) && c.phase.Clearing? && c.phase.left == k + 1
    requires d == SetEvent(c, k, false, false).(phase := Clearing(k, c.phase.code))
    ensures CallOk(d) && Unhooks(c, d, k)
  {
    StillReady(c.events, d.events);
  }

  lemma {:induction false} StillReady(before: seq<Event>, after: seq<Event>)
    requires |before| == |after|
    requires forall k | 0 <= k < |before| && before[k].ready && before[k].news :: after[k].ready && after[k].news
    ensures SomeReady(before) ==> SomeReady(after)
  {
  }

  lemma {:induction false} IgnoredKeepsInv(s: State, id: nat, k: nat, d: Call)
    requires Inv(s) && id in s.calls && Unhooks(s.calls[id], d, k) && CallOk(d)
    requires s.calls[id].events[k].target == Ignore
    ensures Inv(s.(calls := s.calls[id := d]))
  {
  }

  lemma {:induction false} SignalKeepsInv(s: State, obj: nat, cancelled: bool)
    requires Inv(s) && Allowed(s, Signal(obj, cancelled))
    ensures Inv(Step(s, Signal(obj, cancelled)))
  {
    var list := ListOf(s.lists, obj);
    if list != [] {
      var r := list[0];
      assert ListOk(s.calls, obj, list);
      assert RefOk(s.calls, obj, list[0]);
      var c := s.calls[r.id];
      var d := Signalled(c, r.data, cancelled);
      assert d.events[r.data].ready && d.events[r.data].news;
      assert CallOk(c);
      assert CallOk(d) && Unhooks(c, d, r.data);
      var tail := list[1..];
      forall i | 0 <= i < |tail|
        ensures RefOk(s.calls, obj, tail[i]) && (tail[i].id != r.id || tail[i].data != r.data)
      {
        assert tail[i] == list[i + 1];
      }
      forall i | 0 <= i < |list| && (list[i].id != r.id || list[i].data != r.data) ensures list[i] in tail {
        assert list[i] == tail[i - 1];
      }
      UnhookKeepsInv(s, r.id, r.data, d, obj, tail);
    }
  }

  lemma {:induction false} StepKeepsInv(s: State, op: Op)
    requires Inv(s) && Allowed(s, op)
    ensures Inv(Step(s, op))
  {
    match op
    case Begin(id, prio, events, noWait) => BeginKeepsInv(s, id, prio, events, noWait);
    case Register(id) => RegisterKeepsInv(s, id);
    case Decide(id) => DecideKeepsInv(s, id);
    case Timeout(id) => TimeoutKeepsInv(s, id);
    case Clear(id) => ClearKeepsInv(s, id);
    case Signal(obj, cancelled) => SignalKeepsInv(s, obj, cancelled);
    case Unmeet(_) =>
  }

  // ----- Every run ------------------------------------------------------------------------

  ghost predicate Runs(from: State, ops: seq<Op>, to: State)
    decreases |ops|
  {
    if ops == [] then to == from
    else Allowed(from, ops[0]) && Runs(Step(from, ops[0]), ops[1..], to)
  }

  const Idle := State(map[], map[], {})

  lemma {:induction false} RunKeepsInv(from: State, ops: seq<Op>, to: State)
    requires Inv(from) && Runs(from, ops, to)
    ensures Inv(to)
    decreases |ops|
  {
    hide Inv, Step;
    if ops != [] {
      StepKeepsInv(from, ops[0]);
      RunKeepsInv(Step(from, ops[0]), ops[1..], to);
    }
  }

  /**
   However polls and signals interleave: no thread sleeps once one of its registered events has
   been signalled, and when a poll returns none of its events is on any list; it returns 0 only
   with an event that became ready during the call, and one that may not wait whenever there is.
   */
  lemma {:induction false} EveryRun(ops: seq<Op>, s: State, id: nat)
    requires Runs(Idle, ops, s) && id in s.calls
    ensures Inv(s)
    ensures s.calls[id].phase.Asleep? ==> forall k | 0 <= k < |s.calls[id].events| :: StillHooked(s, id, k)
    ensures s.calls[id].phase.Done? ==> forall obj, i | 0 <= i < |ListOf(s.lists, obj)| ::
            ListOf(s.lists, obj)[i].id != id
    ensures s.calls[id].phase == Done(Ok) ==> SomeReady(s.calls[id].events)
    ensures s.calls[id].phase.Done? && s.calls[id].noWait ==>
              s.calls[id].phase == Done(if SomeReady(s.calls[id].events) then Ok else Again)
  {
    RunKeepsInv(Idle, ops, s);
    var c := s.calls[id];
    assert CallOk(c) && LinksOk(s.lists, id, c);
    if c.phase.Done? {
      forall obj, i | 0 <= i < |ListOf(s.lists, obj)| ensures ListOf(s.lists, obj)[i].id != id {
        assert ListOk(s.calls, obj, ListOf(s.lists, obj));
        assert RefOk(s.calls, obj, ListOf(s.lists, obj)[i]);
      }
    }
  }

  /** The event's poller is still set and, unless it is to be ignored, it is on its object's list. */
  predicate StillHooked(s: State, id: nat, k: nat)
    requires id in s.calls && k < |s.calls[id].events|
  {
    && s.calls[id].events[k].hooked
    && (s.calls[id].events[k].target.On? ==> Linked(s.lists, id, k, s.calls[id].events[k].target.obj))
  }

  /** A signal never finds an event whose poller is gone. */
  lemma {:induction false} SignalsFindPollers(s: State, obj: nat)
    requires Inv(s)
    ensures FirstThere(s, obj)
  {
  }

  /** While a call registers, its hooked events are exactly the first `registered` until one is signalled. */
  lemma {:induction false} RegisteredIsPrefix(s: State, id: nat, k: nat)
    requires Inv(s) && id in s.calls && k < |s.calls[id].events| && s.calls[id].phase.Registering?
    ensures s.calls[id].events[k].hooked ==> k < s.calls[id].registered
    ensures s.calls[id].isPolling && k < s.calls[id].registered ==> s.calls[id].events[k].hooked
  {
  }

  /** A signal wakes a sleeping poller with the result it stands for, and stops one that registers. */
  lemma {:induction false} SignalReaches(s: State, obj: nat, cancelled: bool)
    requires Inv(s) && ListOf(s.lists, obj) != []
    ensures FirstThere(s, obj)
    ensures var r := ListOf(s.lists, obj)[0];
            var c, d := s.calls[r.id], Step(s, Signal(obj, cancelled)).calls[r.id];
            && d.events[r.data].ready && !d.events[r.data].hooked && !d.isPolling
            && (c.phase.Asleep? ==> d.phase == Clearing(|c.events|, if cancelled then Interrupted else Ok))
            && (c.phase.Registering? ==> Decided(d).phase == Clearing(d.registered, Ok))
  {
  }
}
