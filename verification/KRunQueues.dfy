/** The three ready queues as the scheduler updates them. */
module KRunQueues {
  import opened RunQueues
  import opened Seqs

  /** A `sys_dlist_t` kept in priority order */
  class SortedList {
    var list: seq<Thread>

    constructor ()
      ensures list == []
    {
      list := [];
    }

    /** z_priq_dumb_add */
    method Add(t: Thread)
      modifies this
      ensures list == DumbAdd(old(list), t)
    {
      var i := 0;
      while i < |list| && list[i].prio <= t.prio
        invariant 0 <= i <= |list| && list == old(list)
        invariant list[..i] + DumbAdd(list[i..], t) == DumbAdd(list, t)
      {
        AddPasses(list, i, t);
        i := i + 1;
      }
      assert list[..i] + ([t] + list[i..]) == list[..i] + [t] + list[i..];
      list := list[..i] + [t] + list[i..];
    }

    /** z_priq_dumb_remove */
    method Remove(id: nat)
      modifies this
      ensures list == DumbRemove(old(list), id)
    {
      var i := 0;
      while i < |list| && list[i].id != id
        invariant 0 <= i <= |list| && list == old(list)
        invariant list[..i] + DumbRemove(list[i..], id) == DumbRemove(list, id)
      {
        RemovePasses(list, i, id);
        i := i + 1;
      }
      if i < |list| {
        assert list[i..][1..] == list[i + 1..];
        list := list[..i] + list[i + 1..];
      }
    }

    /** z_priq_dumb_best: of the threads with the highest priority the one that came first */
    method Best() returns (best: Option<Thread>)
      requires SortedByPrio(list)
      ensures best.None? <==> list == []
      ensures best.Some? ==> best.value in list && forall i | 0 <= i < |list| :: best.value.prio <= list[i].prio
      ensures best.Some? ==> best.value == list[0]
    {
      best := if list == [] then None else Some(list[0]);
    }
  }

  lemma {:induction false} AddPasses(q: seq<Thread>, i: nat, t: Thread)
    requires i < |q| && q[i].prio <= t.prio
    ensures q[..i] + DumbAdd(q[i..], t) == q[..i + 1] + DumbAdd(q[i + 1..], t)
  {
  }

  lemma {:induction false} RemovePasses(q: seq<Thread>, i: nat, id: nat)
    requires i < |q| && q[i].id != id
    ensures q[..i] + DumbRemove(q[i..], id) == q[..i + 1] + DumbRemove(q[i + 1..], id)
  {
  }

  /** `struct _priq_mq` */
  class MultiList {
    const highest: int
    const queues: array<seq<Thread>>
    var mask: set<nat>

    ghost function View(): MultiQueue
      reads this, queues
    {
      MultiQueue(highest, queues[..], mask)
    }

    constructor (highest: int)
      ensures this.highest == highest && fresh(queues) && View() == Empty(highest).mq
    {
      this.highest := highest;
      queues := new seq<Thread>[QUEUES](_ => []);
      mask := {};
      new;
      assert queues[..] == seq(QUEUES, _ => []);
    }

    /** z_priq_mq_add */
    method Add(t: Thread)
      requires MqOk(View()) && InRange(highest, t.prio)
      modifies this, queues
      ensures View() == MqAdd(old(View()), t) && MqOk(View())
      ensures Flatten(queues[..]) == DumbAdd(Flatten(old(queues[..])), t)
    {
      MqAddOk(View(), t);
      FlattenAdd(View().queues, highest, t);
      hide Flatten, DumbAdd, MqOk;
      var bit := t.prio - highest;
      queues[bit] := queues[bit] + [t];
      mask := mask + {bit};
    }

    /** z_priq_mq_remove */
    method Remove(t: Thread)
      requires MqOk(View()) && InRange(highest, t.prio)
      modifies this, queues
      ensures View() == MqRemove(old(View()), t) && MqOk(View())
    {
      MqRemoveOk(View(), t);
      var bit := t.prio - highest;
      queues[bit] := DumbRemove(queues[bit], t.id);
      if queues[bit] == [] {
        mask := mask - {bit};
      }
    }

    /** z_priq_mq_best, with the bit scan spelled out */
    method Best() returns (best: Option<Thread>)
      requires MqOk(View())
      ensures best == MqBest(View())
    {
      if mask == {} {
        return None;
      }
      var k := 0;
      while k < QUEUES && k !in mask
        invariant 0 <= k <= QUEUES
        invariant LowestFrom(mask, k) == LowestFrom(mask, 0)
      {
        k := k + 1;
      }
      assert LowestFrom(mask, k) == k;
      best := if k < QUEUES && queues[k] != [] then Some(queues[k][0]) else None;
    }
  }

  /** `struct _priq_rb`, the tree given by its nodes in order */
  class TreeQueue {
    var nodes: seq<Node>
    var next: nat

    ghost function View(): Tree
      reads this
    {
      Tree(nodes, next)
    }

    constructor ()
      ensures View() == Tree([], 0)
    {
      nodes, next := [], 0;
    }

    /** z_priq_rb_add, with its renumbering loop and the walk to the new node's place */
    method Add(t: Thread)
      modifies this
      ensures View() == RbAdd(old(View()), t)
      ensures TreeOk(old(View())) && old(next) + 1 < KEYS && !HasId(Threads(old(nodes)), t.id) ==>
                TreeOk(View()) && Threads(nodes) == DumbAdd(Threads(old(nodes)), t)
    {
      if TreeOk(View()) && next + 1 < KEYS && !HasId(Threads(nodes), t.id) {
        RbAddAgrees(View(), t);
      }
      hide DumbAdd, TreeOk, Threads, HasId;
      var node := Node(t.id, t.prio, next);
      next := (next + 1) % KEYS;
      if next == 0 {
        Renumbering();
      }
      Link(node);
    }

    /** Queued threads get the keys from 0 on, in order. */
    method Renumbering()
      requires next == 0
      modifies this
      ensures nodes == Renumber(old(nodes), 0) && next == |nodes| == |old(nodes)|
    {
      while next < |nodes|
        invariant next <= |nodes| == |old(nodes)|
        invariant nodes[next..] == old(nodes)[next..]
        invariant nodes[..next] + Renumber(old(nodes)[next..], next) == Renumber(old(nodes), 0)
      {
        RenumberPasses(old(nodes), nodes[..next], next);
        nodes := nodes[next := nodes[next].(key := next)];
        next := next + 1;
      }
      assert old(nodes)[next..] == [] && nodes[..next] + [] == nodes;
    }

    /** rb_insert: past every node that the new one is not less than */
    method Link(n: Node)
      modifies this`nodes
      ensures nodes == RbInsert(old(nodes), n)
    {
      var i := 0;
      while i < |nodes| && !Less(n, nodes[i])
        invariant 0 <= i <= |nodes| && nodes == old(nodes)
        invariant nodes[..i] + RbInsert(nodes[i..], n) == RbInsert(nodes, n)
      {
        InsertPasses(nodes, i, n);
        i := i + 1;
      }
      assert nodes[..i] + ([n] + nodes[i..]) == nodes[..i] + [n] + nodes[i..];
      nodes := nodes[..i] + [n] + nodes[i..];
    }

    /** z_priq_rb_remove: the others keep their order and keys; an empty tree counts from 0 again */
    method Remove(id: nat)
      modifies this
      ensures Threads(nodes) == DumbRemove(Threads(old(nodes)), id)
      ensures forall i | 0 <= i < |nodes| :: nodes[i] in old(nodes)
      ensures next == if nodes == [] then 0 else old(next)
      ensures TreeOk(old(View())) ==> TreeOk(View())
    {
      WithoutAgrees(nodes, id);
      WithoutMembers(nodes, id);
      if SortedNodes(nodes) {
        WithoutKeepsOrder(nodes, id);
      }
      hide SortedNodes, DumbRemove, Threads, WithoutNode;
      Unlink(id);
      if nodes == [] {
        next := 0;
      }
    }

    method Unlink(id: nat)
      modifies this`nodes
      ensures nodes == WithoutNode(old(nodes), id)
    {
      var i := 0;
      while i < |nodes| && nodes[i].id != id
        invariant 0 <= i <= |nodes| && nodes == old(nodes)
        invariant nodes[..i] + WithoutNode(nodes[i..], id) == WithoutNode(nodes, id)
      {
        WithoutPasses(nodes, i, id);
        i := i + 1;
      }
      if i < |nodes| {
        assert nodes[i..][1..] == nodes[i + 1..];
        nodes := nodes[..i] + nodes[i + 1..];
      }
    }

    /** z_priq_rb_best */
    method Best() returns (best: Option<Thread>)
      requires TreeOk(View())
      ensures best.None? <==> nodes == []
      ensures best.Some? ==> best.value == Threads(nodes)[0]
    {
      best := if nodes == [] then None else Some(Thread(nodes[0].id, nodes[0].prio));
    }
  }

  lemma {:induction false} InsertPasses(nodes: seq<Node>, i: nat, n: Node)
    requires i < |nodes| && !Less(n, nodes[i])
    ensures nodes[..i] + RbInsert(nodes[i..], n) == nodes[..i + 1] + RbInsert(nodes[i + 1..], n)
  {
  }

  lemma {:induction false} WithoutPasses(nodes: seq<Node>, i: nat, id: nat)
    requires i < |nodes| && nodes[i].id != id
    ensures nodes[..i] + WithoutNode(nodes[i..], id) == nodes[..i + 1] + WithoutNode(nodes[i + 1..], id)
  {
  }

  lemma {:induction false} RenumberPasses(nodes: seq<Node>, done: seq<Node>, i: nat)
    requires i < |nodes|
    ensures done + Renumber(nodes[i..], i) == (done + [nodes[i].(key := i)]) + Renumber(nodes[i + 1..], i + 1)
  {
  }

  // ----- The one the build chose ----------------------------------------------------------

  /** _priq_run_add and its like: one of the three queues, by the scheduler's configuration */
  datatype PriQueue = Dumb(list: SortedList) | Multi(lists: MultiList) | Scalable(tree: TreeQueue) {

    function Repr(): set<object> {
      match this
      case Dumb(list) => {list}
      case Multi(lists) => {lists, lists.queues}
      case Scalable(tree) => {tree}
    }

    /** The queued threads, best first */
    ghost function Contents(): seq<Thread>
      reads Repr()
    {
      match this
      case Dumb(list) => list.list
      case Multi(lists) => Flatten(lists.queues[..])
      case Scalable(tree) => Threads(tree.nodes)
    }

    ghost predicate Valid()
      reads Repr()
    {
      && DistinctIds(Contents()) && SortedByPrio(Contents())
      && match this
         case Dumb(_) => true
         case Multi(lists) => MqOk(lists.View())
         case Scalable(tree) => TreeOk(tree.View())
    }

    /** The array of lists has one for each of 32 priorities. */
    predicate Fits(prio: int) {
      Multi? ==> InRange(lists.highest, prio)
    }

    /** How many of the tree's 2^32 order keys are used up */
    ghost function Used(): nat
      reads Repr()
    {
      if Scalable? then tree.next else 0
    }

    method Add(t: Thread)
      requires Valid() && !HasId(Contents(), t.id) && Fits(t.prio) && Used() + 1 < KEYS
      modifies Repr()
      ensures Valid() && Contents() == DumbAdd(old(Contents()), t) && Used() <= old(Used()) + 1
    {
      DumbAddDistinct(Contents(), t);
      AddSorted(Contents(), t);
      hide DistinctIds, SortedByPrio, HasId, DumbAdd, MqOk, Flatten, Threads, RbAdd, TreeOk, MqAdd;
      match this {
        case Dumb(list) => list.Add(t);
        case Multi(lists) => lists.Add(t);
        case Scalable(tree) => tree.Add(t);
      }
    }

    method Remove(t: Thread)
      requires Valid() && t in Contents()
      modifies Repr()
      ensures Valid() && Contents() == DumbRemove(old(Contents()), t.id) && Used() <= old(Used())
    {
      DumbRemoveDistinct(Contents(), t.id);
      RemoveSorted(Contents(), t.id);
      hide DistinctIds, SortedByPrio, HasId, DumbRemove;
      match this {
        case Dumb(list) => list.Remove(t.id);
        case Multi(lists) =>
          InOneList(lists.View(), t);
          FlattenRemove(lists.queues[..], t.prio - lists.highest, t.id);
          lists.Remove(t);
        case Scalable(tree) => tree.Remove(t.id);
      }
    }

    /** The thread that has waited longest among those of the highest priority */
    method Best() returns (best: Option<Thread>)
      requires Valid()
      ensures best == DumbBest(Contents())
      ensures best.Some? ==> forall i | 0 <= i < |Contents()| :: best.value.prio <= Contents()[i].prio
    {
      match this {
        case Dumb(list) => best := list.Best();
        case Multi(lists) =>
          MqBestIs(lists.View());
          best := lists.Best();
        case Scalable(tree) => best := tree.Best();
      }
    }
  }
}
