/**
 The scheduler's three ready queues (kernel/sched.c, include/sched_priq.h): a sorted list, an
 array of lists with a bitmask, and a balanced tree. All three stand for one queue that is
 ordered by priority and, within a priority, by arrival.
 */
module RunQueues {
  import opened Seqs

  /** A queued thread. A smaller number is a higher priority. */
  datatype Thread = Thread(id: nat, prio: int)

  predicate HasId(q: seq<Thread>, id: nat) {
    exists i | 0 <= i < |q| :: q[i].id == id
  }

  predicate DistinctIds(q: seq<Thread>) {
    forall i, j | 0 <= i < j < |q| :: q[i].id != q[j].id
  }

  // ----- The sorted list ------------------------------------------------------------------

  /** z_priq_dumb_add: before the first thread of lower priority. */
  function DumbAdd(q: seq<Thread>, t: Thread): (r: seq<Thread>)
    ensures |r| == |q| + 1
  {
    if q == [] || t.prio < q[0].prio then [t] + q else [q[0]] + DumbAdd(q[1..], t)
  }

  /** z_priq_dumb_remove */
  function DumbRemove(q: seq<Thread>, id: nat): seq<Thread> {
    if q == [] then [] else if q[0].id == id then q[1..] else [q[0]] + DumbRemove(q[1..], id)
  }

  /** z_priq_dumb_best */
  function DumbBest(q: seq<Thread>): Option<Thread> {
    if q == [] then None else Some(q[0])
  }

  lemma {:induction false} DumbAddSkips(a: seq<Thread>, b: seq<Thread>, t: Thread)
    requires forall i | 0 <= i < |a| :: a[i].prio <= t.prio
    ensures DumbAdd(a + b, t) == a + DumbAdd(b, t)
  {
    if a == [] {
      assert a + b == b;
    } else {
      DumbAddSkips(a[1..], b, t);
      assert (a + b)[1..] == a[1..] + b;
      assert a == [a[0]] + a[1..];
    }
  }

  lemma {:induction false} DumbAddFront(b: seq<Thread>, t: Thread)
    requires forall i | 0 <= i < |b| :: t.prio < b[i].prio
    ensures DumbAdd(b, t) == [t] + b
  {
  }

  lemma {:induction false} DumbRemoveSkips(a: seq<Thread>, b: seq<Thread>, id: nat)
    requires !HasId(a, id)
    ensures DumbRemove(a + b, id) == a + DumbRemove(b, id)
  {
    if a == [] {
      assert a + b == b;
    } else {
      assert !HasId(a[1..], id) by {
        assert forall i | 0 <= i < |a[1..]| :: a[1..][i] == a[i + 1];
      }
      DumbRemoveSkips(a[1..], b, id);
      assert (a + b)[0] == a[0] && (a + b)[1..] == a[1..] + b;
      assert DumbRemove(a + b, id) == [a[0]] + (a[1..] + DumbRemove(b, id));
      assert [a[0]] + (a[1..] + DumbRemove(b, id)) == ([a[0]] + a[1..]) + DumbRemove(b, id);
      assert a == [a[0]] + a[1..];
    }
  }

  lemma {:induction false} DumbRemoveFront(a: seq<Thread>, b: seq<Thread>, id: nat)
    requires HasId(a, id)
    ensures DumbRemove(a + b, id) == DumbRemove(a, id) + b
  {
    assert (a + b)[0] == a[0] && (a + b)[1..] == a[1..] + b;
    if a[0].id != id {
      var i :| 0 <= i < |a| && a[i].id == id;
      assert a[1..][i - 1].id == id;
      DumbRemoveFront(a[1..], b, id);
    }
  }

  // ----- The array of lists ---------------------------------------------------------------

  const QUEUES := 32

  /** `struct _priq_mq`; the mask is the set of its one-bits. `highest` is K_HIGHEST_THREAD_PRIO. */
  datatype MultiQueue = MultiQueue(highest: int, queues: seq<seq<Thread>>, mask: set<nat>)

  /** A priority that has a list: the build refuses configurations with more than 32. */
  predicate InRange(highest: int, prio: int) {
    highest <= prio < highest + QUEUES
  }

  /** z_priq_mq_add */
  function MqAdd(mq: MultiQueue, t: Thread): MultiQueue
    requires |mq.queues| == QUEUES && InRange(mq.highest, t.prio)
  {
    var k := t.prio - mq.highest;
    mq.(queues := mq.queues[k := mq.queues[k] + [t]], mask := mq.mask + {k})
  }

  /** z_priq_mq_remove */
  function MqRemove(mq: MultiQueue, t: Thread): MultiQueue
    requires |mq.queues| == QUEUES && InRange(mq.highest, t.prio)
  {
    var k := t.prio - mq.highest;
    var left := DumbRemove(mq.queues[k], t.id);
    mq.(queues := mq.queues[k := left], mask := if left == [] then mq.mask - {k} else mq.mask)
  }

  /** The lists one after the other, highest priority first. */
  function Flatten(queues: seq<seq<Thread>>): seq<Thread> {
    if queues == [] then [] else queues[0] + Flatten(queues[1..])
  }

  /** Every thread is in the list of its priority. */
  predicate Sorted(queues: seq<seq<Thread>>, highest: int) {
    forall k, i | 0 <= k < |queues| && 0 <= i < |queues[k]| :: queues[k][i].prio == highest + k
  }

  ghost predicate MqOk(mq: MultiQueue) {
    && |mq.queues| == QUEUES
    && Sorted(mq.queues, mq.highest)
    && (forall k | 0 <= k < QUEUES :: k in mq.mask <==> mq.queues[k] != [])
    && (forall k | k in mq.mask :: k < QUEUES)
  }

  lemma {:induction false} FlattenAbove(queues: seq<seq<Thread>>, highest: int)
    requires Sorted(queues, highest)
    ensures forall i | 0 <= i < |Flatten(queues)| :: Flatten(queues)[i].prio >= highest
  {
    if queues != [] {
      assert Sorted(queues[1..], highest + 1);
      FlattenAbove(queues[1..], highest + 1);
    }
  }

  /** Appending to the list of its priority is adding to the sorted list. */
  lemma {:induction false} FlattenAdd(queues: seq<seq<Thread>>, highest: int, t: Thread)
    requires Sorted(queues, highest) && highest <= t.prio < highest + |queues|
    ensures var k := t.prio - highest;
            Flatten(queues[k := queues[k] + [t]]) == DumbAdd(Flatten(queues), t)
  {
    var k := t.prio - highest;
    var rest := queues[1..];
    var queues' := queues[k := queues[k] + [t]];
    assert Sorted(rest, highest + 1);
    DumbAddSkips(queues[0], Flatten(rest), t);
    if k == 0 {
      FlattenAbove(rest, highest + 1);
      DumbAddFront(Flatten(rest), t);
      assert queues'[1..] == rest;
      assert queues[0] + ([t] + Flatten(rest)) == (queues[0] + [t]) + Flatten(rest);
    } else {
      FlattenAdd(rest, highest + 1, t);
      assert queues'[1..] == rest[k - 1 := rest[k - 1] + [t]];
    }
  }

  /** Removing from the list of its priority is removing from the sorted list. */
  lemma {:induction false} FlattenRemove(queues: seq<seq<Thread>>, k: nat, id: nat)
    requires k < |queues| && HasId(queues[k], id)
    requires forall j | 0 <= j < |queues| && j != k :: !HasId(queues[j], id)
    ensures Flatten(queues[k := DumbRemove(queues[k], id)]) == DumbRemove(Flatten(queues), id)
  {
    var rest := queues[1..];
    var queues' := queues[k := DumbRemove(queues[k], id)];
    if k == 0 {
      DumbRemoveFront(queues[0], Flatten(rest), id);
      assert queues'[1..] == rest;
    } else {
      assert rest[k - 1] == queues[k];
      forall j | 0 <= j < |rest| && j != k - 1 ensures !HasId(rest[j], id) {
        assert rest[j] == queues[j + 1];
      }
      FlattenRemove(rest, k - 1, id);
      DumbRemoveSkips(queues[0], Flatten(rest), id);
      assert queues'[1..] == rest[k - 1 := DumbRemove(rest[k - 1], id)];
    }
  }

  /** The first non-empty list holds the head of the whole queue. */
  lemma {:induction false} FlattenHead(queues: seq<seq<Thread>>, k: nat)
    requires k < |queues| && queues[k] != []
    requires forall j | 0 <= j < k :: queues[j] == []
    ensures Flatten(queues) != [] && Flatten(queues)[0] == queues[k][0]
  {
    if k > 0 {
      FlattenHead(queues[1..], k - 1);
    }
  }

  lemma {:induction false} FlattenEmpty(queues: seq<seq<Thread>>)
    requires forall j | 0 <= j < |queues| :: queues[j] == []
    ensures Flatten(queues) == []
  {
    if queues != [] {
      FlattenEmpty(queues[1..]);
    }
  }

  lemma {:induction false} FlattenHas(queues: seq<seq<Thread>>, k: nat, i: nat)
    requires k < |queues| && i < |queues[k]|
    ensures queues[k][i] in Flatten(queues)
  {
    if k > 0 {
      FlattenHas(queues[1..], k - 1, i);
    }
  }

  lemma {:induction false} FlattenFrom(queues: seq<seq<Thread>>, t: Thread) returns (k: nat)
    requires t in Flatten(queues)
    ensures k < |queues| && t in queues[k]
  {
    if t in queues[0] {
      k := 0;
    } else {
      var j := FlattenFrom(queues[1..], t);
      k := j + 1;
    }
  }

  /** A thread that is queued once is in one list only, that of its priority. */
  lemma {:induction false} InOneList(mq: MultiQueue, t: Thread)
    requires MqOk(mq) && DistinctIds(Flatten(mq.queues)) && t in Flatten(mq.queues)
    ensures InRange(mq.highest, t.prio) && HasId(mq.queues[t.prio - mq.highest], t.id)
    ensures forall j | 0 <= j < QUEUES && j != t.prio - mq.highest :: !HasId(mq.queues[j], t.id)
  {
    var k := FlattenFrom(mq.queues, t);
    var i :| 0 <= i < |mq.queues[k]| && mq.queues[k][i] == t;
    assert t.prio == mq.highest + k;
    forall j | 0 <= j < QUEUES && j != k ensures !HasId(mq.queues[j], t.id) {
      if HasId(mq.queues[j], t.id) {
        var m :| 0 <= m < |mq.queues[j]| && mq.queues[j][m].id == t.id;
        FlattenHas(mq.queues, j, m);
        SameThread(Flatten(mq.queues), t, mq.queues[j][m]);
      }
    }
  }

  lemma {:induction false} SameThread(q: seq<Thread>, t: Thread, u: Thread)
    requires DistinctIds(q) && t in q && u in q && t.id == u.id
    ensures t == u
  {
  }

  // ----- The tree -------------------------------------------------------------------------

  /** Order keys are 32 bits wide. */
  const KEYS := 0x1_0000_0000

  datatype Node = Node(id: nat, prio: int, key: nat)

  /** `struct _priq_rb`: the tree is given by its nodes in order. */
  datatype Tree = Tree(nodes: seq<Node>, next: nat)

  /** z_priq_rb_lessthan */
  predicate Less(a: Node, b: Node) {
    if a.prio < b.prio then true else if b.prio < a.prio then false else a.key < b.key
  }

  function RbInsert(nodes: seq<Node>, n: Node): seq<Node> {
    if nodes == [] || Less(n, nodes[0]) then [n] + nodes else [nodes[0]] + RbInsert(nodes[1..], n)
  }

  function Renumber(nodes: seq<Node>, next: nat): seq<Node> {
    if nodes == [] then [] else [nodes[0].(key := next)] + Renumber(nodes[1..], next + 1)
  }

  /** z_priq_rb_add, with the renumbering when the counter wraps around */
  function RbAdd(tree: Tree, t: Thread): Tree {
    var n := Node(t.id, t.prio, tree.next);
    var next := (tree.next + 1) % KEYS;
    if next == 0 then Tree(RbInsert(Renumber(tree.nodes, 0), n), |tree.nodes|)
    else Tree(RbInsert(tree.nodes, n), next)
  }

  /** z_priq_rb_remove */
  function RbRemove(tree: Tree, id: nat): Tree {
    var nodes := WithoutNode(tree.nodes, id);
    Tree(nodes, if nodes == [] then 0 else tree.next)
  }

  function WithoutNode(nodes: seq<Node>, id: nat): seq<Node> {
    if nodes == [] then [] else if nodes[0].id == id then nodes[1..] else [nodes[0]] + WithoutNode(nodes[1..], id)
  }

  function Threads(nodes: seq<Node>): (q: seq<Thread>)
    ensures |q| == |nodes|
    ensures forall i | 0 <= i < |nodes| :: q[i] == Thread(nodes[i].id, nodes[i].prio)
  {
    if nodes == [] then [] else [Thread(nodes[0].id, nodes[0].prio)] + Threads(nodes[1..])
  }

  predicate SortedNodes(nodes: seq<Node>) {
    forall i, j | 0 <= i < j < |nodes| :: Less(nodes[i], nodes[j])
  }

  /** In order of priority and then of arrival, with all arrivals before the next one. */
  predicate TreeOk(tree: Tree) {
    && SortedNodes(tree.nodes)
    && forall i | 0 <= i < |tree.nodes| :: tree.nodes[i].key < tree.next
  }

  /** No queued thread of the same priority claims to have arrived later. */
  predicate ArrivesLast(nodes: seq<Node>, prio: int, key: nat) {
    forall i | 0 <= i < |nodes| && nodes[i].prio == prio :: nodes[i].key <= key
  }

  /** Inserting into the tree agrees with the sorted list exactly when the key is the latest. */
  lemma {:induction false} InsertAgrees(nodes: seq<Node>, n: Node)
    requires SortedNodes(nodes) && !HasId(Threads(nodes), n.id)
    ensures Threads(RbInsert(nodes, n)) == DumbAdd(Threads(nodes), Thread(n.id, n.prio))
            <==> ArrivesLast(nodes, n.prio, n.key)
  {
    if nodes == [] || Less(n, nodes[0]) {
      InsertFrontAgrees(nodes, n);
    } else {
      var rest := nodes[1..];
      var t := Thread(n.id, n.prio);
      ThreadsCons(nodes[0], rest);
      ThreadsCons(nodes[0], RbInsert(rest, n));
      assert nodes == [nodes[0]] + rest;
      assert !HasId(Threads(rest), n.id) by {
        assert forall i | 0 <= i < |rest| :: Threads(rest)[i] == Threads(nodes)[i + 1];
      }
      InsertAgrees(rest, n);
      ArrivesLastTail(nodes, n.prio, n.key);
      var h := [Thread(nodes[0].id, nodes[0].prio)];
      SamePrefix(h, Threads(RbInsert(rest, n)), DumbAdd(Threads(rest), t));
      assert DumbAdd(Threads(nodes), t) == h + DumbAdd(Threads(rest), t);
    }
  }

  lemma {:induction false} SamePrefix(h: seq<Thread>, a: seq<Thread>, b: seq<Thread>)
    ensures h + a == h + b <==> a == b
  {
    if h + a == h + b {
      assert a == (h + a)[|h|..] == (h + b)[|h|..] == b;
    }
  }

  lemma {:induction false} ThreadsCons(n: Node, rest: seq<Node>)
    ensures Threads([n] + rest) == [Thread(n.id, n.prio)] + Threads(rest)
  {
  }

  lemma {:induction false} InsertFrontAgrees(nodes: seq<Node>, n: Node)
    requires SortedNodes(nodes) && !HasId(Threads(nodes), n.id)
    requires nodes == [] || Less(n, nodes[0])
    ensures Threads([n] + nodes) == DumbAdd(Threads(nodes), Thread(n.id, n.prio)) <==> ArrivesLast(nodes, n.prio, n.key)
  {
  }

  lemma {:induction false} ArrivesLastTail(nodes: seq<Node>, prio: int, key: nat)
    requires nodes != []
    ensures ArrivesLast(nodes, prio, key)
            <==> (nodes[0].prio == prio ==> nodes[0].key <= key) && ArrivesLast(nodes[1..], prio, key)
  {
  }

  lemma {:induction false} InsertKeepsOrder(nodes: seq<Node>, n: Node)
    requires SortedNodes(nodes) && forall i | 0 <= i < |nodes| :: nodes[i].key != n.key
    ensures SortedNodes(RbInsert(nodes, n))
    ensures forall i | 0 <= i < |RbInsert(nodes, n)| :: RbInsert(nodes, n)[i] == n || RbInsert(nodes, n)[i] in nodes
  {
    if nodes == [] {
    } else if Less(n, nodes[0]) {
      assert forall i | 0 < i < |nodes| :: Less(nodes[0], nodes[i]);
    } else {
      var rest := RbInsert(nodes[1..], n);
      InsertKeepsOrder(nodes[1..], n);
      forall i | 0 <= i < |rest| ensures Less(nodes[0], rest[i]) && (rest[i] == n || rest[i] in nodes) {
        if rest[i] != n {
          var j :| 0 <= j < |nodes[1..]| && nodes[1..][j] == rest[i];
          assert Less(nodes[0], nodes[j + 1]);
        }
      }
    }
  }

  lemma {:induction false} WithoutMembers(nodes: seq<Node>, id: nat)
    ensures forall i | 0 <= i < |WithoutNode(nodes, id)| :: WithoutNode(nodes, id)[i] in nodes
  {
    if nodes != [] && nodes[0].id != id {
      WithoutMembers(nodes[1..], id);
    }
  }

  lemma {:induction false} WithoutKeepsOrder(nodes: seq<Node>, id: nat)
    requires SortedNodes(nodes)
    ensures SortedNodes(WithoutNode(nodes, id))
    ensures forall i | 0 <= i < |WithoutNode(nodes, id)| :: WithoutNode(nodes, id)[i] in nodes
  {
    if nodes != [] && nodes[0].id != id {
      var rest := WithoutNode(nodes[1..], id);
      WithoutKeepsOrder(nodes[1..], id);
      forall i | 0 <= i < |rest| ensures Less(nodes[0], rest[i]) && rest[i] in nodes {
        var j :| 0 <= j < |nodes[1..]| && nodes[1..][j] == rest[i];
        assert Less(nodes[0], nodes[j + 1]);
      }
    }
  }

  lemma {:induction false} WithoutAgrees(nodes: seq<Node>, id: nat)
    ensures Threads(WithoutNode(nodes, id)) == DumbRemove(Threads(nodes), id)
  {
    if nodes != [] {
      assert nodes == [nodes[0]] + nodes[1..];
      ThreadsCons(nodes[0], nodes[1..]);
      if nodes[0].id != id {
        WithoutAgrees(nodes[1..], id);
        ThreadsCons(nodes[0], WithoutNode(nodes[1..], id));
      }
    }
  }

  /** As long as the counter does not wrap, the tree is the sorted list. */
  lemma {:induction false} RbAddAgrees(tree: Tree, t: Thread)
    requires TreeOk(tree) && tree.next + 1 < KEYS && !HasId(Threads(tree.nodes), t.id)
    ensures TreeOk(RbAdd(tree, t)) && RbAdd(tree, t).next == tree.next + 1
    ensures Threads(RbAdd(tree, t).nodes) == DumbAdd(Threads(tree.nodes), t)
  {
    hide RbInsert, DumbAdd, HasId, Threads, Less;
    var n := Node(t.id, t.prio, tree.next);
    InsertAgrees(tree.nodes, n);
    InsertKeepsOrder(tree.nodes, n);
  }

  /**
   After a wrap-around it need not be: the thread added at that moment keeps the largest key,
   so a thread of the same priority that is added after it is chosen before it.
   */
  lemma {:induction false} WrapBreaksArrivalOrder(prio: int)
    ensures var tree := Lone(prio, KEYS - 1).tree;
            && TreeOk(tree)
            && Threads(RbAdd(RbAdd(tree, Thread(2, prio)), Thread(3, prio)).nodes)
               == [Thread(1, prio), Thread(3, prio), Thread(2, prio)]
            && DumbAdd(DumbAdd([Thread(1, prio)], Thread(2, prio)), Thread(3, prio))
               == [Thread(1, prio), Thread(2, prio), Thread(3, prio)]
  {
    var a, b, c := Node(1, prio, 0), Node(2, prio, KEYS - 1), Node(3, prio, 1);
    assert Renumber([a], 0) == [a];
    assert RbInsert([a], b) == [a, b];
    assert RbInsert([a, b], c) == [a] + RbInsert([b], c) == [a, c, b] by {
      assert [a, b][1..] == [b];
    }
    var t, u, v := Thread(1, prio), Thread(2, prio), Thread(3, prio);
    assert DumbAdd([t], u) == [t, u];
    assert DumbAdd([t, u], v) == [t] + DumbAdd([u], v) == [t, u, v] by {
      assert [t, u][1..] == [u];
    }
  }

  // ----- All three together ---------------------------------------------------------------

  datatype Queues = Queues(list: seq<Thread>, mq: MultiQueue, tree: Tree)

  /** What the scheduler does to its ready queue. */
  datatype Op = Add(thread: Thread) | Remove(thread: Thread) | ChangePrio(thread: Thread, prio: int)

  /** Threads are added when absent and removed when present. */
  predicate Allowed(q: Queues, op: Op) {
    match op
    case Add(t) => !HasId(q.list, t.id) && InRange(q.mq.highest, t.prio)
    case Remove(t) => t in q.list
    case ChangePrio(t, prio) => t in q.list && InRange(q.mq.highest, prio)
  }

  ghost predicate Agree(q: Queues) {
    && DistinctIds(q.list)
    && MqOk(q.mq) && Flatten(q.mq.queues) == q.list
    && TreeOk(q.tree) && Threads(q.tree.nodes) == q.list
  }

  function AddAll(q: Queues, t: Thread): Queues
    requires |q.mq.queues| == QUEUES && InRange(q.mq.highest, t.prio)
  {
    Queues(DumbAdd(q.list, t), MqAdd(q.mq, t), RbAdd(q.tree, t))
  }

  function RemoveAll(q: Queues, t: Thread): Queues
    requires |q.mq.queues| == QUEUES && InRange(q.mq.highest, t.prio)
  {
    Queues(DumbRemove(q.list, t.id), MqRemove(q.mq, t), RbRemove(q.tree, t.id))
  }

  lemma {:induction false} DumbAddMembers(q: seq<Thread>, t: Thread)
    ensures forall i | 0 <= i < |DumbAdd(q, t)| :: DumbAdd(q, t)[i] == t || DumbAdd(q, t)[i] in q
  {
    if q != [] && t.prio >= q[0].prio {
      DumbAddMembers(q[1..], t);
    }
  }

  lemma {:induction false} DumbAddDistinct(q: seq<Thread>, t: Thread)
    requires DistinctIds(q) && !HasId(q, t.id)
    ensures DistinctIds(DumbAdd(q, t))
  {
    if q != [] && t.prio >= q[0].prio {
      var rest := DumbAdd(q[1..], t);
      assert forall i | 0 <= i < |q[1..]| :: q[1..][i] == q[i + 1];
      DumbAddDistinct(q[1..], t);
      DumbAddMembers(q[1..], t);
      assert forall i | 0 <= i < |rest| :: rest[i].id != q[0].id;
    }
  }

  lemma {:induction false} DumbRemoveMembers(q: seq<Thread>, id: nat)
    ensures forall i | 0 <= i < |DumbRemove(q, id)| :: DumbRemove(q, id)[i] in q
  {
    if q != [] && q[0].id != id {
      DumbRemoveMembers(q[1..], id);
    }
  }

  lemma {:induction false} DumbRemoveDistinct(q: seq<Thread>, id: nat)
    requires DistinctIds(q)
    ensures DistinctIds(DumbRemove(q, id)) && !HasId(DumbRemove(q, id), id)
  {
    if q != [] && q[0].id != id {
      var rest := DumbRemove(q[1..], id);
      DumbRemoveDistinct(q[1..], id);
      DumbRemoveMembers(q[1..], id);
      forall i | 0 <= i < |rest| ensures rest[i].id != q[0].id {
        var j :| 0 <= j < |q[1..]| && q[1..][j] == rest[i];
        assert q[j + 1] == rest[i];
      }
      assert forall i | 0 <= i < |DumbRemove(q, id)| :: DumbRemove(q, id)[i] == if i == 0 then q[0] else rest[i - 1];
    }
  }

  predicate SortedByPrio(q: seq<Thread>) {
    forall i, j | 0 <= i < j < |q| :: q[i].prio <= q[j].prio
  }

  lemma {:induction false} AddSorted(q: seq<Thread>, t: Thread)
    requires SortedByPrio(q)
    ensures SortedByPrio(DumbAdd(q, t))
  {
    if q != [] && t.prio >= q[0].prio {
      AddSorted(q[1..], t);
      DumbAddMembers(q[1..], t);
      var rest := DumbAdd(q[1..], t);
      forall i | 0 <= i < |rest| ensures q[0].prio <= rest[i].prio {
        if rest[i] != t {
          var j :| 0 <= j < |q[1..]| && q[1..][j] == rest[i];
          assert q[j + 1] == rest[i];
        }
      }
    }
  }

  /** A thread is added behind all of the same or a higher priority, and before the others. */
  lemma {:induction false} AddStandsLast(q: seq<Thread>, t: Thread) returns (k: nat)
    requires SortedByPrio(q)
    ensures k <= |q| && DumbAdd(q, t) == Spliced(q, k, t)
    ensures forall i | 0 <= i < k :: q[i].prio <= t.prio
    ensures forall i | k <= i < |q| :: t.prio < q[i].prio
  {
    if q == [] || t.prio < q[0].prio {
      k := 0;
    } else {
      k := AddStandsLast(q[1..], t);
      k := k + 1;
      SplicedTail(q, k, t);
      assert forall i | 1 <= i < |q| :: q[i] == q[1..][i - 1];
    }
  }

  /** `after` is `before` with one more thread, last among those of its priority. */
  ghost predicate JoinsLast(before: seq<Thread>, after: seq<Thread>, t: Thread) {
    exists k | 0 <= k <= |before| :: JoinsAt(before, after, t, k)
  }

  predicate JoinsAt(before: seq<Thread>, after: seq<Thread>, t: Thread, k: nat)
    requires k <= |before|
  {
    && after == Spliced(before, k, t)
    && (forall i | 0 <= i < k :: before[i].prio <= t.prio)
    && (forall i | k <= i < |before| :: t.prio < before[i].prio)
  }

  lemma {:induction false} AddJoinsLast(q: seq<Thread>, t: Thread)
    requires SortedByPrio(q)
    ensures JoinsLast(q, DumbAdd(q, t), t)
  {
    var k := AddStandsLast(q, t);
    assert JoinsAt(q, DumbAdd(q, t), t, k);
  }

  lemma {:induction false} RemoveSorted(q: seq<Thread>, id: nat)
    requires SortedByPrio(q)
    ensures SortedByPrio(DumbRemove(q, id))
  {
    if q != [] && q[0].id != id {
      RemoveSorted(q[1..], id);
      DumbRemoveMembers(q[1..], id);
      var rest := DumbRemove(q[1..], id);
      forall i | 0 <= i < |rest| ensures q[0].prio <= rest[i].prio {
        var j :| 0 <= j < |q[1..]| && q[1..][j] == rest[i];
        assert q[j + 1] == rest[i];
      }
    }
  }

  lemma {:induction false} AddHas(q: seq<Thread>, t: Thread, id: nat)
    ensures HasId(DumbAdd(q, t), id) <==> HasId(q, id) || t.id == id
  {
    if q == [] || t.prio < q[0].prio {
      HasCons(t, q, id);
    } else {
      AddHas(q[1..], t, id);
      HasCons(q[0], q[1..], id);
      HasCons(q[0], DumbAdd(q[1..], t), id);
      assert q == [q[0]] + q[1..];
    }
  }

  lemma {:induction false} RemoveHas(q: seq<Thread>, gone: nat, id: nat)
    requires id != gone
    ensures HasId(DumbRemove(q, gone), id) <==> HasId(q, id)
  {
    if q != [] {
      assert q == [q[0]] + q[1..];
      HasCons(q[0], q[1..], id);
      if q[0].id != gone {
        RemoveHas(q[1..], gone, id);
        HasCons(q[0], DumbRemove(q[1..], gone), id);
      }
    }
  }

  lemma {:induction false} HasCons(t: Thread, q: seq<Thread>, id: nat)
    ensures HasId([t] + q, id) <==> t.id == id || HasId(q, id)
  {
    if t.id == id {
      assert ([t] + q)[0].id == id;
    } else if HasId(q, id) {
      var i :| 0 <= i < |q| && q[i].id == id;
      assert ([t] + q)[i + 1].id == id;
    }
  }

  lemma {:induction false} RemoveAbsent(q: seq<Thread>, id: nat)
    requires forall i | 0 <= i < |q| :: q[i].id != id
    ensures DumbRemove(q, id) == q
  {
    if q != [] {
      RemoveAbsent(q[1..], id);
    }
  }

  lemma {:induction false} AddAllAgrees(q: Queues, t: Thread)
    requires Agree(q) && Allowed(q, Add(t)) && q.tree.next + 1 < KEYS
    ensures Agree(AddAll(q, t)) && AddAll(q, t).tree.next == q.tree.next + 1
  {
    DumbAddDistinct(q.list, t);
    FlattenAdd(q.mq.queues, q.mq.highest, t);
    MqAddOk(q.mq, t);
    RbAddAgrees(q.tree, t);
  }

  lemma {:induction false} MqAddOk(mq: MultiQueue, t: Thread)
    requires MqOk(mq) && InRange(mq.highest, t.prio)
    ensures MqOk(MqAdd(mq, t))
  {
  }

  lemma {:induction false} RemoveAllAgrees(q: Queues, t: Thread)
    requires Agree(q) && t in q.list
    ensures InRange(q.mq.highest, t.prio)
    ensures Agree(RemoveAll(q, t)) && RemoveAll(q, t).tree.next <= q.tree.next
    ensures !HasId(RemoveAll(q, t).list, t.id)
  {
    hide DistinctIds, SortedNodes, Flatten, Threads, DumbRemove, WithoutNode, HasId, Sorted;
    InOneList(q.mq, t);
    DumbRemoveDistinct(q.list, t.id);
    FlattenRemove(q.mq.queues, t.prio - q.mq.highest, t.id);
    MqRemoveOk(q.mq, t);
    WithoutKeepsOrder(q.tree.nodes, t.id);
    WithoutAgrees(q.tree.nodes, t.id);
  }

  /** The keys start over exactly when the tree has become empty. */
  lemma {:induction false} KeysStartOver(tree: Tree, id: nat)
    ensures RbRemove(tree, id).next == if RbRemove(tree, id).nodes == [] then 0 else tree.next
  {
  }

  lemma {:induction false} MqRemoveOk(mq: MultiQueue, t: Thread)
    requires MqOk(mq) && InRange(mq.highest, t.prio)
    ensures MqOk(MqRemove(mq, t))
  {
    DumbRemoveMembers(mq.queues[t.prio - mq.highest], t.id);
  }

  /** An add needs no renumbering as long as fewer than 2^32 - 1 came before it. */
  function Apply(q: Queues, op: Op): Queues
    requires |q.mq.queues| == QUEUES && Allowed(q, op)
    requires op.Add? || InRange(q.mq.highest, op.thread.prio)
  {
    match op
    case Add(t) => AddAll(q, t)
    case Remove(t) => RemoveAll(q, t)
    case ChangePrio(t, prio) => AddAll(RemoveAll(q, t), t.(prio := prio))
  }

  lemma {:induction false} ApplyAgrees(q: Queues, op: Op)
    requires Agree(q) && Allowed(q, op) && q.tree.next + 1 < KEYS
    ensures op.Add? || InRange(q.mq.highest, op.thread.prio)
    ensures Agree(Apply(q, op)) && Apply(q, op).tree.next <= q.tree.next + 1
    ensures Apply(q, op).mq.highest == q.mq.highest
  {
    match op
    case Add(t) => AddAllAgrees(q, t);
    case Remove(t) => RemoveAllAgrees(q, t);
    case ChangePrio(t, prio) =>
      RemoveAllAgrees(q, t);
      AddAllAgrees(RemoveAll(q, t), t.(prio := prio));
  }

  /** A run of operations, each allowed where it happens. */
  ghost predicate Runs(from: Queues, ops: seq<Op>, to: Queues)
    decreases ops
  {
    if ops == [] then to == from
    else
      && |from.mq.queues| == QUEUES && Allowed(from, ops[0])
      && (ops[0].Add? || InRange(from.mq.highest, ops[0].thread.prio))
      && Runs(Apply(from, ops[0]), ops[1..], to)
  }

  function Empty(highest: int): Queues {
    Queues([], MultiQueue(highest, seq(QUEUES, _ => []), {}), Tree([], 0))
  }

  lemma {:induction false} EmptyAgrees(highest: int)
    ensures Agree(Empty(highest))
  {
    FlattenEmpty(Empty(highest).mq.queues);
  }

  /**
   After every run of adds, removals and changes of priority the sorted list is the
   concatenation of the 32 lists, bit k of the mask is set exactly when list k is not empty,
   the tree in order is the same list, and all three choose the same thread.
   */
  lemma {:induction false} EveryRunAgrees(from: Queues, ops: seq<Op>, to: Queues)
    requires Agree(from) && Runs(from, ops, to) && from.tree.next + |ops| < KEYS
    ensures Agree(to)
    ensures DumbBest(to.list) == MqBest(to.mq) == RbBest(to.tree)
    decreases ops
  {
    hide Agree, Apply, Allowed;
    if ops == [] {
      BestAgrees(to);
    } else {
      ApplyAgrees(from, ops[0]);
      EveryRunAgrees(Apply(from, ops[0]), ops[1..], to);
    }
  }

  /** z_priq_rb_best */
  function RbBest(tree: Tree): Option<Thread> {
    if tree.nodes == [] then None else Some(Thread(tree.nodes[0].id, tree.nodes[0].prio))
  }

  /** __builtin_ctz: the lowest bit that is set, from `k` on */
  function LowestFrom(mask: set<nat>, k: nat): (r: nat)
    requires k <= QUEUES
    ensures k <= r <= QUEUES
    ensures forall j | k <= j < r :: j !in mask
    ensures r < QUEUES ==> r in mask
    decreases QUEUES - k
  {
    if k == QUEUES || k in mask then k else LowestFrom(mask, k + 1)
  }

  /** z_priq_mq_best */
  function MqBest(mq: MultiQueue): Option<Thread>
    requires |mq.queues| == QUEUES
  {
    if mq.mask == {} then None
    else
      var k := LowestFrom(mq.mask, 0);
      if k < QUEUES && mq.queues[k] != [] then Some(mq.queues[k][0]) else None
  }

  /** The lowest bit finds the head of the concatenated lists. */
  lemma {:induction false} MqBestIs(mq: MultiQueue)
    requires MqOk(mq)
    ensures MqBest(mq) == DumbBest(Flatten(mq.queues))
  {
    var k := LowestFrom(mq.mask, 0);
    if mq.mask == {} {
      FlattenEmpty(mq.queues);
    } else {
      var j :| j in mq.mask;
      FlattenHead(mq.queues, k);
    }
  }

  lemma {:induction false} BestAgrees(q: Queues)
    requires Agree(q)
    ensures DumbBest(q.list) == MqBest(q.mq) == RbBest(q.tree)
  {
    MqBestIs(q.mq);
  }

  // ----- The wrap-around is reached -------------------------------------------------------

  /** A second thread comes and goes. */
  function Churn(prio: int, n: nat): seq<Op> {
    if n == 0 then [] else [Add(Thread(2, prio)), Remove(Thread(2, prio))] + Churn(prio, n - 1)
  }

  /** One thread is queued, and so many keys have been given out. */
  function Lone(prio: int, next: nat): Queues {
    var t := Thread(1, prio);
    Queues([t], MultiQueue(prio, seq(QUEUES, i => if i == 0 then [t] else []), {0}), Tree([Node(1, prio, 0)], next))
  }

  lemma {:induction false} ComesAndGoes(prio: int, next: nat)
    requires 0 < next && next + 1 < KEYS
    ensures var t, u := Thread(1, prio), Thread(2, prio);
            && Allowed(Lone(prio, next), Add(u))
            && AddAll(Lone(prio, next), u).list == [t, u]
            && RemoveAll(AddAll(Lone(prio, next), u), u) == Lone(prio, next + 1)
  {
    var t, u := Thread(1, prio), Thread(2, prio);
    var m, n := Node(1, prio, 0), Node(2, prio, next);
    assert DumbAdd([t], u) == [t, u] && DumbRemove([t, u], 2) == [t] by {
      assert [t][1..] == [] && [t, u][1..] == [u];
    }
    assert RbInsert([m], n) == [m, n] && WithoutNode([m, n], 2) == [m] by {
      assert [m][1..] == [] && [m, n][1..] == [n];
    }
    var mq := Lone(prio, next).mq;
    assert MqAdd(mq, u) == mq.(queues := mq.queues[0 := [t, u]]);
    assert MqRemove(MqAdd(mq, u), u) == mq;
  }

  lemma {:induction false} Churned(prio: int, n: nat, next: nat)
    requires 0 < next && next + n < KEYS
    ensures Runs(Lone(prio, next), Churn(prio, n), Lone(prio, next + n))
    decreases n
  {
    if n > 0 {
      var u := Thread(2, prio);
      var ops := Churn(prio, n);
      var q := AddAll(Lone(prio, next), u);
      ComesAndGoes(prio, next);
      Churned(prio, n - 1, next + 1);
      hide AddAll, RemoveAll, Lone;
      assert u in q.list && ops[1..][0] == Remove(u) && ops[1..][1..] == Churn(prio, n - 1);
      RunsTwo(Lone(prio, next), ops, q, Lone(prio, next + n));
    }
  }

  lemma {:induction false} RunsTwo(from: Queues, ops: seq<Op>, mid: Queues, to: Queues)
    requires |ops| >= 2 && ops[0].Add? && ops[1].Remove?
    requires |from.mq.queues| == QUEUES && Allowed(from, ops[0]) && mid == AddAll(from, ops[0].thread)
    requires Allowed(mid, ops[1]) && InRange(mid.mq.highest, ops[1].thread.prio)
    requires Runs(RemoveAll(mid, ops[1].thread), ops[2..], to)
    ensures Runs(from, ops, to)
  {
    assert ops[1..][1..] == ops[2..] && ops[1..][0] == ops[1];
    hide Allowed, AddAll, RemoveAll;
    assert Runs(mid, ops[1..], to);
  }

  lemma {:induction false} FirstOne(prio: int)
    ensures Allowed(Empty(prio), Add(Thread(1, prio))) && AddAll(Empty(prio), Thread(1, prio)) == Lone(prio, 1)
  {
    var t := Thread(1, prio);
    var q := AddAll(Empty(prio), t);
    assert q.list == [t] && q.tree.nodes == [Node(1, prio, 0)];
    var none: seq<Thread> := [];
    assert none + [t] == [t];
    assert q.mq.queues == Empty(prio).mq.queues[0 := [t]];
    forall i | 0 <= i < QUEUES ensures q.mq.queues[i] == Lone(prio, 1).mq.queues[i] {
    }
  }

  /** The state in which the counter is about to wrap is reached from the empty queues. */
  lemma {:induction false} WrapIsReached(prio: int)
    ensures Runs(Empty(prio), [Add(Thread(1, prio))] + Churn(prio, KEYS - 2), Lone(prio, KEYS - 1))
  {
    var t := Thread(1, prio);
    var rest := Churn(prio, KEYS - 2);
    Churned(prio, KEYS - 2, 1);
    assert ([Add(t)] + rest)[1..] == rest;
    hide Churn, AddAll, Lone;
    FirstOne(prio);
  }
}
