/**
 Memory slabs (kernel/mem_slab.c): equal blocks of one buffer, the free ones linked through
 their own first words. Addresses are offsets into the buffer, counted in words.
 */
module MemSlabs {
  import opened Seqs
  import opened WaitQueues

  const NULL := -1
  const WORD := 4

  /** Blocks are named by number: block k starts at word `k * words`. `live` maps blocks to holders. */
  datatype Slab = Slab(words: nat, count: nat, mem: seq<int>, freeList: int, used: int,
                       live: map<nat, nat>, waiters: seq<Waiter<()>>)

  datatype Code = Ok | NoMem | Again | Pending | Invalid

  // ----- The free list --------------------------------------------------------------------

  /** Following links from `p` visits the starts of exactly these blocks and ends. */
  predicate Chain(mem: seq<int>, words: nat, p: int, blocks: seq<nat>)
    decreases |blocks|
  {
    if blocks == [] then p == NULL
    else p == blocks[0] * words && p < |mem| && Chain(mem, words, mem[p], blocks[1..])
  }

  predicate NoRepeats(blocks: seq<nat>) {
    forall i, j | 0 <= i < j < |blocks| :: blocks[i] != blocks[j]
  }

  /** A write outside the first words of the listed blocks leaves the chain alone. */
  lemma {:induction false} ChainSurvives(mem: seq<int>, words: nat, p: int, blocks: seq<nat>, at: nat, v: int)
    requires Chain(mem, words, p, blocks) && at < |mem|
    requires forall i | 0 <= i < |blocks| :: blocks[i] * words != at
    ensures Chain(mem[at := v], words, p, blocks)
    decreases |blocks|
  {
    if blocks != [] {
      forall i | 0 <= i < |blocks[1..]| ensures blocks[1..][i] * words != at {
        assert blocks[1..][i] == blocks[i + 1];
      }
      assert blocks[0] * words != at;
      ChainSurvives(mem, words, mem[p], blocks[1..], at, v);
    }
  }

  /** The chain determines the list. */
  lemma {:induction false} ChainUnique(mem: seq<int>, words: nat, p: int, a: seq<nat>, b: seq<nat>)
    requires words > 0 && Chain(mem, words, p, a) && Chain(mem, words, p, b)
    ensures a == b
    decreases |a|
  {
    if a != [] && b != [] {
      if a[0] < b[0] {
        CellsApart(a[0], b[0], words);
      } else if b[0] < a[0] {
        CellsApart(b[0], a[0], words);
      }
      ChainUnique(mem, words, mem[p], a[1..], b[1..]);
      assert a == [a[0]] + a[1..] && b == [b[0]] + b[1..];
    }
  }

  // ----- Calls ----------------------------------------------------------------------------

  datatype Call =
    | Alloc(id: nat, prio: int, wait: bool)
    | Free(block: nat)
    | Expire(id: nat)
    | Write(block: nat, word: nat, value: int)

  /** Only live blocks are freed or written to; the free list's words must be there to be read. */
  predicate Allowed(s: Slab, call: Call) {
    match call
    case Alloc(id, _, _) => !Has(s.waiters, id) && (s.freeList == NULL || 0 <= s.freeList < |s.mem|)
    case Free(block) => block in s.live && block * s.words < |s.mem|
    case Expire(id) => Has(s.waiters, id)
    case Write(block, word, _) => block in s.live && word < s.words && block * s.words + word < |s.mem|
  }

  function BlockAt(s: Slab, p: int): nat
    requires p >= 0
  {
    if s.words == 0 then 0 else p / s.words
  }

  /** The address that comes back is the allocated block's, or NULL. */
  function Step(s: Slab, call: Call): (Slab, Code, int)
    requires Allowed(s, call)
  {
    match call
    case Alloc(id, prio, wait) =>
      if s.freeList != NULL then
        (s.(freeList := s.mem[s.freeList], used := s.used + 1, live := s.live[BlockAt(s, s.freeList) := id]),
         Ok, s.freeList)
      else if !wait then (s, NoMem, NULL)
      else (s.(waiters := Insert(s.waiters, Waiter(id, prio, ()))), Pending, NULL)
    case Free(block) =>
      var p := block * s.words;
      if s.freeList == NULL && s.waiters != [] then
        (s.(waiters := s.waiters[1..], live := s.live[block := s.waiters[0].id]), Ok, p)
      else
        (s.(mem := s.mem[p := s.freeList], freeList := p, used := s.used - 1, live := s.live - {block}), Ok, p)
    case Expire(id) =>
      (s.(waiters := Drop(s.waiters, id)), Again, NULL)
    case Write(block, word, value) =>
      (s.(mem := s.mem[block * s.words + word := value]), Ok, NULL)
  }

  // ----- What every step keeps ------------------------------------------------------------

  /** Every block is either live or on the free list, once. */
  ghost predicate Partition(s: Slab, free: seq<nat>) {
    && NoRepeats(free)
    && (forall i | 0 <= i < |free| :: free[i] < s.count && free[i] !in s.live)
    && (forall k | k in s.live :: k < s.count)
    && (forall k: nat | k < s.count :: k in s.live || k in free)
    && |free| + |s.live| == s.count
  }

  ghost predicate Inv(s: Slab, free: seq<nat>) {
    && s.words > 0 && |s.mem| == s.count * s.words
    && Chain(s.mem, s.words, s.freeList, free)
    && Partition(s, free)
    && s.used == |s.live|
    && Ordered(s.waiters)
    && (s.waiters != [] ==> free == [])
  }

  /** The free list after a call. */
  function FreeAfter(s: Slab, free: seq<nat>, call: Call): seq<nat> {
    match call
    case Alloc(_, _, _) => if free == [] then [] else free[1..]
    case Free(block) => if free == [] && s.waiters != [] then [] else [block] + free
    case Expire(_) => free
    case Write(_, _, _) => free
  }

  lemma {:induction false} BlockAtStart(s: Slab, k: nat)
    requires s.words > 0
    ensures BlockAt(s, k * s.words) == k
  {
    var q, r := (k * s.words) / s.words, (k * s.words) % s.words;
    assert k * s.words == q * s.words + r;
    if q < k {
      CellsApart(q, k, s.words);
    } else if k < q {
      CellsApart(k, q, s.words);
    }
  }

  lemma {:induction false} StartsApart(words: nat, j: nat, k: nat)
    requires words > 0 && j != k
    ensures j * words != k * words
  {
  }

  lemma {:induction false} AllocKeepsInv(s: Slab, free: seq<nat>, id: nat, prio: int, wait: bool)
    requires Inv(s, free) && Allowed(s, Alloc(id, prio, wait))
    ensures Inv(Step(s, Alloc(id, prio, wait)).0, FreeAfter(s, free, Alloc(id, prio, wait)))
  {
    hide Partition, Ordered;
    if free != [] {
      BlockAtStart(s, free[0]);
      TakenFirst(s, free, id);
      SamePartition(s.(live := s.live[free[0] := id]), Step(s, Alloc(id, prio, wait)).0, free[1..]);
    } else {
      hide Chain;
      InsertOrdered(s.waiters, Waiter(id, prio, ()));
      SamePartition(s, Step(s, Alloc(id, prio, wait)).0, free);
    }
  }

  lemma {:induction false} SamePartition(s: Slab, r: Slab, free: seq<nat>)
    requires Partition(s, free) && r.live == s.live && r.count == s.count
    ensures Partition(r, free)
  {
  }

  lemma {:induction false} TakenFirst(s: Slab, free: seq<nat>, id: nat)
    requires Partition(s, free) && free != []
    ensures Partition(s.(live := s.live[free[0] := id]), free[1..])
    ensures |s.live[free[0] := id]| == |s.live| + 1
  {
  }

  lemma {:induction false} PutBack(s: Slab, free: seq<nat>, block: nat)
    requires Partition(s, free) && block in s.live
    ensures Partition(s.(live := s.live - {block}), [block] + free)
    ensures |s.live - {block}| == |s.live| - 1
  {
  }

  lemma {:induction false} FreeKeepsInv(s: Slab, free: seq<nat>, block: nat)
    requires Inv(s, free) && Allowed(s, Free(block))
    ensures Inv(Step(s, Free(block)).0, FreeAfter(s, free, Free(block)))
  {
    if free == [] && s.waiters != [] {
      var live := s.live[block := s.waiters[0].id];
      assert live.Keys == s.live.Keys;
      assert |live| == |live.Keys| && |s.live| == |s.live.Keys|;
    } else {
      assert s.waiters == [];
      forall i | 0 <= i < |free| ensures free[i] * s.words != block * s.words {
        StartsApart(s.words, free[i], block);
      }
      ChainSurvives(s.mem, s.words, s.freeList, free, block * s.words, s.freeList);
      PutBack(s, free, block);
      assert ([block] + free)[1..] == free;
    }
  }

  lemma {:induction false} WriteKeepsInv(s: Slab, free: seq<nat>, block: nat, word: nat, value: int)
    requires Inv(s, free) && Allowed(s, Write(block, word, value))
    ensures Inv(Step(s, Write(block, word, value)).0, free)
  {
    forall i | 0 <= i < |free| ensures free[i] * s.words != block * s.words + word {
      if free[i] < block {
        CellsApart(free[i], block, s.words);
      } else {
        CellsApart(block, free[i], s.words);
      }
    }
    ChainSurvives(s.mem, s.words, s.freeList, free, block * s.words + word, value);
  }

  lemma {:induction false} StepKeepsInv(s: Slab, free: seq<nat>, call: Call)
    requires Inv(s, free) && Allowed(s, call)
    ensures Inv(Step(s, call).0, FreeAfter(s, free, call))
  {
    match call
    case Alloc(id, prio, wait) => AllocKeepsInv(s, free, id, prio, wait);
    case Free(block) => FreeKeepsInv(s, free, block);
    case Expire(id) => DropMembers(s.waiters, id);
    case Write(block, word, value) => WriteKeepsInv(s, free, block, word, value);
  }

  // ----- Every run ------------------------------------------------------------------------

  ghost predicate Runs(from: Slab, calls: seq<Call>, to: Slab)
    decreases |calls|
  {
    if calls == [] then to == from
    else Allowed(from, calls[0]) && Runs(Step(from, calls[0]).0, calls[1..], to)
  }

  /** The free list stays an acyclic chain of exactly the blocks nobody holds. */
  lemma {:induction false} EveryRun(from: Slab, free: seq<nat>, calls: seq<Call>, to: Slab) returns (after: seq<nat>)
    requires Inv(from, free) && Runs(from, calls, to)
    ensures Inv(to, after)
    decreases |calls|
  {
    hide Inv;
    if calls == [] {
      after := free;
    } else {
      StepKeepsInv(from, free, calls[0]);
      after := EveryRun(Step(from, calls[0]).0, FreeAfter(from, free, calls[0]), calls[1..], to);
    }
  }

  /** No call is refused in a state that keeps the invariant, as far as memory goes. */
  lemma {:induction false} NeverOutside(s: Slab, free: seq<nat>, id: nat, prio: int, wait: bool, block: nat)
    requires Inv(s, free)
    ensures Allowed(s, Alloc(id, prio, wait)) <==> !Has(s.waiters, id)
    ensures Allowed(s, Free(block)) <==> block in s.live
  {
    if block in s.live {
      CellsApart(block, s.count, s.words);
    }
  }

  /** Blocks held at the same time lie in the buffer and do not overlap. */
  lemma {:induction false} HeldApart(s: Slab, free: seq<nat>, j: nat, k: nat)
    requires Inv(s, free) && j in s.live && k in s.live && j < k
    ensures 0 <= j * s.words && j * s.words + s.words <= k * s.words && k * s.words + s.words <= |s.mem|
  {
    CellsApart(j, k, s.words);
    CellsApart(k, s.count, s.words);
  }

  /** An allocation succeeds exactly while fewer than all blocks are held, with one nobody held. */
  lemma {:induction false} AllocGivesUnheld(s: Slab, free: seq<nat>, id: nat, prio: int, wait: bool)
    requires Inv(s, free) && Allowed(s, Alloc(id, prio, wait))
    ensures Step(s, Alloc(id, prio, wait)).1 == Ok <==> s.used < s.count
    ensures s.used < s.count ==>
              exists k :: k < s.count && k !in s.live && Step(s, Alloc(id, prio, wait)).2 == k * s.words
                          && Step(s, Alloc(id, prio, wait)).0.live == s.live[k := id]
  {
    if free != [] {
      BlockAtStart(s, free[0]);
      assert free[0] < s.count && free[0] !in s.live;
    }
  }

  /** A freed block goes to the first waiter at once, if there is one. */
  lemma {:induction false} WaiterGetsBlock(s: Slab, free: seq<nat>, block: nat)
    requires Inv(s, free) && Allowed(s, Free(block)) && s.waiters != []
    ensures var s' := Step(s, Free(block)).0;
            s'.live == s.live[block := s.waiters[0].id] && s'.used == s.used && s'.mem == s.mem
  {
  }

  // ----- What callers and waiters are told ------------------------------------------------

  /** Without a free block an allocation is refused with -ENOMEM, or waits last among those of its priority. */
  lemma {:induction false} AllocOutcome(s: Slab, free: seq<nat>, id: nat, prio: int, wait: bool)
    requires Inv(s, free) && Allowed(s, Alloc(id, prio, wait))
    ensures var (s', code, p) := Step(s, Alloc(id, prio, wait));
            && (s.used < s.count ==>
                  code == Ok && s'.used == s.used + 1 && s'.waiters == s.waiters && s'.mem == s.mem)
            && (s.used == s.count && !wait ==> code == NoMem && p == NULL && s' == s)
            && (s.used == s.count && wait ==>
                  && code == Pending && p == NULL && s' == s.(waiters := s'.waiters)
                  && Queued(s.waiters, s'.waiters, Waiter(id, prio, ())))
  {
    InsertQueues(s.waiters, Waiter(id, prio, ()));
    hide Queued;
  }

  /** A freed block goes to the first waiter; with nobody waiting it is free, and is the next to be allocated. */
  lemma {:induction false} FreeOutcome(s: Slab, free: seq<nat>, block: nat, id: nat, prio: int, wait: bool)
    requires Inv(s, free) && Allowed(s, Free(block))
    ensures var (s', code, _) := Step(s, Free(block));
            && code == Ok
            && (s.waiters != [] ==> s'.waiters == s.waiters[1..] && s'.live == s.live[block := s.waiters[0].id])
            && (s.waiters == [] ==>
                  && s'.waiters == [] && s'.live == s.live - {block} && s'.used == s.used - 1
                  && Allowed(s', Alloc(id, prio, wait))
                  && Step(s', Alloc(id, prio, wait)).2 == block * s.words)
  {
    assert block * s.words >= 0;
  }

  /** The waiter whose timeout strikes is the one that leaves. */
  lemma {:induction false} ExpireOutcome(s: Slab, free: seq<nat>, id: nat)
    requires Inv(s, free) && Allowed(s, Expire(id))
    ensures var (s', code, p) := Step(s, Expire(id));
            s' == s.(waiters := s'.waiters) && Left(s.waiters, s'.waiters, id) && code == Again && p == NULL
  {
    DropLeaves(s.waiters, id);
    hide Left;
  }

  // ----- Building the free list -----------------------------------------------------------

  /** The blocks below `n`, last first. */
  function Down(n: nat): seq<nat> {
    if n == 0 then [] else [n - 1] + Down(n - 1)
  }

  lemma {:induction false} DownAll(n: nat)
    ensures |Down(n)| == n && NoRepeats(Down(n))
    ensures forall i | 0 <= i < n :: Down(n)[i] == n - 1 - i
  {
    if n > 0 {
      DownAll(n - 1);
    }
  }

  function Fresh(words: nat, count: nat, mem: seq<int>, freeList: int): Slab {
    Slab(words, count, mem, freeList, 0, map[], [])
  }

  lemma {:induction false} FreshInv(words: nat, count: nat, mem: seq<int>, freeList: int)
    requires words > 0 && |mem| == count * words && Chain(mem, words, freeList, Down(count))
    ensures Inv(Fresh(words, count, mem, freeList), Down(count))
  {
    DownAll(count);
    forall k: nat | k < count ensures k in Down(count) {
      assert Down(count)[count - 1 - k] == k;
    }
  }

  /** A word that links to itself starts no finite chain. */
  lemma {:induction false} SelfLink(mem: seq<int>, words: nat, p: nat, blocks: seq<nat>)
    requires p < |mem| && mem[p] == p
    ensures !Chain(mem, words, p, blocks)
    decreases |blocks|
  {
    if blocks != [] {
      SelfLink(mem, words, p, blocks[1..]);
    }
  }

  /** The free list once the first `j` blocks have been put on it. */
  predicate Built(mem: seq<int>, words: nat, freeList: int, j: nat) {
    if words > 0 then Chain(mem, words, freeList, Down(j))
    else if j == 0 then freeList == NULL
    else freeList == 0 && mem != [] && mem[0] == if j == 1 then NULL else 0
  }

  lemma {:induction false} BuildStep(mem: seq<int>, words: nat, freeList: int, j: nat)
    requires Built(mem, words, freeList, j) && j * words < |mem|
    ensures Built(mem[j * words := freeList], words, j * words, j + 1)
  {
    if words > 0 {
      DownAll(j);
      forall i | 0 <= i < j ensures Down(j)[i] * words != j * words {
        StartsApart(words, Down(j)[i], j);
      }
      ChainSurvives(mem, words, freeList, Down(j), j * words, freeList);
      assert Down(j + 1)[1..] == Down(j);
    } else {
      assert j * words == 0;
    }
  }

  predicate EndsSomewhere(mem: seq<int>, words: nat, p: int, blocks: seq<nat>)
  {
    Chain(mem, words, p, blocks)
  }

  /** Following the links from `p` comes to an end. */
  ghost predicate Acyclic(mem: seq<int>, words: nat, p: int) {
    exists blocks :: EndsSomewhere(mem, words, p, blocks)
  }

  /** The list is a chain exactly when blocks have a size or there is at most one of them. */
  lemma {:induction false} BuiltChain(mem: seq<int>, words: nat, freeList: int, n: nat)
    requires Built(mem, words, freeList, n)
    ensures Acyclic(mem, words, freeList) <==> words > 0 || n <= 1
  {
    if words > 0 {
      assert EndsSomewhere(mem, words, freeList, Down(n));
    } else if n == 0 {
      assert EndsSomewhere(mem, words, freeList, []);
    } else if n == 1 {
      var blocks: seq<nat> := [0];
      assert blocks[1..] == [];
      assert EndsSomewhere(mem, words, freeList, blocks);
    } else {
      forall blocks ensures !EndsSomewhere(mem, words, freeList, blocks) {
        SelfLink(mem, words, 0, blocks);
      }
    }
  }

  /** With two blocks of no size the one word there is ends up linking to itself. */
  lemma {:induction false} SizelessSlabLoops(mem: seq<int>)
    requires mem != []
    ensures var after := mem[0 := NULL][0 := 0];
            Built(mem, 0, NULL, 0) && Built(after, 0, 0, 2) && !Acyclic(after, 0, 0)
  {
    BuildStep(mem, 0, NULL, 0);
    BuildStep(mem[0 := NULL], 0, 0, 1);
    BuiltChain(mem[0 := NULL][0 := 0], 0, 0, 2);
  }
}
