/** `struct k_mem_slab` as its calls update it, with the free list inside the buffer. */
module KMemSlabs {
  import opened Seqs
  import opened WaitQueues
  import opened MemSlabs

  /** The loop of create_free_list */
  method LinkBlocks(mem: array<int>, words: nat, n: nat) returns (freeList: int)
    requires if words > 0 then mem.Length == n * words else mem.Length > 0
    modifies mem
    ensures Built(mem[..], words, freeList, n)
  {
    freeList := NULL;
    var p := 0;
    for j := 0 to n
      invariant p == j * words && Built(mem[..], words, freeList, j)
    {
      CellsApart(j, n, words);
      assert words == 0 ==> j * words == 0;
      ghost var before := mem[..];
      BuildStep(before, words, freeList, j);
      mem[p] := freeList;
      assert mem[..] == before[p := freeList];
      freeList := p;
      p := p + words;
    }
  }

  class KMemSlab {
    const blockSize: nat
    const numBlocks: nat
    const address: nat
    const mem: array<int>
    var freeList: int
    var numUsed: int
    var waitQ: seq<Waiter<()>>
    ghost var live: map<nat, nat>
    ghost var free: seq<nat>

    function Words(): nat {
      blockSize / WORD
    }

    ghost function View(): Slab
      reads this, mem
    {
      Slab(Words(), numBlocks, mem[..], freeList, numUsed, live, waitQ)
    }

    ghost predicate Valid()
      reads this, mem
    {
      blockSize % WORD == 0 && Inv(View(), free)
    }

    /** The fields that k_mem_slab_init sets before it builds the free list */
    constructor (mem: array<int>, address: nat, blockSize: nat, numBlocks: nat)
      ensures this.mem == mem && this.address == address
      ensures this.blockSize == blockSize && this.numBlocks == numBlocks
      ensures numUsed == 0 && waitQ == [] && live == map[]
    {
      this.mem, this.address, this.blockSize, this.numBlocks := mem, address, blockSize, numBlocks;
      freeList, numUsed, waitQ, live, free := NULL, 0, [], map[], [];
    }

    /**
     create_free_list. Misaligned slabs are refused. Otherwise the list is a chain of all blocks,
     unless blocks of no size are laid on top of one another.
     */
    method CreateFreeList() returns (code: Code)
      requires numUsed == 0 && waitQ == [] && live == map[]
      requires if Words() > 0 then mem.Length == numBlocks * Words() else mem.Length > 0
      modifies this`freeList, this`free, mem
      ensures code == Invalid <==> blockSize % WORD != 0 || address % WORD != 0
      ensures code == Invalid ==> mem[..] == old(mem[..]) && freeList == old(freeList)
      ensures code != Invalid ==>
                (Acyclic(mem[..], Words(), freeList) <==> blockSize > 0 || numBlocks <= 1)
      ensures code != Invalid && blockSize > 0 ==>
                Valid() && View() == Fresh(Words(), numBlocks, mem[..], freeList) && free == Down(numBlocks)
    {
      if blockSize % WORD != 0 || address % WORD != 0 {
        return Invalid;
      }
      freeList := LinkBlocks(mem, Words(), numBlocks);
      free := Down(numBlocks);
      BuiltChain(mem[..], Words(), freeList, numBlocks);
      if Words() > 0 {
        FreshInv(Words(), numBlocks, mem[..], freeList);
      }
      return Ok;
    }

    /** k_mem_slab_alloc, up to the point where the caller pends */
    method Alloc(id: nat, prio: int, wait: bool) returns (code: Code, block: int)
      requires Valid() && Allowed(View(), Call.Alloc(id, prio, wait))
      modifies this
      ensures Valid() && (View(), code, block) == Step(old(View()), Call.Alloc(id, prio, wait))
    {
      StepKeepsInv(View(), free, Call.Alloc(id, prio, wait));
      hide Inv;
      free := FreeAfter(View(), free, Call.Alloc(id, prio, wait));
      if freeList != NULL {
        block := freeList;
        live := live[BlockAt(View(), freeList) := id];
        freeList := mem[freeList];
        numUsed := numUsed + 1;
        code := Ok;
      } else if !wait {
        code, block := NoMem, NULL;
      } else {
        waitQ := PriqAdd(waitQ, Waiter(id, prio, ()));
        code, block := Pending, NULL;
      }
    }

    /** k_mem_slab_free of the block at an address that an allocation returned */
    method Free(addr: nat, ghost block: nat)
      requires Valid() && Allowed(View(), Call.Free(block)) && addr == block * Words()
      modifies this, mem
      ensures Valid() && (View(), Ok, addr) == Step(old(View()), Call.Free(block))
    {
      ghost var before := mem[..];
      StepKeepsInv(View(), free, Call.Free(block));
      hide Inv;
      free := FreeAfter(View(), free, Call.Free(block));
      if freeList == NULL && |waitQ| > 0 {
        live := live[block := waitQ[0].id];
        waitQ := waitQ[1..];
        return;
      }
      live := live - {block};
      mem[addr] := freeList;
      assert mem[..] == before[addr := freeList];
      freeList := addr;
      numUsed := numUsed - 1;
    }

    /** A waiting thread's timeout */
    method Expire(id: nat)
      requires Valid() && Allowed(View(), Call.Expire(id))
      modifies this`waitQ
      ensures Valid() && View() == Step(old(View()), Call.Expire(id)).0
    {
      StepKeepsInv(View(), free, Call.Expire(id));
      waitQ := PriqRemove(waitQ, id);
    }
  }
}
