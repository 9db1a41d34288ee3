/** `heap_2.c`: headers in memory, linked in order of size. */
module BestFitHeap {
  import Rings
  import opened HeapTape
  import opened HeapHeaders
  import opened HeapRegions
  import opened BestFit

  /** A pointer to `xEnd`, which lies outside the heap. */
  const XEND: nat := 1

  // ----- headers

  /** An entry linked in at place k. */
  lemma ChainInserted(m: Memory, start: nat, list: seq<Block>, k: nat, b: Block, m': Memory, start': nat)
    requires Chain(m, start, list) && k < |list| && DistinctAddrs(list) &&
             forall j :: 0 <= j < |list| ==> list[j].addr != b.addr
    requires b.addr in m' && m'[b.addr] == Header(list[k].addr, b.size)
    requires if k == 0 then start' == b.addr
             else start' == start && list[k - 1].addr in m' && m'[list[k - 1].addr] == Header(b.addr, list[k - 1].size)
    requires forall a :: a in m && a != b.addr && (k == 0 || a != list[k - 1].addr) ==> a in m' && m'[a] == m[a]
    ensures Chain(m', start', Rings.InsertAt(list, k, b))
  {
    var list' := Rings.InsertAt(list, k, b);
    forall j | 0 <= j < |list'| ensures HeaderOk(m', list', j) {
      if j + 1 < k {
        assert HeaderOk(m, list, j);
      } else if j > k {
        assert HeaderOk(m, list, j - 1);
      }
    }
  }

  /** Only entries of the list, the block and its remainder have changed, and only the block is marked. */
  ghost predicate Retouched(m: Memory, m': Memory, list: seq<Block>, block: nat, remainder: nat) {
    && (forall a :: a in m ==> a in m')
    && (forall a :: a in m' ==>
          || (a in m && m'[a] == m[a]) || a == block
          || (m'[a].xBlockSize < ALLOCATED && (a == remainder || exists j :: 0 <= j < |list| && list[j].addr == a)))
  }

  /** The address of what is split off a block, or that of the block. */
  function RemainderAt(c: Cell, want: nat): nat
    requires want <= c.size
  {
    if c.size - want > MINIMUM then c.addr + want else c.addr
  }

  lemma {:induction false} EntryNotUsed(h: Heap2, j: nat, i: nat)
    requires Inv(h) && j < |h.list| && i < |h.tape| && h.tape[i].kind.Used?
    ensures h.list[j].addr != h.tape[i].addr
  {
    assert h.list[j] in h.list;
    NotAnEntry(h.tape, i, h.tape[i].addr, h.list[j]);
  }

  lemma {:induction false} MallocMarks(h: Heap2, i: nat, want: nat, m: Memory, m': Memory)
    requires Inv(h) && UsedOk(m, h.tape) && i < |h.tape| && 0 < want && Fits(h.tape[i], want)
    requires Retouched(m, m', h.list, h.tape[i].addr, RemainderAt(h.tape[i], want))
    requires h.tape[i].addr in m' && m'[h.tape[i].addr] ==
             Header(0, Carve(h.tape[i], want, MINIMUM)[0].size + ALLOCATED)
    ensures UsedOk(m', Allocated(h.tape, i, want, MINIMUM))
  {
    var now, mid := Allocated(h.tape, i, want, MINIMUM), Carve(h.tape[i], want, MINIMUM);
    forall j | 0 <= j < |now| ensures UsedHeader(m', now[j]) {
      if j < i || j >= i + |mid| {
        var o := if j < i then j else j - |mid| + 1;
        assert now[j] == h.tape[o];
        MallocElsewhere(h, i, o, want, m, m');
      }
    }
    assert now[i].kind.Used? && now[i].addr == h.tape[i].addr;
    forall a | a in m' && m'[a].xBlockSize >= ALLOCATED ensures AllocatedAt(now, a) {
      if a != h.tape[i].addr {
        assert a in m && m[a] == m'[a];
        var o :| 0 <= o < |h.tape| && h.tape[o].kind.Used? && h.tape[o].addr == a;
        assert now[if o < i then o else o + |mid| - 1] == h.tape[o];
      }
    }
  }

  lemma {:induction false} MallocElsewhere(h: Heap2, i: nat, o: nat, want: nat, m: Memory, m': Memory)
    requires Inv(h) && UsedOk(m, h.tape) && i < |h.tape| && o < |h.tape| && o != i && 0 < want && Fits(h.tape[i], want)
    requires Retouched(m, m', h.list, h.tape[i].addr, RemainderAt(h.tape[i], want))
    ensures UsedHeader(m', h.tape[o])
  {
    if h.tape[o].kind.Used? {
      var a := h.tape[o].addr;
      assert UsedHeader(m, h.tape[o]);
      forall j | 0 <= j < |h.list| ensures h.list[j].addr != a {
        EntryNotUsed(h, j, o);
      }
      if i < o {
        Increasing(h.tape, i, o);
      } else {
        Increasing(h.tape, o, i);
      }
    }
  }

  lemma {:induction false} FreeMarks(h: Heap2, i: nat, m: Memory, m': Memory)
    requires Inv(h) && UsedOk(m, h.tape) && i < |h.tape| && h.tape[i].kind.Used?
    requires Retouched(m, m', h.list, h.tape[i].addr, h.tape[i].addr)
    requires h.tape[i].addr in m' && m'[h.tape[i].addr].xBlockSize < ALLOCATED
    ensures UsedOk(m', h.tape[i := h.tape[i].(kind := Kind.Free)])
  {
    var now := h.tape[i := h.tape[i].(kind := Kind.Free)];
    forall o | 0 <= o < |now| ensures UsedHeader(m', now[o]) {
      if o != i && h.tape[o].kind.Used? {
        assert UsedHeader(m, h.tape[o]);
        CellsDiffer(h.tape, i, o);
        forall j | 0 <= j < |h.list| ensures h.list[j].addr != h.tape[o].addr {
          EntryNotUsed(h, j, o);
        }
      }
    }
    forall a | a in m' && m'[a].xBlockSize >= ALLOCATED ensures AllocatedAt(now, a) {
      assert a in m && m[a] == m'[a];
      var o :| 0 <= o < |h.tape| && h.tape[o].kind.Used? && h.tape[o].addr == a;
      assert now[o] == h.tape[o];
    }
  }

  /** Every block is at most as large as the heap, and lies in it. */
  lemma {:induction false} WithinHeap(tape: seq<Cell>, i: nat)
    requires Contiguous(tape) && i < |tape|
    ensures tape[0].addr <= tape[i].addr && End(tape[i]) <= End(tape[|tape| - 1])
  {
    if i > 0 {
      Increasing(tape, 0, i);
    }
    if i < |tape| - 1 {
      Increasing(tape, i, |tape| - 1);
    }
  }

  class Heap {
    var memory: Memory
    var startNext: nat
    var xFreeBytesRemaining: nat
    var xHeapHasBeenInitialised: bool
    /** `configADJUSTED_HEAP_SIZE`. */
    const adjusted: nat
    ghost var heap: Heap2

    ghost predicate Valid()
      reads this
    {
      && Inv(heap) && InBounds()
      && Chain(memory, startNext, Entries()) && UsedOk(memory, heap.tape)
      && xFreeBytesRemaining == FreeBytes(heap.tape)
    }

    ghost predicate InBounds()
      reads this
    {
      && heap.tape != [] && heap.tape[0].addr > XEND && adjusted < ALLOCATED
      && End(heap.tape[|heap.tape| - 1]) == heap.tape[0].addr + adjusted
    }

    /** The free list with its end marker, which is as large as the heap. */
    ghost function Entries(): (l: seq<Block>)
      reads this
    {
      heap.list + [Block(XEND, adjusted)]
    }

    constructor (adjusted: nat)
      requires 0 < adjusted < ALLOCATED
      ensures !xHeapHasBeenInitialised && this.adjusted == adjusted && xFreeBytesRemaining == adjusted &&
              memory == map[]
    {
      this.adjusted := adjusted;
      memory, startNext, xFreeBytesRemaining, xHeapHasBeenInitialised := map[], 0, adjusted, false;
      heap := Heap2([], []);
    }

    /** One free block, from the first aligned address of the array `ucHeap` on, which is `ALIGNMENT` bytes
        larger than the block. */
    method HeapInit(ucHeap: nat) returns (pucAlignedHeap: nat)
      requires memory == map[] && 0 < adjusted < ALLOCATED && ucHeap > 0 && xFreeBytesRemaining == adjusted
      modifies this`memory, this`startNext, this`heap
      ensures Valid() && heap == Heap2([Cell(pucAlignedHeap, adjusted, Kind.Free)], [Block(pucAlignedHeap, adjusted)])
      ensures pucAlignedHeap % ALIGNMENT == 0
      ensures ucHeap <= pucAlignedHeap && pucAlignedHeap + adjusted < ucHeap + adjusted + ALIGNMENT
    {
      pucAlignedHeap := RoundDown(ucHeap + ALIGNMENT - 1);
      startNext := pucAlignedHeap;
      memory := memory[XEND := Header(0, adjusted)];
      memory := memory[pucAlignedHeap := Header(XEND, adjusted)];
      heap := Heap2([Cell(pucAlignedHeap, adjusted, Kind.Free)], [Block(pucAlignedHeap, adjusted)]);
      ListingOfOne(heap.tape[0]);
      assert HeaderOk(memory, Entries(), 0) && HeaderOk(memory, Entries(), 1);
    }

    function GetNext(p: nat): nat
      requires p == 0 || p in memory
      reads this
    {
      if p == 0 then startNext else memory[p].next
    }

    method SetNext(p: nat, next: nat)
      requires p == 0 || p in memory
      modifies this`memory, this`startNext
      ensures p == 0 ==> memory == old(memory) && startNext == next
      ensures p != 0 ==> startNext == old(startNext) &&
                         memory == old(memory)[p := Header(next, old(memory)[p].xBlockSize)]
    {
      if p == 0 {
        startNext := next;
      } else {
        memory := memory[p := memory[p].(next := next)];
      }
    }

    /** `InsertBlockIntoFreeList`. The walk ends at the end marker, because no block is larger than it. */
    method InsertBlockIntoFreeList(block: nat, ghost list: seq<Block>)
      requires Chain(memory, startNext, list + [Block(XEND, adjusted)]) && DistinctAddrs(list + [Block(XEND, adjusted)])
      requires block in memory && memory[block].xBlockSize <= adjusted && block != XEND && block != 0
      requires forall j :: 0 <= j < |list| ==> list[j].addr != block && list[j].addr != 0
      modifies this`memory, this`startNext
      ensures var b := Block(block, old(memory)[block].xBlockSize);
              Chain(memory, startNext, InsertBySize(list, b) + [Block(XEND, adjusted)])
      ensures forall a :: a in old(memory) ==> a in memory && memory[a].xBlockSize == old(memory)[a].xBlockSize
      ensures forall a :: a in memory ==>
                (a in old(memory) && memory[a] == old(memory)[a]) || a == block || exists j ::
                    0 <= j < |list| && list[j].addr == a
    {
      ghost var all, m, start := list + [Block(XEND, adjusted)], memory, startNext;
      var size := memory[block].xBlockSize;
      var before := 0;
      ghost var k := 0;
      assert HeaderOk(memory, all, 0);
      while memory[GetNext(before)].xBlockSize < size
        invariant k < |all| && HeaderOk(memory, all, k)
        invariant before == (if k == 0 then 0 else all[k - 1].addr) && (k > 0 ==> HeaderOk(memory, all, k - 1))
        invariant GetNext(before) == all[k].addr
        invariant forall j :: 0 <= j < k ==> all[j].size < size
        decreases |all| - k
      {
        before := GetNext(before);
        k := k + 1;
        assert HeaderOk(memory, all, k);
      }
      memory := memory[block := Header(GetNext(before), size)];
      SetNext(before, block);
      InsertedAt(list, k, Block(block, size), adjusted);
      ChainInserted(m, start, all, k, Block(block, size), memory, startNext);
      assert k > 0 ==> list[k - 1] == all[k - 1];
    }

    // ----- malloc

    /** Walk the list from the smallest block until one is large enough, or the end. */
    method FindBlock(want: nat) returns (previous: nat, block: nat, ghost k: nat)
      requires Valid() && want > 0
      ensures k == FirstOf(heap.list, want) && block == Entries()[k].addr
      ensures previous == if k == 0 then 0 else heap.list[k - 1].addr
    {
      ghost var all := Entries();
      previous, block, k := 0, startNext, 0;
      assert HeaderOk(memory, all, 0);
      while memory[block].xBlockSize < want && memory[block].next != 0
        invariant k < |all| && block == all[k].addr && HeaderOk(memory, all, k)
        invariant previous == if k == 0 then 0 else heap.list[k - 1].addr
        invariant forall j :: 0 <= j < k ==> heap.list[j].size < want
        decreases |all| - k
      {
        previous := block;
        block := memory[block].next;
        k := k + 1;
        assert HeaderOk(memory, all, k);
      }
      if k < |heap.list| {
        EntryAddr(heap, k);
        if k + 1 < |heap.list| {
          EntryAddr(heap, k + 1);
        }
      }
      FirstIs(heap.list, want, k);
    }

    method Malloc(wanted: nat) returns (p: nat)
      requires Valid()
      modifies this
      ensures Valid() && Served(old(heap), wanted, p, heap)
    {
      p := 0;
      var want := BlockSize(wanted);
      if want < ALLOCATED && 0 < want {
        EntriesAreFreeBytes(heap, FirstOf(heap.list, want));
        if want <= xFreeBytesRemaining {
          var previous, block;
          ghost var k;
          previous, block, k := FindBlock(want);
          if k < |heap.list| {
            EntryAddr(heap, k);
          }
          if block != XEND {
            p := block + STRUCT;
            TakeBlock(want, previous, block, k);
          }
        }
      }
    }

    method TakeBlock(want: nat, previous: nat, block: nat, ghost k: nat)
      requires Valid() && want > 0 && k == FirstOf(heap.list, want) && k < |heap.list| && block == heap.list[k].addr
      requires previous == if k == 0 then 0 else heap.list[k - 1].addr
      modifies this
      ensures Valid() && heap == BestFit.Malloc(old(heap), want)
    {
      hide Inv, Chain, UsedOk, Carve, Allocated, FreeBytes, CellOf, Retouched, BestFit.Malloc, Take, FirstOf;
      ghost var i := CellOf(heap.tape, block);
      ghost var m := memory;
      SmallestThatFits(heap, want);
      TakenFacts(heap, k, i, want);
      CarveBlock(want, previous, block, k, i);
      MarkBlock(block, Take(heap.list, k, want), want, k, i);
      MallocMarks(heap, i, want, m, memory);
      heap := BestFit.Malloc(heap, want);
    }

    /** Take the block off the list and put what it is too large by back. */
    method CarveBlock(want: nat, previous: nat, block: nat, ghost k: nat, ghost i: nat)
      requires Valid() && k < |heap.list| && i < |heap.tape| && 0 < want <= heap.list[k].size
      requires heap.tape[i] == Cell(block, heap.list[k].size, Kind.Free) && heap.list[k].addr == block
      requires previous == if k == 0 then 0 else heap.list[k - 1].addr
      modifies this`memory, this`startNext
      ensures Chain(memory, startNext, Take(heap.list, k, want) + [Block(XEND, adjusted)])
      ensures block in memory && memory[block].xBlockSize == Carve(heap.tape[i], want, MINIMUM)[0].size
      ensures Retouched(old(memory), memory, heap.list, block, RemainderAt(heap.tape[i], want))
    {
      ghost var m := memory;
      UnlinkBlock(previous, block, k);
      ghost var m1 := memory;
      if memory[block].xBlockSize - want > MINIMUM {
        SplitBlock(want, block, k, i);
        RetouchedTrans(m, m1, memory, heap.list, block, block + want);
      }
    }

    method UnlinkBlock(previous: nat, block: nat, ghost k: nat)
      requires Valid() && k < |heap.list| && block == heap.list[k].addr
      requires previous == if k == 0 then 0 else heap.list[k - 1].addr
      modifies this`memory, this`startNext
      ensures Chain(memory, startNext, Rings.DropAt(heap.list, k) + [Block(XEND, adjusted)])
      ensures memory.Keys == old(memory).Keys && block in memory && memory[block] == old(memory)[block]
      ensures memory[block].xBlockSize == heap.list[k].size
      ensures Retouched(old(memory), memory, heap.list, block, block)
    {
      ghost var all, m, start := Entries(), memory, startNext;
      EntryAddr(heap, k);
      assert HeaderOk(memory, all, k);
      if k > 0 {
        EntryInHeap(heap, k - 1, adjusted);
        assert HeaderOk(memory, all, k - 1);
      }
      SetNext(previous, memory[block].next);
      EntriesDiffer(heap, adjusted);
      UnlinkedChain(heap.list, adjusted, k, m, start, memory, startNext);
    }

    /** Split off the remainder of the block, and put it in its place by size. */
    method SplitBlock(want: nat, block: nat, ghost k: nat, ghost i: nat)
      requires Inv(heap) && InBounds() && k < |heap.list| && i < |heap.tape| && 0 < want
      requires heap.tape[i] == Cell(block, heap.list[k].size, Kind.Free) && heap.list[k].addr == block
      requires want <= heap.list[k].size && heap.list[k].size - want > MINIMUM
      requires Chain(memory, startNext, Rings.DropAt(heap.list, k) + [Block(XEND, adjusted)])
      requires block in memory && memory[block].xBlockSize == heap.list[k].size
      modifies this`memory, this`startNext
      ensures Chain(memory, startNext, Take(heap.list, k, want) + [Block(XEND, adjusted)])
      ensures block in memory && memory[block].xBlockSize == want
      ensures Retouched(old(memory), memory, heap.list, block, block + want)
    {
      hide Inv, Chain, Retouched, UsedOk;
      ghost var m, rest := memory, Rings.DropAt(heap.list, k);
      RestFacts(heap, k, i, want, adjusted);
      EntryHeads(heap, k, adjusted, memory, startNext);
      var newBlock := block + want;
      memory := memory[newBlock := Header(0, memory[block].xBlockSize - want)];
      memory := memory[block := memory[block].(xBlockSize := want)];
      ChainFrame(m, startNext, rest + [Block(XEND, adjusted)], memory, block, newBlock);
      ghost var m1 := memory;
      InsertBlockIntoFreeList(newBlock, rest);
      SplitTouches(heap.list, k, m, m1, memory, block, newBlock, adjusted);
    }

    /** The block is the caller's now. */
    method MarkBlock(block: nat, ghost list: seq<Block>, ghost want: nat, ghost k: nat, ghost i: nat)
      requires Inv(heap) && InBounds() && k < |heap.list| && i < |heap.tape| && 0 < want <= heap.list[k].size
      requires heap.tape[i] == Cell(block, heap.list[k].size, Kind.Free) && heap.list[k].addr == block
      requires list == Take(heap.list, k, want) && Chain(memory, startNext, list + [Block(XEND, adjusted)]) &&
               block in memory
      requires memory[block].xBlockSize <= xFreeBytesRemaining
      modifies this`memory, this`xFreeBytesRemaining
      ensures xFreeBytesRemaining == old(xFreeBytesRemaining) - old(memory)[block].xBlockSize
      ensures memory == old(memory)[block := Header(0, old(memory)[block].xBlockSize + ALLOCATED)]
      ensures Chain(memory, startNext, list + [Block(XEND, adjusted)])
    {
      ghost var m := memory;
      TakenApart(heap, k, i, want);
      xFreeBytesRemaining := xFreeBytesRemaining - memory[block].xBlockSize;
      memory := memory[block := Header(0, memory[block].xBlockSize + ALLOCATED)];
      ChainFrame(m, startNext, list + [Block(XEND, adjusted)], memory, block, block);
    }

    // ----- free

    /** `vPortFree`. A pointer whose header does not say "allocated" is ignored. */
    method PortFree(pv: nat)
      requires Valid() && (pv == 0 || (pv > STRUCT && pv - STRUCT in memory))
      modifies this
      ensures Valid()
      ensures heap == if pv == 0 then old(heap) else BestFit.Free(old(heap), pv - STRUCT)
    {
      if pv != 0 {
        var link := pv - STRUCT;
        if memory[link].xBlockSize >= ALLOCATED {
          UsedHeaderAt(heap, memory, link);
          if memory[link].next == 0 {
            ReleaseBlock(link, CellOf(heap.tape, link));
          }
        } else {
          NotUsedAt(heap, memory, link);
        }
      }
    }

    method ReleaseBlock(link: nat, ghost i: nat)
      requires Valid() && i < |heap.tape| && i == CellOf(heap.tape, link) && heap.tape[i].kind.Used? &&
               UsedHeader(memory, heap.tape[i])
      modifies this
      ensures Valid() && heap == BestFit.Free(old(heap), link)
    {
      ghost var m := memory;
      FreedFacts(heap, i, adjusted);
      memory := memory[link := memory[link].(xBlockSize := memory[link].xBlockSize - ALLOCATED)];
      ChainFrame(m, startNext, Entries(), memory, link, link);
      ReleaseToList(link, i, m);
      xFreeBytesRemaining := xFreeBytesRemaining + memory[link].xBlockSize;
      heap := BestFit.Free(heap, link);
    }

    method ReleaseToList(link: nat, ghost i: nat, ghost m: Memory)
      requires Inv(heap) && InBounds() && i < |heap.tape| && i == CellOf(heap.tape, link) && heap.tape[i].kind.Used?
      requires UsedOk(m, heap.tape) && link in m && memory == m[link := Header(0, heap.tape[i].size)]
      requires Chain(memory, startNext, Entries())
      modifies this`memory, this`startNext
      ensures Chain(memory, startNext, InsertBySize(heap.list, Block(link, heap.tape[i].size)) +
              [Block(XEND, adjusted)])
      ensures UsedOk(memory, heap.tape[i := heap.tape[i].(kind := Kind.Free)])
      ensures link in memory && memory[link].xBlockSize == heap.tape[i].size
    {
      ghost var m1 := memory;
      FreedFacts(heap, i, adjusted);
      AllHeads(heap, adjusted, memory, startNext);
      InsertBlockIntoFreeList(link, heap.list);
      assert Retouched(m, memory, heap.list, link, link);
      FreeMarks(heap, i, m, memory);
    }
  }

  lemma {:induction false} UsedHeaderAt(h: Heap2, m: Memory, a: nat)
    requires Contiguous(h.tape) && UsedOk(m, h.tape) && a in m && m[a].xBlockSize >= ALLOCATED
    ensures CellOf(h.tape, a) < |h.tape| && h.tape[CellOf(h.tape, a)].kind.Used? &&
            UsedHeader(m, h.tape[CellOf(h.tape, a)])
  {
    var i :| 0 <= i < |h.tape| && h.tape[i].kind.Used? && h.tape[i].addr == a;
    var c := CellOf(h.tape, a);
    if c != i {
      CellsDiffer(h.tape, c, i);
    }
  }

  lemma {:induction false} NotUsedAt(h: Heap2, m: Memory, a: nat)
    requires UsedOk(m, h.tape) && a in m && m[a].xBlockSize < ALLOCATED
    ensures BestFit.Free(h, a) == h
  {
    var i := CellOf(h.tape, a);
    assert i < |h.tape| ==> UsedHeader(m, h.tape[i]);
  }

  lemma {:induction false} FreedFacts(h: Heap2, i: nat, adjusted: nat)
    requires Inv(h) && i < |h.tape| && h.tape[i].kind.Used? && i == CellOf(h.tape, h.tape[i].addr)
    requires adjusted < ALLOCATED && h.tape[0].addr > XEND && End(h.tape[|h.tape| - 1]) == h.tape[0].addr + adjusted
    ensures var link, all := h.tape[i].addr, h.list + [Block(XEND, adjusted)];
            && link > XEND && h.tape[i].size <= adjusted && DistinctAddrs(all)
            && (forall j :: 0 <= j < |all| ==> all[j].addr != link && all[j].addr != 0)
            && (forall j :: 0 <= j < |h.list| ==> h.list[j].addr != link && h.list[j].addr != 0)
    ensures var now := BestFit.Free(h, h.tape[i].addr);
            && Inv(now) && SameExtent(h.tape, now.tape) && FreeBytes(now.tape) == FreeBytes(h.tape) + h.tape[i].size
  {
    WithinHeap(h.tape, i);
    EntriesDiffer(h, adjusted);
    FreedMembers(h.tape, i);
    ExecKeeps(h, Release(h.tape[i].addr));
    forall j | 0 <= j < |h.list| ensures h.list[j].addr != h.tape[i].addr && h.list[j].addr > XEND {
      EntryNotUsed(h, j, i);
      EntryAddr(h, j);
    }
  }

  lemma {:induction false} AllHeads(h: Heap2, adjusted: nat, m: Memory, start: nat)
    requires adjusted < ALLOCATED && Inv(h) && h.tape != [] && h.tape[0].addr > XEND &&
             End(h.tape[|h.tape| - 1]) == h.tape[0].addr + adjusted
    requires Chain(m, start, h.list + [Block(XEND, adjusted)])
    ensures forall j :: 0 <= j < |h.list| ==> h.list[j].addr in m && m[h.list[j].addr].xBlockSize < ALLOCATED
  {
    forall j | 0 <= j < |h.list| ensures h.list[j].addr in m && m[h.list[j].addr].xBlockSize < ALLOCATED {
      EntryInHeap(h, j, adjusted);
      assert HeaderOk(m, h.list + [Block(XEND, adjusted)], j);
    }
  }

  /** A request fails, and changes nothing, exactly if its size is zero or out of range or no free block is
      large enough; otherwise it gets the front of a smallest block that is. */
  ghost predicate Served(was: Heap2, wanted: nat, p: nat, now: Heap2) {
    var w := BlockSize(wanted);
    var k := FirstOf(was.list, w);
    if w == 0 || w >= ALLOCATED || k == |was.list| then p == 0 && now == was
    else p == was.list[k].addr + STRUCT && now == Malloc(was, w)
  }

  /** Entries lie in the heap. */
  lemma {:induction false} EntryAddr(h: Heap2, k: nat)
    requires Inv(h) && h.tape != [] && h.tape[0].addr > XEND && k < |h.list|
    ensures h.list[k].addr > XEND && h.list[k].addr + h.list[k].size <= End(h.tape[|h.tape| - 1]) && h.list[k].size > 0
  {
    assert h.list[k] in h.list;
    var i := EntryIsFree(h.tape, h.list[k]);
    WithinHeap(h.tape, i);
  }

  lemma {:induction false} EntriesAreFreeBytes(h: Heap2, k: nat)
    requires Inv(h)
    ensures k < |h.list| ==> h.list[k].size <= FreeBytes(h.tape)
  {
    if k < |h.list| {
      assert h.list[k] in h.list;
      var i := EntryIsFree(h.tape, h.list[k]);
      ListingAround(h.tape, i);
    }
  }

  /** Headers of other blocks do not matter to the list. */
  lemma ChainFrame(m: Memory, start: nat, list: seq<Block>, m': Memory, x: nat, y: nat)
    requires Chain(m, start, list) && forall k :: 0 <= k < |list| ==> list[k].addr != x && list[k].addr != y
    requires forall a :: a in m && a != x && a != y ==> a in m' && m'[a] == m[a]
    ensures Chain(m', start, list)
  {
    forall k | 0 <= k < |list| ensures HeaderOk(m', list, k) {
      assert HeaderOk(m, list, k);
    }
  }

  lemma {:induction false} EntriesDiffer(h: Heap2, adjusted: nat)
    requires Inv(h) && h.tape != [] && h.tape[0].addr > XEND
    ensures DistinctAddrs(h.list + [Block(XEND, adjusted)])
  {
    forall k | 0 <= k < |h.list| ensures h.list[k].addr > XEND {
      EntryAddr(h, k);
    }
  }

  lemma {:induction false} UnlinkedChain(list: seq<Block>, adjusted: nat, k: nat, m: Memory, start: nat, m': Memory,
      start': nat)
    requires k < |list| && DistinctAddrs(list + [Block(XEND, adjusted)]) &&
             Chain(m, start, list + [Block(XEND, adjusted)])
    requires var all := list + [Block(XEND, adjusted)];
             && (forall a :: a in m && (k == 0 || a != all[k - 1].addr) ==> a in m' && m'[a] == m[a])
             && (if k == 0 then start' == all[1].addr
                 else start' == start && all[k - 1].addr in m' &&
                      m'[all[k - 1].addr] == Header(all[k + 1].addr, all[k - 1].size))
    ensures Chain(m', start', Rings.DropAt(list, k) + [Block(XEND, adjusted)])
  {
    var all := list + [Block(XEND, adjusted)];
    assert all[..k] + [] + all[k + 1..] == Rings.DropAt(list, k) + [Block(XEND, adjusted)];
    forall j | 0 <= j < |all| && j != k && j + 1 != k ensures SameAt(m, m', all[j].addr) {
      assert HeaderOk(m, all, j);
    }
    ChainReplaced(m, start, all, k, [], m', start');
  }

  lemma {:induction false} RestFacts(h: Heap2, k: nat, i: nat, want: nat, adjusted: nat)
    requires adjusted < ALLOCATED && Inv(h) && h.tape != [] && h.tape[0].addr > XEND &&
             End(h.tape[|h.tape| - 1]) == h.tape[0].addr + adjusted
    requires k < |h.list| && i < |h.tape| && h.tape[i] == Cell(h.list[k].addr, h.list[k].size, Kind.Free) &&
             0 < want < h.list[k].size
    ensures var rest, all := Rings.DropAt(h.list, k), Rings.DropAt(h.list, k) + [Block(XEND, adjusted)];
            && DistinctAddrs(all)
            && (forall j :: 0 <= j < |all| ==>
                   all[j].addr != h.list[k].addr && all[j].addr != h.list[k].addr + want && all[j].addr != 0)
            && (forall j :: 0 <= j < |rest| ==>
                   rest[j].addr != h.list[k].addr + want && rest[j].addr != 0 && rest[j].size < ALLOCATED)
            && h.list[k].size <= adjusted && h.list[k].addr > XEND
  {
    var rest := Rings.DropAt(h.list, k);
    WithoutOk(h.list, k);
    EntryAddr(h, k);
    RemainderApart(h, i, want);
    WithinHeap(h.tape, i);
    forall j | 0 <= j < |rest|
      ensures rest[j].addr > XEND && rest[j].addr != h.list[k].addr && rest[j].addr != h.list[k].addr + want &&
              rest[j].size < ALLOCATED
    {
      var o := if j < k then j else j + 1;
      assert rest[j] == h.list[o] && h.list[o] in h.list;
      EntryInHeap(h, o, adjusted);
    }
  }

  lemma {:induction false} EntryInHeap(h: Heap2, k: nat, adjusted: nat)
    requires Inv(h) && h.tape != [] && h.tape[0].addr > XEND &&
             End(h.tape[|h.tape| - 1]) == h.tape[0].addr + adjusted && k < |h.list|
    ensures h.list[k].addr > XEND && h.list[k].size <= adjusted
  {
    assert h.list[k] in h.list;
    var i := EntryIsFree(h.tape, h.list[k]);
    WithinHeap(h.tape, i);
  }

  lemma RetouchedTrans(m: Memory, m1: Memory, m2: Memory, list: seq<Block>, block: nat, remainder: nat)
    requires Retouched(m, m1, list, block, block) && Retouched(m1, m2, list, block, remainder)
    ensures Retouched(m, m2, list, block, remainder)
  {
  }

  /** The headers of all entries once one is off the list. */
  lemma {:induction false} EntryHeads(h: Heap2, k: nat, adjusted: nat, m: Memory, start: nat)
    requires adjusted < ALLOCATED && Inv(h) && h.tape != [] && h.tape[0].addr > XEND &&
             End(h.tape[|h.tape| - 1]) == h.tape[0].addr + adjusted
    requires k < |h.list| && h.list[k].addr in m && m[h.list[k].addr].xBlockSize == h.list[k].size
    requires Chain(m, start, Rings.DropAt(h.list, k) + [Block(XEND, adjusted)])
    ensures forall j :: 0 <= j < |h.list| ==> h.list[j].addr in m && m[h.list[j].addr].xBlockSize < ALLOCATED
  {
    var all := Rings.DropAt(h.list, k) + [Block(XEND, adjusted)];
    forall j | 0 <= j < |h.list| ensures h.list[j].addr in m && m[h.list[j].addr].xBlockSize < ALLOCATED {
      EntryInHeap(h, j, adjusted);
      if j != k {
        assert HeaderOk(m, all, if j < k then j else j - 1);
      }
    }
  }

  /** The value of the heap after a successful request. */
  lemma {:induction false} TakenFacts(h: Heap2, k: nat, i: nat, want: nat)
    requires Inv(h) && h.tape != [] && 0 < want && k == FirstOf(h.list, want) && k < |h.list|
    requires i == CellOf(h.tape, h.list[k].addr) && i < |h.tape| && Fits(h.tape[i], want)
    ensures Malloc(h, want) == Heap2(Allocated(h.tape, i, want, MINIMUM), Take(h.list, k, want))
    ensures Inv(Malloc(h, want)) && SameExtent(h.tape, Malloc(h, want).tape)
    ensures FreeBytes(Malloc(h, want).tape) + Carve(h.tape[i], want, MINIMUM)[0].size == FreeBytes(h.tape)
  {
    ExecKeeps(h, Allocate(want));
    AllocatedListing(h.tape, i, want, MINIMUM);
  }

  lemma SplitTouches(list: seq<Block>, k: nat, m: Memory, m1: Memory, m': Memory, block: nat, newBlock: nat,
      adjusted: nat)
    requires k < |list| && block in m && m[block].xBlockSize < ALLOCATED
    requires newBlock in m1 && m1[newBlock].xBlockSize < ALLOCATED
    requires forall a :: a in m ==> a in m1
    requires forall a :: a in m1 && a != block && a != newBlock ==> a in m && m1[a] == m[a]
    requires forall a :: a in m1 ==> a in m' && m'[a].xBlockSize == m1[a].xBlockSize
    requires forall a :: a in m' ==>
               (a in m1 && m'[a] == m1[a]) || a == newBlock || exists j ::
                   0 <= j < |Rings.DropAt(list, k)| && Rings.DropAt(list, k)[j].addr == a
    requires forall j :: 0 <= j < |list| ==> list[j].addr in m && m[list[j].addr].xBlockSize < ALLOCATED
    ensures Retouched(m, m', list, block, newBlock)
  {
    forall a | a in m'
      ensures (a in m && m'[a] == m[a]) || a == block
              || (m'[a].xBlockSize < ALLOCATED && (a == newBlock || exists j :: 0 <= j < |list| && list[j].addr == a))
    {
      if a != block && a != newBlock && !(a in m && m'[a] == m[a]) {
        var j :| 0 <= j < |Rings.DropAt(list, k)| && Rings.DropAt(list, k)[j].addr == a;
        assert list[if j < k then j else j + 1].addr == a;
      }
    }
  }

  lemma {:induction false} TakenApart(h: Heap2, k: nat, i: nat, want: nat)
    requires Inv(h) && h.tape != [] && h.tape[0].addr > XEND && k < |h.list| && i < |h.tape| &&
             0 < want <= h.list[k].size
    requires h.tape[i] == Cell(h.list[k].addr, h.list[k].size, Kind.Free)
    ensures h.list[k].addr != XEND
    ensures forall j :: 0 <= j < |Take(h.list, k, want)| ==> Take(h.list, k, want)[j].addr != h.list[k].addr
  {
    var t := Take(h.list, k, want);
    EntryAddr(h, k);
    TakeOk(h, k, i, want);
    forall j | 0 <= j < |t| ensures t[j].addr != h.list[k].addr {
      assert t[j] in t;
      if t[j] in h.list {
        var o :| 0 <= o < |h.list| && h.list[o] == t[j];
      }
    }
  }

  lemma InsertedAt(list: seq<Block>, k: nat, b: Block, adjusted: nat)
    requires k <= |list| && b.size <= adjusted
    requires forall j :: 0 <= j < k ==> (list + [Block(XEND, adjusted)])[j].size < b.size
    requires b.size <= (list + [Block(XEND, adjusted)])[k].size
    ensures Rings.InsertAt(list + [Block(XEND, adjusted)], k, b) == InsertBySize(list, b) + [Block(XEND, adjusted)]
  {
    var all, f := list + [Block(XEND, adjusted)], FirstOf(list, b.size);
    assert forall j :: 0 <= j < |list| ==> all[j] == list[j];
    assert f == k;
  }
}
