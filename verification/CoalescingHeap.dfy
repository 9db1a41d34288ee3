/** `pvPortMalloc` and `vPortFree` of `heap_4.c` and `heap_5.c`, and the set-up of the regions. */
module CoalescingHeap {
  import opened Basics
  import opened HeapTape
  import opened HeapHeaders
  import opened HeapTheorems
  import opened HeapProofs
  import opened HeapRegions

  /** A request fails, and changes nothing, exactly if its size is zero or out of range or no free block is
      large enough; otherwise it gets the front of the first block that is, at an aligned address. */
  ghost predicate Served(was: seq<Cell>, wanted: nat, p: nat, now: seq<Cell>) {
    var w := BlockSize(wanted);
    var i := FirstFit(was, w);
    if w == 0 || w >= ALLOCATED || i == |was| then p == 0 && now == was
    else p == was[i].addr + STRUCT && p % ALIGNMENT == 0 && now == Allocated(was, i, w, MINIMUM)
  }

  /** `HeapStats_t`. */
  datatype HeapStats = HeapStats(largest: nat, smallest: nat, blocks: nat, available: nat, minimumEver: nat,
      allocations: nat, frees: nat)

  class Heap {
    /** The headers in memory; `xStart` is apart from it, and 0 stands for a pointer to it. */
    var memory: Memory
    var startNext: nat
    /** `End`; 0 until the heap has been set up. */
    var end: nat
    var xFreeBytesRemaining: nat
    var xMinimumEverFreeBytesRemaining: nat
    var xNumberOfSuccessfulAllocations: nat
    var xNumberOfSuccessfulFrees: nat
    ghost var tape: seq<Cell>

    ghost predicate Valid()
      reads this
    {
      && HeapTape.Valid(tape) && Aligned(tape)
      && Chain(memory, startNext, Listing(tape)) && UsedOk(memory, tape)
      && end == tape[|tape| - 1].addr
      && xFreeBytesRemaining == FreeBytes(tape)
      && xMinimumEverFreeBytesRemaining <= xFreeBytesRemaining
    }

    function GetNext(p: nat): nat
      requires p == 0 || p in memory
      reads this
    {
      if p == 0 then startNext else memory[p].next
    }

    method SetNext(p: nat, next: nat)
      requires p == 0 || p in memory
      modifies this`memory, this`startNext
      ensures p == 0 ==> memory == old(memory) && startNext == next
      ensures p != 0 ==> startNext == old(startNext) &&
                         memory == old(memory)[p := Header(next, old(memory)[p].xBlockSize)]
    {
      if p == 0 {
        startNext := next;
      } else {
        memory := memory[p := memory[p].(next := next)];
      }
    }

    // ----- set-up

    constructor ()
      ensures end == 0 && memory == map[] && tape == []
      ensures xFreeBytesRemaining == xMinimumEverFreeBytesRemaining == 0
      ensures xNumberOfSuccessfulAllocations == xNumberOfSuccessfulFrees == 0
    {
      memory, startNext, end, tape := map[], 0, 0, [];
      xFreeBytesRemaining, xMinimumEverFreeBytesRemaining := 0, 0;
      xNumberOfSuccessfulAllocations, xNumberOfSuccessfulFrees := 0, 0;
    }

    /** `vPortDefineHeapRegions`. The array ends with an entry of size 0. */
    method DefineHeapRegions(regions: seq<Region>)
      requires end == 0 && memory == map[] && tape == [] && Definable(regions)
      modifies this`memory, this`startNext, this`end, this`tape
      modifies this`xFreeBytesRemaining, this`xMinimumEverFreeBytesRemaining
      ensures Valid() && Fresh(tape) && Covers(tape, regions, |regions| - 1)
      ensures Roomy(tape, STRUCT) <==> forall e :: 0 <= e < |regions| - 1 ==> HeadersApart(regions[e])
      ensures xMinimumEverFreeBytesRemaining == xFreeBytesRemaining
    {
      var total := 0;
      var d := 0;
      while regions[d].xSizeInBytes > 0
        invariant d < |regions| && total == FreeBytes(tape)
        invariant d == 0 ==> end == 0 && memory == map[] && tape == []
        invariant d > 0 ==> SetUp(memory, startNext, end, tape) && Covers(tape, regions, d)
        decreases |regions| - d
      {
        assert d > 0 ==> Suitable(regions[d - 1]);
        CoversNext(tape, regions, d);
        var size := AddRegion(regions[d]);
        total := total + size;
        d := d + 1;
      }
      LastRegion(regions, d);
      RoomyIff(tape, regions);
      SetUpFacts(memory, startNext, end, tape);
      xMinimumEverFreeBytesRemaining := total;
      xFreeBytesRemaining := total;
    }

    method AddRegion(region: Region) returns (size: nat)
      requires Suitable(region)
      requires if tape == [] then end == 0 && memory == map[] else SetUp(memory, startNext, end, tape)
      requires tape != [] ==> tape[|tape| - 1].addr < FirstBlock(region)
      modifies this`memory, this`startNext, this`end, this`tape
      ensures SetUp(memory, startNext, end, tape)
      ensures tape == if old(tape) == [] then Pair(FirstBlock(region), Marker(region))
              else Extended(old(tape), FirstBlock(region), Marker(region))
      ensures FreeBytes(tape) == old(FreeBytes(tape)) + size
    {
      ghost var m, start := memory, startNext;
      if tape != [] {
        SetUpFacts(memory, startNext, end, tape);
      }
      var first, bytes := AlignRegion(region);
      size := LinkRegion(first, RoundDown(first + bytes - STRUCT));
      if tape == [] {
        tape := FirstRegion(first, end, memory);
      } else {
        tape := NextRegion(tape, m, start, first, end, memory);
      }
    }

    /** Write the headers of a region's free block and marker, and link the marker before to them. */
    method LinkRegion(first: nat, marker: nat) returns (size: nat)
      requires first < marker && (end == 0 || (end < first && end in memory && memory[end] == Header(0, 0)))
      modifies this`memory, this`startNext, this`end
      ensures end == marker && size == marker - first
      ensures startNext == if old(end) == 0 then first else old(startNext)
      ensures var m := old(memory)[marker := Header(0, 0)][first := Header(marker, size)];
              memory == if old(end) == 0 then m else m[old(end) := Header(first, 0)]
    {
      if end == 0 {
        startNext := first;
      }
      var previous := end;
      end := marker;
      memory := memory[end := Header(0, 0)];
      size := end - first;
      memory := memory[first := Header(end, size)];
      if previous != 0 {
        memory := memory[previous := memory[previous].(next := first)];
      }
    }

    /** The aligned start of a region, and the bytes that are left from there on. */
    static method AlignRegion(region: Region) returns (first: nat, bytes: nat)
      requires Suitable(region)
      ensures first == FirstBlock(region) && first + bytes == region.pucStartAddress + region.xSizeInBytes &&
              bytes >= STRUCT
    {
      first, bytes := region.pucStartAddress, region.xSizeInBytes;
      if first % ALIGNMENT != 0 {
        first := RoundUp(first);
        bytes := bytes - (first - region.pucStartAddress);
      }
    }

    /** `HeapInit` of `heap_4.c`: one region, the array `ucHeap`. */
    method HeapInit(ucHeap: nat, totalHeapSize: nat)
      requires end == 0 && memory == map[] && tape == [] && Suitable(Region(ucHeap, totalHeapSize))
      modifies this`memory, this`startNext, this`end, this`tape
      modifies this`xFreeBytesRemaining, this`xMinimumEverFreeBytesRemaining
      ensures Valid() && Fresh(tape) && OneRegion(tape)
      ensures tape == Pair(FirstBlock(Region(ucHeap, totalHeapSize)), Marker(Region(ucHeap, totalHeapSize)))
      ensures xMinimumEverFreeBytesRemaining == xFreeBytesRemaining
    {
      var start, bytes := AlignRegion(Region(ucHeap, totalHeapSize));
      startNext := start;
      end := RoundDown(start + bytes - STRUCT);
      memory := memory[end := Header(0, 0)];
      memory := memory[start := Header(end, end - start)];
      xMinimumEverFreeBytesRemaining := end - start;
      xFreeBytesRemaining := end - start;
      tape := FirstRegion(start, end, memory);
    }

    /** `pvPortMalloc` of `heap_4.c`, which sets the heap up at the first call. */
    method MallocOrInit(wanted: nat, ucHeap: nat, totalHeapSize: nat) returns (p: nat)
      requires if end == 0 then memory == map[] && tape == [] && Suitable(Region(ucHeap, totalHeapSize)) else Valid()
      modifies this
      ensures Valid()
      ensures old(end) != 0 ==> Served(old(tape), wanted, p, tape)
      ensures old(end) == 0 ==>
                Served(Pair(FirstBlock(Region(ucHeap, totalHeapSize)), Marker(Region(ucHeap, totalHeapSize))), wanted,
                    p, tape)
      ensures xNumberOfSuccessfulAllocations == old(xNumberOfSuccessfulAllocations) + if p == 0 then 0 else 1
      ensures xNumberOfSuccessfulFrees == old(xNumberOfSuccessfulFrees)
    {
      if end == 0 {
        HeapInit(ucHeap, totalHeapSize);
      }
      p := Malloc(wanted);
    }

    /** `vPortGetHeapStats`. Markers that are still on the list are counted as blocks. */
    method GetHeapStats() returns (stats: HeapStats)
      requires Valid()
      ensures FreeListStats(stats.largest, stats.smallest, stats.blocks)
      ensures stats.available == FreeBytes(tape) &&
              stats.minimumEver == xMinimumEverFreeBytesRemaining <= stats.available
      ensures stats.allocations == xNumberOfSuccessfulAllocations && stats.frees == xNumberOfSuccessfulFrees
    {
      var largest, smallest, blocks := WalkFreeList();
      stats := HeapStats(largest, smallest, blocks, xFreeBytesRemaining, xMinimumEverFreeBytesRemaining,
                         xNumberOfSuccessfulAllocations, xNumberOfSuccessfulFrees);
    }

    /** The largest and the smallest of the blocks on the list, and how many there are ahead of the end. */
    ghost predicate FreeListStats(largest: nat, smallest: nat, blocks: nat)
      reads this
    {
      && blocks + 1 == |Listing(tape)|
      && StatsOf(Listing(tape), blocks + 1, largest, smallest)
    }

    /** The largest size, or 0, and the smallest one that is not 0, or the greatest value, of n entries. */
    static predicate StatsOf(list: seq<Block>, n: nat, largest: nat, smallest: nat)
      requires n <= |list|
    {
      && (forall k :: 0 <= k < n ==> list[k].size <= largest)
      && (largest == 0 || exists k :: 0 <= k < n && list[k].size == largest)
      && (forall k :: 0 <= k < n && 0 < list[k].size < MAX_DELAY ==> smallest <= list[k].size)
      && (smallest == MAX_DELAY || exists k :: 0 <= k < n && list[k].size == smallest > 0)
    }

    static lemma StatsNext(list: seq<Block>, n: nat, largest: nat, smallest: nat)
      requires n < |list| && StatsOf(list, n, largest, smallest)
      ensures var size := list[n].size;
              StatsOf(list, n + 1, if size > largest then size else largest,
                  if 0 < size < smallest then size else smallest)
    {
    }

    method WalkFreeList() returns (largest: nat, smallest: nat, blocks: nat)
      requires Valid()
      ensures FreeListStats(largest, smallest, blocks)
    {
      ghost var list := Listing(tape);
      EntryFacts(tape, memory, startNext, 0);
      EndIsListed(tape);
      hide StatsOf, Ascending;
      largest, smallest, blocks := 0, MAX_DELAY, 0;
      NoStats(list);
      var block := startNext;
      while block != end
        invariant blocks < |list| && block == list[blocks].addr && StatsOf(list, blocks, largest, smallest)
        decreases |list| - blocks
      {
        assert HeaderOk(memory, list, blocks);
        StatsNext(list, blocks, largest, smallest);
        blocks := blocks + 1;
        if memory[block].xBlockSize > largest {
          largest := memory[block].xBlockSize;
        }
        if memory[block].xBlockSize != 0 {
          if memory[block].xBlockSize < smallest {
            smallest := memory[block].xBlockSize;
          }
        }
        block := memory[block].next;
      }
      OnlyTheEnd(list, blocks);
      StatsNext(list, blocks, largest, smallest);
    }

    static lemma OnlyTheEnd(list: seq<Block>, k: nat)
      requires k < |list| && Ascending(list) && list[k].addr == list[|list| - 1].addr
      ensures k == |list| - 1
    {
    }

    static lemma NoStats(list: seq<Block>)
      ensures StatsOf(list, 0, 0, MAX_DELAY)
    {
    }

    // ----- malloc

    ghost function Previous(b: nat): nat
      requires b <= |Listing(tape)|
      reads this
    {
      if b == 0 then 0 else Listing(tape)[b - 1].addr
    }

    /** Walk the list from the lowest address until a block is large enough, or the end. */
    method FindBlock(want: nat) returns (previous: nat, block: nat, ghost b: nat)
      requires Valid() && want > 0
      ensures b < |Listing(tape)| && block == Listing(tape)[b].addr && previous == Previous(b)
      ensures forall k :: 0 <= k < b ==> Listing(tape)[k].size < want
      ensures b + 1 == |Listing(tape)| || Listing(tape)[b].size >= want
    {
      ghost var list := Listing(tape);
      previous, block, b := 0, startNext, 0;
      assert HeaderOk(memory, list, 0);
      while memory[block].xBlockSize < want && memory[block].next != 0
        invariant b < |list| && block == list[b].addr && HeaderOk(memory, list, b) && previous == Previous(b)
        invariant forall k :: 0 <= k < b ==> list[k].size < want
        decreases |list| - b
      {
        previous := block;
        block := memory[block].next;
        b := b + 1;
        assert HeaderOk(memory, list, b);
      }
      if b + 1 < |list| {
        ghost var i := EntryCell(tape, b + 1);
      }
    }

    method Malloc(wanted: nat) returns (p: nat)
      requires Valid()
      modifies this
      ensures Valid()
      ensures Served(old(tape), wanted, p, tape) && (p == 0 ==> memory == old(memory))
      ensures Roomy(old(tape), STRUCT) ==> Roomy(tape, STRUCT)
      ensures xNumberOfSuccessfulAllocations == old(xNumberOfSuccessfulAllocations) + if p == 0 then 0 else 1
      ensures xNumberOfSuccessfulFrees == old(xNumberOfSuccessfulFrees)
      ensures xMinimumEverFreeBytesRemaining == Min(old(xMinimumEverFreeBytesRemaining), xFreeBytesRemaining)
    {
      hide Chain, UsedOk, Allocated, HeapTape.Valid, Listing, FreeBytes;
      p := 0;
      var want := BlockSize(wanted);
      if want < ALLOCATED && 0 < want {
        FitIsFree(tape, want);
        if want <= xFreeBytesRemaining {
          var previous, block;
          ghost var b;
          previous, block, b := FindBlock(want);
          FitEntry(tape, want, b);
          if block != end {
            p := block + STRUCT;
            ghost var was := tape;
            TakeBlock(want, previous, block, b, FirstFit(tape, want));
            StaysRoomy(was, FirstFit(was, want), want);
          }
        }
      }
    }

    static lemma StaysRoomy(tape: seq<Cell>, i: nat, want: nat)
      requires i < |tape| && STRUCT <= want <= tape[i].size
      ensures Roomy(tape, STRUCT) ==> Roomy(Allocated(tape, i, want, MINIMUM), STRUCT)
    {
      if Roomy(tape, STRUCT) {
        AllocatedRoomy(tape, i, want, MINIMUM, STRUCT);
      }
    }

    /** Unlink the block, split it if it is much too large, and mark it as allocated. */
    method TakeBlock(want: nat, previous: nat, block: nat, ghost b: nat, ghost i: nat)
      requires Valid() && 0 < want < ALLOCATED && want % ALIGNMENT == 0
      requires i < |tape| && Fits(tape[i], want) && b == |Listing(tape[..i])| && b < |Listing(tape)|
      requires block == tape[i].addr == Listing(tape)[b].addr && previous == Previous(b)
      modifies this
      ensures Valid() && tape == Allocated(old(tape), i, want, MINIMUM)
      ensures xNumberOfSuccessfulAllocations == old(xNumberOfSuccessfulAllocations) + 1
      ensures xNumberOfSuccessfulFrees == old(xNumberOfSuccessfulFrees)
      ensures xMinimumEverFreeBytesRemaining == Min(old(xMinimumEverFreeBytesRemaining), xFreeBytesRemaining)
    {
      hide Chain, UsedOk, Allocated, FreeBytes;
      UnlinkBlock(want, previous, block, b, i);
      MarkBlock(block);
      TakenValid(tape, i, want);
      tape := Allocated(tape, i, want, MINIMUM);
    }

    method MarkBlock(block: nat)
      requires block in memory && memory[block].xBlockSize <= xFreeBytesRemaining
      modifies this`memory, this`xFreeBytesRemaining, this`xMinimumEverFreeBytesRemaining
      modifies this`xNumberOfSuccessfulAllocations
      ensures memory == Marked(old(memory), block)
      ensures xFreeBytesRemaining == old(xFreeBytesRemaining) - old(memory)[block].xBlockSize
      ensures xMinimumEverFreeBytesRemaining == Min(old(xMinimumEverFreeBytesRemaining), xFreeBytesRemaining)
      ensures xNumberOfSuccessfulAllocations == old(xNumberOfSuccessfulAllocations) + 1
    {
      xFreeBytesRemaining := xFreeBytesRemaining - memory[block].xBlockSize;
      if xFreeBytesRemaining < xMinimumEverFreeBytesRemaining {
        xMinimumEverFreeBytesRemaining := xFreeBytesRemaining;
      }
      memory := memory[block := Header(0, memory[block].xBlockSize + ALLOCATED)];
      xNumberOfSuccessfulAllocations := xNumberOfSuccessfulAllocations + 1;
    }

    method UnlinkBlock(want: nat, previous: nat, block: nat, ghost b: nat, ghost i: nat)
      requires Valid() && 0 < want && i < |tape| && Fits(tape[i], want) && b == |Listing(tape[..i])| &&
               b < |Listing(tape)|
      requires block == tape[i].addr == Listing(tape)[b].addr && previous == Previous(b)
      modifies this`memory, this`startNext
      ensures block in memory && Chain(Marked(memory, block), startNext, Listing(Allocated(tape, i, want, MINIMUM)))
      ensures UsedOk(Marked(memory, block), Allocated(tape, i, want, MINIMUM))
      ensures FreeBytes(Allocated(tape, i, want, MINIMUM)) + memory[block].xBlockSize == FreeBytes(tape)
    {
      ghost var m, start := memory, startNext;
      FitsEntry(tape, want, i);
      EntryFacts(tape, m, start, b);
      Relink(want, previous, block, b);
      TakenOk(tape, i, b, want, m, start, memory, startNext);
    }

    method Relink(want: nat, previous: nat, block: nat, ghost b: nat)
      requires b < |Listing(tape)| && HeaderOk(memory, Listing(tape), b) && block == Listing(tape)[b].addr
      requires want <= memory[block].xBlockSize && want > 0
      requires previous == Previous(b) && (previous == 0 || (previous in memory && previous < block))
      modifies this`memory, this`startNext
      ensures OffTheList(old(memory), old(startNext), previous, block, want, memory, startNext)
    {
      SetNext(previous, memory[block].next);
      if memory[block].xBlockSize - want > MINIMUM {
        var newBlock := block + want;
        memory := memory[newBlock := Header(GetNext(previous), memory[block].xBlockSize - want)];
        memory := memory[block := memory[block].(xBlockSize := want)];
        SetNext(previous, newBlock);
      }
    }

    // ----- free

    /** Walk the list up to the block's place. */
    method FindPlace(block: nat, ghost left: seq<Block>, ghost right: seq<Block>) returns (before: nat)
      requires Chain(memory, startNext, left + right) && Between(left, right, Block(block, 0))
      requires forall j :: 0 <= j < |left| ==> left[j].addr > 0
      ensures before == if left == [] then 0 else left[|left| - 1].addr
    {
      before := 0;
      ghost var k := 0;
      ghost var list := left + right;
      assert list[0] == if left == [] then right[0] else left[0];
      while GetNext(before) < block
        invariant k <= |left| && before == (if k == 0 then 0 else left[k - 1].addr)
        invariant before == 0 || before in memory
        invariant GetNext(before) == if k < |left| then left[k].addr else right[0].addr
        decreases |left| - k
      {
        assert HeaderOk(memory, list, k) && list[k] == left[k];
        assert list[k + 1] == if k + 1 < |left| then left[k + 1] else right[0];
        before := GetNext(before);
        k := k + 1;
      }
    }

    /** `InsertBlockIntoFreeList`, for a block between the two parts of the list. */
    method InsertBlockIntoFreeList(block: nat, ghost left: seq<Block>, ghost right: seq<Block>)
      requires Chain(memory, startNext, left + right) && block in memory && block > 0
      requires Between(left, right, Block(block, memory[block].xBlockSize))
      requires (forall j :: 0 <= j < |left| ==> left[j].addr > 0) && end == right[|right| - 1].addr
      modifies this`memory, this`startNext
      ensures var list' := InsertedBetween(left, right, Block(block, old(memory)[block].xBlockSize));
              Chain(memory, startNext, list') && Touched(old(memory), memory, list')
    {
      var before := FindPlace(block, left, right);
      ghost var m, start := memory, startNext;
      HeadersAround(m, start, left, right);
      LinkBlock(block, before, left, right);
      InsertedChain(m, start, left, right, Block(block, m[block].xBlockSize), memory, startNext);
      LinkedEntries(left, right, Block(block, m[block].xBlockSize));
    }

    /** `vPortFree`. A pointer whose header does not say "allocated" is ignored. */
    method PortFree(pv: nat)
      requires Valid() && (pv == 0 || (pv > STRUCT && pv - STRUCT in memory))
      modifies this
      ensures Valid()
      ensures var i := if pv == 0 then |old(tape)| else UsedAt(old(tape), pv - STRUCT);
              && tape == (if i < |old(tape)| then Freed(old(tape), i) else old(tape))
              && xNumberOfSuccessfulFrees == old(xNumberOfSuccessfulFrees) + (if i < |old(tape)| then 1 else 0)
      ensures xNumberOfSuccessfulAllocations == old(xNumberOfSuccessfulAllocations)
      ensures xMinimumEverFreeBytesRemaining == old(xMinimumEverFreeBytesRemaining)
      ensures Roomy(old(tape), STRUCT) ==> Roomy(tape, STRUCT)
    {
      if pv != 0 {
        var link := pv - STRUCT;
        if memory[link].xBlockSize >= ALLOCATED {
          ghost var i := UsedAt(tape, link);
          UsedHeaderAt(memory, tape, link);
          if memory[link].next == 0 {
            ghost var was := tape;
            ReleaseBlock(link, i);
            if Roomy(was, STRUCT) {
              FreedRoomy(was, i, STRUCT);
            }
          }
        } else {
          NotUsedAt(memory, tape, link);
        }
      }
    }

    method ReleaseBlock(link: nat, ghost i: nat)
      requires Valid() && i < |tape| && tape[i].kind.Used? && tape[i].addr == link && UsedHeader(memory, tape[i])
      modifies this
      ensures Valid() && tape == Freed(old(tape), i) && xNumberOfSuccessfulFrees == old(xNumberOfSuccessfulFrees) + 1
      ensures xNumberOfSuccessfulAllocations == old(xNumberOfSuccessfulAllocations)
      ensures xMinimumEverFreeBytesRemaining == old(xMinimumEverFreeBytesRemaining)
    {
      hide HeapTape.Valid, Aligned, Chain, UsedOk, Freed, FreeBytes, Listing;
      ghost var now := ReleasedValid(tape, i);
      UnmarkBlock(link);
      InsertFreed(link, i, old(memory), startNext, now);
      tape := now;
    }

    method InsertFreed(link: nat, ghost i: nat, ghost m: Memory, ghost start: nat, ghost now: seq<Cell>)
      requires HeapTape.Valid(tape) && Aligned(tape) && Chain(m, start, Listing(tape)) && UsedOk(m, tape) &&
               start == startNext
      requires i < |tape| && tape[i].kind.Used? && tape[i].addr == link && UsedHeader(m, tape[i]) &&
               now == Freed(tape, i)
      requires memory == m[link := Header(0, tape[i].size)] && end == tape[|tape| - 1].addr
      modifies this`memory, this`startNext
      ensures Chain(memory, startNext, Listing(now)) && UsedOk(memory, now)
    {
      hide Touched, Freed, InsertedBetween;
      ghost var m1 := memory;
      UsedApart(tape, i, m, start);
      ghost var left, right := FreedAround(tape, i);
      InsertBlockIntoFreeList(link, left, right);
      ReleasedUsed(tape, i, m, m1, memory, startNext, now);
    }

    method UnmarkBlock(link: nat)
      requires link in memory && memory[link].xBlockSize >= ALLOCATED
      modifies this`memory, this`xFreeBytesRemaining, this`xNumberOfSuccessfulFrees
      ensures memory == old(memory)[link := Header(old(memory)[link].next, old(memory)[link].xBlockSize - ALLOCATED)]
      ensures xFreeBytesRemaining == old(xFreeBytesRemaining) + old(memory)[link].xBlockSize - ALLOCATED
      ensures xNumberOfSuccessfulFrees == old(xNumberOfSuccessfulFrees) + 1
    {
      memory := memory[link := memory[link].(xBlockSize := memory[link].xBlockSize - ALLOCATED)];
      xFreeBytesRemaining := xFreeBytesRemaining + memory[link].xBlockSize;
      xNumberOfSuccessfulFrees := xNumberOfSuccessfulFrees + 1;
    }

    /** The pointer work between the entries before and after the place. */
    method LinkBlock(block: nat, before: nat, ghost left: seq<Block>, ghost right: seq<Block>)
      requires right != [] && HeaderOk(memory, right, 0) && block in memory && 0 < block < right[0].addr
      requires before == (if left == [] then 0 else left[|left| - 1].addr)
      requires (before == 0 || before in memory) && GetNext(before) == right[0].addr
      requires left != [] ==> 0 < before < block && before in memory &&
                              memory[before] == Header(right[0].addr, left[|left| - 1].size)
      requires end == right[|right| - 1].addr && forall j :: 0 < j < |right| ==> right[0].addr < right[j].addr
      modifies this`memory, this`startNext
      ensures Linked(old(memory), old(startNext), left, right, Block(block, old(memory)[block].xBlockSize), memory,
              startNext)
      ensures forall a :: a in old(memory) ==> a in memory
      ensures forall a :: a in memory ==> (a in old(memory) && memory[a] == old(memory)[a]) ||
                                          Relinked(left, Block(block, old(memory)[block].xBlockSize), a)
    {
      var insert := block;
      if before != 0 && before + memory[before].xBlockSize == block {
        memory := memory[before := memory[before].(xBlockSize := memory[before].xBlockSize + memory[block].xBlockSize)];
        insert := before;
      }
      var next := GetNext(before);
      if insert + memory[insert].xBlockSize == next {
        if next != end {
          memory := memory[insert := Header(memory[next].next, memory[insert].xBlockSize + memory[next].xBlockSize)];
        } else {
          memory := memory[insert := memory[insert].(next := end)];
        }
      } else {
        memory := memory[insert := memory[insert].(next := next)];
      }
      if before != insert {
        SetNext(before, insert);
      }
    }
  }
}
