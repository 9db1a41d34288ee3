/** Setting up the heap: one free block and one marker for each region. */
module HeapRegions {
  import Arithmetic
  import opened HeapTape
  import opened HeapHeaders
  import opened HeapTheorems
  import opened HeapProofs

  // ----- regions

  /** `HeapRegion_t`. */
  datatype Region = Region(pucStartAddress: nat, xSizeInBytes: nat)

  function RoundDown(n: nat): (r: nat)
    ensures n < r + ALIGNMENT && r <= n && r % ALIGNMENT == 0
  {
    Arithmetic.DivModUnique(n / ALIGNMENT * ALIGNMENT, n / ALIGNMENT, 0, ALIGNMENT);
    n / ALIGNMENT * ALIGNMENT
  }

  /** The first aligned address. */
  function FirstBlock(r: Region): (first: nat)
    ensures first % ALIGNMENT == 0 && r.pucStartAddress <= first < r.pucStartAddress + ALIGNMENT
  {
    RoundUp(r.pucStartAddress)
  }

  /** The last aligned address from which a header stays within the region. */
  function Marker(r: Region): (marker: nat)
    requires r.xSizeInBytes >= STRUCT
    ensures marker % ALIGNMENT == 0
    ensures marker + STRUCT <= r.pucStartAddress + r.xSizeInBytes < marker + STRUCT + ALIGNMENT
  {
    RoundDown(r.pucStartAddress + r.xSizeInBytes - STRUCT)
  }

  /** Large enough for a block and the marker. */
  predicate Suitable(r: Region) {
    && r.pucStartAddress > 0 && r.xSizeInBytes >= STRUCT && FirstBlock(r) < Marker(r)
    && Marker(r) <= ALLOCATED
  }

  /** What is asked of the regions: in ascending order, disjoint, and each suitable. */
  ghost predicate Definable(regions: seq<Region>) {
    && |regions| > 1 && regions[|regions| - 1].xSizeInBytes == 0
    && (forall d :: 0 <= d < |regions| - 1 ==> Suitable(regions[d]))
    && (forall d :: 0 < d < |regions| - 1 ==>
          regions[d - 1].pucStartAddress + regions[d - 1].xSizeInBytes <= regions[d].pucStartAddress)
  }

  /** Each of the first d regions is one free block and its marker. */
  ghost predicate Covers(tape: seq<Cell>, regions: seq<Region>, d: nat) {
    && Definable(regions) && d < |regions| && |tape| == 2 * d
    && (forall e :: 0 <= e < d ==> CoversOne(tape, regions, e))
    && (d > 0 ==> tape[2 * d - 1].size == STRUCT)
  }

  /** The block begins, and the header of the marker ends, less than an alignment from the region's limits. */
  predicate CoversOne(tape: seq<Cell>, regions: seq<Region>, e: nat)
    requires e < |regions| && 2 * e + 1 < |tape|
  {
    var block, marker := tape[2 * e], tape[2 * e + 1];
    var start, limit := regions[e].pucStartAddress, regions[e].pucStartAddress + regions[e].xSizeInBytes;
    && block.kind.Free? && marker.kind == Wall(true) && End(block) == marker.addr
    && block.addr % ALIGNMENT == 0 && start <= block.addr < start + ALIGNMENT
    && marker.addr % ALIGNMENT == 0 && marker.addr + STRUCT <= limit < marker.addr + STRUCT + ALIGNMENT
  }

  /** The header of the region's first block does not reach into that of its marker. */
  predicate HeadersApart(r: Region) {
    var start, limit := RoundUp(r.pucStartAddress), r.pucStartAddress + r.xSizeInBytes;
    start + STRUCT + STRUCT <= limit - limit % ALIGNMENT
  }

  /** So every cell holds its header exactly if each region is large enough for two of them. */
  lemma RoomyIff(tape: seq<Cell>, regions: seq<Region>)
    requires HeapTape.Valid(tape) && |regions| > 1 && Covers(tape, regions, |regions| - 1)
    ensures Roomy(tape, STRUCT) <==> forall e :: 0 <= e < |regions| - 1 ==> HeadersApart(regions[e])
  {
    var n := |regions| - 1;
    if forall e :: 0 <= e < n ==> HeadersApart(regions[e]) {
      forall i | 0 <= i < |tape| ensures STRUCT <= tape[i].size {
        var e := i / 2;
        assert i == 2 * e || i == 2 * e + 1;
        RoomInRegion(tape, regions, e);
      }
    } else {
      var e :| 0 <= e < n && !HeadersApart(regions[e]);
      RoomInRegion(tape, regions, e);
    }
  }

  lemma RoomInRegion(tape: seq<Cell>, regions: seq<Region>, e: nat)
    requires HeapTape.Valid(tape) && |regions| > 1 && Covers(tape, regions, |regions| - 1) && e < |regions| - 1
    ensures STRUCT <= tape[2 * e].size <==> HeadersApart(regions[e])
    ensures STRUCT <= tape[2 * e + 1].size
  {
    assert CoversOne(tape, regions, e);
    var start, limit := regions[e].pucStartAddress, regions[e].pucStartAddress + regions[e].xSizeInBytes;
    SameAligned(tape[2 * e].addr, RoundUp(start));
    SameAligned(tape[2 * e + 1].addr + STRUCT, limit - limit % ALIGNMENT);
    hide RoundUp;
    if e + 2 < |regions| {
      assert CoversOne(tape, regions, e + 1);
      assert tape[2 * e + 2].addr == End(tape[2 * e + 1]);
    }
  }

  lemma SameAligned(a: int, b: int)
    requires a % ALIGNMENT == 0 && b % ALIGNMENT == 0 && a < b + ALIGNMENT && b < a + ALIGNMENT
    ensures a == b
  {
  }

  /** In every run each header lies within one region, and no two overlap; and the memory of each block ends
      before the header of its region's marker. */
  lemma HeadersFit(regions: seq<Region>, start: seq<Cell>, ops: seq<Op>, i: nat) returns (e: nat)
    requires HeapTape.Valid(start) && Fresh(start) && |regions| > 1 && Covers(start, regions, |regions| - 1)
    requires forall d :: 0 <= d < |regions| - 1 ==> HeadersApart(regions[d])
    requires forall k :: 0 <= k < |ops| && ops[k].Malloc? && ops[k].want > 0 ==> STRUCT <= ops[k].want
    requires i < |Run(start, ops, MINIMUM)|
    ensures e < |regions| - 1
    ensures var c, limit := Run(start, ops, MINIMUM)[i], regions[e].pucStartAddress + regions[e].xSizeInBytes;
            && regions[e].pucStartAddress <= c.addr && c.addr + STRUCT <= limit
            && (!c.kind.Wall? ==> End(c) + STRUCT <= limit)
    ensures forall j :: 0 <= j < |Run(start, ops, MINIMUM)| && j != i ==>
              var c, d := Run(start, ops, MINIMUM)[i], Run(start, ops, MINIMUM)[j];
              c.addr + STRUCT <= d.addr || d.addr + STRUCT <= c.addr
  {
    var tape := Run(start, ops, MINIMUM);
    RoomyIff(start, regions);
    RunInv(start, ops, MINIMUM);
    RunRoomy(start, ops, MINIMUM, STRUCT);
    hide Covers, HeadersApart, SameWalls, Fresh;
    HeadersDisjoint(tape, i);
    if tape[i].kind.Wall? {
      e := MarkerWithin(regions, start, tape, i);
    } else {
      var r := NoBlockSpansRegions(start, ops, MINIMUM, i);
      e := BlockWithin(regions, start, r);
    }
  }

  lemma HeadersDisjoint(tape: seq<Cell>, i: nat)
    requires HeapTape.Valid(tape) && Roomy(tape, STRUCT) && i < |tape|
    ensures forall j :: 0 <= j < |tape| && j != i ==>
              tape[i].addr + STRUCT <= tape[j].addr || tape[j].addr + STRUCT <= tape[i].addr
  {
    forall j | 0 <= j < |tape| && j != i
      ensures tape[i].addr + STRUCT <= tape[j].addr || tape[j].addr + STRUCT <= tape[i].addr
    {
      Apart(tape, i, j);
    }
  }

  lemma MarkerWithin(regions: seq<Region>, start: seq<Cell>, tape: seq<Cell>, i: nat) returns (e: nat)
    requires |regions| > 1 && Covers(start, regions, |regions| - 1) && SameWalls(start, tape)
    requires i < |tape| && tape[i].kind.Wall?
    ensures e < |regions| - 1 && regions[e].pucStartAddress <= tape[i].addr
    ensures tape[i].addr + STRUCT <= regions[e].pucStartAddress + regions[e].xSizeInBytes
  {
    WallInStrip(tape, i);
    var r := WallOfStrip(start, tape[i].(kind := Wall(true)));
    e := r / 2;
    assert CoversOne(start, regions, e);
    assert r == 2 * e || r == 2 * e + 1;
  }

  lemma BlockWithin(regions: seq<Region>, start: seq<Cell>, r: nat) returns (e: nat)
    requires |regions| > 1 && Covers(start, regions, |regions| - 1) && r < |start| && start[r].kind.Free?
    ensures e < |regions| - 1 && regions[e].pucStartAddress <= start[r].addr
    ensures End(start[r]) + STRUCT <= regions[e].pucStartAddress + regions[e].xSizeInBytes
  {
    e := r / 2;
    assert CoversOne(start, regions, e);
    assert r == 2 * e || r == 2 * e + 1;
  }

  /** A heap with nothing allocated yet. */
  ghost predicate SetUp(m: Memory, start: nat, end: nat, tape: seq<Cell>) {
    && HeapTape.Valid(tape) && Aligned(tape) && Fresh(tape)
    && Chain(m, start, Listing(tape)) && end == tape[|tape| - 1].addr
    && (forall a :: a in m ==> m[a].xBlockSize < ALLOCATED)
  }

  /** A free block and its marker. */
  function Pair(first: nat, end: nat): seq<Cell>
    requires first < end
  {
    [Cell(first, end - first, Free), Cell(end, STRUCT, Wall(true))]
  }

  lemma {:induction false} PairListing(first: nat, end: nat)
    requires first < end
    ensures Listing(Pair(first, end)) == [Block(first, end - first), Block(end, 0)] &&
            FreeBytes(Pair(first, end)) == end - first
  {
    var f, w := Cell(first, end - first, Free), Cell(end, STRUCT, Wall(true));
    ListingSum([f], [w]);
    ListingOfOne(f);
    ListingOfOne(w);
    assert Pair(first, end) == [f] + [w];
  }

  lemma {:induction false} FirstRegion(first: nat, end: nat, m: Memory) returns (tape: seq<Cell>)
    requires 0 < first < end <= ALLOCATED && first % ALIGNMENT == 0 && end % ALIGNMENT == 0
    requires m == map[][end := Header(0, 0)][first := Header(end, end - first)]
    ensures tape == Pair(first, end) && OneRegion(tape)
    ensures SetUp(m, first, end, tape) && FreeBytes(tape) == end - first && UsedOk(m, tape)
  {
    tape := Pair(first, end);
    PairListing(first, end);
    assert HeaderOk(m, Listing(tape), 0) && HeaderOk(m, Listing(tape), 1);
  }

  lemma {:induction false} SetUpFacts(m: Memory, start: nat, end: nat, tape: seq<Cell>)
    requires SetUp(m, start, end, tape)
    ensures end > 0 && end in m && m[end] == Header(0, 0) && UsedOk(m, tape)
  {
    var list := Listing(tape);
    EndIsListed(tape);
    assert HeaderOk(m, list, |list| - 1);
    assert tape[|tape| - 1].addr > 0;
    forall i | 0 <= i < |tape| ensures UsedHeader(m, tape[i]) {
      assert FreshAt(tape, i);
    }
  }

  lemma LastRegion(regions: seq<Region>, d: nat)
    requires Definable(regions) && d < |regions| && regions[d].xSizeInBytes == 0
    ensures d == |regions| - 1
  {
    assert forall e :: 0 <= e < |regions| - 1 ==> Suitable(regions[e]) && regions[e].xSizeInBytes > 0;
  }

  /** The tape with one more region: the gap before it belongs to the marker before. */
  function Extended(was: seq<Cell>, first: nat, end: nat): seq<Cell>
    requires was != [] && was[|was| - 1].addr < first < end
  {
    was[..|was| - 1] + [was[|was| - 1].(size := first - was[|was| - 1].addr)] + Pair(first, end)
  }

  lemma {:induction false} ExtendedListing(was: seq<Cell>, first: nat, end: nat)
    requires Closed(was) && was[|was| - 1].addr < first < end
    ensures Listing(Extended(was, first, end)) == Listing(was) + [Block(first, end - first), Block(end, 0)]
    ensures FreeBytes(Extended(was, first, end)) == FreeBytes(was) + (end - first)
  {
    var n := |was| - 1;
    ListingOfParts(was[..n], was[n], []);
    assert was[..n] + [was[n]] + [] == was;
    ListingOfParts(was[..n], was[n].(size := first - was[n].addr), Pair(first, end));
    PairListing(first, end);
  }

  lemma {:induction false} ExtendedValid(was: seq<Cell>, first: nat, end: nat)
    requires HeapTape.Valid(was) && Aligned(was) && Fresh(was) && was[|was| - 1].addr < first < end <= ALLOCATED
    requires first % ALIGNMENT == 0 && end % ALIGNMENT == 0
    ensures var now := Extended(was, first, end); HeapTape.Valid(now) && Aligned(now) && Fresh(now)
  {
    var n, now := |was| - 1, Extended(was, first, end);
    forall i | 0 < i < |now| ensures now[i].addr == End(now[i - 1]) && !(now[i - 1].kind.Free? && now[i].kind.Free?) {
      if i <= n {
        assert was[i].addr == End(was[i - 1]) && !(was[i - 1].kind.Free? && was[i].kind.Free?);
      }
    }
    forall i | 0 <= i < |now| ensures FreshAt(now, i) {
      if i <= n {
        assert FreshAt(was, i);
      }
    }
  }

  lemma {:induction false} ExtendedChain(m: Memory, start: nat, list: seq<Block>, first: nat, end: nat, m': Memory)
    requires Chain(m, start, list) && Ascending(list) && list[|list| - 1].addr < first < end &&
             list[|list| - 1].size == 0
    requires m' == m[end := Header(0, 0)][first := Header(end, end - first)][list[|list| - 1].addr := Header(first, 0)]
    ensures Chain(m', start, list + [Block(first, end - first), Block(end, 0)])
  {
    var n, list' := |list|, list + [Block(first, end - first), Block(end, 0)];
    forall k | 0 <= k < |list'| ensures HeaderOk(m', list', k) {
      if k < n - 1 {
        assert HeaderOk(m, list, k) && list'[k + 1] == list[k + 1] && list[k].addr < list[n - 1].addr;
      }
    }
  }

  lemma {:induction false} NextRegion(was: seq<Cell>, m: Memory, start: nat, first: nat, end: nat, m': Memory)
    returns (tape: seq<Cell>)
    requires was != [] && SetUp(m, start, was[|was| - 1].addr, was)
    requires was[|was| - 1].addr < first < end <= ALLOCATED && first % ALIGNMENT == 0 && end % ALIGNMENT == 0
    requires m' == m[end := Header(0, 0)][first := Header(end, end - first)][was[|was| - 1].addr := Header(first, 0)]
    ensures tape == Extended(was, first, end)
    ensures SetUp(m', start, end, tape) && FreeBytes(tape) == FreeBytes(was) + (end - first)
  {
    tape := Extended(was, first, end);
    ListingAscends(was);
    EndIsListed(was);
    ExtendedListing(was, first, end);
    ExtendedValid(was, first, end);
    ExtendedChain(m, start, Listing(was), first, end, m');
  }

  /** The regions are covered as they are added. */
  lemma {:induction false} CoversNext(was: seq<Cell>, regions: seq<Region>, d: nat)
    requires Definable(regions) && d + 1 < |regions| && Suitable(regions[d])
    requires d > 0 ==> Covers(was, regions, d) && Suitable(regions[d - 1])
    ensures d == 0 ==> Covers(Pair(FirstBlock(regions[d]), Marker(regions[d])), regions, 1)
    ensures d > 0 ==> was[|was| - 1].addr < FirstBlock(regions[d])
                      && Covers(Extended(was, FirstBlock(regions[d]), Marker(regions[d])), regions, d + 1)
  {
    if d > 0 {
      assert CoversOne(was, regions, d - 1);
      assert regions[d - 1].pucStartAddress + regions[d - 1].xSizeInBytes <= regions[d].pucStartAddress;
      var now := Extended(was, FirstBlock(regions[d]), Marker(regions[d]));
      forall e | 0 <= e < d + 1 ensures CoversOne(now, regions, e) {
        if e < d {
          assert CoversOne(was, regions, e);
        }
      }
    }
  }
}
