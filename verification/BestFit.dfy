/** The size-ordered allocator of `heap_2.c` on values: blocks are split but never merged. */
module BestFit {
  import Rings
  import opened HeapTape
  import opened HeapHeaders

  /** The memory as cells without gaps, and the free list without its end marker. */
  datatype Heap2 = Heap2(tape: seq<Cell>, list: seq<Block>)

  // ----- the free list

  ghost predicate BySize(list: seq<Block>) {
    forall i, j :: 0 <= i < j < |list| ==> list[i].size <= list[j].size
  }

  ghost predicate DistinctAddrs(list: seq<Block>) {
    forall i, j :: 0 <= i < j < |list| ==> list[i].addr != list[j].addr
  }

  /** The first entry of at least the given size. */
  function FirstOf(list: seq<Block>, size: nat): (k: nat)
    ensures k <= |list|
    ensures forall j :: 0 <= j < k ==> list[j].size < size
    ensures k < |list| ==> list[k].size >= size
  {
    if list == [] || list[0].size >= size then 0 else 1 + FirstOf(list[1..], size)
  }

  /** `InsertBlockIntoFreeList`: in front of the first entry that is not smaller. */
  function InsertBySize(list: seq<Block>, b: Block): seq<Block> {
    Rings.InsertAt(list, FirstOf(list, b.size), b)
  }

  // ----- the invariant

  /** The free list holds the free cells, smallest first. */
  ghost predicate Inv(h: Heap2) {
    && Contiguous(h.tape) && BySize(h.list) && DistinctAddrs(h.list)
    && (forall b :: b in h.list <==> b in Listing(h.tape))
    && (forall i :: 0 <= i < |h.tape| ==> !h.tape[i].kind.Wall?)
  }

  // ----- operations

  /** The cell that begins at an address. */
  function CellOf(tape: seq<Cell>, addr: nat): (i: nat)
    ensures i <= |tape|
    ensures i < |tape| ==> tape[i].addr == addr
    ensures i == |tape| ==> forall j :: 0 <= j < |tape| ==> tape[j].addr != addr
  {
    if tape == [] || tape[0].addr == addr then 0 else 1 + CellOf(tape[1..], addr)
  }

  function Take(list: seq<Block>, k: nat, want: nat): seq<Block>
    requires k < |list| && want <= list[k].size
  {
    var b, rest := list[k], Rings.DropAt(list, k);
    if b.size - want > MINIMUM then InsertBySize(rest, Block(b.addr + want, b.size - want)) else rest
  }

  function Malloc(h: Heap2, want: nat): Heap2 {
    var k := FirstOf(h.list, want);
    if k == |h.list| then h
    else
      var i := CellOf(h.tape, h.list[k].addr);
      if i == |h.tape| || h.tape[i].size < want then h
      else Heap2(Allocated(h.tape, i, want, MINIMUM), Take(h.list, k, want))
  }

  function Free(h: Heap2, addr: nat): Heap2 {
    var i := CellOf(h.tape, addr);
    if i == |h.tape| || !h.tape[i].kind.Used? then h
    else Heap2(h.tape[i := h.tape[i].(kind := Kind.Free)], InsertBySize(h.list, Block(addr, h.tape[i].size)))
  }

  // ----- lists

  lemma InsertMembers(list: seq<Block>, k: nat, b: Block)
    requires k <= |list|
    ensures forall c :: c in Rings.InsertAt(list, k, b) <==> c in list || c == b
  {
    var r := Rings.InsertAt(list, k, b);
    forall c ensures c in r <==> c in list || c == b {
      if c in list {
        var j :| 0 <= j < |list| && list[j] == c;
        assert r[if j < k then j else j + 1] == c;
      }
      assert r[k] == b;
    }
  }

  lemma InsertSorted(list: seq<Block>, k: nat, b: Block)
    requires BySize(list) && k <= |list|
    requires (forall j :: 0 <= j < k ==> list[j].size <= b.size) && (k < |list| ==> b.size <= list[k].size)
    ensures BySize(Rings.InsertAt(list, k, b))
  {
    var r := Rings.InsertAt(list, k, b);
    forall i, j | 0 <= i < j < |r| ensures r[i].size <= r[j].size {
      if i >= k && j > k {
        assert list[k].size <= list[j - 1].size;
      }
    }
  }

  lemma InsertDistinct(list: seq<Block>, k: nat, b: Block)
    requires DistinctAddrs(list) && k <= |list| && forall j :: 0 <= j < |list| ==> list[j].addr != b.addr
    ensures DistinctAddrs(Rings.InsertAt(list, k, b))
  {
  }

  lemma InsertOk(list: seq<Block>, b: Block)
    requires BySize(list) && DistinctAddrs(list) && forall c :: c in list ==> c.addr != b.addr
    ensures BySize(InsertBySize(list, b)) && DistinctAddrs(InsertBySize(list, b))
    ensures forall c :: c in InsertBySize(list, b) <==> c in list || c == b
  {
    var k := FirstOf(list, b.size);
    InsertMembers(list, k, b);
    InsertSorted(list, k, b);
    InsertDistinct(list, k, b);
  }

  lemma WithoutOk(list: seq<Block>, k: nat)
    requires BySize(list) && DistinctAddrs(list) && k < |list|
    ensures BySize(Rings.DropAt(list, k)) && DistinctAddrs(Rings.DropAt(list, k))
    ensures forall c :: c in Rings.DropAt(list, k) <==> c in list && c != list[k]
  {
    var r := Rings.DropAt(list, k);
    forall c ensures c in r <==> c in list && c != list[k] {
      if c in list && c != list[k] {
        var j :| 0 <= j < |list| && list[j] == c;
        assert r[if j < k then j else j - 1] == c;
      }
    }
  }

  // ----- entries and cells

  /** An entry of the listing is a free cell. */
  lemma {:induction false} EntryIsFree(tape: seq<Cell>, b: Block) returns (i: nat)
    requires b in Listing(tape) && forall i :: 0 <= i < |tape| ==> !tape[i].kind.Wall?
    ensures i < |tape| && tape[i] == Cell(b.addr, b.size, Kind.Free)
    decreases |tape|
  {
    if b in Entry(tape[0]) {
      i := 0;
    } else {
      var j := EntryIsFree(tape[1..], b);
      i := j + 1;
    }
  }

  lemma {:induction false} FreeIsEntry(tape: seq<Cell>, i: nat)
    requires i < |tape| && tape[i].kind.Free?
    ensures Block(tape[i].addr, tape[i].size) in Listing(tape)
  {
    ListingAround(tape, i);
    assert Entry(tape[i])[0] in Entry(tape[i]);
  }

  lemma {:induction false} CellOfEntry(tape: seq<Cell>, b: Block)
    requires Contiguous(tape) && b in Listing(tape) && forall i :: 0 <= i < |tape| ==> !tape[i].kind.Wall?
    ensures CellOf(tape, b.addr) < |tape| && tape[CellOf(tape, b.addr)] == Cell(b.addr, b.size, Kind.Free)
  {
    var i := EntryIsFree(tape, b);
    var c := CellOf(tape, b.addr);
    if c != i {
      CellsDiffer(tape, c, i);
    }
  }

  /** No entry begins at a cell that is not free, or inside a cell. */
  lemma {:induction false} NotAnEntry(tape: seq<Cell>, i: nat, addr: nat, b: Block)
    requires Contiguous(tape) && i < |tape| && b in Listing(tape) && forall i :: 0 <= i < |tape| ==> !tape[i].kind.Wall?
    requires tape[i].addr < addr < End(tape[i]) || (addr == tape[i].addr && tape[i].kind.Used?)
    ensures b.addr != addr
  {
    var j := EntryIsFree(tape, b);
    if i < j {
      Increasing(tape, i, j);
    } else if j < i {
      Increasing(tape, j, i);
    }
  }

  // ----- malloc

  /** It takes a smallest block that is large enough, and fails exactly if there is none. */
  lemma {:induction false} SmallestThatFits(h: Heap2, want: nat)
    requires Inv(h)
    ensures var k := FirstOf(h.list, want);
            if k == |h.list| then forall i :: 0 <= i < |h.tape| ==> !Fits(h.tape[i], want)
            else
              && CellOf(h.tape, h.list[k].addr) < |h.tape| && Fits(h.tape[CellOf(h.tape, h.list[k].addr)], want)
              && h.tape[CellOf(h.tape, h.list[k].addr)].size == h.list[k].size
              && forall i :: 0 <= i < |h.tape| && Fits(h.tape[i], want) ==> h.list[k].size <= h.tape[i].size
  {
    var k := FirstOf(h.list, want);
    if k < |h.list| {
      assert h.list[k] in h.list;
      CellOfEntry(h.tape, h.list[k]);
    }
    forall i | 0 <= i < |h.tape| && Fits(h.tape[i], want) ensures k < |h.list| && h.list[k].size <= h.tape[i].size {
      FreeIsEntry(h.tape, i);
      var j :| 0 <= j < |h.list| && h.list[j] == Block(h.tape[i].addr, h.tape[i].size);
    }
  }

  lemma {:induction false} AllocatedMembers(tape: seq<Cell>, i: nat, want: nat)
    requires Contiguous(tape) && i < |tape| && Fits(tape[i], want) &&
             (forall i :: 0 <= i < |tape| ==> !tape[i].kind.Wall?)
    ensures forall b :: b in Listing(Allocated(tape, i, want, MINIMUM)) <==>
              (b in Listing(tape) && b != Block(tape[i].addr, tape[i].size)) || b in Remainder(tape[i], want, MINIMUM)
  {
    AllocatedListing(tape, i, want, MINIMUM);
    var left, right, it := Listing(tape[..i]), Listing(tape[i + 1..]), Block(tape[i].addr, tape[i].size);
    OnlyOnce(tape, i);
    assert forall b :: b in left + right <==> b in Listing(tape) && b != it;
  }

  lemma {:induction false} OnlyOnce(tape: seq<Cell>, i: nat)
    requires Contiguous(tape) && i < |tape| && tape[i].kind.Free?
    ensures Block(tape[i].addr, tape[i].size) !in Listing(tape[..i]) &&
            Block(tape[i].addr, tape[i].size) !in Listing(tape[i + 1..])
  {
    var it := Block(tape[i].addr, tape[i].size);
    LeftOf(tape, i);
    ContiguousParts(tape, i + 1, |tape|);
    assert tape[i + 1..|tape|] == tape[i + 1..];
    if i + 1 < |tape| {
      assert tape[i + 1].addr == End(tape[i]);
      EntriesWithin(tape[i + 1..], End(tape[i]), End(tape[|tape| - 1]));
    }
  }

  lemma {:induction false} MallocInv(h: Heap2, want: nat)
    requires Inv(h) && want > 0
    ensures Inv(Malloc(h, want))
  {
    var k := FirstOf(h.list, want);
    SmallestThatFits(h, want);
    if k < |h.list| {
      var i := CellOf(h.tape, h.list[k].addr);
      AllocatedCells(h.tape, i, want);
      AllocatedMembers(h.tape, i, want);
      WithoutOk(h.list, k);
      TakeOk(h, k, i, want);
    }
  }

  /** What becomes of the memory: a smallest free cell that is large enough is carved up, or nothing changes. */
  lemma {:induction false} MallocTakes(h: Heap2, want: nat) returns (i: nat)
    requires Inv(h) && want > 0
    ensures i <= |h.tape|
    ensures if i == |h.tape| then Malloc(h, want) == h && forall j :: 0 <= j < |h.tape| ==> !Fits(h.tape[j], want)
            else Fits(h.tape[i], want) && Malloc(h, want).tape == Allocated(h.tape, i, want, MINIMUM) &&
                 forall j :: 0 <= j < |h.tape| && Fits(h.tape[j], want) ==> h.tape[i].size <= h.tape[j].size
  {
    SmallestThatFits(h, want);
    var k := FirstOf(h.list, want);
    i := if k < |h.list| then CellOf(h.tape, h.list[k].addr) else |h.tape|;
  }

  lemma {:induction false} AllocatedCells(tape: seq<Cell>, i: nat, want: nat)
    requires Contiguous(tape) && i < |tape| && 0 < want && Fits(tape[i], want)
    ensures Contiguous(Allocated(tape, i, want, MINIMUM))
    ensures (forall i :: 0 <= i < |tape| ==> !tape[i].kind.Wall?) ==>
              forall j :: 0 <= j < |Allocated(tape, i, want, MINIMUM)| ==>
                      !Allocated(tape, i, want, MINIMUM)[j].kind.Wall?
  {
    CarveOk(tape[i], want, MINIMUM);
    Rejoined(tape, i);
    ReplaceContiguous(tape[..i], [tape[i]], Carve(tape[i], want, MINIMUM), tape[i + 1..]);
  }

  lemma {:induction false} TakeOk(h: Heap2, k: nat, i: nat, want: nat)
    requires Inv(h) && k < |h.list| && i < |h.tape| && h.tape[i] == Cell(h.list[k].addr, h.list[k].size, Kind.Free) &&
             0 < want <= h.list[k].size
    ensures BySize(Take(h.list, k, want)) && DistinctAddrs(Take(h.list, k, want))
    ensures forall b :: b in Take(h.list, k, want) <==>
              (b in h.list && b != h.list[k]) || b in Remainder(h.tape[i], want, MINIMUM)
  {
    var b, rest := h.list[k], Rings.DropAt(h.list, k);
    WithoutOk(h.list, k);
    if b.size - want > MINIMUM {
      RemainderApart(h, i, want);
      InsertOk(rest, Block(b.addr + want, b.size - want));
    }
  }

  lemma {:induction false} RemainderApart(h: Heap2, i: nat, want: nat)
    requires Inv(h) && i < |h.tape| && 0 < want < h.tape[i].size
    ensures forall c :: c in h.list ==> c.addr != h.tape[i].addr + want
  {
    forall c | c in h.list ensures c.addr != h.tape[i].addr + want {
      NotAnEntry(h.tape, i, h.tape[i].addr + want, c);
    }
  }

  // ----- free

  lemma FirstIs(list: seq<Block>, size: nat, k: nat)
    requires k <= |list| && (forall j :: 0 <= j < k ==> list[j].size < size) && (k < |list| ==> list[k].size >= size)
    ensures FirstOf(list, size) == k
  {
  }

  /** Among blocks of equal size the one freed last is taken first: a block that is freed is what the next
      malloc takes, if it is large enough and nothing smaller is. */
  lemma {:induction false} LastFreedIsTaken(h: Heap2, i: nat, want: nat)
    requires Inv(h) && i < |h.tape| && h.tape[i].kind.Used? && want <= h.tape[i].size
    requires forall j :: 0 <= j < |h.tape| && Fits(h.tape[j], want) ==> h.tape[i].size <= h.tape[j].size
    ensures var list := Free(h, h.tape[i].addr).list;
            FirstOf(list, want) < |list| && list[FirstOf(list, want)] == Block(h.tape[i].addr, h.tape[i].size)
  {
    var c := CellOf(h.tape, h.tape[i].addr);
    if c != i {
      CellsDiffer(h.tape, c, i);
    }
    var b := Block(h.tape[i].addr, h.tape[i].size);
    var k := FirstOf(h.list, b.size);
    forall j | 0 <= j < k ensures h.list[j].size < want {
      assert h.list[j] in h.list;
      CellOfEntry(h.tape, h.list[j]);
      var o := CellOf(h.tape, h.list[j].addr);
      assert h.tape[o].size < b.size;
    }
    FirstIs(InsertBySize(h.list, b), want, k);
  }

  lemma {:induction false} FreedMembers(tape: seq<Cell>, i: nat)
    requires i < |tape| && tape[i].kind.Used?
    ensures var now := tape[i := tape[i].(kind := Kind.Free)];
            && (forall b :: b in Listing(now) <==> b in Listing(tape) || b == Block(tape[i].addr, tape[i].size))
            && FreeBytes(now) == FreeBytes(tape) + tape[i].size
  {
    var now := tape[i := tape[i].(kind := Kind.Free)];
    ListingAround(tape, i);
    ListingAround(now, i);
    assert now[..i] == tape[..i] && now[i + 1..] == tape[i + 1..];
  }

  /** The allocated cell at the address is free, and all other cells are as they were. */
  lemma {:induction false} FreeInv(h: Heap2, addr: nat)
    requires Inv(h)
    ensures Inv(Free(h, addr))
    ensures forall i :: 0 <= i < |h.tape| && h.tape[i].kind.Used? && h.tape[i].addr == addr ==>
              Free(h, addr).tape == h.tape[i := h.tape[i].(kind := Kind.Free)]
    ensures (forall i :: 0 <= i < |h.tape| && h.tape[i].kind.Used? ==> h.tape[i].addr != addr) ==> Free(h, addr) == h
  {
    var i := CellOf(h.tape, addr);
    forall j | 0 <= j < |h.tape| && h.tape[j].addr == addr ensures j == i {
      if i != j {
        CellsDiffer(h.tape, i, j);
      }
    }
    if i < |h.tape| && h.tape[i].kind.Used? {
      FreedMembers(h.tape, i);
      forall c | c in h.list ensures c.addr != addr {
        NotAnEntry(h.tape, i, addr, c);
      }
      InsertOk(h.list, Block(addr, h.tape[i].size));
      var now := h.tape[i := h.tape[i].(kind := Kind.Free)];
      forall j | 0 < j < |now| ensures now[j].addr == End(now[j - 1]) {
        assert h.tape[j].addr == End(h.tape[j - 1]);
      }
    }
  }

  // ----- runs

  datatype Op = Allocate(want: nat) | Release(addr: nat)

  function Exec(h: Heap2, op: Op): Heap2 {
    match op
    case Allocate(want) => if want > 0 then Malloc(h, want) else h
    case Release(addr) => Free(h, addr)
  }

  function Run(h: Heap2, ops: seq<Op>): Heap2
    decreases |ops|
  {
    if ops == [] then h else Run(Exec(h, ops[0]), ops[1..])
  }

  /** Where blocks begin. */
  ghost predicate IsBoundary(tape: seq<Cell>, a: nat) {
    exists i :: 0 <= i < |tape| && tape[i].addr == a
  }

  /** Blocks are split, never merged: every boundary stays. */
  lemma {:induction false} BoundariesStay(h: Heap2, op: Op, a: nat)
    requires IsBoundary(h.tape, a)
    ensures IsBoundary(Exec(h, op).tape, a)
  {
    var j :| 0 <= j < |h.tape| && h.tape[j].addr == a;
    var now := Exec(h, op).tape;
    if now != h.tape {
      if op.Allocate? {
        var i := CellOf(h.tape, h.list[FirstOf(h.list, op.want)].addr);
        assert now[if j <= i then j else j + |now| - |h.tape|].addr == a;
      } else {
        assert now[j].addr == a;
      }
    }
  }

  /** All bytes are in some block: the sum of the sizes never changes. */
  function Bytes(tape: seq<Cell>): nat {
    if tape == [] then 0 else tape[0].size + Bytes(tape[1..])
  }

  lemma {:induction false} BytesOfExtent(tape: seq<Cell>)
    requires Contiguous(tape) && tape != []
    ensures Bytes(tape) == End(tape[|tape| - 1]) - tape[0].addr
    decreases |tape|
  {
    if |tape| > 1 {
      assert tape[1].addr == End(tape[0]);
      ContiguousParts(tape, 1, |tape|);
      assert tape[1..|tape|] == tape[1..];
      BytesOfExtent(tape[1..]);
    }
  }

  ghost predicate SameExtent(a: seq<Cell>, b: seq<Cell>) {
    && a != [] && b != [] && a[0].addr == b[0].addr && End(a[|a| - 1]) == End(b[|b| - 1])
  }

  lemma {:induction false} ExecKeeps(h: Heap2, op: Op)
    requires Inv(h) && h.tape != []
    ensures Inv(Exec(h, op)) && SameExtent(h.tape, Exec(h, op).tape)
  {
    match op
    case Allocate(want) =>
      if want > 0 {
        MallocInv(h, want);
      }
    case Release(addr) => FreeInv(h, addr);
  }

  /** Over any run the free list stays sorted and holds exactly the free blocks, no boundary is ever lost,
      and no byte. */
  lemma {:induction false} RunKeeps(h: Heap2, ops: seq<Op>)
    requires Inv(h) && h.tape != []
    ensures Inv(Run(h, ops)) && Run(h, ops).tape != [] && Bytes(Run(h, ops).tape) == Bytes(h.tape)
    ensures forall a :: IsBoundary(h.tape, a) ==> IsBoundary(Run(h, ops).tape, a)
    decreases |ops|
  {
    if ops != [] {
      var h1 := Exec(h, ops[0]);
      ExecKeeps(h, ops[0]);
      BytesOfExtent(h.tape);
      BytesOfExtent(h1.tape);
      forall a | IsBoundary(h.tape, a) ensures IsBoundary(h1.tape, a) {
        BoundariesStay(h, ops[0], a);
      }
      RunKeeps(h1, ops[1..]);
    }
  }
}
