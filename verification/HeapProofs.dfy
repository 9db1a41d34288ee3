/** The headers in memory before and after an allocation or a free. */
module HeapProofs {
  import opened HeapTape
  import opened HeapHeaders
  import opened HeapTheorems

  /** All blocks begin and end at aligned addresses, below the top half of the address space. */
  ghost predicate Aligned(tape: seq<Cell>) {
    forall i :: 0 <= i < |tape| ==>
      tape[i].addr > 0 && tape[i].addr % ALIGNMENT == 0 && (!tape[i].kind.Wall? ==> End(tape[i]) <= ALLOCATED)
  }

  /** An allocated block is not on the list, so that its mark can go. */
  lemma {:induction false} UsedApart(tape: seq<Cell>, i: nat, m: Memory, start: nat)
    requires Contiguous(tape) && i < |tape| && tape[i].kind.Used? && Chain(m, start, Listing(tape))
    ensures Chain(m[tape[i].addr := Header(0, tape[i].size)], start, Listing(tape))
  {
    var list := Listing(tape);
    forall k | 0 <= k < |list| ensures list[k].addr != tape[i].addr && HeaderOk(m, list, k) {
      EntryIsNotUsed(tape, k, i);
    }
  }

  /** Freeing a block leaves the other allocated ones alone. */
  lemma FreedKeeps(tape: seq<Cell>, i: nat, j: nat)
    requires i < |tape| && j < |tape| && i != j && tape[j].kind.Used?
    ensures exists k :: 0 <= k < |Freed(tape, i)| && Freed(tape, i)[k] == tape[j]
  {
    var lo, hi := Low(tape, i), High(tape, i);
    assert Freed(tape, i)[if j < lo then j else j - hi + lo + 1] == tape[j];
  }

  lemma FreedUsed(tape: seq<Cell>, i: nat, k: nat) returns (j: nat)
    requires i < |tape| && k < |Freed(tape, i)| && Freed(tape, i)[k].kind.Used?
    ensures j < |tape| && j != i && tape[j] == Freed(tape, i)[k]
  {
    var lo, hi := Low(tape, i), High(tape, i);
    j := if k < lo then k else k + hi - lo - 1;
  }

  lemma ReleasedUsed(tape: seq<Cell>, i: nat, m: Memory, m1: Memory, m': Memory, start': nat, now: seq<Cell>)
    requires HeapTape.Valid(tape) && Aligned(tape) && i < |tape| && tape[i].kind.Used? && UsedOk(m, tape) &&
             now == Freed(tape, i)
    requires tape[i].addr in m && m1 == m[tape[i].addr := Header(0, tape[i].size)]
    requires Touched(m1, m', Listing(now)) && Chain(m', start', Listing(now))
    ensures UsedOk(m', now)
  {
    var v := ReleasedValid(tape, i);
    forall k | 0 <= k < |now| ensures UsedHeader(m', now[k]) {
      if now[k].kind.Used? {
        var j := FreedUsed(tape, i, k);
        ReleasedElsewhere(tape, i, j, k, m, m1, m');
      }
    }
    forall a | a in m' && m'[a].xBlockSize >= ALLOCATED ensures AllocatedAt(now, a) {
      if IsEntry(Listing(now), a) {
        var k :| 0 <= k < |Listing(now)| && Listing(now)[k].addr == a;
        EntryFacts(now, m', start', k);
        assert false;
      } else {
        assert a in m && m[a].xBlockSize >= ALLOCATED;
        var j :| 0 <= j < |tape| && tape[j].kind.Used? && tape[j].addr == a;
        FreedKeeps(tape, i, j);
      }
    }
  }

  lemma ReleasedElsewhere(tape: seq<Cell>, i: nat, j: nat, k: nat, m: Memory, m1: Memory, m': Memory)
    requires Contiguous(tape) && i < |tape| && j < |tape| && i != j && tape[j].kind.Used? && UsedHeader(m, tape[j])
    requires tape[i].addr in m && m1 == m[tape[i].addr := Header(0, tape[i].size)]
    requires Contiguous(Freed(tape, i)) && k < |Freed(tape, i)| && Freed(tape, i)[k] == tape[j]
    requires Touched(m1, m', Listing(Freed(tape, i)))
    ensures UsedHeader(m', tape[j])
  {
    CellsDiffer(tape, i, j);
    if IsEntry(Listing(Freed(tape, i)), tape[j].addr) {
      var e :| 0 <= e < |Listing(Freed(tape, i))| && Listing(Freed(tape, i))[e].addr == tape[j].addr;
      EntryIsNotUsed(Freed(tape, i), e, k);
    }
  }

  lemma ReleasedValid(tape: seq<Cell>, i: nat) returns (now: seq<Cell>)
    requires HeapTape.Valid(tape) && Aligned(tape) && i < |tape| && tape[i].kind.Used?
    ensures now == Freed(tape, i) && HeapTape.Valid(now) && Aligned(now) && now[|now| - 1].addr == tape[|tape| - 1].addr
    ensures FreeBytes(now) == FreeBytes(tape) + tape[i].size
  {
    now := Freed(tape, i);
    FreedValid(tape, i);
    FreedBytes(tape, i);
    ReleasedAligned(tape, i);
  }

  lemma ReleasedAligned(tape: seq<Cell>, i: nat)
    requires Contiguous(tape) && Closed(tape) && Aligned(tape) && i + 1 < |tape| && tape[i].kind.Used?
    ensures Aligned(Freed(tape, i)) && Freed(tape, i) != [] &&
            Freed(tape, i)[|Freed(tape, i)| - 1].addr == tape[|tape| - 1].addr
  {
    var lo, hi, now := Low(tape, i), High(tape, i), Freed(tape, i);
    assert lo < i ==> tape[i].addr == End(tape[i - 1]);
    assert hi > i + 1 ==> tape[i + 1].addr == End(tape[i]);
    forall k | 0 <= k < |now| ensures now[k].addr > 0 && now[k].addr % ALIGNMENT == 0 &&
        (!now[k].kind.Wall? ==> End(now[k]) <= ALLOCATED) {
      if k < lo {
        assert now[k] == tape[k];
      } else if k > lo {
        assert now[k].addr == tape[k + hi - lo - 1].addr && now[k].size == tape[k + hi - lo - 1].size;
      }
    }
  }

  /** The addresses whose headers `LinkBlock` writes: that of the joined block, and that of the entry
      before it if the two are not merged. */
  predicate Relinked(left: seq<Block>, b: Block, a: nat) {
    if left != [] && Touches(left[|left| - 1], b.addr) then a == left[|left| - 1].addr
    else a == b.addr || (left != [] && a == left[|left| - 1].addr)
  }

  lemma LinkedEntries(left: seq<Block>, right: seq<Block>, b: Block)
    requires right != []
    ensures forall a :: Relinked(left, b, a) ==> IsEntry(InsertedBetween(left, right, b), a)
  {
    var list' := InsertedBetween(left, right, b);
    var back := left != [] && Touches(left[|left| - 1], b.addr);
    var p := if back then |left| - 1 else |left|;
    assert list'[p].addr == if back then left[|left| - 1].addr else b.addr;
    assert !back && left != [] ==> list'[p - 1] == left[|left| - 1];
  }

  lemma UsedHeaderAt(m: Memory, tape: seq<Cell>, a: nat)
    requires UsedOk(m, tape) && a in m && m[a].xBlockSize >= ALLOCATED
    ensures UsedAt(tape, a) < |tape| && UsedHeader(m, tape[UsedAt(tape, a)])
  {
    var i :| 0 <= i < |tape| && tape[i].kind.Used? && tape[i].addr == a;
  }

  lemma NotUsedAt(m: Memory, tape: seq<Cell>, a: nat)
    requires UsedOk(m, tape) && a in m && m[a].xBlockSize < ALLOCATED
    ensures UsedAt(tape, a) == |tape|
  {
    var i := UsedAt(tape, a);
    assert i < |tape| ==> UsedHeader(m, tape[i]);
  }

  lemma HeadersAround(m: Memory, start: nat, left: seq<Block>, right: seq<Block>)
    requires Chain(m, start, left + right) && right != []
    ensures HeaderOk(m, right, 0)
    ensures left == [] ==> start == right[0].addr
    ensures left != [] ==> left[|left| - 1].addr in m &&
                           m[left[|left| - 1].addr] == Header(right[0].addr, left[|left| - 1].size)
  {
    var list := left + right;
    assert HeaderOk(m, list, |left|);
    if left != [] {
      assert HeaderOk(m, list, |left| - 1);
    }
  }

  /** Headers have changed only where the new list has an entry. */
  ghost predicate Touched(m: Memory, m': Memory, list': seq<Block>) {
    && (forall a :: a in m ==> a in m')
    && (forall a :: a in m' ==> (a in m && m'[a] == m[a]) || IsEntry(list', a))
  }

  ghost predicate IsEntry(list: seq<Block>, a: nat) {
    exists k :: 0 <= k < |list| && list[k].addr == a
  }

  /** The headers after `InsertBlockIntoFreeList`, the entry before and the entry after the place given. */
  ghost predicate Linked(m: Memory, start: nat, left: seq<Block>, right: seq<Block>, b: Block, m': Memory, start': nat)
    requires right != []
  {
    var back := left != [] && Touches(left[|left| - 1], b.addr);
    var j := if back then Block(left[|left| - 1].addr, left[|left| - 1].size + b.size) else b;
    var front := |right| > 1 && Touches(j, right[0].addr);
    var next := if front then right[1].addr else right[0].addr;
    var size := if front then j.size + right[0].size else j.size;
    && j.addr in m' && m'[j.addr] == Header(next, size)
    && (!back && left != [] ==> left[|left| - 1].addr in m' &&
                                m'[left[|left| - 1].addr] == Header(b.addr, left[|left| - 1].size))
    && start' == (if left == [] then b.addr else start)
    && (forall a :: a in m && a != j.addr && (back || left == [] || a != left[|left| - 1].addr) ==>
           a in m' && m'[a] == m[a])
  }

  ghost predicate Between(left: seq<Block>, right: seq<Block>, b: Block) {
    && right != [] && Ascending(left + right)
    && (forall j :: 0 <= j < |left| ==> left[j].addr < b.addr)
    && (forall j :: 0 <= j < |right| ==> b.addr < right[j].addr)
    && (forall j :: 0 < j < |right| ==> right[0].addr < right[j].addr)
  }

  /** The list around an allocated block, and after the block has been freed. */
  lemma FreedAround(tape: seq<Cell>, i: nat) returns (left: seq<Block>, right: seq<Block>)
    requires HeapTape.Valid(tape) && Aligned(tape) && i < |tape| && tape[i].kind.Used?
    ensures Listing(tape) == left + right && Between(left, right, Block(tape[i].addr, tape[i].size))
    ensures Listing(Freed(tape, i)) == InsertedBetween(left, right, Block(tape[i].addr, tape[i].size))
    ensures right[|right| - 1].addr == tape[|tape| - 1].addr
    ensures forall j :: 0 <= j < |left| ==> left[j].addr > 0
  {
    left, right := AroundUsed(tape, i);
    FreedParts(tape, i);
    FreedBetween(tape, i, left, right, Block(tape[i].addr, tape[i].size));
  }

  lemma AroundUsed(tape: seq<Cell>, i: nat) returns (left: seq<Block>, right: seq<Block>)
    requires HeapTape.Valid(tape) && Aligned(tape) && i < |tape| && tape[i].kind.Used?
    ensures left == Listing(tape[..i]) && right == Listing(tape[i + 1..]) && Listing(tape) == left + right
    ensures Between(left, right, Block(tape[i].addr, tape[i].size))
    ensures right[|right| - 1].addr == tape[|tape| - 1].addr
    ensures forall j :: 0 <= j < |left| ==> left[j].addr > 0
  {
    left, right := Listing(tape[..i]), Listing(tape[i + 1..]);
    ListingAround(tape, i);
    assert Listing(tape) == left + right;
    SidesOf(tape, i, left, right);
    ListingAscends(tape);
    RightAscends(left, right);
  }

  lemma SidesOf(tape: seq<Cell>, i: nat, left: seq<Block>, right: seq<Block>)
    requires HeapTape.Valid(tape) && Aligned(tape) && i < |tape| && tape[i].kind.Used?
    requires left == Listing(tape[..i]) && right == Listing(tape[i + 1..])
    ensures forall j :: 0 <= j < |left| ==> 0 < left[j].addr < tape[i].addr
    ensures right != [] && right[|right| - 1].addr == tape[|tape| - 1].addr
    ensures forall j :: 0 <= j < |right| ==> tape[i].addr < right[j].addr
  {
    LeftOf(tape, i);
    RightOf(tape, i);
    EndIsListed(tape[i + 1..]);
    forall j | 0 <= j < |left| ensures 0 < left[j].addr {
      var c := EntryCell(tape[..i], j);
    }
  }

  lemma RightAscends(left: seq<Block>, right: seq<Block>)
    requires Ascending(left + right) && right != []
    ensures forall j :: 0 < j < |right| ==> right[0].addr < right[j].addr
  {
    forall j | 0 < j < |right| ensures right[0].addr < right[j].addr {
      assert (left + right)[|left|] == right[0] && (left + right)[|left| + j] == right[j];
    }
  }

  lemma InsertedChain(m: Memory, start: nat, left: seq<Block>, right: seq<Block>, b: Block, m': Memory, start': nat)
    requires Chain(m, start, left + right) && Between(left, right, b)
    requires Linked(m, start, left, right, b, m', start')
    ensures Chain(m', start', InsertedBetween(left, right, b))
  {
    var list' := InsertedBetween(left, right, b);
    var back := left != [] && Touches(left[|left| - 1], b.addr);
    var p := if back then |left| - 1 else |left|;
    forall k | 0 <= k < |list'| ensures HeaderOk(m', list', k) {
      if k < p {
        HeadersBefore(m, start, left, right, b, m', start', k);
      } else if k > p {
        HeadersAfter(m, start, left, right, b, m', start', k - p - 1);
      }
    }
  }

  lemma HeadersBefore(m: Memory, start: nat, left: seq<Block>, right: seq<Block>, b: Block, m': Memory, start': nat,
      k: nat)
    requires Chain(m, start, left + right) && Between(left, right, b)
    requires Linked(m, start, left, right, b, m', start')
    requires k < |left| && (left != [] && Touches(left[|left| - 1], b.addr) ==> k + 1 < |left|)
    ensures k < |InsertedBetween(left, right, b)| && HeaderOk(m', InsertedBetween(left, right, b), k)
  {
    var list, list' := left + right, InsertedBetween(left, right, b);
    assert HeaderOk(m, list, k) && list'[k] == list[k] == left[k];
    if k + 1 < |left| {
      assert list[k + 1] == left[k + 1] && list'[k + 1].addr == left[k + 1].addr;
      assert list[k].addr < list[|left| - 1].addr == left[|left| - 1].addr;
    }
  }

  lemma HeadersAfter(m: Memory, start: nat, left: seq<Block>, right: seq<Block>, b: Block, m': Memory, start': nat,
      d: nat)
    requires Chain(m, start, left + right) && Between(left, right, b)
    requires Linked(m, start, left, right, b, m', start')
    requires var p := if left != [] && Touches(left[|left| - 1], b.addr) then |left| - 1 else |left|;
             p + 1 + d < |InsertedBetween(left, right, b)|
    ensures var p := if left != [] && Touches(left[|left| - 1], b.addr) then |left| - 1 else |left|;
            HeaderOk(m', InsertedBetween(left, right, b), p + 1 + d)
  {
    var list, list' := left + right, InsertedBetween(left, right, b);
    var back := left != [] && Touches(left[|left| - 1], b.addr);
    var j := if back then Block(left[|left| - 1].addr, left[|left| - 1].size + b.size) else b;
    var front := |right| > 1 && Touches(j, right[0].addr);
    var p := if back then |left| - 1 else |left|;
    var o := if front then d + 1 else d;
    assert HeaderOk(m, list, |left| + o) && list'[p + 1 + d] == right[o] == list[|left| + o];
    assert p + 2 + d < |list'| ==> list'[p + 2 + d] == right[o + 1] == list[|left| + o + 1];
  }

  /** The headers once a block is off the list, before it is marked. */
  ghost predicate OffTheList(m: Memory, start: nat, previous: nat, block: nat, want: nat, m': Memory, start': nat)
    requires block in m && want <= m[block].xBlockSize && (previous != 0 ==> previous in m)
  {
    var split := m[block].xBlockSize - want > MINIMUM;
    var next := if split then block + want else m[block].next;
    && (forall a :: (previous == 0 || a != previous) && a != block && !(split && a == block + want) ==>
           (a in m <==> a in m') && (a in m ==> m'[a] == m[a]))
    && block in m' && m'[block].xBlockSize == (if split then want else m[block].xBlockSize)
    && (if previous == 0 then start' == next else start' == start && previous in m' &&
                                                  m'[previous] == Header(next, m[previous].xBlockSize))
    && (split ==> block + want in m' && m'[block + want] == Header(m[block].next, m[block].xBlockSize - want))
  }

  /** The entries around place b. */
  lemma EntryFacts(tape: seq<Cell>, m: Memory, start: nat, b: nat)
    requires HeapTape.Valid(tape) && Aligned(tape) && Chain(m, start, Listing(tape)) && b < |Listing(tape)|
    ensures var list := Listing(tape);
            && Ascending(list) && HeaderOk(m, list, b) && (b > 0 ==> HeaderOk(m, list, b - 1)) && list[0].addr > 0
            && (forall k :: 0 <= k < |list| ==> list[k].addr > 0 && list[k].size < ALLOCATED)
  {
    ListingAscends(tape);
    forall k | 0 <= k < |Listing(tape)| ensures Listing(tape)[k].addr > 0 && Listing(tape)[k].size < ALLOCATED {
      var i := EntryOf(tape, k);
    }
  }

  lemma {:induction false} EntryOf(tape: seq<Cell>, k: nat) returns (i: nat)
    requires k < |Listing(tape)|
    ensures i < |tape| && [Listing(tape)[k]] == Entry(tape[i])
    decreases |tape|
  {
    if k < |Entry(tape[0])| {
      i := 0;
    } else {
      var j := EntryOf(tape[1..], k - |Entry(tape[0])|);
      i := j + 1;
    }
  }

  lemma FitsEntry(tape: seq<Cell>, want: nat, i: nat)
    requires Contiguous(tape) && i < |tape| && Fits(tape[i], want)
    ensures var list, b := Listing(tape), |Listing(tape[..i])|;
            && b < |list| && list[b] == Block(tape[i].addr, tape[i].size) && Ascending(list)
            && list[..b] == Listing(tape[..i]) && list[b + 1..] == Listing(tape[i + 1..])
            && (HeapTape.Valid(tape) ==> b + 1 < |list| && list[b].addr + list[b].size <= list[b + 1].addr)
  {
    ListingAround(tape, i);
    ListingAscends(tape);
    if HeapTape.Valid(tape) {
      RightOf(tape, i);
    }
  }

  /** The mark of an allocated block. */
  function Marked(m: Memory, block: nat): Memory
    requires block in m
  {
    m[block := Header(0, m[block].xBlockSize + ALLOCATED)]
  }

  lemma TakenChain(list: seq<Block>, b: nat, want: nat, m: Memory, start: nat, m': Memory, start': nat)
    requires Chain(m, start, list) && Ascending(list) && b + 1 < |list| && 0 < want <= list[b].size
    requires list[b].addr + list[b].size <= list[b + 1].addr && list[0].addr > 0
    requires HeaderOk(m, list, b) && (b > 0 ==> HeaderOk(m, list, b - 1))
    requires OffTheList(m, start, if b == 0 then 0 else list[b - 1].addr, list[b].addr, want, m', start')
    ensures Chain(Marked(m', list[b].addr), start',
                  list[..b] + Remainder(Cell(list[b].addr, list[b].size, Free), want, MINIMUM) + list[b + 1..])
  {
    var mid, m'' := Remainder(Cell(list[b].addr, list[b].size, Free), want, MINIMUM), Marked(m', list[b].addr);
    var list' := list[..b] + mid + list[b + 1..];
    forall k | 0 <= k < |list| && k != b && k + 1 != b ensures SameAt(m, m'', list[k].addr) {
      assert HeaderOk(m, list, k);
    }
    if b > 0 {
      assert list'[b - 1] == list[b - 1] && list'[b] == (if mid == [] then list[b + 1] else mid[0]);
    }
    ChainReplaced(m, start, list, b, mid, m'', start');
  }

  /** The header of a cell other than the one taken is not touched. */
  lemma TakenElsewhere(tape: seq<Cell>, i: nat, j: nat, b: nat, want: nat, m: Memory, start: nat, m': Memory,
      start': nat)
    requires Contiguous(tape) && i < |tape| && j < |tape| && i != j && tape[j].kind.Used? && 0 < want &&
             Fits(tape[i], want)
    requires UsedHeader(m, tape[j]) && b <= |Listing(tape)|
    requires tape[i].addr in m && want <= m[tape[i].addr].xBlockSize <= tape[i].size
    requires var previous := if b == 0 then 0 else Listing(tape)[b - 1].addr;
             && (previous != 0 ==> previous in m) && tape[j].addr > 0
             && OffTheList(m, start, previous, tape[i].addr, want, m', start')
    ensures UsedHeader(Marked(m', tape[i].addr), tape[j])
  {
    if b > 0 {
      EntryIsNotUsed(tape, b - 1, j);
    }
    Apart(tape, i, j);
    CellsDiffer(tape, i, j);
  }

  /** The other headers: those of the list entries and the remainder are not marked. */
  lemma TakenMarks(tape: seq<Cell>, i: nat, previous: nat, want: nat, m: Memory, start: nat, m': Memory, start': nat,
      a: nat)
    requires UsedOk(m, tape) && i < |tape| && 0 < want && Fits(tape[i], want) && tape[i].size < ALLOCATED
    requires tape[i].addr in m && m[tape[i].addr].xBlockSize == tape[i].size
    requires previous != 0 ==> previous in m && m[previous].xBlockSize < ALLOCATED
    requires OffTheList(m, start, previous, tape[i].addr, want, m', start')
    requires a in m' && a != tape[i].addr && m'[a].xBlockSize >= ALLOCATED
    ensures AllocatedAt(Allocated(tape, i, want, MINIMUM), a)
  {
    assert a in m && m[a].xBlockSize >= ALLOCATED;
    AllocatedKeeps(tape, i, want, a);
  }

  lemma TakenUsed(tape: seq<Cell>, i: nat, b: nat, want: nat, m: Memory, start: nat, m': Memory, start': nat)
    requires HeapTape.Valid(tape) && Aligned(tape) && UsedOk(m, tape)
    requires i < |tape| && 0 < want && Fits(tape[i], want) && b <= |Listing(tape)|
    requires tape[i].addr in m && m[tape[i].addr].xBlockSize == tape[i].size
    requires var previous := if b == 0 then 0 else Listing(tape)[b - 1].addr;
             && (previous != 0 ==> previous in m && m[previous].xBlockSize < ALLOCATED)
             && OffTheList(m, start, previous, tape[i].addr, want, m', start')
    ensures UsedOk(Marked(m', tape[i].addr), Allocated(tape, i, want, MINIMUM))
  {
    var now, m'' := Allocated(tape, i, want, MINIMUM), Marked(m', tape[i].addr);
    assert tape[i].addr > 0 && End(tape[i]) <= ALLOCATED;
    forall j | 0 <= j < |now| ensures UsedHeader(m'', now[j]) {
      TakenHeader(tape, i, b, want, m, start, m', start', j);
    }
    assert now[i].kind.Used? && now[i].addr == tape[i].addr;
    forall a | a in m'' && m''[a].xBlockSize >= ALLOCATED ensures AllocatedAt(now, a) {
      if a != tape[i].addr {
        TakenMarks(tape, i, if b == 0 then 0 else Listing(tape)[b - 1].addr, want, m, start, m', start', a);
      }
    }
  }

  lemma TakenHeader(tape: seq<Cell>, i: nat, b: nat, want: nat, m: Memory, start: nat, m': Memory, start': nat, j: nat)
    requires HeapTape.Valid(tape) && Aligned(tape) && UsedOk(m, tape)
    requires i < |tape| && 0 < want && Fits(tape[i], want) && b <= |Listing(tape)|
    requires tape[i].addr in m && m[tape[i].addr].xBlockSize == tape[i].size
    requires var previous := if b == 0 then 0 else Listing(tape)[b - 1].addr;
             && (previous != 0 ==> previous in m)
             && OffTheList(m, start, previous, tape[i].addr, want, m', start')
    requires j < |Allocated(tape, i, want, MINIMUM)|
    ensures UsedHeader(Marked(m', tape[i].addr), Allocated(tape, i, want, MINIMUM)[j])
  {
    var mid := Carve(tape[i], want, MINIMUM);
    if j < i || j >= i + |mid| {
      var o := if j < i then j else j - |mid| + 1;
      assert Allocated(tape, i, want, MINIMUM)[j] == tape[o];
      if tape[o].kind.Used? {
        assert tape[o].addr > 0 && UsedHeader(m, tape[o]);
        TakenElsewhere(tape, i, o, b, want, m, start, m', start');
      }
    }
  }

  lemma AllocatedKeeps(tape: seq<Cell>, i: nat, want: nat, a: nat)
    requires i < |tape| && Fits(tape[i], want) && AllocatedAt(tape, a)
    ensures AllocatedAt(Allocated(tape, i, want, MINIMUM), a)
  {
    var o :| 0 <= o < |tape| && tape[o].kind.Used? && tape[o].addr == a;
    var mid := Carve(tape[i], want, MINIMUM);
    assert Allocated(tape, i, want, MINIMUM)[if o < i then o else o + |mid| - 1] == tape[o];
  }

  lemma TakenOk(tape: seq<Cell>, i: nat, b: nat, want: nat, m: Memory, start: nat, m': Memory, start': nat)
    requires HeapTape.Valid(tape) && Aligned(tape) && Chain(m, start, Listing(tape)) && UsedOk(m, tape)
    requires i < |tape| && 0 < want && Fits(tape[i], want) && b == |Listing(tape[..i])|
    requires tape[i].addr in m && m[tape[i].addr].xBlockSize == tape[i].size && b <= |Listing(tape)|
    requires var previous := if b == 0 then 0 else Listing(tape)[b - 1].addr;
             && (previous != 0 ==> previous in m)
             && OffTheList(m, start, previous, tape[i].addr, want, m', start')
    ensures Chain(Marked(m', tape[i].addr), start', Listing(Allocated(tape, i, want, MINIMUM)))
    ensures UsedOk(Marked(m', tape[i].addr), Allocated(tape, i, want, MINIMUM))
    ensures FreeBytes(Allocated(tape, i, want, MINIMUM)) + m'[tape[i].addr].xBlockSize == FreeBytes(tape)
  {
    FitsEntry(tape, want, i);
    EntryFacts(tape, m, start, b);
    TakenChain(Listing(tape), b, want, m, start, m', start');
    TakenUsed(tape, i, b, want, m, start, m', start');
    AllocatedListing(tape, i, want, MINIMUM);
  }

  lemma TakenValid(tape: seq<Cell>, i: nat, want: nat)
    requires HeapTape.Valid(tape) && Aligned(tape) && i < |tape| && Fits(tape[i], want) && 0 < want &&
             want % ALIGNMENT == 0
    ensures var now := Allocated(tape, i, want, MINIMUM);
            HeapTape.Valid(now) && Aligned(now) && now[|now| - 1].addr == tape[|tape| - 1].addr
  {
    AllocatedValid(tape, i, want, MINIMUM);
  }

  /** A cell that fits is among the free bytes. */
  lemma FitIsFree(tape: seq<Cell>, want: nat)
    ensures FirstFit(tape, want) < |tape| ==> want <= FreeBytes(tape)
  {
    var i := FirstFit(tape, want);
    if i < |tape| {
      ListingAround(tape, i);
    }
  }

  /** Where the walk ends: at the entry of the first cell that fits, or at the end marker. */
  lemma FitEntry(tape: seq<Cell>, want: nat, b: nat)
    requires HeapTape.Valid(tape) && want > 0 && b < |Listing(tape)|
    requires forall k :: 0 <= k < b ==> Listing(tape)[k].size < want
    requires b + 1 == |Listing(tape)| || Listing(tape)[b].size >= want
    ensures var i := FirstFit(tape, want);
            && (i < |tape| ==> b == |Listing(tape[..i])| && Listing(tape)[b].addr == tape[i].addr &&
                               tape[i].addr != tape[|tape| - 1].addr)
            && (i == |tape| ==> Listing(tape)[b].addr == tape[|tape| - 1].addr)
  {
    var i := FirstFit(tape, want);
    FirstFitEntry(tape, want);
    EndIsListed(tape);
    if i < |tape| {
      FitsEntry(tape, want, i);
      var left := Listing(tape[..i]);
      assert forall k :: 0 <= k < |left| ==> Listing(tape)[k] == left[k];
      CellsDiffer(tape, i, |tape| - 1);
    } else {
      assert tape[..i] == tape;
    }
  }
}
