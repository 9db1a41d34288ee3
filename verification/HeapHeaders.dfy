/** How the free list and the allocated blocks of a tape lie in memory: a header at the start of each
    block, linked by address. */
module HeapHeaders {
  import opened HeapTape
  import Arithmetic

  /** `BlockLink_t`; `next` is 0 for NULL, and the top bit of `xBlockSize` marks an allocated block. */
  datatype Header = Header(next: nat, xBlockSize: nat)

  const ALIGNMENT: nat := 8
  const STRUCT: nat := 16
  const MINIMUM: nat := 32
  const SIZE_MAX: nat := 0xffff_ffff_ffff_ffff
  const ALLOCATED: nat := 0x8000_0000_0000_0000

  function RoundUp(n: nat): (r: nat)
    ensures n <= r < n + ALIGNMENT && r % ALIGNMENT == 0
  {
    Arithmetic.DivModUnique((n + ALIGNMENT - 1) / ALIGNMENT * ALIGNMENT, (n + ALIGNMENT - 1) / ALIGNMENT, 0, ALIGNMENT);
    (n + ALIGNMENT - 1) / ALIGNMENT * ALIGNMENT
  }

  /** The size of the block for a request, or 0 if there is none: the request is for nothing, or the
      arithmetic on `size_t` would overflow. */
  function BlockSize(wanted: nat): (w: nat)
    ensures w == 0 <==> wanted == 0 || RoundUp(wanted + STRUCT) > SIZE_MAX
    ensures w > 0 ==> w == RoundUp(wanted + STRUCT)
  {
    if wanted == 0 || wanted > SIZE_MAX - STRUCT then 0
    else
      var w := wanted + STRUCT;
      if w % ALIGNMENT == 0 then w
      else if w > SIZE_MAX - (ALIGNMENT - w % ALIGNMENT) then 0
      else w + (ALIGNMENT - w % ALIGNMENT)
  }

  type Memory = map<nat, Header>

  function NextOf(list: seq<Block>, k: nat): nat
    requires k < |list|
  {
    if k + 1 < |list| then list[k + 1].addr else 0
  }

  predicate HeaderOk(m: Memory, list: seq<Block>, k: nat)
    requires k < |list|
  {
    list[k].addr in m && m[list[k].addr] == Header(NextOf(list, k), list[k].size)
  }

  /** `start` is `xStart.NextFreeBlock`. */
  ghost predicate Chain(m: Memory, start: nat, list: seq<Block>) {
    && list != [] && start == list[0].addr
    && forall k :: 0 <= k < |list| ==> HeaderOk(m, list, k)
  }

  predicate UsedHeader(m: Memory, c: Cell) {
    c.kind.Used? ==> c.addr in m && m[c.addr] == Header(0, c.size + ALLOCATED)
  }

  /** Exactly the allocated cells have headers with the top bit set. */
  ghost predicate UsedOk(m: Memory, tape: seq<Cell>) {
    && (forall i :: 0 <= i < |tape| ==> UsedHeader(m, tape[i]))
    && (forall a :: a in m && m[a].xBlockSize >= ALLOCATED ==> AllocatedAt(tape, a))
  }

  ghost predicate AllocatedAt(tape: seq<Cell>, a: nat) {
    exists i :: 0 <= i < |tape| && tape[i].kind.Used? && tape[i].addr == a
  }

  ghost predicate Ascending(list: seq<Block>) {
    forall i, j :: 0 <= i < j < |list| ==> list[i].addr < list[j].addr
  }

  // ----- facts about listings

  lemma {:induction false} ListingAscends(tape: seq<Cell>)
    requires Contiguous(tape)
    ensures Ascending(Listing(tape))
    decreases |tape|
  {
    if tape != [] {
      var rest := tape[1..];
      ContiguousParts(tape, 1, |tape|);
      assert tape[1..|tape|] == rest;
      ListingAscends(rest);
      if rest != [] {
        assert tape[1].addr == End(tape[0]);
        EntriesWithin(rest, End(tape[0]), End(tape[|tape| - 1]));
      }
    }
  }

  /** Cells begin at different addresses. */
  lemma CellsDiffer(tape: seq<Cell>, i: nat, j: nat)
    requires Contiguous(tape) && i < |tape| && j < |tape| && i != j
    ensures tape[i].addr != tape[j].addr
  {
    if i < j {
      Increasing(tape, i, j);
    } else {
      Increasing(tape, j, i);
    }
  }

  /** An entry of the list belongs to a cell that is not allocated. */
  lemma {:induction false} EntryCell(tape: seq<Cell>, k: nat) returns (i: nat)
    requires k < |Listing(tape)|
    ensures i < |tape| && !tape[i].kind.Used? && tape[i].addr == Listing(tape)[k].addr
    decreases |tape|
  {
    if k < |Entry(tape[0])| {
      i := 0;
    } else {
      var j := EntryCell(tape[1..], k - |Entry(tape[0])|);
      i := j + 1;
    }
  }

  lemma EntryIsNotUsed(tape: seq<Cell>, k: nat, j: nat)
    requires Contiguous(tape) && k < |Listing(tape)| && j < |tape| && tape[j].kind.Used?
    ensures Listing(tape)[k].addr != tape[j].addr
  {
    var i := EntryCell(tape, k);
    CellsDiffer(tape, i, j);
  }

  /** The first entry that is large enough is that of the first cell that fits. */
  lemma {:induction false} FirstFitEntry(tape: seq<Cell>, want: nat)
    requires want > 0
    ensures var i := FirstFit(tape, want);
            && (forall k :: 0 <= k < |Listing(tape[..i])| ==> Listing(tape[..i])[k].size < want)
    decreases |tape|
  {
    var i := FirstFit(tape, want);
    if i > 0 {
      FirstFitEntry(tape[1..], want);
      assert tape[..i][1..] == tape[1..][..i - 1];
      assert Listing(tape[..i]) == Entry(tape[0]) + Listing(tape[1..][..i - 1]);
      assert FirstFit(tape[1..], want) == i - 1 && !Fits(tape[0], want);
    }
  }

  // ----- the chain after an allocation

  /** Header writes that leave a block's own header alone do not matter to it. */
  predicate SameAt(m: Memory, m': Memory, a: nat) {
    a in m && a in m' && m[a] == m'[a]
  }

  /** Taking entry b off the chain, or putting a remainder in its place. */
  lemma ChainReplaced(m: Memory, start: nat, list: seq<Block>, b: nat, mid: seq<Block>, m': Memory, start': nat)
    requires Chain(m, start, list) && b + 1 < |list| && |mid| <= 1
    requires var list' := list[..b] + mid + list[b + 1..];
             && (forall k :: 0 <= k < |list| && k != b && k + 1 != b ==> SameAt(m, m', list[k].addr))
             && (if b == 0 then start' == list'[0].addr else start' == start && HeaderOk(m', list', b - 1))
             && (mid != [] ==> mid[0].addr in m' && m'[mid[0].addr] == Header(list[b + 1].addr, mid[0].size))
    ensures Chain(m', start', list[..b] + mid + list[b + 1..])
  {
    var list' := list[..b] + mid + list[b + 1..];
    forall k | 0 <= k < |list'| ensures HeaderOk(m', list', k) {
      if k + 1 < b {
        assert HeaderOk(m, list, k);
      } else if k >= b + |mid| {
        assert HeaderOk(m, list, k - |mid| + 1);
      }
    }
  }
}
