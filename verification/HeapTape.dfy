/** The memory of the coalescing allocators (`heap_4.c`, `heap_5.c`) as a tape of cells that follow
    each other without a gap, and what allocation and freeing do to it. */
module HeapTape {

  /** A free block, an allocated one, or the end of a region: a zero-size marker block and whatever
      lies between it and the next region. A marker starts out on the free list (`linked`) and may
      drop off it. */
  datatype Kind = Free | Used | Wall(linked: bool)

  datatype Cell = Cell(addr: nat, size: nat, kind: Kind)

  /** An entry of the free list. */
  datatype Block = Block(addr: nat, size: nat)

  function End(c: Cell): nat {
    c.addr + c.size
  }

  // ----- the free list

  function Entry(c: Cell): seq<Block> {
    match c.kind
    case Free => [Block(c.addr, c.size)]
    case Used => []
    case Wall(linked) => if linked then [Block(c.addr, 0)] else []
  }

  function Listing(tape: seq<Cell>): seq<Block> {
    if tape == [] then [] else Entry(tape[0]) + Listing(tape[1..])
  }

  function FreeBytes(tape: seq<Cell>): nat {
    if tape == [] then 0 else (if tape[0].kind.Free? then tape[0].size else 0) + FreeBytes(tape[1..])
  }

  // ----- well-formed tapes

  ghost predicate Contiguous(tape: seq<Cell>) {
    && (forall i :: 0 <= i < |tape| ==> tape[i].size > 0)
    && (forall i :: 0 < i < |tape| ==> tape[i].addr == End(tape[i - 1]))
  }

  /** Free blocks that touch have been merged. */
  ghost predicate Coalesced(tape: seq<Cell>) {
    forall i :: 0 < i < |tape| ==> !(tape[i - 1].kind.Free? && tape[i].kind.Free?)
  }

  /** The last cell is the end marker, which is always on the list. */
  predicate Closed(tape: seq<Cell>) {
    tape != [] && tape[|tape| - 1].kind == Wall(true)
  }

  ghost predicate Valid(tape: seq<Cell>) {
    Contiguous(tape) && Coalesced(tape) && Closed(tape)
  }

  /** Every cell has room for what is kept at its start. */
  ghost predicate Roomy(tape: seq<Cell>, least: nat) {
    forall i :: 0 <= i < |tape| ==> least <= tape[i].size
  }

  // ----- operations

  /** The memory of an allocated block, and what is split off it. */
  function Carve(c: Cell, want: nat, minimum: nat): seq<Cell>
    requires want <= c.size
  {
    if c.size - want > minimum then [Cell(c.addr, want, Used), Cell(c.addr + want, c.size - want, Free)]
    else [c.(kind := Used)]
  }

  predicate Fits(c: Cell, want: nat) {
    c.kind.Free? && c.size >= want
  }

  /** The first free cell that is large enough. */
  function FirstFit(tape: seq<Cell>, want: nat): (i: nat)
    ensures i <= |tape|
    ensures i < |tape| ==> Fits(tape[i], want)
    ensures forall j :: 0 <= j < i ==> !Fits(tape[j], want)
  {
    if tape == [] || Fits(tape[0], want) then 0 else 1 + FirstFit(tape[1..], want)
  }

  function Allocated(tape: seq<Cell>, i: nat, want: nat, minimum: nat): seq<Cell>
    requires i < |tape| && want <= tape[i].size
  {
    tape[..i] + Carve(tape[i], want, minimum) + tape[i + 1..]
  }

  /** A freed block is merged with a free block on either side; `Low` to `High` are the cells that
      become one. */
  function Low(tape: seq<Cell>, i: nat): (lo: nat)
    requires i < |tape|
    ensures lo <= i
  {
    if i > 0 && tape[i - 1].kind.Free? then i - 1 else i
  }

  function High(tape: seq<Cell>, i: nat): (hi: nat)
    requires i < |tape|
    ensures i < hi <= |tape|
  {
    if i + 1 < |tape| && tape[i + 1].kind.Free? then i + 2 else i + 1
  }

  function Joined(tape: seq<Cell>, i: nat): Cell
    requires i < |tape|
  {
    Cell(tape[Low(tape, i)].addr,
         (if Low(tape, i) < i then tape[i - 1].size else 0) + tape[i].size +
             (if High(tape, i) > i + 1 then tape[i + 1].size else 0),
         Free)
  }

  /** A block that is freed right below an intermediate marker takes the marker off the list. */
  function Unlinked(rest: seq<Cell>): (r: seq<Cell>)
    ensures |r| == |rest|
  {
    if |rest| > 1 && rest[0].kind.Wall? then [rest[0].(kind := Wall(false))] + rest[1..] else rest
  }

  function Freed(tape: seq<Cell>, i: nat): seq<Cell>
    requires i < |tape|
  {
    tape[..Low(tape, i)] + [Joined(tape, i)] +
        (if High(tape, i) == i + 1 then Unlinked(tape[i + 1..]) else tape[i + 2..])
  }

  // ----- lists and sums over concatenations

  lemma {:induction false} ListingSum(a: seq<Cell>, b: seq<Cell>)
    ensures Listing(a + b) == Listing(a) + Listing(b) && FreeBytes(a + b) == FreeBytes(a) + FreeBytes(b)
  {
    if a == [] {
      assert a + b == b;
    } else {
      assert (a + b)[1..] == a[1..] + b;
      ListingSum(a[1..], b);
    }
  }

  lemma ListingOfThree(a: seq<Cell>, b: seq<Cell>, c: seq<Cell>)
    ensures Listing(a + b + c) == Listing(a) + Listing(b) + Listing(c)
    ensures FreeBytes(a + b + c) == FreeBytes(a) + FreeBytes(b) + FreeBytes(c)
  {
    ListingSum(a, b);
    ListingSum(a + b, c);
  }

  lemma ListingOfOne(c: Cell)
    ensures Listing([c]) == Entry(c) && FreeBytes([c]) == if c.kind.Free? then c.size else 0
  {
    assert Listing([c]) == Entry(c) + [];
  }

  lemma ListingOfParts(a: seq<Cell>, c: Cell, b: seq<Cell>)
    ensures Listing(a + [c] + b) == Listing(a) + Entry(c) + Listing(b)
    ensures FreeBytes(a + [c] + b) == FreeBytes(a) + (if c.kind.Free? then c.size else 0) + FreeBytes(b)
  {
    ListingOfThree(a, [c], b);
    ListingOfOne(c);
  }

  lemma ListingAround(tape: seq<Cell>, i: nat)
    requires i < |tape|
    ensures Listing(tape) == Listing(tape[..i]) + Entry(tape[i]) + Listing(tape[i + 1..])
    ensures FreeBytes(tape) == FreeBytes(tape[..i]) + (if tape[i].kind.Free? then tape[i].size else 0) +
            FreeBytes(tape[i + 1..])
  {
    ListingOfParts(tape[..i], tape[i], tape[i + 1..]);
    Rejoined(tape, i);
  }

  lemma Rejoined(tape: seq<Cell>, i: nat)
    requires i < |tape|
    ensures tape[..i] + [tape[i]] + tape[i + 1..] == tape
  {
  }

  // ----- allocation

  lemma CarveOk(c: Cell, want: nat, minimum: nat)
    requires 0 < want <= c.size
    ensures Contiguous(Carve(c, want, minimum)) && Coalesced(Carve(c, want, minimum))
    ensures var k := Carve(c, want, minimum); k[0].addr == c.addr && End(k[|k| - 1]) == End(c) && k[0].kind.Used?
  {
  }

  /** Replacing a stretch of a tape by one of the same extent. */
  lemma ReplaceContiguous(pre: seq<Cell>, mid: seq<Cell>, mid': seq<Cell>, post: seq<Cell>)
    requires Contiguous(pre + mid + post) && Contiguous(mid') && mid != [] && mid' != []
    requires mid'[0].addr == mid[0].addr && End(mid'[|mid'| - 1]) == End(mid[|mid| - 1])
    ensures Contiguous(pre + mid' + post)
  {
    var was, now := pre + mid + post, pre + mid' + post;
    assert pre != [] ==> was[|pre|].addr == End(was[|pre| - 1]);
    assert post != [] ==> was[|pre| + |mid|].addr == End(was[|pre| + |mid| - 1]);
    forall i | 0 < i < |now| ensures now[i].addr == End(now[i - 1]) {
      if i < |pre| {
        assert was[i].addr == End(was[i - 1]);
      } else if i > |pre| + |mid'| {
        var j := i - |mid'| + |mid|;
        assert was[j].addr == End(was[j - 1]);
      }
    }
    forall i | 0 <= i < |now| ensures now[i].size > 0 {
      if i < |pre| {
        assert was[i].size > 0;
      } else if i >= |pre| + |mid'| {
        assert was[i - |mid'| + |mid|].size > 0;
      }
    }
  }

  lemma AllocatedValid(tape: seq<Cell>, i: nat, want: nat, minimum: nat)
    requires Valid(tape) && i < |tape| && 0 < want && Fits(tape[i], want)
    ensures Valid(Allocated(tape, i, want, minimum))
  {
    var mid := Carve(tape[i], want, minimum);
    CarveOk(tape[i], want, minimum);
    assert tape == tape[..i] + [tape[i]] + tape[i + 1..];
    ReplaceContiguous(tape[..i], [tape[i]], mid, tape[i + 1..]);
    var now := Allocated(tape, i, want, minimum);
    forall j | 0 < j < |now| ensures !(now[j - 1].kind.Free? && now[j].kind.Free?) {
      if j < i {
        assert !(tape[j - 1].kind.Free? && tape[j].kind.Free?);
      } else if j >= i + |mid| {
        assert !(tape[j - |mid|].kind.Free? && tape[j - |mid| + 1].kind.Free?);
      }
    }
  }

  lemma CarveListing(c: Cell, want: nat, minimum: nat)
    requires want <= c.size
    ensures Listing(Carve(c, want, minimum)) == Remainder(c, want, minimum)
    ensures FreeBytes(Carve(c, want, minimum)) + Carve(c, want, minimum)[0].size == c.size
  {
    if c.size - want > minimum {
      ListingOfOne(Cell(c.addr, want, Used));
      ListingOfOne(Cell(c.addr + want, c.size - want, Free));
      ListingSum([Cell(c.addr, want, Used)], [Cell(c.addr + want, c.size - want, Free)]);
      assert Carve(c, want, minimum) == [Cell(c.addr, want, Used)] + [Cell(c.addr + want, c.size - want, Free)];
    } else {
      ListingOfOne(c.(kind := Used));
    }
  }

  function Remainder(c: Cell, want: nat, minimum: nat): seq<Block>
    requires want <= c.size
  {
    if c.size - want > minimum then [Block(c.addr + want, c.size - want)] else []
  }

  /** Allocation takes its bytes off the free ones, and the block off the free list: it is gone, or its
      remainder is in its place. */
  lemma AllocatedListing(tape: seq<Cell>, i: nat, want: nat, minimum: nat)
    requires i < |tape| && Fits(tape[i], want)
    ensures Listing(tape) == Listing(tape[..i]) + [Block(tape[i].addr, tape[i].size)] + Listing(tape[i + 1..])
    ensures Listing(Allocated(tape, i, want, minimum)) == Listing(tape[..i]) + Remainder(tape[i], want, minimum) +
            Listing(tape[i + 1..])
    ensures FreeBytes(Allocated(tape, i, want, minimum)) + Carve(tape[i], want, minimum)[0].size == FreeBytes(tape)
  {
    ListingAround(tape, i);
    CarveListing(tape[i], want, minimum);
    ListingOfThree(tape[..i], Carve(tape[i], want, minimum), tape[i + 1..]);
  }

  // ----- freeing

  ghost predicate SameExtents(a: seq<Cell>, b: seq<Cell>) {
    |a| == |b| && forall i :: 0 <= i < |a| ==> a[i].addr == b[i].addr && a[i].size == b[i].size
  }

  lemma ExtentsContiguous(a: seq<Cell>, b: seq<Cell>)
    requires Contiguous(a) && SameExtents(a, b)
    ensures Contiguous(b)
  {
  }

  lemma JoinedContiguous(tape: seq<Cell>, i: nat)
    requires Contiguous(tape) && i < |tape|
    ensures Contiguous(tape[..Low(tape, i)] + [Joined(tape, i)] + tape[High(tape, i)..])
  {
    var lo, hi := Low(tape, i), High(tape, i);
    assert tape == tape[..lo] + tape[lo..hi] + tape[hi..];
    assert lo < i ==> tape[i].addr == End(tape[i - 1]);
    assert hi > i + 1 ==> tape[i + 1].addr == End(tape[i]);
    ReplaceContiguous(tape[..lo], tape[lo..hi], [Joined(tape, i)], tape[hi..]);
  }

  lemma FreedContiguous(tape: seq<Cell>, i: nat)
    requires Contiguous(tape) && i < |tape|
    ensures Contiguous(Freed(tape, i))
  {
    JoinedContiguous(tape, i);
    ExtentsContiguous(tape[..Low(tape, i)] + [Joined(tape, i)] + tape[High(tape, i)..], Freed(tape, i));
  }

  lemma FreedValid(tape: seq<Cell>, i: nat)
    requires Valid(tape) && i < |tape| && tape[i].kind.Used?
    ensures Valid(Freed(tape, i))
  {
    FreedContiguous(tape, i);
    FreedKinds(tape, i);
    var lo, hi, now := Low(tape, i), High(tape, i), Freed(tape, i);
    forall j | 0 < j < |now| ensures !(now[j - 1].kind.Free? && now[j].kind.Free?) {
      if j < lo {
        assert !(tape[j - 1].kind.Free? && tape[j].kind.Free?);
      } else if j == lo {
        assert lo < i ==> tape[i - 1].kind.Free? && !tape[i - 2].kind.Free?;
      } else if j == lo + 1 {
        assert hi > i + 1 ==> !(tape[i + 1].kind.Free? && tape[i + 2].kind.Free?);
      } else {
        var m := j - lo - 1 + hi;
        assert !(tape[m - 1].kind.Free? && tape[m].kind.Free?);
      }
    }
  }

  /** Which cells are free after a free. */
  lemma FreedKinds(tape: seq<Cell>, i: nat)
    requires Closed(tape) && i < |tape| && tape[i].kind.Used?
    ensures var lo, hi, now := Low(tape, i), High(tape, i), Freed(tape, i);
            && |now| == lo + 1 + |tape| - hi && Closed(now)
            && (forall j :: 0 <= j < lo ==> now[j] == tape[j])
            && (forall j :: lo < j < |now| ==> (now[j].kind.Free? <==> tape[j - lo - 1 + hi].kind.Free?))
  {
    hide *;
    var lo, hi := Low(tape, i), High(tape, i);
    var rest := RestKinds(tape, i, hi);
    FreedIs(tape, i, rest);
    PartsKinds(tape, lo, hi, Joined(tape, i), rest);
  }

  lemma FreedIs(tape: seq<Cell>, i: nat, rest: seq<Cell>)
    requires i < |tape| && rest == (if High(tape, i) == i + 1 then Unlinked(tape[i + 1..]) else tape[i + 2..])
    ensures Freed(tape, i) == tape[..Low(tape, i)] + [Joined(tape, i)] + rest
  {
    hide Low, Joined, Unlinked;
  }

  lemma PartsKinds(tape: seq<Cell>, lo: nat, hi: nat, b: Cell, rest: seq<Cell>)
    requires lo <= |tape| && hi <= |tape| && |rest| == |tape| - hi && rest != [] && rest[|rest| - 1].kind == Wall(true)
    requires forall j :: 0 <= j < |rest| ==> (rest[j].kind.Free? <==> tape[hi + j].kind.Free?)
    ensures var now := tape[..lo] + [b] + rest;
            && |now| == lo + 1 + |tape| - hi && Closed(now)
            && (forall j :: 0 <= j < lo ==> now[j] == tape[j])
            && (forall j :: lo < j < |now| ==> (now[j].kind.Free? <==> tape[j - lo - 1 + hi].kind.Free?))
  {
    var now := tape[..lo] + [b] + rest;
    forall j | lo < j < |now| ensures now[j].kind.Free? <==> tape[j - lo - 1 + hi].kind.Free? {
      assert now[j] == rest[j - lo - 1];
    }
  }

  lemma RestKinds(tape: seq<Cell>, i: nat, hi: nat) returns (rest: seq<Cell>)
    requires Closed(tape) && i < |tape| && tape[i].kind.Used? && hi == High(tape, i)
    ensures rest == (if hi == i + 1 then Unlinked(tape[i + 1..]) else tape[i + 2..])
    ensures |rest| == |tape| - hi && rest != [] && rest[|rest| - 1].kind == Wall(true)
    ensures forall j :: 0 <= j < |rest| ==> (rest[j].kind.Free? <==> tape[hi + j].kind.Free?)
  {
    var x := tape[hi..];
    UnlinkedKinds(x);
    rest := if hi == i + 1 then Unlinked(x) else x;
    assert forall j :: 0 <= j < |x| ==> x[j] == tape[hi + j];
  }

  lemma UnlinkedKinds(x: seq<Cell>)
    ensures forall j :: 0 <= j < |x| ==> (Unlinked(x)[j].kind.Free? <==> x[j].kind.Free?)
    ensures x != [] ==> Unlinked(x)[|x| - 1] == x[|x| - 1]
  {
  }

  // ----- freeing, as the free list sees it

  /** The place of an address in the free list. */
  function Place(list: seq<Block>, addr: nat): (k: nat)
    ensures k <= |list|
    ensures forall j :: 0 <= j < k ==> list[j].addr < addr
    ensures k < |list| ==> addr <= list[k].addr
  {
    if list == [] || addr <= list[0].addr then 0 else 1 + Place(list[1..], addr)
  }

  predicate Touches(a: Block, addr: nat) {
    a.addr + a.size == addr
  }

  /** `InsertBlockIntoFreeList` between the entries before and after: the block is merged with the entry
      before it if that ends where the block begins, and with the entry after it if that begins where
      the block ends and is not the end marker. */
  function InsertedBetween(left: seq<Block>, right: seq<Block>, b: Block): seq<Block> {
    var back := left != [] && Touches(left[|left| - 1], b.addr);
    var m := if back then Block(left[|left| - 1].addr, left[|left| - 1].size + b.size) else b;
    var pre := if back then left[..|left| - 1] else left;
    if |right| > 1 && Touches(m, right[0].addr) then pre + [Block(m.addr, m.size + right[0].size)] + right[1..]
    else pre + [m] + right
  }

  function Inserted(list: seq<Block>, b: Block): seq<Block> {
    InsertedBetween(list[..Place(list, b.addr)], list[Place(list, b.addr)..], b)
  }

  lemma Increasing(tape: seq<Cell>, i: nat, j: nat)
    requires Contiguous(tape) && i < j < |tape|
    ensures End(tape[i]) <= tape[j].addr
    decreases j - i
  {
    assert tape[j].addr == End(tape[j - 1]);
    if i < j - 1 {
      Increasing(tape, i, j - 1);
    }
  }

  /** The entries of a stretch lie within it. */
  lemma {:induction false} EntriesWithin(tape: seq<Cell>, low: nat, high: nat)
    requires Contiguous(tape) && (tape != [] ==> low <= tape[0].addr && End(tape[|tape| - 1]) <= high)
    ensures forall k :: 0 <= k < |Listing(tape)| ==>
                low <= Listing(tape)[k].addr && Listing(tape)[k].addr + Listing(tape)[k].size <= high
    ensures forall k :: 0 <= k < |Listing(tape)| ==> Listing(tape)[k].addr < high
    decreases |tape|
  {
    if tape != [] {
      var rest := tape[1..];
      if rest == [] {
        EntriesWithin(rest, low, high);
      } else {
        assert tape[1].addr == End(tape[0]);
        Increasing(tape, 0, |tape| - 1);
        EntriesWithin(rest, low, high);
      }
    }
  }

  lemma ContiguousParts(tape: seq<Cell>, i: nat, j: nat)
    requires Contiguous(tape) && i <= j <= |tape|
    ensures Contiguous(tape[i..j])
  {
    forall m | 0 < m < j - i ensures tape[i..j][m].addr == End(tape[i..j][m - 1]) {
      assert tape[i + m].addr == End(tape[i + m - 1]);
    }
  }

  lemma ListingOfUnlinked(rest: seq<Cell>)
    requires Closed(rest)
    ensures rest[0].kind.Wall? && |rest| > 1 && rest[0].kind.linked ==>
              |Listing(rest)| > 1 && Listing(rest)[0] == Block(rest[0].addr, 0) &&
                  Listing(Unlinked(rest)) == Listing(rest)[1..]
    ensures !(rest[0].kind.Wall? && |rest| > 1 && rest[0].kind.linked) ==> Listing(Unlinked(rest)) == Listing(rest)
    ensures FreeBytes(Unlinked(rest)) == FreeBytes(rest)
  {
    if |rest| > 1 {
      EndIsListed(rest[1..]);
    }
  }

  lemma EndIsListed(rest: seq<Cell>)
    requires Closed(rest)
    ensures |Listing(rest)| > 0 && Listing(rest)[|Listing(rest)| - 1] == Block(rest[|rest| - 1].addr, 0)
  {
    var n := |rest| - 1;
    ListingOfParts(rest[..n], rest[n], []);
    assert rest[..n] + [rest[n]] + [] == rest;
  }

  /** Where the freed block goes, and what it finds on its left. */
  lemma LeftOf(tape: seq<Cell>, i: nat)
    requires Contiguous(tape) && i < |tape|
    ensures var left, k := Listing(tape[..i]), |Listing(tape[..i])|;
            && (forall j :: 0 <= j < k ==> left[j].addr < tape[i].addr)
            && (i > 0 && tape[i - 1].kind.Free? ==>
                  k > 0 && left[k - 1] == Block(tape[i - 1].addr, tape[i - 1].size) &&
                      left[..k - 1] == Listing(tape[..i - 1]))
            && (i > 0 && !tape[i - 1].kind.Free? ==> forall j :: 0 <= j < k ==> !Touches(left[j], tape[i].addr))
            && (i == 0 ==> k == 0)
  {
    ContiguousParts(tape, 0, i);
    if i > 0 {
      assert tape[i].addr == End(tape[i - 1]);
      EntriesWithin(tape[..i], tape[0].addr, tape[i].addr);
      assert tape[..i] == tape[..i - 1] + [tape[i - 1]] + [];
      ListingOfParts(tape[..i - 1], tape[i - 1], []);
      if !tape[i - 1].kind.Free? {
        LeftApart(tape, i);
      }
    }
  }

  lemma LeftApart(tape: seq<Cell>, i: nat)
    requires Contiguous(tape) && 0 < i < |tape| && !tape[i - 1].kind.Free?
    ensures forall j :: 0 <= j < |Listing(tape[..i])| ==> !Touches(Listing(tape[..i])[j], tape[i].addr)
  {
    assert tape[i].addr == End(tape[i - 1]);
    ContiguousParts(tape, 0, i - 1);
    if i > 1 {
      assert tape[i - 1].addr == End(tape[i - 2]);
      EntriesWithin(tape[..i - 1], tape[0].addr, tape[i - 1].addr);
    }
    assert tape[..i] == tape[..i - 1] + [tape[i - 1]] + [];
    ListingOfParts(tape[..i - 1], tape[i - 1], []);
  }

  /** And on its right. */
  lemma RightOf(tape: seq<Cell>, i: nat)
    requires Contiguous(tape) && Closed(tape) && i + 1 < |tape|
    ensures var right, rest := Listing(tape[i + 1..]), tape[i + 1..];
            && |right| > 0 && Closed(rest)
            && (forall j :: 0 <= j < |right| ==> End(tape[i]) <= right[j].addr)
            && (rest[0].kind.Free? ==>
                  |right| > 1 && right[0] == Block(rest[0].addr, rest[0].size) &&
                      right[1..] == Listing(tape[i + 2..]) && rest[0].addr == End(tape[i]))
            && (!rest[0].kind.Free? && |right| > 1 && right[0].addr == End(tape[i]) ==>
               rest[0].kind == Wall(true) && |rest| > 1)
            && (rest[0].kind == Wall(true) ==> right[0] == Block(End(tape[i]), 0))
  {
    var rest := tape[i + 1..];
    RightEntries(tape, i);
    assert tape[i + 1].addr == End(tape[i]);
    hide Contiguous, Listing;
    EndIsListed(rest);
    assert rest[1..] == tape[i + 2..];
    if |rest| > 1 {
      EndIsListed(rest[1..]);
      RightEntries(tape, i + 1);
    }
  }

  lemma RightEntries(tape: seq<Cell>, i: nat)
    requires Contiguous(tape) && Closed(tape) && i + 1 < |tape|
    ensures forall e :: e in Listing(tape[i + 1..]) ==> End(tape[i]) <= e.addr
  {
    assert tape[i + 1].addr == End(tape[i]);
    ContiguousParts(tape, i + 1, |tape|);
    assert tape[i + 1..|tape|] == tape[i + 1..];
    EntriesWithin(tape[i + 1..], End(tape[i]), End(tape[|tape| - 1]));
  }

  lemma {:induction false} PlacedBetween(left: seq<Block>, right: seq<Block>, addr: nat)
    requires forall j :: 0 <= j < |left| ==> left[j].addr < addr
    requires forall j :: 0 <= j < |right| ==> addr < right[j].addr
    ensures Place(left + right, addr) == |left|
    decreases |left|
  {
    if left == [] {
      assert left + right == right;
    } else {
      assert (left + right)[1..] == left[1..] + right;
      PlacedBetween(left[1..], right, addr);
    }
  }

  lemma InsertsBetween(left: seq<Block>, right: seq<Block>, b: Block)
    requires forall j :: 0 <= j < |left| ==> left[j].addr < b.addr
    requires forall j :: 0 <= j < |right| ==> b.addr < right[j].addr
    ensures Place(left + right, b.addr) == |left|
    ensures Inserted(left + right, b) == InsertedBetween(left, right, b)
  {
    PlacedBetween(left, right, b.addr);
    assert (left + right)[..|left|] == left && (left + right)[|left|..] == right;
  }

  /** The free list after a free is the list with the block inserted as the source does it, and the free
      bytes have grown by the block. */
  lemma FreedListing(tape: seq<Cell>, i: nat)
    requires Valid(tape) && i < |tape| && tape[i].kind.Used?
    ensures Listing(Freed(tape, i)) == Inserted(Listing(tape), Block(tape[i].addr, tape[i].size))
    ensures Place(Listing(tape), tape[i].addr) == |Listing(tape[..i])|
  {
    var left, right, b := Listing(tape[..i]), Listing(tape[i + 1..]), Block(tape[i].addr, tape[i].size);
    ListingAround(tape, i);
    assert Listing(tape) == left + right;
    LeftOf(tape, i);
    RightOf(tape, i);
    InsertsBetween(left, right, b);
    FreedParts(tape, i);
    FreedBetween(tape, i, left, right, b);
  }

  lemma FreedParts(tape: seq<Cell>, i: nat)
    requires Valid(tape) && i + 1 < |tape| && tape[i].kind.Used?
    ensures var rest := if High(tape, i) == i + 1 then Unlinked(tape[i + 1..]) else tape[i + 2..];
            Listing(Freed(tape, i)) == Listing(tape[..Low(tape, i)]) +
                [Block(Joined(tape, i).addr, Joined(tape, i).size)] + Listing(rest)
  {
    var rest := if High(tape, i) == i + 1 then Unlinked(tape[i + 1..]) else tape[i + 2..];
    ListingOfParts(tape[..Low(tape, i)], Joined(tape, i), rest);
  }

  lemma FreedBetween(tape: seq<Cell>, i: nat, left: seq<Block>, right: seq<Block>, b: Block)
    requires Valid(tape) && i + 1 < |tape| && tape[i].kind.Used?
    requires left == Listing(tape[..i]) && right == Listing(tape[i + 1..]) && b == Block(tape[i].addr, tape[i].size)
    requires Listing(Freed(tape, i))
             == Listing(tape[..Low(tape, i)]) + [Block(Joined(tape, i).addr, Joined(tape, i).size)]
                + Listing(if High(tape, i) == i + 1 then Unlinked(tape[i + 1..]) else tape[i + 2..])
    ensures Listing(Freed(tape, i)) == InsertedBetween(left, right, b)
  {
    MergesLeft(tape, i, left, b);
    var back := left != [] && Touches(left[|left| - 1], b.addr);
    var m := if back then Block(left[|left| - 1].addr, left[|left| - 1].size + b.size) else b;
    MergesRight(tape, i, right, m);
    Assembles(left, right, b, Listing(tape[..Low(tape, i)]), Block(Joined(tape, i).addr, Joined(tape, i).size),
              Listing(if High(tape, i) == i + 1 then Unlinked(tape[i + 1..]) else tape[i + 2..]),
              if High(tape, i) > i + 1 then tape[i + 1].size else 0);
  }

  lemma Assembles(left: seq<Block>, right: seq<Block>, b: Block, pre: seq<Block>, joined: Block, post: seq<Block>,
      extra: nat)
    requires var back := left != [] && Touches(left[|left| - 1], b.addr);
             var m := if back then Block(left[|left| - 1].addr, left[|left| - 1].size + b.size) else b;
             var front := |right| > 1 && Touches(m, right[0].addr);
             && pre == (if back then left[..|left| - 1] else left)
             && joined == Block(m.addr, m.size + extra)
             && post == (if front then right[1..] else right)
             && extra == (if front then right[0].size else 0)
    ensures pre + [joined] + post == InsertedBetween(left, right, b)
  {
  }

  lemma MergesLeft(tape: seq<Cell>, i: nat, left: seq<Block>, b: Block)
    requires Contiguous(tape) && i < |tape| && left == Listing(tape[..i]) && b == Block(tape[i].addr, tape[i].size)
    ensures var back := left != [] && Touches(left[|left| - 1], b.addr);
            && (back <==> Low(tape, i) < i)
            && Listing(tape[..Low(tape, i)]) == (if back then left[..|left| - 1] else left)
            && Joined(tape, i).addr == (if back then left[|left| - 1].addr else b.addr)
            && Joined(tape, i).size == (if back then left[|left| - 1].size else 0) + b.size
                                       + (if High(tape, i) > i + 1 then tape[i + 1].size else 0)
  {
    LeftOf(tape, i);
    assert i > 0 ==> tape[i].addr == End(tape[i - 1]);
  }

  /** m ends where the freed cell ends. */
  lemma MergesRight(tape: seq<Cell>, i: nat, right: seq<Block>, m: Block)
    requires Contiguous(tape) && Closed(tape) && i + 1 < |tape| && right == Listing(tape[i + 1..]) &&
             m.addr + m.size == End(tape[i])
    ensures var front := |right| > 1 && Touches(m, right[0].addr);
            Listing(if High(tape, i) == i + 1 then Unlinked(tape[i + 1..]) else tape[i + 2..])
            == (if front then right[1..] else right)
            && (front ==> right[0].size == if High(tape, i) > i + 1 then tape[i + 1].size else 0)
            && (!front ==> High(tape, i) == i + 1)
  {
    RightOf(tape, i);
    ListingOfUnlinked(tape[i + 1..]);
  }
}
