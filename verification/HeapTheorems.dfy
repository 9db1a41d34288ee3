/** What every run of allocations and frees keeps, and what the free list depends on. */
module HeapTheorems {
  import opened HeapTape

  // ----- conservation

  /** What follows the joined cell after a free. */
  function Rest(tape: seq<Cell>, i: nat): seq<Cell>
    requires i < |tape|
  {
    if High(tape, i) == i + 1 then Unlinked(tape[i + 1..]) else tape[i + 2..]
  }

  lemma LeftBytes(tape: seq<Cell>, i: nat)
    requires i < |tape|
    ensures FreeBytes(tape[..i]) == FreeBytes(tape[..Low(tape, i)]) + (if Low(tape, i) < i then tape[i - 1].size else 0)
  {
    if Low(tape, i) < i {
      ListingOfParts(tape[..i - 1], tape[i - 1], []);
      assert tape[..i] == tape[..i - 1] + [tape[i - 1]] + [];
    }
  }

  lemma RightBytes(tape: seq<Cell>, i: nat)
    requires Closed(tape) && i + 1 < |tape|
    ensures FreeBytes(tape[i + 1..]) == (if High(tape, i) > i + 1 then tape[i + 1].size else 0) +
            FreeBytes(Rest(tape, i))
  {
    if High(tape, i) > i + 1 {
      assert tape[i + 1..][1..] == tape[i + 2..];
    } else {
      ListingOfUnlinked(tape[i + 1..]);
    }
  }

  /** A free returns exactly the bytes of the block. */
  lemma FreedBytes(tape: seq<Cell>, i: nat)
    requires Valid(tape) && i + 1 < |tape| && tape[i].kind.Used?
    ensures FreeBytes(Freed(tape, i)) == FreeBytes(tape) + tape[i].size
  {
    ListingAround(tape, i);
    ListingOfParts(tape[..Low(tape, i)], Joined(tape, i), Rest(tape, i));
    LeftBytes(tape, i);
    RightBytes(tape, i);
  }

  // ----- what is not free

  /** The cells that are not free, markers taken as linked. */
  function Kept(c: Cell): seq<Cell> {
    match c.kind
    case Free => []
    case Used => [c]
    case Wall(_) => [c.(kind := Wall(true))]
  }

  function Strip(tape: seq<Cell>): seq<Cell> {
    if tape == [] then [] else Kept(tape[0]) + Strip(tape[1..])
  }

  function Normal(tape: seq<Cell>): (n: seq<Cell>)
    ensures |n| == |tape|
  {
    seq(|tape|, i requires 0 <= i < |tape| => if tape[i].kind.Wall? then tape[i].(kind := Wall(true)) else tape[i])
  }

  lemma {:induction false} StripSum(a: seq<Cell>, b: seq<Cell>)
    ensures Strip(a + b) == Strip(a) + Strip(b)
  {
    if a == [] {
      assert a + b == b;
    } else {
      assert (a + b)[1..] == a[1..] + b;
      StripSum(a[1..], b);
    }
  }

  lemma StripParts(a: seq<Cell>, b: seq<Cell>, c: seq<Cell>)
    ensures Strip(a + b + c) == Strip(a) + Strip(b) + Strip(c)
  {
    StripSum(a, b);
    StripSum(a + b, c);
  }

  lemma StripOne(c: Cell)
    ensures Strip([c]) == Kept(c)
  {
    assert Strip([c]) == Kept(c) + [];
  }

  lemma StripAround(tape: seq<Cell>, i: nat)
    requires i < |tape|
    ensures Strip(tape) == Strip(tape[..i]) + Kept(tape[i]) + Strip(tape[i + 1..])
  {
    StripParts(tape[..i], [tape[i]], tape[i + 1..]);
    StripOne(tape[i]);
    Rejoined(tape, i);
  }

  lemma CarveStrip(c: Cell, want: nat, minimum: nat)
    requires want <= c.size
    ensures Strip(Carve(c, want, minimum)) == [Carve(c, want, minimum)[0]]
  {
    if c.size - want > minimum {
      StripOne(Cell(c.addr, want, Used));
      StripOne(Cell(c.addr + want, c.size - want, Free));
      StripSum([Cell(c.addr, want, Used)], [Cell(c.addr + want, c.size - want, Free)]);
      assert Carve(c, want, minimum) == [Cell(c.addr, want, Used)] + [Cell(c.addr + want, c.size - want, Free)];
    } else {
      StripOne(c.(kind := Used));
    }
  }

  lemma StripOfFree(tape: seq<Cell>, i: nat)
    requires i < |tape| && tape[i].kind.Free?
    ensures Strip(tape) == Strip(tape[..i]) + Strip(tape[i + 1..])
  {
    StripAround(tape, i);
  }

  lemma AllocatedStrip(tape: seq<Cell>, i: nat, want: nat, minimum: nat)
    requires i < |tape| && Fits(tape[i], want)
    ensures Strip(Allocated(tape, i, want, minimum)) == Strip(tape[..i]) + [Carve(tape[i], want, minimum)[0]] +
            Strip(tape[i + 1..])
  {
    CarveStrip(tape[i], want, minimum);
    StripParts(tape[..i], Carve(tape[i], want, minimum), tape[i + 1..]);
  }

  lemma UnlinkedStrip(rest: seq<Cell>)
    ensures Strip(Unlinked(rest)) == Strip(rest)
  {
  }

  lemma LeftStrip(tape: seq<Cell>, i: nat)
    requires i < |tape|
    ensures Strip(tape[..i]) == Strip(tape[..Low(tape, i)])
  {
    if Low(tape, i) < i {
      StripParts(tape[..i - 1], [tape[i - 1]], []);
      StripOne(tape[i - 1]);
      assert tape[..i] == tape[..i - 1] + [tape[i - 1]] + [];
    }
  }

  lemma RightStrip(tape: seq<Cell>, i: nat)
    requires i + 1 < |tape|
    ensures Strip(tape[i + 1..]) == Strip(Rest(tape, i))
  {
    if High(tape, i) > i + 1 {
      assert tape[i + 1..][1..] == tape[i + 2..];
    } else {
      UnlinkedStrip(tape[i + 1..]);
    }
  }

  lemma StripOfUsed(tape: seq<Cell>, i: nat)
    requires i < |tape| && tape[i].kind.Used?
    ensures Strip(tape) == Strip(tape[..i]) + [tape[i]] + Strip(tape[i + 1..])
  {
    StripAround(tape, i);
  }

  lemma FreedStrip(tape: seq<Cell>, i: nat)
    requires i + 1 < |tape| && tape[i].kind.Used?
    ensures Strip(Freed(tape, i)) == Strip(tape[..i]) + Strip(tape[i + 1..])
  {
    FreedStripParts(tape, i);
    LeftStrip(tape, i);
    RightStrip(tape, i);
  }

  lemma FreedStripParts(tape: seq<Cell>, i: nat)
    requires i < |tape|
    ensures Strip(Freed(tape, i)) == Strip(tape[..Low(tape, i)]) + Strip(Rest(tape, i))
  {
    StripParts(tape[..Low(tape, i)], [Joined(tape, i)], Rest(tape, i));
    StripOne(Joined(tape, i));
  }

  // ----- the free blocks are determined by the rest

  lemma ValidTail(tape: seq<Cell>)
    requires Valid(tape) && |tape| > 1
    ensures Valid(tape[1..]) && tape[1..][0].addr == End(tape[0])
  {
    assert tape[1].addr == End(tape[0]);
    forall i | 0 < i < |tape[1..]| ensures !(tape[1..][i - 1].kind.Free? && tape[1..][i].kind.Free?) {
      assert !(tape[i].kind.Free? && tape[i + 1].kind.Free?);
    }
  }

  lemma StripHead(tape: seq<Cell>)
    requires Valid(tape)
    ensures Strip(tape) != []
    ensures tape[0].kind.Free? ==> |tape| > 1 && !tape[1].kind.Free? && Strip(tape)[0].addr == End(tape[0]) &&
                                   Strip(tape) == Strip(tape[1..])
    ensures !tape[0].kind.Free? ==> [Strip(tape)[0]] == Kept(tape[0]) && Strip(tape)[1..] == Strip(tape[1..])
    ensures !tape[0].kind.Free? ==> (|Strip(tape)| == 1 <==> |tape| == 1)
  {
    if |tape| > 1 {
      ValidTail(tape);
      assert !(tape[0].kind.Free? && tape[1].kind.Free?);
      StripHasEnd(tape[1..]);
    }
  }

  lemma StripHasEnd(tape: seq<Cell>)
    requires Closed(tape)
    ensures Strip(tape) != []
  {
    var n := |tape| - 1;
    StripParts(tape[..n], [tape[n]], []);
    StripOne(tape[n]);
    assert tape[..n] + [tape[n]] + [] == tape;
  }

  /** Two tapes that begin at the same address and have the same cells that are not free have the same
      free cells too. */
  lemma {:induction false} StripDetermines(a: seq<Cell>, b: seq<Cell>)
    requires Valid(a) && Valid(b) && a[0].addr == b[0].addr && Strip(a) == Strip(b)
    ensures Normal(a) == Normal(b)
    decreases |a|
  {
    hide Strip;
    StripHead(a);
    StripHead(b);
    if |a| > 1 && |b| > 1 {
      ValidTail(a);
      ValidTail(b);
      assert End(a[0]) == End(b[0]);
      StripDetermines(a[1..], b[1..]);
      assert Normal(a) == [Normal(a)[0]] + Normal(a[1..]);
      assert Normal(b) == [Normal(b)[0]] + Normal(b[1..]);
    }
  }

  // ----- malloc and its free

  lemma FirstAddr(tape: seq<Cell>, i: nat, want: nat, minimum: nat)
    requires i < |tape|
    ensures want <= tape[i].size ==> Allocated(tape, i, want, minimum) != [] &&
                                     Allocated(tape, i, want, minimum)[0].addr == tape[0].addr
    ensures Freed(tape, i) != [] && Freed(tape, i)[0].addr == tape[0].addr
  {
  }

  /** A successful malloc followed at once by its free leaves the blocks as they were; only a region marker
      may have dropped off the list. */
  lemma FreeUndoesMalloc(tape: seq<Cell>, i: nat, want: nat, minimum: nat)
    requires Valid(tape) && i < |tape| && 0 < want && Fits(tape[i], want)
    ensures Allocated(tape, i, want, minimum)[i].kind.Used?
    ensures var back := Freed(Allocated(tape, i, want, minimum), i);
            Valid(back) && Normal(back) == Normal(tape)
  {
    var mid := Allocated(tape, i, want, minimum);
    AllocatedValid(tape, i, want, minimum);
    AllocatedStrip(tape, i, want, minimum);
    StripOfFree(tape, i);
    FreedValid(mid, i);
    FreedStrip(mid, i);
    SplitAt(tape, i, want, minimum);
    FirstAddr(tape, i, want, minimum);
    FirstAddr(mid, i, want, minimum);
    StripDetermines(Freed(mid, i), tape);
  }

  /** It restores the tape exactly, markers included, unless the block takes up all there is below an
      intermediate marker that is on the list: then the free takes the marker off. */
  lemma FreeUndoesMallocIff(tape: seq<Cell>, i: nat, want: nat, minimum: nat)
    requires Valid(tape) && i < |tape| && 0 < want && Fits(tape[i], want)
    ensures Allocated(tape, i, want, minimum)[i].kind.Used?
    ensures Freed(Allocated(tape, i, want, minimum), i) == tape <==>
            !(tape[i].size - want <= minimum && i + 2 < |tape| && tape[i + 1].kind == Wall(true))
  {
    var mid, rest := Allocated(tape, i, want, minimum), tape[i + 1..];
    assert i > 0 ==> !tape[i - 1].kind.Free?;
    assert !tape[i + 1].kind.Free?;
    assert mid[..i] == tape[..i] && Low(mid, i) == i;
    if tape[i].size - want > minimum {
      assert mid[i + 2..] == rest && High(mid, i) == i + 2;
      assert tape == tape[..i] + [tape[i]] + rest;
    } else {
      assert mid[i + 1..] == rest && High(mid, i) == i + 1;
      BackIff(tape, i, rest);
    }
  }

  lemma BackIff(tape: seq<Cell>, i: nat, rest: seq<Cell>)
    requires i + 1 < |tape| && rest == tape[i + 1..]
    ensures tape[..i] + [tape[i]] + Unlinked(rest) == tape <==> !(|rest| > 1 && rest[0].kind == Wall(true))
  {
    var changed := Unlinked(rest);
    assert changed == rest <==> !(|rest| > 1 && rest[0].kind == Wall(true)) by {
      assert changed == rest || changed[0].kind == Wall(false);
    }
    hide Unlinked;
    assert tape == tape[..i] + [tape[i]] + rest;
    if tape[..i] + [tape[i]] + changed == tape {
      assert (tape[..i] + [tape[i]] + changed)[i + 1..] == changed;
    }
  }

  /** Two regions of 64 bytes: allocating all of the first one and freeing it leaves the marker between
      them off the list. */
  lemma MarkerIsLost() returns (tape: seq<Cell>, back: seq<Cell>)
    ensures Valid(tape) && Fresh(tape) && |tape| == 4 && tape[1].kind == Wall(true)
    ensures back == Freed(Allocated(tape, 0, tape[0].size, 32), 0) && back == tape[1 := tape[1].(kind := Wall(false))]
  {
    var a, b := Cell(64, 48, Free), Cell(128, 48, Free);
    tape := [a, Cell(112, 16, Wall(true)), b, Cell(176, 16, Wall(true))];
    back := Freed(Allocated(tape, 0, 48, 32), 0);
    assert Allocated(tape, 0, 48, 32) == [a.(kind := Used)] + tape[1..];
  }

  lemma SplitAt(tape: seq<Cell>, i: nat, want: nat, minimum: nat)
    requires i < |tape| && Fits(tape[i], want) && i + 1 < |tape|
    ensures var mid := Allocated(tape, i, want, minimum);
            && i + 1 < |mid| && mid[i] == Carve(tape[i], want, minimum)[0] && mid[..i] == tape[..i]
            && Strip(mid[i + 1..]) == Strip(tape[i + 1..])
  {
    var mid := Allocated(tape, i, want, minimum);
    if tape[i].size - want > minimum {
      assert mid[i + 1..] == [Cell(tape[i].addr + want, tape[i].size - want, Free)] + tape[i + 1..];
      StripSum([Cell(tape[i].addr + want, tape[i].size - want, Free)], tape[i + 1..]);
      StripOne(Cell(tape[i].addr + want, tape[i].size - want, Free));
    } else {
      assert mid[i + 1..] == tape[i + 1..];
    }
  }

  // ----- runs

  datatype Op = Malloc(want: nat) | Release(addr: nat)

  /** The allocated cell at an address, if there is one. */
  function UsedAt(tape: seq<Cell>, addr: nat): (i: nat)
    ensures i <= |tape|
    ensures i < |tape| ==> tape[i].kind.Used? && tape[i].addr == addr
    ensures i == |tape| ==> forall j :: 0 <= j < |tape| ==> !(tape[j].kind.Used? && tape[j].addr == addr)
  {
    if tape == [] || (tape[0].kind.Used? && tape[0].addr == addr) then 0 else 1 + UsedAt(tape[1..], addr)
  }

  /** The size of an allocation is that of the block to be carved out. */
  function Exec(tape: seq<Cell>, op: Op, minimum: nat): seq<Cell> {
    match op
    case Malloc(want) =>
      var i := FirstFit(tape, want);
      if 0 < want && i < |tape| then Allocated(tape, i, want, minimum) else tape
    case Release(addr) =>
      var i := UsedAt(tape, addr);
      if i < |tape| then Freed(tape, i) else tape
  }

  function Run(tape: seq<Cell>, ops: seq<Op>, minimum: nat): seq<Cell>
    decreases |ops|
  {
    if ops == [] then tape else Run(Exec(tape, ops[0], minimum), ops[1..], minimum)
  }

  ghost predicate SameWalls(a: seq<Cell>, b: seq<Cell>) {
    forall c: Cell :: c.kind.Wall? ==> (c in Strip(a) <==> c in Strip(b))
  }

  lemma ExecInv(tape: seq<Cell>, op: Op, minimum: nat)
    requires Valid(tape)
    ensures Valid(Exec(tape, op, minimum)) && Exec(tape, op, minimum)[0].addr == tape[0].addr
    ensures SameWalls(tape, Exec(tape, op, minimum))
  {
    hide Valid;
    match op
    case Malloc(want) =>
      var i := FirstFit(tape, want);
      if 0 < want && i < |tape| {
        AllocatedInv(tape, i, want, minimum);
      }
    case Release(addr) =>
      var i := UsedAt(tape, addr);
      if i < |tape| {
        FreedInv(tape, i);
      }
  }

  lemma AllocatedInv(tape: seq<Cell>, i: nat, want: nat, minimum: nat)
    requires Valid(tape) && 0 < want && i < |tape| && tape[i].kind.Free? && want <= tape[i].size
    ensures var tape' := Allocated(tape, i, want, minimum);
            Valid(tape') && tape'[0].addr == tape[0].addr && SameWalls(tape, tape')
  {
    hide Contiguous, Coalesced;
    AllocatedValid(tape, i, want, minimum);
    AllocatedStrip(tape, i, want, minimum);
    StripOfFree(tape, i);
    FirstAddr(tape, i, want, minimum);
  }

  lemma FreedInv(tape: seq<Cell>, i: nat)
    requires Valid(tape) && i < |tape| && tape[i].kind.Used?
    ensures Valid(Freed(tape, i)) && Freed(tape, i)[0].addr == tape[0].addr && SameWalls(tape, Freed(tape, i))
  {
    hide Contiguous, Coalesced;
    FreedValid(tape, i);
    FreedStrip(tape, i);
    StripOfUsed(tape, i);
    FirstAddr(tape, i, 0, 0);
  }

  lemma {:induction false} RunInv(tape: seq<Cell>, ops: seq<Op>, minimum: nat)
    requires Valid(tape)
    ensures Valid(Run(tape, ops, minimum)) && Run(tape, ops, minimum)[0].addr == tape[0].addr
    ensures SameWalls(tape, Run(tape, ops, minimum))
    decreases |ops|
  {
    if ops != [] {
      ExecInv(tape, ops[0], minimum);
      RunInv(Exec(tape, ops[0], minimum), ops[1..], minimum);
    }
  }

  // ----- room for a header in every cell

  lemma AllocatedRoomy(tape: seq<Cell>, i: nat, want: nat, minimum: nat, least: nat)
    requires Roomy(tape, least) && i < |tape| && least <= want <= tape[i].size && least <= minimum
    ensures Roomy(Allocated(tape, i, want, minimum), least)
  {
    var now, mid := Allocated(tape, i, want, minimum), Carve(tape[i], want, minimum);
    forall j | 0 <= j < |now| ensures least <= now[j].size {
      if j < i || j >= i + |mid| {
        assert now[j] == tape[if j < i then j else j - |mid| + 1];
      } else {
        assert now[j] == mid[j - i];
      }
    }
  }

  lemma FreedRoomy(tape: seq<Cell>, i: nat, least: nat)
    requires Roomy(tape, least) && i < |tape|
    ensures Roomy(Freed(tape, i), least)
  {
    var lo, hi, now := Low(tape, i), High(tape, i), Freed(tape, i);
    forall j | 0 <= j < |now| ensures least <= now[j].size {
      if j < lo {
        assert now[j] == tape[j];
      } else if j > lo {
        assert now[j].size == tape[j - lo - 1 + hi].size;
      }
    }
  }

  /** In every run in which blocks are asked for that hold a header, every cell holds one. */
  lemma {:induction false} RunRoomy(tape: seq<Cell>, ops: seq<Op>, minimum: nat, least: nat)
    requires Roomy(tape, least) && least <= minimum
    requires forall k :: 0 <= k < |ops| && ops[k].Malloc? && ops[k].want > 0 ==> least <= ops[k].want
    ensures Roomy(Run(tape, ops, minimum), least)
    decreases |ops|
  {
    if ops != [] {
      match ops[0] {
        case Malloc(want) =>
          var i := FirstFit(tape, want);
          if 0 < want && i < |tape| {
            AllocatedRoomy(tape, i, want, minimum, least);
          }
        case Release(addr) =>
          var i := UsedAt(tape, addr);
          if i < |tape| {
            FreedRoomy(tape, i, least);
          }
      }
      assert forall k :: 0 <= k < |ops[1..]| ==> ops[1..][k] == ops[k + 1];
      RunRoomy(Exec(tape, ops[0], minimum), ops[1..], minimum, least);
    }
  }

  // ----- history independence

  ghost predicate Sorted(s: seq<Cell>) {
    forall i, j :: 0 <= i < j < |s| ==> s[i].addr < s[j].addr
  }

  lemma {:induction false} SortedSame(a: seq<Cell>, b: seq<Cell>)
    requires Sorted(a) && Sorted(b) && forall c :: c in a <==> c in b
    ensures a == b
    decreases |a|
  {
    assert |b| > 0 ==> b[0] in b;
    if a != [] {
      assert a[0] in a && a[0] in b;
      assert b[0] in b && b[0] in a;
      assert a[0] == b[0];
      TailMembers(a);
      TailMembers(b);
      SortedSame(a[1..], b[1..]);
    }
  }

  lemma TailMembers(a: seq<Cell>)
    requires Sorted(a) && a != []
    ensures forall c :: c in a[1..] <==> c in a && c != a[0]
  {
  }

  lemma {:induction false} StripSorted(tape: seq<Cell>)
    requires Contiguous(tape)
    ensures Sorted(Strip(tape))
    ensures forall c :: c in Strip(tape) ==> tape[0].addr <= c.addr
    decreases |tape|
  {
    if tape != [] {
      var rest := tape[1..];
      if rest != [] {
        assert tape[1].addr == End(tape[0]);
      }
      StripSorted(rest);
      StripIsSorted(tape[0], Strip(rest));
    }
  }

  lemma StripIsSorted(c: Cell, rest: seq<Cell>)
    requires Sorted(rest) && forall d :: d in rest ==> c.addr < d.addr
    ensures Sorted(Kept(c) + rest) && forall d :: d in Kept(c) + rest ==> c.addr <= d.addr
  {
    assert forall i :: 0 <= i < |rest| ==> rest[i] in rest;
  }

  lemma {:induction false} UsedInStrip(tape: seq<Cell>, c: Cell)
    requires c.kind.Used?
    ensures c in Strip(tape) <==> c in tape
    decreases |tape|
  {
    if tape != [] {
      UsedInStrip(tape[1..], c);
      assert tape == [tape[0]] + tape[1..];
    }
  }

  lemma {:induction false} StripKinds(tape: seq<Cell>)
    ensures forall c :: c in Strip(tape) ==> !c.kind.Free?
  {
    if tape != [] {
      StripKinds(tape[1..]);
    }
  }

  /** The same blocks are allocated. */
  ghost predicate SameLive(a: seq<Cell>, b: seq<Cell>) {
    forall c: Cell :: c.kind.Used? ==> (c in a <==> c in b)
  }

  /** The free blocks are a function of the live ones: two runs that end with the same blocks allocated
      end with the same free blocks, whatever happened in between. */
  lemma HistoryDoesNotMatter(tape: seq<Cell>, ops: seq<Op>, ops': seq<Op>, minimum: nat)
    requires Valid(tape) && SameLive(Run(tape, ops, minimum), Run(tape, ops', minimum))
    ensures Normal(Run(tape, ops, minimum)) == Normal(Run(tape, ops', minimum))
  {
    var a, b := Run(tape, ops, minimum), Run(tape, ops', minimum);
    RunInv(tape, ops, minimum);
    RunInv(tape, ops', minimum);
    SameStrip(a, b);
    StripDetermines(a, b);
  }

  lemma SameStrip(a: seq<Cell>, b: seq<Cell>)
    requires Valid(a) && Valid(b) && SameWalls(a, b) && SameLive(a, b)
    ensures Strip(a) == Strip(b)
  {
    StripSorted(a);
    StripSorted(b);
    StripKinds(a);
    StripKinds(b);
    forall c ensures c in Strip(a) <==> c in Strip(b) {
      if c.kind.Used? {
        UsedInStrip(a, c);
        UsedInStrip(b, c);
      }
    }
    SortedSame(Strip(a), Strip(b));
  }

  /** With a single region there is no marker but the end, and `Normal` says nothing. */
  ghost predicate OneRegion(tape: seq<Cell>) {
    forall i :: 0 <= i < |tape| - 1 ==> !tape[i].kind.Wall?
  }

  lemma OneRegionIsNormal(a: seq<Cell>, b: seq<Cell>)
    requires Valid(a) && Valid(b) && OneRegion(a) && Normal(a) == Normal(b)
    ensures a == b
  {
    forall i | 0 <= i < |a| ensures a[i] == b[i] {
      assert Normal(a)[i] == Normal(b)[i];
    }
  }

  lemma OneRegionStays(a: seq<Cell>, b: seq<Cell>)
    requires Valid(a) && Valid(b) && OneRegion(a) && SameWalls(a, b)
    ensures OneRegion(b)
  {
    WallInStrip(b, |b| - 1);
    var last := WallOfStrip(a, b[|b| - 1].(kind := Wall(true)));
    forall i | 0 <= i < |b| - 1 ensures !b[i].kind.Wall? {
      if b[i].kind.Wall? {
        WallInStrip(b, i);
        var j := WallOfStrip(a, b[i].(kind := Wall(true)));
        Increasing(b, i, |b| - 1);
      }
    }
  }

  /** With one region two runs that end with the same blocks allocated end with the same tape. */
  lemma HistoryExact(tape: seq<Cell>, ops: seq<Op>, ops': seq<Op>, minimum: nat)
    requires Valid(tape) && OneRegion(tape) && SameLive(Run(tape, ops, minimum), Run(tape, ops', minimum))
    ensures Run(tape, ops, minimum) == Run(tape, ops', minimum)
  {
    var a, b := Run(tape, ops, minimum), Run(tape, ops', minimum);
    RunInv(tape, ops, minimum);
    RunInv(tape, ops', minimum);
    OneRegionStays(tape, a);
    HistoryDoesNotMatter(tape, ops, ops', minimum);
    OneRegionIsNormal(a, b);
  }

  ghost predicate HistoryFree(tape: seq<Cell>, minimum: nat) {
    forall ops, ops' :: SameLive(Run(tape, ops, minimum), Run(tape, ops', minimum)) ==>
            Run(tape, ops, minimum) == Run(tape, ops', minimum)
  }

  /** That is so exactly if there is one region: with more, a heap that has lost a marker differs from one
      that has not. */
  lemma HistoryExactIff(tape: seq<Cell>, minimum: nat)
    requires Valid(tape) && Fresh(tape) && tape[0].kind.Free?
    ensures HistoryFree(tape, minimum) <==> OneRegion(tape)
  {
    if OneRegion(tape) {
      forall ops, ops' | SameLive(Run(tape, ops, minimum), Run(tape, ops', minimum))
        ensures Run(tape, ops, minimum) == Run(tape, ops', minimum)
      {
        HistoryExact(tape, ops, ops', minimum);
      }
    } else {
      var ops := LosesMarker(tape, minimum);
      assert Run(tape, [], minimum) == tape;
    }
  }

  /** Allocate the first region's block and free it. */
  lemma LosesMarker(tape: seq<Cell>, minimum: nat) returns (ops: seq<Op>)
    requires Valid(tape) && Fresh(tape) && tape[0].kind.Free? && !OneRegion(tape)
    ensures SameLive(Run(tape, ops, minimum), tape) && Run(tape, ops, minimum) != tape
  {
    var want := tape[0].size;
    assert FreshAt(tape, 0) && FirstFit(tape, want) == 0;
    var mid := Allocated(tape, 0, want, minimum);
    FreeUndoesMallocIff(tape, 0, want, minimum);
    FreeUndoesMalloc(tape, 0, want, minimum);
    assert UsedAt(mid, tape[0].addr) == 0;
    ops := [Malloc(want), Release(tape[0].addr)];
    TwoOps(tape, ops[0], ops[1], minimum);
    assert |tape| > 2;
    NormalLive(Freed(mid, 0), tape);
  }

  lemma TwoOps(tape: seq<Cell>, a: Op, b: Op, minimum: nat)
    ensures Run(tape, [a, b], minimum) == Exec(Exec(tape, a, minimum), b, minimum)
  {
    hide Exec;
    assert [a, b][1..] == [b] && [b][1..] == [];
    assert Run(Exec(tape, a, minimum), [b], minimum) == Run(Exec(Exec(tape, a, minimum), b, minimum), [], minimum);
  }

  lemma NormalLive(a: seq<Cell>, b: seq<Cell>)
    requires Normal(a) == Normal(b)
    ensures SameLive(a, b)
  {
    forall i | 0 <= i < |a| ensures |a| == |b| && (a[i].kind.Used? || b[i].kind.Used? ==> a[i] == b[i]) {
      assert |a| == |Normal(a)| && |b| == |Normal(b)|;
      assert Normal(a)[i] == Normal(b)[i];
    }
  }

  /** Freeing everything, in any order, restores the heap: with one region exactly, with several up to the
      markers. */
  lemma FreeingAllRestores(tape: seq<Cell>, ops: seq<Op>, minimum: nat)
    requires Valid(tape) && (forall c :: c in tape ==> !c.kind.Used?)
    requires forall c :: c in Run(tape, ops, minimum) ==> !c.kind.Used?
    ensures Normal(Run(tape, ops, minimum)) == Normal(tape)
    ensures OneRegion(tape) ==> Run(tape, ops, minimum) == tape
  {
    assert Run(tape, [], minimum) == tape;
    HistoryDoesNotMatter(tape, ops, [], minimum);
    RunInv(tape, ops, minimum);
    if OneRegion(tape) {
      OneRegionIsNormal(tape, Run(tape, ops, minimum));
    }
  }

  // ----- regions

  /** A heap as it is set up: free blocks, each closed by its region's marker. */
  ghost predicate Fresh(tape: seq<Cell>) {
    forall i :: 0 <= i < |tape| ==> FreshAt(tape, i)
  }

  predicate FreshAt(tape: seq<Cell>, i: nat)
    requires i < |tape|
  {
    if tape[i].kind.Free? then i + 1 < |tape| && tape[i + 1].kind == Wall(true) else tape[i].kind == Wall(true)
  }

  lemma {:induction false} WallInStrip(tape: seq<Cell>, i: nat)
    requires i < |tape| && tape[i].kind.Wall?
    ensures tape[i].(kind := Wall(true)) in Strip(tape)
  {
    StripAround(tape, i);
    assert Kept(tape[i])[0] in Kept(tape[i]);
  }

  lemma {:induction false} WallOfStrip(tape: seq<Cell>, c: Cell) returns (i: nat)
    requires c in Strip(tape) && c.kind.Wall?
    ensures i < |tape| && tape[i].kind.Wall? && tape[i].addr == c.addr && tape[i].size == c.size
    decreases |tape|
  {
    if c in Kept(tape[0]) {
      i := 0;
    } else {
      var j := WallOfStrip(tape[1..], c);
      i := j + 1;
    }
  }

  lemma {:induction false} CellAt(tape: seq<Cell>, x: nat) returns (i: nat)
    requires Contiguous(tape) && tape != [] && tape[0].addr <= x < End(tape[|tape| - 1])
    ensures i < |tape| && tape[i].addr <= x < End(tape[i])
    decreases |tape|
  {
    if x < End(tape[0]) {
      i := 0;
    } else {
      assert |tape| > 1 ==> tape[1].addr == End(tape[0]);
      var j := CellAt(tape[1..], x);
      i := j + 1;
    }
  }

  /** Cells do not overlap. */
  lemma Apart(tape: seq<Cell>, i: nat, j: nat)
    requires Contiguous(tape) && i < |tape| && j < |tape| && i != j
    ensures End(tape[i]) <= tape[j].addr || End(tape[j]) <= tape[i].addr
  {
    if i < j {
      Increasing(tape, i, j);
    } else {
      Increasing(tape, j, i);
    }
  }

  lemma ApartFromWalls(start: seq<Cell>, tape: seq<Cell>, i: nat, w: nat)
    requires Contiguous(tape) && SameWalls(start, tape)
    requires i < |tape| && !tape[i].kind.Wall? && w < |start| && start[w].kind.Wall?
    ensures End(tape[i]) <= start[w].addr || End(start[w]) <= tape[i].addr
  {
    WallInStrip(start, w);
    var j := WallOfStrip(tape, start[w].(kind := Wall(true)));
    Apart(tape, i, j);
  }

  lemma LastWallStays(start: seq<Cell>, tape: seq<Cell>)
    requires Valid(start) && Valid(tape) && SameWalls(start, tape)
    ensures End(tape[|tape| - 1]) <= End(start[|start| - 1])
  {
    WallInStrip(tape, |tape| - 1);
    var j := WallOfStrip(start, tape[|tape| - 1]);
    if j < |start| - 1 {
      Increasing(start, j, |start| - 1);
    }
  }

  /** However the regions lie, every block, free or allocated, stays within one of them: it never reaches
      across a marker, even where two regions touch. */
  lemma NoBlockSpansRegions(start: seq<Cell>, ops: seq<Op>, minimum: nat, i: nat) returns (region: nat)
    requires Valid(start) && Fresh(start) && i < |Run(start, ops, minimum)| && !Run(start, ops, minimum)[i].kind.Wall?
    ensures region < |start| && start[region].kind.Free?
    ensures start[region].addr <= Run(start, ops, minimum)[i].addr &&
            End(Run(start, ops, minimum)[i]) <= End(start[region])
  {
    var tape := Run(start, ops, minimum);
    RunInv(start, ops, minimum);
    LastWallStays(start, tape);
    region := WithinARegion(start, tape, i);
  }

  lemma WithinARegion(start: seq<Cell>, tape: seq<Cell>, i: nat) returns (region: nat)
    requires Valid(start) && Fresh(start) && Valid(tape) && SameWalls(start, tape) && tape[0].addr == start[0].addr
    requires End(tape[|tape| - 1]) <= End(start[|start| - 1]) && i < |tape| && !tape[i].kind.Wall?
    ensures region < |start| && start[region].kind.Free?
    ensures start[region].addr <= tape[i].addr && End(tape[i]) <= End(start[region])
  {
    if i > 0 {
      Increasing(tape, 0, i);
    }
    if i < |tape| - 1 {
      Increasing(tape, i, |tape| - 1);
    }
    region := CellAt(start, tape[i].addr);
    assert FreshAt(start, region);
    if start[region].kind.Wall? {
      ApartFromWalls(start, tape, i, region);
    } else {
      ApartFromWalls(start, tape, i, region + 1);
      assert start[region + 1].addr == End(start[region]);
    }
  }
}
