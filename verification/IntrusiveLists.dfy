/** The pointer list of `include/list.hpp`: a circular doubly linked list of items embedded in
    their owners, with a sentinel `End` and a cursor `Index`, refining `Rings.Ring`. */
module IntrusiveLists {
  import opened Basics
  import opened Rings

  class Item {
    var Value: nat
    var Next: Item?
    var Prev: Item?
    var Container: List?

    constructor (value: nat)
      ensures Value == value && Container == null
    {
      Value := value;
      Next, Prev, Container := null, null, null;
    }
  }

  class List {
    var Length: nat
    var Index: Item
    const End: Item

    /** One walk around the ring in `Next` order: from the sentinel back to the sentinel. */
    ghost var walk: seq<Item>
    /** The position of the cursor. */
    ghost var at: nat
    /** Where each item stands: none is met twice before the walk is back. */
    ghost var rank: map<Item, nat>

    ghost predicate Valid()
      reads this, walk
    {
      && Length == |walk| - 2
      && at < |walk| - 1 && walk[at] == Index
      && Linked(walk)
      && Sound(walk, rank)
    }

    /** Everything but the links and the cursor. */
    ghost predicate Sound(walk: seq<Item>, rank: map<Item, nat>)
      reads walk
    {
      && |walk| >= 2 && walk[0] == End && walk[|walk| - 1] == End
      && Ranked(walk, rank)
      && walk[0].Value == MAX_DELAY
      && (forall i {:trigger walk[i].Container} :: 0 < i < |walk| - 1 ==> walk[i].Container == this)
      && (forall i {:trigger walk[i].Value} :: 0 < i < |walk| - 1 ==> walk[i].Value <= MAX_DELAY)
    }

    static ghost predicate Ranked(walk: seq<Item>, rank: map<Item, nat>) {
      forall i {:trigger walk[i]} :: 0 <= i < |walk| - 1 ==> walk[i] in rank && rank[walk[i]] == i
    }

    static ghost predicate Linked(walk: seq<Item>)
      reads walk
    {
      && (forall i {:trigger walk[i].Next} :: 0 <= i < |walk| - 1 ==> walk[i].Next == walk[i + 1])
      && (forall i {:trigger walk[i].Prev} :: 0 < i < |walk| ==> walk[i].Prev == walk[i - 1])
    }

    ghost function Items(): (s: seq<Item>)
      requires |walk| >= 2
      reads this
    {
      walk[1..|walk| - 1]
    }

    ghost function View(): (r: Ring<Item>)
      requires Valid()
      reads this, walk
    {
      Ring(Items(), at)
    }

    ghost function Values(): (s: seq<nat>)
      requires Valid()
      reads this, walk
      ensures |s| == |walk| - 2
    {
      seq(|walk| - 2, i requires 0 <= i < |walk| - 2 reads this, walk => walk[i + 1].Value)
    }

    constructor ()
      ensures Valid() && fresh(End)
      ensures View() == Ring([], 0)
    {
      var e := new Item(MAX_DELAY);
      End, Index, Length := e, e, 0;
      walk, at, rank := [e, e], 0, map[e := 0];
      new;
      e.Next, e.Prev := e, e;
    }

    method Head() returns (item: Item)
      requires Valid() && Length > 0
      ensures item == View().items[0]
    {
      assert walk[0].Next == walk[1];
      item := End.Next;
    }

    method Advance() returns (item: Item)
      requires Valid() && Length > 0
      modifies this`Index, this`at
      ensures Valid()
      ensures View() == Rings.Advance(old(View()))
      ensures item == Visits(old(View()))[0]
    {
      assert walk[at].Next == walk[at + 1] && walk[0].Next == walk[1];
      at := if at + 2 < |walk| then at + 1 else 0;
      Index := Index.Next;
      if Index == End {
        at := 1;
        Index := End.Next;
      }
      item := Index;
    }

    /** The pointer stores that `append` and `insert` share: `item` goes between `was[k - 1]` and `was[k]`. */
    method Splice(item: Item, prev: Item, next: Item, ghost was: seq<Item>, ghost now: seq<Item>, ghost k: nat)
      requires Linked(was) && Ranked(was, rank) && item !in was && |was| >= 2 && was[0] == was[|was| - 1]
      requires 0 < k < |was| && prev == was[k - 1] && next == was[k]
      requires IsInserted(was, now, k, item)
      modifies item`Next, item`Prev, item`Container, prev`Next, next`Prev
      ensures Linked(now) && item.Container == this
    {
      item.Next := next;
      next.Prev := item;
      item.Prev := prev;
      prev.Next := item;
      item.Container := this;
      FillsGap(was, now, k, item);
    }

    method Unsplice(item: Item, prev: Item, next: Item, ghost was: seq<Item>, ghost now: seq<Item>, ghost k: nat)
      requires Linked(was) && Ranked(was, rank) && |was| >= 2 && was[0] == was[|was| - 1]
      requires 0 < k < |was| - 1 && item == was[k] && next == was[k + 1] && prev == was[k - 1]
      requires IsDropped(was, now, k)
      modifies item`Container, prev`Next, next`Prev
      ensures Linked(now) && item.Container == null
    {
      next.Prev := prev;
      prev.Next := next;
      item.Container := null;
      ClosesGap(was, now, k);
    }

    method Link(item: Item, prev: Item, next: Item, ghost k: nat)
      requires Valid() && item !in walk && item.Value <= MAX_DELAY
      requires 0 < k < |walk| && prev == walk[k - 1] && next == walk[k]
      modifies this, walk, item
      ensures Valid()
      ensures IsInserted(old(walk), walk, k, item) && at == if k <= old(at) then old(at) + 1 else old(at)
      ensures item.Value == old(item.Value)
      ensures forall y :: y in old(walk) ==> y.Value == old(y.Value)
    {
      ghost var was := walk;
      ghost var now := Inserted(was, k, item);
      Splice(item, prev, next, was, now, k);
      Length := Length + 1;
      at := if k <= at then at + 1 else at;
      rank := SoundInserted(was, rank, now, k, item);
      walk := now;
    }

    // ----- the ring as a sequence: facts stated position by position

    static ghost predicate IsInserted<T>(s: seq<T>, s': seq<T>, k: nat, x: T) {
      && k <= |s| && |s'| == |s| + 1 && s'[k] == x
      && (forall i {:trigger s'[i]} :: 0 <= i < k ==> s'[i] == s[i])
      && (forall i {:trigger s'[i]} :: k < i < |s'| ==> s'[i] == s[i - 1])
    }

    static ghost predicate IsDropped<T>(s: seq<T>, s': seq<T>, k: nat) {
      && k < |s| && |s'| == |s| - 1
      && (forall i {:trigger s'[i]} :: 0 <= i < k ==> s'[i] == s[i])
      && (forall i {:trigger s'[i]} :: k <= i < |s'| ==> s'[i] == s[i + 1])
    }

    static lemma Inserted<T>(s: seq<T>, k: nat, x: T) returns (s': seq<T>)
      requires k <= |s|
      ensures IsInserted(s, s', k, x)
    {
      s' := InsertAt(s, k, x);
    }

    /** What an insertion does to the value of the ring and to the item under the cursor. */
    static lemma ViewInserted<T>(was: seq<T>, now: seq<T>, k: nat, x: T, at: nat)
      requires 0 < k < |was| && IsInserted(was, now, k, x) && at < |was| - 1
      ensures Ring(now[1..|now| - 1], if k <= at then at + 1 else at) == Place(Ring(was[1..|was| - 1], at), k - 1, x)
    {
      assert now[1..|now| - 1] == InsertAt(was[1..|was| - 1], k - 1, x);
    }

    static lemma Dropped<T>(s: seq<T>, k: nat) returns (s': seq<T>)
      requires k < |s|
      ensures IsDropped(s, s', k)
    {
      s' := DropAt(s, k);
    }

    static lemma ViewDropped<T>(was: seq<T>, now: seq<T>, k: nat, at: nat)
      requires 0 < k < |was| - 1 && IsDropped(was, now, k) && at < |was| - 1
      ensures Ring(now[1..|now| - 1], if k <= at then at - 1 else at) == RemoveAt(Ring(was[1..|was| - 1], at), k - 1)
    {
      assert now[1..|now| - 1] == DropAt(was[1..|was| - 1], k - 1);
    }

    lemma SoundInserted(was: seq<Item>, rank: map<Item, nat>, now: seq<Item>, k: nat, item: Item)
        returns (rank': map<Item, nat>)
      requires Sound(was, rank) && item !in was
      requires 0 < k < |was| && IsInserted(was, now, k, item)
      requires item.Container == this && item.Value <= MAX_DELAY
      ensures Sound(now, rank')
    {
      rank' := map y | y in rank.Keys + {item} :: if y == item then k else if rank[y] < k then rank[y] else rank[y] + 1;
    }

    lemma SoundDropped(was: seq<Item>, rank: map<Item, nat>, now: seq<Item>, k: nat) returns (rank': map<Item, nat>)
      requires |was| >= 2 && was[0] == End && was[|was| - 1] == End && Ranked(was, rank) && End.Value == MAX_DELAY
      requires 0 < k < |was| - 1 && IsDropped(was, now, k)
      requires forall i {:trigger was[i].Container} :: 0 < i < |was| - 1 && i != k ==> was[i].Container == this
      requires forall i {:trigger was[i].Value} :: 0 < i < |was| - 1 ==> was[i].Value <= MAX_DELAY
      ensures Sound(now, rank') && was[k] !in now
    {
      rank' := map y | y in rank.Keys :: if rank[y] < k || rank[y] == 0 then rank[y] else rank[y] - 1;
    }

    /** Linked, but for the pointers across the gap between `was[k - 1]` and `was[k]`. */
    static ghost predicate LinkedBut(was: seq<Item>, k: nat)
      reads was
    {
      && (forall i {:trigger was[i].Next} :: 0 <= i < |was| - 1 && i != k - 1 ==> was[i].Next == was[i + 1])
      && (forall i {:trigger was[i].Prev} :: 0 < i < |was| && i != k ==> was[i].Prev == was[i - 1])
    }

    static lemma FillsGap(was: seq<Item>, now: seq<Item>, k: nat, item: Item)
      requires 0 < k < |was| && LinkedBut(was, k)
      requires IsInserted(was, now, k, item)
      requires item.Next == was[k] && was[k].Prev == item && item.Prev == was[k - 1] && was[k - 1].Next == item
      ensures Linked(now)
    {
      forall i | 0 <= i < |now| - 1 ensures now[i].Next == now[i + 1] {
        if i < k - 1 {
          assert was[i].Next == was[i + 1];
        } else if i > k {
          assert was[i - 1].Next == was[i];
        }
      }
      forall i | 0 < i < |now| ensures now[i].Prev == now[i - 1] {
        if i < k {
          assert was[i].Prev == was[i - 1];
        } else if i > k + 1 {
          assert was[i - 1].Prev == was[i - 2];
        }
      }
    }

    static lemma ClosesGap(was: seq<Item>, now: seq<Item>, k: nat)
      requires 0 < k < |was| - 1 && IsDropped(was, now, k)
      requires was[k - 1].Next == was[k + 1] && was[k + 1].Prev == was[k - 1]
      requires forall i {:trigger was[i].Next} :: 0 <= i < |was| - 1 && i != k - 1 ==> was[i].Next == was[i + 1]
      requires forall i {:trigger was[i].Prev} :: 0 < i < |was| && i != k + 1 ==> was[i].Prev == was[i - 1]
      ensures Linked(now)
    {
      forall i | 0 <= i < |now| - 1 ensures now[i].Next == now[i + 1] {
        if i < k - 1 {
          assert was[i].Next == was[i + 1];
        } else if i >= k {
          assert was[i + 1].Next == was[i + 2];
        }
      }
      forall i | 0 < i < |now| ensures now[i].Prev == now[i - 1] {
        if i < k {
          assert was[i].Prev == was[i - 1];
        } else if i > k {
          assert was[i + 1].Prev == was[i];
        }
      }
    }

    method Append(item: Item)
      requires Valid() && item !in walk && item.Value <= MAX_DELAY
      modifies this, walk, item
      ensures Valid() && item.Value == old(item.Value)
      ensures View() == Rings.Append(old(View()), item)
    {
      var index := Index;
      ghost var k := if at > 0 then at else |walk| - 1;
      assert walk[k].Prev == walk[k - 1];
      ghost var was, c := walk, at;
      Link(item, index.Prev, index, k);
      ViewInserted(was, walk, k, item, c);
    }

    /** Sorted insertion. The search stops at the sentinel at the latest, because its value is
        `MAX_DELAY` and an item of that value is placed at the end without a search. */
    method Insert(item: Item)
      requires Valid() && item !in walk && item.Value <= MAX_DELAY
      modifies this, walk, item
      ensures Valid() && item.Value == old(item.Value)
      ensures View() == Place(old(View()), InsertPos(old(Values()), item.Value), item)
      ensures forall y :: y in old(walk) ==> y.Value == old(y.Value)
    {
      var prev;
      ghost var k;
      prev, k := Search(item.Value);
      assert walk[k].Next == walk[k + 1];
      ghost var was, c := walk, at;
      Link(item, prev, prev.Next, k + 1);
      ViewInserted(was, walk, k + 1, item, c);
    }

    /** The item to insert behind; `k` is its position. */
    method Search(value: nat) returns (prev: Item, ghost k: nat)
      requires Valid() && value <= MAX_DELAY
      ensures k == InsertPos(Values(), value) && k < |walk| - 1 && prev == walk[k]
    {
      ghost var values := Values();
      k, prev := 0, End;
      if value == MAX_DELAY {
        assert walk[|walk| - 1].Prev == walk[|walk| - 2];
        prev := prev.Prev;
        k := |walk| - 2;
        assert forall i :: 0 <= i < |values| ==> values[i] == walk[i + 1].Value;
      } else {
        assert walk[0].Next == walk[1];
        while prev.Next.Value <= value
          invariant 0 <= k < |walk| - 1 && prev == walk[k] && prev.Next == walk[k + 1]
          invariant forall i :: 0 <= i < k ==> values[i] <= value
          decreases |walk| - k
        {
          assert k < |values| ==> values[k] == walk[k + 1].Value;
          prev := prev.Next;
          k := k + 1;
          assert walk[k].Next == walk[k + 1];
        }
      }
      assert k < |values| ==> values[k] == walk[k + 1].Value;
    }

    method Unlink(item: Item, ghost k: nat)
      requires Valid() && 0 < k < |walk| - 1 && item == walk[k]
      modifies this, walk
      ensures Valid() && item.Container == null && item !in walk
      ensures IsDropped(old(walk), walk, k) && at == if k <= old(at) then old(at) - 1 else old(at)
    {
      ghost var was := walk;
      ghost var now := Dropped(was, k);
      assert was[k].Next == was[k + 1] && was[k].Prev == was[k - 1];
      assert forall i {:trigger was[i]} :: 0 <= i < |was| - 1 && was[i] == item ==> i == k;
      hide Linked, Ranked;
      Unsplice(item, item.Prev, item.Next, was, now, k);
      rank := SoundDropped(was, rank, now, k);
      if Index == item {
        Index := item.Prev;
      }
      at := if k <= at then at - 1 else at;
      Length := Length - 1;
      walk := now;
    }

    /** `Item_t::remove`, on the list that contains the item; returns the length left (and, for the
        reader of the contract, the position `k` the item had). */
    method Remove(item: Item) returns (left: nat, ghost k: nat)
      requires Valid() && item in Items()
      modifies this, walk
      ensures Valid() && item.Container == null && item !in walk
      ensures k < |old(Items())| && old(Items())[k] == item
      ensures View() == RemoveAt(old(View()), k)
      ensures left == |Items()|
    {
      ghost var was, c := walk, at;
      k :| 0 <= k < |Items()| && Items()[k] == item;
      Unlink(item, k + 1);
      ViewDropped(was, walk, k + 1, c);
      left := Length;
    }
  }
}
