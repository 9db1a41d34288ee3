/** How long an item waits for its turn on a round-robin list on which others come and go. */
module ReadyTurns {
  import opened Rings

  /** What can happen to the list between two looks at it. */
  datatype Turn<T> = Joins(item: T) | Leaves(item: T) | Serves

  function After<T(==)>(r: Ring<T>, e: Turn<T>): Ring<T> {
    match e
    case Joins(x) => Append(r, x)
    case Leaves(x) => if x in r.items then Remove(r, x) else r
    case Serves => Advance(r)
  }

  function AfterAll<T(==)>(r: Ring<T>, es: seq<Turn<T>>): Ring<T>
    decreases |es|
  {
    if es == [] then r else AfterAll(After(r, es[0]), es[1..])
  }

  /** How many items were served. */
  function Passed<T>(es: seq<Turn<T>>): nat {
    if es == [] then 0 else (if es[0].Serves? then 1 else 0) + Passed(es[1..])
  }

  /** An event that neither serves t nor is about it. */
  predicate Elsewhere<T(==)>(r: Ring<T>, e: Turn<T>, t: T) {
    match e
    case Joins(x) => x !in r.items
    case Leaves(x) => x != t
    case Serves => r.items != [] && Visits(r)[0] != t
  }

  /** All the while t is on the list and is not served. */
  predicate PassesOver<T(==)>(r: Ring<T>, es: seq<Turn<T>>, t: T)
    decreases |es|
  {
    t in r.items && (es == [] || (Elsewhere(r, es[0], t) && PassesOver(After(r, es[0]), es[1..], t)))
  }

  /** The number of items that are to be served before t. */
  function Ahead<T(==)>(r: Ring<T>, t: T): nat
    requires t in r.items
  {
    var i := IndexOf(r.items, t);
    if r.cursor <= i then i - r.cursor else |r.items| - r.cursor + i
  }

  /** The cursor has still to come to t before it is back at the sentinel. */
  predicate Coming<T(==)>(r: Ring<T>, t: T)
    requires t in r.items
  {
    r.cursor <= IndexOf(r.items, t)
  }

  // ----- facts about positions

  lemma IndexIs<T>(s: seq<T>, i: nat, t: T)
    requires NoDup(s) && i < |s| && s[i] == t
    ensures t in s && IndexOf(s, t) == i
  {
  }

  lemma AheadIsTurn<T>(r: Ring<T>, t: T)
    requires NoDup(r.items) && t in r.items
    ensures Ahead(r, t) < |Visits(r)| && Visits(r)[Ahead(r, t)] == t
    ensures Visits(r)[0] == t <==> Ahead(r, t) == 0
  {
  }

  lemma AfterJoins<T>(r: Ring<T>, x: T, t: T)
    requires NoDup(r.items) && t in r.items && x !in r.items
    ensures var r' := Append(r, x);
            && NoDup(r'.items) && t in r'.items && |r'.items| == |r.items| + 1
            && (Coming(r', t) <==> Coming(r, t))
            && (Coming(r, t) ==> Ahead(r', t) == Ahead(r, t))
            && |r'.items| - r'.cursor <= |r.items| - r.cursor + (if r.cursor == 0 then 1 else 0)
  {
    var k := if r.cursor > 0 then r.cursor - 1 else |r.items|;
    InsertAtMembers(r.items, k, x);
    var i := IndexOf(r.items, t);
    IndexIs(Append(r, x).items, if i < k then i else i + 1, t);
  }

  lemma AfterLeaves<T>(r: Ring<T>, x: T, t: T)
    requires NoDup(r.items) && t in r.items && x in r.items && x != t
    ensures var r' := Remove(r, x);
            && NoDup(r'.items) && t in r'.items && |r'.items| < |r.items|
            && (Coming(r', t) <==> Coming(r, t))
            && (Coming(r, t) ==> Ahead(r', t) <= Ahead(r, t))
            && |r'.items| - r'.cursor <= |r.items| - r.cursor
  {
    var j := IndexOf(r.items, x);
    DropAtMembers(r.items, j);
    var i := IndexOf(r.items, t);
    IndexIs(Remove(r, x).items, if i < j then i else i - 1, t);
  }

  lemma AfterServes<T>(r: Ring<T>, t: T)
    requires NoDup(r.items) && t in r.items && Visits(r)[0] != t
    ensures var r' := Advance(r);
            && r'.items == r.items
            && (Coming(r, t) ==> Coming(r', t) && Ahead(r', t) + 1 == Ahead(r, t))
            && (!Coming(r, t) && !Coming(r', t) ==> |r'.items| - r'.cursor + 1 == |r.items| - r.cursor)
            && (!Coming(r, t) && Coming(r', t) ==> r.cursor == |r.items| && Ahead(r', t) + 2 <= |r.items|)
  {
    AheadIsTurn(r, t);
  }

  lemma AfterElsewhere<T>(r: Ring<T>, e: Turn<T>, t: T)
    requires NoDup(r.items) && t in r.items && Elsewhere(r, e, t)
    ensures NoDup(After(r, e).items) && t in After(r, e).items
    ensures Coming(r, t) ==> Coming(After(r, e), t) &&
                             (if e.Serves? then 1 else 0) + Ahead(After(r, e), t) <= Ahead(r, t)
  {
    match e
    case Joins(x) => AfterJoins(r, x, t);
    case Leaves(x) => if x in r.items { AfterLeaves(r, x, t); }
    case Serves => AfterServes(r, t);
  }

  // ----- nobody overtakes what the cursor is coming to

  /** Then t is served after exactly the items that were ahead of it, or fewer, whoever joins. */
  lemma {:induction false} NobodyOvertakes<T>(r: Ring<T>, es: seq<Turn<T>>, t: T)
    requires NoDup(r.items) && t in r.items && Coming(r, t) && PassesOver(r, es, t)
    ensures t in AfterAll(r, es).items && Coming(AfterAll(r, es), t)
    ensures Passed(es) + Ahead(AfterAll(r, es), t) <= Ahead(r, t)
    decreases |es|
  {
    if es != [] {
      AfterElsewhere(r, es[0], t);
      NobodyOvertakes(After(r, es[0]), es[1..], t);
    }
  }

  // ----- nobody starves

  /** Whoever joins is one of a given set. */
  predicate JoinsFrom<T(==)>(es: seq<Turn<T>>, all: set<T>) {
    forall i :: 0 <= i < |es| && es[i].Joins? ==> es[i].item in all
  }

  /** An upper bound for the number of items that can still be served before t, if there are n in all: what is
      between the cursor and the sentinel, and then a whole lap. */
  function Budget<T(==)>(r: Ring<T>, t: T, n: nat): int
    requires t in r.items
  {
    if Coming(r, t) then Ahead(r, t) else |r.items| - r.cursor + n - 1
  }

  lemma {:induction false} AtMostAll<T>(s: seq<T>, all: set<T>)
    requires NoDup(s) && forall x :: x in s ==> x in all
    ensures |s| <= |all|
    decreases |s|
  {
    if s != [] {
      var rest := s[1..];
      assert forall x :: x in rest ==> x in s && x != s[0];
      AtMostAll(rest, all - {s[0]});
    }
  }

  lemma BudgetGoesDown<T>(r: Ring<T>, e: Turn<T>, t: T, all: set<T>)
    requires NoDup(r.items) && t in r.items && Elsewhere(r, e, t)
    requires (forall x :: x in r.items ==> x in all) && (e.Joins? ==> e.item in all)
    ensures NoDup(After(r, e).items) && t in After(r, e).items && forall x :: x in After(r, e).items ==> x in all
    ensures (if e.Serves? then 1 else 0) + Budget(After(r, e), t, |all|) <= Budget(r, t, |all|)
  {
    AtMostAll(r.items, all);
    match e
    case Joins(x) =>
      AfterJoins(r, x, t);
      InsertAtMembers(r.items, if r.cursor > 0 then r.cursor - 1 else |r.items|, x);
    case Leaves(x) =>
      if x in r.items {
        AfterLeaves(r, x, t);
        DropAtMembers(r.items, IndexOf(r.items, x));
      }
    case Serves => AfterServes(r, t);
  }

  /** So t is served at the latest after what is left of this lap and one lap more. */
  lemma {:induction false} NobodyStarves<T>(r: Ring<T>, es: seq<Turn<T>>, t: T, all: set<T>)
    requires NoDup(r.items) && t in r.items && PassesOver(r, es, t)
    requires (forall x :: x in r.items ==> x in all) && JoinsFrom(es, all)
    ensures t in AfterAll(r, es).items && 0 <= Budget(AfterAll(r, es), t, |all|)
    ensures Passed(es) + Budget(AfterAll(r, es), t, |all|) <= Budget(r, t, |all|)
    decreases |es|
  {
    if es == [] {
      AtMostAll(r.items, all);
    } else {
      BudgetGoesDown(r, es[0], t, all);
      assert forall i :: 0 <= i < |es[1..]| ==> es[1..][i] == es[i + 1];
      NobodyStarves(After(r, es[0]), es[1..], t, all);
    }
  }

  // ----- who may overtake

  /** With the cursor on t the next to join is served before it. */
  lemma JoinsBefore<T>(r: Ring<T>, x: T, t: T)
    requires NoDup(r.items) && t in r.items && x !in r.items && r.cursor == IndexOf(r.items, t) + 1
    ensures t in Append(r, x).items && Ahead(Append(r, x), t) == Ahead(r, t) + 1
  {
    InsertAtMembers(r.items, r.cursor - 1, x);
    IndexIs(Append(r, x).items, r.cursor, t);
  }

  /** If the cursor is past t, taking off the item under it moves it closer to t, and leaves as many ahead. */
  lemma StepsBack<T>(r: Ring<T>, t: T) returns (x: T)
    requires NoDup(r.items) && t in r.items && r.cursor > IndexOf(r.items, t) + 1
    ensures x in r.items && x != t && x == r.items[r.cursor - 1]
    ensures var r' := Remove(r, x);
            && NoDup(r'.items) && t in r'.items && r'.cursor == r.cursor - 1
            && !Coming(r', t) && Ahead(r', t) == Ahead(r, t) && IndexOf(r'.items, t) == IndexOf(r.items, t)
            && (forall y :: y in r'.items <==> y in r.items && y != x)
  {
    x := r.items[r.cursor - 1];
    IndexIs(r.items, r.cursor - 1, x);
    DropAtMembers(r.items, r.cursor - 1);
    IndexIs(Remove(r, x).items, IndexOf(r.items, t), t);
  }

  /** Each item that is served leaves one less ahead. */
  lemma ServedLessAhead<T>(r: Ring<T>, t: T)
    requires NoDup(r.items) && t in r.items && Ahead(r, t) > 0
    ensures Visits(r)[0] != t && Ahead(Advance(r), t) == Ahead(r, t) - 1
  {
    AheadIsTurn(r, t);
  }
}
