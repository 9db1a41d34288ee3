/** The value of a kernel list: a circular list with a sentinel and a round-robin cursor.

  The pointer structure of `include/list.hpp` is refined to this value in `IntrusiveLists`;
  the scheduler, the event lists and the timer lists are built on it directly.
 */
module Rings {

  /** Cursor 0 is the sentinel `End`; cursor i > 0 is `items[i - 1]`. */
  datatype RingValue<+T> = Ring(items: seq<T>, cursor: nat)

  type Ring<+T> = r: RingValue<T> | r.cursor <= |r.items| witness Ring([], 0)

  predicate NoDup<T(==)>(s: seq<T>) {
    forall i, j :: 0 <= i < j < |s| ==> s[i] != s[j]
  }

  function IndexOf<T(==)>(s: seq<T>, x: T): (i: nat)
    requires x in s
    ensures i < |s| && s[i] == x && x !in s[..i]
  {
    if s[0] == x then 0 else 1 + IndexOf(s[1..], x)
  }

  function DropAt<T>(s: seq<T>, i: nat): seq<T>
    requires i < |s|
  {
    s[..i] + s[i + 1..]
  }

  function InsertAt<T>(s: seq<T>, i: nat, x: T): seq<T>
    requires i <= |s|
  {
    s[..i] + [x] + s[i..]
  }

  /** The order in which successive calls of `advance` will visit the items. */
  function Visits<T>(r: Ring<T>): seq<T>
  {
    r.items[r.cursor..] + r.items[..r.cursor]
  }

  // ----- the four list operations, on values

  function Advance<T>(r: Ring<T>): (r': Ring<T>)
  {
    if r.cursor < |r.items| then r.(cursor := r.cursor + 1)
    else if |r.items| == 0 then r
    else r.(cursor := 1)
  }

  /** A pointer cursor stays on its item, so its position moves when something lands before it. */
  function Place<T>(r: Ring<T>, k: nat, x: T): (r': Ring<T>)
    requires k <= |r.items|
  {
    Ring(InsertAt(r.items, k, x), if k < r.cursor then r.cursor + 1 else r.cursor)
  }

  /** `append` links the new item just behind the cursor. */
  function Append<T>(r: Ring<T>, x: T): (r': Ring<T>)
  {
    Place(r, if r.cursor > 0 then r.cursor - 1 else |r.items|, x)
  }

  /** `remove` steps the cursor back when it stands on the removed item. */
  function RemoveAt<T>(r: Ring<T>, i: nat): (r': Ring<T>)
    requires i < |r.items|
  {
    Ring(DropAt(r.items, i), if i < r.cursor then r.cursor - 1 else r.cursor)
  }

  function Remove<T(==)>(r: Ring<T>, x: T): (r': Ring<T>)
    requires x in r.items
  {
    RemoveAt(r, IndexOf(r.items, x))
  }

  /** The place `insert` finds: before the first strictly larger value. */
  function InsertPos(values: seq<nat>, v: nat): (k: nat)
    ensures k <= |values|
    ensures forall i :: 0 <= i < k ==> values[i] <= v
    ensures k < |values| ==> v < values[k]
  {
    if |values| == 0 || v < values[0] then 0 else 1 + InsertPos(values[1..], v)
  }

  predicate Sorted(values: seq<nat>) {
    forall i, j :: 0 <= i < j < |values| ==> values[i] <= values[j]
  }

  // ----- round-robin service

  function AdvanceBy<T>(r: Ring<T>, n: nat): (r': Ring<T>)
  {
    if n == 0 then r else Advance(AdvanceBy(r, n - 1))
  }

  /** The items returned by n successive calls of `advance`. */
  function Served<T>(r: Ring<T>, n: nat): (s: seq<T>)
    requires r.items != []
    ensures |s| == n
  {
    if n == 0 then []
    else
      var r' := AdvanceBy(r, n);
      AdvanceKeepsItems(r, n);
      Served(r, n - 1) + [r'.items[r'.cursor - 1]]
  }

  lemma {:induction false} AdvanceKeepsItems<T>(r: Ring<T>, n: nat)
    ensures AdvanceBy(r, n).items == r.items
    ensures n > 0 && r.items != [] ==> AdvanceBy(r, n).cursor > 0
  {
    if n > 0 {
      AdvanceKeepsItems(r, n - 1);
    }
  }

  /** One call of `advance` serves the head of the visiting order and sends it to the back. */
  lemma AdvanceRotates<T>(r: Ring<T>)
    requires r.items != []
    ensures var r' := Advance(r);
            && r'.items == r.items
            && r'.cursor > 0
            && r'.items[r'.cursor - 1] == Visits(r)[0]
            && Visits(r') == Visits(r)[1..] + [Visits(r)[0]]
  {
  }

  lemma {:induction false} ServedIsPrefix<T>(r: Ring<T>, n: nat)
    requires n <= |r.items| && r.items != []
    ensures Served(r, n) == Visits(r)[..n]
    ensures Visits(AdvanceBy(r, n)) == Visits(r)[n..] + Visits(r)[..n]
  {
    if n == 0 {
      assert Visits(r)[..0] == [] && Visits(r)[0..] == Visits(r);
    } else {
      ServedIsPrefix(r, n - 1);
      ServedStep(r, n);
      RotateOnce(Visits(r), n - 1);
    }
  }

  lemma ServedStep<T>(r: Ring<T>, n: nat)
    requires 0 < n && r.items != []
    ensures var v := Visits(AdvanceBy(r, n - 1));
            v != [] && Served(r, n) == Served(r, n - 1) + [v[0]] && Visits(AdvanceBy(r, n)) == v[1..] + [v[0]]
  {
    AdvanceKeepsItems(r, n - 1);
    AdvanceRotates(AdvanceBy(r, n - 1));
  }

  lemma RotateOnce<T>(w: seq<T>, k: nat)
    requires k < |w|
    ensures var v := w[k..] + w[..k]; v[0] == w[k] && v[1..] + [v[0]] == w[k + 1..] + w[..k + 1]
    ensures w[..k] + [w[k]] == w[..k + 1]
  {
    assert w[..k] + [w[k]] == w[..k + 1];
    assert (w[k..] + w[..k])[1..] == w[k + 1..] + w[..k];
  }

  /** Fairness: on an unchanged list of n items, any n successive calls of `advance` visit
      every item exactly once, and leave the visiting order as it was. */
  lemma RoundRobinIsFair<T>(r: Ring<T>)
    requires r.items != []
    ensures multiset(Served(r, |r.items|)) == multiset(r.items)
    ensures Served(r, |r.items|) == Visits(r)
    ensures Visits(AdvanceBy(r, |r.items|)) == Visits(r)
  {
    var v, n := Visits(r), |r.items|;
    assert |v| == n && multiset(v) == multiset(r.items) by {
      RotationIsPermutation(r.items, r.cursor);
    }
    ServedIsPrefix(r, n);
    hide Visits, Served, AdvanceBy;
    assert v[..n] == v && v[n..] == [];
  }

  lemma RotationIsPermutation<T>(s: seq<T>, k: nat)
    requires k <= |s|
    ensures multiset(s[k..] + s[..k]) == multiset(s)
  {
    assert s == s[..k] + s[k..];
  }

  /** The newcomer waits for every other item, except for the one under the cursor. */
  predicate JoinsLast<T(==)>(r: Ring<T>, r': Ring<T>, x: T) {
    var v := Visits(r);
    Visits(r') == if r.cursor == 0 then v + [x] else v[..|v| - 1] + [x] + v[|v| - 1..]
  }

  /** An appended item waits for every other item except the one that has just been served. */
  lemma AppendIsVisitedLast<T>(r: Ring<T>, x: T)
    ensures JoinsLast(r, Append(r, x), x)
  {
  }

  /** Removing an item, even the one under the cursor, neither skips nor reorders the others. */
  lemma RemoveSkipsNobody<T>(r: Ring<T>, i: nat)
    requires i < |r.items|
    ensures exists j :: 0 <= j < |r.items| && Visits(r)[j] == r.items[i] &&
                        Visits(RemoveAt(r, i)) == DropAt(Visits(r), j)
  {
    var s, c := r.items, r.cursor;
    var j := if i < c then |s| - c + i else i - c;
    assert Visits(r)[j] == s[i];
    if i < c {
      DropBehind(s[c..], s[..c], i);
      assert DropAt(s, i)[..c - 1] == DropAt(s[..c], i) && DropAt(s, i)[c - 1..] == s[c..];
    } else {
      DropBefore(s[c..], s[..c], i - c);
      assert DropAt(s, i)[..c] == s[..c] && DropAt(s, i)[c..] == DropAt(s[c..], i - c);
    }
    assert Visits(RemoveAt(r, i)) == DropAt(Visits(r), j);
  }

  lemma DropBehind<T>(a: seq<T>, b: seq<T>, i: nat)
    requires i < |b|
    ensures DropAt(a + b, |a| + i) == a + DropAt(b, i)
  {
  }

  lemma DropBefore<T>(a: seq<T>, b: seq<T>, i: nat)
    requires i < |a|
    ensures DropAt(a + b, i) == DropAt(a, i) + b
  {
  }

  /** Inserting by value keeps a sorted list sorted and goes behind every equal value. */
  lemma InsertIsStableSorted(values: seq<nat>, v: nat)
    requires Sorted(values)
    ensures Sorted(InsertAt(values, InsertPos(values, v), v))
    ensures forall i :: 0 <= i < |values| && values[i] == v ==> i < InsertPos(values, v)
  {
  }

  // ----- membership facts used by the clients

  lemma DropAtMembers<T>(s: seq<T>, i: nat)
    requires i < |s| && NoDup(s)
    ensures NoDup(DropAt(s, i))
    ensures forall y :: y in DropAt(s, i) <==> y in s && y != s[i]
  {
    var d := DropAt(s, i);
    forall y ensures y in d <==> y in s && y != s[i] {
      if y in s && y != s[i] {
        var j :| 0 <= j < |s| && s[j] == y;
        assert d[if j < i then j else j - 1] == y;
      }
    }
  }

  lemma InsertAtMembers<T>(s: seq<T>, i: nat, x: T)
    requires i <= |s|
    ensures forall y :: y in InsertAt(s, i, x) <==> y in s || y == x
    ensures NoDup(s) && x !in s ==> NoDup(InsertAt(s, i, x))
  {
    var d := InsertAt(s, i, x);
    forall y ensures y in d <==> y in s || y == x {
      if y in s {
        var j :| 0 <= j < |s| && s[j] == y;
        assert d[if j < i then j else j + 1] == y;
      }
      if y == x {
        assert d[i] == y;
      }
    }
  }
}
