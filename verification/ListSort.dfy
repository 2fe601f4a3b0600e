/** The generic linked-list quicksort of `src/lib/orchdata.c`: nodes are rewired in place, never
    copied. The sorted order is a function of the old order; what that function promises is proved
    about it. */
module ListSort {

  /** A list cell: the source's `struct base` is its first field, the payload follows. */
  class Node<T> {
    var next: Node?<T>
    var item: T

    constructor (item: T, next: Node?<T>)
      ensures this.item == item && this.next == next
    {
      this.item, this.next := item, next;
    }
  }

  // ---------------------------------------------------------------------------------------
  // Segments of a list
  // ---------------------------------------------------------------------------------------

  ghost predicate NoDuplicates<T>(s: seq<T>) {
    forall i, j :: 0 <= i < j < |s| ==> s[i] != s[j]
  }

  ghost function Head<T>(s: seq<Node<T>>, end: Node?<T>): Node?<T> {
    if s == [] then end else s[0]
  }

  ghost function Follower<T>(s: seq<Node<T>>, i: nat, end: Node?<T>): Node?<T> {
    if i + 1 < |s| then s[i+1] else end
  }

  /** The nodes `s` are linked in this order, and the last one is followed by `end`. */
  ghost predicate Linked<T>(s: seq<Node<T>>, end: Node?<T>)
    reads s`next
  {
    forall i {:trigger s[i].next} {:trigger Follower(s, i, end)} :: 0 <= i < |s| ==> s[i].next == Follower(s, i, end)
  }

  /** `head` is an acyclic, null-terminated list of exactly the nodes `s`. */
  ghost predicate IsList<T>(head: Node?<T>, s: seq<Node<T>>)
    reads s`next
  {
    NoDuplicates(s) && Linked(s, null) && head == Head(s, null)
  }

  method GetTail<T>(head: Node?<T>, ghost s: seq<Node<T>>) returns (tail: Node?<T>)
    requires IsList(head, s)
    ensures tail == if s == [] then null else s[|s|-1]
  {
    tail := head;
    ghost var i := 0;
    while tail != null && tail.next != null
      invariant s == [] ==> tail == null
      invariant s != [] ==> i < |s|
      invariant s != [] ==> tail == s[i]
      decreases |s| - i
    {
      tail := tail.next;
      i := i + 1;
    }
  }

  // ---------------------------------------------------------------------------------------
  // Order
  // ---------------------------------------------------------------------------------------

  /** A comparator that ranks its arguments when negative, like the C library's. */
  type Compar<!T> = (T, T) -> int

  predicate Less<T>(compar: Compar<T>, a: Node<T>, b: Node<T>)
    reads a`item, b`item
  {
    compar(a.item, b.item) < 0
  }

  /** No later node compares strictly below an earlier one. */
  ghost predicate Sorted<T>(compar: Compar<T>, s: seq<Node<T>>)
    reads s`item
  {
    forall i, j :: 0 <= i < j < |s| ==> !Less(compar, s[j], s[i])
  }

  /** On the nodes of `s`, being negative is a strict partial order. */
  ghost predicate StrictOrder<T>(compar: Compar<T>, s: seq<Node<T>>)
    reads s`item
  {
    && (forall a, b :: a in s && b in s && Less(compar, a, b) ==> !Less(compar, b, a))
    && (forall a, b, c :: a in s && b in s && c in s && Less(compar, a, b) && Less(compar, b, c) ==> Less(compar, a, c))
  }

  ghost predicate AllBelow<T>(compar: Compar<T>, s: seq<Node<T>>, p: Node<T>)
    reads s`item, p`item
  {
    forall a :: a in s ==> Less(compar, a, p)
  }

  ghost predicate NoneBelow<T>(compar: Compar<T>, s: seq<Node<T>>, p: Node<T>)
    reads s`item, p`item
  {
    forall a :: a in s ==> !Less(compar, a, p)
  }

  lemma SameMembers<T>(s: seq<T>, t: seq<T>)
    requires multiset(s) == multiset(t)
    ensures |s| == |t| && forall a :: a in s <==> a in t
    ensures (forall i :: 0 <= i < |s| ==> s[i] in t) && (forall i :: 0 <= i < |t| ==> t[i] in s)
  {
    assert |multiset(s)| == |multiset(t)|;
    forall a ensures a in s <==> a in t {
      assert a in s <==> a in multiset(s);
      assert a in t <==> a in multiset(t);
    }
  }

  /** Sorted parts around a pivot that separates them make a sorted whole. */
  lemma SortedAround<T>(compar: Compar<T>, lo: seq<Node<T>>, p: Node<T>, hi: seq<Node<T>>)
    requires StrictOrder(compar, lo + [p] + hi)
    requires Sorted(compar, lo) && Sorted(compar, hi) && AllBelow(compar, lo, p) && NoneBelow(compar, hi, p)
    ensures Sorted(compar, lo + [p] + hi)
  {
    var s := lo + [p] + hi;
    forall i, j | 0 <= i < j < |s| ensures !Less(compar, s[j], s[i]) {
      if i < |lo| && j > |lo| {
        assert s[i] in lo && s[j] in hi && s[i] in s && s[j] in s && p in s;
      } else if i < |lo| && j == |lo| {
        assert s[i] in lo && s[i] in s && p in s;
      } else if i == |lo| {
        assert s[j] in hi;
      }
    }
  }

  // ---------------------------------------------------------------------------------------
  // Partition
  // ---------------------------------------------------------------------------------------

  /** Three duplicate-free runs of nodes without common members. */
  ghost predicate Apart<T>(lo: seq<Node<T>>, rest: seq<Node<T>>, back: seq<Node<T>>) {
    && NoDuplicates(lo) && NoDuplicates(rest) && NoDuplicates(back)
    && (forall a :: a in lo ==> a !in rest && a !in back)
    && (forall a :: a in rest ==> a !in back)
  }

  lemma ApartKeep<T>(lo: seq<Node<T>>, rest: seq<Node<T>>, back: seq<Node<T>>)
    requires Apart(lo, rest, back) && rest != []
    ensures Apart(lo + [rest[0]], rest[1..], back) && Apart(lo, rest[1..], back + [rest[0]])
    ensures multiset(lo + [rest[0]]) + multiset(rest[1..]) + multiset(back)
      == multiset(lo) + multiset(rest) + multiset(back)
    ensures multiset(lo) + multiset(rest[1..]) + multiset(back + [rest[0]])
      == multiset(lo) + multiset(rest) + multiset(back)
  {
    assert rest == [rest[0]] + rest[1..];
    assert rest[0] !in rest[1..] && rest[0] in rest && rest[0] !in lo && rest[0] !in back;
    assert forall a :: a in rest[1..] ==> a in rest;
    assert forall i :: 0 <= i < |lo| ==> lo[i] in lo;
    assert forall i :: 0 <= i < |back| ==> back[i] in back;
  }

  lemma InWhole<T>(lo: seq<T>, rest: seq<T>, back: seq<T>, s: seq<T>)
    requires multiset(lo) + multiset(rest) + multiset(back) == multiset(s)
    ensures forall a :: a in lo || a in rest || a in back ==> a in s
  {
    forall a | a in lo || a in rest || a in back ensures a in s {
      assert a in multiset(lo) || a in multiset(rest) || a in multiset(back);
      assert a in multiset(s);
    }
  }

  lemma BelowKeep<T>(compar: Compar<T>, lo: seq<Node<T>>, back: seq<Node<T>>, c: Node<T>, p: Node<T>)
    requires AllBelow(compar, lo, p) && back != [] && NoneBelow(compar, back[1..], p)
    ensures Less(compar, c, p) ==> AllBelow(compar, lo + [c], p)
    ensures !Less(compar, c, p) ==> NoneBelow(compar, (back + [c])[1..], p)
  {
    assert (back + [c])[1..] == back[1..] + [c];
  }

  lemma LinkedKeep<T>(lo: seq<Node<T>>, rest: seq<Node<T>>, end: Node?<T>)
    requires rest != [] && Linked(lo, rest[0]) && Linked(rest, end)
    ensures rest[0].next == Head(rest[1..], end)
    ensures Linked(lo + [rest[0]], rest[0].next) && Linked(rest[1..], end)
  {
  }

  /** Unlinks the first of `rest` and links it behind `back`. */
  method MoveBehind<T>(prev: Node?<T>, cur: Node<T>, tail: Node<T>, ghost end: Node<T>,
                       ghost lo: seq<Node<T>>, ghost rest: seq<Node<T>>, ghost back: seq<Node<T>>)
    returns (tmp: Node<T>)
    requires Apart(lo, rest, back) && rest != [] && cur == rest[0]
    requires Linked(lo, cur) && Linked(rest, end) && back != [] && Linked(back, null)
    requires prev == (if lo == [] then null else lo[|lo|-1]) && tail == back[|back|-1]
    modifies (if prev == null then {} else {prev})`next, cur`next, tail`next
    ensures tmp == Head(rest[1..], end)
    ensures Linked(lo, tmp) && Linked(rest[1..], end) && Linked(back + [cur], null)
  {
    assert forall i :: 0 <= i < |lo| ==> lo[i] in lo;
    assert forall i :: 0 <= i < |rest| ==> rest[i] in rest;
    assert forall i :: 0 <= i < |back| ==> back[i] in back;
    if prev != null {
      prev.next := cur.next;
    }
    tmp := cur.next;
    cur.next := null;
    tail.next := cur;
  }

  /** The state of a partition of `s`: `lo` has been kept, `rest` is still to be looked at, `back`
      is the pivot and what has been moved behind it. */
  ghost predicate Splitting<T>(compar: Compar<T>, s: seq<Node<T>>, lo: seq<Node<T>>, rest: seq<Node<T>>,
                               back: seq<Node<T>>)
    reads lo`next, rest`next, back`next, lo`item, back`item
  {
    && back != [] && Apart(lo, rest, back)
    && multiset(lo) + multiset(rest) + multiset(back) == multiset(s)
    && Linked(lo, Head(rest, back[0])) && Linked(rest, back[0]) && Linked(back, null)
    && AllBelow(compar, lo, back[0]) && NoneBelow(compar, back[1..], back[0])
  }

  lemma SplittingStart<T>(compar: Compar<T>, s: seq<Node<T>>)
    requires s != [] && NoDuplicates(s) && Linked(s, null)
    ensures Splitting(compar, s, [], s[..|s|-1], [s[|s|-1]])
  {
    assert s == s[..|s|-1] + [s[|s|-1]];
    assert s[|s|-1].next == null;
    assert [s[|s|-1]][1..] == [];
  }

  lemma SplittingKeep<T>(compar: Compar<T>, s: seq<Node<T>>, lo: seq<Node<T>>, rest: seq<Node<T>>, back: seq<Node<T>>)
    requires Splitting(compar, s, lo, rest, back) && rest != [] && Less(compar, rest[0], back[0])
    ensures rest[0].next == Head(rest[1..], back[0])
    ensures Splitting(compar, s, lo + [rest[0]], rest[1..], back)
  {
    hide Apart, Linked, AllBelow, NoneBelow;
    ApartKeep(lo, rest, back);
    LinkedKeep(lo, rest, back[0]);
    BelowKeep(compar, lo, back, rest[0], back[0]);
  }

  /** Moves one node and keeps the partition going. */
  method SplittingMove<T>(compar: Compar<T>, prev: Node?<T>, cur: Node<T>, tail: Node<T>,
                          ghost s: seq<Node<T>>, ghost lo: seq<Node<T>>, ghost rest: seq<Node<T>>,
                          ghost back: seq<Node<T>>)
    returns (tmp: Node<T>)
    requires Splitting(compar, s, lo, rest, back) && rest != [] && cur == rest[0] && !Less(compar, cur, back[0])
    requires prev == (if lo == [] then null else lo[|lo|-1]) && tail == back[|back|-1]
    modifies s`next
    ensures tmp == Head(rest[1..], back[0])
    ensures Splitting(compar, s, lo, rest[1..], back + [cur])
  {
    hide Apart, Linked, AllBelow, NoneBelow;
    ApartKeep(lo, rest, back);
    InWhole(lo, rest, back, s);
    BelowKeep(compar, lo, back, cur, back[0]);
    assert rest[0] in rest && back[|back|-1] in back && (lo != [] ==> lo[|lo|-1] in lo);
    tmp := MoveBehind(prev, cur, tail, back[0], lo, rest, back);
    assert (back + [cur])[0] == back[0];
  }

  lemma HeadInside<T>(s: seq<Node<T>>, end: Node?<T>)
    ensures s == [] || Head(s, end) in s
  {
  }

  lemma SplittingDone<T>(compar: Compar<T>, s: seq<Node<T>>, lo: seq<Node<T>>, rest: seq<Node<T>>, back: seq<Node<T>>)
    requires Splitting(compar, s, lo, rest, back) && back[0] == Head(rest, back[0])
    ensures rest == [] && multiset(lo + back) == multiset(s)
  {
    assert back[0] in back;
    HeadInside(rest, back[0]);
  }

  /** What a split hands to the two recursive calls. */
  lemma SplitParts<T>(compar: Compar<T>, s: seq<Node<T>>, lo: seq<Node<T>>, back: seq<Node<T>>)
    requires Splitting(compar, s, lo, [], back) && multiset(lo + back) == multiset(s)
    ensures NoDuplicates(lo) && NoDuplicates(back) && back[0] !in lo && Linked(lo, back[0])
    ensures IsList(back[0].next, back[1..])
    ensures (forall i :: 0 <= i < |lo| ==> lo[i] in s) && (forall i :: 0 <= i < |back| ==> back[i] in s)
    ensures (forall a :: a in lo ==> a !in back) && (forall i :: 0 <= i < |back| ==> back[i] !in lo)
    ensures back != [] && |lo| + |back| == |s| && (Head(lo, back[0]) == back[0] ==> lo == [])
    ensures AllBelow(compar, lo, back[0]) && NoneBelow(compar, back[1..], back[0])
    ensures StrictOrder(compar, s) ==> StrictOrder(compar, lo) && StrictOrder(compar, back[1..])
  {
    assert back[0] in back;
    SameMembers(lo + back, s);
    assert forall a :: a in lo ==> a in lo + back;
    assert forall a :: a in back ==> a in lo + back;
    assert forall a :: a in back[1..] ==> a in back;
    assert forall i :: 0 <= i < |lo| ==> lo[i] in lo;
    assert forall i :: 0 <= i < |back| ==> back[i] in back;
  }

  /** Splits a list at its last node. Nodes below the pivot stay in front of it, the others are
      moved behind it one by one. */
  method Partition<T>(head: Node<T>, end: Node<T>, compar: Compar<T>, ghost s: seq<Node<T>>)
    returns (pivot: Node<T>, newHead: Node<T>, newEnd: Node<T>, ghost lo: seq<Node<T>>, ghost back: seq<Node<T>>)
    requires IsList(head, s) && s != [] && end == s[|s|-1]
    modifies s`next
    ensures multiset(lo + back) == multiset(s) && |lo| + |back| == |s|
    ensures back != [] && back[0] == pivot == end && newEnd == back[|back|-1]
    ensures newHead == (if lo == [] then pivot else lo[0]) && (newHead == pivot <==> lo == [])
    ensures NoDuplicates(lo) && NoDuplicates(back) && Linked(lo, pivot) && IsList(pivot.next, back[1..])
    ensures (forall i :: 0 <= i < |lo| ==> lo[i] in s) && (forall i :: 0 <= i < |back| ==> back[i] in s)
    ensures (forall a :: a in lo ==> a !in back) && (forall i :: 0 <= i < |back| ==> back[i] !in lo)
    ensures AllBelow(compar, lo, pivot) && NoneBelow(compar, back[1..], pivot)
    ensures StrictOrder(compar, s) ==> StrictOrder(compar, lo) && StrictOrder(compar, back[1..])
  {
    pivot := end;
    hide Splitting, Less, StrictOrder, AllBelow, NoneBelow;
    SplittingStart(compar, s);
    var prev: Node?<T>, first: Node?<T> := null, null;
    var cur: Node<T>, tail := head, pivot;
    lo, back := [], [pivot];
    ghost var rest := s[..|s|-1];
    while cur != pivot
      invariant Splitting(compar, s, lo, rest, back)
      invariant cur == Head(rest, pivot) && back != [] && back[0] == pivot
      invariant prev == (if lo == [] then null else lo[|lo|-1]) && first == Head(lo, null)
      invariant tail == back[|back|-1]
      decreases |rest|
    {
      if Less(compar, cur, pivot) {
        if first == null {
          first := cur;
        }
        SplittingKeep(compar, s, lo, rest, back);
        prev := cur;
        lo, rest := lo + [cur], rest[1..];
        cur := cur.next;
      } else {
        var tmp := SplittingMove(compar, prev, cur, tail, s, lo, rest, back);
        back, rest := back + [cur], rest[1..];
        tail := cur;
        cur := tmp;
      }
    }
    SplittingDone(compar, s, lo, rest, back);
    SplitParts(compar, s, lo, back);
    newHead := if first == null then pivot else first;
    newEnd := tail;
  }

  // ---------------------------------------------------------------------------------------
  // Quicksort
  // ---------------------------------------------------------------------------------------

  /** Ends the list in front of the pivot. */
  method CutBefore<T>(newHead: Node<T>, pivot: Node<T>, ghost lo: seq<Node<T>>) returns (tmp: Node<T>)
    requires lo != [] && NoDuplicates(lo) && Linked(lo, pivot) && newHead == lo[0] && pivot !in lo
    modifies lo`next
    ensures IsList(newHead, lo) && tmp == lo[|lo|-1]
  {
    tmp := newHead;
    ghost var i := 0;
    assert forall k :: 0 <= k < |lo| ==> lo[k] in lo;
    while tmp.next != pivot
      invariant i < |lo|
      invariant tmp == lo[i]
      decreases |lo| - i
    {
      tmp := tmp.next;
      i := i + 1;
    }
    tmp.next := null;
  }

  /** Hangs the pivot behind a list. */
  method LinkTail<T>(newHead: Node<T>, pivot: Node<T>, ghost lo: seq<Node<T>>)
    requires lo != [] && IsList(newHead, lo)
    modifies lo`next
    ensures Linked(lo, pivot)
  {
    var tmp := GetTail(newHead, lo);
    tmp.next := pivot;
  }

  /** Puts the sorted parts together around the pivot. */
  lemma Reassembled<T>(compar: Compar<T>, s: seq<Node<T>>, lo: seq<Node<T>>, back: seq<Node<T>>,
                       lo': seq<Node<T>>, hi': seq<Node<T>>)
    requires back != [] && multiset(lo + back) == multiset(s)
    requires multiset(lo') == multiset(lo) && multiset(hi') == multiset(back[1..])
    requires NoDuplicates(lo') && NoDuplicates(hi') && NoDuplicates(back) && forall a :: a in lo ==> a !in back
    requires Linked(lo', back[0]) && Linked(hi', null) && back[0].next == Head(hi', null)
    requires AllBelow(compar, lo, back[0]) && NoneBelow(compar, back[1..], back[0])
    requires StrictOrder(compar, s) ==> Sorted(compar, lo') && Sorted(compar, hi')
    ensures IsList(Head(lo', back[0]), lo' + [back[0]] + hi')
    ensures multiset(lo' + [back[0]] + hi') == multiset(s)
    ensures StrictOrder(compar, s) ==> Sorted(compar, lo' + [back[0]] + hi')
  {
    var p := back[0];
    var r := lo' + [p] + hi';
    assert back == [p] + back[1..];
    SameMembers(lo, lo');
    SameMembers(back[1..], hi');
    assert multiset(r) == multiset(s);
    SameMembers(r, s);
    AroundPivotDistinct(lo', p, hi', lo, back);
    AroundPivotLinked(lo', p, hi');
    if StrictOrder(compar, s) {
      SortedAround(compar, lo', p, hi');
    }
  }

  lemma AroundPivotDistinct<T>(lo': seq<Node<T>>, p: Node<T>, hi': seq<Node<T>>, lo: seq<Node<T>>, back: seq<Node<T>>)
    requires NoDuplicates(lo') && NoDuplicates(hi') && NoDuplicates(back) && back != [] && back[0] == p
    requires forall a :: a in lo ==> a !in back
    requires forall a :: (a in lo' <==> a in lo) && (a in hi' <==> a in back[1..])
    ensures NoDuplicates(lo' + [p] + hi')
  {
    var r := lo' + [p] + hi';
    assert p in back;
    forall i, j | 0 <= i < j < |r| ensures r[i] != r[j] {
      assert i < |lo'| ==> r[i] in lo';
      assert j > |lo'| ==> r[j] in hi' && r[j] in back[1..] && r[j] in back;
      if j > |lo'| && i == |lo'| {
        var k :| 0 <= k < |back[1..]| && back[1..][k] == r[j];
        assert back[k+1] == r[j];
      }
    }
  }

  lemma AroundPivotLinked<T>(lo: seq<Node<T>>, p: Node<T>, hi: seq<Node<T>>)
    requires Linked(lo, p) && Linked(hi, null) && p.next == Head(hi, null)
    ensures Linked(lo + [p] + hi, null) && Head(lo + [p] + hi, null) == Head(lo, p)
  {
  }

  /** Sorts the list `s`. The nodes stay the same, only their links change; the result is in order
      whenever the comparator is a strict partial order on them. */
  method QSortRecur<T>(head: Node?<T>, end: Node?<T>, compar: Compar<T>, ghost s: seq<Node<T>>)
    returns (newHead: Node?<T>, ghost r: seq<Node<T>>)
    requires IsList(head, s) && (s != [] ==> end == s[|s|-1])
    modifies s`next
    ensures IsList(newHead, r) && multiset(r) == multiset(s)
    ensures StrictOrder(compar, s) ==> Sorted(compar, r)
    decreases |s|, 0
  {
    if head == null || head == end {
      assert |s| <= 1;
      return head, s;
    }
    var pivot, first, newEnd;
    ghost var lo, back;
    pivot, first, newEnd, lo, back := Partition(head, end, compar, s);
    SortedNothing(compar, lo);
    hide Less, StrictOrder, Sorted, AllBelow, NoneBelow, NoDuplicates;
    newHead := first;
    ghost var lo' := lo;
    if first != pivot {
      newHead, lo' := SortFront(first, pivot, compar, lo);
      SameMembers(lo, lo');
    }
    r := SortBack(pivot, newEnd, compar, s, lo, back, lo');
  }

  lemma SortedNothing<T>(compar: Compar<T>, s: seq<Node<T>>)
    ensures s == [] ==> Sorted(compar, s)
  {
  }

  /** Sorts what follows the pivot. */
  method SortBehind<T>(pivot: Node<T>, newEnd: Node<T>, compar: Compar<T>, ghost back: seq<Node<T>>)
    returns (ghost hi': seq<Node<T>>)
    requires back != [] && pivot == back[0] && newEnd == back[|back|-1] && NoDuplicates(back) &&
      IsList(pivot.next, back[1..])
    modifies back`next
    ensures NoDuplicates(hi') && Linked(hi', null) && pivot.next == Head(hi', null) &&
      multiset(hi') == multiset(back[1..])
    ensures StrictOrder(compar, back[1..]) ==> Sorted(compar, hi')
    decreases |back| - 1, 1
  {
    hide Less, StrictOrder, Sorted;
    var rest;
    assert forall i :: 0 <= i < |back[1..]| ==> back[1..][i] == back[i+1];
    rest, hi' := QSortRecur(pivot.next, newEnd, compar, back[1..]);
    SameMembers(back[1..], hi');
    assert pivot !in back[1..];
    pivot.next := rest;
  }

  /** Sorts the part behind the pivot and puts both parts together. */
  method SortBack<T>(pivot: Node<T>, newEnd: Node<T>, compar: Compar<T>,
                     ghost s: seq<Node<T>>, ghost lo: seq<Node<T>>, ghost back: seq<Node<T>>, ghost lo': seq<Node<T>>)
    returns (ghost r: seq<Node<T>>)
    requires back != [] && pivot == back[0] && newEnd == back[|back|-1] && multiset(lo + back) == multiset(s)
    requires multiset(lo') == multiset(lo) && NoDuplicates(lo') && NoDuplicates(back)
    requires (forall a :: a in lo ==> a !in back) && (forall i :: 0 <= i < |back| ==> back[i] !in lo)
    requires Linked(lo', pivot) && IsList(pivot.next, back[1..])
    requires AllBelow(compar, lo, pivot) && NoneBelow(compar, back[1..], pivot)
    requires StrictOrder(compar, s) ==> Sorted(compar, lo') && StrictOrder(compar, back[1..])
    modifies back`next
    ensures IsList(Head(lo', pivot), r) && multiset(r) == multiset(s)
    ensures StrictOrder(compar, s) ==> Sorted(compar, r)
    decreases |back| - 1, 2
  {
    hide Less, StrictOrder, Sorted, AllBelow, NoneBelow, NoDuplicates;
    SameMembers(lo, lo');
    assert forall i :: 0 <= i < |lo'| ==> lo'[i] !in back;
    ghost var hi' := SortBehind(pivot, newEnd, compar, back);
    assert Linked(lo', pivot);
    r := lo' + [pivot] + hi';
    Reassembled(compar, s, lo, back, lo', hi');
  }

  /** Sorts the part in front of the pivot and hangs the pivot behind it again. */
  method SortFront<T>(first: Node<T>, pivot: Node<T>, compar: Compar<T>, ghost lo: seq<Node<T>>)
    returns (newHead: Node<T>, ghost lo': seq<Node<T>>)
    requires lo != [] && NoDuplicates(lo) && Linked(lo, pivot) && first == lo[0] && pivot !in lo
    modifies lo`next
    ensures lo' != [] && newHead == lo'[0] && NoDuplicates(lo') && Linked(lo', pivot)
    ensures multiset(lo') == multiset(lo)
    ensures StrictOrder(compar, lo) ==> Sorted(compar, lo')
    decreases |lo|, 1
  {
    var tmp := CutBefore(first, pivot, lo);
    var h;
    h, lo' := QSortRecur(first, tmp, compar, lo);
    SameMembers(lo, lo');
    newHead := h;
    LinkTail(newHead, pivot, lo');
  }

  /** `qsortll`: sorts a list in place. For any comparator the result is a null-terminated list of
      the same nodes; for a strict partial order no later node ranks below an earlier one. */
  method QSort<T>(head: Node?<T>, compar: Compar<T>, ghost s: seq<Node<T>>)
    returns (newHead: Node?<T>, ghost r: seq<Node<T>>)
    requires IsList(head, s)
    modifies s`next
    ensures IsList(newHead, r) && multiset(r) == multiset(s)
    ensures StrictOrder(compar, s) ==> Sorted(compar, r)
  {
    newHead, r := head, s;
    if head != null {
      var tail := GetTail(head, s);
      newHead, r := QSortRecur(head, tail, compar, s);
    }
  }
}
