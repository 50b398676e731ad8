/** The bounded preview of the snapshot inventory: dated snapshots ranked newest first,
    and the binary min-heap that keeps the best ones while the payload streams by. */
module PreviewHeap {
  import opened Prelude

  /** Normalised fields of one snapshot; `instant` is its parsed creation time. */
  datatype Snapshot = Snapshot(
    id: Option<string>,
    name: Option<string>,
    description: Option<string>,
    locked: Option<bool>,
    createdAt: Option<string>,
    instant: Option<int>)

  /** A heap item: the tuple (instant, -order, order, snapshot). */
  datatype Dated = Dated(instant: int, order: nat, item: Snapshot)

  /** Tuple order on heap items: older first and, at one instant, later in the payload first. */
  predicate Below(a: Dated, b: Dated) {
    a.instant < b.instant || (a.instant == b.instant && a.order > b.order)
  }

  /** Strictly newest first, ties in payload order. */
  ghost predicate Descending(s: seq<Dated>) {
    forall i, j :: 0 <= i < j < |s| ==> Below(s[j], s[i])
  }

  /** The place of `x` in a list ranked newest first. */
  function Insert(x: Dated, s: seq<Dated>): (r: seq<Dated>)
    ensures |r| == |s| + 1
  {
    if s == [] || Below(s[0], x) then [x] + s
    else [s[0]] + Insert(x, s[1..])
  }

  /** `sorted(items, reverse=True)`. */
  function NewestFirst(d: seq<Dated>): (r: seq<Dated>)
    ensures |r| == |d|
  {
    if d == [] then [] else Insert(d[|d| - 1], NewestFirst(d[..|d| - 1]))
  }

  lemma {:induction false} InsertKeepsItems(x: Dated, s: seq<Dated>)
    ensures multiset(Insert(x, s)) == multiset(s) + multiset{x}
  {
    if s != [] && !Below(s[0], x) {
      InsertKeepsItems(x, s[1..]);
      assert s == [s[0]] + s[1..];
    }
  }

  lemma {:induction false} NewestFirstKeepsItems(d: seq<Dated>)
    ensures multiset(NewestFirst(d)) == multiset(d)
  {
    if d != [] {
      NewestFirstKeepsItems(d[..|d| - 1]);
      InsertKeepsItems(d[|d| - 1], NewestFirst(d[..|d| - 1]));
      assert d == d[..|d| - 1] + [d[|d| - 1]];
    }
  }

  /** No two items share their place in the payload. */
  ghost predicate DistinctOrders(d: seq<Dated>) {
    forall i, j :: 0 <= i < j < |d| ==> d[i].order != d[j].order
  }

  lemma {:induction false} InsertDescending(x: Dated, s: seq<Dated>)
    requires Descending(s)
    requires forall y :: y in s ==> y.order != x.order
    ensures Descending(Insert(x, s))
  {
    if s != [] && !Below(s[0], x) {
      InsertDescending(x, s[1..]);
      var r := Insert(x, s[1..]);
      InsertKeepsItems(x, s[1..]);
      forall y | y in r ensures Below(y, s[0]) {
        assert y in multiset(r);
        if y != x {
          assert y in multiset(s[1..]);
          var k :| 0 <= k < |s[1..]| && s[1..][k] == y;
          assert s[k + 1] == y;
        } else {
          assert s[0] in s;
        }
      }
    }
  }

  lemma {:induction false} NewestFirstDescending(d: seq<Dated>)
    requires DistinctOrders(d)
    ensures Descending(NewestFirst(d))
  {
    if d != [] {
      var front, x := d[..|d| - 1], d[|d| - 1];
      NewestFirstDescending(front);
      NewestFirstKeepsItems(front);
      forall y | y in NewestFirst(front) ensures y.order != x.order {
        assert y in multiset(NewestFirst(front));
        assert y in front;
      }
      InsertDescending(x, NewestFirst(front));
    }
  }

  /** A ranking is determined by what it ranks. */
  lemma {:induction false} RankingIsUnique(s: seq<Dated>, t: seq<Dated>)
    requires Descending(s) && Descending(t)
    requires multiset(s) == multiset(t)
    ensures s == t
  {
    if s == [] {
      assert |multiset(t)| == |t|;
    } else {
      assert s[0] in multiset(s);
      assert s[0] in t;
      assert t[0] in multiset(t);
      assert t[0] in s;
      assert s[0] == t[0];
      assert s == [s[0]] + s[1..] && t == [t[0]] + t[1..];
      assert multiset(s[1..]) == multiset(s) - multiset{s[0]};
      assert multiset(t[1..]) == multiset(t) - multiset{t[0]};
      RankingIsUnique(s[1..], t[1..]);
    }
  }

  /** Ranking one more item changes the first k places only if it beats the k-th. */
  lemma {:induction false} InsertTake(x: Dated, s: seq<Dated>, k: nat)
    requires Descending(s) && 1 <= k <= |s|
    requires forall y :: y in s ==> y.order != x.order
    ensures Below(s[k - 1], x) ==> Insert(x, s)[..k] == Insert(x, s[..k - 1])
    ensures !Below(s[k - 1], x) ==> Insert(x, s)[..k] == s[..k]
  {
    if Below(s[0], x) {
      if k > 1 {
        assert Below(s[k - 1], s[0]);
        assert s[..k - 1][0] == s[0];
      }
      assert Insert(x, s)[..k] == [x] + s[..k - 1];
    } else if k == 1 {
      assert Insert(x, s)[..1] == [s[0]];
    } else {
      var rest := s[1..];
      assert rest[k - 2] == s[k - 1];
      InsertTake(x, rest, k - 1);
      var r := Insert(x, rest);
      assert Insert(x, s) == [s[0]] + r;
      assert Insert(x, s)[..k] == [s[0]] + r[..k - 1];
      if Below(s[k - 1], x) {
        var front := s[..k - 1];
        assert front[0] == s[0] && front[1..] == rest[..k - 2];
        assert Insert(x, front) == [s[0]] + Insert(x, rest[..k - 2]);
      } else {
        assert s[..k] == [s[0]] + rest[..k - 1];
      }
    }
  }

  /** What streaming one more item must do to the retained top k. */
  lemma {:induction false} TopStep(x: Dated, s: seq<Dated>, kept: seq<Dated>, k: nat)
    requires Descending(s) && 1 <= k
    requires forall y :: y in s ==> y.order != x.order
    requires multiset(kept) == multiset(s[..if |s| < k then |s| else k])
    ensures |kept| == (if |s| < k then |s| else k)
    ensures |s| < k ==> Insert(x, s)[..|s| + 1] == Insert(x, s)
    ensures |s| >= k && (forall y :: y in kept ==> !Below(y, kept[0])) ==>
              var top := Insert(x, s)[..k];
              if Below(kept[0], x) then multiset(top) == multiset(kept) - multiset{kept[0]} + multiset{x}
              else multiset(top) == multiset(kept)
  {
    assert |multiset(kept)| == |kept|;
    if |s| >= k && (forall y :: y in kept ==> !Below(y, kept[0])) {
      var t := s[..k];
      assert |multiset(t)| == |t|;
      assert kept[0] in multiset(kept);
      assert kept[0] in t;
      assert t[k - 1] in multiset(t);
      assert t[k - 1] in kept;
      assert kept[0] == t[k - 1];
      InsertTake(x, s, k);
      assert t == s[..k - 1] + [s[k - 1]];
      InsertKeepsItems(x, s[..k - 1]);
    }
  }

  /** The parent of a heap slot. */
  function Parent(i: nat): (p: nat)
    requires 0 < i
    ensures p < i
  {
    (i - 1) / 2
  }

  /** Heap order at one slot. */
  predicate Ordered(h: seq<Dated>, i: nat)
    requires 0 < i < |h|
  {
    !Below(h[i], h[Parent(i)])
  }

  ghost predicate IsHeap(h: seq<Dated>) {
    forall i :: 0 < i < |h| ==> Ordered(h, i)
  }

  lemma {:induction false} RootIsLeast(h: seq<Dated>, i: nat)
    requires IsHeap(h) && i < |h|
    ensures !Below(h[i], h[0])
  {
    if i > 0 {
      RootIsLeast(h, Parent(i));
      assert Ordered(h, i);
    }
  }

  function Swap(h: seq<Dated>, i: nat, j: nat): (r: seq<Dated>)
    requires i < |h| && j < |h|
    ensures multiset(r) == multiset(h)
    ensures |r| == |h|
  {
    h[i := h[j]][j := h[i]]
  }

  /** Heap order everywhere but towards the parent of `pos`. */
  ghost predicate RisingAt(h: seq<Dated>, pos: nat) {
    && pos < |h|
    && (forall i :: 0 < i < |h| && i != pos ==> Ordered(h, i))
    && (pos > 0 ==> forall i :: 0 < i < |h| && Parent(i) == pos ==> !Below(h[i], h[Parent(pos)]))
  }

  lemma Rise(h: seq<Dated>, pos: nat)
    requires RisingAt(h, pos) && pos > 0 && Below(h[pos], h[Parent(pos)])
    ensures RisingAt(Swap(h, pos, Parent(pos)), Parent(pos))
  {
    var up := Parent(pos);
    var r := Swap(h, pos, up);
    forall i | 0 < i < |r| && i != up ensures Ordered(r, i) {
      assert i != pos ==> Ordered(h, i);
    }
    if up > 0 {
      assert Ordered(h, up);
      forall i | 0 < i < |r| && Parent(i) == up ensures !Below(r[i], r[Parent(up)]) {
        assert i != pos ==> Ordered(h, i);
      }
    }
  }

  /** Heap order everywhere but towards the children of `pos`. */
  ghost predicate SinkingAt(h: seq<Dated>, pos: nat) {
    && pos < |h|
    && (forall i :: 0 < i < |h| && Parent(i) != pos ==> Ordered(h, i))
    && (pos > 0 ==> forall i :: 0 < i < |h| && Parent(i) == pos ==> !Below(h[i], h[Parent(pos)]))
  }

  lemma Sink(h: seq<Dated>, pos: nat, child: nat)
    requires SinkingAt(h, pos) && 0 < child < |h| && Parent(child) == pos && Below(h[child], h[pos])
    requires forall i :: 0 < i < |h| && Parent(i) == pos ==> !Below(h[i], h[child])
    ensures SinkingAt(Swap(h, pos, child), child)
  {
    var r := Swap(h, pos, child);
    forall i | 0 < i < |r| && Parent(i) != child ensures Ordered(r, i) {
      if Parent(i) != pos { assert Ordered(h, i); }
    }
    forall i | 0 < i < |r| && Parent(i) == child ensures !Below(r[i], r[Parent(child)]) {
      assert Ordered(h, i);
    }
  }

  /** The lesser of the one or two children of `pos`. */
  function LeastChild(h: seq<Dated>, pos: nat): (child: nat)
    requires 2 * pos + 1 < |h|
    ensures 0 < child < |h| && Parent(child) == pos && pos < child
    ensures forall i :: 0 < i < |h| && Parent(i) == pos ==> !Below(h[i], h[child])
  {
    var left := 2 * pos + 1;
    if left + 1 < |h| && Below(h[left + 1], h[left]) then left + 1 else left
  }

  lemma SinkingStops(h: seq<Dated>, pos: nat)
    requires SinkingAt(h, pos)
    requires forall i :: 0 < i < |h| && Parent(i) == pos ==> !Below(h[i], h[pos])
    ensures IsHeap(h)
  {
    forall i | 0 < i < |h| ensures Ordered(h, i) {
    }
  }

  /** The list that `heapq` arranges in place. */
  class Heap {
    var items: seq<Dated>

    ghost predicate Valid()
      reads this
    {
      IsHeap(items)
    }

    constructor ()
      ensures Valid() && items == []
    {
      items := [];
    }

    /** `heappush` */
    method Push(x: Dated)
      requires Valid()
      modifies this
      ensures Valid()
      ensures multiset(items) == multiset(old(items)) + multiset{x}
      ensures |items| == |old(items)| + 1
    {
      ghost var before := items;
      items := items + [x];
      var pos: nat := |items| - 1;
      assert forall i :: 0 < i < pos ==> Ordered(before, i) ==> Ordered(items, i);
      while pos > 0 && Below(items[pos], items[Parent(pos)])
        invariant RisingAt(items, pos)
        invariant |items| == |before| + 1
        invariant multiset(items) == multiset(before) + multiset{x}
        decreases pos
      {
        Rise(items, pos);
        items := Swap(items, pos, Parent(pos));
        pos := Parent(pos);
      }
    }

    /** `heapreplace`: the least item leaves and `x` enters. */
    method Replace(x: Dated)
      requires Valid() && items != []
      modifies this
      ensures Valid()
      ensures multiset(items) == multiset(old(items)) - multiset{old(items)[0]} + multiset{x}
      ensures |items| == |old(items)|
    {
      ghost var before := items;
      items := items[0 := x];
      var pos: nat := 0;
      assert forall i :: 0 < i < |items| && Parent(i) != 0 ==> Ordered(before, i) ==> Ordered(items, i);
      while 2 * pos + 1 < |items|
        invariant SinkingAt(items, pos)
        invariant |items| == |before|
        invariant multiset(items) == multiset(before) - multiset{before[0]} + multiset{x}
        decreases |items| - pos
      {
        var child := LeastChild(items, pos);
        if !Below(items[child], items[pos]) {
          break;
        }
        Sink(items, pos, child);
        items := Swap(items, pos, child);
        pos := child;
      }
      SinkingStops(items, pos);
    }
  }
}
