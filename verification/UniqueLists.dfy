/** Lists that take in an item only when none of their items is the same, for a relation
    that is symmetric but need not be transitive. */
module UniqueLists {

  ghost predicate Symmetric<T(!new)>(same: (T, T) -> bool) {
    forall x, y :: same(x, y) == same(y, x)
  }

  /** No two places hold the same item. */
  ghost predicate Distinct<T>(items: seq<T>, same: (T, T) -> bool) {
    forall i, j :: 0 <= i < |items| && 0 <= j < |items| && i != j ==> !same(items[i], items[j])
  }

  predicate Known<T>(x: T, items: seq<T>, same: (T, T) -> bool) {
    exists i :: 0 <= i < |items| && same(x, items[i])
  }

  /** Append an item unless a same one is there. */
  function Append<T>(items: seq<T>, x: T, same: (T, T) -> bool): seq<T> {
    if Known(x, items, same) then items else items + [x]
  }

  function AppendAll<T>(items: seq<T>, more: seq<T>, same: (T, T) -> bool): (r: seq<T>)
    ensures items <= r && |r| <= |items| + |more|
  {
    if more == [] then items
    else Append(AppendAll(items, more[..|more| - 1], same), more[|more| - 1], same)
  }

  method AppendUnique<T>(items: seq<T>, x: T, same: (T, T) -> bool) returns (r: seq<T>)
    ensures r == Append(items, x, same)
  {
    for i := 0 to |items|
      invariant forall k :: 0 <= k < i ==> !same(x, items[k])
    {
      if same(x, items[i]) {
        return items;
      }
    }
    r := items + [x];
  }

  lemma AppendAllOn<T>(items: seq<T>, more: seq<T>, x: T, same: (T, T) -> bool)
    ensures AppendAll(items, more + [x], same) == Append(AppendAll(items, more, same), x, same)
  {
    assert (more + [x])[..|more|] == more;
  }

  method AppendEach<T>(items: seq<T>, more: seq<T>, same: (T, T) -> bool) returns (r: seq<T>)
    ensures r == AppendAll(items, more, same)
  {
    r := items;
    for i := 0 to |more|
      invariant r == AppendAll(items, more[..i], same)
    {
      r := AppendUnique(r, more[i], same);
      assert more[..i + 1] == more[..i] + [more[i]];
      AppendAllOn(items, more[..i], more[i], same);
    }
    assert more[..|more|] == more;
  }

  /** Unique appending keeps a list distinct, brings in nothing of its own, and leaves every
      item present or with a same item in the list. */
  lemma {:induction false} AppendAllUnique<T(!new)>(items: seq<T>, more: seq<T>, same: (T, T) -> bool)
    requires Symmetric(same) && Distinct(items, same)
    ensures Distinct(AppendAll(items, more, same), same)
    ensures forall x :: x in AppendAll(items, more, same) ==> x in items || x in more
    ensures forall x :: x in more ==>
              x in AppendAll(items, more, same) || Known(x, AppendAll(items, more, same), same)
  {
    if more != [] {
      var front, last := more[..|more| - 1], more[|more| - 1];
      var r := AppendAll(items, front, same);
      AppendAllUnique(items, front, same);
      assert more == front + [last];
      var s := Append(r, last, same);
      assert forall i :: 0 <= i < |r| ==> s[i] == r[i];
      forall x | x in more ensures x in s || Known(x, s, same) {
        if x in front && x !in r {
          var i :| 0 <= i < |r| && same(x, r[i]);
          assert same(x, s[i]);
        }
      }
    }
  }

  /** Of a distinct list everything is taken in exactly when none of it is known already. */
  lemma {:induction false} AppendAllTakesAll<T(!new)>(items: seq<T>, more: seq<T>, same: (T, T) -> bool)
    requires Symmetric(same) && Distinct(more, same)
    ensures |AppendAll(items, more, same)| == |items| + |more| <==>
            forall x :: x in more ==> !Known(x, items, same)
    ensures |AppendAll(items, more, same)| == |items| + |more| ==> AppendAll(items, more, same) == items + more
  {
    if more != [] {
      var front, last := more[..|more| - 1], more[|more| - 1];
      var r := AppendAll(items, front, same);
      AppendAllTakesAll(items, front, same);
      assert more == front + [last];
      if |r| == |items| + |front| {
        assert forall i :: 0 <= i < |r| ==> r[i] == if i < |items| then items[i] else more[i - |items|];
        assert Known(last, r, same) <==> Known(last, items, same) by {
          assert forall j :: 0 <= j < |front| ==> !same(last, more[j]);
          if i :| 0 <= i < |items| && same(last, items[i]) {
            assert same(last, r[i]);
          }
        }
      }
    }
  }

  /** The relation is transitive among these items. */
  ghost predicate Transitive<T(!new)>(items: set<T>, same: (T, T) -> bool) {
    forall x, y, z :: x in items && y in items && z in items && same(x, y) && same(y, z) ==> same(x, z)
  }

  /** The items that are the same as themselves, in order. */
  function Social<T(!new)>(items: seq<T>, same: (T, T) -> bool): (r: seq<T>)
    ensures forall x :: x in r <==> x in items && same(x, x)
  {
    if items == [] then []
    else
      var front, last := Social(items[..|items| - 1], same), items[|items| - 1];
      assert items == items[..|items| - 1] + [last];
      if same(last, last) then front + [last] else front
  }

  /** The items that are not, in order. */
  function Loners<T(!new)>(items: seq<T>, same: (T, T) -> bool): (r: seq<T>)
    ensures forall x :: x in r <==> x in items && !same(x, x)
    ensures |r| + |Social(items, same)| == |items|
  {
    if items == [] then []
    else
      var front, last := Loners(items[..|items| - 1], same), items[|items| - 1];
      assert items == items[..|items| - 1] + [last];
      if same(last, last) then front else front + [last]
  }

  /** A loner of a transitive relation is the same as nothing, so it is always taken in and
      never keeps another item out. */
  lemma {:induction false} LonersApart<T(!new)>(p: seq<T>, items: set<T>, same: (T, T) -> bool)
    requires Symmetric(same) && Transitive(items, same) && forall x :: x in p ==> x in items
    ensures Social(AppendAll([], p, same), same) == AppendAll([], Social(p, same), same)
    ensures Loners(AppendAll([], p, same), same) == Loners(p, same)
    ensures forall x :: x in AppendAll([], p, same) ==> x in items
  {
    if p != [] {
      var front, x := p[..|p| - 1], p[|p| - 1];
      assert p == front + [x];
      LonersApart(front, items, same);
      var r := AppendAll([], front, same);
      assert (r + [x])[..|r|] == r;
      if same(x, x) {
        assert (Social(front, same) + [x])[..|Social(front, same)|] == Social(front, same);
        KnownSocial(x, r, items, same);
      } else {
        LonerUnknown(x, r, items, same);
      }
    }
  }

  lemma LonerUnknown<T(!new)>(x: T, r: seq<T>, items: set<T>, same: (T, T) -> bool)
    requires Symmetric(same) && Transitive(items, same) && x in items && (forall y :: y in r ==> y in items)
    requires !same(x, x)
    ensures !Known(x, r, same)
  {
    forall i | 0 <= i < |r| ensures !same(x, r[i]) {
      assert r[i] in r;
      assert same(x, r[i]) == same(r[i], x);
    }
  }

  lemma KnownSocial<T(!new)>(x: T, r: seq<T>, items: set<T>, same: (T, T) -> bool)
    requires Symmetric(same) && Transitive(items, same) && x in items && (forall y :: y in r ==> y in items)
    ensures Known(x, r, same) <==> Known(x, Social(r, same), same)
  {
    var s := Social(r, same);
    if Known(x, r, same) {
      var i :| 0 <= i < |r| && same(x, r[i]);
      assert r[i] in r && same(r[i], x) && same(r[i], r[i]);
      assert r[i] in s;
      var k :| 0 <= k < |s| && s[k] == r[i];
      assert same(x, s[k]);
    }
    if Known(x, s, same) {
      var k :| 0 <= k < |s| && same(x, s[k]);
      assert s[k] in s;
      var i :| 0 <= i < |r| && r[i] == s[k];
      assert same(x, r[i]);
    }
  }

  /** A distinct list whose items are all known in another list is not longer than it. */
  lemma {:induction false} DistinctFits<T(!new)>(r: seq<T>, t: seq<T>, items: set<T>, same: (T, T) -> bool)
    requires Symmetric(same) && Transitive(items, same) && Distinct(r, same)
    requires (forall x :: x in r ==> x in items && Known(x, t, same)) && (forall x :: x in t ==> x in items)
    ensures |r| <= |t|
    decreases |r|
  {
    if r != [] {
      var rest, x := r[1..], r[0];
      assert x in r;
      var j :| 0 <= j < |t| && same(x, t[j]);
      var others := t[..j] + t[j + 1..];
      forall y | y in rest ensures y in items && Known(y, others, same) {
        var k :| 0 <= k < |rest| && rest[k] == y;
        assert y == r[k + 1] && y in r;
        var i :| 0 <= i < |t| && same(y, t[i]);
        assert !same(r[0], r[k + 1]);
        assert t[i] in t && t[j] in t;
        assert i != j by {
          assert same(t[j], y) == same(y, t[j]);
        }
        assert others[if i < j then i else i - 1] == t[i];
      }
      forall y | y in others ensures y in items {
        assert y in t;
      }
      DistinctFits(rest, others, items, same);
    }
  }

  /** The same for items that are the same as themselves, in any order and multiplicity. */
  lemma SocialCount<T(!new)>(p: seq<T>, q: seq<T>, items: set<T>, same: (T, T) -> bool)
    requires Symmetric(same) && Transitive(items, same) && (forall x :: x in p ==> x in items && same(x, x))
    requires forall x :: x in p <==> x in q
    ensures |AppendAll([], p, same)| == |AppendAll([], q, same)|
  {
    var r, t := AppendAll([], p, same), AppendAll([], q, same);
    AppendAllUnique([], p, same);
    AppendAllUnique([], q, same);
    forall x | x in p ensures Known(x, r, same) && Known(x, t, same) {
      PresentIsKnown(x, r, same);
      PresentIsKnown(x, t, same);
    }
    DistinctFits(r, t, items, same);
    DistinctFits(t, r, items, same);
  }

  lemma PresentIsKnown<T>(x: T, items: seq<T>, same: (T, T) -> bool)
    requires same(x, x) && (x in items || Known(x, items, same))
    ensures Known(x, items, same)
  {
    if x in items {
      var i :| 0 <= i < |items| && items[i] == x;
      assert same(x, items[i]);
    }
  }

  lemma {:induction false} LonerOccurrences<T(!new)>(p: seq<T>, x: T, same: (T, T) -> bool)
    ensures multiset(Loners(p, same))[x] == if same(x, x) then 0 else multiset(p)[x]
  {
    if p != [] {
      LonerOccurrences(p[..|p| - 1], x, same);
      assert p == p[..|p| - 1] + [p[|p| - 1]];
    }
  }

  lemma SameLoners<T(!new)>(p: seq<T>, q: seq<T>, same: (T, T) -> bool)
    requires multiset(p) == multiset(q)
    ensures |Loners(p, same)| == |Loners(q, same)|
  {
    forall x ensures multiset(Loners(p, same))[x] == multiset(Loners(q, same))[x] {
      LonerOccurrences(p, x, same);
      LonerOccurrences(q, x, same);
    }
    assert multiset(Loners(p, same)) == multiset(Loners(q, same));
    assert |multiset(Loners(p, same))| == |Loners(p, same)|;
  }

  lemma SameMembers<T(!new)>(p: seq<T>, q: seq<T>)
    requires multiset(p) == multiset(q)
    ensures forall x :: x in p <==> x in q
  {
    forall x ensures x in p <==> x in q {
      assert x in p <==> x in multiset(p);
      assert x in q <==> x in multiset(q);
    }
  }

  /** Where the relation is transitive, the order of the items does not change how many are
      taken in. */
  lemma OrderDoesNotCount<T(!new)>(p: seq<T>, q: seq<T>, items: set<T>, same: (T, T) -> bool)
    requires Symmetric(same) && Transitive(items, same) && multiset(p) == multiset(q)
    requires forall x :: x in p ==> x in items
    ensures |AppendAll([], p, same)| == |AppendAll([], q, same)|
  {
    SameMembers(p, q);
    LonersApart(p, items, same);
    LonersApart(q, items, same);
    SocialCount(Social(p, same), Social(q, same), items, same);
    SameLoners(p, q, same);
  }

  /** Some item of one list is the same as one of the other. */
  ghost predicate Touch<T>(a: seq<T>, b: seq<T>, same: (T, T) -> bool) {
    exists x, y :: x in a && y in b && same(x, y)
  }

  /** Unique appending of both lists does not change whether they touch. */
  lemma TouchAppended<T(!new)>(a: seq<T>, b: seq<T>, items: set<T>, same: (T, T) -> bool)
    requires Symmetric(same) && Transitive(items, same)
    requires (forall x :: x in a ==> x in items) && (forall x :: x in b ==> x in items)
    ensures Touch(AppendAll([], a, same), AppendAll([], b, same), same) <==> Touch(a, b, same)
  {
    var r, t := AppendAll([], a, same), AppendAll([], b, same);
    AppendAllUnique([], a, same);
    AppendAllUnique([], b, same);
    if Touch(a, b, same) {
      var x, y :| x in a && y in b && same(x, y);
      var left := Representative(x, r, same);
      var right := Representative(y, t, same);
      assert left in items && right in items;
      assert same(left, y);
      assert same(y, left) && same(right, left) && same(left, right);
    }
  }

  /** The item itself, or one of the list that it is the same as. */
  lemma Representative<T(!new)>(x: T, r: seq<T>, same: (T, T) -> bool) returns (y: T)
    requires Symmetric(same) && (x in r || Known(x, r, same))
    ensures y in r && (y == x || (same(x, y) && same(y, x)))
  {
    if x in r {
      y := x;
    } else {
      var i :| 0 <= i < |r| && same(x, r[i]);
      y := r[i];
    }
  }
}
