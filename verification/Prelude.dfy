/** Option values and a few facts about sequences without repetition. */
module Prelude {

  datatype Option<+T> = None | Some(value: T)

  /** No value occurs twice. */
  ghost predicate NoDup<T>(q: seq<T>) {
    forall i, j :: 0 <= i < j < |q| ==> q[i] != q[j]
  }

  function ToSet<T>(q: seq<T>): set<T> {
    set x | x in q
  }

  /** The members of `q` that lie in `keep`, in their old order. */
  function Keep<T(==,!new)>(q: seq<T>, keep: set<T>): (r: seq<T>)
    ensures forall x :: x in r <==> x in q && x in keep
    ensures |r| <= |q|
  {
    if q == [] then []
    else if q[0] in keep then [q[0]] + Keep(q[1..], keep)
    else Keep(q[1..], keep)
  }

  /** `q` without `x`, the rest in its old order. */
  function Without<T(==,!new)>(q: seq<T>, x: T): (r: seq<T>)
    ensures forall y :: y in r <==> y in q && y != x
  {
    if q == [] then []
    else if q[0] == x then Without(q[1..], x)
    else [q[0]] + Without(q[1..], x)
  }

  /** Insert the keys of `more` into an insertion-ordered dictionary: keys already
      present keep their place, the others go to the back in order. */
  function AppendMissing<T(==,!new)>(q: seq<T>, more: seq<T>): (r: seq<T>)
    ensures forall x :: x in r <==> x in q || x in more
    ensures q <= r
    decreases |more|
  {
    if more == [] then q
    else if more[0] in q then AppendMissing(q, more[1..])
    else AppendMissing(q + [more[0]], more[1..])
  }

  lemma KeepNoDup<T(!new)>(q: seq<T>, keep: set<T>)
    requires NoDup(q)
    ensures NoDup(Keep(q, keep))
  {
    if q != [] {
      KeepNoDup(q[1..], keep);
    }
  }

  /** Dropping entries never moves a survivor towards the back. */
  lemma KeepIndex<T(!new)>(q: seq<T>, keep: set<T>, p: nat) returns (j: nat)
    requires p < |q| && q[p] in keep
    ensures j <= p && j < |Keep(q, keep)| && Keep(q, keep)[j] == q[p]
  {
    if p == 0 {
      j := 0;
    } else {
      j := KeepIndex(q[1..], keep, p - 1);
      if q[0] in keep {
        j := j + 1;
      }
    }
  }

  lemma AppendMissingNoDup<T(!new)>(q: seq<T>, more: seq<T>)
    requires NoDup(q)
    ensures NoDup(AppendMissing(q, more))
    decreases |more|
  {
    if more != [] {
      AppendMissingNoDup(if more[0] in q then q else q + [more[0]], more[1..]);
    }
  }

  lemma WithoutHead<T(!new)>(q: seq<T>)
    requires NoDup(q) && q != []
    ensures Without(q, q[0]) == q[1..]
  {
    assert q[0] !in q[1..];
    WithoutAbsent(q[1..], q[0]);
  }

  lemma WithoutAbsent<T(!new)>(q: seq<T>, x: T)
    requires x !in q
    ensures Without(q, x) == q
  {
    if q != [] {
      assert q == [q[0]] + q[1..];
      WithoutAbsent(q[1..], x);
    }
  }

  /** A list without repetition is no longer than a set that holds its members. */
  lemma NoDupLength<T(!new)>(q: seq<T>, s: set<T>)
    requires NoDup(q) && forall x :: x in q ==> x in s
    ensures |q| <= |s|
  {
    if q != [] {
      assert forall x :: x in q[1..] ==> x in s - {q[0]} by {
        assert q[0] !in q[1..];
        assert forall x :: x in q[1..] ==> x in q;
      }
      NoDupLength(q[1..], s - {q[0]});
    }
  }

  /** The present values, in order. */
  function Present<T(==,!new)>(q: seq<Option<T>>): (r: seq<T>)
    ensures |r| <= |q|
    ensures forall x :: x in r <==> Some(x) in q
  {
    if q == [] then []
    else
      var front, last := Present(q[..|q| - 1]), q[|q| - 1];
      assert q == q[..|q| - 1] + [last];
      match last
      case None => front
      case Some(x) => front + [x]
  }

  predicate AllPresent<T(==)>(q: seq<Option<T>>) {
    None !in q
  }

  /** Nothing is dropped exactly when everything is present, and then place by place. */
  lemma {:induction false} NothingDropped<T(!new)>(q: seq<Option<T>>)
    ensures |Present(q)| == |q| <==> AllPresent(q)
    ensures AllPresent(q) ==> forall i :: 0 <= i < |q| ==> q[i] == Some(Present(q)[i])
  {
    if q != [] {
      var front, last := q[..|q| - 1], q[|q| - 1];
      NothingDropped(front);
      assert q == front + [last];
    }
  }

  lemma PresentOn<T(!new)>(q: seq<Option<T>>, n: nat)
    requires n < |q|
    ensures Present(q[..n + 1]) == match q[n] case None => Present(q[..n]) case Some(x) => Present(q[..n]) + [x]
  {
    assert q[..n + 1][..n] == q[..n];
  }
}
