/** Snapshot targets as the settings list advertises them, and their stable keys. */
module TargetKeys {
  import opened Prelude

  /** One entry of the settings list: anything that is not a mapping, or a target
      with its normalised type and its stripped id. */
  datatype Target = NotAMapping | Target(kind: string, id: string)

  /** The stable key of a target; "" when type or id is missing. */
  function TargetKey(t: Target): string {
    if t.NotAMapping? || t.kind == "" || t.id == "" then "" else t.kind + "_" + t.id
  }

  /** The keys the settings list advertises. */
  function ActiveKeys(settings: seq<Target>): set<string> {
    set i | 0 <= i < |settings| && TargetKey(settings[i]) != "" :: TargetKey(settings[i])
  }

  /** The target stands on the list under the key, and no later one does. */
  ghost predicate IsLastWith(settings: seq<Target>, key: string, t: Target) {
    exists i :: 0 <= i < |settings| && settings[i] == t && TargetKey(settings[i]) == key
        && forall j :: i < j < |settings| ==> TargetKey(settings[j]) != key
  }

  lemma LastWithOn(front: seq<Target>, last: Target, key: string, t: Target)
    requires IsLastWith(front, key, t) && TargetKey(last) != key
    ensures IsLastWith(front + [last], key, t)
  {
    var settings := front + [last];
    var i :| 0 <= i < |front| && front[i] == t && TargetKey(front[i]) == key
        && forall j :: i < j < |front| ==> TargetKey(front[j]) != key;
    assert settings[i] == t;
  }

  /** The target stored under a key: of several with one key the last is kept. */
  function TargetFor(settings: seq<Target>, key: string): (r: Option<Target>)
    ensures r.Some? <==> key in ActiveKeys(settings)
    ensures r.Some? ==> r.value.Target? && IsLastWith(settings, key, r.value)
  {
    if settings == [] then None
    else
      var last := settings[|settings| - 1];
      if key != "" && TargetKey(last) == key then Some(last)
      else
        var r := TargetFor(settings[..|settings| - 1], key);
        assert forall i :: 0 <= i < |settings| - 1 ==> settings[..|settings| - 1][i] == settings[i];
        assert r.Some? ==> IsLastWith(settings, key, r.value) by {
          if r.Some? {
            LastWithOn(settings[..|settings| - 1], last, key, r.value);
            assert settings == settings[..|settings| - 1] + [last];
          }
        }
        r
  }

  /** Python's order on `str`: lexicographic on code points. */
  predicate Leq(a: string, b: string) {
    a == "" || (b != "" && (a[0] < b[0] || (a[0] == b[0] && Leq(a[1..], b[1..]))))
  }

  lemma LeqReflexive(a: string)
    ensures Leq(a, a)
  {
  }

  lemma LeqTotal(a: string, b: string)
    ensures Leq(a, b) || Leq(b, a)
  {
  }

  lemma {:induction false} LeqAntisymmetric(a: string, b: string)
    requires Leq(a, b) && Leq(b, a)
    ensures a == b
  {
    if a != "" && b != "" {
      LeqAntisymmetric(a[1..], b[1..]);
      assert a == [a[0]] + a[1..] && b == [b[0]] + b[1..];
    }
  }

  lemma {:induction false} LeqTransitive(a: string, b: string, c: string)
    requires Leq(a, b) && Leq(b, c)
    ensures Leq(a, c)
  {
    if a != "" && b != "" && c != "" && a[0] == b[0] == c[0] {
      LeqTransitive(a[1..], b[1..], c[1..]);
    }
  }

  ghost predicate IsLeast(m: string, s: set<string>) {
    m in s && forall k :: k in s ==> Leq(m, k)
  }

  lemma LeastExists(s: set<string>) returns (m: string)
    requires s != {}
    ensures IsLeast(m, s)
  {
    m :| m in s;
    LeqReflexive(m);
    if s != {m} {
      var n := LeastExists(s - {m});
      LeqTotal(m, n);
      if Leq(n, m) {
        m := n;
      } else {
        forall k | k in s ensures Leq(m, k) {
          if k != m { LeqTransitive(m, n, k); }
        }
      }
    }
  }

  ghost predicate Ascending(q: seq<string>) {
    forall i, j :: 0 <= i < j < |q| ==> Leq(q[i], q[j])
  }

  lemma LeastIsUnique(s: set<string>)
    requires s != {}
    ensures exists m :: m in s && forall k :: k in s ==> Leq(m, k)
    ensures forall m, n :: m in s && n in s && Leq(m, n) && Leq(n, m) ==> m == n
  {
    var m := LeastExists(s);
    forall m, n | m in s && n in s && Leq(m, n) && Leq(n, m) ensures m == n {
      LeqAntisymmetric(m, n);
    }
  }

  /** `sorted(keys)`: every key once, in ascending order. */
  function SortedKeys(s: set<string>): (r: seq<string>)
    ensures forall k :: k in r <==> k in s
    ensures NoDup(r) && Ascending(r)
    ensures |r| == |s|
  {
    if s == {} then []
    else
      LeastIsUnique(s);
      var m :| m in s && forall k :: k in s ==> Leq(m, k);
      [m] + SortedKeys(s - {m})
  }
}
