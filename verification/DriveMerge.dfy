/** Merging a global drive record with richer local data, recursively. */
module DriveMerge {
  import opened Prelude
  import opened Json

  /** `_is_missing_drive_value` */
  predicate Missing(j: Json) {
    j == Null || j == Str("") || j == List([]) || j == Obj(map[])
  }

  /** What the merge of two objects holds under a key that one of them has. */
  function Field(g: Json, l: Json, key: string): Json
    requires g.Obj? && l.Obj? && (key in g.fields || key in l.fields)
    decreases l, 0
  {
    if key !in l.fields then g.fields[key]
    else
      var current, value := Get(g.fields, key), l.fields[key];
      if current.Obj? && value.Obj? then Merge(current, value)
      else if Missing(current) && !Missing(value) then value
      else if key !in g.fields then value
      else g.fields[key]
  }

  /** `_merge_drive_entries` of a global and a local record */
  function Merge(g: Json, l: Json): (r: Json)
    requires g.Obj? && l.Obj?
    ensures r.Obj? && r.fields.Keys == g.fields.Keys + l.fields.Keys
    decreases l, 1
  {
    Obj(map key | key in g.fields.Keys + l.fields.Keys :: Field(g, l, key))
  }

  /** The loop of the source, which fills a copy of the global record. */
  method MergeEntries(g: Json, l: Json) returns (r: Json)
    requires g.Obj? && l.Obj?
    ensures r == Merge(g, l)
    decreases l
  {
    var merged := g.fields;
    var todo := l.fields.Keys;
    while todo != {}
      invariant todo <= l.fields.Keys
      invariant merged.Keys == g.fields.Keys + (l.fields.Keys - todo)
      invariant forall key :: key in merged ==>
                  merged[key] == if key in todo || key !in l.fields then g.fields[key] else Field(g, l, key)
      decreases todo
    {
      var key :| key in todo;
      var current, value := Get(merged, key), l.fields[key];
      assert current == Get(g.fields, key);
      if current.Obj? && value.Obj? {
        var inner := MergeEntries(current, value);
        merged := merged[key := inner];
      } else if Missing(current) && !Missing(value) {
        merged := merged[key := value];
      } else if key !in merged {
        merged := merged[key := value];
      }
      todo := todo - {key};
    }
    r := Obj(merged);
  }

  /** The value at a path of keys. */
  function At(j: Json, path: seq<string>): Option<Json> {
    if path == [] then Some(j)
    else if j.Obj? && path[0] in j.fields then At(j.fields[path[0]], path[1..])
    else None
  }

  /** Nothing useful stands at the path or in its way. */
  predicate Vacant(j: Json, path: seq<string>) {
    if path == [] || !j.Obj? then Missing(j)
    else path[0] !in j.fields || Vacant(j.fields[path[0]], path[1..])
  }

  /** No useful scalar or list of the global record is lost, at any depth. */
  lemma {:induction false} MergeKeepsGlobal(g: Json, l: Json, path: seq<string>, v: Json)
    requires g.Obj? && l.Obj? && path != [] && At(g, path) == Some(v) && !Missing(v) && !v.Obj?
    ensures At(Merge(g, l), path) == Some(v)
    decreases path
  {
    var key := path[0];
    assert Merge(g, l).fields[key] == Field(g, l, key);
    if key in l.fields && g.fields[key].Obj? && l.fields[key].Obj? && path[1..] != [] {
      MergeKeepsGlobal(g.fields[key], l.fields[key], path[1..], v);
    }
  }

  /** Every useful local value fills a vacant place, at any depth. */
  lemma {:induction false} MergeFillsVacant(g: Json, l: Json, path: seq<string>, v: Json)
    requires g.Obj? && l.Obj? && path != [] && At(l, path) == Some(v) && !Missing(v) && Vacant(g, path)
    ensures At(Merge(g, l), path) == Some(v)
    decreases path
  {
    var key := path[0];
    assert Merge(g, l).fields[key] == Field(g, l, key);
    if key in g.fields && g.fields[key].Obj? && l.fields[key].Obj? {
      if path[1..] == [] {
        MergeIntoEmpty(l.fields[key]);
      } else {
        MergeFillsVacant(g.fields[key], l.fields[key], path[1..], v);
      }
    }
  }

  lemma MergeIntoEmpty(l: Json)
    requires l.Obj?
    ensures Merge(Obj(map[]), l) == l
  {
    var r := Merge(Obj(map[]), l);
    forall key | key in l.fields ensures r.fields[key] == l.fields[key] {
      assert r.fields[key] == Field(Obj(map[]), l, key);
    }
    assert r.fields == l.fields;
  }

  /** The merge invents nothing: what is not an object comes from one of the two records. */
  lemma {:induction false} MergeInventsNothing(g: Json, l: Json, path: seq<string>, v: Json)
    requires g.Obj? && l.Obj? && path != [] && At(Merge(g, l), path) == Some(v) && !v.Obj?
    ensures At(g, path) == Some(v) || At(l, path) == Some(v)
    decreases path
  {
    var key := path[0];
    assert Merge(g, l).fields[key] == Field(g, l, key);
    if key in g.fields && key in l.fields && g.fields[key].Obj? && l.fields[key].Obj? && path[1..] != [] {
      MergeInventsNothing(g.fields[key], l.fields[key], path[1..], v);
    }
  }

  /** Merging a record with itself changes nothing. */
  lemma {:induction false} MergeSelf(g: Json)
    requires g.Obj?
    ensures Merge(g, g) == g
    decreases g
  {
    var r := Merge(g, g);
    forall key | key in g.fields ensures r.fields[key] == g.fields[key] {
      assert r.fields[key] == Field(g, g, key);
      if g.fields[key].Obj? {
        MergeSelf(g.fields[key]);
      }
    }
    assert r.fields == g.fields;
  }

  /** Merging the same local record again changes nothing. */
  lemma {:induction false} MergeTwice(g: Json, l: Json)
    requires g.Obj? && l.Obj?
    ensures Merge(Merge(g, l), l) == Merge(g, l)
    decreases l
  {
    var m := Merge(g, l);
    var r := Merge(m, l);
    forall key | key in m.fields ensures r.fields[key] == m.fields[key] {
      assert r.fields[key] == Field(m, l, key);
      assert m.fields[key] == Field(g, l, key);
      if key in l.fields && l.fields[key].Obj? {
        if key in g.fields && g.fields[key].Obj? {
          MergeTwice(g.fields[key], l.fields[key]);
        } else {
          MergeSelf(l.fields[key]);
        }
      }
    }
    assert r.fields == m.fields;
  }
}
