/** Disks that a single pool's answer does not depend on: spares, and disks of other pools. */
module DriveFilters {
  import opened Json
  import opened DriveIdentity
  import opened DriveReconciliation
  import opened DriveOrder

  // ---------------------------------------------------------------- disks that are skipped

  /** A disk that is skipped adds to neither list, wherever it stands. */
  lemma {:induction false} SkippedAddsNothing(pool: Fields, known: seq<Fields>, a: seq<Fields>, x: Fields,
                                              b: seq<Fields>)
    requires Judge(pool, known, x) == Skipped
    ensures Records(pool, known, a + [x] + b) == Records(pool, known, a + b)
    ensures Undecided(pool, known, a + [x] + b) == Undecided(pool, known, a + b)
    decreases |b|
  {
    if b == [] {
      assert a + [x] + b == a + [x] && a + b == a;
      RecordsOn(pool, known, a, x);
    } else {
      var front, last := b[..|b| - 1], b[|b| - 1];
      assert a + [x] + b == (a + [x] + front) + [last] && a + b == (a + front) + [last];
      SkippedAddsNothing(pool, known, a, x, front);
      AlikeOn(pool, known, a + [x] + front, a + front, last);
    }
  }

  lemma AlikeOn(pool: Fields, known: seq<Fields>, p: seq<Fields>, q: seq<Fields>, last: Fields)
    requires Records(pool, known, p) == Records(pool, known, q)
    requires Undecided(pool, known, p) == Undecided(pool, known, q)
    ensures Records(pool, known, p + [last]) == Records(pool, known, q + [last])
    ensures Undecided(pool, known, p + [last]) == Undecided(pool, known, q + [last])
  {
    RecordsOn(pool, known, p, last);
    RecordsOn(pool, known, q, last);
  }

  lemma {:induction false} ObjectsConcat(a: seq<Json>, b: seq<Json>)
    ensures Objects(a + b) == Objects(a) + Objects(b)
  {
    if b == [] {
      assert a + b == a;
    } else {
      assert (a + b)[..|a + b| - 1] == a + b[..|b| - 1];
      ObjectsConcat(a, b[..|b| - 1]);
    }
  }

  lemma ObjectsAround(a: seq<Json>, x: Fields, b: seq<Json>)
    ensures Objects(a + [Obj(x)] + b) == Objects(a) + [x] + Objects(b)
    ensures Objects(a + b) == Objects(a) + Objects(b)
  {
    assert [Obj(x)][..0] == [];
    assert Objects([Obj(x)]) == Objects([]) + [x];
    ObjectsConcat(a + [Obj(x)], b);
    ObjectsConcat(a, [Obj(x)]);
    ObjectsConcat(a, b);
  }

  /** The answer is made of the two lists. */
  lemma AnswerOfLists(pool: Fields, other: Fields, known: seq<Fields>)
    requires Eligible(pool) && Eligible(other) && DeclaredCount(pool) == DeclaredCount(other)
    requires Records(pool, known, GlobalDisks(pool)) == Records(other, known, GlobalDisks(other))
    requires Undecided(pool, known, GlobalDisks(pool)) == Undecided(other, known, GlobalDisks(other))
    ensures SinglePool(pool, known) == SinglePool(other, known)
  {
    assert Candidates(pool, known, GlobalDisks(pool)) == Candidates(other, known, GlobalDisks(other));
  }

  /** A skipped disk never changes the answer, wherever it stands among the global disks. */
  lemma SkippedNeverCounts(pool: Fields, known: seq<Fields>, a: seq<Json>, x: Fields, b: seq<Json>)
    requires Judge(pool, known, x) == Skipped
    ensures SinglePool(WithDisks(pool, a + [Obj(x)] + b), known) == SinglePool(WithDisks(pool, a + b), known)
  {
    var with, without := WithDisks(pool, a + [Obj(x)] + b), WithDisks(pool, a + b);
    SamePool(pool, a + [Obj(x)] + b);
    SamePool(pool, a + b);
    assert Eligible(with) <==> Eligible(without);
    if Eligible(with) {
      ObjectsAround(a, x, b);
      SkippedAddsNothing(pool, known, Objects(a), x, Objects(b));
      SameLists(pool, with, known, GlobalDisks(with));
      SameLists(pool, without, known, GlobalDisks(without));
      AnswerOfLists(with, without, known);
    }
  }

  /** So a disk that says that it is a spare never changes the answer: neither by a flag nor by a
      word in a status text. */
  lemma SparesNeverCount(pool: Fields, known: seq<Fields>, a: seq<Json>, x: Fields, b: seq<Json>)
    requires SaysSpare(x)
    ensures SinglePool(WithDisks(pool, a + [Obj(x)] + b), known) == SinglePool(WithDisks(pool, a + b), known)
  {
    VerdictMeaning(pool, known, x);
    SkippedNeverCounts(pool, known, a, x, b);
  }

  /** Nor does a disk that names another pool. */
  lemma ForeignDisksNeverCount(pool: Fields, known: seq<Fields>, a: seq<Json>, x: Fields, b: seq<Json>)
    requires NamesOtherPool(pool, x)
    ensures SinglePool(WithDisks(pool, a + [Obj(x)] + b), known) == SinglePool(WithDisks(pool, a + b), known)
  {
    VerdictMeaning(pool, known, x);
    SkippedNeverCounts(pool, known, a, x, b);
  }

  /** Nor does anything on the list that is no record. */
  lemma OnlyRecordsCount(pool: Fields, known: seq<Fields>, a: seq<Json>, x: Json, b: seq<Json>)
    requires !x.Obj?
    ensures SinglePool(WithDisks(pool, a + [x] + b), known) == SinglePool(WithDisks(pool, a + b), known)
  {
    SamePool(pool, a + [x] + b);
    SamePool(pool, a + b);
    assert Objects([x]) == [];
    ObjectsConcat(a + [x], b);
    ObjectsConcat(a, [x]);
    ObjectsConcat(a, b);
    var with, without := WithDisks(pool, a + [x] + b), WithDisks(pool, a + b);
    if Eligible(with) {
      assert GlobalDisks(with) == GlobalDisks(without);
      SameLists(with, without, known, GlobalDisks(with));
      AnswerOfLists(with, without, known);
    }
  }

  /** A hot spare, for one: a lone pool's answer is the same with and without it. */
  lemma HotSpareNeverCounts(pool: Fields, known: seq<Fields>, disks: seq<Json>, id: string)
    ensures SinglePool(WithDisks(pool, disks + [Obj(map["id" := Str(id), "hotSpare" := Bool(true)])]), known)
         == SinglePool(WithDisks(pool, disks), known)
  {
    var x := map["id" := Str(id), "hotSpare" := Bool(true)];
    assert Get(x, "hotSpare") == Bool(true);
    assert FlagSays(x);
    SparesNeverCount(pool, known, disks, x, []);
    assert disks + [Obj(x)] + [] == disks + [Obj(x)] && disks + [] == disks;
  }
}
