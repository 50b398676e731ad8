/** Whether the order of the global disks decides the answer for a single pool. */
module DriveOrder {
  import opened Prelude
  import opened Json
  import opened UniqueLists
  import opened DriveIdentity
  import opened DriveReconciliation

  // ---------------------------------------------------------------- another order of the disks

  const DISKS := "__global_disks"

  /** The pool with another list of global disks. */
  function WithDisks(pool: Fields, disks: seq<Json>): Fields {
    pool[DISKS := List(disks)]
  }

  lemma TokensApart(fields: Fields, key: string, value: Json, keys: seq<string>)
    requires key !in keys
    ensures Tokens(fields[key := value], keys) == Tokens(fields, keys)
  {
    assert forall k :: k in keys ==> Get(fields[key := value], k) == Get(fields, k);
  }

  lemma {:induction false} NumberApart(fields: Fields, key: string, value: Json, keys: seq<string>)
    requires key !in keys
    ensures FirstNumber(fields[key := value], keys) == FirstNumber(fields, keys)
  {
    if keys != [] {
      assert keys[0] in keys;
      NumberApart(fields, key, value, keys[1..]);
    }
  }

  lemma NotAReference(group: ReferenceGroup)
    ensures DISKS !in PoolKeys(group) && DISKS !in DRIVE_COUNT_KEYS
  {
    assert DISKS[0] == '_';
    forall key | key in PoolKeys(group) ensures key[..1] != "_" {
    }
    forall key | key in DRIVE_COUNT_KEYS ensures key[..1] != "_" {
    }
    assert DISKS[..1] == "_";
  }

  /** Only the list of disks is read under its key. */
  lemma SamePool(pool: Fields, disks: seq<Json>)
    ensures var other := WithDisks(pool, disks);
      && (forall group :: PoolReferences(other, group) == PoolReferences(pool, group))
      && DeclaredCount(other) == DeclaredCount(pool)
      && Get(other, "__pool_count") == Get(pool, "__pool_count") && Get(other, DISKS) == List(disks)
  {
    forall group ensures PoolReferences(WithDisks(pool, disks), group) == PoolReferences(pool, group) {
      NotAReference(group);
      TokensApart(pool, DISKS, List(disks), PoolKeys(group));
    }
    NotAReference(Name);
    NumberApart(pool, DISKS, List(disks), DRIVE_COUNT_KEYS);
    assert |"__pool_count"| == 12 && |DISKS| == 14;
  }

  lemma SameJudge(pool: Fields, other: Fields, known: seq<Fields>, drive: Fields)
    requires forall group :: PoolReferences(other, group) == PoolReferences(pool, group)
    ensures Judge(other, known, drive) == Judge(pool, known, drive)
  {
    assert Foreign(other, drive) == Foreign(pool, drive);
    assert References(other, drive) == References(pool, drive);
    assert Comparable(other, drive) == Comparable(pool, drive);
  }

  /** The records of the disks that are members, and the candidates, before duplicates go. */
  function Records(pool: Fields, known: seq<Fields>, drives: seq<Fields>): seq<Fields> {
    MemberRecords(Verdicts(pool, known, drives))
  }

  function Undecided(pool: Fields, known: seq<Fields>, drives: seq<Fields>): seq<Fields> {
    CandidateDrives(drives, Verdicts(pool, known, drives))
  }

  lemma SameLists(pool: Fields, other: Fields, known: seq<Fields>, drives: seq<Fields>)
    requires forall group :: PoolReferences(other, group) == PoolReferences(pool, group)
    ensures Verdicts(other, known, drives) == Verdicts(pool, known, drives)
  {
    forall i | 0 <= i < |drives| ensures Judge(other, known, drives[i]) == Judge(pool, known, drives[i]) {
      SameJudge(pool, other, known, drives[i]);
    }
  }

  // ---------------------------------------------------------------- permutations

  lemma RecordsOn(pool: Fields, known: seq<Fields>, drives: seq<Fields>, x: Fields)
    ensures Records(pool, known, drives + [x])
         == match Judge(pool, known, x)
            case Member(record) => Records(pool, known, drives) + [record]
            case _ => Records(pool, known, drives)
    ensures Undecided(pool, known, drives + [x])
         == if Judge(pool, known, x) == Candidate then Undecided(pool, known, drives) + [x]
            else Undecided(pool, known, drives)
  {
    var all, before := drives + [x], Verdicts(pool, known, drives);
    assert all[..|drives|] == drives;
    assert Verdicts(pool, known, all) == before + [Judge(pool, known, x)];
    assert (before + [Judge(pool, known, x)])[..|before|] == before;
  }

  /** What one disk adds to either list. */
  function RecordOf(verdict: Verdict): multiset<Fields> {
    match verdict
    case Member(record) => multiset{record}
    case _ => multiset{}
  }

  function CandidateOf(verdict: Verdict, drive: Fields): multiset<Fields> {
    if verdict == Candidate then multiset{drive} else multiset{}
  }

  /** What both lists hold, each disk's share counted. */
  lemma CountsOn(pool: Fields, known: seq<Fields>, drives: seq<Fields>, x: Fields)
    ensures multiset(Records(pool, known, drives + [x]))
         == multiset(Records(pool, known, drives)) + RecordOf(Judge(pool, known, x))
    ensures multiset(Undecided(pool, known, drives + [x]))
         == multiset(Undecided(pool, known, drives)) + CandidateOf(Judge(pool, known, x), x)
  {
    RecordsOn(pool, known, drives, x);
  }

  /** A disk adds the same to the lists wherever it stands. */
  lemma {:induction false} CountsAnywhere(pool: Fields, known: seq<Fields>, a: seq<Fields>, x: Fields, b: seq<Fields>)
    ensures multiset(Records(pool, known, a + [x] + b))
         == multiset(Records(pool, known, a + b)) + RecordOf(Judge(pool, known, x))
    ensures multiset(Undecided(pool, known, a + [x] + b))
         == multiset(Undecided(pool, known, a + b)) + CandidateOf(Judge(pool, known, x), x)
    decreases |b|
  {
    if b == [] {
      assert a + [x] + b == a + [x] && a + b == a;
      CountsOn(pool, known, a, x);
    } else {
      var front, last := b[..|b| - 1], b[|b| - 1];
      assert a + [x] + b == (a + [x] + front) + [last] && a + b == (a + front) + [last];
      CountsAnywhere(pool, known, a, x, front);
      CountsOn(pool, known, a + [x] + front, last);
      CountsOn(pool, known, a + front, last);
      SwapAdded(multiset(Records(pool, known, a + front)), RecordOf(Judge(pool, known, x)),
                RecordOf(Judge(pool, known, last)));
      SwapAdded(multiset(Undecided(pool, known, a + front)), CandidateOf(Judge(pool, known, x), x),
                CandidateOf(Judge(pool, known, last), last));
    }
  }

  lemma SwapAdded(m: multiset<Fields>, a: multiset<Fields>, b: multiset<Fields>)
    ensures m + a + b == m + b + a
  {
  }

  lemma {:induction false} RecordsPermute(pool: Fields, known: seq<Fields>, p: seq<Fields>, q: seq<Fields>)
    requires multiset(p) == multiset(q)
    ensures multiset(Records(pool, known, p)) == multiset(Records(pool, known, q))
    ensures multiset(Undecided(pool, known, p)) == multiset(Undecided(pool, known, q))
    decreases |p|
  {
    if p == [] {
      assert |multiset(q)| == 0;
      assert q == [];
    } else {
      var front, x := p[..|p| - 1], p[|p| - 1];
      assert p == front + [x];
      var a, b := Removed(front, x, q);
      RecordsPermute(pool, known, front, a + b);
      CountsAnywhere(pool, known, a, x, b);
      CountsOn(pool, known, front, x);
    }
  }

  /** An item of a permutation can be taken out. */
  lemma Removed(front: seq<Fields>, x: Fields, q: seq<Fields>) returns (a: seq<Fields>, b: seq<Fields>)
    requires multiset(front + [x]) == multiset(q)
    ensures q == a + [x] + b && multiset(front) == multiset(a + b)
  {
    assert x in multiset(front + [x]);
    assert x in q;
    var i :| 0 <= i < |q| && q[i] == x;
    a, b := q[..i], q[i + 1..];
    assert q == a + [x] + b;
    assert multiset(front) == multiset(front + [x]) - multiset{x};
    assert multiset(a + b) == multiset(q) - multiset{x};
  }

  // ---------------------------------------------------------------- the answer

  /** All records that the disks stand for, members and candidates. */
  function AllRecords(pool: Fields, known: seq<Fields>, drives: seq<Fields>): set<Fields> {
    (set r | r in Records(pool, known, drives)) + (set r | r in Undecided(pool, known, drives))
  }

  /** Whether there is an answer, in numbers. */
  lemma AnswerInNumbers(pool: Fields, known: seq<Fields>)
    requires Eligible(pool)
    ensures var drives, count := GlobalDisks(pool), DeclaredCount(pool).value;
      var members, candidates := Members(pool, known, drives), Candidates(pool, known, drives);
      && |SinglePool(pool, known)| == (if SinglePool(pool, known) == [] then 0 else count)
      && (SinglePool(pool, known) != [] <==>
            || |members| == count
            || (|candidates| > 0 && |members| + |candidates| == count && !Touch(candidates, members, Matches)))
  {
    SinglePoolIsSound(pool, known);
    SinglePoolAnswers(pool, known);
    TouchKnown(Candidates(pool, known, GlobalDisks(pool)), Members(pool, known, GlobalDisks(pool)));
  }

  lemma TouchKnown(a: seq<Fields>, b: seq<Fields>)
    ensures Touch(a, b, Matches) <==> exists x :: x in a && Known(x, b, Matches)
  {
    if Touch(a, b, Matches) {
      var x, y :| x in a && y in b && Matches(x, y);
      var i :| 0 <= i < |b| && b[i] == y;
      assert Known(x, b, Matches);
    }
    if x :| x in a && Known(x, b, Matches) {
      var i :| 0 <= i < |b| && Matches(x, b[i]);
      assert b[i] in b;
    }
  }

  /** Where identity is transitive among the records that the disks stand for, every order of the
      same disks gives an answer or none alike, and of equal length. */
  lemma OrderDoesNotDecide(pool: Fields, known: seq<Fields>, disks: seq<Json>)
    requires Eligible(pool) && multiset(Objects(disks)) == multiset(GlobalDisks(pool))
    requires Transitive(AllRecords(pool, known, GlobalDisks(pool)), Matches)
    ensures |SinglePool(WithDisks(pool, disks), known)| == |SinglePool(pool, known)|
    ensures SinglePool(WithDisks(pool, disks), known) == [] <==> SinglePool(pool, known) == []
  {
    var other, p, q := WithDisks(pool, disks), GlobalDisks(pool), Objects(disks);
    SamePool(pool, disks);
    SameLists(pool, other, known, q);
    RecordsPermute(pool, known, p, q);
    MatchesIsSymmetricEverywhere();
    ListsAlike(Records(pool, known, p), Records(pool, known, q), Undecided(pool, known, p), Undecided(pool, known, q),
               AllRecords(pool, known, p));
    AnswerInNumbers(pool, known);
    AnswerInNumbers(other, known);
  }

  lemma ListsAlike(a: seq<Fields>, b: seq<Fields>, c: seq<Fields>, d: seq<Fields>, items: set<Fields>)
    requires multiset(a) == multiset(b) && multiset(c) == multiset(d)
    requires Symmetric(Matches) && Transitive(items, Matches) && forall x :: x in a || x in c ==> x in items
    ensures |AppendAll([], a, Matches)| == |AppendAll([], b, Matches)|
    ensures |AppendAll([], c, Matches)| == |AppendAll([], d, Matches)|
    ensures Touch(AppendAll([], c, Matches), AppendAll([], a, Matches), Matches)
       <==> Touch(AppendAll([], d, Matches), AppendAll([], b, Matches), Matches)
  {
    OrderDoesNotCount(a, b, items, Matches);
    OrderDoesNotCount(c, d, items, Matches);
    SameMembers(a, b);
    SameMembers(c, d);
    TouchAppended(c, a, items, Matches);
    TouchAppended(d, b, items, Matches);
    assert Touch(c, a, Matches) <==> Touch(d, b, Matches);
  }

  // ---------------------------------------------------------------- a pool whose order decides

  /** A lone pool of two drives. */
  function TwoDrives(disks: seq<Json>): Fields {
    map["__pool_count" := Num(1), "driveCount" := Num(2), DISKS := List(disks)]
  }

  /** The disk carries nothing but an id and a uuid, each a text. */
  predicate Bare(drive: Fields) {
    forall key :: key in drive ==> (key == "id" || key == "uuid") && drive[key].Str?
  }

  lemma NoTokens(fields: Fields, keys: seq<string>)
    requires forall key :: key in keys ==> key !in fields
    ensures Tokens(fields, keys) == {}
  {
  }

  lemma OtherKeys(keys: seq<string>)
    requires forall i :: 0 <= i < |keys| ==> |keys[i]| > 4 || (|keys[i]| == 4 && keys[i][0] != 'u')
    ensures "id" !in keys && "uuid" !in keys
  {
    assert |"id"| == 2 && |"uuid"| == 4 && "uuid"[0] == 'u';
  }

  lemma DriveKeysApart(group: ReferenceGroup)
    ensures "id" !in DriveKeys(group) && "uuid" !in DriveKeys(group)
    ensures "id" !in STATUS_HINT_KEYS && "uuid" !in STATUS_HINT_KEYS
  {
    OtherKeys(DriveKeys(group));
    OtherKeys(STATUS_HINT_KEYS);
  }

  /** Such a disk says nothing of its pool and looks like no spare, so it is a candidate. */
  lemma BareIsCandidate(pool: Fields, drive: Fields)
    requires Bare(drive)
    ensures Judge(pool, [], drive) == Candidate
  {
    assert |"pool"| == 4 && "pool"[0] == 'p' && "uuid"[0] == 'u' && |"id"| == 2;
    assert Get(drive, "pool") == Null;
    forall group ensures DriveReferences(drive, group) == {} {
      DriveKeysApart(group);
      NoTokens(drive, DriveKeys(group));
    }
    DriveKeysApart(Name);
    NoTokens(drive, STATUS_HINT_KEYS);
    assert !Spare(drive) && !Foreign(pool, drive);
    VerdictMeaning(pool, [], drive);
  }

  lemma {:induction false} BareLists(pool: Fields, drives: seq<Fields>)
    requires forall drive :: drive in drives ==> Bare(drive)
    ensures Records(pool, [], drives) == [] && Undecided(pool, [], drives) == drives
  {
    if drives != [] {
      var front, last := drives[..|drives| - 1], drives[|drives| - 1];
      BareLists(pool, front);
      assert drives == front + [last];
      RecordsOn(pool, [], front, last);
      BareIsCandidate(pool, last);
    }
  }

  lemma TwoDrivesEligible(disks: seq<Json>)
    ensures Eligible(TwoDrives(disks)) && DeclaredCount(TwoDrives(disks)) == Some(2)
    ensures GlobalDisks(TwoDrives(disks)) == Objects(disks)
  {
    var pool := TwoDrives(disks);
    assert |"__pool_count"| == 12 && |"driveCount"| == 10 && |DISKS| == 14;
    assert Get(pool, "driveCount") == Num(2) && Get(pool, "__pool_count") == Num(1) && Get(pool, DISKS) == List(disks);
    assert DRIVE_COUNT_KEYS[0] == "driveCount";
  }

  lemma ThreeObjects(a: Fields, b: Fields, c: Fields)
    ensures Objects([Obj(a), Obj(b), Obj(c)]) == [a, b, c]
  {
    var items := [Obj(a), Obj(b), Obj(c)];
    assert items[..2] == [Obj(a), Obj(b)] && items[..2][..1] == [Obj(a)] && items[..1][..0] == [];
    assert Objects([Obj(a)]) == [a];
    assert Objects([Obj(a), Obj(b)]) == [a, b];
  }

  /** The answer for three bare disks, by what unique appending makes of them. */
  lemma BareAnswer(a: Fields, b: Fields, c: Fields)
    requires Bare(a) && Bare(b) && Bare(c)
    ensures var kept := AppendAll([], [a, b, c], Matches);
      SinglePool(TwoDrives([Obj(a), Obj(b), Obj(c)]), []) == if |kept| == 2 then kept else []
  {
    var pool := TwoDrives([Obj(a), Obj(b), Obj(c)]);
    ThreeObjects(a, b, c);
    TwoDrivesEligible([Obj(a), Obj(b), Obj(c)]);
    BareLists(pool, [a, b, c]);
    SinglePoolAnswers(pool, []);
    var kept := AppendAll([], [a, b, c], Matches);
    assert Members(pool, [], [a, b, c]) == [] && Candidates(pool, [], [a, b, c]) == kept;
    assert [] + kept == kept;
  }

  lemma BareDisks()
    ensures Bare(FIRST) && Bare(LINK) && Bare(LAST)
  {
  }

  /** The order decides: the same three disks give the pool its two drives in one order and
      nothing in another. */
  lemma OrderDecidesAnswer(disks: seq<Json>, others: seq<Json>)
    requires disks == [Obj(FIRST), Obj(LINK), Obj(LAST)] && others == [Obj(LINK), Obj(FIRST), Obj(LAST)]
    ensures multiset(disks) == multiset(others)
    ensures SinglePool(TwoDrives(disks), []) == [FIRST, LAST]
    ensures SinglePool(TwoDrives(others), []) == []
  {
    OrderDecides();
    BareDisks();
    EitherWay(FIRST, LINK, LAST);
    SwapFirst(Obj(FIRST), Obj(LINK), Obj(LAST));
  }

  lemma SwapFirst(a: Json, b: Json, c: Json)
    ensures multiset([a, b, c]) == multiset([b, a, c])
  {
  }

  lemma EitherWay(a: Fields, b: Fields, c: Fields)
    requires Bare(a) && Bare(b) && Bare(c)
    requires AppendAll([], [a, b, c], Matches) == [a, c] && AppendAll([], [b, a, c], Matches) == [b]
    ensures SinglePool(TwoDrives([Obj(a), Obj(b), Obj(c)]), []) == [a, c]
    ensures SinglePool(TwoDrives([Obj(b), Obj(a), Obj(c)]), []) == []
  {
    BareAnswer(a, b, c);
    BareAnswer(b, a, c);
  }
}
