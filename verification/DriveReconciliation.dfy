/** Choosing a pool's drives among the global disks when the payload has a single pool. */
module DriveReconciliation {
  import opened Prelude
  import opened Json
  import opened UniqueLists
  import opened DriveIdentity
  import D = DriveMerge
  import T = Text

  // ---------------------------------------------------------------- records

  /** `_merge_drive_entries` on records */
  function Merged(drive: Fields, known: Fields): Fields {
    D.Merge(Obj(drive), Obj(known)).fields
  }

  /** `_matching_known_drive`: the first known drive that matches. */
  function MatchingKnown(drive: Fields, known: seq<Fields>): Option<Fields> {
    if known == [] then None
    else if Matches(drive, known[0]) then Some(known[0])
    else MatchingKnown(drive, known[1..])
  }

  datatype Verdict = Skipped | Member(record: Fields) | Candidate

  /** What one global disk is to the pool. */
  function Judge(pool: Fields, known: seq<Fields>, drive: Fields): Verdict {
    if Spare(drive) || Foreign(pool, drive) then Skipped
    else
      match MatchingKnown(drive, known)
      case Some(local) => Member(Merged(drive, local))
      case None =>
        if References(pool, drive) then Member(drive)
        else if Comparable(pool, drive) then Skipped
        else Candidate
  }

  /** The records of the disks that are members, in order. */
  function MemberRecords(verdicts: seq<Verdict>): seq<Fields> {
    if verdicts == [] then []
    else
      var front := MemberRecords(verdicts[..|verdicts| - 1]);
      match verdicts[|verdicts| - 1]
      case Member(record) => front + [record]
      case _ => front
  }

  /** The disks that are candidates, in order. */
  function CandidateDrives(drives: seq<Fields>, verdicts: seq<Verdict>): seq<Fields>
    requires |drives| == |verdicts|
  {
    if drives == [] then []
    else
      var n := |drives| - 1;
      var front := CandidateDrives(drives[..n], verdicts[..n]);
      if verdicts[n] == Candidate then front + [drives[n]] else front
  }

  function Verdicts(pool: Fields, known: seq<Fields>, drives: seq<Fields>): (r: seq<Verdict>)
    ensures |r| == |drives|
  {
    seq(|drives|, i requires 0 <= i < |drives| => Judge(pool, known, drives[i]))
  }

  function Members(pool: Fields, known: seq<Fields>, drives: seq<Fields>): seq<Fields> {
    AppendAll([], MemberRecords(Verdicts(pool, known, drives)), Matches)
  }

  function Candidates(pool: Fields, known: seq<Fields>, drives: seq<Fields>): seq<Fields> {
    AppendAll([], CandidateDrives(drives, Verdicts(pool, known, drives)), Matches)
  }

  lemma VerdictsOn(pool: Fields, known: seq<Fields>, drives: seq<Fields>, n: nat)
    requires n < |drives|
    ensures Verdicts(pool, known, drives[..n + 1])
        == Verdicts(pool, known, drives[..n]) + [Judge(pool, known, drives[n])]
  {
  }

  lemma MembersOn(pool: Fields, known: seq<Fields>, drives: seq<Fields>, n: nat)
    requires n < |drives|
    ensures Members(pool, known, drives[..n + 1]) ==
            match Judge(pool, known, drives[n])
            case Member(record) => Append(Members(pool, known, drives[..n]), record, Matches)
            case _ => Members(pool, known, drives[..n])
  {
    VerdictsOn(pool, known, drives, n);
    var before, verdict := Verdicts(pool, known, drives[..n]), Judge(pool, known, drives[n]);
    assert (before + [verdict])[..n] == before;
    if verdict.Member? {
      AppendAllOn([], MemberRecords(before), verdict.record, Matches);
    }
  }

  lemma CandidatesOn(pool: Fields, known: seq<Fields>, drives: seq<Fields>, n: nat)
    requires n < |drives|
    ensures Candidates(pool, known, drives[..n + 1]) ==
            if Judge(pool, known, drives[n]) == Candidate
            then Append(Candidates(pool, known, drives[..n]), drives[n], Matches)
            else Candidates(pool, known, drives[..n])
  {
    VerdictsOn(pool, known, drives, n);
    var before, verdict := Verdicts(pool, known, drives[..n]), Judge(pool, known, drives[n]);
    assert (before + [verdict])[..n] == before;
    assert drives[..n + 1][..n] == drives[..n];
    AppendAllOn([], CandidateDrives(drives[..n], before), drives[n], Matches);
  }

  // ---------------------------------------------------------------- the pool's drives

  /** `_global_pool_member_drives` */
  function GlobalMembers(pool: Fields, known: seq<Fields>, drives: seq<Fields>, expected: int): seq<Fields> {
    var members := Members(pool, known, drives);
    var candidates := Candidates(pool, known, drives);
    if |members| > expected then []
    else if |members| < expected && |candidates| == expected - |members| then AppendAll(members, candidates, Matches)
    else members
  }

  method FindKnown(drive: Fields, known: seq<Fields>) returns (r: Option<Fields>)
    ensures r == MatchingKnown(drive, known)
  {
    ghost var found := MatchingKnown(drive, known);
    for i := 0 to |known|
      invariant found == MatchingKnown(drive, known[i..])
    {
      if Matches(drive, known[i]) {
        return Some(known[i]);
      }
      assert known[i..][1..] == known[i + 1..];
    }
    r := None;
  }

  /** The tests of one global disk. */
  method JudgeDisk(pool: Fields, known: seq<Fields>, drive: Fields) returns (verdict: Verdict)
    ensures verdict == Judge(pool, known, drive)
  {
    if Spare(drive) || Foreign(pool, drive) {
      return Skipped;
    }
    var local := FindKnown(drive, known);
    if local.Some? {
      verdict := Member(Merged(drive, local.value));
    } else if References(pool, drive) {
      verdict := Member(drive);
    } else {
      verdict := if Comparable(pool, drive) then Skipped else Candidate;
    }
  }

  /** The loop over the global disks. */
  method CollectMembers(pool: Fields, known: seq<Fields>, drives: seq<Fields>, expected: int)
    returns (members: seq<Fields>)
    ensures members == GlobalMembers(pool, known, drives, expected)
  {
    members := [];
    var candidates: seq<Fields> := [];
    for i := 0 to |drives|
      invariant members == Members(pool, known, drives[..i])
      invariant candidates == Candidates(pool, known, drives[..i])
    {
      MembersOn(pool, known, drives, i);
      CandidatesOn(pool, known, drives, i);
      var verdict := JudgeDisk(pool, known, drives[i]);
      match verdict {
        case Skipped =>
        case Member(record) => members := AppendUnique(members, record, Matches);
        case Candidate => candidates := AppendUnique(candidates, drives[i], Matches);
      }
    }
    assert drives[..|drives|] == drives;
    if |members| > expected {
      return [];
    }
    var missing := expected - |members|;
    if missing > 0 && |candidates| == missing {
      members := AppendEach(members, candidates, Matches);
    }
  }

  const DRIVE_COUNT_KEYS: seq<string> :=
    ["driveCount", "diskCount", "memberCount", "numDrives", "numDisks", "numberOfDisks", "diskNum", "memberNum"]

  /** The number that a value stands for: an integer, its decimal text, or a truth value. */
  function NumberOf(j: Json): Option<int> {
    match j
    case Num(n) => Some(n)
    case Bool(b) => Some(if b then 1 else 0)
    case Str(s) => T.ParseInt(s)
    case _ => None
  }

  /** The first number under the keys, in their order. */
  function FirstNumber(fields: Fields, keys: seq<string>): (r: Option<int>)
    ensures r.None? ==> forall i :: 0 <= i < |keys| ==> NumberOf(Get(fields, keys[i])).None?
    ensures r.Some? ==> exists i :: 0 <= i < |keys| && NumberOf(Get(fields, keys[i])) == r
                                    && forall k :: 0 <= k < i ==> NumberOf(Get(fields, keys[k])).None?
  {
    if keys == [] then None
    else
      var number := NumberOf(Get(fields, keys[0]));
      if number.Some? then number
      else
        var rest := FirstNumber(fields, keys[1..]);
        assert forall i :: 0 <= i < |keys[1..]| ==> keys[1..][i] == keys[i + 1];
        rest
  }

  function DeclaredCount(pool: Fields): Option<int> {
    FirstNumber(pool, DRIVE_COUNT_KEYS)
  }

  /** The objects of a list. */
  function Objects(items: seq<Json>): (r: seq<Fields>)
    ensures forall fields :: fields in r <==> Obj(fields) in items
  {
    if items == [] then []
    else
      var front := Objects(items[..|items| - 1]);
      assert items == items[..|items| - 1] + [items[|items| - 1]];
      match items[|items| - 1]
      case Obj(fields) => front + [fields]
      case _ => front
  }

  /** The pool declares at least one drive, is alone, and carries the list of global disks. */
  predicate Eligible(pool: Fields) {
    && Get(pool, "__pool_count") == Num(1)
    && DeclaredCount(pool).Some? && DeclaredCount(pool).value >= 1
    && Get(pool, "__global_disks").List?
  }

  function GlobalDisks(pool: Fields): seq<Fields>
    requires Eligible(pool)
  {
    Objects(Get(pool, "__global_disks").items)
  }

  /** A pool that states its drive count as a number declares that number, and one that states it as
      text declares what the text reads as. */
  lemma CountDeclared(pool: Fields)
    ensures forall n :: Get(pool, "driveCount") == Num(n) ==> DeclaredCount(pool) == Some(n)
    ensures forall n :: Get(pool, "driveCount") == Str(T.IntText(n)) ==> DeclaredCount(pool) == Some(n)
    ensures forall b :: Get(pool, "driveCount") == Bool(b) ==> DeclaredCount(pool) == Some(if b then 1 else 0)
  {
    assert DRIVE_COUNT_KEYS[0] == "driveCount";
    forall n | Get(pool, "driveCount") == Str(T.IntText(n)) ensures DeclaredCount(pool) == Some(n) {
      T.ParseIntText(n);
    }
  }

  /** `_collect_single_pool_global_drives` */
  function SinglePool(pool: Fields, known: seq<Fields>): seq<Fields> {
    if !Eligible(pool) then []
    else
      var r := GlobalMembers(pool, known, GlobalDisks(pool), DeclaredCount(pool).value);
      if |r| == DeclaredCount(pool).value then r else []
  }

  /** `_complete_single_pool_global_drives` */
  function Complete(pool: Fields, local: seq<Fields>): seq<Fields> {
    var global := SinglePool(pool, local);
    if |global| > |local| then global else local
  }

  // ---------------------------------------------------------------- what the result is

  /** A record stems from a disk: it is the disk, or the disk merged with a matching known drive. */
  predicate StemsFrom(record: Fields, drive: Fields, known: seq<Fields>) {
    record == drive || exists i :: 0 <= i < |known| && Matches(drive, known[i]) && record == Merged(drive, known[i])
  }

  /** A record stems from one of the disks that pass the spare and foreign-pool filters. */
  ghost predicate Sourced(pool: Fields, known: seq<Fields>, drives: seq<Fields>, record: Fields) {
    exists i :: 0 <= i < |drives| && StemsFrom(record, drives[i], known) && !SaysSpare(drives[i])
        && !NamesOtherPool(pool, drives[i])
  }

  lemma MatchesIsSymmetricEverywhere()
    ensures Symmetric(Matches)
  {
    forall x: Fields, y: Fields ensures Matches(x, y) == Matches(y, x) {
      MatchesIsSymmetric(x, y);
    }
  }

  lemma {:induction false} KnownMatches(drive: Fields, known: seq<Fields>)
    ensures match MatchingKnown(drive, known)
            case Some(local) => exists i :: 0 <= i < |known| && known[i] == local && Matches(drive, known[i])
            case None => forall i :: 0 <= i < |known| ==> !Matches(drive, known[i])
  {
    if known != [] && !Matches(drive, known[0]) {
      KnownMatches(drive, known[1..]);
      assert forall i :: 0 < i < |known| ==> known[i] == known[1..][i - 1];
      if MatchingKnown(drive, known).Some? {
        var i :| 0 <= i < |known[1..]| && known[1..][i] == MatchingKnown(drive, known).value
            && Matches(drive, known[1..][i]);
        assert known[i + 1] == known[1..][i];
      }
    }
  }

  /** What the verdicts mean, for every disk. It is skipped when it says that it is a spare, when a
      stable reference names another pool, or when no known drive matches it, nothing it says of its
      pool agrees, and the pool's name is compared and differs. It is a member when it is none of
      these and a known drive matches it or one of its references agrees; and a candidate when
      nothing it says of its pool can be compared. */
  lemma VerdictMeaning(pool: Fields, known: seq<Fields>, drive: Fields)
    ensures var verdict := Judge(pool, known, drive);
            var passes := !SaysSpare(drive) && !NamesOtherPool(pool, drive);
            var matched := exists i :: 0 <= i < |known| && Matches(drive, known[i]);
            var agrees := exists group :: !(DriveReferences(drive, group) !! PoolReferences(pool, group));
            && (verdict.Member? <==> passes && (matched || agrees))
            && (verdict == Candidate <==> passes && !matched && forall group ::
                  DriveReferences(drive, group) == {} || PoolReferences(pool, group) == {})
            && (verdict == Skipped <==>
                   || !passes
                   || (!matched && !agrees && Contradict(DriveReferences(drive, Name), PoolReferences(pool, Name))))
  {
    KnownMatches(drive, known);
    SpareExactly(drive);
    ForeignExactly(pool, drive);
    if !SaysSpare(drive) && !NamesOtherPool(pool, drive) {
      Compared(pool, drive);
    }
  }

  /** What a disk that names no other pool can be compared by. */
  lemma Compared(pool: Fields, drive: Fields)
    requires !NamesOtherPool(pool, drive)
    ensures References(pool, drive) ==> Comparable(pool, drive)
    ensures Comparable(pool, drive) && !References(pool, drive) ==>
              Contradict(DriveReferences(drive, Name), PoolReferences(pool, Name))
    ensures Contradict(DriveReferences(drive, Name), PoolReferences(pool, Name)) ==> Comparable(pool, drive)
  {
    if References(pool, drive) {
      var group :| !(DriveReferences(drive, group) !! PoolReferences(pool, group));
      assert DriveReferences(drive, group) != {} && PoolReferences(pool, group) != {};
    }
    if Comparable(pool, drive) && !References(pool, drive) {
      var group :| DriveReferences(drive, group) != {} && PoolReferences(pool, group) != {};
      assert DriveReferences(drive, group) !! PoolReferences(pool, group);
      match group
      case PoolId =>
      case Volume =>
      case RaidGroup =>
      case Name =>
    }
  }

  lemma {:induction false} RecordsComeFrom(drives: seq<Fields>, verdicts: seq<Verdict>)
    requires |drives| == |verdicts|
    ensures forall r :: r in MemberRecords(verdicts) <==> Member(r) in verdicts
    ensures forall d :: d in CandidateDrives(drives, verdicts) ==>
              exists i :: 0 <= i < |drives| && drives[i] == d && verdicts[i] == Candidate
  {
    if drives != [] {
      var n := |drives| - 1;
      RecordsComeFrom(drives[..n], verdicts[..n]);
      assert verdicts == verdicts[..n] + [verdicts[n]];
      forall d | d in CandidateDrives(drives, verdicts)
        ensures exists i :: 0 <= i < |drives| && drives[i] == d && verdicts[i] == Candidate
      {
        if d in CandidateDrives(drives[..n], verdicts[..n]) {
          var i :| 0 <= i < n && drives[..n][i] == d && verdicts[..n][i] == Candidate;
          assert drives[i] == d && verdicts[i] == Candidate;
        } else {
          assert drives[n] == d;
        }
      }
    }
  }

  lemma MemberIsSourced(pool: Fields, known: seq<Fields>, drives: seq<Fields>, i: nat, record: Fields)
    requires i < |drives|
    requires Judge(pool, known, drives[i]) == Member(record)
        || (Judge(pool, known, drives[i]) == Candidate && record == drives[i])
    ensures Sourced(pool, known, drives, record)
  {
    KnownMatches(drives[i], known);
    SpareExactly(drives[i]);
    ForeignExactly(pool, drives[i]);
    assert StemsFrom(record, drives[i], known);
  }

  /** Both lists of the loop are distinct and stem from disks that pass the filters. */
  lemma LoopLists(pool: Fields, known: seq<Fields>, drives: seq<Fields>)
    ensures Distinct(Members(pool, known, drives), Matches) && Distinct(Candidates(pool, known, drives), Matches)
    ensures forall r :: r in Members(pool, known, drives) || r in Candidates(pool, known, drives) ==>
              Sourced(pool, known, drives, r)
  {
    var verdicts := Verdicts(pool, known, drives);
    MatchesIsSymmetricEverywhere();
    RecordsComeFrom(drives, verdicts);
    AppendAllUnique([], MemberRecords(verdicts), Matches);
    AppendAllUnique([], CandidateDrives(drives, verdicts), Matches);
    forall r | r in Members(pool, known, drives) ensures Sourced(pool, known, drives, r) {
      var i :| 0 <= i < |verdicts| && verdicts[i] == Member(r);
      MemberIsSourced(pool, known, drives, i, r);
    }
    forall r | r in Candidates(pool, known, drives) ensures Sourced(pool, known, drives, r) {
      var i :| 0 <= i < |drives| && drives[i] == r && verdicts[i] == Candidate;
      MemberIsSourced(pool, known, drives, i, r);
    }
  }

  lemma GlobalMembersAreSound(pool: Fields, known: seq<Fields>, drives: seq<Fields>, expected: int)
    ensures var r := GlobalMembers(pool, known, drives, expected);
            && Distinct(r, Matches)
            && (forall x :: x in r ==> Sourced(pool, known, drives, x))
  {
    MatchesIsSymmetricEverywhere();
    LoopLists(pool, known, drives);
    AppendAllUnique(Members(pool, known, drives), Candidates(pool, known, drives), Matches);
  }

  /** The single-pool result is empty or has exactly the declared number of drives; no two of
      them match, and each stems from a global disk that neither says that it is a spare nor names
      another pool. */
  lemma SinglePoolIsSound(pool: Fields, known: seq<Fields>)
    ensures var r := SinglePool(pool, known);
            && (r != [] ==>
                  && Get(pool, "__pool_count") == Num(1) && Get(pool, "__global_disks").List?
                  && DeclaredCount(pool) == Some(|r|))
            && Distinct(r, Matches)
            && (forall x :: x in r ==> Eligible(pool) && Sourced(pool, known, GlobalDisks(pool), x))
  {
    if Eligible(pool) {
      GlobalMembersAreSound(pool, known, GlobalDisks(pool), DeclaredCount(pool).value);
    }
  }

  /** When a pool that is alone, declares its drives and has the list of global disks gets a result:
      the sure members are as many as declared, or the candidates fill the gap exactly and none of
      them is one of the members. */
  lemma SinglePoolAnswers(pool: Fields, known: seq<Fields>)
    requires Get(pool, "__pool_count") == Num(1) && Get(pool, "__global_disks").List?
    requires DeclaredCount(pool).Some? && DeclaredCount(pool).value > 0
    ensures var members := Members(pool, known, GlobalDisks(pool));
            var candidates := Candidates(pool, known, GlobalDisks(pool));
            var count := DeclaredCount(pool).value;
            && (SinglePool(pool, known) != [] <==>
                || |members| == count
                || (|candidates| > 0 && |members| + |candidates| == count &&
                    forall c :: c in candidates ==> !Known(c, members, Matches)))
            && (SinglePool(pool, known) != [] ==>
                SinglePool(pool, known) == if |members| == count then members else members + candidates)
  {
    MatchesIsSymmetricEverywhere();
    var drives := GlobalDisks(pool);
    LoopLists(pool, known, drives);
    AppendAllTakesAll(Members(pool, known, drives), Candidates(pool, known, drives), Matches);
  }

  /** No disk that is surely a member is missing from an answer, other than as a duplicate. */
  lemma SinglePoolCovers(pool: Fields, known: seq<Fields>, drive: Fields)
    requires SinglePool(pool, known) != [] && drive in GlobalDisks(pool) && Judge(pool, known, drive).Member?
    ensures var record := Judge(pool, known, drive).record;
            record in SinglePool(pool, known) || Known(record, SinglePool(pool, known), Matches)
  {
    MatchesIsSymmetricEverywhere();
    var drives := GlobalDisks(pool);
    var verdicts := Verdicts(pool, known, drives);
    var record := Judge(pool, known, drive).record;
    var i :| 0 <= i < |drives| && drives[i] == drive;
    assert verdicts[i] == Member(record);
    RecordsComeFrom(drives, verdicts);
    AppendAllUnique([], MemberRecords(verdicts), Matches);
    SinglePoolAnswers(pool, known);
    StaysKnown(record, Members(pool, known, drives), SinglePool(pool, known));
  }

  lemma StaysKnown(x: Fields, items: seq<Fields>, more: seq<Fields>)
    requires items <= more && (x in items || Known(x, items, Matches))
    ensures x in more || Known(x, more, Matches)
  {
    assert forall i :: 0 <= i < |items| ==> more[i] == items[i];
    if x !in items {
      var i :| 0 <= i < |items| && Matches(x, items[i]);
      assert Matches(x, more[i]);
    }
  }

  /** Completing a local list never loses drives: a shorter list is replaced only by one of the
      declared length. */
  lemma CompletionNeverShrinks(pool: Fields, local: seq<Fields>)
    ensures var r := Complete(pool, local);
            && |r| >= |local|
            && (r != local ==>
                  && Eligible(pool) && |r| == DeclaredCount(pool).value && |local| < |r|
                  && Distinct(r, Matches))
  {
    SinglePoolIsSound(pool, local);
  }

  // ---------------------------------------------------------------- matching is not transitive

  const FIRST: Fields := map["id" := Str("a")]
  const LINK: Fields := map["id" := Str("a"), "uuid" := Str("b")]
  const LAST: Fields := map["uuid" := Str("b")]

  lemma LetterToken(c: char)
    requires 'a' <= c <= 'z'
    ensures TextOf(Str([c])) == Some([c]) && Token([c]) == [c]
  {
    assert T.SkipSpaces([c]) == [c] && T.TrimEnd([c]) == [c];
    assert T.Lower([c]) == [c];
    assert WordChars([c]) == [c] + WordChars([c][1..]);
  }

  lemma OneToken(fields: Fields, keys: seq<string>, key: string, c: char)
    requires 'a' <= c <= 'z' && Get(fields, key) == Str([c])
    requires forall other :: other in keys && other in fields ==> other == key
    ensures Tokens(fields, keys) == if key in keys then {[c]} else {}
  {
    LetterToken(c);
    if key in keys {
      assert Token(TextOf(Get(fields, key)).value) in Tokens(fields, keys);
    }
  }

  lemma IdentityByKey(group: IdentityGroup)
    ensures "id" in IdentityKeys(group) <==> group == Id
    ensures "uuid" in IdentityKeys(group) <==> group == Uuid
  {
    assert "id"[0] == 'i' && "uuid"[0] == 'u' && "guid"[0] == 'g' && "wwn"[0] == 'w' && "bay"[0] == 'b';
    assert |"slotId"| == 6 && |"slot"| == 4 && "slot"[0] == 's' && |"disk_name"| == 9 && |"diskName"| == 8
        && |"serial"| == 6;
    assert IdentityKeys(Id)[0] == "id" && IdentityKeys(Uuid)[0] == "uuid";
  }

  lemma EndIdentities(group: IdentityGroup)
    ensures Identity(FIRST, group) == if group == Id then {"a"} else {}
    ensures Identity(LAST, group) == if group == Uuid then {"b"} else {}
  {
    IdentityByKey(group);
    OneToken(FIRST, IdentityKeys(group), "id", 'a');
    OneToken(LAST, IdentityKeys(group), "uuid", 'b');
  }

  lemma LinkIdentities(group: IdentityGroup)
    ensures Identity(LINK, group) == if group == Id then {"a"} else if group == Uuid then {"b"} else {}
  {
    IdentityByKey(group);
    assert |"id"| != |"uuid"|;
    if group == Uuid {
      OneToken(LINK, IdentityKeys(group), "uuid", 'b');
    } else {
      OneToken(LINK, IdentityKeys(group), "id", 'a');
    }
  }

  lemma SharedValueMatches(left: Fields, right: Fields, group: IdentityGroup, value: string)
    requires value in Identity(left, group) && value in Identity(right, group)
    requires forall strong :: Strong(strong) ==> !Contradict(Identity(left, strong), Identity(right, strong))
    ensures Matches(left, right)
  {
    assert Identity(left, group) != {} && !(Identity(left, group) !! Identity(right, group));
  }

  lemma EndsMatchLink()
    ensures Matches(FIRST, LINK) && Matches(LAST, LINK)
  {
    forall group
      ensures !Contradict(Identity(FIRST, group), Identity(LINK, group))
      ensures !Contradict(Identity(LAST, group), Identity(LINK, group))
    {
      EndIdentities(group);
      LinkIdentities(group);
      assert group == Id ==> "a" in Identity(FIRST, group) && "a" in Identity(LINK, group);
      assert group == Uuid ==> "b" in Identity(LAST, group) && "b" in Identity(LINK, group);
    }
    EndIdentities(Id);
    LinkIdentities(Id);
    EndIdentities(Uuid);
    LinkIdentities(Uuid);
    SharedValueMatches(FIRST, LINK, Id, "a");
    SharedValueMatches(LAST, LINK, Uuid, "b");
  }

  lemma EndsDoNotMatch()
    ensures !Matches(FIRST, LAST)
  {
    forall group ensures Identity(FIRST, group) !! Identity(LAST, group) {
      EndIdentities(group);
    }
  }

  /** Matching is not transitive, so the order of the disks decides how many are counted. */
  lemma OrderDecides()
    ensures Matches(FIRST, LINK) && Matches(LINK, LAST) && !Matches(FIRST, LAST)
    ensures AppendAll([], [FIRST, LINK, LAST], Matches) == [FIRST, LAST]
    ensures AppendAll([], [LINK, FIRST, LAST], Matches) == [LINK]
  {
    EndsMatchLink();
    EndsDoNotMatch();
    MatchesIsSymmetric(FIRST, LINK);
    MatchesIsSymmetric(LAST, LINK);
    MatchesIsSymmetric(FIRST, LAST);
    AppendThree(FIRST, LINK, LAST, Matches);
    AppendThree(LINK, FIRST, LAST, Matches);
  }

  lemma AppendThree<T>(a: T, b: T, c: T, same: (T, T) -> bool)
    requires same(b, a)
    ensures AppendAll([], [a, b, c], same) == if same(c, a) then [a] else [a, c]
  {
    AppendAllOn([], [], a, same);
    AppendAllOn([], [a], b, same);
    AppendAllOn([], [a, b], c, same);
    assert [] + [a] == [a] && [a] + [b] == [a, b] && [a, b] + [c] == [a, b, c];
    assert AppendAll([], [a], same) == [a];
    assert Known(b, [a], same) by { assert same(b, [a][0]); }
    assert Known(c, [a], same) == same(c, a) by { assert same(c, [a][0]) == same(c, a); }
  }
}
