/** Day lists and times of a snapshot schedule: how they are read and printed. */
module Schedule {
  import opened Prelude
  import opened Text

  // ---------------------------------------------------------------- day lists

  predicate InRange(day: int, minimum: nat, maximum: nat) {
    minimum <= day <= maximum
  }

  /** The number a list part stands for, if it is one in range. */
  function Day(part: string, minimum: nat, maximum: nat): (r: Option<nat>)
    ensures r.Some? ==> InRange(r.value, minimum, maximum)
  {
    match ParseInt(Strip(part))
    case None => None
    case Some(day) => if InRange(day, minimum, maximum) then Some(day) else None
  }

  /** What each part of a list stands for. */
  function Days(parts: seq<string>, minimum: nat, maximum: nat): (r: seq<Option<nat>>)
    ensures |r| == |parts|
    ensures forall i :: 0 <= i < |parts| ==> r[i] == Day(parts[i], minimum, maximum)
  {
    seq(|parts|, i requires 0 <= i < |parts| => Day(parts[i], minimum, maximum))
  }

  /** First occurrences, in order. */
  function Distinct(days: seq<nat>): (r: seq<nat>)
    ensures NoDup(r)
    ensures forall d :: d in r <==> d in days
  {
    if days == [] then []
    else
      var front, last := Distinct(days[..|days| - 1]), days[|days| - 1];
      assert forall d :: d in days <==> d in days[..|days| - 1] || d == last;
      if last in front then front else front + [last]
  }

  function Texts(days: seq<nat>): (r: seq<string>)
    ensures |r| == |days|
    ensures forall i :: 0 <= i < |days| ==> r[i] == NatText(days[i])
  {
    seq(|days|, i requires 0 <= i < |days| => NatText(days[i]))
  }

  /** `",".join(str(day) for day in days)` */
  function Printed(days: seq<nat>): string {
    Join(Texts(days), ',')
  }

  /** `_snapshot_existing_schedule_days` on text: lenient. */
  function LenientDays(value: string, minimum: nat, maximum: nat): Option<string> {
    var days := Distinct(Present(Days(Split(value, ','), minimum, maximum)));
    if days == [] then None else Some(Printed(days))
  }

  /** `_snapshot_schedule_days` on text: one bad part is an error. */
  function StrictDays(value: string, minimum: nat, maximum: nat): Option<string> {
    var days := Days(Split(value, ','), minimum, maximum);
    if AllPresent(days) then Some(Printed(Distinct(Present(days)))) else None
  }

  lemma TextIn(days: seq<nat>, d: nat)
    ensures NatText(d) in Texts(days) <==> d in days
  {
    if NatText(d) in Texts(days) {
      var i :| 0 <= i < |days| && Texts(days)[i] == NatText(d);
      NatTextInjective(days[i], d);
    }
  }

  /** Append the text of a day unless it is there already. */
  function AddText(days: seq<string>, d: nat): seq<string> {
    if NatText(d) in days then days else days + [NatText(d)]
  }

  lemma AddedText(days: seq<nat>, d: nat)
    ensures Texts(if d in days then days else days + [d]) == AddText(Texts(days), d)
  {
    TextIn(days, d);
    assert Texts(days + [d]) == Texts(days) + [NatText(d)];
  }

  /** The texts of the distinct days among the parts. */
  function Collected(days: seq<Option<nat>>): seq<string> {
    Texts(Distinct(Present(days)))
  }

  /** The texts collected so far after one more part. */
  lemma CollectedOn(days: seq<Option<nat>>, n: nat)
    requires n < |days|
    ensures var texts := Collected(days[..n]);
      Collected(days[..n + 1]) == match days[n] case None => texts case Some(d) => AddText(texts, d)
    ensures AllPresent(days[..n + 1]) <==> AllPresent(days[..n]) && days[n].Some?
  {
    assert days[..n + 1] == days[..n] + [days[n]];
    PresentOn(days, n);
    if days[n].Some? {
      var before, d := Present(days[..n]), days[n].value;
      assert (before + [d])[..|before|] == before;
      AddedText(Distinct(before), d);
    }
  }

  /** The loop of both normalisers; the strict one stops at the first bad part. */
  method CollectTexts(all: seq<Option<nat>>, strict: bool) returns (days: seq<string>, bad: bool)
    ensures bad <==> strict && !AllPresent(all)
    ensures !bad ==> days == Texts(Distinct(Present(all)))
  {
    days, bad := [], false;
    for n := 0 to |all|
      invariant days == Collected(all[..n])
      invariant strict ==> AllPresent(all[..n])
    {
      CollectedOn(all, n);
      match all[n] {
        case None =>
          if strict {
            assert None in all;
            return days, true;
          }
        case Some(day) =>
          days := AddText(days, day);
      }
    }
    assert all[..|all|] == all;
  }

  /** The lenient normaliser of the source, on a present value. */
  method ExistingDays(value: string, minimum: nat, maximum: nat) returns (r: Option<string>)
    ensures r == if value == "" then None else LenientDays(value, minimum, maximum)
  {
    if value == "" {
      return None;
    }
    var days, bad := CollectTexts(Days(Split(value, ','), minimum, maximum), false);
    r := if days == [] then None else Some(Join(days, ','));
  }

  /** The strict normaliser of the source, on a present value. */
  method ScheduleDays(value: string, minimum: nat, maximum: nat) returns (r: Option<string>)
    ensures r == StrictDays(value, minimum, maximum)
  {
    var days, bad := CollectTexts(Days(Split(value, ','), minimum, maximum), true);
    r := if bad then None else Some(Join(days, ','));
  }

  /** A non-empty list of distinct days in range. */
  ghost predicate DayList(days: seq<nat>, minimum: nat, maximum: nat) {
    days != [] && NoDup(days) && forall d :: d in days ==> InRange(d, minimum, maximum)
  }

  lemma DayOfText(d: nat, minimum: nat, maximum: nat)
    requires InRange(d, minimum, maximum)
    ensures Day(NatText(d), minimum, maximum) == Some(d)
  {
    ParseNatText(d);
    StripDigits(NatText(d));
  }

  function Somes(days: seq<nat>): (r: seq<Option<nat>>)
    ensures |r| == |days|
    ensures forall i :: 0 <= i < |days| ==> r[i] == Some(days[i])
  {
    seq(|days|, i requires 0 <= i < |days| => Some(days[i]))
  }

  lemma PresentSomes(days: seq<nat>)
    ensures Present(Somes(days)) == days
  {
    NothingDropped(Somes(days));
  }

  lemma DaysOfTexts(days: seq<nat>, minimum: nat, maximum: nat)
    requires forall d :: d in days ==> InRange(d, minimum, maximum)
    ensures Days(Texts(days), minimum, maximum) == Somes(days)
  {
    forall i | 0 <= i < |days| ensures Day(Texts(days)[i], minimum, maximum) == Some(days[i]) {
      assert days[i] in days;
      DayOfText(days[i], minimum, maximum);
    }
  }

  lemma {:induction false} DistinctOfDistinct(days: seq<nat>)
    requires NoDup(days)
    ensures Distinct(days) == days
  {
    if days != [] {
      DistinctOfDistinct(days[..|days| - 1]);
      assert days[|days| - 1] !in days[..|days| - 1];
    }
  }

  /** Reading the printed form of any distinct in-range list returns that list. */
  lemma PrintedDaysReadBack(days: seq<nat>, minimum: nat, maximum: nat)
    requires DayList(days, minimum, maximum)
    ensures Days(Split(Printed(days), ','), minimum, maximum) == Somes(days)
    ensures StrictDays(Printed(days), minimum, maximum) == Some(Printed(days))
        == LenientDays(Printed(days), minimum, maximum)
  {
    var texts := Texts(days);
    forall p | p in texts ensures ',' !in p {
      assert AllDigits(p);
    }
    SplitJoin(texts, ',');
    DaysOfTexts(days, minimum, maximum);
    PresentSomes(days);
    DistinctOfDistinct(days);
  }

  /** Whatever either normaliser accepts is printed from the distinct in-range days of its
      parts, in the order of their first occurrence. */
  lemma NormalForm(value: string, minimum: nat, maximum: nat) returns (days: seq<nat>)
    requires StrictDays(value, minimum, maximum).Some? || LenientDays(value, minimum, maximum).Some?
    ensures DayList(days, minimum, maximum) && days == Distinct(Present(Days(Split(value, ','), minimum, maximum)))
    ensures LenientDays(value, minimum, maximum) == Some(Printed(days))
    ensures StrictDays(value, minimum, maximum).Some? ==> StrictDays(value, minimum, maximum) == Some(Printed(days))
  {
    var all := Days(Split(value, ','), minimum, maximum);
    days := Distinct(Present(all));
    forall d | d in days ensures InRange(d, minimum, maximum) {
      assert Some(d) in all;
    }
    if AllPresent(all) {
      assert all[0] in all;
      assert all[0].value in days;
    }
  }

  /** On everything the strict normaliser accepts, the lenient one gives the same result. */
  lemma StrictAgreesWithLenient(value: string, minimum: nat, maximum: nat)
    requires StrictDays(value, minimum, maximum).Some?
    ensures LenientDays(value, minimum, maximum) == StrictDays(value, minimum, maximum)
  {
    var days := NormalForm(value, minimum, maximum);
  }

  /** Both normalisers accept their own output unchanged. */
  lemma NormalisersAreIdempotent(value: string, minimum: nat, maximum: nat, r: string)
    requires LenientDays(value, minimum, maximum) == Some(r) || StrictDays(value, minimum, maximum) == Some(r)
    ensures LenientDays(r, minimum, maximum) == Some(r) == StrictDays(r, minimum, maximum)
    ensures r != "" && r != "*" && r[0] != ' '
  {
    var days := NormalForm(value, minimum, maximum);
    PrintedDaysReadBack(days, minimum, maximum);
    PrintedStart(days);
  }

  lemma PrintedStart(days: seq<nat>)
    requires days != []
    ensures Printed(days) != "" && IsDigit(Printed(days)[0])
  {
    assert Texts(days)[0] == NatText(days[0]);
  }
}
