/** Any number of settings changes of one target, one after another. */
module ManyChanges {
  import opened Prelude
  import opened Json
  import opened SettingsRead
  import opened SettingsWrite
  import opened SettingsCodec
  import opened DocumentChanges

  /** Changes applied one after another; one with an invalid day list changes nothing. */
  function ApplyAll(base: Fields, who: Identity, d: Document, updates: seq<Update>): Document {
    if updates == [] then d
    else
      var before := ApplyAll(base, who, d, updates[..|updates| - 1]);
      match Apply(base, who, before, updates[|updates| - 1])
      case Some(after) => after
      case None => before
  }

  /** The switch after the changes. */
  function SwitchAfter(enabled: bool, updates: seq<Update>): bool {
    if updates == [] then enabled
    else SwitchOf(SwitchAfter(enabled, updates[..|updates| - 1]), updates[|updates| - 1])
  }

  /** The limit after the changes. */
  function LimitAfter(limit: int, updates: seq<Update>): int {
    if updates == [] then limit
    else LimitOf(LimitAfter(limit, updates[..|updates| - 1]), updates[|updates| - 1])
  }

  /** One schedule change alone. */
  function Reschedule(s: ScheduleDocument, update: Update): ScheduleDocument {
    match Rescheduled(s, update)
    case Some(body) => body
    case None => s
  }

  /** The schedule changes applied one after another, without the limit changes between them. */
  function ScheduleAfter(s: ScheduleDocument, updates: seq<Update>): ScheduleDocument {
    if updates == [] then s
    else
      var before, last := ScheduleAfter(s, updates[..|updates| - 1]), updates[|updates| - 1];
      if ChangesLimit(last) then before else Reschedule(before, last)
  }

  /** Each change is of the limit or of the schedule, and none switches a schedule off. */
  predicate Separate(updates: seq<Update>) {
    forall u :: u in updates ==> (ChangesLimit(u) || ChangesSchedule(u)) && !SwitchesOff(u)
  }

  predicate SwitchesOff(u: Update) {
    u.scheduleEnabled == Some(false) && u.scheduleFrequency.None?
  }

  /** A schedule change of a stable document that does not switch the schedule off keeps it stable. */
  lemma StaysStable(base: Fields, who: Identity, d: Document, u: Update)
    requires Stable(d) && ChangesSchedule(u) && !SwitchesOff(u)
    ensures Stable(d.(schedule := Reschedule(d.schedule, u)))
  {
    ApplyIsUpdated(base, who, d, u);
    if Rescheduled(d.schedule, u).Some? {
      assert Updated(d, u) == Some(d.(schedule := Rescheduled(d.schedule, u).value));
      StaysKept(d.schedule, u);
    }
  }

  lemma StaysKept(s: ScheduleDocument, u: Update)
    requires Kept(s) && !SwitchesOff(u) && Rescheduled(s, u).Some?
    ensures Kept(Rescheduled(s, u).value)
  {
    LabelsApart();
  }

  /** What one more change makes of a stable document. */
  predicate OneMade(before: Document, u: Update, after: Document) {
    && after.enabled == SwitchOf(before.enabled, u) && after.maxSnapshots == LimitOf(before.maxSnapshots, u)
    && after.schedule == (if ChangesLimit(u) then before.schedule else Reschedule(before.schedule, u))
  }

  lemma OneMore(base: Fields, who: Identity, before: Document, u: Update)
    requires Stable(before) && (ChangesLimit(u) || ChangesSchedule(u)) && !SwitchesOff(u)
    ensures var after := match Apply(base, who, before, u) case Some(d) => d case None => before;
      Stable(after) && OneMade(before, u, after)
  {
    if ChangesLimit(u) {
      LimitChange(base, who, before, u);
      ApplyIsUpdated(base, who, before, u);
    } else {
      ScheduleChange(base, who, before, u);
      StaysStable(base, who, before, u);
    }
  }

  /** The document made of the parts of each kind. */
  function Parts(d: Document, updates: seq<Update>): Document {
    Document(SwitchAfter(d.enabled, updates), ScheduleAfter(d.schedule, updates), LimitAfter(d.maxSnapshots, updates))
  }

  lemma PartsOn(d: Document, updates: seq<Update>, after: Document)
    requires updates != [] && OneMade(Parts(d, updates[..|updates| - 1]), updates[|updates| - 1], after)
    ensures after == Parts(d, updates)
  {
  }

  /** Any number of changes, each of the limit or of the schedule, in any order: the switch and the
      limit are what the limit changes make of them, and the schedule is what the schedule changes
      make of it, as if those of the other kind had not been made. */
  lemma {:induction false} EachKindSurvives(base: Fields, who: Identity, d: Document, updates: seq<Update>)
    requires Stable(d) && Separate(updates)
    ensures Stable(ApplyAll(base, who, d, updates)) && ApplyAll(base, who, d, updates) == Parts(d, updates)
  {
    if updates != [] {
      var front, last := updates[..|updates| - 1], updates[|updates| - 1];
      assert last in updates && forall u :: u in front ==> u in updates;
      EachKindSurvives(base, who, d, front);
      OneMore(base, who, ApplyAll(base, who, d, front), last);
      PartsOn(d, updates, ApplyAll(base, who, d, updates));
    }
  }

  // ---------------------------------------------------------------- the last change of a kind

  /** No change after number `n` asks for a switch position or a limit. */
  predicate LastLimit(updates: seq<Update>, n: nat) {
    forall i :: n < i < |updates| ==> updates[i].enabled.None? && updates[i].maxCount.None?
  }

  /** No change after number `n` is of the schedule. */
  predicate LastSchedule(updates: seq<Update>, n: nat) {
    forall i :: n < i < |updates| ==> ChangesLimit(updates[i])
  }

  lemma {:induction false} LimitLasts(d: Document, updates: seq<Update>, n: nat)
    requires n < |updates| && LastLimit(updates, n)
    ensures Parts(d, updates).enabled == Parts(d, updates[..n + 1]).enabled
    ensures Parts(d, updates).maxSnapshots == Parts(d, updates[..n + 1]).maxSnapshots
    decreases |updates|
  {
    if n + 1 == |updates| {
      assert updates[..n + 1] == updates;
    } else {
      LimitLasts(d, updates[..|updates| - 1], n);
      assert updates[..|updates| - 1][..n + 1] == updates[..n + 1];
    }
  }

  lemma {:induction false} ScheduleLasts(d: Document, updates: seq<Update>, n: nat)
    requires n < |updates| && LastSchedule(updates, n)
    ensures Parts(d, updates).schedule == Parts(d, updates[..n + 1]).schedule
    decreases |updates|
  {
    if n + 1 == |updates| {
      assert updates[..n + 1] == updates;
    } else {
      ScheduleLasts(d, updates[..|updates| - 1], n);
      assert updates[..|updates| - 1][..n + 1] == updates[..n + 1];
    }
  }

  /** Change number `n` is accepted where it comes. */
  predicate Accepted(d: Document, updates: seq<Update>, n: nat)
    requires n < |updates|
  {
    Rescheduled(ScheduleAfter(d.schedule, updates[..n]), updates[n]).Some?
  }

  /** The last limit change is in the document, whatever schedule changes follow. */
  lemma LastLimitHolds(base: Fields, who: Identity, d: Document, updates: seq<Update>, n: nat)
    requires Stable(d) && Separate(updates) && n < |updates| && LastLimit(updates, n)
    ensures HoldsLimit(updates[n], ApplyAll(base, who, d, updates))
  {
    EachKindSurvives(base, who, d, updates);
    LastLimitPart(d, updates, n);
  }

  lemma LastLimitPart(d: Document, updates: seq<Update>, n: nat)
    requires n < |updates| && LastLimit(updates, n) && 1 <= Parts(d, updates).maxSnapshots <= 256
    ensures HoldsLimit(updates[n], Parts(d, updates))
  {
    LimitLasts(d, updates, n);
    assert updates[..n + 1][..n] == updates[..n];
  }

  /** The last schedule change is in the document, whatever limit changes follow: the time, the
      frequency and the days that it asks for. */
  lemma LastScheduleHolds(base: Fields, who: Identity, d: Document, updates: seq<Update>, n: nat)
    requires Stable(d) && Separate(updates) && n < |updates| && LastSchedule(updates, n)
    requires ChangesSchedule(updates[n]) && Accepted(d, updates, n)
    ensures HoldsSchedule(updates[n], ApplyAll(base, who, d, updates).schedule)
  {
    EachKindSurvives(base, who, d, updates);
    assert WrittenSchedule(Parts(d, updates[..n]).schedule) by {
      assert forall u :: u in updates[..n] ==> u in updates;
      EachKindSurvives(base, who, d, updates[..n]);
    }
    LastSchedulePart(d, updates, n);
  }

  lemma LastSchedulePart(d: Document, updates: seq<Update>, n: nat)
    requires n < |updates| && LastSchedule(updates, n) && ChangesSchedule(updates[n]) && Accepted(d, updates, n)
    requires WrittenSchedule(Parts(d, updates[..n]).schedule)
    ensures HoldsSchedule(updates[n], Parts(d, updates).schedule)
  {
    ScheduleLasts(d, updates, n);
    assert updates[..n + 1][..n] == updates[..n];
    ScheduleHeld(ScheduleAfter(d.schedule, updates[..n]), updates[n]);
  }

  /** A schedule change that also counts as a limit change asks for nothing. */
  lemma ScheduleHeld(s: ScheduleDocument, u: Update)
    requires WrittenSchedule(s) && ChangesSchedule(u) && Rescheduled(s, u).Some?
    ensures HoldsSchedule(u, if ChangesLimit(u) then s else Reschedule(s, u))
  {
    RescheduledHolds(s, u);
  }
}
