/** What a change makes of a document that the device stores, and how changes compose. */
module DocumentChanges {
  import opened Prelude
  import opened Json
  import opened Schedule
  import opened ScheduleTime
  import opened SettingsRead
  import opened SettingsWrite
  import opened SettingsCodec
  import opened SettingsChanges
  import T = Text

  // ---------------------------------------------------------------- one change of a document

  /** The frequency that a written schedule stands for. */
  function StoredFrequency(s: ScheduleDocument): string {
    if !s.enable then "never" else if s.monthdays != "" then "monthly"
    else if s.weekdays != "*" then "weekly" else "daily"
  }

  /** The frequency after a change. */
  function FrequencyAfter(s: ScheduleDocument, u: Update): string {
    if u.scheduleFrequency.Some? && u.scheduleFrequency.value != "" then T.Lower(T.Strip(u.scheduleFrequency.value))
    else StoredFrequency(s)
  }

  function EnableAfter(s: ScheduleDocument, u: Update): bool {
    FrequencyAfter(s, u) != "never"
    && (u.scheduleFrequency.Some? || if u.scheduleEnabled.Some? then u.scheduleEnabled.value else s.enable)
  }

  function TimeAfter(s: ScheduleDocument, u: Update): string {
    if u.scheduleTime.Some? && u.scheduleTime.value != "" then
      match ParseTime(u.scheduleTime.value)
      case Some(t) => PrintPlain(t)
      case None => "0:00"
    else s.firstRunTime
  }

  /** The requested days, or the kept ones if there are any, or day 1. */
  function DaysAfter(requested: Option<string>, kept: string, minimum: nat, maximum: nat): Option<string> {
    match requested
    case Some(text) => StrictDays(text, minimum, maximum)
    case None => Some(if kept == "" || kept == "*" then "1" else kept)
  }

  /** The schedule after a change, from the written one alone; None for days that are rejected. */
  function Rescheduled(s: ScheduleDocument, u: Update): Option<ScheduleDocument> {
    var frequency, enable, time := FrequencyAfter(s, u), EnableAfter(s, u), TimeAfter(s, u);
    if frequency == "weekly" then
      match DaysAfter(u.scheduleWeekdays, s.weekdays, 0, 6)
      case Some(days) => Some(ScheduleDocument(60, days, "", enable, time, time))
      case None => None
    else if frequency == "monthly" then
      match DaysAfter(u.scheduleMonthdays, s.monthdays, 1, 31)
      case Some(days) => Some(ScheduleDocument(60, "", days, enable, time, time))
      case None => None
    else Some(ScheduleDocument(60, "*", "", enable, time, time))
  }

  function LimitOf(limit: int, u: Update): int {
    match u.maxCount
    case Some(n) => if n < 1 then 1 else if n > 256 then 256 else n
    case None => limit
  }

  function SwitchOf(enabled: bool, u: Update): bool {
    if u.enabled.Some? then u.enabled.value else enabled
  }

  /** The document after a change. */
  function Updated(d: Document, u: Update): Option<Document> {
    match Rescheduled(d.schedule, u)
    case Some(s) => Some(Document(SwitchOf(d.enabled, u), s, LimitOf(d.maxSnapshots, u)))
    case None => None
  }

  lemma LabelsApart()
    ensures "never" != "daily" && "never" != "weekly" && "never" != "monthly"
    ensures "daily" != "weekly" && "daily" != "monthly" && "weekly" != "monthly"
  {
    assert "never"[0] == 'n' && "daily"[0] == 'd' && "weekly"[0] == 'w' && "monthly"[0] == 'm';
  }

  /** The frequency is what reading back and asking again comes to. */
  lemma AskedIsAfter(s: ScheduleDocument, r: ScheduleSetting, u: Update)
    requires ReadsAs(r, s)
    ensures AskedFrequency(r, u) == FrequencyAfter(s, u)
  {
    LabelValues();
  }

  /** The days that a written list keeps when none are requested. */
  lemma KeptDays(stored: Option<string>, kept: string, minimum: nat, maximum: nat, requested: Option<string>,
                 written: string)
    requires stored == (if kept == "" then None else Some(kept))
    requires kept == "" || kept == "*" || NormalDays(kept, minimum, maximum)
    requires DaysWritten(requested, stored, minimum, maximum, written)
    ensures DaysAfter(requested, kept, minimum, maximum) == Some(written)
  {
    StarIsNoDay(minimum, maximum);
    assert NormalDays(kept, minimum, maximum) ==> kept[0] != '*';
  }

  lemma StarIsNoDay(minimum: nat, maximum: nat)
    ensures LenientDays("*", minimum, maximum) == None
  {
    T.SplitPart("*", "", ',');
    assert T.SkipSpaces("*") == "*" && T.TrimEnd("*") == "*";
    assert T.ParseInt("*") == None;
    assert Days(["*"], minimum, maximum) == [None];
    assert forall x: nat :: x !in Present<nat>([None]);
  }

  lemma TimeKept(s: ScheduleDocument, r: ScheduleSetting, u: Update, written: string)
    requires ReadsAs(r, s) && TimeWritten(u.scheduleTime, r.time, written)
    ensures written == TimeAfter(s, u)
  {
    if !(u.scheduleTime.Some? && u.scheduleTime.value != "") {
      TimeMeans(None, r.time);
      assert FirstOf(u.scheduleTime, r.time, "00:00") == r.time.value == FirstOf(None, r.time, "00:00");
    }
  }

  /** Reading a written schedule, changing it and writing it again is the change of the document. */
  lemma ScheduleIsRescheduled(s: ScheduleDocument, u: Update)
    requires WrittenSchedule(s)
    ensures ScheduleBody(ReadSchedule(StoredSchedule(s)), u) == Rescheduled(s, u)
  {
    var r := ReadSchedule(StoredSchedule(s));
    var body := ScheduleBody(r, u);
    ReadBackSchedule(s);
    AskedIsAfter(s, r, u);
    ScheduleMeans(r, u);
    LabelsApart();
    if body.Some? {
      TimeKept(s, r, u, body.value.firstRunTime);
      if FrequencyAfter(s, u) == "weekly" {
        KeptDays(r.weekdays, s.weekdays, 0, 6, u.scheduleWeekdays, body.value.weekdays);
      } else if FrequencyAfter(s, u) == "monthly" {
        KeptDays(r.monthdays, s.monthdays, 1, 31, u.scheduleMonthdays, body.value.monthdays);
      }
    }
  }

  /** One update of a stored document is the change of the document. */
  lemma ApplyIsUpdated(base: Fields, who: Identity, d: Document, u: Update)
    requires Written(d)
    ensures Apply(base, who, d, u) == Updated(d, u)
    ensures Updated(d, u).Some? ==> Written(Updated(d, u).value)
  {
    ReadBackFields(base, who, d);
    ScheduleIsRescheduled(d.schedule, u);
    WriteMeans(ReadBack(base, who, d), u);
    WriteBodyWritten(ReadBack(base, who, d), u);
  }

  // ---------------------------------------------------------------- what a change asks for

  /** The document holds the switch and the limit that the change asks for. */
  predicate HoldsLimit(u: Update, d: Document) {
    && (u.enabled.Some? ==> d.enabled == u.enabled.value)
    && 1 <= d.maxSnapshots <= 256
    && (u.maxCount.Some? ==>
          || d.maxSnapshots == u.maxCount.value
          || (u.maxCount.value < 1 && d.maxSnapshots == 1)
          || (u.maxCount.value > 256 && d.maxSnapshots == 256))
  }

  /** The schedule holds the time that the change asks for, if it can be read. */
  predicate HoldsTime(u: Update, s: ScheduleDocument) {
    u.scheduleTime.Some? && ParseTime(u.scheduleTime.value).Some? ==>
      s.firstRunTime == s.lastRunTime == PrintPlain(ParseTime(u.scheduleTime.value).value)
  }

  /** It holds the frequency asked for, which switches it on or off, or the switch asked for. */
  predicate HoldsFrequency(u: Update, s: ScheduleDocument) {
    && (u.scheduleFrequency.Some? && u.scheduleFrequency.value != "" ==>
          var frequency := T.Lower(T.Strip(u.scheduleFrequency.value));
          && (s.enable <==> frequency != "never")
          && (frequency == "weekly" <==> s.monthdays == "" && s.weekdays != "*")
          && (frequency == "monthly" <==> s.monthdays != ""))
    && (u.scheduleFrequency.None? && u.scheduleEnabled == Some(false) ==> !s.enable)
  }

  /** It holds the days asked for, if it names days of that kind, and no request is ignored because
      other days were stored. */
  ghost predicate HoldsDayLists(u: Update, s: ScheduleDocument) {
    && (u.scheduleWeekdays.Some? && s.monthdays == "" && s.weekdays != "*" ==>
          HoldsDays(u.scheduleWeekdays.value, 0, 6, s.weekdays))
    && (u.scheduleMonthdays.Some? && s.monthdays != "" ==> HoldsDays(u.scheduleMonthdays.value, 1, 31, s.monthdays))
  }

  /** The schedule holds what the change asks for. */
  ghost predicate HoldsSchedule(u: Update, s: ScheduleDocument) {
    HoldsTime(u, s) && HoldsFrequency(u, s) && HoldsDayLists(u, s)
  }

  /** Every part of the requested text is a day in range, and the written text prints them in the
      order in which each first occurs. */
  ghost predicate HoldsDays(requested: string, minimum: nat, maximum: nat, written: string) {
    exists days :: IsRequest(days, requested, minimum, maximum) && written == Printed(days)
  }

  ghost predicate IsRequest(days: seq<nat>, requested: string, minimum: nat, maximum: nat) {
    && DayList(days, minimum, maximum)
    && (forall part :: part in T.Split(requested, ',') ==>
          exists d :: d in days && T.ParseInt(T.Strip(part)) == Some(d))
    && days == Distinct(Present(Days(T.Split(requested, ','), minimum, maximum)))
  }

  lemma StrictHolds(requested: string, minimum: nat, maximum: nat, written: string)
    requires StrictDays(requested, minimum, maximum) == Some(written)
    ensures HoldsDays(requested, minimum, maximum, written)
  {
    var days := NormalForm(requested, minimum, maximum);
    var parts := T.Split(requested, ',');
    forall part | part in parts
      ensures exists d :: d in days && T.ParseInt(T.Strip(part)) == Some(d)
    {
      var i :| 0 <= i < |parts| && parts[i] == part;
      var day := Days(parts, minimum, maximum)[i];
      assert day in Days(parts, minimum, maximum) && day.value in days;
    }
    assert IsRequest(days, requested, minimum, maximum);
  }

  /** The written document holds what the change asks for. */
  lemma ChangeHolds(base: Fields, who: Identity, d: Document, u: Update)
    requires Written(d) && Apply(base, who, d, u).Some?
    ensures var after := Apply(base, who, d, u).value; HoldsLimit(u, after) && HoldsSchedule(u, after.schedule)
  {
    ApplyIsUpdated(base, who, d, u);
    RescheduledHolds(d.schedule, u);
  }

  lemma RescheduledHolds(s: ScheduleDocument, u: Update)
    requires WrittenSchedule(s) && Rescheduled(s, u).Some?
    ensures HoldsSchedule(u, Rescheduled(s, u).value)
  {
    ScheduleIsRescheduled(s, u);
    ScheduleBodyWritten(ReadSchedule(StoredSchedule(s)), u);
    TimeHolds(s, u);
    FrequencyHolds(s, u);
    DayListsHold(s, u);
  }

  lemma TimeHolds(s: ScheduleDocument, u: Update)
    requires Rescheduled(s, u).Some?
    ensures HoldsTime(u, Rescheduled(s, u).value)
  {
    assert ParseTime("") == None;
  }

  lemma FrequencyHolds(s: ScheduleDocument, u: Update)
    requires Rescheduled(s, u).Some? && WrittenSchedule(Rescheduled(s, u).value)
    ensures HoldsFrequency(u, Rescheduled(s, u).value)
  {
    LabelsApart();
    var after := Rescheduled(s, u).value;
    if FrequencyAfter(s, u) == "weekly" {
      NamedDays(DaysAfter(u.scheduleWeekdays, s.weekdays, 0, 6).value, u.scheduleWeekdays, s.weekdays, 0, 6);
    } else if FrequencyAfter(s, u) == "monthly" {
      NamedDays(DaysAfter(u.scheduleMonthdays, s.monthdays, 1, 31).value, u.scheduleMonthdays, s.monthdays, 1, 31);
    }
  }

  /** A day list is not empty and not the wildcard. */
  lemma NamedDays(days: string, requested: Option<string>, kept: string, minimum: nat, maximum: nat)
    requires DaysAfter(requested, kept, minimum, maximum) == Some(days)
    ensures days != "" && days != "*"
  {
    if requested.Some? {
      NormalisersAreIdempotent(requested.value, minimum, maximum, days);
    }
  }

  lemma DayListsHold(s: ScheduleDocument, u: Update)
    requires Rescheduled(s, u).Some?
    ensures HoldsDayLists(u, Rescheduled(s, u).value)
  {
    LabelsApart();
    if FrequencyAfter(s, u) == "weekly" && u.scheduleWeekdays.Some? {
      StrictHolds(u.scheduleWeekdays.value, 0, 6, Rescheduled(s, u).value.weekdays);
    }
    if FrequencyAfter(s, u) == "monthly" && u.scheduleMonthdays.Some? {
      StrictHolds(u.scheduleMonthdays.value, 1, 31, Rescheduled(s, u).value.monthdays);
    }
  }

  // ---------------------------------------------------------------- changes of one kind

  /** A change of the switch or the limit only. */
  predicate ChangesLimit(u: Update) {
    u == NO_CHANGE.(enabled := u.enabled, maxCount := u.maxCount)
  }

  /** A change of the schedule only. */
  predicate ChangesSchedule(u: Update) {
    u.enabled.None? && u.maxCount.None?
  }

  /** A document that survives reading and writing. */
  ghost predicate Stable(d: Document) {
    Written(d) && Canonical(d) == d
  }

  /** A limit change replaces the switch and the limit and canonicalises the schedule. */
  lemma LimitChange(base: Fields, who: Identity, d: Document, u: Update)
    requires Written(d) && ChangesLimit(u)
    ensures Apply(base, who, d, u)
         == Some(Document(SwitchOf(d.enabled, u), Canonical(d).schedule, LimitOf(d.maxSnapshots, u)))
  {
    ApplyIsUpdated(base, who, d, u);
    LabelsApart();
  }

  /** A schedule change replaces the schedule, as a function of the old schedule alone. */
  lemma ScheduleChange(base: Fields, who: Identity, d: Document, u: Update)
    requires Written(d) && ChangesSchedule(u)
    ensures Apply(base, who, d, u) == match Rescheduled(d.schedule, u)
      case None => None
      case Some(s) => Some(d.(schedule := s))
    ensures Apply(base, who, d, u).Some? ==> HoldsSchedule(u, Apply(base, who, d, u).value.schedule)
  {
    ApplyIsUpdated(base, who, d, u);
    if Apply(base, who, d, u).Some? {
      ChangeHolds(base, who, d, u);
    }
  }

  function Then(base: Fields, who: Identity, first: Option<Document>, u: Update): Option<Document> {
    match first
    case None => None
    case Some(d) => Apply(base, who, d, u)
  }

  /** A written schedule that is on, or names no days, is left as it is by a rewriting. */
  predicate Kept(s: ScheduleDocument) {
    s.enable || Plain(s)
  }

  /** Both changes in one document. */
  function Both(d: Document, limit: Update, body: ScheduleDocument): Document {
    Document(SwitchOf(d.enabled, limit), body, LimitOf(d.maxSnapshots, limit))
  }

  /** On a stable document, a limit change and a schedule change commute exactly when the schedule
      change is rejected, leaves the schedule on, or ends with no days. */
  lemma ChangesCommute(base: Fields, who: Identity, d: Document, limit: Update, schedule: Update)
    requires Stable(d) && ChangesLimit(limit) && ChangesSchedule(schedule)
    ensures Then(base, who, Apply(base, who, d, limit), schedule)
         == Then(base, who, Apply(base, who, d, schedule), limit)
       <==> Rescheduled(d.schedule, schedule).None? || Kept(Rescheduled(d.schedule, schedule).value)
  {
    LimitFirst(base, who, d, limit, schedule);
    ScheduleFirst(base, who, d, limit, schedule);
  }

  lemma LimitFirst(base: Fields, who: Identity, d: Document, limit: Update, schedule: Update)
    requires Stable(d) && ChangesLimit(limit) && ChangesSchedule(schedule)
    ensures Then(base, who, Apply(base, who, d, limit), schedule)
         == match Rescheduled(d.schedule, schedule)
            case None => None
            case Some(s) => Some(Both(d, limit, s))
  {
    LimitChange(base, who, d, limit);
    ApplyIsUpdated(base, who, d, limit);
    ScheduleChange(base, who, Both(d, limit, d.schedule), schedule);
  }

  lemma ScheduleFirst(base: Fields, who: Identity, d: Document, limit: Update, schedule: Update)
    requires Written(d) && ChangesLimit(limit) && ChangesSchedule(schedule)
    ensures Then(base, who, Apply(base, who, d, schedule), limit)
         == match Rescheduled(d.schedule, schedule)
            case None => None
            case Some(s) => Some(Both(d, limit, Canonical(d.(schedule := s)).schedule))
  {
    ScheduleChange(base, who, d, schedule);
    ApplyIsUpdated(base, who, d, schedule);
    if Rescheduled(d.schedule, schedule).Some? {
      LimitChange(base, who, d.(schedule := Rescheduled(d.schedule, schedule).value), limit);
    }
  }

  /** In both orders the two changes end in the document that holds both. */
  lemma BothOrders(base: Fields, who: Identity, d: Document, limit: Update, schedule: Update, body: ScheduleDocument)
    requires Stable(d) && ChangesLimit(limit) && ChangesSchedule(schedule)
    requires Rescheduled(d.schedule, schedule) == Some(body) && Kept(body)
    ensures Then(base, who, Apply(base, who, d, limit), schedule) == Some(Both(d, limit, body))
    ensures Then(base, who, Apply(base, who, d, schedule), limit) == Some(Both(d, limit, body))
    ensures HoldsLimit(limit, Both(d, limit, body)) && HoldsSchedule(schedule, body)
  {
    LimitChange(base, who, d, limit);
    ApplyIsUpdated(base, who, d, limit);
    ScheduleChange(base, who, Apply(base, who, d, limit).value, schedule);
    ChangesCommute(base, who, d, limit, schedule);
  }
}
