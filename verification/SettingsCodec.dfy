/** The settings codec: what is read back from a written document, and how successive
    writes compose. */
module SettingsCodec {
  import opened Prelude
  import opened Json
  import opened Schedule
  import opened ScheduleTime
  import opened SnapshotValues
  import opened SettingsRead
  import opened SettingsWrite
  import T = Text

  /** The schedule object the device returns for a stored document. */
  function StoredSchedule(s: ScheduleDocument): Fields {
    map["interval" := Num(s.interval),
        "weekdays" := Str(s.weekdays),
        "monthdays" := Str(s.monthdays),
        "enable" := Bool(s.enable),
        "firstRunTime" := Str(s.firstRunTime),
        "lastRunTime" := Str(s.lastRunTime)]
  }

  /** The item the device lists for a target whose other fields are `base`: a written
      `maxSnapshots` is read back as `maxCount`, the rest under its own name. */
  function StoredItem(base: Fields, d: Document): Fields {
    base["enabled" := Bool(d.enabled)]["maxCount" := Num(d.maxSnapshots)]["schedule" := Obj(StoredSchedule(d.schedule))]
  }

  /** The setting read from the stored document. */
  function ReadBack(base: Fields, who: Identity, d: Document): Setting {
    SettingOf(StoredItem(base, d), who)
  }

  /** Read, change, write: one update of a stored document. */
  function Apply(base: Fields, who: Identity, d: Document, update: Update): Option<Document> {
    WriteBody(ReadBack(base, who, d), update)
  }

  // ---------------------------------------------------------------- written documents

  /** A day list in the normal form of both normalisers. */
  ghost predicate NormalDays(text: string, minimum: nat, maximum: nat) {
    text != "" && T.IsDigit(text[0]) && LenientDays(text, minimum, maximum) == Some(text)
  }

  /** What every written schedule looks like. */
  ghost predicate WrittenSchedule(s: ScheduleDocument) {
    && s.interval == 60 && s.firstRunTime == s.lastRunTime
    && (exists t :: OnTheClock(t) && s.firstRunTime == PrintPlain(t))
    && (|| (s.weekdays == "*" && s.monthdays == "")
        || (NormalDays(s.weekdays, 0, 6) && s.monthdays == "")
        || (s.weekdays == "" && NormalDays(s.monthdays, 1, 31)))
  }

  ghost predicate Written(d: Document) {
    MIN_SNAPSHOT_LIMIT <= d.maxSnapshots <= MAX_SNAPSHOT_LIMIT && WrittenSchedule(d.schedule)
  }

  /** A schedule that names no days. */
  predicate Plain(s: ScheduleDocument) {
    s.weekdays == "*" && s.monthdays == ""
  }

  lemma ChosenDaysNormal(requested: Option<string>, stored: Option<string>, minimum: nat, maximum: nat)
    requires minimum <= 1 <= maximum
    ensures var r := ChosenDays(requested, stored, minimum, maximum); r.Some? ==> NormalDays(r.value, minimum, maximum)
  {
    var r := ChosenDays(requested, stored, minimum, maximum);
    if r.Some? {
      if requested.Some? {
        NormalisersAreIdempotent(requested.value, minimum, maximum, r.value);
      } else if StoredDays(stored, minimum, maximum).Some? {
        NormalisersAreIdempotent(stored.value, minimum, maximum, r.value);
      } else {
        assert Printed([1]) == "1" by {
          assert Texts([1]) == [T.NatText(1)];
        }
        PrintedDaysReadBack([1], minimum, maximum);
      }
    }
  }

  lemma ScheduleBodyWritten(current: ScheduleSetting, update: Update)
    ensures var s := ScheduleBody(current, update); s.Some? ==> WrittenSchedule(s.value)
  {
    FirstRunTimeOnClock(Or(update.scheduleTime, current.time));
    var frequency := ApiFrequency(current, update);
    if frequency == "weekly" {
      ChosenDaysNormal(update.scheduleWeekdays, current.weekdays, 0, 6);
    } else if frequency == "monthly" {
      ChosenDaysNormal(update.scheduleMonthdays, current.monthdays, 1, 31);
    }
  }

  /** Every written document has that form. */
  lemma WriteBodyWritten(current: Setting, update: Update)
    ensures var d := WriteBody(current, update); d.Some? ==> Written(d.value)
  {
    var body, d := ScheduleBody(current.schedule, update), WriteBody(current, update);
    if d.Some? {
      assert d.value.schedule == body.value;
      ScheduleBodyWritten(current.schedule, update);
    }
  }

  lemma FirstRunTimeOnClock(value: Option<string>)
    ensures exists t :: OnTheClock(t) && FirstRunTime(value) == PrintPlain(t)
  {
    match ParseTime(OrElse(value, "00:00"))
    case Some(t) => assert OnTheClock(t);
    case None => assert OnTheClock(Time(0, 0));
  }

  // ---------------------------------------------------------------- reading back

  lemma StripKeepsHead(s: string)
    requires s != "" && !T.IsSpace(s[0])
    ensures T.Strip(s) != "" && T.Strip(s)[0] == s[0]
  {
    TrimKeepsHead(s);
  }

  lemma {:induction false} TrimKeepsHead(s: string)
    requires s != "" && !T.IsSpace(s[0])
    ensures T.TrimEnd(s) != "" && T.TrimEnd(s)[0] == s[0]
  {
    if T.IsSpace(s[|s| - 1]) {
      TrimKeepsHead(s[..|s| - 1]);
    }
  }

  lemma DaysAreNamed(text: string, minimum: nat, maximum: nat)
    requires NormalDays(text, minimum, maximum)
    ensures NamesDays(Some(text))
  {
    StripKeepsHead(text);
  }

  /** A schedule setting as it is read back from the written schedule `s`. */
  ghost predicate ReadsAs(r: ScheduleSetting, s: ScheduleDocument) {
    && r.enabled == s.enable
    && r.frequency == Some(
         if !s.enable then "Never"
         else if s.monthdays != "" then "Monthly"
         else if s.weekdays != "*" then "Weekly" else "Daily")
    && r.time.Some? && r.time.value != "" && FirstRunTime(r.time) == s.firstRunTime
    && r.weekdays == (if s.weekdays == "" then None else Some(s.weekdays))
    && r.monthdays == (if s.monthdays == "" then None else Some(s.monthdays))
  }

  /** The schedule read back from a written document. */
  lemma ReadBackSchedule(s: ScheduleDocument)
    requires WrittenSchedule(s)
    ensures ReadsAs(ReadSchedule(StoredSchedule(s)), s)
  {
    StoredFlag(s);
    StoredTexts(s);
    StoredFrequency(s);
    StoredTime(s);
  }

  lemma StoredFlag(s: ScheduleDocument)
    ensures FirstBool(StoredSchedule(s), ["enable", "enabled"]) == Some(s.enable)
  {
  }

  lemma StoredTexts(s: ScheduleDocument)
    ensures ValueFrom(StoredSchedule(s), WEEKDAY_KEYS) == if s.weekdays == "" then None else Some(s.weekdays)
    ensures ValueFrom(StoredSchedule(s), MONTHDAY_KEYS) == if s.monthdays == "" then None else Some(s.monthdays)
  {
    Absent(StoredSchedule(s), WEEKDAY_KEYS[1..]);
    Absent(StoredSchedule(s), MONTHDAY_KEYS[1..]);
  }

  /** Keys that an object lacks give no value. */
  lemma {:induction false} Absent(fields: Fields, keys: seq<string>)
    requires forall k :: k in keys ==> k !in fields
    ensures ValueFrom(fields, keys) == None
  {
    if keys != [] {
      assert keys[0] in keys;
      Absent(fields, keys[1..]);
    }
  }

  lemma StoredFrequency(s: ScheduleDocument)
    requires WrittenSchedule(s)
    ensures Frequency(StoredSchedule(s), Some(s.enable)) == Some(
      if !s.enable then "Never"
      else if s.monthdays != "" then "Monthly"
      else if s.weekdays != "*" then "Weekly" else "Daily")
  {
    var f := StoredSchedule(s);
    Absent(f, ["frequency", "period", "repeat", "type"]);
    StoredTexts(s);
    if NormalDays(s.weekdays, 0, 6) {
      DaysAreNamed(s.weekdays, 0, 6);
    } else if NormalDays(s.monthdays, 1, 31) {
      DaysAreNamed(s.monthdays, 1, 31);
    }
    assert IntOf(Get(f, "interval")) == Some(60);
  }

  lemma StoredTime(s: ScheduleDocument)
    requires WrittenSchedule(s)
    ensures TimeOf(StoredSchedule(s)).Some? && TimeOf(StoredSchedule(s)).value != ""
    ensures FirstRunTime(TimeOf(StoredSchedule(s))) == s.firstRunTime
  {
    var t :| OnTheClock(t) && s.firstRunTime == PrintPlain(t);
    TimeRoundTrips(t);
    StoredTimeText(s);
    GivenTime(StoredSchedule(s), s.firstRunTime, t);
  }

  lemma StoredTimeText(s: ScheduleDocument)
    requires s.firstRunTime != ""
    ensures ValueFrom(StoredSchedule(s), TIME_KEYS) == Some(s.firstRunTime)
  {
  }

  lemma GivenTime(fields: Fields, text: string, t: Time)
    requires ValueFrom(fields, TIME_KEYS) == Some(text) && ParseTime(text) == Some(t)
    requires ParseTime(PrintPadded(t)) == Some(t)
    ensures TimeOf(fields) == Some(PrintPadded(t)) && FirstRunTime(TimeOf(fields)) == PrintPlain(t)
  {
  }

  // ---------------------------------------------------------------- composition

  /** The form a written document takes once it is read and written again unchanged. */
  function Canonical(d: Document): Document {
    if d.schedule.enable then d else d.(schedule := d.schedule.(weekdays := "*", monthdays := ""))
  }

  /** Reading a written document and writing it back gives its canonical form. */
  lemma RewriteIsCanonical(base: Fields, who: Identity, d: Document)
    requires Written(d)
    ensures Apply(base, who, d, NO_CHANGE) == Some(Canonical(d))
  {
    ReadBackFields(base, who, d);
    RewriteSchedule(d.schedule);
  }

  lemma ReadBackFields(base: Fields, who: Identity, d: Document)
    ensures var r := ReadBack(base, who, d);
      r.enabled == d.enabled && r.maxCount == Some(d.maxSnapshots)
          && r.schedule == ReadSchedule(StoredSchedule(d.schedule))
  {
    var item := StoredItem(base, d);
    assert Get(item, "enabled") == Bool(d.enabled) && Get(item, "maxCount") == Num(d.maxSnapshots);
    assert Get(item, "schedule") == Obj(StoredSchedule(d.schedule));
  }

  lemma LabelValues()
    ensures ApiValue("Never") == "never" && ApiValue("Daily") == "daily"
    ensures ApiValue("Weekly") == "weekly" && ApiValue("Monthly") == "monthly"
  {
    assert T.Strip("Never") == "Never" && T.Strip("Daily") == "Daily";
    assert T.Strip("Weekly") == "Weekly" && T.Strip("Monthly") == "Monthly";
  }

  lemma RewriteSchedule(s: ScheduleDocument)
    requires WrittenSchedule(s)
    ensures ScheduleBody(ReadSchedule(StoredSchedule(s)), NO_CHANGE)
         == Some(if s.enable then s else s.(weekdays := "*", monthdays := ""))
  {
    ReadBackSchedule(s);
    RewriteRead(ReadSchedule(StoredSchedule(s)), s);
  }

  lemma RewriteRead(r: ScheduleSetting, s: ScheduleDocument)
    requires WrittenSchedule(s) && ReadsAs(r, s)
    ensures ScheduleBody(r, NO_CHANGE) == Some(if s.enable then s else s.(weekdays := "*", monthdays := ""))
  {
    assert Or(NO_CHANGE.scheduleTime, r.time) == r.time;
    var frequency := ApiFrequency(r, NO_CHANGE);
    RewriteFrequency(r, s);
    if !s.enable {
      NeverBody(r, NO_CHANGE);
    } else if s.monthdays != "" {
      assert frequency[0] == 'm' && StoredDays(r.monthdays, 1, 31) == Some(s.monthdays);
    } else if s.weekdays != "*" {
      assert StoredDays(r.weekdays, 0, 6) == Some(s.weekdays);
    } else {
      assert frequency[0] == 'd';
    }
  }

  lemma RewriteFrequency(r: ScheduleSetting, s: ScheduleDocument)
    requires ReadsAs(r, s)
    ensures ApiFrequency(r, NO_CHANGE) == if !s.enable then "never" else if s.monthdays != "" then "monthly"
                                          else if s.weekdays != "*" then "weekly" else "daily"
  {
    LabelValues();
    assert ApiFrequency(r, NO_CHANGE) == ApiValue(r.frequency.value);
  }

  lemma NeverBody(current: ScheduleSetting, update: Update)
    requires ApiFrequency(current, update) == "never"
    ensures var time := FirstRunTime(Or(update.scheduleTime, current.time));
      ScheduleBody(current, update) == Some(ScheduleDocument(60, "*", "", false, time, time))
  {
    assert "never"[0] == 'n';
  }

  /** The frequencies that come with days. */
  predicate NeedsDays(frequency: string) {
    frequency == "weekly" || frequency == "monthly"
  }

  /** Write, store, read, write is a fixpoint exactly when the first write enabled the
      schedule or asked for a frequency without days. */
  lemma RewriteFixpoint(base: Fields, who: Identity, current: Setting, update: Update, d: Document)
    requires WriteBody(current, update) == Some(d)
    ensures Apply(base, who, d, NO_CHANGE) == Some(d)
        <==> EnableFlag(current.schedule, update) || !NeedsDays(ApiFrequency(current.schedule, update))
  {
    WriteBodyWritten(current, update);
    RewriteIsCanonical(base, who, d);
    NamedDaysDiffer(current.schedule, update);
  }

  lemma NamedDaysDiffer(current: ScheduleSetting, update: Update)
    ensures var s := ScheduleBody(current, update);
      s.Some? ==>
        && (Plain(s.value) <==> !NeedsDays(ApiFrequency(current, update)))
        && s.value.enable == EnableFlag(current, update)
  {
    ChosenDaysNormal(update.scheduleWeekdays, current.weekdays, 0, 6);
    ChosenDaysNormal(update.scheduleMonthdays, current.monthdays, 1, 31);
  }

  lemma ExplicitFlag(schedule: Fields, update: Update)
    requires FirstBool(schedule, ["enable", "enabled"]).Some? && update.scheduleEnabled.None?
    ensures var s := ReadSchedule(schedule); EnableFlag(s, update) || !NeedsDays(ApiFrequency(s, update))
  {
    var s := ReadSchedule(schedule);
    var flag := FirstBool(schedule, ["enable", "enabled"]);
    if flag.value {
      assert flag == Some(true);
    } else {
      assert flag == Some(false);
    }
    NeverOrEnabled(s, update);
  }

  lemma NeverOrEnabled(s: ScheduleSetting, update: Update)
    requires s.enabled || s.frequency == Some("Never")
    requires update.scheduleEnabled.None?
    ensures EnableFlag(s, update) || !NeedsDays(ApiFrequency(s, update))
  {
    LabelValues();
    var frequency := ApiFrequency(s, update);
    if frequency == "never" {
      assert frequency[0] == 'n' && !NeedsDays(frequency);
    }
  }

  /** In particular for every item that states its enable flag and every change that leaves
      the flag alone. */
  lemma ExplicitFlagFixpoint(item: Fields, base: Fields, who: Identity, update: Update, d: Document)
    requires FirstBool(ScheduleFields(item), ["enable", "enabled"]).Some? && update.scheduleEnabled.None?
    requires WriteBody(SettingOf(item, who), update) == Some(d)
    ensures Apply(base, who, d, NO_CHANGE) == Some(d)
  {
    ExplicitFlag(ScheduleFields(item), update);
    RewriteFixpoint(base, who, SettingOf(item, who), update, d);
  }

  /** It fails when a weekly schedule is switched off: the day list is then lost. */
  lemma DisabledWeeklyIsNoFixpoint(base: Fields, who: Identity, current: Setting)
    requires current.schedule == ScheduleSetting(true, Some("Weekly"), None, Some("1"), None)
    ensures var d := WriteBody(current, NO_CHANGE.(scheduleEnabled := Some(false)));
      && d.Some? && d.value.schedule.weekdays == "1" && !d.value.schedule.enable
      && var again := Apply(base, who, d.value, NO_CHANGE);
      again.Some? && again.value.schedule.weekdays == "*"
  {
    var update := NO_CHANGE.(scheduleEnabled := Some(false));
    OneDay();
    WeeklyBody(current.schedule, update);
    WriteBodyWritten(current, update);
    RewriteIsCanonical(base, who, WriteBody(current, update).value);
  }

  lemma OneDay()
    ensures LenientDays("1", 0, 6) == Some("1")
  {
    assert Printed([1]) == "1" by {
      assert Texts([1]) == [T.NatText(1)];
    }
    PrintedDaysReadBack([1], 0, 6);
  }

  lemma WeeklyBody(current: ScheduleSetting, update: Update)
    requires current.frequency == Some("Weekly") && current.weekdays == Some("1") && LenientDays("1", 0, 6) == Some("1")
    requires update == NO_CHANGE.(scheduleEnabled := Some(false))
    ensures var s := ScheduleBody(current, update); s.Some? && s.value.weekdays == "1" && !s.value.enable
  {
    LabelValues();
    assert ApiFrequency(current, update) == "weekly";
  }
}
