/** What a change of snapshot settings puts into the written document. */
module SettingsChanges {
  import opened Prelude
  import opened Schedule
  import opened ScheduleTime
  import opened SnapshotValues
  import opened SettingsRead
  import opened SettingsWrite
  import T = Text

  // ---------------------------------------------------------------- any setting as it was read

  /** The first text that is given and not empty. */
  function FirstOf(requested: Option<string>, stored: Option<string>, default: string): string {
    if requested.Some? && requested.value != "" then requested.value
    else if stored.Some? && stored.value != "" then stored.value
    else default
  }

  /** The frequency asked for, or else the stored one. */
  function AskedFrequency(current: ScheduleSetting, u: Update): string {
    T.Lower(T.Strip(FirstOf(u.scheduleFrequency, current.frequency, "Never")))
  }

  /** A written day list: the requested days if any are requested, else the stored ones, else day 1. */
  predicate DaysWritten(requested: Option<string>, stored: Option<string>, minimum: nat, maximum: nat,
                        written: string)
  {
    match requested
    case Some(text) => StrictDays(text, minimum, maximum) == Some(written)
    case None =>
      match stored
      case Some(text) =>
        written == (match LenientDays(text, minimum, maximum) case Some(days) => days case None => "1")
      case None => written == "1"
  }

  /** The time asked for, or else the stored one; midnight for a text that is no time. */
  predicate TimeWritten(requested: Option<string>, stored: Option<string>, written: string) {
    match ParseTime(FirstOf(requested, stored, "00:00"))
    case Some(t) => written == PrintPlain(t)
    case None => written == "0:00"
  }

  /** What the change asks of the schedule, and what it leaves. */
  ghost predicate ScheduleWritten(current: ScheduleSetting, u: Update, s: ScheduleDocument) {
    var frequency := AskedFrequency(current, u);
    && s.interval == 60 && s.firstRunTime == s.lastRunTime
    && TimeWritten(u.scheduleTime, current.time, s.firstRunTime)
    && (s.enable <==>
          && frequency != "never"
          && (u.scheduleFrequency.Some? || u.scheduleEnabled == Some(true)
              || (u.scheduleEnabled.None? && current.enabled)))
    && (frequency == "weekly" ==>
          DaysWritten(u.scheduleWeekdays, current.weekdays, 0, 6, s.weekdays) && s.monthdays == "")
    && (frequency == "monthly" ==>
          s.weekdays == "" && DaysWritten(u.scheduleMonthdays, current.monthdays, 1, 31, s.monthdays))
    && (frequency != "weekly" && frequency != "monthly" ==> s.weekdays == "*" && s.monthdays == "")
  }

  /** The change names days that the strict normaliser rejects, for the frequency it ends with. */
  predicate BadDays(current: ScheduleSetting, u: Update) {
    var frequency := AskedFrequency(current, u);
    || (frequency == "weekly" && u.scheduleWeekdays.Some? && StrictDays(u.scheduleWeekdays.value, 0, 6).None?)
    || (frequency == "monthly" && u.scheduleMonthdays.Some? && StrictDays(u.scheduleMonthdays.value, 1, 31).None?)
  }

  /** The limit that is written: the requested one, else the stored one if it is positive, else 64
      for a setting that is on and 1 for one that is off; always between 1 and 256. */
  predicate LimitWritten(stored: Option<int>, enabled: bool, requested: Option<int>, limit: int) {
    var wanted := if requested.Some? then requested.value
                  else if stored.Some? && stored.value >= 1 then stored.value
                  else if enabled then 64 else 1;
    && 1 <= limit <= 256
    && (1 <= wanted <= 256 ==> limit == wanted) && (wanted < 1 ==> limit == 1) && (wanted > 256 ==> limit == 256)
  }

  /** The document written for any setting, however the device listed it: the switch and the limit
      asked for, or those that were read, and the schedule asked for; nothing is written exactly
      when the days asked for are bad. */
  lemma WriteMeans(current: Setting, u: Update)
    ensures var d := WriteBody(current, u);
      && (d.None? <==> BadDays(current.schedule, u))
      && (d.Some? ==>
            && d.value.enabled == (match u.enabled case Some(on) => on case None => current.enabled)
            && LimitWritten(current.maxCount, d.value.enabled, u.maxCount, d.value.maxSnapshots)
            && ScheduleWritten(current.schedule, u, d.value.schedule))
  {
    ScheduleMeans(current.schedule, u);
    var enabled := match u.enabled case Some(on) => on case None => current.enabled;
    LimitMeans(current.maxCount, enabled, u.maxCount);
  }

  lemma LimitMeans(stored: Option<int>, enabled: bool, requested: Option<int>)
    ensures LimitWritten(stored, enabled, requested, MaxSnapshots(stored, enabled, requested))
  {
  }

  lemma ScheduleMeans(current: ScheduleSetting, u: Update)
    ensures var s := ScheduleBody(current, u);
      (s.None? <==> BadDays(current, u)) && (s.Some? ==> ScheduleWritten(current, u, s.value))
  {
    FrequencyMeans(current, u);
    TimeMeans(u.scheduleTime, current.time);
    DaysMean(u.scheduleWeekdays, current.weekdays, 0, 6);
    DaysMean(u.scheduleMonthdays, current.monthdays, 1, 31);
    assert "weekly"[0] == 'w' && "monthly"[0] == 'm' && "never"[0] == 'n';
  }

  lemma FrequencyMeans(current: ScheduleSetting, u: Update)
    ensures ApiFrequency(current, u) == AskedFrequency(current, u)
  {
  }

  lemma TimeMeans(requested: Option<string>, stored: Option<string>)
    ensures TimeWritten(requested, stored, FirstRunTime(Or(requested, stored)))
  {
    assert OrElse(Or(requested, stored), "00:00") == FirstOf(requested, stored, "00:00");
    assert T.NatText(0) == "0";
    assert PrintPlain(Time(0, 0)) == "0:00";
  }

  lemma DaysMean(requested: Option<string>, stored: Option<string>, minimum: nat, maximum: nat)
    ensures var days := ChosenDays(requested, stored, minimum, maximum);
      && (days.None? <==> requested.Some? && StrictDays(requested.value, minimum, maximum).None?)
      && (days.Some? ==> DaysWritten(requested, stored, minimum, maximum, days.value))
  {
    NoDaysInNothing(minimum, maximum);
  }

  lemma NoDaysInNothing(minimum: nat, maximum: nat)
    ensures LenientDays("", minimum, maximum) == None
  {
    assert T.Split("", ',') == [""] && T.Strip("") == "";
    assert Days([""], minimum, maximum) == [None];
    assert forall x: nat :: x !in Present<nat>([None]);
  }
}
