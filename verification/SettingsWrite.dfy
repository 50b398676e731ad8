/** Writing snapshot settings: the full document computed from a target and a change. */
module SettingsWrite {
  import opened Prelude
  import opened Schedule
  import opened ScheduleTime
  import opened SettingsRead
  import V = SnapshotValues
  import T = Text

  const DEFAULT_SNAPSHOT_LIMIT: int := 64
  const MIN_SNAPSHOT_LIMIT: int := 1
  const MAX_SNAPSHOT_LIMIT: int := 256

  /** `SnapshotSettingsUpdate`: the requested changes; None leaves a setting alone. */
  datatype Update = Update(
    enabled: Option<bool>,
    maxCount: Option<int>,
    scheduleEnabled: Option<bool>,
    scheduleFrequency: Option<string>,
    scheduleTime: Option<string>,
    scheduleWeekdays: Option<string>,
    scheduleMonthdays: Option<string>)
  {
    /** `delete_required`: nothing but turning the setting off. */
    predicate DeleteRequired() {
      this == NO_CHANGE.(enabled := Some(false))
    }
  }

  const NO_CHANGE := Update(None, None, None, None, None, None, None)

  /** The document the device stores; `name` is always empty. */
  datatype Document = Document(enabled: bool, schedule: ScheduleDocument, maxSnapshots: int)

  datatype ScheduleDocument = ScheduleDocument(
    interval: int,
    weekdays: string,
    monthdays: string,
    enable: bool,
    firstRunTime: string,
    lastRunTime: string)

  /** `_snapshot_schedule_api_value`; every API value is its label in lower case. */
  function ApiValue(option: string): string {
    T.Lower(T.Strip(option))
  }

  /** `_snapshot_schedule_first_run_time` */
  function FirstRunTime(value: Option<string>): string {
    match ParseTime(V.OrElse(value, "00:00"))
    case Some(t) => PrintPlain(t)
    case None => PrintPlain(Time(0, 0))
  }

  /** Lenient days of a stored value. */
  function StoredDays(value: Option<string>, minimum: nat, maximum: nat): Option<string> {
    match value
    case None => None
    case Some(text) => if text == "" then None else LenientDays(text, minimum, maximum)
  }

  /** `strict(requested) or lenient(stored) or "1"`; None stands for the strict ValueError. */
  function ChosenDays(requested: Option<string>, stored: Option<string>, minimum: nat, maximum: nat): Option<string> {
    match requested
    case Some(text) => StrictDays(text, minimum, maximum)
    case None =>
      match StoredDays(stored, minimum, maximum)
      case Some(days) => Some(days)
      case None => Some("1")
  }

  /** The API frequency a change of a schedule asks for. */
  function ApiFrequency(current: ScheduleSetting, update: Update): string {
    ApiValue(V.OrElse(V.Or(update.scheduleFrequency, current.frequency), "Never"))
  }

  /** Whether the written schedule is enabled. */
  function EnableFlag(current: ScheduleSetting, update: Update): bool {
    if ApiFrequency(current, update) == "never" then false
    else if update.scheduleFrequency.Some? then true
    else if update.scheduleEnabled.Some? then update.scheduleEnabled.value
    else current.enabled
  }

  /** `_snapshot_settings_schedule_body` */
  function ScheduleBody(current: ScheduleSetting, update: Update): Option<ScheduleDocument> {
    var frequency := ApiFrequency(current, update);
    var enable := EnableFlag(current, update);
    var time := FirstRunTime(V.Or(update.scheduleTime, current.time));
    if frequency == "weekly" then
      match ChosenDays(update.scheduleWeekdays, current.weekdays, 0, 6)
      case None => None
      case Some(days) => Some(ScheduleDocument(60, days, "", enable, time, time))
    else if frequency == "monthly" then
      match ChosenDays(update.scheduleMonthdays, current.monthdays, 1, 31)
      case None => None
      case Some(days) => Some(ScheduleDocument(60, "", days, enable, time, time))
    else Some(ScheduleDocument(60, "*", "", enable, time, time))
  }

  function Clamp(n: int): int {
    if n < MIN_SNAPSHOT_LIMIT then MIN_SNAPSHOT_LIMIT else if n > MAX_SNAPSHOT_LIMIT then MAX_SNAPSHOT_LIMIT else n
  }

  function MaxSnapshots(current: Option<int>, enabled: bool, requested: Option<int>): int {
    if requested.Some? then Clamp(requested.value)
    else if current.Some? && current.value >= MIN_SNAPSHOT_LIMIT then Clamp(current.value)
    else if enabled then DEFAULT_SNAPSHOT_LIMIT
    else MIN_SNAPSHOT_LIMIT
  }

  /** `_snapshot_settings_write_body`; None stands for the ValueError of an invalid day list. */
  function WriteBody(current: Setting, update: Update): Option<Document> {
    var enabled := if update.enabled.Some? then update.enabled.value else current.enabled;
    match ScheduleBody(current.schedule, update)
    case None => None
    case Some(schedule) => Some(Document(enabled, schedule, MaxSnapshots(current.maxCount, enabled, update.maxCount)))
  }
}
