/** The other shapes in which a device may send settings: schedules, kinds, users, sections. */
module SettingsShapes {
  import opened Prelude
  import opened Json
  import opened SnapshotValues
  import opened ScheduleTime
  import opened SettingsRead
  import T = Text

  // ---------------------------------------------------------------- single values

  /** Which values count as true or false. */
  lemma TruthValues(b: bool, n: int, s: string)
    ensures BoolOf(Bool(b)) == Some(b) && BoolOf(Num(n)) == Some(n != 0) && BoolOf(Null) == BoolOf(List([])) == None
    ensures BoolOf(Str(s)) == Some(true) <==> T.Lower(T.Strip(s)) in ["true", "1", "yes", "on", "enabled"]
    ensures BoolOf(Str(s)) == Some(false) <==> T.Lower(T.Strip(s)) in ["false", "0", "no", "off", "disabled"]
  {
    assert "true"[0] == 't' && "1"[0] == '1' && "yes"[0] == 'y' && "on"[0] == 'o' && "enabled"[0] == 'e';
    assert "false"[0] == 'f' && "0"[0] == '0' && "no"[0] == 'n' && "off"[0] == 'o' && "disabled"[0] == 'd';
    assert |"on"| != |"off"|;
  }

  /** How values print. */
  lemma PrintedValues(n: int, s: string)
    ensures ValueText(Bool(true)) == "True" && ValueText(Bool(false)) == "False" && ValueText(Str(s)) == s
    ensures T.ParseInt(ValueText(Num(n))) == Some(n)
  {
    T.ParseIntText(n);
  }

  // ---------------------------------------------------------------- schedules

  /** The text names this frequency, in any case and with spaces around it. */
  predicate NamesFrequency(text: string, name: string) {
    T.Lower(T.Strip(text)) == T.Lower(name)
  }

  /** A day list that is given and is not the wildcard. */
  predicate HasDays(fields: Fields, keys: seq<string>) {
    ValueFrom(fields, keys).Some? && T.Strip(ValueFrom(fields, keys).value) !in ["", "*"]
  }

  lemma HasDaysExactly(fields: Fields, keys: seq<string>)
    ensures NamesDays(ValueFrom(fields, keys)) <==> HasDays(fields, keys)
  {
    assert T.Strip("") == "";
  }

  lemma LabelsRead(text: string)
    requires text != ""
    ensures NamesFrequency(text, "Never") ==> ScheduleOption(Some(text)) == Some("Never")
    ensures NamesFrequency(text, "Daily") ==> ScheduleOption(Some(text)) == Some("Daily")
    ensures NamesFrequency(text, "Weekly") ==> ScheduleOption(Some(text)) == Some("Weekly")
    ensures NamesFrequency(text, "Monthly") ==> ScheduleOption(Some(text)) == Some("Monthly")
    ensures || NamesFrequency(text, "Never") || NamesFrequency(text, "Daily") || NamesFrequency(text, "Weekly")
            || NamesFrequency(text, "Monthly") || ScheduleOption(Some(text)) == Some(text)
  {
    var word := T.Lower(T.Strip(text));
    assert T.Lower("Never")[0] == 'n' && T.Lower("Daily")[0] == 'd' && T.Lower("Weekly")[0] == 'w'
        && T.Lower("Monthly")[0] == 'm';
    assert LabelFor(word, SCHEDULE_LABELS[1..][1..][1..][1..]) == None;
    assert LabelFor(word, SCHEDULE_LABELS[1..][1..][1..])
        == if word == T.Lower("Monthly") then Some("Monthly") else None;
    assert LabelFor(word, SCHEDULE_LABELS[1..][1..])
        == if word == T.Lower("Weekly") then Some("Weekly") else LabelFor(word, SCHEDULE_LABELS[1..][1..][1..]);
    assert LabelFor(word, SCHEDULE_LABELS[1..])
        == if word == T.Lower("Daily") then Some("Daily") else LabelFor(word, SCHEDULE_LABELS[1..][1..]);
  }

  /** How often a schedule runs, however it is told: never when it is off; as it names itself; else by
      the days that it lists, days of the month first; else daily when it is on or lists no days at an
      interval of an hour, and never otherwise. */
  lemma FrequencyMeans(schedule: Fields)
    ensures var on := FirstBool(schedule, ["enable", "enabled"]);
      var named := ValueFrom(schedule, ["frequency", "period", "repeat", "type"]);
      var monthly := HasDays(schedule, ["monthdays", "monthDays", "month_days"]);
      var weekly := HasDays(schedule, ["weekdays", "weekDays", "week_days"]);
      var r := ReadSchedule(schedule).frequency;
      && (ReadSchedule(schedule).enabled <==> on == Some(true))
      && (on == Some(false) ==> r == Some("Never"))
      && (on != Some(false) && named.Some? && named.value != "" ==> r == ScheduleOption(named) && r.Some?)
      && (on != Some(false) && named.None? ==>
            && (monthly ==> r == Some("Monthly"))
            && (!monthly && weekly ==> r == Some("Weekly"))
            && (!monthly && !weekly ==>
                  r == Some(if on == Some(true) || IntOf(Get(schedule, "interval")) == Some(60) then "Daily"
                            else "Never")))
  {
    HasDaysExactly(schedule, MONTHDAY_KEYS);
    HasDaysExactly(schedule, WEEKDAY_KEYS);
    var named := ValueFrom(schedule, ["frequency", "period", "repeat", "type"]);
    if named.Some? && named.value != "" {
      LabelsRead(named.value);
    }
  }

  /** When a schedule runs, however it is told: by a time text if one is given, else by an hour and a
      minute, which is zero if it is not given; and not at all when they are out of range. */
  lemma TimeMeans(schedule: Fields)
    ensures
      var text := ValueFrom(schedule, ["firstRunTime", "first_run_time", "time", "at", "startTime", "start_time"]);
      var hour := FirstInt(schedule, ["hour", "hourOfDay", "hour_of_day"]);
      var minute := FirstInt(schedule, ["minute"]);
      var r := ReadSchedule(schedule).time;
      && (text.Some? && ParseTime(text.value).Some? ==> r == Some(PrintPadded(ParseTime(text.value).value)))
      && (text.Some? && ParseTime(text.value).None? ==> r.None?)
      && (text.None? ==>
            (r.Some? <==> hour.Some? && 0 <= hour.value <= 23 && (minute.None? || 0 <= minute.value <= 59)))
      && (text.None? && r.Some? ==> r == Some(PrintPadded(Time(hour.value, if minute.Some? then minute.value else 0))))
  {
  }

  // ---------------------------------------------------------------- kinds and users

  /** The value under the key counts as absent in a chain of alternatives. */
  predicate Empty(item: Fields, key: string) {
    Get(item, key) in {Null, Bool(false), Num(0), Str(""), List([]), Obj(map[])}
  }

  lemma EmptyExactly(item: Fields, key: string)
    ensures Empty(item, key) <==> !Truthy(Get(item, key))
  {
  }

  /** The kind of an item that names none is told by what it carries: a shared drive, else a user; one
      that carries neither is not read. */
  lemma KindByContent(item: Fields, currentUserId: Option<string>)
    requires Empty(item, "type") && Empty(item, "targetType") && Empty(item, "target_type")
    ensures var shared := "sharedDrive" in item || "shared_drive" in item || "sharedDriveName" in item;
      var personal := "user" in item || "owner" in item;
      ListedSetting(Obj(item), currentUserId) ==
        if shared then SharedSetting(Obj(item))
        else if personal then PersonalSetting(Obj(item), currentUserId)
        else None
  {
    NoKindNamed(item);
    HasOneOfThree(item, "sharedDrive", "shared_drive", "sharedDriveName");
    HasOneOfThree(item, "user", "owner", "owner");
    assert "mydrive"[0] == 'm' && "shared"[0] == 's';
  }

  lemma NoKindNamed(item: Fields)
    requires Empty(item, "type") && Empty(item, "targetType") && Empty(item, "target_type")
    ensures NormalizeType(FirstTruthy(item, ["type", "targetType", "target_type"])) == ""
  {
    EmptyExactly(item, "type");
    EmptyExactly(item, "targetType");
    EmptyExactly(item, "target_type");
    assert FirstTruthy(item, ["type", "targetType", "target_type"][1..][1..]) == "";
    assert T.Strip("") == "" && T.Lower("") == "";
  }

  lemma HasOneOfThree(item: Fields, a: string, b: string, c: string)
    ensures HasAny(item, [a, b, c]) <==> a in item || b in item || c in item
    ensures HasAny(item, [a, b]) <==> a in item || b in item
  {
    assert [a, b, c][0] == a && [a, b, c][1] == b && [a, b, c][2] == c;
    assert [a, b][0] == a && [a, b][1] == b;
  }

  /** A personal drive is known by its user, or by its own id if it names none, and is the current
      user's exactly when one of the two is the id of the user who is logged in; without either it is
      not read. */
  lemma PersonalMeans(item: Fields, currentUserId: Option<string>)
    ensures var user := DictFrom(item, ["user", "owner"]);
      var (target, userId) := PersonalIds(item, user);
      var r := PersonalSetting(Obj(item), currentUserId);
      && (r.Some? <==> target.Some?)
      && (r.Some? ==>
            && r.value.kind == "mydrive" && r.value.id == target.value && r.value.userId == userId
            && (r.value.currentUser <==>
                  currentUserId.Some? && (userId == currentUserId || target == currentUserId))
            && r.value.sharedDriveName.None?)
      && (userId.Some? && userId.value != "" ==> target == userId)
  {
  }

  /** The name of a user: first and last name with one space between them, or the one that is given, or
      a display name. */
  lemma NameMeans(user: Fields)
    ensures var first := ValueFrom(user, ["firstName", "first_name"]);
      var last := ValueFrom(user, ["lastName", "last_name"]);
      && (&& first.Some? && last.Some? && first.value != "" && last.value != ""
          && T.Strip(first.value + " " + last.value) != ""
          ==>
            DisplayName(user) == Some(T.Strip(first.value + " " + last.value)))
      && (first.Some? && last.None? && T.Strip(first.value) != "" ==> DisplayName(user) == Some(T.Strip(first.value)))
      && (first.None? && last.Some? && T.Strip(last.value) != "" ==> DisplayName(user) == Some(T.Strip(last.value)))
      && (first.None? && last.None? ==>
            DisplayName(user) == ValueFrom(user, ["displayName", "display_name", "name", "username"]))
  {
    assert T.Strip("") == "";
  }

  // ---------------------------------------------------------------- payloads

  /** Which payloads have a known shape: a list, or an object with at least one of the two sections,
      each of them, if it is there, a list. */
  lemma KnownShapes(payload: Json)
    ensures var data := DataOf(payload);
      PayloadItems(payload).Some? <==>
        || data.List?
        || (data.Obj?
            && ("personal" in data.fields || "shared" in data.fields)
            && ("personal" in data.fields ==> data.fields["personal"].List?)
            && ("shared" in data.fields ==> data.fields["shared"].List?))
  {
  }
}
