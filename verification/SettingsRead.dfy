/** Reading the snapshot-settings endpoint: one normalised setting per payload item. */
module SettingsRead {
  import opened Prelude
  import opened Json
  import opened SnapshotValues
  import opened ScheduleTime
  import T = Text

  /** A normalised snapshot target with its settings. */
  datatype Setting = Setting(
    id: string,
    name: string,
    kind: string,
    userId: Option<string>,
    currentUser: bool,
    sharedDriveName: Option<string>,
    enabled: bool,
    maxCount: Option<int>,
    totalCount: Option<int>,
    lockedCount: Option<int>,
    paused: bool,
    restoringDrive: bool,
    schedule: ScheduleSetting)

  datatype ScheduleSetting = ScheduleSetting(
    enabled: bool,
    frequency: Option<string>,
    time: Option<string>,
    weekdays: Option<string>,
    monthdays: Option<string>)

  const SCHEDULE_LABELS: seq<string> := ["Never", "Daily", "Weekly", "Monthly"]

  function LabelFor(normalized: string, labels: seq<string>): Option<string> {
    if labels == [] then None
    else if normalized == T.Lower(labels[0]) then Some(labels[0])
    else LabelFor(normalized, labels[1..])
  }

  /** `_snapshot_schedule_option`; every API value is its label in lower case. */
  function ScheduleOption(value: Option<string>): Option<string> {
    match value
    case None => None
    case Some(v) =>
      if v == "" then None
      else
        match LabelFor(T.Lower(T.Strip(v)), SCHEDULE_LABELS)
        case Some(option) => Some(option)
        case None => Some(v)
  }

  /** Days that are given and are not the wildcard. */
  predicate NamesDays(value: Option<string>) {
    var text := T.Strip(OrElse(value, ""));
    text != "" && text != "*"
  }

  const WEEKDAY_KEYS: seq<string> := ["weekdays", "weekDays", "week_days"]
  const MONTHDAY_KEYS: seq<string> := ["monthdays", "monthDays", "month_days"]

  /** `_snapshot_schedule_frequency` */
  function Frequency(schedule: Fields, enabled: Option<bool>): Option<string> {
    if enabled == Some(false) then Some("Never")
    else
      match ScheduleOption(ValueFrom(schedule, ["frequency", "period", "repeat", "type"]))
      case Some(option) => Some(option)
      case None =>
        if NamesDays(ValueFrom(schedule, MONTHDAY_KEYS)) then Some("Monthly")
        else if NamesDays(ValueFrom(schedule, WEEKDAY_KEYS)) then Some("Weekly")
        else if IntOf(Get(schedule, "interval")) == Some(60) then Some("Daily")
        else if enabled != Some(true) then Some("Never")
        else Some("Daily")
  }

  const TIME_KEYS: seq<string> := ["firstRunTime", "first_run_time", "time", "at", "startTime", "start_time"]

  /** `_snapshot_schedule_time` */
  function TimeOf(schedule: Fields): Option<string> {
    match ValueFrom(schedule, TIME_KEYS)
    case Some(text) =>
      (match ParseTime(text)
       case Some(t) => Some(PrintPadded(t))
       case None => None)
    case None =>
      match FirstInt(schedule, ["hour", "hourOfDay", "hour_of_day"])
      case None => None
      case Some(hour) =>
        var minute := match FirstInt(schedule, ["minute"]) case Some(m) => m case None => 0;
        if 0 <= hour <= 23 && 0 <= minute <= 59 then Some(PrintPadded(Time(hour, minute))) else None
  }

  function ReadSchedule(schedule: Fields): ScheduleSetting {
    var enabled := FirstBool(schedule, ["enable", "enabled"]);
    ScheduleSetting(
      enabled == Some(true),
      Frequency(schedule, enabled),
      TimeOf(schedule),
      ValueFrom(schedule, WEEKDAY_KEYS),
      ValueFrom(schedule, MONTHDAY_KEYS))
  }

  /** The object under "schedule", or an empty one. */
  function ScheduleFields(item: Fields): Fields {
    match Get(item, "schedule")
    case Obj(fields) => fields
    case _ => map[]
  }

  /** Who the item is about. */
  datatype Identity = Identity(
    kind: string,
    id: string,
    name: string,
    userId: Option<string>,
    currentUser: bool,
    sharedDriveName: Option<string>)

  /** `_snapshot_setting_from_item` */
  function SettingOf(item: Fields, who: Identity): Setting {
    var maxCount := FirstInt(item, ["maxCount", "max_count"]);
    var explicit := FirstBool(item, ["enabled", "enable"]);
    Setting(
      who.id, who.name, who.kind, who.userId, who.currentUser, who.sharedDriveName,
      if explicit.Some? then explicit.value else maxCount.Some? && maxCount.value > 0,
      maxCount,
      FirstInt(item, ["totalCount", "total_count"]),
      FirstInt(item, ["lockedCount", "locked_count"]),
      FirstBool(item, ["paused"]) == Some(true),
      FirstBool(item, ["restoringDrive", "restoring_drive"]) == Some(true),
      ReadSchedule(ScheduleFields(item)))
  }

  // ---------------------------------------------------------------- identities

  /** `normalize_snapshot_target_type` */
  function NormalizeType(value: string): string {
    var word := T.Lower(T.Strip(value));
    if word in ["mydrive", "my_drive", "personal", "user"] then "mydrive"
    else if word in ["shared", "shared_drive", "shareddrive"] then "shared"
    else word
  }

  /** `item.get(a) or item.get(b) or ...` as text; "" when none is true. */
  function FirstTruthy(item: Fields, keys: seq<string>): string {
    if keys == [] then ""
    else if Truthy(Get(item, keys[0])) then ValueText(Get(item, keys[0]))
    else FirstTruthy(item, keys[1..])
  }

  predicate HasAny(item: Fields, keys: seq<string>) {
    exists i :: 0 <= i < |keys| && keys[i] in item
  }

  /** `_snapshot_target_type` on an object: "mydrive", "shared" or "" for neither. */
  function TargetType(item: Fields): (r: string)
    ensures r == "mydrive" || r == "shared" || r == ""
  {
    var value := NormalizeType(FirstTruthy(item, ["type", "targetType", "target_type"]));
    if value == "mydrive" || value == "shared" then value
    else if HasAny(item, ["sharedDrive", "shared_drive", "sharedDriveName"]) then "shared"
    else if HasAny(item, ["user", "owner"]) then "mydrive"
    else ""
  }

  /** `_personal_snapshot_identity`: target id and user id. */
  function PersonalIds(item: Fields, user: Fields): (Option<string>, Option<string>) {
    var userId := Or(
      ValueFrom(user, ["id", "unique_id", "uuid"]),
      ValueFrom(item, ["userId", "user_id", "ownerId", "owner_id", "accountId", "account_id"]));
    (Or(userId, ValueFrom(item, ["targetId", "target_id", "driveId", "drive_id",
                                 "personalDriveId", "personal_drive_id", "id", "uuid"])),
     userId)
  }

  /** `_user_display_name`; None when nothing is usable. */
  function DisplayName(user: Fields): Option<string> {
    var first := OrElse(ValueFrom(user, ["firstName", "first_name"]), "");
    var last := OrElse(ValueFrom(user, ["lastName", "last_name"]), "");
    var full := T.Strip(if first == "" then last else if last == "" then first else first + " " + last);
    if full != "" then Some(full) else ValueFrom(user, ["displayName", "display_name", "name", "username"])
  }

  /** The personal target an item stands for, if it carries an id. */
  function PersonalSetting(raw: Json, currentUserId: Option<string>): Option<Setting> {
    match raw
    case Obj(item) =>
      var user := DictFrom(item, ["user", "owner"]);
      var (targetId, userId) := PersonalIds(item, user);
      if targetId.None? then None
      else
        var name := OrElse(Or(DisplayName(user), ValueFrom(item, ["name", "targetName"])), "My Drive");
        var current := currentUserId.Some? && (currentUserId == userId || currentUserId == targetId);
        Some(SettingOf(item, Identity("mydrive", targetId.value, name, userId, current, None)))
    case _ => None
  }

  /** The shared target an item stands for, if it carries a name. */
  function SharedSetting(raw: Json): Option<Setting> {
    match raw
    case Obj(item) =>
      var drive := DictFrom(item, ["sharedDrive", "shared_drive", "drive"]);
      var name := Or(ValueFrom(drive, ["name", "id", "uuid"]),
          ValueFrom(item, ["sharedDriveName", "shared_drive_name", "name"]));
      if name.None? || name.value == "" then None
      else
        var id := OrElse(
          Or(ValueFrom(drive, ["id", "uuid", "name"]),
          Or(ValueFrom(item, ["sharedDriveId", "shared_drive_id"]),
          Or(ValueFrom(item, ["id"]),
          Or(ValueFrom(drive, ["name", "id", "uuid"]),
             ValueFrom(item, ["sharedDriveName", "shared_drive_name", "name"]))))),
          name.value);
        Some(SettingOf(item, Identity("shared", id, name.value, None, false, name)))
    case _ => None
  }

  /** The target a list item stands for, by its type. */
  function ListedSetting(raw: Json, currentUserId: Option<string>): Option<Setting> {
    match raw
    case Obj(item) =>
      var kind := TargetType(item);
      if kind == "mydrive" then PersonalSetting(raw, currentUserId)
      else if kind == "shared" then SharedSetting(raw)
      else None
    case _ => None
  }

  // ---------------------------------------------------------------- whole payloads

  /** The three ways an item is read, by where it stands. */
  datatype Place = InList | InPersonal | InShared

  function SettingAt(place: Place, raw: Json, currentUserId: Option<string>): Option<Setting> {
    match place
    case InList => ListedSetting(raw, currentUserId)
    case InPersonal => PersonalSetting(raw, currentUserId)
    case InShared => SharedSetting(raw)
  }

  /** What each item of a list stands for. */
  function Readings(place: Place, items: seq<Json>, currentUserId: Option<string>): (r: seq<Option<Setting>>)
    ensures |r| == |items|
    ensures forall i :: 0 <= i < |items| ==> r[i] == SettingAt(place, items[i], currentUserId)
  {
    seq(|items|, i requires 0 <= i < |items| => SettingAt(place, items[i], currentUserId))
  }

  /** The loops of the `_extract_*` functions: unreadable items are skipped. */
  method Extract(place: Place, items: seq<Json>, currentUserId: Option<string>) returns (r: seq<Setting>)
    ensures r == Present(Readings(place, items, currentUserId))
  {
    r := Gather(Readings(place, items, currentUserId));
  }

  method Gather(readings: seq<Option<Setting>>) returns (r: seq<Setting>)
    ensures r == Present(readings)
  {
    r := [];
    for n := 0 to |readings|
      invariant r == Present(readings[..n])
    {
      PresentOn(readings, n);
      match readings[n] {
        case None =>
        case Some(setting) => r := r + [setting];
      }
    }
    assert readings[..|readings|] == readings;
  }

  /** The items of a payload in the order they are read, each with its place; None for a
      payload of another shape. */
  function PayloadItems(payload: Json): Option<seq<(Place, Json)>> {
    match DataOf(payload)
    case List(items) => Some(Placed(InList, items))
    case Obj(fields) =>
      if "personal" !in fields && "shared" !in fields then None
      else if !SectionOk(fields, "personal") || !SectionOk(fields, "shared") then None
      else Some(Placed(InPersonal, Section(fields, "personal")) + Placed(InShared, Section(fields, "shared")))
    case _ => None
  }

  predicate SectionOk(fields: Fields, key: string) {
    key !in fields || fields[key].List?
  }

  function Section(fields: Fields, key: string): seq<Json> {
    match Get(fields, key)
    case List(items) => items
    case _ => []
  }

  function Placed(place: Place, items: seq<Json>): (r: seq<(Place, Json)>)
    ensures |r| == |items|
    ensures forall i :: 0 <= i < |items| ==> r[i] == (place, items[i])
  {
    seq(|items|, i requires 0 <= i < |items| => (place, items[i]))
  }

  /** Every item is readable. */
  predicate AllReadable(place: Place, items: seq<Json>, currentUserId: Option<string>) {
    forall i :: 0 <= i < |items| ==> SettingAt(place, items[i], currentUserId).Some?
  }

  /** `r` is the image of the items, one to one and in order. */
  ghost predicate IsImage(items: seq<(Place, Json)>, currentUserId: Option<string>, r: seq<Setting>) {
    |r| == |items| && forall i :: 0 <= i < |items| ==> SettingAt(items[i].0, items[i].1, currentUserId) == Some(r[i])
  }

  /** A list keeps its length exactly when every item is readable, and then item by item. */
  lemma FullLength(place: Place, items: seq<Json>, currentUserId: Option<string>)
    ensures var r := Present(Readings(place, items, currentUserId));
      && |r| <= |items|
      && (|r| == |items| <==> AllReadable(place, items, currentUserId))
      && (|r| == |items| ==> IsImage(Placed(place, items), currentUserId, r))
  {
    var all := Readings(place, items, currentUserId);
    NothingDropped(all);
    if AllReadable(place, items, currentUserId) {
      assert forall i :: 0 <= i < |items| ==> all[i].Some?;
    } else {
      var i :| 0 <= i < |items| && SettingAt(place, items[i], currentUserId).None?;
      assert all[i] == None;
    }
  }

  /** Every placed item is readable. */
  ghost predicate Readable(items: seq<(Place, Json)>, currentUserId: Option<string>) {
    forall i :: 0 <= i < |items| ==> SettingAt(items[i].0, items[i].1, currentUserId).Some?
  }

  /** The length comparison of the source on one list. */
  lemma ListAccepted(items: seq<Json>, currentUserId: Option<string>, r: seq<Setting>)
    requires r == Present(Readings(InList, items, currentUserId))
    ensures |r| == |items| <==> Readable(Placed(InList, items), currentUserId)
    ensures |r| == |items| ==> IsImage(Placed(InList, items), currentUserId, r)
  {
    FullLength(InList, items, currentUserId);
    PlacedReadable(InList, items, currentUserId);
  }

  lemma PlacedReadable(place: Place, items: seq<Json>, currentUserId: Option<string>)
    ensures Readable(Placed(place, items), currentUserId) <==> AllReadable(place, items, currentUserId)
  {
    if Readable(Placed(place, items), currentUserId) {
      forall i | 0 <= i < |items| ensures SettingAt(place, items[i], currentUserId).Some? {
        assert Placed(place, items)[i] == (place, items[i]);
      }
    }
  }

  lemma ReadableConcat(a: seq<(Place, Json)>, b: seq<(Place, Json)>, currentUserId: Option<string>)
    ensures Readable(a + b, currentUserId) <==> Readable(a, currentUserId) && Readable(b, currentUserId)
  {
    if Readable(a + b, currentUserId) {
      assert forall i :: 0 <= i < |a| ==> a[i] == (a + b)[i];
      assert forall i :: 0 <= i < |b| ==> b[i] == (a + b)[|a| + i];
    }
  }

  /** The comparison of the total length on two sections. */
  lemma SectionsAccepted(personal: seq<Json>, shared: seq<Json>, currentUserId: Option<string>, r1: seq<Setting>,
                         r2: seq<Setting>)
    requires r1 == Present(Readings(InPersonal, personal, currentUserId))
    requires r2 == Present(Readings(InShared, shared, currentUserId))
    ensures var items := Placed(InPersonal, personal) + Placed(InShared, shared);
      && (|r1 + r2| == |personal| + |shared| <==> Readable(items, currentUserId))
      && (|r1 + r2| == |personal| + |shared| ==> IsImage(items, currentUserId, r1 + r2))
  {
    FullLength(InPersonal, personal, currentUserId);
    FullLength(InShared, shared, currentUserId);
    PlacedReadable(InPersonal, personal, currentUserId);
    PlacedReadable(InShared, shared, currentUserId);
    ReadableConcat(Placed(InPersonal, personal), Placed(InShared, shared), currentUserId);
  }

  /** `payload.get("data", payload)` */
  function DataOf(payload: Json): Json {
    if payload.Obj? && "data" in payload.fields then payload.fields["data"] else payload
  }

  /** `validated_snapshot_settings`: all or nothing. A payload is accepted exactly when it
      has a known shape and every item in it is readable; the result is then the image of
      its items in order, personal before shared. */
  method Validated(payload: Json, currentUserId: Option<string>) returns (r: Option<seq<Setting>>)
    ensures r.Some? <==> PayloadItems(payload).Some? && Readable(PayloadItems(payload).value, currentUserId)
    ensures r.Some? ==> IsImage(PayloadItems(payload).value, currentUserId, r.value)
  {
    var data := DataOf(payload);
    match data {
      case List(items) =>
        var settings := Extract(InList, items, currentUserId);
        ListAccepted(items, currentUserId, settings);
        r := if |settings| == |items| then Some(settings) else None;
      case Obj(fields) =>
        if "personal" !in fields && "shared" !in fields {
          return None;
        }
        if !SectionOk(fields, "personal") || !SectionOk(fields, "shared") {
          return None;
        }
        var personal, shared := Section(fields, "personal"), Section(fields, "shared");
        var settings := Extract(InPersonal, personal, currentUserId);
        var more := Extract(InShared, shared, currentUserId);
        SectionsAccepted(personal, shared, currentUserId, settings, more);
        r := if |settings + more| == |personal| + |shared| then Some(settings + more) else None;
      case _ =>
        r := None;
    }
  }
}
