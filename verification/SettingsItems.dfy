/** Settings lists as the device sends them: what is read from an item, field by field. */
module SettingsItems {
  import opened Prelude
  import opened Json
  import opened SnapshotValues
  import opened SettingsRead
  import T = Text

  // ---------------------------------------------------------------- the fields of an item

  /** The item gives the number under the key, or neither it nor its other spelling gives one. */
  predicate GivesNumber(item: Fields, key: string, other: string, n: Option<int>) {
    match n
    case Some(value) => Get(item, key) == Num(value)
    case None => Get(item, key) == Null && Get(item, other) == Null
  }

  /** The item gives the switch, the limit, the counts and the schedule of the setting. */
  predicate GivesSettings(item: Fields, s: Setting) {
    && Get(item, "enabled") == Bool(s.enabled)
    && GivesNumber(item, "maxCount", "max_count", s.maxCount)
    && GivesNumber(item, "totalCount", "total_count", s.totalCount)
    && GivesNumber(item, "lockedCount", "locked_count", s.lockedCount)
    && Get(item, "paused") == Bool(s.paused) && Get(item, "restoringDrive") == Bool(s.restoringDrive)
    && Get(item, "schedule").Obj? && ReadSchedule(Get(item, "schedule").fields) == s.schedule
  }

  /** The item names a shared drive by id and name. */
  predicate GivesDrive(item: Fields, id: string, name: string) {
    && Get(item, "sharedDrive").Obj? && id != "" && name != ""
    && Get(Get(item, "sharedDrive").fields, "id") == Str(id)
    && Get(Get(item, "sharedDrive").fields, "name") == Str(name)
  }

  /** The item names a user by id and display name. */
  predicate GivesUser(item: Fields, id: string, name: string) {
    && Get(item, "user").Obj? && id != "" && name != ""
    && var user := Get(item, "user").fields;
    && Get(user, "id") == Str(id) && Get(user, "displayName") == Str(name)
    && Get(user, "firstName") == Get(user, "first_name") == Get(user, "lastName") == Get(user, "last_name") == Null
  }

  /** The item says which kind of target it is, in one of the usual words and any case. */
  predicate SaysKind(item: Fields, kind: string) {
    && Get(item, "type").Str? && Get(item, "type").s != ""
    && var word := T.Lower(T.Strip(Get(item, "type").s));
    if kind == "shared" then word in ["shared", "shared_drive", "shareddrive"]
    else kind == "mydrive" && word in ["mydrive", "my_drive", "personal", "user"]
  }

  /** The item is what the device sends for the setting of a shared drive. */
  predicate IsSharedItem(item: Fields, s: Setting) {
    && GivesSettings(item, s) && GivesDrive(item, s.id, s.name)
    && s.kind == "shared" && s.userId.None? && !s.currentUser && s.sharedDriveName == Some(s.name)
  }

  /** The item is what the device sends for the setting of a personal drive; the setting belongs to
      the user who is logged in if the ids agree. */
  predicate IsPersonalItem(item: Fields, s: Setting, currentUserId: Option<string>) {
    && GivesSettings(item, s) && GivesUser(item, s.id, s.name)
    && s.kind == "mydrive" && s.userId == Some(s.id) && s.sharedDriveName.None?
    && (s.currentUser <==> currentUserId == Some(s.id))
  }

  // ---------------------------------------------------------------- reading one item

  lemma SettingsGiven(item: Fields, s: Setting, who: Identity)
    requires GivesSettings(item, s)
    ensures SettingOf(item, who)
         == s.(id := who.id, name := who.name, kind := who.kind, userId := who.userId, currentUser := who.currentUser,
               sharedDriveName := who.sharedDriveName)
  {
    NumberGiven(item, "maxCount", "max_count", s.maxCount);
    NumberGiven(item, "totalCount", "total_count", s.totalCount);
    NumberGiven(item, "lockedCount", "locked_count", s.lockedCount);
    assert FirstBool(item, ["enabled", "enable"]) == Some(s.enabled);
    assert FirstBool(item, ["paused"]) == Some(s.paused);
    assert FirstBool(item, ["restoringDrive", "restoring_drive"]) == Some(s.restoringDrive);
  }

  lemma NumberGiven(item: Fields, key: string, other: string, n: Option<int>)
    requires GivesNumber(item, key, other, n)
    ensures FirstInt(item, [key, other]) == n
  {
    TwoKeys(item, key, other);
  }

  /** What two spellings of a key give. */
  lemma TwoKeys(fields: Fields, key: string, other: string)
    ensures FirstInt(fields, [key, other])
         == if IntOf(Get(fields, key)).Some? then IntOf(Get(fields, key)) else IntOf(Get(fields, other))
    ensures Get(fields, key) == Get(fields, other) == Null ==>
              ValueFrom(fields, [key, other]) == None && FirstBool(fields, [key, other]) == None
  {
    assert [key, other][1..] == [other] && [other][1..] == [];
    assert FirstInt(fields, [other]) == IntOf(Get(fields, other));
    assert Get(fields, other) == Null ==> ValueFrom(fields, [other]) == None && FirstBool(fields, [other]) == None;
  }

  /** A shared drive's item reads as its setting, in the section of shared drives. */
  lemma SharedItemReads(item: Fields, s: Setting)
    requires IsSharedItem(item, s)
    ensures SharedSetting(Obj(item)) == Some(s)
  {
    var drive := Get(item, "sharedDrive").fields;
    assert DictFrom(item, ["sharedDrive", "shared_drive", "drive"]) == drive;
    assert ValueFrom(drive, ["name", "id", "uuid"]) == Some(s.name);
    assert ValueFrom(drive, ["id", "uuid", "name"]) == Some(s.id);
    SettingsGiven(item, s, Identity("shared", s.id, s.name, None, false, Some(s.name)));
  }

  /** A personal drive's item reads as its setting, in the section of personal drives. */
  lemma PersonalItemReads(item: Fields, s: Setting, currentUserId: Option<string>)
    requires IsPersonalItem(item, s, currentUserId)
    ensures PersonalSetting(Obj(item), currentUserId) == Some(s)
  {
    var user := Get(item, "user").fields;
    assert DictFrom(item, ["user", "owner"]) == user;
    assert ValueFrom(user, ["id", "unique_id", "uuid"]) == Some(s.id);
    UserNamed(user, s.name);
    SettingsGiven(item, s, Identity("mydrive", s.id, s.name, Some(s.id), s.currentUser, None));
  }

  lemma UserNamed(user: Fields, name: string)
    requires Get(user, "displayName") == Str(name) && name != ""
    requires Get(user, "firstName") == Get(user, "first_name") == Null
    requires Get(user, "lastName") == Get(user, "last_name") == Null
    ensures DisplayName(user) == Some(name)
  {
    TwoKeys(user, "firstName", "first_name");
    TwoKeys(user, "lastName", "last_name");
    assert T.Strip("") == "";
    assert ValueFrom(user, ["displayName", "display_name", "name", "username"]) == Some(name);
  }

  /** In a plain list the kind that the item names decides. */
  lemma ListedItemReads(item: Fields, s: Setting, currentUserId: Option<string>)
    requires SaysKind(item, s.kind) && (IsSharedItem(item, s) || IsPersonalItem(item, s, currentUserId))
    ensures ListedSetting(Obj(item), currentUserId) == Some(s)
  {
    KindRead(item, s.kind);
    if IsSharedItem(item, s) {
      SharedItemReads(item, s);
    } else {
      PersonalItemReads(item, s, currentUserId);
    }
  }

  lemma KindRead(item: Fields, kind: string)
    requires SaysKind(item, kind)
    ensures TargetType(item) == kind && (kind == "shared" || kind == "mydrive") && "shared" != "mydrive"
  {
    assert "shared"[0] == 's' && "mydrive"[0] == 'm';
    assert FirstTruthy(item, ["type", "targetType", "target_type"]) == Get(item, "type").s;
    if kind == "shared" {
      WordsApart(T.Lower(T.Strip(Get(item, "type").s)));
    }
  }

  lemma WordsApart(word: string)
    requires word in ["shared", "shared_drive", "shareddrive"]
    ensures word !in ["mydrive", "my_drive", "personal", "user"]
  {
    assert word[0] == 's' && "mydrive"[0] == 'm' && "my_drive"[0] == 'm' && "personal"[0] == 'p' && "user"[0] == 'u';
  }

  /** An item without a switch is on exactly when it gives a positive limit. */
  lemma SwitchByLimit(item: Fields, who: Identity)
    requires Get(item, "enabled") == Get(item, "enable") == Null
    ensures SettingOf(item, who).enabled <==>
              || (exists n: int :: IntOf(Get(item, "maxCount")) == Some(n) && n > 0)
              || (IntOf(Get(item, "maxCount")).None?
                  && exists n: int :: IntOf(Get(item, "max_count")) == Some(n) && n > 0)
  {
    TwoKeys(item, "enabled", "enable");
    TwoKeys(item, "maxCount", "max_count");
  }

  // ---------------------------------------------------------------- whole payloads

  /** The sections list the items of these settings. */
  ghost predicate ListsSettings(payload: Json, personal: seq<Setting>, shared: seq<Setting>,
                                currentUserId: Option<string>)
  {
    && DataOf(payload).Obj? && var data := DataOf(payload).fields;
    && Get(data, "personal").List? && Get(data, "shared").List?
    && |Get(data, "personal").items| == |personal| && |Get(data, "shared").items| == |shared|
    && (forall i :: 0 <= i < |personal| ==>
          var item := Get(data, "personal").items[i];
          item.Obj? && IsPersonalItem(item.fields, personal[i], currentUserId))
    && (forall i :: 0 <= i < |shared| ==>
          var item := Get(data, "shared").items[i]; item.Obj? && IsSharedItem(item.fields, shared[i]))
  }

  /** A payload that lists these settings is accepted, and reads as exactly these settings, personal
      drives first, in order. */
  lemma PayloadReads(payload: Json, personal: seq<Setting>, shared: seq<Setting>, currentUserId: Option<string>)
    requires ListsSettings(payload, personal, shared, currentUserId)
    ensures PayloadItems(payload).Some? && Readable(PayloadItems(payload).value, currentUserId)
    ensures IsImage(PayloadItems(payload).value, currentUserId, personal + shared)
    ensures forall r :: IsImage(PayloadItems(payload).value, currentUserId, r) ==> r == personal + shared
  {
    var data := DataOf(payload).fields;
    var items, all := PayloadItems(payload).value, personal + shared;
    forall i | 0 <= i < |items| ensures SettingAt(items[i].0, items[i].1, currentUserId) == Some(all[i]) {
      if i < |personal| {
        PersonalItemReads(Get(data, "personal").items[i].fields, personal[i], currentUserId);
      } else {
        SharedItemReads(Get(data, "shared").items[i - |personal|].fields, shared[i - |personal|]);
      }
    }
    OneImage(items, currentUserId, all);
  }

  lemma OneImage(items: seq<(Place, Json)>, currentUserId: Option<string>, all: seq<Setting>)
    requires IsImage(items, currentUserId, all)
    ensures forall r :: IsImage(items, currentUserId, r) ==> r == all
  {
    forall r | IsImage(items, currentUserId, r) ensures r == all {
      assert forall i :: 0 <= i < |items| ==> Some(r[i]) == Some(all[i]);
    }
  }
}
