/** Identity values and pool references of drive records, and the filters built on them. */
module DriveIdentity {
  import opened Prelude
  import opened Json
  import V = SnapshotValues
  import T = Text

  /** `_text` */
  function TextOf(j: Json): Option<string> {
    if j == Null then None
    else
      var text := T.Strip(V.ValueText(j));
      if text == "" then None else Some(text)
  }

  predicate IsWordChar(c: char) {
    'a' <= c <= 'z' || '0' <= c <= '9'
  }

  function WordChars(s: string): string {
    if s == "" then ""
    else if IsWordChar(s[0]) then [s[0]] + WordChars(s[1..])
    else WordChars(s[1..])
  }

  /** `normalized_token` */
  function Token(s: string): string {
    WordChars(T.Lower(s))
  }

  /** The normalised values under the keys, without those that have no text. */
  function Tokens(fields: Fields, keys: seq<string>): set<string> {
    set key | key in keys && TextOf(Get(fields, key)).Some? :: Token(TextOf(Get(fields, key)).value)
  }

  // ---------------------------------------------------------------- identity

  datatype IdentityGroup = Id | Uuid | Guid | Serial | DiskName | Location

  function IdentityKeys(group: IdentityGroup): seq<string> {
    match group
    case Id => ["id"]
    case Uuid => ["uuid"]
    case Guid => ["guid"]
    case Serial => ["serial", "wwn"]
    case DiskName => ["diskName", "disk_name"]
    case Location => ["slotId", "slot", "bay"]
  }

  predicate Strong(group: IdentityGroup) {
    group == Id || group == Uuid || group == Guid || group == Serial
  }

  function Identity(drive: Fields, group: IdentityGroup): set<string> {
    Tokens(drive, IdentityKeys(group))
  }

  predicate Identified(drive: Fields) {
    exists group :: Identity(drive, group) != {}
  }

  /** Two sets that are both known and have nothing in common. */
  predicate Contradict(a: set<string>, b: set<string>) {
    a != {} && b != {} && a !! b
  }

  predicate StrongConflict(left: Fields, right: Fields) {
    exists group :: Strong(group) && Contradict(Identity(left, group), Identity(right, group))
  }

  predicate ShareIdentity(left: Fields, right: Fields) {
    exists group :: !(Identity(left, group) !! Identity(right, group))
  }

  /** `_drive_identity_matches` */
  predicate Matches(left: Fields, right: Fields) {
    Identified(left) && !StrongConflict(left, right) && ShareIdentity(left, right)
  }

  lemma MatchesIsSymmetric(left: Fields, right: Fields)
    ensures Matches(left, right) == Matches(right, left)
  {
    forall a: Fields, b: Fields | Matches(a, b) ensures Matches(b, a) {
      var group :| !(Identity(a, group) !! Identity(b, group));
      assert Identity(b, group) != {} && !(Identity(b, group) !! Identity(a, group));
      forall strong | Strong(strong) ensures !Contradict(Identity(b, strong), Identity(a, strong)) {
        assert !Contradict(Identity(a, strong), Identity(b, strong));
      }
    }
  }

  /** Some of the four kinds that identify for certain is known of both drives and different. */
  predicate SurelyApart(left: Fields, right: Fields) {
    || Contradict(Identity(left, Id), Identity(right, Id)) || Contradict(Identity(left, Uuid), Identity(right, Uuid))
    || Contradict(Identity(left, Guid), Identity(right, Guid))
    || Contradict(Identity(left, Serial), Identity(right, Serial))
  }

  lemma ConflictExactly(left: Fields, right: Fields)
    ensures StrongConflict(left, right) <==> SurelyApart(left, right)
  {
    assert Strong(Id) && Strong(Uuid) && Strong(Guid) && Strong(Serial);
    assert forall group :: Strong(group) ==> group == Id || group == Uuid || group == Guid || group == Serial;
  }

  /** Two drives match exactly when they share a value of some kind and are not surely apart. */
  lemma MatchesExactly(left: Fields, right: Fields)
    ensures Matches(left, right) <==>
              !SurelyApart(left, right) && exists group :: !(Identity(left, group) !! Identity(right, group))
  {
    ConflictExactly(left, right);
    if ShareIdentity(left, right) {
      var group :| !(Identity(left, group) !! Identity(right, group));
      assert Identity(left, group) != {};
    }
  }

  // ---------------------------------------------------------------- pool references

  datatype ReferenceGroup = PoolId | Volume | RaidGroup | Name

  const POOL_ID_KEYS: seq<string> :=
    ["poolId", "pool_id", "poolGuid", "pool_guid", "poolUuid", "pool_uuid", "storagePoolId", "storage_pool_id"]

  function RaidOrVolumeKeys(group: ReferenceGroup): seq<string> {
    if group == Volume then ["volumeId", "volume_id"]
    else ["raidGroupId", "raid_group_id", "activeRaidGroupId", "active_raid_group_id"]
  }

  /** The keys of a pool, and of a pool object nested in a drive. */
  function PoolKeys(group: ReferenceGroup): seq<string> {
    match group
    case PoolId => ["id", "uuid", "guid"] + POOL_ID_KEYS
    case Name => ["name", "label", "poolName", "pool_name"]
    case _ => RaidOrVolumeKeys(group)
  }

  function DriveKeys(group: ReferenceGroup): seq<string> {
    match group
    case PoolId => POOL_ID_KEYS
    case Name => ["poolName", "pool_name"]
    case _ => RaidOrVolumeKeys(group)
  }

  predicate Stable(group: ReferenceGroup) {
    group != Name
  }

  function PoolReferences(pool: Fields, group: ReferenceGroup): set<string> {
    Tokens(pool, PoolKeys(group))
  }

  function DriveReferences(drive: Fields, group: ReferenceGroup): set<string> {
    Tokens(drive, DriveKeys(group)) +
    match Get(drive, "pool")
    case Obj(pool) => Tokens(pool, PoolKeys(group))
    case _ => {}
  }

  /** `_drive_references_foreign_pool` */
  predicate Foreign(pool: Fields, drive: Fields) {
    exists group :: Stable(group) && Contradict(DriveReferences(drive, group), PoolReferences(pool, group))
  }

  /** `_drive_pool_reference_matches` */
  predicate References(pool: Fields, drive: Fields) {
    exists group :: !(DriveReferences(drive, group) !! PoolReferences(pool, group))
  }

  /** The drive says something about its pool that this pool could confirm. */
  predicate Comparable(pool: Fields, drive: Fields) {
    exists group :: DriveReferences(drive, group) != {} && PoolReferences(pool, group) != {}
  }

  // ---------------------------------------------------------------- spares

  const NON_POOL_BOOL_KEYS: seq<string> :=
    ["empty", "hotSpare", "hot_spare", "isEmpty", "isHotSpare", "isSpare", "isUnassigned", "spare", "unassigned"]

  const NON_POOL_HINTS: seq<string> :=
    ["available", "empty", "free", "hotspare", "notinstalled", "notpresent", "spare", "unallocated", "unassigned",
     "unused"]

  const STATUS_HINT_KEYS: seq<string> :=
    ["allocation", "condition", "health", "healthStatus", "memberState", "mode", "role", "slotStatus", "smartStatus",
     "state", "status", "type", "usage"]

  predicate Contains(s: string, part: string) {
    part <= s || (s != "" && Contains(s[1..], part))
  }

  /** `_drive_looks_non_pool_member` */
  predicate Spare(drive: Fields) {
    || (exists key :: key in NON_POOL_BOOL_KEYS && Get(drive, key) == Bool(true))
    || (exists token, hint ::
          token in Tokens(drive, STATUS_HINT_KEYS) && hint in NON_POOL_HINTS && Contains(token, hint))
  }

  /** The text is in the other one, anywhere. */
  ghost predicate PartOf(part: string, s: string) {
    exists before: string, after: string :: s == before + part + after
  }

  lemma {:induction false} ContainsExactly(s: string, part: string)
    ensures Contains(s, part) <==> PartOf(part, s)
  {
    if part <= s {
      assert s == "" + part + s[|part|..];
    }
    if s != "" {
      ContainsExactly(s[1..], part);
      if PartOf(part, s[1..]) {
        var before, after :| s[1..] == before + part + after;
        assert s == ([s[0]] + before) + part + after;
      }
    }
    if PartOf(part, s) {
      var before, after :| s == before + part + after;
      if before == "" {
        assert s[..|part|] == part;
      } else {
        assert s[1..] == before[1..] + part + after;
      }
    }
  }

  /** A flag of the record says that it is no pool member. */
  predicate FlagSays(drive: Fields) {
    exists key :: Get(drive, key) == Bool(true) && key in
      ["empty", "hotSpare", "hot_spare", "isEmpty", "isHotSpare", "isSpare", "isUnassigned", "spare", "unassigned"]
  }

  /** A status text of the record contains the hint, letters and digits alone counted. */
  ghost predicate StatusSays(drive: Fields, hint: string) {
    exists key :: TextSays(Get(drive, key), hint) && key in
      ["allocation", "condition", "health", "healthStatus", "memberState", "mode", "role", "slotStatus", "smartStatus",
       "state", "status", "type", "usage"]
  }

  ghost predicate TextSays(value: Json, hint: string) {
    TextOf(value).Some? && PartOf(hint, Token(TextOf(value).value))
  }

  /** The record says of itself that it is no pool member: by a flag that is true, or by a word in
      one of its status texts. */
  ghost predicate SaysSpare(drive: Fields) {
    || FlagSays(drive)
    || (exists hint :: StatusSays(drive, hint) && hint in
          ["available", "empty", "free", "hotspare", "notinstalled", "notpresent", "spare", "unallocated",
           "unassigned", "unused"])
  }

  /** Exactly these records are taken for spares. */
  lemma SpareExactly(drive: Fields)
    ensures Spare(drive) <==> SaysSpare(drive)
  {
    forall hint ensures (exists token :: token in Tokens(drive, STATUS_HINT_KEYS) && Contains(token, hint))
                   <==> StatusSays(drive, hint) {
      HintFound(drive, hint);
    }
  }

  lemma HintFound(drive: Fields, hint: string)
    ensures (exists token :: token in Tokens(drive, STATUS_HINT_KEYS) && Contains(token, hint)) <==>
              StatusSays(drive, hint)
  {
    if token :| token in Tokens(drive, STATUS_HINT_KEYS) && Contains(token, hint) {
      var key :|
        key in STATUS_HINT_KEYS && TextOf(Get(drive, key)).Some? && Token(TextOf(Get(drive, key)).value) == token;
      ContainsExactly(token, hint);
      assert TextSays(Get(drive, key), hint);
    }
    if StatusSays(drive, hint) {
      var key :| TextSays(Get(drive, key), hint) && key in STATUS_HINT_KEYS;
      ContainsExactly(Token(TextOf(Get(drive, key)).value), hint);
      assert Token(TextOf(Get(drive, key)).value) in Tokens(drive, STATUS_HINT_KEYS);
    }
  }

  /** A stable reference of the drive names another pool. */
  predicate NamesOtherPool(pool: Fields, drive: Fields) {
    || Contradict(DriveReferences(drive, PoolId), PoolReferences(pool, PoolId))
    || Contradict(DriveReferences(drive, Volume), PoolReferences(pool, Volume))
    || Contradict(DriveReferences(drive, RaidGroup), PoolReferences(pool, RaidGroup))
  }

  lemma ForeignExactly(pool: Fields, drive: Fields)
    ensures Foreign(pool, drive) <==> NamesOtherPool(pool, drive)
  {
    if NamesOtherPool(pool, drive) {
      assert Stable(PoolId) && Stable(Volume) && Stable(RaidGroup);
    }
  }

  // ---------------------------------------------------------------- where the values stand

  /** The record has this value under one of the keys. */
  predicate HasValue(fields: Fields, keys: seq<string>, value: string) {
    exists key :: key in keys && TextOf(Get(fields, key)).Some? && Token(TextOf(Get(fields, key)).value) == value
  }

  /** The fields that a drive is identified by, kind by kind. */
  lemma IdentityFields(drive: Fields, value: string)
    ensures value in Identity(drive, Id) <==> HasValue(drive, ["id"], value)
    ensures value in Identity(drive, Uuid) <==> HasValue(drive, ["uuid"], value)
    ensures value in Identity(drive, Guid) <==> HasValue(drive, ["guid"], value)
    ensures value in Identity(drive, Serial) <==> HasValue(drive, ["serial", "wwn"], value)
    ensures value in Identity(drive, DiskName) <==> HasValue(drive, ["diskName", "disk_name"], value)
    ensures value in Identity(drive, Location) <==> HasValue(drive, ["slotId", "slot", "bay"], value)
  {
    KeysIdentify(drive, Id, ["id"], value);
    KeysIdentify(drive, Uuid, ["uuid"], value);
    KeysIdentify(drive, Guid, ["guid"], value);
    KeysIdentify(drive, Serial, ["serial", "wwn"], value);
    KeysIdentify(drive, DiskName, ["diskName", "disk_name"], value);
    KeysIdentify(drive, Location, ["slotId", "slot", "bay"], value);
  }

  lemma KeysIdentify(drive: Fields, group: IdentityGroup, keys: seq<string>, value: string)
    requires keys == IdentityKeys(group)
    ensures value in Identity(drive, group) <==> HasValue(drive, keys, value)
  {
  }

  /** The fields that name a volume, a raid group or a pool by name; a pool and a drive use the same
      ones, and a drive may nest its pool. */
  lemma ReferenceFields(pool: Fields, drive: Fields, value: string)
    ensures value in PoolReferences(pool, Volume) <==> HasValue(pool, ["volumeId", "volume_id"], value)
    ensures value in PoolReferences(pool, RaidGroup) <==>
              HasValue(pool, ["raidGroupId", "raid_group_id", "activeRaidGroupId", "active_raid_group_id"], value)
    ensures value in PoolReferences(pool, Name) <==> HasValue(pool, ["name", "label", "poolName", "pool_name"], value)
    ensures value in PoolReferences(pool, PoolId) <==>
              HasValue(pool, ["id", "uuid", "guid"], value) || HasValue(pool, POOL_ID_KEYS, value)
    ensures var nested := if Get(drive, "pool").Obj? then Get(drive, "pool").fields else map[];
      && (value in DriveReferences(drive, Name) <==>
            HasValue(drive, ["poolName", "pool_name"], value) || value in PoolReferences(nested, Name))
      && (value in DriveReferences(drive, PoolId) <==>
            HasValue(drive, POOL_ID_KEYS, value) || value in PoolReferences(nested, PoolId))
      && (value in DriveReferences(drive, Volume) <==>
            HasValue(drive, ["volumeId", "volume_id"], value) || value in PoolReferences(nested, Volume))
      && (value in DriveReferences(drive, RaidGroup) <==>
            HasValue(drive, ["raidGroupId", "raid_group_id", "activeRaidGroupId", "active_raid_group_id"], value)
            || value in PoolReferences(nested, RaidGroup))
  {
    KeysRefer(pool, drive, Volume, ["volumeId", "volume_id"], ["volumeId", "volume_id"], value);
    KeysRefer(pool, drive, RaidGroup, ["raidGroupId", "raid_group_id", "activeRaidGroupId", "active_raid_group_id"],
              ["raidGroupId", "raid_group_id", "activeRaidGroupId", "active_raid_group_id"], value);
    KeysRefer(pool, drive, Name, ["name", "label", "poolName", "pool_name"], ["poolName", "pool_name"], value);
    KeysRefer(pool, drive, PoolId, ["id", "uuid", "guid"] + POOL_ID_KEYS, POOL_ID_KEYS, value);
  }

  lemma KeysRefer(pool: Fields, drive: Fields, group: ReferenceGroup, poolKeys: seq<string>, driveKeys: seq<string>,
                  value: string)
    requires poolKeys == PoolKeys(group) && driveKeys == DriveKeys(group)
    ensures value in PoolReferences(pool, group) <==> HasValue(pool, poolKeys, value)
    ensures var nested := if Get(drive, "pool").Obj? then Get(drive, "pool").fields else map[];
      value in DriveReferences(drive, group) <==>
        HasValue(drive, driveKeys, value) || value in PoolReferences(nested, group)
  {
    assert forall key :: Get(map[], key) == Null;
  }
}
