/** Pool keys and the lookup of a pool by its key, including keys of older versions. */
module PoolLookup {
  import opened Prelude
  import opened Json
  import V = SnapshotValues
  import I = DriveIdentity
  import T = Text

  const KEY_FIELDS: seq<string> :=
    ["id", "uuid", "guid", "name", "label", "poolName", "pool_name", "poolId", "pool_id", "storagePoolId",
     "storage_pool_id", "volumeId", "volume_id"]

  predicate IsAlnum(c: char) {
    'a' <= c <= 'z' || 'A' <= c <= 'Z' || '0' <= c <= '9'
  }

  function NonEmpty(parts: seq<string>): seq<string> {
    if parts == [] then []
    else if parts[0] == "" then NonEmpty(parts[1..])
    else [parts[0]] + NonEmpty(parts[1..])
  }

  function Normalized(s: string): string {
    seq(|s|, i requires 0 <= i < |s| => if IsAlnum(s[i]) then T.LowerChar(s[i]) else '_')
  }

  /** `_slug` */
  function Slug(s: string): (r: string)
    ensures r != ""
  {
    var joined := T.Join(NonEmpty(T.Split(Normalized(s), '_')), '_');
    if joined == "" then "pool" else joined
  }

  function FirstGiven(fields: Fields, keys: seq<string>): Option<Json> {
    if keys == [] then None
    else if V.Given(Get(fields, keys[0])) then Some(Get(fields, keys[0]))
    else FirstGiven(fields, keys[1..])
  }

  /** `_pool_key` */
  function PoolKey(pool: Fields, index: nat): string {
    match FirstGiven(pool, KEY_FIELDS)
    case Some(value) => Slug(V.ValueText(value))
    case None => "pool_" + T.NatText(index + 1)
  }

  /** The number of a key `pool_<digits>`. */
  function KeyNumber(key: string): Option<nat> {
    if "pool_" < key && T.AllDigits(key[5..]) then Some(T.DigitsValue(key[5..])) else None
  }

  const NAME_FIELDS: seq<string> := ["name", "label", "displayName", "display_name", "poolName", "pool_name"]

  const ID_FIELDS: seq<string> :=
    ["id", "uuid", "guid", "poolId", "pool_id", "storagePoolId", "storage_pool_id", "volumeId", "volume_id"]

  predicate IsHex(c: char) {
    '0' <= c <= '9' || 'a' <= c <= 'f'
  }

  /** At least 24 hexadecimal digits and no other letter; every UUID is such a text. */
  predicate MachineIdentifier(text: string) {
    var compact := I.Token(text);
    |compact| >= 24 && forall i :: 0 <= i < |compact| ==> IsHex(compact[i])
  }

  /** The text under the key, unless a machine identifier does not count. */
  function UsableText(fields: Fields, key: string, plain: bool): Option<string> {
    var text := I.TextOf(Get(fields, key));
    if text.Some? && plain && MachineIdentifier(text.value) then None else text
  }

  /** The first usable text under the keys, in their order. */
  function FirstText(fields: Fields, keys: seq<string>, plain: bool): (r: Option<string>)
    ensures r.None? ==> forall i :: 0 <= i < |keys| ==> UsableText(fields, keys[i], plain).None?
    ensures r.Some? ==> exists i :: 0 <= i < |keys| && UsableText(fields, keys[i], plain) == r
                                    && forall k :: 0 <= k < i ==> UsableText(fields, keys[k], plain).None?
  {
    if keys == [] then None
    else
      var text := UsableText(fields, keys[0], plain);
      if text.Some? then text
      else
        var rest := FirstText(fields, keys[1..], plain);
        assert rest.Some? ==> forall i :: 0 <= i < |keys[1..]| ==> keys[1..][i] == keys[i + 1];
        rest
  }

  /** `_pool_name` */
  function PoolName(pool: Fields, index: nat): string {
    match FirstText(pool, NAME_FIELDS, false)
    case Some(text) => text
    case None =>
      match FirstText(pool, ID_FIELDS, true)
      case Some(text) => text
      case None => "Pool " + T.NatText(index + 1)
  }

  const LEGACY_FIELDS: seq<string> :=
    ["id", "uuid", "guid", "poolId", "pool_id", "storagePoolId", "storage_pool_id", "volumeId", "volume_id", "name",
     "label"]

  /** The pool answers to the token of a key of an older version. */
  predicate Answers(pool: Fields, index: nat, token: string) {
    || (exists key :: key in LEGACY_FIELDS && I.TextOf(Get(pool, key)).Some? &&
                      I.Token(I.TextOf(Get(pool, key)).value) == token)
    || I.Token(PoolName(pool, index)) == token
  }

  predicate HasKey(pools: seq<Fields>, i: int, key: string) {
    0 <= i < |pools| && PoolKey(pools[i], i) == key
  }

  predicate HasToken(pools: seq<Fields>, i: int, token: string) {
    0 <= i < |pools| && Answers(pools[i], i, token)
  }

  /** The first place that holds true. */
  function FirstTrue(flags: seq<bool>): (r: Option<nat>)
    ensures r.Some? ==> r.value < |flags| && flags[r.value] && forall k :: 0 <= k < r.value ==> !flags[k]
    ensures r.None? ==> forall k :: 0 <= k < |flags| ==> !flags[k]
  {
    if flags == [] then None
    else
      var before := FirstTrue(flags[..|flags| - 1]);
      if before.Some? then before else if flags[|flags| - 1] then Some(|flags| - 1) else None
  }

  function WithKey(pools: seq<Fields>, key: string): (r: seq<bool>)
    ensures |r| == |pools| && forall k :: 0 <= k < |pools| ==> r[k] == HasKey(pools, k, key)
  {
    seq(|pools|, i requires 0 <= i < |pools| => HasKey(pools, i, key))
  }

  function WithToken(pools: seq<Fields>, token: string): (r: seq<bool>)
    ensures |r| == |pools| && forall k :: 0 <= k < |pools| ==> r[k] == HasToken(pools, k, token)
  {
    seq(|pools|, i requires 0 <= i < |pools| => HasToken(pools, i, token))
  }

  function FindToken(pools: seq<Fields>, token: string): Option<nat> {
    if token == "" then None else FirstTrue(WithToken(pools, token))
  }

  /** The pool at the place an old key numbers; else the first that answers to the key's token. */
  function Fallback(pools: seq<Fields>, key: string): Option<nat> {
    var number := KeyNumber(key);
    if number.Some? && 0 <= number.value - 1 < |pools| then Some(number.value - 1)
    else FindToken(pools, I.Token(key))
  }

  /** The first pool with that key; else what keys of older versions find. */
  function Lookup(pools: seq<Fields>, key: string): Option<nat> {
    var own := FirstTrue(WithKey(pools, key));
    if own.Some? then own else Fallback(pools, key)
  }

  method SearchFirst(flags: seq<bool>) returns (place: Option<nat>)
    ensures place == FirstTrue(flags)
  {
    for i := 0 to |flags|
      invariant forall k :: 0 <= k < i ==> !flags[k]
    {
      if flags[i] {
        return Some(i);
      }
    }
    place := None;
  }

  /** `_pool_from_key`: the place of the pool for a key. */
  method FromKey(pools: seq<Fields>, key: string) returns (place: Option<nat>)
    ensures place == Lookup(pools, key)
  {
    place := SearchFirst(WithKey(pools, key));
    if place.None? {
      place := FromOldKey(pools, key);
    }
  }

  method FromOldKey(pools: seq<Fields>, key: string) returns (place: Option<nat>)
    ensures place == Fallback(pools, key)
  {
    var number := KeyNumber(key);
    if number.Some? && 0 <= number.value - 1 < |pools| {
      place := Some(number.value - 1);
    } else {
      place := Legacy(pools, I.Token(key));
    }
  }

  method Legacy(pools: seq<Fields>, token: string) returns (place: Option<nat>)
    ensures place == FindToken(pools, token)
  {
    place := None;
    if token != "" {
      place := SearchFirst(WithToken(pools, token));
    }
  }

  /** Looking up a pool's own key finds the first pool with that key, so it finds the pool itself
      exactly when no pool before it has the same key. */
  lemma OwnKeyFindsFirst(pools: seq<Fields>, i: nat)
    requires i < |pools|
    ensures var key := PoolKey(pools[i], i);
            var place := Lookup(pools, key);
            && place.Some? && place.value <= i && HasKey(pools, place.value, key)
            && (forall k :: 0 <= k < place.value ==> !HasKey(pools, k, key))
            && (place.value == i <==> forall k :: 0 <= k < i ==> !HasKey(pools, k, key))
  {
    assert HasKey(pools, i, PoolKey(pools[i], i));
  }

  // ---------------------------------------------------------------- slugs

  predicate LowerAlnum(c: char) {
    'a' <= c <= 'z' || '0' <= c <= '9'
  }

  /** A word of a slug. */
  predicate Word(s: string) {
    forall i :: 0 <= i < |s| ==> LowerAlnum(s[i])
  }

  lemma {:induction false} SplitWords(s: string)
    requires forall i :: 0 <= i < |s| ==> LowerAlnum(s[i]) || s[i] == '_'
    ensures forall part :: part in T.Split(s, '_') ==> Word(part)
  {
    if s != "" {
      SplitWords(s[1..]);
      assert T.Split(s[1..], '_')[0] in T.Split(s[1..], '_');
    }
  }

  lemma {:induction false} NonEmptyWords(parts: seq<string>)
    requires forall part :: part in parts ==> Word(part)
    ensures forall part :: part in NonEmpty(parts) ==> Word(part) && part != ""
  {
    if parts != [] {
      NonEmptyWords(parts[1..]);
    }
  }

  lemma {:induction false} WordsStay(parts: seq<string>)
    requires forall part :: part in parts ==> Word(part) && part != ""
    ensures NonEmpty(parts) == parts
    ensures forall i :: 0 <= i < |T.Join(parts, '_')| ==>
              LowerAlnum(T.Join(parts, '_')[i]) || T.Join(parts, '_')[i] == '_'
  {
    if parts != [] {
      assert parts[0] in parts && forall part :: part in parts[1..] ==> part in parts;
      WordsStay(parts[1..]);
    }
  }

  /** The words of a slug, joined, are a slug again. */
  lemma JoinedWords(parts: seq<string>)
    requires parts != [] && forall part :: part in parts ==> Word(part) && part != ""
    ensures Slug(T.Join(parts, '_')) == T.Join(parts, '_')
  {
    var joined := T.Join(parts, '_');
    WordsStay(parts);
    assert Normalized(joined) == joined;
    forall part | part in parts ensures '_' !in part {
    }
    T.SplitJoin(parts, '_');
    assert parts[0] in parts;
    assert joined != "";
  }

  /** A slug is the slug of itself, so a key that was made of a name still names the same key; and the
      case of letters makes no difference. */
  lemma SlugIsStable(s: string)
    ensures Slug(Slug(s)) == Slug(s)
    ensures Slug(T.Lower(s)) == Slug(s)
  {
    assert Normalized(T.Lower(s)) == Normalized(s);
    var parts := NonEmpty(T.Split(Normalized(s), '_'));
    SplitWords(Normalized(s));
    NonEmptyWords(T.Split(Normalized(s), '_'));
    if parts != [] {
      assert parts[0] in parts;
      JoinedWords(parts);
      WordsStay(parts);
    } else {
      assert Word("pool") && T.Join(["pool"], '_') == "pool";
      JoinedWords(["pool"]);
    }
  }

  function Named(name: string): Fields {
    map["name" := Str(name)]
  }

  lemma NamedKey(name: string, index: nat)
    requires name != ""
    ensures PoolKey(Named(name), index) == Slug(name)
  {
    assert |"id"| == 2 && "uuid"[0] == 'u' && "guid"[0] == 'g' && "name"[0] == 'n';
    var pool := Named(name);
    assert Get(pool, "id") == Null && Get(pool, "uuid") == Null && Get(pool, "guid") == Null;
    NotGiven(pool, KEY_FIELDS);
    NotGiven(pool, KEY_FIELDS[1..]);
    NotGiven(pool, KEY_FIELDS[1..][1..]);
    assert KEY_FIELDS[1..][1..][1..][0] == "name";
    assert FirstGiven(pool, KEY_FIELDS) == Some(Str(name));
  }

  lemma NotGiven(fields: Fields, keys: seq<string>)
    requires keys != [] && !V.Given(Get(fields, keys[0]))
    ensures FirstGiven(fields, keys) == FirstGiven(fields, keys[1..])
  {
  }

  /** Two pools whose names differ can share a key, and then the second is not found by its own. */
  lemma SecondPoolIsHidden()
    ensures var pools := [Named("a b"), Named("a-b")];
      PoolKey(pools[1], 1) == PoolKey(pools[0], 0) && Lookup(pools, PoolKey(pools[1], 1)) == Some(0)
  {
    var pools := [Named("a b"), Named("a-b")];
    NamedKey("a b", 0);
    NamedKey("a-b", 1);
    assert Normalized("a b") == Normalized("a-b");
    OwnKeyFindsFirst(pools, 1);
    assert HasKey(pools, 0, PoolKey(pools[1], 1));
  }

  /** The number of an indexed key is read back. */
  lemma IndexedKey(index: nat)
    ensures KeyNumber("pool_" + T.NatText(index + 1)) == Some(index + 1)
  {
    var digits := T.NatText(index + 1);
    assert ("pool_" + digits)[5..] == digits;
    T.NatTextValue(index + 1);
  }

  /** The indexed key of a place finds the pool there, whatever names it gained, exactly when no
      other pool owns that key before it. */
  lemma IndexedKeyStillFinds(pools: seq<Fields>, i: nat)
    requires i < |pools|
    ensures var key := "pool_" + T.NatText(i + 1);
            Lookup(pools, key) == Some(i) <==> forall k :: HasKey(pools, k, key) ==> HasKey(pools, i, key) && i <= k
  {
    IndexedKey(i);
  }

  // ---------------------------------------------------------------- keys of older versions

  /** The pool has a text under one of the fields that older versions made keys of, or a name, whose
      letters and digits are the token. */
  ghost predicate AnswersTo(pool: Fields, index: nat, token: string) {
    || (exists text :: NamedBy(pool, text) && I.Token(text) == token)
    || I.Token(PoolName(pool, index)) == token
  }

  ghost predicate NamedBy(pool: Fields, text: string) {
    exists key :: I.TextOf(Get(pool, key)) == Some(text) && key in
      ["id", "uuid", "guid", "poolId", "pool_id", "storagePoolId", "storage_pool_id", "volumeId", "volume_id", "name",
       "label"]
  }

  lemma AnswersExactly(pool: Fields, index: nat, token: string)
    ensures Answers(pool, index, token) <==> AnswersTo(pool, index, token)
  {
    if key :|
      key in LEGACY_FIELDS && I.TextOf(Get(pool, key)).Some? && I.Token(I.TextOf(Get(pool, key)).value) == token
    {
      assert NamedBy(pool, I.TextOf(Get(pool, key)).value);
    }
  }

  /** No pool owns the key, and it is no number of a place. */
  ghost predicate Retired(pools: seq<Fields>, key: string) {
    && (forall i :: !HasKey(pools, i, key))
    && (KeyNumber(key).Some? ==> KeyNumber(key).value == 0 || KeyNumber(key).value > |pools|)
  }

  /** Such a key finds the first pool that answers to its letters and digits, and nothing if there is
      none or it has no letter and no digit. */
  lemma RetiredKeyFindsFirst(pools: seq<Fields>, key: string)
    requires Retired(pools, key)
    ensures var place, token := Lookup(pools, key), I.Token(key);
      && (place.Some? <==> token != "" && exists i :: 0 <= i < |pools| && AnswersTo(pools[i], i, token))
      && (place.Some? ==>
            && place.value < |pools| && AnswersTo(pools[place.value], place.value, token)
            && forall i :: 0 <= i < place.value ==> !AnswersTo(pools[i], i, token))
  {
    var token := I.Token(key);
    forall i | 0 <= i < |pools| ensures HasToken(pools, i, token) <==> AnswersTo(pools[i], i, token) {
      AnswersExactly(pools[i], i, token);
    }
  }

  /** So the raw text that an older version made a pool's key of still finds a pool, the pool itself
      unless an earlier one answers to the same letters and digits. */
  lemma OldKeyStillFinds(pools: seq<Fields>, i: nat, text: string)
    requires i < |pools| && NamedBy(pools[i], text) && I.Token(text) != "" && Retired(pools, text)
    ensures Lookup(pools, text).Some? && Lookup(pools, text).value <= i
    ensures Lookup(pools, text) == Some(i) <==> forall k :: 0 <= k < i ==> !AnswersTo(pools[k], k, I.Token(text))
  {
    assert AnswersTo(pools[i], i, I.Token(text));
    RetiredKeyFindsFirst(pools, text);
  }

  // ---------------------------------------------------------------- pools without a key, and names

  /** None of the thirteen fields that a key is made of is given. */
  predicate Keyless(pool: Fields) {
    forall key :: key in KEY_FIELDS ==> Get(pool, key) == Null || Get(pool, key) == Str("")
  }

  lemma {:induction false} NothingGiven(fields: Fields, keys: seq<string>)
    requires forall key :: key in keys ==> Get(fields, key) == Null || Get(fields, key) == Str("")
    ensures FirstGiven(fields, keys) == None
  {
    if keys != [] {
      assert keys[0] in keys;
      NothingGiven(fields, keys[1..]);
    }
  }

  /** Such a pool is keyed by its place, counted from one, and found by that key unless an earlier
      pool owns it. */
  lemma KeylessPoolIsNumbered(pools: seq<Fields>, i: nat)
    requires i < |pools| && Keyless(pools[i])
    ensures var key := "pool_" + T.NatText(i + 1);
      && PoolKey(pools[i], i) == key && KeyNumber(key) == Some(i + 1)
      && (Lookup(pools, key) == Some(i) <==> forall k :: 0 <= k < i ==> !HasKey(pools, k, key))
  {
    NothingGiven(pools[i], KEY_FIELDS);
    IndexedKey(i);
    OwnKeyFindsFirst(pools, i);
  }

  /** A text of at least 24 letters and digits, all of them hexadecimal digits. */
  predicate LooksLikeMachine(text: string) {
    |I.Token(text)| >= 24 && forall c :: c in I.Token(text) ==> c in "0123456789abcdef"
  }

  lemma MachineExactly(text: string)
    ensures MachineIdentifier(text) <==> LooksLikeMachine(text)
  {
    forall c: char ensures IsHex(c) <==> c in "0123456789abcdef" {
    }
    var compact := I.Token(text);
    assert (forall i :: 0 <= i < |compact| ==> IsHex(compact[i])) <==> forall c :: c in compact ==> IsHex(c);
  }

  /** The name of a pool: its first name text, whatever it looks like; else its first id text that does
      not look like a machine's; else its place. */
  lemma NameMeans(pool: Fields, index: nat)
    ensures var name := PoolName(pool, index);
      || (exists i :: 0 <= i < |NAME_FIELDS| && I.TextOf(Get(pool, NAME_FIELDS[i])) == Some(name)
                      && forall k :: 0 <= k < i ==> I.TextOf(Get(pool, NAME_FIELDS[k])).None?)
      || (&& (forall k :: 0 <= k < |NAME_FIELDS| ==> I.TextOf(Get(pool, NAME_FIELDS[k])).None?)
          && ((!LooksLikeMachine(name)
               && exists i :: 0 <= i < |ID_FIELDS| && I.TextOf(Get(pool, ID_FIELDS[i])) == Some(name))
              || (name == "Pool " + T.NatText(index + 1)
                  && forall i :: 0 <= i < |ID_FIELDS| && I.TextOf(Get(pool, ID_FIELDS[i])).Some? ==>
                       LooksLikeMachine(I.TextOf(Get(pool, ID_FIELDS[i])).value))))
  {
    forall text ensures MachineIdentifier(text) <==> LooksLikeMachine(text) {
      MachineExactly(text);
    }
    forall key ensures UsableText(pool, key, false) == I.TextOf(Get(pool, key)) {
    }
  }
}
