/** What a global disk merged with a known drive still matches. */
module MergedIdentity {
  import opened Prelude
  import opened Json
  import opened DriveIdentity
  import opened DriveReconciliation
  import D = DriveMerge
  import T = Text

  // ---------------------------------------------------------------- field by field

  /** The merge takes the value under the key from the known drive: the disk has no useful one
      where the known drive has, or no such field at all. */
  predicate Replaced(drive: Fields, known: Fields, key: string) {
    key !in drive || (D.Missing(Get(drive, key)) && !D.Missing(Get(known, key)))
  }

  /** No identity field holds an object in both records; only such fields are merged inside. */
  predicate SeparateIdentity(drive: Fields, known: Fields) {
    forall group :: SeparateUnder(drive, known, IdentityKeys(group))
  }

  predicate SeparateUnder(drive: Fields, known: Fields, keys: seq<string>) {
    forall key :: key in keys ==> !(Get(drive, key).Obj? && Get(known, key).Obj?)
  }

  lemma MergedField(drive: Fields, known: Fields, key: string)
    requires !(Get(drive, key).Obj? && Get(known, key).Obj?)
    ensures Get(Merged(drive, known), key) == if Replaced(drive, known, key) then Get(known, key) else Get(drive, key)
  {
    var m := Merged(drive, known);
    if key in m {
      assert m[key] == D.Field(Obj(drive), Obj(known), key);
    }
  }

  /** The values of the disk that the merge leaves, and those it takes from the known drive. */
  function Kept(drive: Fields, known: Fields, keys: seq<string>): set<string> {
    set key | key in keys && !Replaced(drive, known, key) && TextOf(Get(drive, key)).Some?
      :: Token(TextOf(Get(drive, key)).value)
  }

  function Gained(drive: Fields, known: Fields, keys: seq<string>): set<string> {
    set key | key in keys && Replaced(drive, known, key) && TextOf(Get(known, key)).Some?
      :: Token(TextOf(Get(known, key)).value)
  }

  lemma NoWordChars(s: string)
    requires forall i :: 0 <= i < |s| ==> !IsWordChar(s[i])
    ensures WordChars(s) == ""
  {
  }

  /** A value that carries nothing has no text, or a text without letters and digits. */
  lemma MissingIsBlank(j: Json)
    requires D.Missing(j) && TextOf(j).Some?
    ensures Token(TextOf(j).value) == ""
  {
    assert TextOf(Str("")) == None;
    if j.List? {
      assert T.SkipSpaces("[...]") == "[...]" && T.TrimEnd("[...]") == "[...]" && T.Lower("[...]") == "[...]";
      NoWordChars("[...]");
    } else if j.Obj? {
      assert T.SkipSpaces("{...}") == "{...}" && T.TrimEnd("{...}") == "{...}" && T.Lower("{...}") == "{...}";
      NoWordChars("{...}");
    }
  }

  /** The merged record has the values kept and gained; of the disk's values only a blank one
      can get lost. */
  lemma MergedTokens(drive: Fields, known: Fields, keys: seq<string>)
    requires SeparateUnder(drive, known, keys)
    ensures Tokens(Merged(drive, known), keys) == Kept(drive, known, keys) + Gained(drive, known, keys)
    ensures Kept(drive, known, keys) <= Tokens(drive, keys) <= Kept(drive, known, keys) + {""}
    ensures Gained(drive, known, keys) <= Tokens(known, keys)
  {
    var m := Merged(drive, known);
    forall key | key in keys
      ensures Get(m, key) == if Replaced(drive, known, key) then Get(known, key) else Get(drive, key)
    {
      MergedField(drive, known, key);
    }
    forall t | t in Tokens(drive, keys) ensures t in Kept(drive, known, keys) + {""} {
      var key :| key in keys && TextOf(Get(drive, key)).Some? && Token(TextOf(Get(drive, key)).value) == t;
      if Replaced(drive, known, key) {
        MissingIsBlank(Get(drive, key));
      }
    }
  }

  // ---------------------------------------------------------------- the exact condition

  function KeptIdentity(drive: Fields, known: Fields, group: IdentityGroup): set<string> {
    Kept(drive, known, IdentityKeys(group))
  }

  function GainedIdentity(drive: Fields, known: Fields, group: IdentityGroup): set<string> {
    Gained(drive, known, IdentityKeys(group))
  }

  /** Something of the disk stays in the group: a value of its own, or a blank one that it shares
      with what the known drive brings. */
  predicate RemembersDisk(drive: Fields, known: Fields, group: IdentityGroup) {
    || KeptIdentity(drive, known, group) != {}
    || ("" in Identity(drive, group) && "" in GainedIdentity(drive, known, group))
  }

  /** Something of the known drive comes into the group, or was on the disk and stays. */
  predicate RemembersKnown(drive: Fields, known: Fields, group: IdentityGroup) {
    || GainedIdentity(drive, known, group) != {}
    || !(KeptIdentity(drive, known, group) !! Identity(known, group))
  }

  /** Each record is remembered in some group, and in every strong group in which it has values
      and the other record leaves some. */
  predicate MergeKeepsIdentity(drive: Fields, known: Fields) {
    && (exists group :: RemembersDisk(drive, known, group))
    && (exists group :: RemembersKnown(drive, known, group))
    && (forall group :: Strong(group) && Identity(drive, group) != {} && GainedIdentity(drive, known, group) != {} ==>
          RemembersDisk(drive, known, group))
    && (forall group :: Strong(group) && Identity(known, group) != {} && KeptIdentity(drive, known, group) != {} ==>
          RemembersKnown(drive, known, group))
  }

  /** The parts of one group. */
  lemma GroupParts(drive: Fields, known: Fields, group: IdentityGroup)
    requires SeparateIdentity(drive, known)
    ensures var m, kept, gained := Identity(Merged(drive, known), group), KeptIdentity(drive, known, group),
                                   GainedIdentity(drive, known, group);
      && m == kept + gained && kept <= Identity(drive, group) <= kept + {""} && gained <= Identity(known, group)
  {
    assert SeparateUnder(drive, known, IdentityKeys(group));
    MergedTokens(drive, known, IdentityKeys(group));
  }

  /** In one group: sharing a value with either record is remembering it. */
  lemma GroupShares(drive: Fields, known: Fields, group: IdentityGroup)
    requires SeparateIdentity(drive, known)
    ensures var m := Identity(Merged(drive, known), group);
      && (!(m !! Identity(drive, group)) <==> RemembersDisk(drive, known, group))
      && (!(m !! Identity(known, group)) <==> RemembersKnown(drive, known, group))
      && (Contradict(m, Identity(drive, group)) <==>
            && Identity(drive, group) != {} && GainedIdentity(drive, known, group) != {}
            && !RemembersDisk(drive, known, group))
      && (Contradict(m, Identity(known, group)) <==>
            && Identity(known, group) != {} && KeptIdentity(drive, known, group) != {}
            && !RemembersKnown(drive, known, group))
  {
    GroupParts(drive, known, group);
    SetParts(Identity(Merged(drive, known), group), Identity(drive, group), Identity(known, group),
             KeptIdentity(drive, known, group), GainedIdentity(drive, known, group));
  }

  lemma SetParts(m: set<string>, drive: set<string>, known: set<string>, kept: set<string>, gained: set<string>)
    requires m == kept + gained && kept <= drive <= kept + {""} && gained <= known
    ensures !(m !! drive) <==> kept != {} || ("" in drive && "" in gained)
    ensures !(m !! known) <==> gained != {} || !(kept !! known)
  {
    if t :| t in kept {
      assert t in m && t in drive;
    }
    if t :| t in gained {
      assert t in m && t in known;
    }
    if t :| t in kept && t in known {
      assert t in m;
    }
    if "" in drive && "" in gained {
      assert "" in m;
    }
  }

  /** The exact condition: the record merged of a disk and a known drive, with no identity field
      that is an object in both, matches both of them exactly when the merge keeps their identity. */
  lemma MergedMatchesExactly(drive: Fields, known: Fields)
    requires SeparateIdentity(drive, known)
    ensures Matches(Merged(drive, known), drive) && Matches(Merged(drive, known), known)
       <==> MergeKeepsIdentity(drive, known)
  {
    var m := Merged(drive, known);
    forall group
      ensures !(Identity(m, group) !! Identity(drive, group)) <==> RemembersDisk(drive, known, group)
      ensures !(Identity(m, group) !! Identity(known, group)) <==> RemembersKnown(drive, known, group)
      ensures Contradict(Identity(m, group), Identity(drive, group)) <==>
                && Identity(drive, group) != {} && GainedIdentity(drive, known, group) != {}
                && !RemembersDisk(drive, known, group)
      ensures Contradict(Identity(m, group), Identity(known, group)) <==>
                && Identity(known, group) != {} && KeptIdentity(drive, known, group) != {}
                && !RemembersKnown(drive, known, group)
    {
      GroupShares(drive, known, group);
    }
    SharingMatches(m, drive);
    SharingMatches(m, known);
  }

  lemma SharingMatches(left: Fields, right: Fields)
    ensures Matches(left, right) <==>
              && (exists group :: !(Identity(left, group) !! Identity(right, group)))
              && (forall group :: Strong(group) ==> !Contradict(Identity(left, group), Identity(right, group)))
  {
    if group :| !(Identity(left, group) !! Identity(right, group)) {
      assert Identity(left, group) != {};
    }
  }

  // ---------------------------------------------------------------- when it holds

  /** No value that both records have is lost from the disk. */
  predicate SharedStays(drive: Fields, known: Fields) {
    forall group :: "" in Identity(drive, group) && "" in Identity(known, group) ==>
      "" in KeptIdentity(drive, known, group)
  }

  /** The merged record still matches both records unless they share a blank value that the disk
      loses, in particular if the known drive has none, or the disk has no empty list or object. */
  lemma MergedStillMatches(drive: Fields, known: Fields)
    requires SeparateIdentity(drive, known) && Matches(drive, known) && SharedStays(drive, known)
    ensures Matches(Merged(drive, known), drive) && Matches(Merged(drive, known), known)
  {
    forall group | !(Identity(drive, group) !! Identity(known, group))
      ensures RemembersDisk(drive, known, group) && RemembersKnown(drive, known, group)
    {
      GroupParts(drive, known, group);
      SharedRemembered(drive, known, group);
    }
    SharingMatches(drive, known);
    forall group | Strong(group)
      ensures Identity(drive, group) != {} && GainedIdentity(drive, known, group) != {} ==>
                RemembersDisk(drive, known, group)
      ensures Identity(known, group) != {} && KeptIdentity(drive, known, group) != {} ==>
                RemembersKnown(drive, known, group)
    {
      GroupParts(drive, known, group);
      assert !Contradict(Identity(drive, group), Identity(known, group));
    }
    MergedMatchesExactly(drive, known);
  }

  lemma SharedRemembered(drive: Fields, known: Fields, group: IdentityGroup)
    requires !(Identity(drive, group) !! Identity(known, group))
    requires Identity(drive, group) * Identity(known, group) <= KeptIdentity(drive, known, group)
    ensures RemembersDisk(drive, known, group) && RemembersKnown(drive, known, group)
  {
    var t :| t in Identity(drive, group) && t in Identity(known, group);
    assert t in Identity(drive, group) * Identity(known, group);
    assert t in KeptIdentity(drive, known, group);
  }

  /** Blank values are needed to lose a match: a known drive without one keeps it. */
  lemma NoBlankStillMatches(drive: Fields, known: Fields)
    requires SeparateIdentity(drive, known) && Matches(drive, known)
    requires forall group :: "" !in Identity(known, group)
    ensures Matches(Merged(drive, known), drive) && Matches(Merged(drive, known), known)
  {
    MergedStillMatches(drive, known);
  }

  // ---------------------------------------------------------------- a lost match

  const EMPTY_SERIAL: Fields := map["serial" := List([]), "wwn" := Null]
  const GIVEN_SERIAL: Fields := map["serial" := Str("a"), "wwn" := List([])]

  function TokenOf(j: Json): set<string> {
    match TextOf(j)
    case None => {}
    case Some(text) => {Token(text)}
  }

  lemma SerialIdentity(fields: Fields)
    requires fields.Keys == {"serial", "wwn"}
    ensures Identity(fields, Serial) == TokenOf(fields["serial"]) + TokenOf(fields["wwn"])
  {
    var keys := IdentityKeys(Serial);
    assert keys[0] == "serial" && keys[1] == "wwn" && "serial" in keys && "wwn" in keys;
    assert forall key :: key in keys ==> key == "serial" || key == "wwn";
    assert Get(fields, "serial") == fields["serial"] && Get(fields, "wwn") == fields["wwn"];
  }

  /** The merge can replace the only value that a disk shares with the known drive, and then the
      merged record conflicts with its own disk. */
  lemma MergeCanLoseIdentity()
    ensures Matches(EMPTY_SERIAL, GIVEN_SERIAL)
    ensures !Matches(Merged(EMPTY_SERIAL, GIVEN_SERIAL), EMPTY_SERIAL)
  {
    ThreeSerials();
    EmptyOtherwise();
    LosesSerial(EMPTY_SERIAL, GIVEN_SERIAL, Merged(EMPTY_SERIAL, GIVEN_SERIAL));
  }

  lemma ThreeSerials()
    ensures Identity(EMPTY_SERIAL, Serial) == {""} && Identity(GIVEN_SERIAL, Serial) == {"a", ""}
    ensures Identity(Merged(EMPTY_SERIAL, GIVEN_SERIAL), Serial) == {"a"}
  {
    MergedSerial();
    SerialValues();
    SerialIdentity(EMPTY_SERIAL);
    SerialIdentity(GIVEN_SERIAL);
    SerialIdentity(Merged(EMPTY_SERIAL, GIVEN_SERIAL));
  }

  lemma SerialValues()
    ensures TokenOf(List([])) == {""} && TokenOf(Str("a")) == {"a"} && TokenOf(Null) == {}
  {
    MissingIsBlank(List([]));
    assert TextOf(List([])).Some?;
    LetterToken('a');
  }

  lemma EmptyOtherwise()
    ensures forall group :: group != Serial ==> Identity(EMPTY_SERIAL, group) == {}
  {
    assert "serial"[0] == 's' && "wwn"[0] == 'w' && |"serial"| == 6;
    assert |"slotId"| == 6 && "slotId"[1] == 'l' && "serial"[1] == 'e' && "bay"[0] == 'b';
    forall group | group != Serial ensures Identity(EMPTY_SERIAL, group) == {} {
      forall key | key in IdentityKeys(group) ensures key !in EMPTY_SERIAL {
      }
    }
  }

  lemma MergedSerial()
    ensures var m := Merged(EMPTY_SERIAL, GIVEN_SERIAL);
      m.Keys == {"serial", "wwn"} && m["serial"] == Str("a") && m["wwn"] == Null
  {
    var m := Merged(EMPTY_SERIAL, GIVEN_SERIAL);
    assert "serial"[0] == 's' && "wwn"[0] == 'w';
    assert m["serial"] == D.Field(Obj(EMPTY_SERIAL), Obj(GIVEN_SERIAL), "serial");
    assert m["wwn"] == D.Field(Obj(EMPTY_SERIAL), Obj(GIVEN_SERIAL), "wwn");
  }

  lemma LosesSerial(drive: Fields, known: Fields, m: Fields)
    requires Identity(drive, Serial) == {""} && Identity(known, Serial) == {"a", ""} && Identity(m, Serial) == {"a"}
    requires forall group :: group != Serial ==> Identity(drive, group) == {}
    ensures Matches(drive, known) && !Matches(m, drive)
  {
    assert "" in Identity(drive, Serial) && "" in Identity(known, Serial);
    SharedValueMatches(drive, known, Serial, "");
    assert "" != "a";
    assert Strong(Serial) && Contradict(Identity(m, Serial), Identity(drive, Serial));
  }
}
