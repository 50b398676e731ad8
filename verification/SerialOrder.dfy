/** What the documents are after any interleaving: the updates done one after another. */
module SerialOrder {
  import opened Prelude
  import opened SettingsWrite
  import opened WriteProtocol
  import opened SerialWrites
  import opened WriteSteps

  // ---------------------------------------------------------------- the serial reading

  /** One update done alone: read the document, change it, write it. */
  function Changed(dev: Device, key: string, d: Document, update: Update, verb: Method): Document {
    Stored(dev, d, dev.view(key, d), update, verb)
  }

  function ApplyTurn(dev: Device, docs: map<string, Document>, t: Turn): map<string, Document> {
    if t.effect.None? || t.key !in docs then docs
    else docs[t.key := Changed(dev, t.key, docs[t.key], t.update, t.effect.value)]
  }

  /** The turns done one after another, in lock order. */
  function Replay(dev: Device, docs: map<string, Document>, turns: seq<Turn>): map<string, Document> {
    if turns == [] then docs else ApplyTurn(dev, Replay(dev, docs, turns[..|turns| - 1]), turns[|turns| - 1])
  }

  function ApplyTo(dev: Device, key: string, d: Document, t: Turn): Document {
    if t.key == key && t.effect.Some? then Changed(dev, key, d, t.update, t.effect.value) else d
  }

  /** What the turns done one after another make of one document. */
  function Fold(dev: Device, key: string, d: Document, turns: seq<Turn>): Document {
    if turns == [] then d
    else ApplyTo(dev, key, Fold(dev, key, d, turns[..|turns| - 1]), turns[|turns| - 1])
  }

  /** Documents do not influence each other. */
  lemma {:induction false} ReplayIsFold(dev: Device, docs: map<string, Document>, turns: seq<Turn>)
    ensures Replay(dev, docs, turns).Keys == docs.Keys
    ensures forall key :: key in docs ==> Replay(dev, docs, turns)[key] == Fold(dev, key, docs[key], turns)
  {
    if turns != [] {
      ReplayIsFold(dev, docs, turns[..|turns| - 1]);
    }
  }

  // ---------------------------------------------------------------- documents

  /** No turn from `j` on has changed the key. */
  predicate QuietFrom(turns: seq<Turn>, j: nat, key: string) {
    forall k :: j <= k < |turns| && turns[k].key == key ==> turns[k].effect.None?
  }

  lemma {:induction false} FoldQuiet(dev: Device, key: string, d: Document, turns: seq<Turn>, j: nat)
    requires j <= |turns| && QuietFrom(turns, j, key)
    ensures Fold(dev, key, d, turns) == Fold(dev, key, d, turns[..j])
    decreases |turns| - j
  {
    if j == |turns| {
      assert turns[..j] == turns;
    } else {
      FoldQuiet(dev, key, d, turns, j + 1);
      assert turns[..j + 1][..j] == turns[..j];
    }
  }

  /** The turns do the same to the key. */
  predicate AlikeOn(turns: seq<Turn>, after: seq<Turn>, key: string) {
    && |turns| == |after|
    && forall k :: 0 <= k < |turns| ==>
         && (turns[k].key == key <==> after[k].key == key)
         && (turns[k].key == key ==> turns[k].update == after[k].update && turns[k].effect == after[k].effect)
  }

  lemma {:induction false} FoldAlike(dev: Device, key: string, d: Document, turns: seq<Turn>, after: seq<Turn>)
    requires AlikeOn(turns, after, key)
    ensures Fold(dev, key, d, turns) == Fold(dev, key, d, after)
  {
    if turns != [] {
      FoldAlike(dev, key, d, turns[..|turns| - 1], after[..|after| - 1]);
    }
  }

  /** The documents are the turns done in lock order, and every turn read what the turns before
      it had made. */
  ghost predicate Serial(dev: Device, start: map<string, Document>, s: System) {
    && s.docs.Keys == start.Keys
    && (forall key :: key in start ==> s.docs[key] == Fold(dev, key, start[key], s.turns))
    && (forall j :: 0 <= j < |s.turns| ==> ReadInOrder(dev, start, s.turns, j))
  }

  ghost predicate ReadInOrder(dev: Device, start: map<string, Document>, turns: seq<Turn>, j: nat)
    requires j < |turns|
  {
    var key := turns[j].key;
    turns[j].read.Some? && key in start ==>
      turns[j].read.value == dev.view(key, Fold(dev, key, start[key], turns[..j]))
  }

  /** What turn `k` read is as before, for the turns before it do the same to its key. */
  lemma ReadAlike(dev: Device, start: map<string, Document>, turns: seq<Turn>, after: seq<Turn>, k: nat)
    requires k < |turns| <= |after| && ReadInOrder(dev, start, turns, k)
    requires after[k].key == turns[k].key && after[k].read == turns[k].read
    requires AlikeOn(turns[..k], after[..k], turns[k].key)
    ensures ReadInOrder(dev, start, after, k)
  {
    if turns[k].key in start {
      FoldAlike(dev, turns[k].key, start[turns[k].key], turns[..k], after[..k]);
    }
  }

  /** A step that changes no document. */
  lemma QuietSerial(dev: Device, start: map<string, Document>, s: System, t: System)
    requires Serial(dev, start, s) && Quiet(dev, s, t)
    ensures Serial(dev, start, t)
  {
    var n := |s.turns|;
    forall key | key in start ensures t.docs[key] == Fold(dev, key, start[key], t.turns) {
      FoldQuiet(dev, key, start[key], t.turns, n);
      FoldAlike(dev, key, start[key], s.turns, t.turns[..n]);
    }
    forall k | 0 <= k < |t.turns| ensures ReadInOrder(dev, start, t.turns, k) {
      assert Remembers(dev, s, t, k);
      var turn := t.turns[k];
      if k < n && turn.read == s.turns[k].read {
        ReadAlike(dev, start, s.turns, t.turns, k);
      } else if turn.read.Some? && turn.key in start {
        FoldQuiet(dev, turn.key, start[turn.key], t.turns, k);
      }
    }
  }

  /** Every turn that changed the device has read. */
  predicate ReadersWrite(turns: seq<Turn>) {
    forall j :: 0 <= j < |turns| && turns[j].effect.Some? ==> turns[j].read.Some?
  }

  lemma OrderlyReaders(dev: Device, s: System)
    requires Orderly(dev, s)
    ensures ReadersWrite(s.turns)
  {
    forall j | 0 <= j < |s.turns| && s.turns[j].effect.Some? ensures s.turns[j].read.Some? {
      assert TurnOk(dev, s, s.turns[j]);
    }
  }

  /** The request of turn `j` takes effect, and no later turn has read its target: the documents
      are again the turns done in lock order. */
  lemma LandSerial(dev: Device, start: map<string, Document>, s: System, t: System, j: nat, verb: Method)
    requires Serial(dev, start, s) && ReadersWrite(s.turns) && Lands(dev, s, t, j, verb) && !LaterRead(s.turns, j)
    ensures Serial(dev, start, t)
  {
    var turns, after, turn := s.turns, t.turns, t.turns[j];
    forall key | key in start ensures t.docs[key] == Fold(dev, key, start[key], after) {
      if key == turn.key {
        LandFold(dev, start, turns, j, verb, turn);
      } else {
        FoldAlike(dev, key, start[key], turns, after);
      }
    }
    forall k | 0 <= k < |after| ensures ReadInOrder(dev, start, after, k) {
      if !(k > j && turns[k].key == turn.key) {
        ReadAlike(dev, start, turns, after, k);
      }
    }
  }

  /** What the landing makes of its own document. */
  lemma LandFold(dev: Device, start: map<string, Document>, turns: seq<Turn>, j: nat, verb: Method, turn: Turn)
    requires ReadersWrite(turns) && j < |turns| && SameTurn(turn, turns[j]) && turn.key in start
    requires turns[j].read.Some? && turns[j].effect.None? && !LaterRead(turns, j)
    requires dev.body(turns[j].read.value, turns[j].update).Some? && ReadInOrder(dev, start, turns, j)
    requires turn.read == turns[j].read && turn.effect == Some(verb)
    ensures var key := turn.key;
      Fold(dev, key, start[key], turns[j := turn])
        == Stored(dev, Fold(dev, key, start[key], turns), turn.read.value, turn.update, verb)
  {
    var key, after := turn.key, turns[j := turn];
    assert QuietFrom(turns, j, key) && QuietFrom(after, j + 1, key);
    FoldQuiet(dev, key, start[key], turns, j);
    FoldQuiet(dev, key, start[key], after, j + 1);
    assert after[..j + 1][..j] == turns[..j];
  }

  /** Every step keeps the serial reading, unless a late request overtakes a later tenure. */
  lemma NextSerial(dev: Device, start: map<string, Document>, s: System, e: Event)
    requires Orderly(dev, s) && Serial(dev, start, s) && !Next(dev, s, e).crossed
    ensures Serial(dev, start, Next(dev, s, e))
  {
    var t := Next(dev, s, e);
    NextSteps(dev, s, e);
    if Quiet(dev, s, t) {
      QuietSerial(dev, start, s, t);
    } else {
      var j: nat, verb :| Lands(dev, s, t, j, verb);
      OrderlyReaders(dev, s);
      LandSerial(dev, start, s, t, j, verb);
    }
  }

  /** What was crossed stays crossed. */
  lemma CrossedStays(dev: Device, s: System, e: Event)
    requires Orderly(dev, s)
    ensures s.crossed ==> Next(dev, s, e).crossed
    ensures s.overtaken ==> Next(dev, s, e).overtaken
  {
    NextSteps(dev, s, e);
  }

  lemma {:induction false} RunSerial(dev: Device, start: map<string, Document>, events: seq<Event>)
    requires !Run(dev, Start(start), events).crossed
    ensures Serial(dev, start, Run(dev, Start(start), events))
  {
    if events != [] {
      var front := events[..|events| - 1];
      RunKeeps(dev, start, front);
      CrossedStays(dev, Run(dev, Start(start), front), events[|events| - 1]);
      RunSerial(dev, start, front);
      NextSerial(dev, start, Run(dev, Start(start), front), events[|events| - 1]);
    }
  }

  // ---------------------------------------------------------------- serial equivalence

  /** Call `i` has a turn of its own key and update that changed the device. */
  predicate TookEffect(s: System, i: nat)
    requires i < |s.tasks|
  {
    exists j :: 0 <= j < |s.turns| && s.turns[j].task == i && s.turns[j].effect.Some?
             && s.turns[j].key == s.tasks[i].key && s.turns[j].update == s.tasks[i].update
  }

  /** For any number of concurrent calls and any interleaving, every call has at most one turn,
      which is of its own key and update; an acknowledged call's turn took effect; and unless a
      request left behind takes effect after a later tenure has read its target, the documents
      are the effective updates done one after another in lock order. */
  lemma SerialEquivalence(dev: Device, start: map<string, Document>, events: seq<Event>, s: System)
    requires s == Run(dev, Start(start), events)
    ensures forall j, k :: 0 <= j < k < |s.turns| ==> s.turns[j].task != s.turns[k].task
    ensures forall j :: 0 <= j < |s.turns| ==> TurnOk(dev, s, s.turns[j])
    ensures forall i: nat :: i < |s.tasks| && s.tasks[i].phase == Done(Ended(Acknowledged)) ==> TookEffect(s, i)
    ensures !s.crossed ==> s.docs == Replay(dev, start, s.turns)
  {
    RunKeeps(dev, start, events);
    forall i: nat | i < |s.tasks| && s.tasks[i].phase == Done(Ended(Acknowledged)) ensures TookEffect(s, i) {
      assert HasTurn(s.turns, i);
      var j :| 0 <= j < |s.turns| && s.turns[j].task == i;
      assert TurnOk(dev, s, s.turns[j]);
    }
    if !s.crossed {
      RunSerial(dev, start, events);
      ReplayIsFold(dev, start, s.turns);
    }
  }

  /** The states of a call in which the device may have been changed for it. */
  predicate MayHaveWritten(phase: Phase) {
    phase == Done(Ended(Acknowledged)) || phase == Done(Ended(Ambiguous)) || phase == Done(Cancelled)
  }

  /** A call that found its target gone, failed to read, was refused or met absent
      endpoints has written nothing; nor has one that has not finished. */
  lemma SilentCalls(dev: Device, start: map<string, Document>, events: seq<Event>, s: System, i: nat)
    requires s == Run(dev, Start(start), events) && i < |s.tasks| && !MayHaveWritten(s.tasks[i].phase)
    ensures !TookEffect(s, i)
  {
    RunKeeps(dev, start, events);
    forall j | 0 <= j < |s.turns| && s.turns[j].task == i ensures s.turns[j].effect.None? {
      assert TurnOk(dev, s, s.turns[j]);
    }
  }
}
