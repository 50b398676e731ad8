/** Requests that a call left behind and that the device carries out later. */
module LateWrites {
  import opened Prelude
  import opened SettingsRead
  import opened SettingsWrite
  import opened WriteProtocol
  import opened SerialWrites
  import opened SerialOrder

  lemma {:induction false} FoldConcat(dev: Device, key: string, d: Document, a: seq<Turn>, b: seq<Turn>)
    ensures Fold(dev, key, d, a + b) == Fold(dev, key, Fold(dev, key, d, a), b)
  {
    if b == [] {
      assert a + b == a;
    } else {
      FoldConcat(dev, key, d, a, b[..|b| - 1]);
      assert (a + b)[..|a + b| - 1] == a + b[..|b| - 1];
    }
  }

  /** What the turns in lock order make of the document of a late request. */
  lemma LateFold(dev: Device, start: map<string, Document>, turns: seq<Turn>, j: nat, turn: Turn, verb: Method)
    requires j < |turns| && turns[j].read.Some? && turns[j].key in start && ReadInOrder(dev, start, turns, j)
    requires SameTurn(turn, turns[j]) && turn.effect == Some(verb)
    ensures var key := turn.key; var before := Fold(dev, key, start[key], turns[..j]);
      Fold(dev, key, start[key], turns[j := turn])
        == Fold(dev, key, Stored(dev, before, turns[j].read.value, turn.update, verb), turns[j + 1..])
  {
    var key, upTo := turn.key, turns[j := turn][..j + 1];
    assert upTo[..j] == turns[..j];
    assert turns[j := turn] == upTo + turns[j + 1..];
    FoldConcat(dev, key, start[key], upTo, turns[j + 1..]);
  }

  /** The document before a late request. */
  lemma BeforeLate(dev: Device, key: string, d: Document, turns: seq<Turn>, j: nat)
    requires j < |turns| && turns[j].effect.None?
    ensures Fold(dev, key, d, turns) == Fold(dev, key, Fold(dev, key, d, turns[..j]), turns[j + 1..])
  {
    var upTo := turns[..j + 1];
    assert upTo[..j] == turns[..j] && turns == upTo + turns[j + 1..];
    FoldConcat(dev, key, d, upTo, turns[j + 1..]);
  }

  /** A late request, PUT or DELETE, overtaken or not, leaves the documents as the turns in lock
      order exactly when it commutes with the later turns that took effect: with `before` the
      document ahead of its turn, applying it after those turns gives what applying them after it
      gives. For a PUT that means that they leave its document as it is. */
  lemma LateExactly(dev: Device, start: map<string, Document>, s: System, j: nat, verb: Method, before: Document)
    requires Serial(dev, start, s) && j < |s.turns| && s.turns[j].effect.None? && s.turns[j].key in start
    requires s.turns[j].open == Some(verb) && s.turns[j].read.Some?
    requires before == Fold(dev, s.turns[j].key, start[s.turns[j].key], s.turns[..j])
    ensures var t, turn, later := LandLate(dev, s, j), s.turns[j], s.turns[j + 1..];
      t.docs == Replay(dev, start, t.turns) <==>
        Stored(dev, Fold(dev, turn.key, before, later), turn.read.value, turn.update, verb)
          == Fold(dev, turn.key, Stored(dev, before, turn.read.value, turn.update, verb), later)
  {
    var t, turn := LandLate(dev, s, j), s.turns[j];
    ReplayIsFold(dev, start, t.turns);
    LateFold(dev, start, s.turns, j, turn.(effect := turn.open, open := None), verb);
    BeforeLate(dev, turn.key, start[turn.key], s.turns, j);
    LateOthers(dev, start, s, j);
  }

  /** For a PUT: exactly when the later turns leave its document as it is. */
  lemma LatePutExactly(dev: Device, start: map<string, Document>, s: System, j: nat, late: Document)
    requires Serial(dev, start, s) && j < |s.turns| && s.turns[j].effect.None? && s.turns[j].key in start
    requires s.turns[j].open == Some(Put) && s.turns[j].read.Some?
    requires dev.body(s.turns[j].read.value, s.turns[j].update) == Some(late)
    ensures var t := LandLate(dev, s, j);
      t.docs == Replay(dev, start, t.turns) <==> Fold(dev, s.turns[j].key, late, s.turns[j + 1..]) == late
  {
    LateExactly(dev, start, s, j, Put, Fold(dev, s.turns[j].key, start[s.turns[j].key], s.turns[..j]));
  }

  lemma LateOthers(dev: Device, start: map<string, Document>, s: System, j: nat)
    requires Serial(dev, start, s) && j < |s.turns| && s.turns[j].open.Some? && s.turns[j].read.Some?
    ensures var t := LandLate(dev, s, j);
      && t.docs.Keys == start.Keys
      && forall key :: key in start && key != s.turns[j].key ==> t.docs[key] == Fold(dev, key, start[key], t.turns)
  {
    var t := LandLate(dev, s, j);
    forall key | key in start && key != s.turns[j].key ensures t.docs[key] == Fold(dev, key, start[key], t.turns) {
      FoldAlike(dev, key, start[key], s.turns, t.turns);
    }
  }

  /** A call whose first attempt is a PUT of document `d`. */
  predicate Writes(dev: Device, current: Setting, update: Update, d: Document) {
    && dev.body(current, update) == Some(d)
    && dev.attempts(current, update) != [] && dev.attempts(current, update)[0].verb == Put
  }

  /** The first call times out, the second reads, writes and is acknowledged, then the device
      carries out the first call's request. */
  function LosingEvents(key: string, u: Update, w: Update): seq<Event> {
    [Relist({key}), Arrive(key, u), Arrive(key, w), Acquire(0), ReadDone(0, true), Respond(0, NoAnswer, false),
     Acquire(1), ReadDone(1, true), Respond(1, Status(200), false), Late(0)]
  }

  lemma RunAt(dev: Device, s: System, events: seq<Event>, k: nat)
    requires k < |events|
    ensures Run(dev, s, events[..k + 1]) == Next(dev, Run(dev, s, events[..k]), events[k])
  {
    assert events[..k + 1][..k] == events[..k];
  }

  lemma RunThree(dev: Device, s: System, events: seq<Event>, k: nat, before: System, after: System)
    requires k + 3 <= |events| && Run(dev, s, events[..k]) == before
    requires after == Next(dev, Next(dev, Next(dev, before, events[k]), events[k + 1]), events[k + 2])
    ensures Run(dev, s, events[..k + 3]) == after
  {
    RunAt(dev, s, events, k);
    RunAt(dev, s, events, k + 1);
    RunAt(dev, s, events, k + 2);
  }

  /** Both calls wait. */
  function Asked(start: map<string, Document>, key: string, u: Update, w: Update): System {
    System(start, {key}, map[], [Task(key, u, Waiting), Task(key, w, Waiting)], None, [], map[], false, false)
  }

  /** The first call has timed out. */
  function TimedOut(start: map<string, Document>, key: string, u: Update, w: Update, current: Setting): System {
    System(start, {key}, map[], [Task(key, u, Done(Ended(Ambiguous))), Task(key, w, Waiting)], None,
           [Turn(0, key, u, Some(current), None, Some(Put), [])], map[], false, false)
  }

  lemma TimesOut(dev: Device, start: map<string, Document>, key: string, u: Update, w: Update, du: Document)
    requires key in start && Writes(dev, dev.view(key, start[key]), u, du)
    ensures var s := Asked(start, key, u, w);
      Next(dev, Next(dev, Next(dev, s, Acquire(0)), ReadDone(0, true)), Respond(0, NoAnswer, false))
        == TimedOut(start, key, u, w, dev.view(key, start[key]))
  {
    var s1 := Next(dev, Asked(start, key, u, w), Acquire(0));
    assert s1.tasks == [Task(key, u, Reading), Task(key, w, Waiting)];
    var s2 := Next(dev, s1, ReadDone(0, true));
    assert s2.tasks == [Task(key, u, Writing(dev.view(key, start[key]), 1, 0)), Task(key, w, Waiting)];
    var s3 := Next(dev, s2, Respond(0, NoAnswer, false));
    assert s3.tasks == [Task(key, u, Done(Ended(Ambiguous))), Task(key, w, Waiting)];
  }

  /** The second call's document is on the device, the first call's request still open. */
  function Overtaken(dev: Device, start: map<string, Document>, key: string, u: Update, w: Update, dw: Document): System
    requires key in start
  {
    var current := dev.view(key, start[key]);
    System(start[key := dw], {key}, map[current.kind := true],
           [Task(key, u, Done(Ended(Ambiguous))), Task(key, w, Done(Ended(Acknowledged)))], None,
           [Turn(0, key, u, Some(current), None, Some(Put), []), Turn(1, key, w, Some(current), Some(Put), None, [])],
           map[key := [1]], false, false)
  }

  lemma Overtakes(dev: Device, start: map<string, Document>, key: string, u: Update, w: Update, dw: Document)
    requires key in start && Writes(dev, dev.view(key, start[key]), w, dw)
    ensures var s := TimedOut(start, key, u, w, dev.view(key, start[key]));
      Next(dev, Next(dev, Next(dev, s, Acquire(1)), ReadDone(1, true)), Respond(1, Status(200), false))
        == Overtaken(dev, start, key, u, w, dw)
  {
    var s1 := Next(dev, TimedOut(start, key, u, w, dev.view(key, start[key])), Acquire(1));
    assert s1.tasks == [Task(key, u, Done(Ended(Ambiguous))), Task(key, w, Reading)];
    var s2 := Next(dev, s1, ReadDone(1, true));
    assert s2.tasks == [Task(key, u, Done(Ended(Ambiguous))), Task(key, w, Writing(dev.view(key, start[key]), 1, 0))];
    var s3 := Next(dev, s2, Respond(1, Status(200), false));
    assert s3.tasks == [Task(key, u, Done(Ended(Ambiguous))), Task(key, w, Done(Ended(Acknowledged)))];
    assert Counting([], [], 1, Put) == [1];
  }

  lemma AskRuns(dev: Device, start: map<string, Document>, key: string, u: Update, w: Update)
    ensures Run(dev, Start(start), LosingEvents(key, u, w)[..3]) == Asked(start, key, u, w)
  {
    Ask(dev, start, key, u, w);
    assert LosingEvents(key, u, w)[..0] == [];
    RunThree(dev, Start(start), LosingEvents(key, u, w), 0, Start(start), Asked(start, key, u, w));
  }

  lemma TimeOutRuns(dev: Device, start: map<string, Document>, key: string, u: Update, w: Update, du: Document)
    requires key in start && Writes(dev, dev.view(key, start[key]), u, du)
    requires Run(dev, Start(start), LosingEvents(key, u, w)[..3]) == Asked(start, key, u, w)
    ensures Run(dev, Start(start), LosingEvents(key, u, w)[..6])
        == TimedOut(start, key, u, w, dev.view(key, start[key]))
  {
    TimesOut(dev, start, key, u, w, du);
    RunThree(dev, Start(start), LosingEvents(key, u, w), 3, Asked(start, key, u, w),
             TimedOut(start, key, u, w, dev.view(key, start[key])));
  }

  lemma OvertakingRuns(dev: Device, start: map<string, Document>, key: string, u: Update, w: Update, dw: Document)
    requires key in start && Writes(dev, dev.view(key, start[key]), w, dw)
    requires Run(dev, Start(start), LosingEvents(key, u, w)[..6])
        == TimedOut(start, key, u, w, dev.view(key, start[key]))
    ensures Run(dev, Start(start), LosingEvents(key, u, w)[..9]) == Overtaken(dev, start, key, u, w, dw)
  {
    Overtakes(dev, start, key, u, w, dw);
    RunThree(dev, Start(start), LosingEvents(key, u, w), 6, TimedOut(start, key, u, w, dev.view(key, start[key])),
             Overtaken(dev, start, key, u, w, dw));
  }

  /** A losing run: the first call times out, the second reads, writes and is acknowledged, and
      then the device carries out the first call's request, which undoes the acknowledged one. */
  lemma LateWriteUndoes(dev: Device, start: map<string, Document>, key: string, u: Update, w: Update,
                        du: Document, dw: Document)
    requires key in start && Writes(dev, dev.view(key, start[key]), u, du)
        && Writes(dev, dev.view(key, start[key]), w, dw)
    ensures var s := Run(dev, Start(start), LosingEvents(key, u, w));
      && |s.tasks| == 2 && s.tasks[1] == Task(key, w, Done(Ended(Acknowledged)))
      && s.overtaken && s.docs == start[key := du] && Counted(s, key) == [0]
  {
    AskRuns(dev, start, key, u, w);
    TimeOutRuns(dev, start, key, u, w, du);
    OvertakingRuns(dev, start, key, u, w, dw);
    var events := LosingEvents(key, u, w);
    RunAt(dev, Start(start), events, 9);
    assert events[..10] == events;
    LandsLate(dev, start, key, u, w, du, dw);
  }

  lemma Ask(dev: Device, start: map<string, Document>, key: string, u: Update, w: Update)
    ensures Next(dev, Next(dev, Next(dev, Start(start), Relist({key})), Arrive(key, u)), Arrive(key, w))
         == Asked(start, key, u, w)
  {
  }

  lemma LandsLate(dev: Device, start: map<string, Document>, key: string, u: Update, w: Update, du: Document,
                  dw: Document)
    requires key in start && dev.body(dev.view(key, start[key]), u) == Some(du)
    ensures var s := Overtaken(dev, start, key, u, w, dw); var t := Next(dev, s, Late(0));
      t.tasks == s.tasks && t.overtaken && t.docs == start[key := du] && Counted(t, key) == [0]
  {
    var s := Overtaken(dev, start, key, u, w, dw);
    assert s.turns[1].key == s.turns[0].key && s.turns[1].effect.Some?;
    assert start[key := dw][key := du] == start[key := du];
    assert Counting([1], [], 0, Put) == [0];
  }
}
