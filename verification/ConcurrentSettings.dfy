/** The serial order of concurrent updates, with the settings codec put in. */
module ConcurrentSettings {
  import opened Prelude
  import opened Json
  import opened SettingsRead
  import opened SettingsWrite
  import opened SettingsCodec
  import opened DocumentChanges
  import opened WriteProtocol
  import opened SerialWrites
  import opened SerialOrder
  import opened LandingOrder
  import opened ManyChanges
  import L = LateWrites

  /** The device whose targets have the other fields `base` and the identity `who`; `erase`
      is what a DELETE does to a document. */
  function RealDevice(base: string -> Fields, who: string -> Identity, erase: Document -> Document): Device {
    Device(
      (key, d) => ReadBack(base(key), who(key), d),
      (current, update) => WriteBody(current, update),
      (current, update) => AttemptsOf(current, update),
      erase)
  }

  /** On that device a written update is read, change, write. */
  lemma PutIsApply(base: string -> Fields, who: string -> Identity, erase: Document -> Document,
                   key: string, d: Document, update: Update)
    ensures Changed(RealDevice(base, who, erase), key, d, update, Put)
         == match Apply(base(key), who(key), d, update) case Some(b) => b case None => d
  {
  }

  /** The turns that changed the key, in lock order. */
  function Effective(turns: seq<Turn>, key: string): seq<Turn> {
    if turns == [] then []
    else
      var front, last := Effective(turns[..|turns| - 1], key), turns[|turns| - 1];
      if last.key == key && last.effect.Some? then front + [last] else front
  }

  lemma {:induction false} FoldEffective(dev: Device, key: string, d: Document, turns: seq<Turn>)
    ensures Fold(dev, key, d, turns) == Fold(dev, key, d, Effective(turns, key))
    ensures forall t :: t in Effective(turns, key) ==> t.key == key && t.effect.Some?
  {
    if turns != [] {
      var front, last := turns[..|turns| - 1], turns[|turns| - 1];
      FoldEffective(dev, key, d, front);
      var kept := Effective(front, key);
      assert (kept + [last])[..|kept|] == kept;
    }
  }

  /** Two successive updates of one target that both change the device. */
  lemma TwoPuts(dev: Device, key: string, d: Document, a: Turn, b: Turn)
    requires a.key == b.key == key && a.effect == b.effect == Some(Put)
    ensures Fold(dev, key, d, [a, b]) == Changed(dev, key, Changed(dev, key, d, a.update, Put), b.update, Put)
  {
    assert [a, b][..1] == [a] && [a][..0] == [];
    assert Fold(dev, key, d, [a]) == ApplyTo(dev, key, Fold(dev, key, d, []), a);
  }

  lemma BothApply(base: string -> Fields, who: string -> Identity, erase: Document -> Document,
                  key: string, d: Document, u: Update, w: Update, last: Document)
    requires Then(base(key), who(key), Apply(base(key), who(key), d, u), w) == Some(last)
    ensures var dev := RealDevice(base, who, erase);
      Changed(dev, key, Changed(dev, key, d, u, Put), w, Put) == last
  {
    PutIsApply(base, who, erase, key, d, u);
    PutIsApply(base, who, erase, key, Apply(base(key), who(key), d, u).value, w);
  }

  /** A schedule change of a stable document that keeps what it writes. */
  ghost predicate KeepingSchedule(d: Document, schedule: Update, body: ScheduleDocument) {
    && Stable(d) && ChangesSchedule(schedule)
    && Rescheduled(d.schedule, schedule) == Some(body) && Kept(body)
  }

  /** The turns are the limit change and the schedule change, in either order. */
  predicate TheseTwo(turns: seq<Turn>, limit: Update, schedule: Update) {
    && |turns| == 2 && turns[0].effect == turns[1].effect == Some(Put)
    && ((turns[0].update == limit && turns[1].update == schedule)
        || (turns[0].update == schedule && turns[1].update == limit))
  }

  lemma EitherOrder(dev: Device, key: string, d: Document, turns: seq<Turn>, limit: Update, schedule: Update,
                    both: Document)
    requires TheseTwo(turns, limit, schedule) && forall t :: t in turns ==> t.key == key
    requires Changed(dev, key, Changed(dev, key, d, limit, Put), schedule, Put) == both
    requires Changed(dev, key, Changed(dev, key, d, schedule, Put), limit, Put) == both
    ensures Fold(dev, key, d, turns) == both
  {
    assert turns == [turns[0], turns[1]] && turns[0] in turns && turns[1] in turns;
    TwoPuts(dev, key, d, turns[0], turns[1]);
  }

  /** In every run, with any number of other calls: if the turns that changed a target were an
      update of the limit and an update of the schedule, in either order, both survive. */
  lemma BothUpdatesSurvive(base: string -> Fields, who: string -> Identity, erase: Document -> Document,
                           start: map<string, Document>, events: seq<Event>, s: System, key: string,
                           limit: Update, schedule: Update, body: ScheduleDocument)
    requires s == Run(RealDevice(base, who, erase), Start(start), events) && !s.crossed
    requires key in start && ChangesLimit(limit) && KeepingSchedule(start[key], schedule, body)
    requires TheseTwo(Effective(s.turns, key), limit, schedule)
    ensures key in s.docs && s.docs[key] == Both(start[key], limit, body)
    ensures HoldsLimit(limit, s.docs[key]) && HoldsSchedule(schedule, s.docs[key].schedule)
  {
    var dev := RealDevice(base, who, erase);
    RunSerial(dev, start, events);
    FoldEffective(dev, key, start[key], s.turns);
    BothChange(base, who, erase, key, start[key], limit, schedule, body);
    EitherOrder(dev, key, start[key], Effective(s.turns, key), limit, schedule, Both(start[key], limit, body));
    BothOrders(base(key), who(key), start[key], limit, schedule, body);
  }

  lemma BothChange(base: string -> Fields, who: string -> Identity, erase: Document -> Document, key: string,
                   d: Document, limit: Update, schedule: Update, body: ScheduleDocument)
    requires ChangesLimit(limit) && KeepingSchedule(d, schedule, body)
    ensures var dev, both := RealDevice(base, who, erase), Both(d, limit, body);
      && Changed(dev, key, Changed(dev, key, d, limit, Put), schedule, Put) == both
      && Changed(dev, key, Changed(dev, key, d, schedule, Put), limit, Put) == both
  {
    var both := Both(d, limit, body);
    BothOrders(base(key), who(key), d, limit, schedule, body);
    BothApply(base, who, erase, key, d, limit, schedule, both);
    BothApply(base, who, erase, key, d, schedule, limit, both);
  }

  // ---------------------------------------------------------------- any number of updates

  function UpdatesOf(turns: seq<Turn>, list: seq<nat>): seq<Update>
    requires Places(turns, list)
  {
    if list == [] then []
    else
      var front, j := list[..|list| - 1], list[|list| - 1];
      assert j in list && forall i :: i in front ==> i in list;
      UpdatesOf(turns, front) + [turns[j].update]
  }

  /** Counted turns that were written by PUT are changes applied one after another. */
  lemma {:induction false} PutsAreApplied(base: string -> Fields, who: string -> Identity,
                                          erase: Document -> Document, key: string, d: Document, turns: seq<Turn>,
                                          list: seq<nat>)
    requires Places(turns, list) && forall j :: j in list ==> turns[j].effect == Some(Put)
    ensures FoldList(RealDevice(base, who, erase), key, d, turns, list)
         == ApplyAll(base(key), who(key), d, UpdatesOf(turns, list))
  {
    if list != [] {
      var front, j := list[..|list| - 1], list[|list| - 1];
      assert j in list && forall i :: i in front ==> i in list;
      PutsAreApplied(base, who, erase, key, d, turns, front);
      PutIsApply(base, who, erase, key, FoldList(RealDevice(base, who, erase), key, d, turns, front), turns[j].update);
      OneMoreApplied(base(key), who(key), d, UpdatesOf(turns, front), turns[j].update);
    }
  }

  lemma OneMoreApplied(base: Fields, who: Identity, d: Document, updates: seq<Update>, update: Update)
    ensures var before := ApplyAll(base, who, d, updates);
      ApplyAll(base, who, d, updates + [update])
      == match Apply(base, who, before, update) case Some(after) => after case None => before
  {
    assert (updates + [update])[..|updates|] == updates;
  }

  /** In every run, with any number of calls and late requests: if the turns counted for a target
      were written by PUT, each changed the limit or the schedule, and none switched the schedule
      off, the document holds the switch and the limit that the limit changes among them make, and the
      schedule that the schedule changes make. While no request overtakes a later write, every
      acknowledged call is among them, in lock order. */
  lemma AllUpdatesSurvive(base: string -> Fields, who: string -> Identity, erase: Document -> Document,
                          start: map<string, Document>, events: seq<Event>, s: System, key: string,
                          list: seq<nat>, updates: seq<Update>)
    requires s == Run(RealDevice(base, who, erase), Start(start), events) && key in start && Stable(start[key])
    requires list == Counted(s, key) && Places(s.turns, list) && updates == UpdatesOf(s.turns, list)
    requires Separate(updates) && forall j :: j in list ==> s.turns[j].effect == Some(Put)
    ensures key in s.docs && s.docs[key] == Parts(start[key], updates)
    ensures !s.overtaken ==>
              && Increasing(list)
              && forall j :: 0 <= j < |s.turns| && s.turns[j].key == key && s.turns[j].effect.Some? ==>
                   j in list || LeftBehind(s, j)
  {
    var dev := RealDevice(base, who, erase);
    EveryRun(dev, start, events, s, key);
    PutsAreApplied(base, who, erase, key, start[key], s.turns, list);
    EachKindSurvives(base(key), who(key), start[key], updates);
  }

  // ---------------------------------------------------------------- a lost update

  lemma PutFirst(current: Setting, update: Update)
    requires WritePaths(current).Some? && !update.DeleteRequired()
    ensures AttemptsOf(current, update) != [] && AttemptsOf(current, update)[0].verb == Put
  {
  }

  /** A request that takes effect late can lose an acknowledged update: the limit call times out,
      the schedule call is acknowledged, then the limit request lands with the old schedule. */
  lemma LateLimitLosesSchedule(base: string -> Fields, who: string -> Identity, erase: Document -> Document,
                               start: map<string, Document>, key: string,
                               limit: Update, schedule: Update, body: ScheduleDocument)
    requires key in start && ChangesLimit(limit) && !limit.DeleteRequired()
    requires KeepingSchedule(start[key], schedule, body)
    requires WritePaths(ReadBack(base(key), who(key), start[key])).Some?
    ensures var s := Run(RealDevice(base, who, erase), Start(start), L.LosingEvents(key, limit, schedule));
      && |s.tasks| == 2 && s.tasks[1] == Task(key, schedule, Done(Ended(Acknowledged)))
      && key in s.docs && s.docs[key].schedule == start[key].schedule
  {
    var dev, d := RealDevice(base, who, erase), start[key];
    var current := ReadBack(base(key), who(key), d);
    LimitChange(base(key), who(key), d, limit);
    ScheduleChange(base(key), who(key), d, schedule);
    PutFirst(current, limit);
    PutFirst(current, schedule);
    var du := Apply(base(key), who(key), d, limit).value;
    L.LateWriteUndoes(dev, start, key, limit, schedule, du, d.(schedule := body));
  }
}
