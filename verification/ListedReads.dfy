/** A call reads and writes only a target that the settings list names when it reads. */
module ListedReads {
  import opened Prelude
  import opened SettingsRead
  import opened SettingsWrite
  import opened WriteProtocol
  import opened SerialWrites
  import opened SerialOrder

  // ---------------------------------------------------------------- what a call leaves alone

  /** The step is of call `i` alone: other calls, the list and all reads stay. */
  ghost predicate OnlyCall(s: System, t: System, i: nat) {
    && t.listed == s.listed && |t.tasks| == |s.tasks| && |t.turns| == |s.turns|
    && (forall k :: 0 <= k < |s.tasks| && k != i ==> t.tasks[k] == s.tasks[k])
    && (forall k :: 0 <= k < |s.turns| ==> SameTurn(t.turns[k], s.turns[k]) && t.turns[k].read == s.turns[k].read)
  }

  lemma MoveOnly(s: System, i: nat, phase: Phase, turn: Turn)
    requires i < |s.tasks| && s.turns != [] && SameTurn(turn, Last(s)) && turn.read == Last(s).read
    ensures OnlyCall(s, Move(s, i, phase, turn), i)
  {
  }

  lemma LeaveOnly(dev: Device, s: System, i: nat, current: Setting, verb: Method, applied: bool, result: Result)
    requires i < |s.tasks| && s.turns != []
    ensures OnlyCall(s, Leave(dev, s, i, current, verb, applied, result), i)
  {
    MoveOnly(s, i, Done(result), Last(s).(effect := Some(verb)));
    MoveOnly(s, i, Done(result), Last(s).(open := Some(verb)));
  }

  lemma AnswerOnly(dev: Device, s: System, i: nat, response: Response, applied: bool)
    requires i < |s.tasks| && s.turns != [] && s.tasks[i].phase.Writing?
    ensures OnlyCall(s, Answer(dev, s, i, s.tasks[i].phase, response, applied), i)
  {
    var w := s.tasks[i].phase;
    var attempts := dev.attempts(w.current, Last(s).update);
    if w.at < |attempts| {
      match VerdictOf(response)
      case Accepted => MoveOnly(s, i, Done(Ended(Acknowledged)), Last(s).(effect := Some(attempts[w.at].verb)));
      case Uncertain => LeaveOnly(dev, s, i, w.current, attempts[w.at].verb, applied, Ended(Ambiguous));
      case Absent =>
        MoveOnly(s, i, if w.at + 1 < |attempts| then w.(at := w.at + 1) else Done(Ended(AllAbsent)), Last(s));
      case SessionRefused =>
        MoveOnly(s, i, if w.pass == 1 then LoggingIn(w.current) else Done(Ended(NeedsLogin)), Last(s));
    }
  }

  lemma CancelOnly(dev: Device, s: System, i: nat, applied: bool)
    requires i < |s.tasks|
    ensures OnlyCall(s, CancelTask(dev, s, i, applied), i)
    ensures s.tasks[i].phase.Done? ==> CancelTask(dev, s, i, applied) == s
  {
    var w := s.tasks[i].phase;
    if w.Waiting? || w.Done? || s.turns == [] {
    } else if w.Writing? && w.at < |dev.attempts(w.current, Last(s).update)| {
      LeaveOnly(dev, s, i, w.current, dev.attempts(w.current, Last(s).update)[w.at].verb, applied, Cancelled);
    } else {
      MoveOnly(s, i, Done(Cancelled), Last(s));
    }
  }

  lemma LoginOnly(dev: Device, s: System, i: nat, ok: bool)
    requires Orderly(dev, s) && i < |s.tasks| && s.tasks[i].phase.LoggingIn?
    ensures OnlyCall(s, Next(dev, s, LoginDone(i, ok)), i)
  {
    HolderTurn(dev, s, i);
    var current := s.tasks[i].phase.current;
    MoveOnly(s, i, PassPhase(dev, s.flags, current, Last(s).update, 2), Last(s).(read := Some(current)));
    MoveOnly(s, i, Done(LoginBroke), Last(s));
  }

  lemma LateOnly(dev: Device, s: System, j: nat)
    requires j < |s.turns| && s.turns[j].open.Some? && s.turns[j].read.Some?
    ensures OnlyCall(s, LandLate(dev, s, j), |s.tasks|)
  {
  }

  /** Turn `k` has read what it had read before the step. */
  predicate ReadBefore(s: System, t: System, k: nat)
    requires k < |t.turns|
  {
    k < |s.turns| && SameTurn(t.turns[k], s.turns[k]) && t.turns[k].read == s.turns[k].read
  }

  /** The end of a read. */
  lemma ReadOnly(dev: Device, s: System, i: nat, ok: bool)
    requires Orderly(dev, s) && i < |s.tasks| && s.tasks[i].phase.Reading? && s.turns != []
    ensures var t := Next(dev, s, ReadDone(i, ok));
      && t.listed == s.listed && |t.tasks| == |s.tasks| && |t.turns| == |s.turns|
      && (forall k :: 0 <= k < |s.tasks| && k != i ==> t.tasks[k] == s.tasks[k])
      && (forall k :: 0 <= k < |s.turns| - 1 ==> t.turns[k] == s.turns[k])
      && SameTurn(Last(t), Last(s)) && Last(s).task == i
      && (Last(t).read.None? || ReadsNow(dev, s, ReadDone(i, ok), Last(t)))
  {
    HolderTurn(dev, s, i);
    var key := Last(s).key;
    if ok && key in s.listed && key in s.docs {
      var current := dev.view(key, s.docs[key]);
      MoveReads(s, i, PassPhase(dev, s.flags, current, Last(s).update, 1),
                Last(s).(read := Some(current), seen := Counted(s, key)));
    } else {
      MoveReads(s, i, Done(if ok then TargetGone else ReadFailed), Last(s));
    }
  }

  lemma MoveReads(s: System, i: nat, phase: Phase, turn: Turn)
    requires i < |s.tasks| && s.turns != [] && SameTurn(turn, Last(s))
    ensures var t := Move(s, i, phase, turn);
      && t.listed == s.listed && |t.tasks| == |s.tasks| && |t.turns| == |s.turns|
      && (forall k :: 0 <= k < |s.tasks| && k != i ==> t.tasks[k] == s.tasks[k])
      && (forall k :: 0 <= k < |s.turns| - 1 ==> t.turns[k] == s.turns[k])
      && Last(t) == turn
  {
  }

  /** The step is the end of the read of turn `k`, which finds its key on the list and reads the
      document as it is. */
  predicate ReadsNow(dev: Device, s: System, e: Event, turn: Turn) {
    && e == ReadDone(turn.task, true) && turn.key in s.listed && turn.key in s.docs
    && turn.read == Some(dev.view(turn.key, s.docs[turn.key]))
  }

  /** Every step leaves the calls that are over, and all reads but the one that ends now. */
  ghost predicate LeavesAlone(dev: Device, s: System, e: Event, t: System) {
    && t.listed == (if e.Relist? then e.keys else s.listed)
    && |s.tasks| <= |t.tasks|
    && (forall k :: 0 <= k < |s.tasks| && s.tasks[k].phase.Done? ==> t.tasks[k] == s.tasks[k])
    && (forall k :: 0 <= k < |t.turns| && t.turns[k].read.Some? ==>
          ReadBefore(s, t, k) || ReadsNow(dev, s, e, t.turns[k]))
  }

  lemma OnlyLeaves(dev: Device, s: System, e: Event, t: System, i: nat)
    requires OnlyCall(s, t, i) && !e.Relist? && (i < |s.tasks| && s.tasks[i].phase.Done? ==> t == s)
    ensures LeavesAlone(dev, s, e, t)
  {
  }

  lemma SameLeaves(dev: Device, s: System, e: Event)
    requires !e.Relist?
    ensures LeavesAlone(dev, s, e, s)
  {
    OnlyLeaves(dev, s, e, s, |s.tasks|);
  }

  lemma OutsideLeaves(dev: Device, s: System, e: Event)
    requires e.Arrive? || e.Relist?
    ensures LeavesAlone(dev, s, e, Next(dev, s, e))
  {
  }

  lemma AcquireLeaves(dev: Device, s: System, i: nat)
    requires i < |s.tasks| && s.tasks[i].phase.Waiting? && s.lock.None?
    ensures LeavesAlone(dev, s, Acquire(i), Next(dev, s, Acquire(i)))
  {
  }

  lemma ReadLeaves(dev: Device, s: System, i: nat, ok: bool)
    requires Orderly(dev, s) && i < |s.tasks| && s.tasks[i].phase.Reading?
    ensures LeavesAlone(dev, s, ReadDone(i, ok), Next(dev, s, ReadDone(i, ok)))
  {
    ReadOnly(dev, s, i, ok);
  }

  lemma NextLeaves(dev: Device, s: System, e: Event)
    requires Orderly(dev, s)
    ensures LeavesAlone(dev, s, e, Next(dev, s, e))
  {
    var t := Next(dev, s, e);
    match e {
      case Acquire(i) =>
        if i < |s.tasks| && s.tasks[i].phase.Waiting? && s.lock.None? {
          AcquireLeaves(dev, s, i);
        } else {
          SameLeaves(dev, s, e);
        }
      case ReadDone(i, ok) =>
        if i < |s.tasks| && s.tasks[i].phase.Reading? && s.turns != [] {
          ReadLeaves(dev, s, i, ok);
        } else {
          SameLeaves(dev, s, e);
        }
      case Respond(i, response, applied) =>
        if i < |s.tasks| && s.tasks[i].phase.Writing? && s.turns != [] {
          AnswerOnly(dev, s, i, response, applied);
          OnlyLeaves(dev, s, e, t, i);
        } else {
          SameLeaves(dev, s, e);
        }
      case LoginDone(i, ok) =>
        if i < |s.tasks| && s.tasks[i].phase.LoggingIn? && s.turns != [] {
          LoginOnly(dev, s, i, ok);
          OnlyLeaves(dev, s, e, t, i);
        } else {
          SameLeaves(dev, s, e);
        }
      case Cancel(i, applied) =>
        if i < |s.tasks| {
          CancelOnly(dev, s, i, applied);
          OnlyLeaves(dev, s, e, t, i);
        } else {
          SameLeaves(dev, s, e);
        }
      case Late(j) =>
        if j < |s.turns| && s.turns[j].open.Some? && s.turns[j].read.Some? {
          LateOnly(dev, s, j);
          OnlyLeaves(dev, s, e, t, |s.tasks|);
        } else {
          SameLeaves(dev, s, e);
        }
      case _ => OutsideLeaves(dev, s, e);
    }
  }

  // ---------------------------------------------------------------- the list in force

  /** The settings list as the device last changed it; empty at first. */
  function ListAfter(events: seq<Event>): set<string> {
    if events == [] then {}
    else
      match events[|events| - 1]
      case Relist(keys) => keys
      case _ => ListAfter(events[..|events| - 1])
  }

  lemma {:induction false} ListInForce(dev: Device, start: map<string, Document>, events: seq<Event>)
    ensures Run(dev, Start(start), events).listed == ListAfter(events)
  {
    if events != [] {
      ListInForce(dev, start, events[..|events| - 1]);
      RunKeeps(dev, start, events[..|events| - 1]);
      NextLeaves(dev, Run(dev, Start(start), events[..|events| - 1]), events[|events| - 1]);
    }
  }

  // ---------------------------------------------------------------- every read is of a listed target

  /** Event `n` of the run is the successful end of the turn's read, at a moment when the settings
      list names its key; it reads the document that the device then has. */
  ghost predicate ReadThere(dev: Device, start: map<string, Document>, events: seq<Event>, turn: Turn, n: nat) {
    && n < |events| && events[n] == ReadDone(turn.task, true) && turn.key in ListAfter(events[..n])
    && var docs := Run(dev, Start(start), events[..n]).docs;
    turn.key in docs && turn.read == Some(dev.view(turn.key, docs[turn.key]))
  }

  /** In every run, each turn that has read did so when the settings list named its key. */
  lemma {:induction false} EveryReadListed(dev: Device, start: map<string, Document>, events: seq<Event>, j: nat)
    requires j < |Run(dev, Start(start), events).turns| && Run(dev, Start(start), events).turns[j].read.Some?
    ensures exists n: nat :: ReadThere(dev, start, events, Run(dev, Start(start), events).turns[j], n)
  {
    if events != [] {
      var front, e := events[..|events| - 1], events[|events| - 1];
      var s, t := Run(dev, Start(start), front), Run(dev, Start(start), events);
      RunKeeps(dev, start, front);
      NextLeaves(dev, s, e);
      if ReadBefore(s, t, j) {
        EveryReadListed(dev, start, front, j);
        var n: nat :| ReadThere(dev, start, front, s.turns[j], n);
        assert events[..n] == front[..n];
        assert ReadThere(dev, start, events, t.turns[j], n);
      } else {
        ListInForce(dev, start, front);
        assert ReadThere(dev, start, events, t.turns[j], |front|);
      }
    }
  }

  // ---------------------------------------------------------------- a target that is gone

  /** A call that is over stays as it ended. */
  lemma {:induction false} DoneLasts(dev: Device, start: map<string, Document>, events: seq<Event>, n: nat, i: nat)
    requires n <= |events| && i < |Run(dev, Start(start), events[..n]).tasks|
    requires Run(dev, Start(start), events[..n]).tasks[i].phase.Done?
    ensures i < |Run(dev, Start(start), events).tasks|
    ensures Run(dev, Start(start), events).tasks[i] == Run(dev, Start(start), events[..n]).tasks[i]
  {
    if n == |events| {
      assert events[..n] == events;
    } else {
      var front := events[..|events| - 1];
      assert front[..n] == events[..n];
      DoneLasts(dev, start, front, n, i);
      RunKeeps(dev, start, front);
      NextLeaves(dev, Run(dev, Start(start), front), events[|events| - 1]);
    }
  }

  /** The call read a settings list, and the list lacked its key. */
  ghost predicate FoundGone(dev: Device, start: map<string, Document>, events: seq<Event>, n: nat, i: nat) {
    && n < |events| && events[n] == ReadDone(i, true)
    && var s := Run(dev, Start(start), events[..n]);
    i < |s.tasks| && s.tasks[i].phase.Reading? && s.tasks[i].key !in ListAfter(events[..n])
  }

  /** No turn of the call has read, changed the device or left a request behind. */
  ghost predicate NothingDone(s: System, i: nat) {
    forall j :: 0 <= j < |s.turns| && s.turns[j].task == i ==>
      s.turns[j].read.None? && s.turns[j].effect.None? && s.turns[j].open.None?
  }

  /** A read that succeeds on a list without the key ends the call at once, frees the lock and
      leaves the documents alone. */
  lemma GoneEnds(dev: Device, start: map<string, Document>, events: seq<Event>, n: nat, i: nat)
    requires FoundGone(dev, start, events, n, i)
    ensures var s, t := Run(dev, Start(start), events[..n]), Run(dev, Start(start), events[..n + 1]);
      && i < |t.tasks| && t.tasks[i].phase == Done(TargetGone)
      && t.lock.None? && t.docs == s.docs && t.flags == s.flags
  {
    assert events[..n + 1][..n] == events[..n];
    ListInForce(dev, start, events[..n]);
    RunKeeps(dev, start, events[..n]);
    HolderTurn(dev, Run(dev, Start(start), events[..n]), i);
  }

  /** And for the rest of the run it has read, changed and left behind nothing. */
  lemma GoneWritesNothing(dev: Device, start: map<string, Document>, events: seq<Event>, n: nat, i: nat)
    requires FoundGone(dev, start, events, n, i)
    ensures var s := Run(dev, Start(start), events);
      i < |s.tasks| && s.tasks[i].phase == Done(TargetGone) && NothingDone(s, i) && !TookEffect(s, i)
  {
    var s := Run(dev, Start(start), events);
    GoneEnds(dev, start, events, n, i);
    DoneLasts(dev, start, events, n + 1, i);
    RunKeeps(dev, start, events);
    forall j | 0 <= j < |s.turns| && s.turns[j].task == i
      ensures s.turns[j].read.None? && s.turns[j].effect.None? && s.turns[j].open.None?
    {
      assert TurnOk(dev, s, s.turns[j]);
    }
  }

  /** A call ends as gone only for a target that the list or the device lacks. */
  lemma ListedProceeds(dev: Device, s: System, i: nat)
    requires Orderly(dev, s) && i < |s.tasks| && s.tasks[i].phase.Reading?
    ensures var t, key := Next(dev, s, ReadDone(i, true)), s.tasks[i].key;
      i < |t.tasks| && (t.tasks[i].phase == Done(TargetGone) <==> key !in s.listed || key !in s.docs)
  {
    HolderTurn(dev, s, i);
  }
}
