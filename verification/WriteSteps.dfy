/** The two kinds of steps of concurrent updates: one changes no document, the other carries out
    one request. What holds over a run is proved for these two. */
module WriteSteps {
  import opened Prelude
  import opened SettingsRead
  import opened SettingsWrite
  import opened WriteProtocol
  import opened SerialWrites

  /** The call of the turn was told that its write was accepted. */
  predicate Acked(s: System, j: nat) {
    j < |s.turns| && s.turns[j].task < |s.tasks| && s.tasks[s.turns[j].task].phase == Done(Ended(Acknowledged))
  }

  /** Turn `k` has read what it had read, has not read, or reads the document as it is. */
  predicate Remembers(dev: Device, s: System, t: System, k: nat)
    requires k < |t.turns|
  {
    var turn := t.turns[k];
    || turn.read.None?
    || (k < |s.turns| && turn.read == s.turns[k].read && turn.seen == s.turns[k].seen)
    || (k + 1 == |t.turns| && turn.effect.None? && turn.key in s.docs
        && turn.read == Some(dev.view(turn.key, s.docs[turn.key])) && turn.seen == Counted(s, turn.key))
  }

  /** A step that changes no document and acknowledges nothing; a turn may begin. */
  ghost predicate Quiet(dev: Device, s: System, t: System) {
    && t.docs == s.docs && t.counted == s.counted && t.crossed == s.crossed && t.overtaken == s.overtaken
    && |s.turns| <= |t.turns| <= |s.turns| + 1
    && (forall j :: 0 <= j < |s.turns| ==> SameTurn(t.turns[j], s.turns[j]) && t.turns[j].effect == s.turns[j].effect)
    && (|s.turns| < |t.turns| ==> t.turns[|s.turns|].effect.None?)
    && (forall k :: 0 <= k < |t.turns| ==> Remembers(dev, s, t, k))
    && (forall j :: 0 <= j < |t.turns| && Acked(t, j) ==> Acked(s, j))
  }

  /** A step that carries out the request of turn `j`, in time or late. */
  ghost predicate Lands(dev: Device, s: System, t: System, j: nat, verb: Method) {
    && j < |s.turns| && s.turns[j].effect.None? && s.turns[j].read.Some?
    && dev.body(s.turns[j].read.value, s.turns[j].update).Some?
    && |t.turns| == |s.turns| && t.turns == s.turns[j := t.turns[j]] && SameTurn(t.turns[j], s.turns[j])
    && t.turns[j].read == s.turns[j].read && t.turns[j].seen == s.turns[j].seen && t.turns[j].effect == Some(verb)
    && LandsOn(dev, s, t, s.turns[j], j, verb)
    && (forall k :: 0 <= k < |t.turns| && k != j && Acked(t, k) ==> Acked(s, k))
    && (Acked(t, j) ==> j + 1 == |s.turns|)
  }

  /** What it makes of the documents and of the history. */
  predicate LandsOn(dev: Device, s: System, t: System, turn: Turn, j: nat, verb: Method)
    requires j < |s.turns| && turn.read.Some?
  {
    && t.docs == Land(dev, s.docs, turn.key, turn.read.value, turn.update, verb)
    && t.counted == s.counted[turn.key := Counting(Counted(s, turn.key), turn.seen, j, verb)]
    && t.crossed == (s.crossed || LaterRead(s.turns, j)) && t.overtaken == (s.overtaken || LaterEffect(s.turns, j))
  }

  /** One or the other. */
  ghost predicate Steps(dev: Device, s: System, t: System) {
    Quiet(dev, s, t) || exists j: nat, verb :: Lands(dev, s, t, j, verb)
  }

  // ---------------------------------------------------------------- every step is one of them

  /** The holder's turn is not acknowledged yet, and no other turn is of its call. */
  lemma HolderAlone(dev: Device, s: System, i: nat)
    requires Orderly(dev, s) && i < |s.tasks| && Holds(s.tasks[i].phase)
    ensures s.turns != [] && Last(s).task == i && Fits(dev, s.tasks[i].phase, Last(s))
    ensures Last(s).key == s.tasks[i].key && Last(s).update == s.tasks[i].update
    ensures forall j :: 0 <= j < |s.turns| - 1 ==> s.turns[j].task != i
  {
    HolderTurn(dev, s, i);
    var n := |s.turns| - 1;
    forall j | 0 <= j < n ensures s.turns[j].task != i {
      assert s.turns[j].task != s.turns[n].task;
    }
  }

  lemma MoveQuiet(dev: Device, s: System, i: nat, phase: Phase, turn: Turn, t: System)
    requires Orderly(dev, s) && i < |s.tasks| && Holds(s.tasks[i].phase) && s.turns != []
    requires phase != Done(Ended(Acknowledged)) && SameTurn(turn, Last(s)) && turn.effect == Last(s).effect
    requires var m := Move(s, i, phase, turn);
      m.tasks == t.tasks && m.turns == t.turns && Remembers(dev, s, m, |s.turns| - 1)
    requires t.docs == s.docs && t.counted == s.counted && t.crossed == s.crossed && t.overtaken == s.overtaken
    ensures Quiet(dev, s, t)
  {
    HolderAlone(dev, s, i);
    forall j | 0 <= j < |t.turns| && Acked(t, j) ensures Acked(s, j) {
      assert t.turns[j].task == s.turns[j].task;
    }
  }

  lemma LandedLands(dev: Device, s: System, i: nat, current: Setting, verb: Method, result: Result, t: System)
    requires Orderly(dev, s) && i < |s.tasks| && Holds(s.tasks[i].phase) && s.turns != []
    requires Fits(dev, LoggingIn(current), Last(s))
    requires t == Landed(dev, s, i, current, verb, result).(flags := t.flags)
    ensures Lands(dev, s, t, |s.turns| - 1, verb)
  {
    HolderAlone(dev, s, i);
    forall k | 0 <= k < |t.turns| - 1 && Acked(t, k) ensures Acked(s, k) {
      assert t.turns[k].task == s.turns[k].task;
    }
  }

  lemma LeaveSteps(dev: Device, s: System, i: nat, current: Setting, verb: Method, applied: bool, result: Result)
    requires Orderly(dev, s) && i < |s.tasks| && Holds(s.tasks[i].phase) && s.turns != []
    requires Fits(dev, LoggingIn(current), Last(s)) && result != Ended(Acknowledged)
    ensures Steps(dev, s, Leave(dev, s, i, current, verb, applied, result))
  {
    var t := Leave(dev, s, i, current, verb, applied, result);
    if applied {
      LandedLands(dev, s, i, current, verb, result, t);
    } else {
      MoveQuiet(dev, s, i, Done(result), Last(s).(open := Some(verb)), t);
    }
  }

  lemma BeginQuiet(dev: Device, s: System, i: nat, current: Setting, seen: seq<nat>, pass: nat)
    requires Orderly(dev, s) && i < |s.tasks| && Holds(s.tasks[i].phase) && s.turns != []
    requires || (Last(s).read == Some(current) && Last(s).seen == seen)
             || (Last(s).effect.None? && Last(s).key in s.docs
                 && current == dev.view(Last(s).key, s.docs[Last(s).key]) && seen == Counted(s, Last(s).key))
    ensures Quiet(dev, s, BeginPass(dev, s, i, current, seen, pass))
  {
    var phase := PassPhase(dev, s.flags, current, Last(s).update, pass);
    var turn := Last(s).(read := Some(current), seen := seen);
    MoveQuiet(dev, s, i, phase, turn, BeginPass(dev, s, i, current, seen, pass));
  }

  lemma AnswerSteps(dev: Device, s: System, i: nat, response: Response, applied: bool)
    requires Orderly(dev, s) && i < |s.tasks| && s.tasks[i].phase.Writing? && s.turns != []
    ensures Steps(dev, s, Answer(dev, s, i, s.tasks[i].phase, response, applied))
  {
    HolderTurn(dev, s, i);
    var w := s.tasks[i].phase;
    var attempts := dev.attempts(w.current, Last(s).update);
    var t := Answer(dev, s, i, w, response, applied);
    if w.at < |attempts| {
      match VerdictOf(response)
      case Accepted =>
        LandedLands(dev, s, i, w.current, attempts[w.at].verb, Ended(Acknowledged), t);
      case Uncertain =>
        LeaveSteps(dev, s, i, w.current, attempts[w.at].verb, applied, Ended(Ambiguous));
      case _ =>
        RefusedQuiet(dev, s, i, response, applied);
    } else {
      SameQuiet(dev, s, t);
    }
  }

  /** A response that leaves nothing open: no such endpoint, or no session. */
  lemma RefusedQuiet(dev: Device, s: System, i: nat, response: Response, applied: bool)
    requires Orderly(dev, s) && i < |s.tasks| && s.tasks[i].phase.Writing? && s.turns != []
    requires VerdictOf(response).Absent? || VerdictOf(response).SessionRefused?
    requires s.tasks[i].phase.at < |dev.attempts(s.tasks[i].phase.current, Last(s).update)|
    ensures Quiet(dev, s, Answer(dev, s, i, s.tasks[i].phase, response, applied))
  {
    HolderTurn(dev, s, i);
    var w := s.tasks[i].phase;
    var phase :=
      if VerdictOf(response).SessionRefused? then
        if w.pass == 1 then LoggingIn(w.current) else Done(Ended(NeedsLogin))
      else if w.at + 1 < |dev.attempts(w.current, Last(s).update)| then w.(at := w.at + 1)
      else Done(Ended(AllAbsent));
    MoveQuiet(dev, s, i, phase, Last(s), Answer(dev, s, i, w, response, applied));
  }

  lemma SameQuiet(dev: Device, s: System, t: System)
    requires t.docs == s.docs && t.counted == s.counted && t.crossed == s.crossed && t.overtaken == s.overtaken
    requires t.turns == s.turns && forall j :: 0 <= j < |t.turns| && Acked(t, j) ==> Acked(s, j)
    ensures Quiet(dev, s, t)
  {
  }

  lemma CancelSteps(dev: Device, s: System, i: nat, applied: bool)
    requires Orderly(dev, s) && i < |s.tasks|
    ensures Steps(dev, s, CancelTask(dev, s, i, applied))
  {
    var w, t := s.tasks[i].phase, CancelTask(dev, s, i, applied);
    if w.Waiting? || w.Done? || s.turns == [] {
      SameQuiet(dev, s, t);
    } else {
      HolderTurn(dev, s, i);
      if w.Writing? && w.at < |dev.attempts(w.current, Last(s).update)| {
        LeaveSteps(dev, s, i, w.current, dev.attempts(w.current, Last(s).update)[w.at].verb, applied, Cancelled);
      } else {
        MoveQuiet(dev, s, i, Done(Cancelled), Last(s), t);
      }
    }
  }

  lemma AcquireQuiet(dev: Device, s: System, i: nat)
    requires Orderly(dev, s) && i < |s.tasks| && s.tasks[i].phase.Waiting? && s.lock.None?
    ensures Quiet(dev, s, Next(dev, s, Acquire(i)))
  {
    var t, n := Next(dev, s, Acquire(i)), |s.turns|;
    forall j | 0 <= j < |t.turns| && Acked(t, j) ensures Acked(s, j) {
      assert j < n ==> t.turns[j] == s.turns[j];
    }
  }

  lemma LateLands(dev: Device, s: System, j: nat)
    requires Orderly(dev, s) && j < |s.turns| && s.turns[j].open.Some? && s.turns[j].read.Some?
    ensures Lands(dev, s, LandLate(dev, s, j), j, s.turns[j].open.value)
  {
    var t := LandLate(dev, s, j);
    assert TurnOk(dev, s, s.turns[j]);
    forall k | 0 <= k < |t.turns| && k != j && Acked(t, k) ensures Acked(s, k) {
      assert t.turns[k] == s.turns[k];
    }
  }

  /** Every step of any interleaving is of one of the two kinds. */
  lemma NextSteps(dev: Device, s: System, e: Event)
    requires Orderly(dev, s)
    ensures Steps(dev, s, Next(dev, s, e))
  {
    match e {
      case Acquire(i) =>
        if i < |s.tasks| && s.tasks[i].phase.Waiting? && s.lock.None? {
          AcquireQuiet(dev, s, i);
        } else {
          SameQuiet(dev, s, s);
        }
      case ReadDone(i, ok) => ReadSteps(dev, s, i, ok);
      case Respond(i, response, applied) =>
        if i < |s.tasks| && s.tasks[i].phase.Writing? && s.turns != [] {
          AnswerSteps(dev, s, i, response, applied);
        } else {
          SameQuiet(dev, s, s);
        }
      case LoginDone(i, ok) => LoginSteps(dev, s, i, ok);
      case Cancel(i, applied) =>
        if i < |s.tasks| {
          CancelSteps(dev, s, i, applied);
        } else {
          SameQuiet(dev, s, s);
        }
      case Late(j) =>
        if j < |s.turns| && s.turns[j].open.Some? && s.turns[j].read.Some? {
          LateLands(dev, s, j);
        } else {
          SameQuiet(dev, s, s);
        }
      case Relist(keys) => SameQuiet(dev, s, s.(listed := keys));
      case Arrive(key, update) => ArriveQuiet(dev, s, key, update);
    }
  }

  lemma ArriveQuiet(dev: Device, s: System, key: string, update: Update)
    requires Orderly(dev, s)
    ensures Quiet(dev, s, Next(dev, s, Arrive(key, update)))
  {
    var t := Next(dev, s, Arrive(key, update));
    forall j | 0 <= j < |t.turns| && Acked(t, j) ensures Acked(s, j) {
      assert TurnOk(dev, s, s.turns[j]);
    }
    SameQuiet(dev, s, t);
  }

  lemma ReadSteps(dev: Device, s: System, i: nat, ok: bool)
    requires Orderly(dev, s)
    ensures Quiet(dev, s, Next(dev, s, ReadDone(i, ok)))
  {
    var t := Next(dev, s, ReadDone(i, ok));
    if i < |s.tasks| && s.tasks[i].phase.Reading? && s.turns != [] {
      HolderTurn(dev, s, i);
      var key := Last(s).key;
      if ok && key in s.listed && key in s.docs {
        BeginQuiet(dev, s, i, dev.view(key, s.docs[key]), Counted(s, key), 1);
      } else {
        MoveQuiet(dev, s, i, Done(if ok then TargetGone else ReadFailed), Last(s), t);
      }
    } else {
      SameQuiet(dev, s, s);
    }
  }

  lemma LoginSteps(dev: Device, s: System, i: nat, ok: bool)
    requires Orderly(dev, s)
    ensures Quiet(dev, s, Next(dev, s, LoginDone(i, ok)))
  {
    var t := Next(dev, s, LoginDone(i, ok));
    if i < |s.tasks| && s.tasks[i].phase.LoggingIn? && s.turns != [] {
      HolderTurn(dev, s, i);
      if ok {
        BeginQuiet(dev, s, i, s.tasks[i].phase.current, Last(s).seen, 2);
      } else {
        MoveQuiet(dev, s, i, Done(LoginBroke), Last(s), t);
      }
    } else {
      SameQuiet(dev, s, s);
    }
  }

  // ---------------------------------------------------------------- what a response does

  /** The request has been carried out: a PUT stores the body of the change of what was read, a
      DELETE what the device makes of the document; no other document changes. */
  ghost predicate CarriedOut(dev: Device, s: System, t: System, request: Request, current: Setting)
    requires s.turns != []
  {
    var turn := Last(s);
    && t.turns != [] && Last(t).effect == Some(request.verb) && t.docs.Keys == s.docs.Keys
    && (forall key :: key in s.docs && key != turn.key ==> t.docs[key] == s.docs[key])
    && (turn.key in s.docs ==>
          match request.verb
          case Put => Some(t.docs[turn.key]) == dev.body(current, turn.update)
          case Delete => t.docs[turn.key] == dev.erase(s.docs[turn.key]))
  }

  /** It has not, or not yet: `left` says that the device may still do it. */
  predicate NotCarriedOut(s: System, t: System, request: Request, left: bool)
    requires s.turns != []
  {
    && t.docs == s.docs && t.turns != [] && Last(t).effect == Last(s).effect
    && Last(t).open == if left then Some(request.verb) else Last(s).open
  }

  /** The request in flight and what its response does: in the 200s it was carried out and the call
      is over; with 404 or 405 it was not, and the next attempt follows, if there is one; with 401
      or 403 it was not, and a new login follows the first pass; otherwise the call ends without
      knowing, and the request may or may not have been carried out. */
  lemma ResponseMeans(dev: Device, s: System, i: nat, response: Response, applied: bool)
    requires Orderly(dev, s) && Sending(dev, s, i)
    ensures var w, attempts := s.tasks[i].phase, Attempted(dev, s, i);
      var t, request := Next(dev, s, Respond(i, response, applied)), attempts[w.at];
      i < |t.tasks| && var after := t.tasks[i].phase;
      if response.Status? && 200 <= response.code <= 299 then
        after == Done(Ended(Acknowledged)) && CarriedOut(dev, s, t, request, w.current)
      else if response == Status(404) || response == Status(405) then
        && NotCarriedOut(s, t, request, false)
        && after == if w.at + 1 < |attempts| then w.(at := w.at + 1) else Done(Ended(AllAbsent))
      else if response == Status(401) || response == Status(403) then
        && NotCarriedOut(s, t, request, false)
        && after == if w.pass == 1 then LoggingIn(w.current) else Done(Ended(NeedsLogin))
      else
        && after == Done(Ended(Ambiguous))
        && if applied then CarriedOut(dev, s, t, request, w.current) else NotCarriedOut(s, t, request, true)
  {
    HolderTurn(dev, s, i);
    var w, attempts := s.tasks[i].phase, Attempted(dev, s, i);
    match VerdictOf(response)
    case Accepted => AcceptedMeans(dev, s, i, response, applied);
    case Uncertain => UncertainMeans(dev, s, i, response, applied);
    case Absent => OtherMeans(dev, s, i, response, applied);
    case SessionRefused => OtherMeans(dev, s, i, response, applied);
  }

  lemma AcceptedMeans(dev: Device, s: System, i: nat, response: Response, applied: bool)
    requires Orderly(dev, s) && Sending(dev, s, i) && VerdictOf(response) == Accepted
    ensures var w, t := s.tasks[i].phase, Next(dev, s, Respond(i, response, applied));
      && i < |t.tasks| && t.tasks[i].phase == Done(Ended(Acknowledged))
      && CarriedOut(dev, s, t, Attempted(dev, s, i)[w.at], w.current)
  {
    HolderTurn(dev, s, i);
    var w := s.tasks[i].phase;
    LandedMeans(dev, s, i, Attempted(dev, s, i)[w.at], w.current, Ended(Acknowledged));
  }

  lemma UncertainMeans(dev: Device, s: System, i: nat, response: Response, applied: bool)
    requires Orderly(dev, s) && Sending(dev, s, i) && VerdictOf(response) == Uncertain
    ensures var w, t := s.tasks[i].phase, Next(dev, s, Respond(i, response, applied));
      var request := Attempted(dev, s, i)[w.at];
      && i < |t.tasks| && t.tasks[i].phase == Done(Ended(Ambiguous))
      && if applied then CarriedOut(dev, s, t, request, w.current) else NotCarriedOut(s, t, request, true)
  {
    HolderTurn(dev, s, i);
    var w := s.tasks[i].phase;
    LeaveMeans(dev, s, i, Attempted(dev, s, i)[w.at], w.current, applied, Ended(Ambiguous));
  }

  lemma OtherMeans(dev: Device, s: System, i: nat, response: Response, applied: bool)
    requires Orderly(dev, s) && Sending(dev, s, i)
    requires VerdictOf(response) == Absent || VerdictOf(response) == SessionRefused
    ensures var w, attempts, t := s.tasks[i].phase, Attempted(dev, s, i), Next(dev, s, Respond(i, response, applied));
      && i < |t.tasks| && NotCarriedOut(s, t, attempts[w.at], false)
      && t.tasks[i].phase == PhaseAfter(w, VerdictOf(response), w.at + 1 == |attempts|)
  {
  }

  /** A call that is cancelled while its request is in flight ends without knowing either. */
  lemma CancelMeans(dev: Device, s: System, i: nat, applied: bool)
    requires Orderly(dev, s) && Sending(dev, s, i)
    ensures var w, t := s.tasks[i].phase, Next(dev, s, Cancel(i, applied));
      && i < |t.tasks| && t.tasks[i].phase == Done(Cancelled)
      && if applied then CarriedOut(dev, s, t, Attempted(dev, s, i)[w.at], w.current)
         else NotCarriedOut(s, t, Attempted(dev, s, i)[w.at], true)
  {
    HolderTurn(dev, s, i);
    var w := s.tasks[i].phase;
    LeaveMeans(dev, s, i, Attempted(dev, s, i)[w.at], w.current, applied, Cancelled);
  }

  lemma LandedMeans(dev: Device, s: System, i: nat, request: Request, current: Setting, result: Result)
    requires i < |s.tasks| && s.turns != [] && dev.body(current, Last(s).update).Some?
    ensures var t := Landed(dev, s, i, current, request.verb, result);
      i < |t.tasks| && t.tasks[i].phase == Done(result) && CarriedOut(dev, s, t, request, current)
  {
  }

  lemma LeaveMeans(dev: Device, s: System, i: nat, request: Request, current: Setting, applied: bool, result: Result)
    requires i < |s.tasks| && s.turns != [] && dev.body(current, Last(s).update).Some?
    ensures var t := Leave(dev, s, i, current, request.verb, applied, result);
      && i < |t.tasks| && t.tasks[i].phase == Done(result)
      && if applied then CarriedOut(dev, s, t, request, current) else NotCarriedOut(s, t, request, true)
  {
    LandedMeans(dev, s, i, request, current, result);
  }

  /** How a pass begins on what was read: with its first attempt, unless the type is known not to
      support writing, the change names invalid days, or the target has no path. */
  predicate Begins(dev: Device, s: System, turn: Turn, current: Setting, pass: nat, after: Phase) {
    if current.kind != "" && current.kind in s.flags && !s.flags[current.kind] then
      after == Done(Ended(KnownUnsupported))
    else if dev.body(current, turn.update).None? then after == Done(Ended(InvalidDays))
    else if dev.attempts(current, turn.update) == [] then after == Done(Ended(BadTarget))
    else after == Writing(current, pass, 0)
  }

  /** The end of a read: a failed one ends the call, one that finds the target gone too, and otherwise
      the first pass begins on the document as it is. No document and no flag changes. */
  lemma ReadMeans(dev: Device, s: System, i: nat, ok: bool)
    requires Orderly(dev, s) && i < |s.tasks| && s.tasks[i].phase.Reading?
    ensures var t, key := Next(dev, s, ReadDone(i, ok)), s.tasks[i].key;
      && i < |t.tasks| && s.turns != [] && t.docs == s.docs && t.flags == s.flags
      && if !ok then t.tasks[i].phase == Done(ReadFailed)
         else if key !in s.listed || key !in s.docs then t.tasks[i].phase == Done(TargetGone)
         else Begins(dev, s, Last(s), dev.view(key, s.docs[key]), 1, t.tasks[i].phase)
  {
    HolderTurn(dev, s, i);
  }

  /** The end of a login: it ends the call if it failed, and otherwise a second and last pass begins on
      what was read before. */
  lemma LoginMeans(dev: Device, s: System, i: nat, ok: bool)
    requires Orderly(dev, s) && i < |s.tasks| && s.tasks[i].phase.LoggingIn?
    ensures var t, current := Next(dev, s, LoginDone(i, ok)), s.tasks[i].phase.current;
      && i < |t.tasks| && s.turns != [] && t.docs == s.docs && t.flags == s.flags
      && if !ok then t.tasks[i].phase == Done(LoginBroke)
         else Begins(dev, s, Last(s), current, 2, t.tasks[i].phase) && Last(s).read == Some(current)
  {
    HolderTurn(dev, s, i);
  }
}
