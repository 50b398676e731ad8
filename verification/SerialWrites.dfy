/** Any number of concurrent settings updates under the settings lock, interleaved at every
    await, and the serial order they are equivalent to. */
module SerialWrites {
  import opened Prelude
  import opened SettingsRead
  import opened SettingsWrite
  import opened WriteProtocol

  /** The codec and the device, as far as the interleaving depends on them: how the setting
      of a key reads from its document, the body a change writes, the attempts it makes,
      and what a DELETE makes of a document. */
  datatype Device = Device(
    view: (string, Document) -> Setting,
    body: (Setting, Update) -> Option<Document>,
    attempts: (Setting, Update) -> seq<Request>,
    erase: Document -> Document)

  datatype Result = Ended(end: PassEnd) | LoginBroke | ReadFailed | TargetGone | Cancelled

  /** Where an update call stands. It holds the lock from Reading to its end. */
  datatype Phase =
    | Waiting
    | Reading
    | Writing(current: Setting, pass: nat, at: nat)
    | LoggingIn(current: Setting)
    | Done(result: Result)

  datatype Task = Task(key: string, update: Update, phase: Phase)

  /** One tenure of the lock, in lock order: the setting it read, the request that changed the
      device, if one did, and a request that the call left without learning its fate, which the
      device may still carry out. `seen` records the turns that the document it read held. */
  datatype Turn = Turn(
    task: nat,
    key: string,
    update: Update,
    read: Option<Setting>,
    effect: Option<Method>,
    open: Option<Method>,
    seen: seq<nat>)

  /** Three records of the history: `counted` lists for each key the turns that its document holds,
      in the order in which they took effect; `crossed` says that a request took effect after a
      later tenure had read its target, `overtaken` that it did so after one had changed it. */
  datatype System = System(
    docs: map<string, Document>,
    listed: set<string>,
    flags: map<string, bool>,
    tasks: seq<Task>,
    lock: Option<nat>,
    turns: seq<Turn>,
    counted: map<string, seq<nat>>,
    crossed: bool,
    overtaken: bool)

  /** What the scheduler, the network and the device decide. `applied` says whether an
      uncertain or cancelled request took effect before its call left the lock; if not, `Late`
      says that the request of turn `j` takes effect now. */
  datatype Event =
    | Arrive(key: string, update: Update)
    | Acquire(i: nat)
    | ReadDone(i: nat, ok: bool)
    | Respond(i: nat, response: Response, applied: bool)
    | LoginDone(i: nat, ok: bool)
    | Cancel(i: nat, applied: bool)
    | Late(j: nat)
    | Relist(keys: set<string>)

  function Start(docs: map<string, Document>): System {
    System(docs, {}, map[], [], None, [], map[], false, false)
  }

  predicate Holds(phase: Phase) {
    phase.Reading? || phase.Writing? || phase.LoggingIn?
  }

  function Last(s: System): Turn
    requires s.turns != []
  {
    s.turns[|s.turns| - 1]
  }

  /** The lock holder moves on, and with it the record of its turn. */
  function Move(s: System, i: nat, phase: Phase, turn: Turn): System
    requires i < |s.tasks| && s.turns != []
  {
    s.(tasks := s.tasks[i := s.tasks[i].(phase := phase)],
       lock := if Holds(phase) then Some(i) else None,
       turns := s.turns[|s.turns| - 1 := turn])
  }

  /** The document a request leaves. */
  function Stored(dev: Device, d: Document, current: Setting, update: Update, verb: Method): Document {
    match verb
    case Delete => dev.erase(d)
    case Put => match dev.body(current, update) case Some(b) => b case None => d
  }

  /** A request takes effect on the device. */
  function Land(dev: Device, docs: map<string, Document>, key: string, current: Setting, update: Update,
                verb: Method): map<string, Document> {
    if key !in docs then docs else docs[key := Stored(dev, docs[key], current, update, verb)]
  }

  /** The turns that the document of a key holds. */
  function Counted(s: System, key: string): seq<nat> {
    if key in s.counted then s.counted[key] else []
  }

  /** What a landing makes of that list: a PUT replaces the document by one made of what its turn
      had read, a DELETE works on the document as it is. */
  function Counting(counted: seq<nat>, seen: seq<nat>, j: nat, verb: Method): seq<nat> {
    match verb
    case Put => seen + [j]
    case Delete => counted + [j]
  }

  /** The holder's request takes effect and its call ends. */
  function Landed(dev: Device, s: System, i: nat, current: Setting, verb: Method, result: Result): System
    requires i < |s.tasks| && s.turns != []
  {
    var t, key := Move(s, i, Done(result), Last(s).(effect := Some(verb))), Last(s).key;
    t.(docs := Land(dev, s.docs, key, current, Last(s).update, verb),
       counted := s.counted[key := Counting(Counted(s, key), Last(s).seen, |s.turns| - 1, verb)])
  }

  /** The holder's call ends without knowing what became of its request. */
  function Leave(dev: Device, s: System, i: nat, current: Setting, verb: Method, applied: bool, result: Result): System
    requires i < |s.tasks| && s.turns != []
  {
    if applied then Landed(dev, s, i, current, verb, result)
    else Move(s, i, Done(result), Last(s).(open := Some(verb)))
  }

  /** The first step of a pass, or what stands in its way. */
  function PassPhase(dev: Device, flags: map<string, bool>, current: Setting, update: Update, pass: nat): Phase {
    if current.kind != "" && current.kind in flags && !flags[current.kind] then Done(Ended(KnownUnsupported))
    else if dev.body(current, update).None? then Done(Ended(InvalidDays))
    else if dev.attempts(current, update) == [] then Done(Ended(BadTarget))
    else Writing(current, pass, 0)
  }

  /** Begin a pass on what was read. */
  function BeginPass(dev: Device, s: System, i: nat, current: Setting, seen: seq<nat>, pass: nat): System
    requires i < |s.tasks| && s.turns != []
  {
    Move(s, i, PassPhase(dev, s.flags, current, Last(s).update, pass), Last(s).(read := Some(current), seen := seen))
  }

  /** The answer to the request in flight. */
  function Answer(dev: Device, s: System, i: nat, w: Phase, response: Response, applied: bool): System
    requires i < |s.tasks| && s.turns != [] && w.Writing?
  {
    var attempts := dev.attempts(w.current, Last(s).update);
    if w.at >= |attempts| then s
    else
      match VerdictOf(response)
      case Accepted =>
        var t := Landed(dev, s, i, w.current, attempts[w.at].verb, Ended(Acknowledged));
        t.(flags := s.flags[w.current.kind := true])
      case Absent =>
        if w.at + 1 < |attempts| then Move(s, i, w.(at := w.at + 1), Last(s))
        else Move(s, i, Done(Ended(AllAbsent)), Last(s)).(flags := s.flags[w.current.kind := false])
      case SessionRefused =>
        Move(s, i, if w.pass == 1 then LoggingIn(w.current) else Done(Ended(NeedsLogin)), Last(s))
      case Uncertain =>
        Leave(dev, s, i, w.current, attempts[w.at].verb, applied, Ended(Ambiguous))
  }

  /** Cancellation of a call at an await. */
  function CancelTask(dev: Device, s: System, i: nat, applied: bool): System
    requires i < |s.tasks|
  {
    var w := s.tasks[i].phase;
    if w.Waiting? then s.(tasks := s.tasks[i := s.tasks[i].(phase := Done(Cancelled))])
    else if w.Done? || s.turns == [] then s
    else if w.Writing? && w.at < |dev.attempts(w.current, Last(s).update)| then
      Leave(dev, s, i, w.current, dev.attempts(w.current, Last(s).update)[w.at].verb, applied, Cancelled)
    else Move(s, i, Done(Cancelled), Last(s))
  }

  /** A later tenure has read the target of turn `j`. */
  predicate LaterRead(turns: seq<Turn>, j: nat)
    requires j < |turns|
  {
    exists k :: j < k < |turns| && turns[k].key == turns[j].key && turns[k].read.Some?
  }

  /** A later turn has changed the target of turn `j`. */
  predicate LaterEffect(turns: seq<Turn>, j: nat)
    requires j < |turns|
  {
    exists k :: j < k < |turns| && turns[k].key == turns[j].key && turns[k].effect.Some?
  }

  /** The device carries out a request whose call is over. */
  function LandLate(dev: Device, s: System, j: nat): System
    requires j < |s.turns| && s.turns[j].open.Some? && s.turns[j].read.Some?
  {
    var t := s.turns[j];
    s.(docs := Land(dev, s.docs, t.key, t.read.value, t.update, t.open.value),
       turns := s.turns[j := t.(effect := t.open, open := None)],
       counted := s.counted[t.key := Counting(Counted(s, t.key), t.seen, j, t.open.value)],
       crossed := s.crossed || LaterRead(s.turns, j),
       overtaken := s.overtaken || LaterEffect(s.turns, j))
  }

  /** One step; an event that does not fit the state changes nothing. */
  function Next(dev: Device, s: System, e: Event): System {
    match e
    case Arrive(key, update) => s.(tasks := s.tasks + [Task(key, update, Waiting)])
    case Relist(keys) => s.(listed := keys)
    case Acquire(i) =>
      if i < |s.tasks| && s.tasks[i].phase.Waiting? && s.lock.None? then
        s.(tasks := s.tasks[i := s.tasks[i].(phase := Reading)],
           lock := Some(i),
           turns := s.turns + [Turn(i, s.tasks[i].key, s.tasks[i].update, None, None, None, [])])
      else s
    case ReadDone(i, ok) =>
      if i < |s.tasks| && s.tasks[i].phase.Reading? && s.turns != [] then
        var key := Last(s).key;
        if !ok then Move(s, i, Done(ReadFailed), Last(s))
        else if key !in s.listed || key !in s.docs then Move(s, i, Done(TargetGone), Last(s))
        else BeginPass(dev, s, i, dev.view(key, s.docs[key]), Counted(s, key), 1)
      else s
    case Respond(i, response, applied) =>
      if i < |s.tasks| && s.tasks[i].phase.Writing? && s.turns != [] then
        Answer(dev, s, i, s.tasks[i].phase, response, applied)
      else s
    case LoginDone(i, ok) =>
      if i < |s.tasks| && s.tasks[i].phase.LoggingIn? && s.turns != [] then
        if ok then BeginPass(dev, s, i, s.tasks[i].phase.current, Last(s).seen, 2)
        else Move(s, i, Done(LoginBroke), Last(s))
      else s
    case Cancel(i, applied) =>
      if i < |s.tasks| then CancelTask(dev, s, i, applied) else s
    case Late(j) =>
      if j < |s.turns| && s.turns[j].open.Some? && s.turns[j].read.Some? then LandLate(dev, s, j) else s
  }

  function Run(dev: Device, s: System, events: seq<Event>): System {
    if events == [] then s else Next(dev, Run(dev, s, events[..|events| - 1]), events[|events| - 1])
  }

  // ---------------------------------------------------------------- order

  /** What a call's phase says about its turn. */
  predicate Fits(dev: Device, phase: Phase, t: Turn) {
    var quiet := t.effect.None? && t.open.None?;
    var sendable := t.read.Some? && dev.body(t.read.value, t.update).Some?;
    match phase
    case Waiting => false
    case Reading => quiet && t.read.None?
    case Writing(current, _, _) => quiet && sendable && t.read == Some(current)
    case LoggingIn(current) => quiet && sendable && t.read == Some(current)
    case Done(result) =>
      if result == Ended(Acknowledged) then sendable && t.effect.Some? && t.open.None?
      else if result == Ended(Ambiguous) || result == Cancelled then
        quiet || (sendable && (t.effect.None? || t.open.None?))
      else quiet && (result == TargetGone || result == ReadFailed ==> t.read.None?)
  }

  /** The turn belongs to a call and agrees with it. */
  predicate TurnOk(dev: Device, s: System, t: Turn) {
    t.task < |s.tasks| && s.tasks[t.task].key == t.key && s.tasks[t.task].update == t.update
    && Fits(dev, s.tasks[t.task].phase, t)
  }

  predicate HasTurn(turns: seq<Turn>, i: nat) {
    exists j :: 0 <= j < |turns| && turns[j].task == i
  }

  /** Exactly the lock holder is between reading and its end, and its turn is the last; every
      call past waiting has one turn, which agrees with it. */
  ghost predicate Orderly(dev: Device, s: System) {
    && (forall i: nat :: i < |s.tasks| ==> (Holds(s.tasks[i].phase) <==> s.lock == Some(i)))
    && (s.lock.Some? ==> s.lock.value < |s.tasks| && s.turns != [] && Last(s).task == s.lock.value)
    && (forall j :: 0 <= j < |s.turns| ==> TurnOk(dev, s, s.turns[j]))
    && (forall j, k :: 0 <= j < k < |s.turns| ==> s.turns[j].task != s.turns[k].task)
    && (forall i: nat :: i < |s.tasks| && !s.tasks[i].phase.Waiting? && s.tasks[i].phase != Done(Cancelled) ==>
          HasTurn(s.turns, i))
  }

  /** A turn record that may replace another. */
  predicate SameTurn(a: Turn, b: Turn) {
    a.task == b.task && a.key == b.key && a.update == b.update
  }

  /** Whatever the holder does, the order is kept if its phase and its turn agree. */
  lemma MoveKeeps(dev: Device, s: System, i: nat, phase: Phase, turn: Turn, t: System)
    requires Orderly(dev, s) && s.lock == Some(i) && s.turns != [] && SameTurn(turn, Last(s))
    requires Fits(dev, phase, turn) && t.tasks == Move(s, i, phase, turn).tasks
    requires t.lock == Move(s, i, phase, turn).lock && t.turns == Move(s, i, phase, turn).turns
    ensures Orderly(dev, t)
  {
    var n := |s.turns| - 1;
    assert forall k: nat :: k < |s.tasks| && k != i ==> t.tasks[k] == s.tasks[k];
    forall j | 0 <= j < |t.turns| ensures TurnOk(dev, t, t.turns[j]) {
      assert TurnOk(dev, s, s.turns[j]);
      if j < n {
        assert s.turns[j].task != s.turns[n].task;
      }
    }
    forall k: nat | k < |t.tasks| && !t.tasks[k].phase.Waiting? && t.tasks[k].phase != Done(Cancelled)
      ensures HasTurn(t.turns, k)
    {
      if k == i {
        assert t.turns[n].task == i;
      } else {
        TurnStays(s.turns, t.turns, k);
      }
    }
  }

  lemma TurnStays(turns: seq<Turn>, after: seq<Turn>, k: nat)
    requires HasTurn(turns, k) && |turns| <= |after|
    requires forall j :: 0 <= j < |turns| ==> after[j].task == turns[j].task
    ensures HasTurn(after, k)
  {
    var j :| 0 <= j < |turns| && turns[j].task == k;
    assert after[j].task == k;
  }

  /** The holder and its turn. */
  lemma HolderTurn(dev: Device, s: System, i: nat)
    requires Orderly(dev, s) && i < |s.tasks| && Holds(s.tasks[i].phase)
    ensures s.lock == Some(i) && s.turns != [] && Last(s).task == i
    ensures Last(s).key == s.tasks[i].key && Last(s).update == s.tasks[i].update
    ensures Fits(dev, s.tasks[i].phase, Last(s))
  {
    assert TurnOk(dev, s, s.turns[|s.turns| - 1]);
  }

  lemma BeginPassKeeps(dev: Device, s: System, i: nat, current: Setting, seen: seq<nat>, pass: nat)
    requires Orderly(dev, s) && s.lock == Some(i) && s.turns != []
    requires Last(s).effect.None? && Last(s).open.None?
    ensures Orderly(dev, BeginPass(dev, s, i, current, seen, pass))
  {
    var phase := PassPhase(dev, s.flags, current, Last(s).update, pass);
    var turn := Last(s).(read := Some(current), seen := seen);
    MoveKeeps(dev, s, i, phase, turn, BeginPass(dev, s, i, current, seen, pass));
  }

  lemma LeaveKeeps(dev: Device, s: System, i: nat, current: Setting, verb: Method, applied: bool, result: Result)
    requires Orderly(dev, s) && s.lock == Some(i) && s.turns != []
    requires Fits(dev, LoggingIn(current), Last(s)) && (result == Ended(Ambiguous) || result == Cancelled)
    ensures Orderly(dev, Leave(dev, s, i, current, verb, applied, result))
  {
    var turn := if applied then Last(s).(effect := Some(verb)) else Last(s).(open := Some(verb));
    MoveKeeps(dev, s, i, Done(result), turn, Leave(dev, s, i, current, verb, applied, result));
  }

  lemma AnswerKeeps(dev: Device, s: System, i: nat, response: Response, applied: bool)
    requires Orderly(dev, s) && i < |s.tasks| && s.tasks[i].phase.Writing? && s.turns != []
    ensures Orderly(dev, Answer(dev, s, i, s.tasks[i].phase, response, applied))
  {
    HolderTurn(dev, s, i);
    var w := s.tasks[i].phase;
    var attempts := dev.attempts(w.current, Last(s).update);
    var t := Answer(dev, s, i, w, response, applied);
    if w.at < |attempts| {
      match VerdictOf(response)
      case Accepted =>
        MoveKeeps(dev, s, i, Done(Ended(Acknowledged)), Last(s).(effect := Some(attempts[w.at].verb)), t);
      case Uncertain =>
        LeaveKeeps(dev, s, i, w.current, attempts[w.at].verb, applied, Ended(Ambiguous));
      case Absent =>
        MoveKeeps(dev, s, i, if w.at + 1 < |attempts| then w.(at := w.at + 1) else Done(Ended(AllAbsent)), Last(s), t);
      case SessionRefused =>
        MoveKeeps(dev, s, i, if w.pass == 1 then LoggingIn(w.current) else Done(Ended(NeedsLogin)), Last(s), t);
    }
  }

  lemma CancelKeeps(dev: Device, s: System, i: nat, applied: bool)
    requires Orderly(dev, s) && i < |s.tasks|
    ensures Orderly(dev, CancelTask(dev, s, i, applied))
  {
    var w, t := s.tasks[i].phase, CancelTask(dev, s, i, applied);
    if w.Waiting? {
      assert forall k: nat :: k < |s.tasks| && k != i ==> t.tasks[k] == s.tasks[k];
      forall j | 0 <= j < |t.turns| ensures TurnOk(dev, t, t.turns[j]) {
        assert TurnOk(dev, s, s.turns[j]);
      }
    } else if !w.Done? {
      HolderTurn(dev, s, i);
      if w.Writing? && w.at < |dev.attempts(w.current, Last(s).update)| {
        LeaveKeeps(dev, s, i, w.current, dev.attempts(w.current, Last(s).update)[w.at].verb, applied, Cancelled);
      } else {
        MoveKeeps(dev, s, i, Done(Cancelled), Last(s), t);
      }
    }
  }

  lemma AcquireKeeps(dev: Device, s: System, i: nat)
    requires Orderly(dev, s) && i < |s.tasks| && s.tasks[i].phase.Waiting? && s.lock.None?
    ensures Orderly(dev, Next(dev, s, Acquire(i)))
  {
    var t := Next(dev, s, Acquire(i));
    var n := |s.turns|;
    assert forall j :: 0 <= j < n ==> t.turns[j] == s.turns[j];
    assert forall k: nat :: k < |s.tasks| && k != i ==> t.tasks[k] == s.tasks[k];
    forall j | 0 <= j < |t.turns|
      ensures TurnOk(dev, t, t.turns[j]) && (j < n ==> t.turns[j].task != i)
    {
      if j < n {
        assert TurnOk(dev, s, s.turns[j]);
      }
    }
    forall k: nat | k < |t.tasks| && !t.tasks[k].phase.Waiting? && t.tasks[k].phase != Done(Cancelled)
      ensures HasTurn(t.turns, k)
    {
      if k == i {
        assert t.turns[n].task == i;
      } else {
        TurnStays(s.turns, t.turns, k);
      }
    }
  }

  lemma LateKeeps(dev: Device, s: System, j: nat)
    requires Orderly(dev, s) && j < |s.turns| && s.turns[j].open.Some? && s.turns[j].read.Some?
    ensures Orderly(dev, LandLate(dev, s, j))
  {
    var t := LandLate(dev, s, j);
    assert TurnOk(dev, s, s.turns[j]);
    forall k | 0 <= k < |t.turns| ensures TurnOk(dev, t, t.turns[k]) {
      assert TurnOk(dev, s, s.turns[k]);
    }
    forall k: nat | HasTurn(s.turns, k) ensures HasTurn(t.turns, k) {
      TurnStays(s.turns, t.turns, k);
    }
  }

  lemma OutsideKeeps(dev: Device, s: System, e: Event)
    requires Orderly(dev, s) && (e.Arrive? || e.Relist?)
    ensures Orderly(dev, Next(dev, s, e))
  {
    var t := Next(dev, s, e);
    assert forall k: nat :: k < |s.tasks| ==> t.tasks[k] == s.tasks[k];
    forall j | 0 <= j < |t.turns| ensures TurnOk(dev, t, t.turns[j]) {
      assert TurnOk(dev, s, s.turns[j]);
    }
  }

  /** Every step of any interleaving keeps the order. */
  lemma NextKeeps(dev: Device, s: System, e: Event)
    requires Orderly(dev, s)
    ensures Orderly(dev, Next(dev, s, e))
  {
    match e {
      case Acquire(i) =>
        if i < |s.tasks| && s.tasks[i].phase.Waiting? && s.lock.None? {
          AcquireKeeps(dev, s, i);
        }
      case ReadDone(i, ok) =>
        if i < |s.tasks| && s.tasks[i].phase.Reading? {
          HolderTurn(dev, s, i);
          var key := Last(s).key;
          if ok && key in s.listed && key in s.docs {
            BeginPassKeeps(dev, s, i, dev.view(key, s.docs[key]), Counted(s, key), 1);
          } else {
            MoveKeeps(dev, s, i, Done(if ok then TargetGone else ReadFailed), Last(s), Next(dev, s, e));
          }
        }
      case Respond(i, response, applied) =>
        if i < |s.tasks| && s.tasks[i].phase.Writing? && s.turns != [] {
          AnswerKeeps(dev, s, i, response, applied);
        }
      case LoginDone(i, ok) =>
        if i < |s.tasks| && s.tasks[i].phase.LoggingIn? {
          HolderTurn(dev, s, i);
          if ok {
            BeginPassKeeps(dev, s, i, s.tasks[i].phase.current, Last(s).seen, 2);
          } else {
            MoveKeeps(dev, s, i, Done(LoginBroke), Last(s), Next(dev, s, e));
          }
        }
      case Cancel(i, applied) =>
        if i < |s.tasks| {
          CancelKeeps(dev, s, i, applied);
        }
      case Late(j) =>
        if j < |s.turns| && s.turns[j].open.Some? && s.turns[j].read.Some? {
          LateKeeps(dev, s, j);
        }
      case _ => OutsideKeeps(dev, s, e);
    }
  }

  lemma {:induction false} RunKeeps(dev: Device, start: map<string, Document>, events: seq<Event>)
    ensures Orderly(dev, Run(dev, Start(start), events))
  {
    if events != [] {
      RunKeeps(dev, start, events[..|events| - 1]);
      NextKeeps(dev, Run(dev, Start(start), events[..|events| - 1]), events[|events| - 1]);
    }
  }

  // ---------------------------------------------------------------- one pass in the machine

  /** Feed `n` answers to the call that is writing. */
  function Feed(dev: Device, s: System, i: nat, answers: nat -> Response, from: nat, n: nat): System
    decreases n
  {
    if n == 0 then s else Feed(dev, Next(dev, s, Respond(i, answers(from), false)), i, answers, from + 1, n - 1)
  }

  /** Call `i` holds the lock and has attempts left. */
  predicate Sending(dev: Device, s: System, i: nat) {
    && i < |s.tasks| && s.turns != [] && s.tasks[i].phase.Writing?
    && s.tasks[i].phase.at < |dev.attempts(s.tasks[i].phase.current, Last(s).update)|
  }

  function Attempted(dev: Device, s: System, i: nat): seq<Request>
    requires Sending(dev, s, i)
  {
    dev.attempts(s.tasks[i].phase.current, Last(s).update)
  }

  /** The interleaved machine sends what the client's loops send: fed the answers of one
      pass, the call ends as that pass ends and leaves the same flags. */
  lemma {:induction false} MachineRunsPass(dev: Device, s: System, i: nat, answers: nat -> Response, from: nat)
    requires Sending(dev, s, i)
    ensures var w := s.tasks[i].phase;
      var rest := Attempted(dev, s, i)[w.at..];
      var end := AttemptsEnd(rest, answers, from);
      var t := Feed(dev, s, i, answers, from, SentCount(rest, answers, from));
      && i < |t.tasks|
      && t.tasks[i].phase == (if end == NeedsLogin && w.pass == 1 then LoggingIn(w.current) else Done(Ended(end)))
      && t.flags == FlagsAfter(s.flags, w.current.kind, end)
    decreases |Attempted(dev, s, i)| - s.tasks[i].phase.at
  {
    var w, attempts := s.tasks[i].phase, Attempted(dev, s, i);
    var t := Next(dev, s, Respond(i, answers(from), false));
    AnswerMoves(dev, s, i, answers(from), t);
    assert attempts[w.at..][1..] == attempts[w.at + 1..];
    SentOne(attempts[w.at..], answers, from);
    if VerdictOf(answers(from)) == Absent && w.at + 1 < |attempts| {
      MachineRunsPass(dev, t, i, answers, from + 1);
      FeedOn(dev, s, i, answers, from, SentCount(attempts[w.at + 1..], answers, from + 1));
    } else {
      FeedOn(dev, s, i, answers, from, 0);
    }
  }

  /** The first response ends the pass, or the rest of the attempts decides. */
  lemma SentOne(attempts: seq<Request>, answers: nat -> Response, from: nat)
    requires attempts != []
    ensures var verdict := VerdictOf(answers(from));
      if verdict == Absent && |attempts| > 1 then
        && SentCount(attempts, answers, from) == SentCount(attempts[1..], answers, from + 1) + 1
        && AttemptsEnd(attempts, answers, from) == AttemptsEnd(attempts[1..], answers, from + 1)
      else SentCount(attempts, answers, from) == 1 && AttemptsEnd(attempts, answers, from) == EndOf(verdict)
  {
  }

  lemma FeedOn(dev: Device, s: System, i: nat, answers: nat -> Response, from: nat, n: nat)
    ensures Feed(dev, s, i, answers, from, n + 1)
         == Feed(dev, Next(dev, s, Respond(i, answers(from), false)), i, answers, from + 1, n)
    ensures Feed(dev, s, i, answers, from, 0) == s
    ensures n == 0 ==> Feed(dev, s, i, answers, from, 1) == Next(dev, s, Respond(i, answers(from), false))
  {
    var t := Next(dev, s, Respond(i, answers(from), false));
    assert Feed(dev, t, i, answers, from + 1, 0) == t;
  }

  /** Where one answer takes a call that is writing; `last` says that no attempt is left. */
  function PhaseAfter(w: Phase, verdict: Verdict, last: bool): Phase
    requires w.Writing?
  {
    if verdict == Absent && !last then w.(at := w.at + 1)
    else if verdict == SessionRefused && w.pass == 1 then LoggingIn(w.current)
    else Done(Ended(EndOf(verdict)))
  }

  /** Call `i` comes to the phase, its turn stays the last, and the flags are these. */
  predicate ComesTo(s: System, t: System, i: nat, phase: Phase, flags: map<string, bool>)
    requires s.turns != []
  {
    && i < |t.tasks| && t.tasks[i].phase == phase && t.flags == flags
    && t.turns != [] && Last(t).update == Last(s).update
  }

  lemma MoveComes(s: System, i: nat, phase: Phase, turn: Turn)
    requires i < |s.tasks| && s.turns != [] && turn.update == Last(s).update
    ensures ComesTo(s, Move(s, i, phase, turn), i, phase, s.flags)
  {
  }

  lemma AcceptedComes(dev: Device, s: System, i: nat, response: Response)
    requires Sending(dev, s, i) && VerdictOf(response) == Accepted
    ensures var w := s.tasks[i].phase;
      ComesTo(s, Answer(dev, s, i, w, response, false), i, Done(Ended(Acknowledged)), s.flags[w.current.kind := true])
  {
    var verb := Attempted(dev, s, i)[s.tasks[i].phase.at].verb;
    MoveComes(s, i, Done(Ended(Acknowledged)), Last(s).(effect := Some(verb)));
  }

  lemma AbsentComes(dev: Device, s: System, i: nat, response: Response)
    requires Sending(dev, s, i) && VerdictOf(response) == Absent
    ensures var w, t := s.tasks[i].phase, Answer(dev, s, i, s.tasks[i].phase, response, false);
      if w.at + 1 < |Attempted(dev, s, i)| then ComesTo(s, t, i, w.(at := w.at + 1), s.flags)
      else ComesTo(s, t, i, Done(Ended(AllAbsent)), s.flags[w.current.kind := false])
  {
    var w := s.tasks[i].phase;
    MoveComes(s, i, if w.at + 1 < |Attempted(dev, s, i)| then w.(at := w.at + 1) else Done(Ended(AllAbsent)), Last(s));
  }

  lemma RefusedComes(dev: Device, s: System, i: nat, response: Response)
    requires Sending(dev, s, i) && VerdictOf(response) == SessionRefused
    ensures var w := s.tasks[i].phase;
      ComesTo(s, Answer(dev, s, i, w, response, false), i,
              if w.pass == 1 then LoggingIn(w.current) else Done(Ended(NeedsLogin)), s.flags)
  {
    var w := s.tasks[i].phase;
    MoveComes(s, i, if w.pass == 1 then LoggingIn(w.current) else Done(Ended(NeedsLogin)), Last(s));
  }

  lemma UncertainComes(dev: Device, s: System, i: nat, response: Response)
    requires Sending(dev, s, i) && VerdictOf(response) == Uncertain
    ensures ComesTo(s, Answer(dev, s, i, s.tasks[i].phase, response, false), i, Done(Ended(Ambiguous)), s.flags)
  {
    var verb := Attempted(dev, s, i)[s.tasks[i].phase.at].verb;
    MoveComes(s, i, Done(Ended(Ambiguous)), Last(s).(open := Some(verb)));
  }

  /** What one answer does to the call and to the flags. */
  lemma AnswerMoves(dev: Device, s: System, i: nat, response: Response, t: System)
    requires Sending(dev, s, i) && t == Next(dev, s, Respond(i, response, false))
    ensures var w := s.tasks[i].phase;
      var last := w.at + 1 == |Attempted(dev, s, i)|;
      var verdict := VerdictOf(response);
      var flags := if verdict == Absent && !last then s.flags else FlagsAfter(s.flags, w.current.kind, EndOf(verdict));
      ComesTo(s, t, i, PhaseAfter(w, verdict, last), flags)
  {
    match VerdictOf(response)
    case Accepted => AcceptedComes(dev, s, i, response);
    case Absent => AbsentComes(dev, s, i, response);
    case SessionRefused => RefusedComes(dev, s, i, response);
    case Uncertain => UncertainComes(dev, s, i, response);
  }
}
