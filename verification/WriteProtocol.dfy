/** The requests of one settings write: DELETE and PUT attempts over candidate paths, the
    capability flags, and the single repetition after a new login. */
module WriteProtocol {
  import opened Prelude
  import opened SettingsRead
  import opened SettingsWrite
  import T = Text

  datatype Method = Delete | Put

  /** A settings path: the personal or shared endpoint with the quoted id or name. */
  datatype Path = Personal(id: string) | Shared(name: string)

  datatype Request = Request(verb: Method, path: Path)

  /** What a request can come back with: an HTTP status or a transport failure. */
  datatype Response = Status(code: int) | NoAnswer

  /** What a response means to the writer. */
  datatype Verdict = Accepted | Absent | SessionRefused | Uncertain

  function VerdictOf(r: Response): Verdict {
    match r
    case NoAnswer => Uncertain
    case Status(code) =>
      if code == 401 || code == 403 then SessionRefused
      else if 200 <= code < 300 then Accepted
      else if code == 404 || code == 405 then Absent
      else Uncertain
  }

  /** How one pass over the attempts ends. The last three end it before any request. */
  datatype PassEnd =
    | Acknowledged
    | NeedsLogin
    | Ambiguous
    | AllAbsent
    | KnownUnsupported
    | InvalidDays
    | BadTarget

  /** `_snapshot_settings_write_paths`; None stands for its UnexpectedResponse. */
  function WritePaths(target: Setting): Option<seq<Path>> {
    var id := T.Strip(if target.userId.Some? && target.userId.value != "" then target.userId.value else target.id);
    if target.kind == "" || id == "" then None
    else if target.kind == "mydrive" then Some([Personal(id)])
    else if target.kind == "shared" then
      var name := T.Strip(if target.sharedDriveName.Some? then target.sharedDriveName.value else "");
      Some(if name != "" && name != id then [Shared(name), Shared(id)] else [Shared(id)])
    else None
  }

  function RequestsOn(verb: Method, paths: seq<Path>): (r: seq<Request>)
    ensures |r| == |paths|
    ensures forall i :: 0 <= i < |paths| ==> r[i] == Request(verb, paths[i])
  {
    seq(|paths|, i requires 0 <= i < |paths| => Request(verb, paths[i]))
  }

  /** All attempts of a pass in order. */
  function Attempts(deleteFirst: bool, paths: seq<Path>): seq<Request> {
    (if deleteFirst then RequestsOn(Delete, paths) else []) + RequestsOn(Put, paths)
  }

  /** Answer `i` says that the endpoint is absent. */
  predicate AbsentAt(answers: nat -> Response, i: nat) {
    answers(i) == Status(404) || answers(i) == Status(405)
  }

  /** Answers `from` to `to`, exclusive, all have status 404 or 405. */
  ghost predicate AbsentIn(answers: nat -> Response, from: nat, to: int) {
    forall i: nat :: from <= i < to ==> AbsentAt(answers, i)
  }

  /** How many attempts are sent: up to and including the first that is not absent. */
  function SentCount(attempts: seq<Request>, answers: nat -> Response, from: nat): (n: nat)
    ensures n <= |attempts|
    ensures AbsentIn(answers, from, from + n - 1)
    ensures n < |attempts| ==> n > 0 && VerdictOf(answers(from + n - 1)) != Absent
    decreases |attempts|
  {
    if attempts == [] then 0
    else if VerdictOf(answers(from)) != Absent then 1
    else 1 + SentCount(attempts[1..], answers, from + 1)
  }

  /** The attempts before those of method number `v`. */
  function Base(v: nat, paths: nat): nat {
    if v == 0 then 0 else if v == 1 then paths else paths + paths
  }

  /** The requests of one method follow those of the methods before. */
  lemma TriedOn(deleteFirst: bool, paths: seq<Path>, v: nat, before: seq<Request>, tried: seq<Request>)
    requires v < if deleteFirst then 2 else 1
    requires |before| == Base(v, |paths|) && before <= Attempts(deleteFirst, paths)
    requires tried <= RequestsOn(if deleteFirst && v == 0 then Delete else Put, paths)
    ensures before + tried <= Attempts(deleteFirst, paths)
    ensures |tried| == |paths| ==> |before + tried| == Base(v + 1, |paths|)
  {
    var attempts := Attempts(deleteFirst, paths);
    forall k | |before| <= k < |before + tried| ensures attempts[k] == tried[k - |before|] {
    }
  }

  /** The end that the last response stands for. */
  function EndOf(v: Verdict): PassEnd {
    match v
    case Accepted => Acknowledged
    case SessionRefused => NeedsLogin
    case Uncertain => Ambiguous
    case Absent => AllAbsent
  }

  /** The end of a pass that sends its attempts. */
  function AttemptsEnd(attempts: seq<Request>, answers: nat -> Response, from: nat): PassEnd {
    var n := SentCount(attempts, answers, from);
    if n == 0 then AllAbsent else EndOf(VerdictOf(answers(from + n - 1)))
  }

  /** Whether a pass may send at all, given what is known of the target type. */
  function Obstacle(flags: map<string, bool>, target: Setting, update: Update): Option<PassEnd> {
    if target.kind != "" && target.kind in flags && !flags[target.kind] then Some(KnownUnsupported)
    else if WriteBody(target, update).None? then Some(InvalidDays)
    else if WritePaths(target).None? then Some(BadTarget)
    else None
  }

  /** The flags after a pass: a response settles the type flag only if it was accepted or
      every attempt was absent. */
  function FlagsAfter(flags: map<string, bool>, kind: string, end: PassEnd): map<string, bool> {
    match end
    case Acknowledged => flags[kind := true]
    case AllAbsent => flags[kind := false]
    case _ => flags
  }

  /** The attempts on a target; none for one without paths. */
  function AttemptsOf(target: Setting, update: Update): seq<Request> {
    match WritePaths(target)
    case None => []
    case Some(paths) => Attempts(update.DeleteRequired(), paths)
  }

  /** The requests and the end of one pass, given what stands in its way. */
  function PassWith(obstacle: Option<PassEnd>, attempts: seq<Request>, answers: nat -> Response,
                    from: nat): (seq<Request>, PassEnd) {
    match obstacle
    case Some(end) => ([], end)
    case None => (attempts[..SentCount(attempts, answers, from)], AttemptsEnd(attempts, answers, from))
  }

  function PassOf(flags: map<string, bool>, target: Setting, update: Update, answers: nat -> Response,
                  from: nat): (seq<Request>, PassEnd) {
    PassWith(Obstacle(flags, target, update), AttemptsOf(target, update), answers, from)
  }

  /** `_snapshot_capability_aggregate` */
  function Aggregate(flags: map<string, bool>): Option<bool> {
    if exists k :: k in flags && flags[k] then Some(true)
    else if "shared" in flags && "mydrive" in flags then Some(false)
    else None
  }

  /** The aggregate of the flags: true when some type is known to support writing, false when both
      types are known not to, and unknown otherwise. */
  predicate Summarises(aggregate: Option<bool>, flags: map<string, bool>) {
    var supported := exists kind :: kind in flags && flags[kind];
    && (aggregate == Some(true) <==> supported)
    && (aggregate == Some(false) <==> !supported && "shared" in flags && "mydrive" in flags)
  }

  lemma AggregateSummarises(flags: map<string, bool>)
    ensures Summarises(Aggregate(flags), flags)
  {
  }

  /** How a whole update call ends. */
  datatype CallEnd = Finished(end: PassEnd) | LoginFailed

  lemma {:induction false} SentOn(attempts: seq<Request>, answers: nat -> Response, from: nat, k: nat)
    requires k <= |attempts| && AbsentIn(answers, from, from + k)
    ensures SentCount(attempts, answers, from) == k + SentCount(attempts[k..], answers, from + k)
  {
    if k == 0 {
      assert attempts[0..] == attempts;
    } else {
      SentOn(attempts, answers, from, k - 1);
      assert AbsentAt(answers, from + k - 1);
      assert attempts[k - 1..][1..] == attempts[k..];
    }
  }

  /** A response other than absent ends the pass there. */
  lemma StopsAt(attempts: seq<Request>, answers: nat -> Response, from: nat, k: nat)
    requires k < |attempts| && AbsentIn(answers, from, from + k)
    requires VerdictOf(answers(from + k)) != Absent
    ensures SentCount(attempts, answers, from) == k + 1
    ensures AttemptsEnd(attempts, answers, from) == EndOf(VerdictOf(answers(from + k)))
  {
    SentOn(attempts, answers, from, k);
  }

  /** When everything is absent all attempts are sent. */
  lemma RunsOut(attempts: seq<Request>, answers: nat -> Response, from: nat)
    requires AbsentIn(answers, from, from + |attempts|)
    ensures SentCount(attempts, answers, from) == |attempts| && AttemptsEnd(attempts, answers, from) == AllAbsent
  {
    SentOn(attempts, answers, from, |attempts|);
    if attempts != [] {
      assert AbsentAt(answers, from + |attempts| - 1);
    }
  }

  /** The snapshot client with its capability fields. */
  class Client {
    var writeSupported: Option<bool>
    var writeSupportedByType: map<string, bool>

    /** The aggregate summarises the flags once one is set. */
    ghost predicate Valid()
      reads this
    {
      writeSupportedByType != map[] ==> Summarises(writeSupported, writeSupportedByType)
    }

    constructor ()
      ensures Valid() && writeSupportedByType == map[]
    {
      writeSupported, writeSupportedByType := None, map[];
    }

    /** `_set_snapshot_capability` for a known type */
    method SetCapability(kind: string, supported: bool)
      modifies this
      ensures Valid() && writeSupportedByType == old(writeSupportedByType)[kind := supported]
    {
      writeSupportedByType := writeSupportedByType[kind := supported];
      writeSupported := Aggregate(writeSupportedByType);
      AggregateSummarises(writeSupportedByType);
    }

    /** `_async_update_snapshot_target_settings_once`; answer `from + i` is the response to
        its i-th request. */
    method UpdateOnce(target: Setting, update: Update, answers: nat -> Response, from: nat)
      returns (sent: seq<Request>, end: PassEnd)
      requires Valid()
      modifies this
      ensures Valid()
      ensures (sent, end) == PassOf(old(writeSupportedByType), target, update, answers, from)
      ensures writeSupportedByType == FlagsAfter(old(writeSupportedByType), target.kind, end)
    {
      var obstacle := Check(target, update);
      if obstacle.Some? {
        return [], obstacle.value;
      }
      sent, end := Send(target.kind, update.DeleteRequired(), WritePaths(target).value, answers, from);
    }

    /** What ends the pass before its first request. */
    method Check(target: Setting, update: Update) returns (obstacle: Option<PassEnd>)
      ensures obstacle == Obstacle(writeSupportedByType, target, update)
      ensures obstacle.None? ==> WritePaths(target).Some?
    {
      if target.kind != "" && target.kind in writeSupportedByType && !writeSupportedByType[target.kind] {
        return Some(KnownUnsupported);
      }
      var body := WriteBody(target, update);
      if body.None? {
        return Some(InvalidDays);
      }
      obstacle := if WritePaths(target).None? then Some(BadTarget) else None;
    }

    /** The nested loops over methods and paths. */
    method Send(kind: string, deleteFirst: bool, paths: seq<Path>, answers: nat -> Response, from: nat)
      returns (sent: seq<Request>, end: PassEnd)
      requires Valid()
      modifies this
      ensures Valid()
      ensures var attempts := Attempts(deleteFirst, paths);
        && sent == attempts[..SentCount(attempts, answers, from)]
        && end == AttemptsEnd(attempts, answers, from)
      ensures writeSupportedByType == FlagsAfter(old(writeSupportedByType), kind, end)
    {
      sent := [];
      var verbs := if deleteFirst then [Delete, Put] else [Put];
      ghost var attempts := Attempts(deleteFirst, paths);
      for v := 0 to |verbs|
        invariant Valid() && writeSupportedByType == old(writeSupportedByType)
        invariant |sent| == Base(v, |paths|) && sent <= attempts
        invariant AbsentIn(answers, from, from + |sent|)
      {
        ghost var before := sent;
        var tried, stop := TryPaths(verbs[v], paths, answers, from + |sent|);
        sent := sent + tried;
        TriedOn(deleteFirst, paths, v, before, tried);
        if stop.Some? {
          StopsAt(attempts, answers, from, |sent| - 1);
          Settle(kind, stop.value);
          return sent, stop.value;
        }
      }
      RunsOut(attempts, answers, from);
      Settle(kind, AllAbsent);
      end := AllAbsent;
    }

    /** The loop over the paths of one method: it stops at the first response that is not absent. */
    method TryPaths(verb: Method, paths: seq<Path>, answers: nat -> Response, from: nat)
      returns (tried: seq<Request>, stop: Option<PassEnd>)
      ensures tried <= RequestsOn(verb, paths)
      ensures stop.None? ==> |tried| == |paths| && AbsentIn(answers, from, from + |tried|)
      ensures stop.Some? ==>
                && tried != [] && AbsentIn(answers, from, from + |tried| - 1)
                && VerdictOf(answers(from + |tried| - 1)) != Absent
                && stop == Some(EndOf(VerdictOf(answers(from + |tried| - 1))))
    {
      tried := [];
      for n := 0 to |paths|
        invariant |tried| == n && tried <= RequestsOn(verb, paths)
        invariant AbsentIn(answers, from, from + n)
      {
        tried := tried + [Request(verb, paths[n])];
        if VerdictOf(answers(from + n)) != Absent {
          return tried, Some(EndOf(VerdictOf(answers(from + n))));
        }
        assert AbsentAt(answers, from + n);
      }
      stop := None;
    }

    /** What the end of the attempts says of the type. */
    method Settle(kind: string, end: PassEnd)
      requires Valid()
      modifies this
      ensures Valid() && writeSupportedByType == FlagsAfter(old(writeSupportedByType), kind, end)
    {
      match end {
        case Acknowledged => SetCapability(kind, true);
        case AllAbsent => SetCapability(kind, false);
        case _ =>
      }
    }

    /** The write part of `async_update_snapshot_target_settings`: one pass, and a second
        one after a refused session and a new login. */
    method Update(current: Setting, update: Update, answers: nat -> Response, loginWorks: bool)
      returns (first: seq<Request>, second: seq<Request>, end: CallEnd)
      requires Valid()
      modifies this
      ensures Valid()
      ensures var flags := old(writeSupportedByType);
        var (sent, passEnd) := PassOf(flags, current, update, answers, 0);
        first == sent &&
        if passEnd != NeedsLogin then
          second == [] && end == Finished(passEnd) && writeSupportedByType == FlagsAfter(flags, current.kind, passEnd)
        else if !loginWorks then
          second == [] && end == LoginFailed && writeSupportedByType == flags
        else
          var (again, lastEnd) := PassOf(flags, current, update, answers, |sent|);
          second == again && end == Finished(lastEnd)
              && writeSupportedByType == FlagsAfter(flags, current.kind, lastEnd)
    {
      var passEnd;
      first, passEnd := UpdateOnce(current, update, answers, 0);
      second := [];
      if passEnd != NeedsLogin {
        return first, [], Finished(passEnd);
      }
      if !loginWorks {
        return first, [], LoginFailed;
      }
      second, passEnd := UpdateOnce(current, update, answers, |first|);
      end := Finished(passEnd);
    }
  }

  /** What is sent of a list of attempts. */
  lemma AttemptsShape(attempts: seq<Request>, answers: nat -> Response, from: nat)
    requires attempts != []
    ensures var n := SentCount(attempts, answers, from);
      && n > 0 && AbsentIn(answers, from, from + n - 1)
      && AttemptsEnd(attempts, answers, from) == EndOf(VerdictOf(answers(from + n - 1)))
      && (AttemptsEnd(attempts, answers, from) == AllAbsent ==> n == |attempts| && AbsentIn(answers, from, from + n))
  {
    var n := SentCount(attempts, answers, from);
    if AttemptsEnd(attempts, answers, from) == AllAbsent {
      assert AbsentAt(answers, from + n - 1);
    }
  }

  /** A pass whose last response is `r` ends this way. */
  predicate EndsWith(r: Response, end: PassEnd) {
    && (end == Acknowledged <==> r.Status? && 200 <= r.code <= 299)
    && (end == AllAbsent <==> r == Status(404) || r == Status(405))
    && (end == NeedsLogin <==> r == Status(401) || r == Status(403))
    && (end == Ambiguous <==>
          r.NoAnswer? || !(r.code in {401, 403, 404, 405} || 200 <= r.code <= 299))
  }

  lemma EndOfResponse(r: Response)
    ensures EndsWith(r, EndOf(VerdictOf(r)))
  {
  }

  /** What a pass sends and how it ends. */
  ghost predicate WellShaped(obstacle: Option<PassEnd>, attempts: seq<Request>, answers: nat -> Response, from: nat,
                             sent: seq<Request>, end: PassEnd) {
    && sent <= attempts
    && AbsentIn(answers, from, from + |sent| - 1)
    && (obstacle.Some? ==> sent == [] && obstacle == Some(end))
    && (obstacle.None? ==> sent != [] && EndsWith(answers(from + |sent| - 1), end))
    && (obstacle.None? && end == AllAbsent ==> sent == attempts && AbsentIn(answers, from, from + |sent|))
  }

  lemma PassWithShape(obstacle: Option<PassEnd>, attempts: seq<Request>, answers: nat -> Response, from: nat)
    requires obstacle.None? ==> attempts != []
    ensures var (sent, end) := PassWith(obstacle, attempts, answers, from);
      WellShaped(obstacle, attempts, answers, from, sent, end)
  {
    if obstacle.None? {
      AttemptsShape(attempts, answers, from);
      EndOfResponse(answers(from + SentCount(attempts, answers, from) - 1));
    }
  }

  /** The shape of one pass: a prefix of DELETE paths (only for a pure turn-off) and PUT
      paths, every response but the last of status 404 or 405, and the last says how it ends. */
  lemma PassShape(flags: map<string, bool>, target: Setting, update: Update, answers: nat -> Response, from: nat)
    ensures var (sent, end) := PassOf(flags, target, update, answers, from);
      WellShaped(Obstacle(flags, target, update), AttemptsOf(target, update), answers, from, sent, end)
  {
    SomeAttempt(target, update.DeleteRequired());
    PassWithShape(Obstacle(flags, target, update), AttemptsOf(target, update), answers, from);
  }

  lemma SomeAttempt(target: Setting, deleteFirst: bool)
    ensures WritePaths(target).Some? ==> Attempts(deleteFirst, WritePaths(target).value) != []
  {
  }

  /** Nothing is requested but to turn the setting off. */
  predicate PureTurnOff(u: Update) {
    && u.enabled == Some(false) && u.maxCount.None? && u.scheduleEnabled.None? && u.scheduleFrequency.None?
    && u.scheduleTime.None? && u.scheduleWeekdays.None? && u.scheduleMonthdays.None?
  }

  /** DELETE is tried for a pure turn-off only, on every path, and then PUT on every path; any
      other change is a PUT on every path. */
  lemma DeletesOnlyToTurnOff(update: Update, paths: seq<Path>)
    ensures var attempts, n := Attempts(update.DeleteRequired(), paths), |paths|;
      && |attempts| == (if PureTurnOff(update) then n + n else n)
      && (forall i :: 0 <= i < |attempts| ==>
            attempts[i] == if PureTurnOff(update) then
                             (if i < n then Request(Delete, paths[i]) else Request(Put, paths[i - n]))
                           else Request(Put, paths[i]))
  {
    assert update.DeleteRequired() <==> PureTurnOff(update);
  }

  /** An end that no request produced and that leaves the flags alone. */
  predicate Silent(end: PassEnd) {
    end.KnownUnsupported? || end.InvalidDays? || end.BadTarget?
  }

  /** What stands in the way of a pass is silent, and otherwise there is something to send. */
  lemma ObstaclesAreSilent(flags: map<string, bool>, target: Setting, update: Update)
    ensures var obstacle := Obstacle(flags, target, update);
      if obstacle.None? then AttemptsOf(target, update) != [] else Silent(obstacle.value)
  {
    SomeAttempt(target, update.DeleteRequired());
  }

  /** What a pass makes of the flags: other types' flags stay; the flag of the type turns False
      exactly after every attempt was answered 404 or 405, True exactly after a response in the
      200s, and stays after any other. */
  ghost predicate FlagsMove(flags: map<string, bool>, kind: string, attempts: seq<Request>, answers: nat -> Response,
                            from: nat, sent: seq<Request>, after: map<string, bool>) {
    && (forall k :: k != kind ==> (k in after <==> k in flags) && (k in flags ==> after[k] == flags[k]))
    && if sent == [] then after == flags
       else
         match answers(from + |sent| - 1)
         case NoAnswer => after == flags
         case Status(code) =>
           if 200 <= code <= 299 then kind in after && after[kind]
           else if code == 404 || code == 405 then
             kind in after && !after[kind] && sent == attempts && AbsentIn(answers, from, from + |sent|)
           else after == flags
  }

  lemma FlagChanges(flags: map<string, bool>, target: Setting, update: Update, answers: nat -> Response, from: nat)
    ensures var (sent, end) := PassOf(flags, target, update, answers, from);
      FlagsMove(flags, target.kind, AttemptsOf(target, update), answers, from, sent,
                FlagsAfter(flags, target.kind, end))
  {
    ObstaclesAreSilent(flags, target, update);
    PassShape(flags, target, update, answers, from);
    var (sent, end) := PassOf(flags, target, update, answers, from);
    FlagsMoved(flags, target.kind, Obstacle(flags, target, update), AttemptsOf(target, update), answers, from, sent,
        end);
  }

  lemma FlagsMoved(flags: map<string, bool>, kind: string, obstacle: Option<PassEnd>, attempts: seq<Request>,
                   answers: nat -> Response, from: nat, sent: seq<Request>, end: PassEnd)
    requires obstacle.Some? ==> Silent(obstacle.value)
    requires WellShaped(obstacle, attempts, answers, from, sent, end)
    ensures FlagsMove(flags, kind, attempts, answers, from, sent, FlagsAfter(flags, kind, end))
  {
  }

  /** When a pass sends nothing, and why: the type is known not to support writing, the change
      names invalid days, or the target has no path. */
  lemma SilentPasses(flags: map<string, bool>, target: Setting, update: Update, answers: nat -> Response, from: nat)
    ensures var (sent, end) := PassOf(flags, target, update, answers, from);
      var known := target.kind != "" && target.kind in flags && !flags[target.kind];
      && (end == KnownUnsupported <==> known)
      && (end == InvalidDays <==> !known && WriteBody(target, update).None?)
      && (end == BadTarget <==> !known && WriteBody(target, update).Some? && WritePaths(target).None?)
      && (sent == [] <==> end == KnownUnsupported || end == InvalidDays || end == BadTarget)
  {
    ObstaclesAreSilent(flags, target, update);
    PassShape(flags, target, update, answers, from);
  }

  /** Where a change is sent: a personal target to the path of its user id, or of its id if it
      names no user; a shared one to the path of its drive name first, if that is another text,
      and then to that of its id. */
  lemma PathsOf(target: Setting)
    ensures var id := T.Strip(if target.userId == None || target.userId == Some("") then target.id
                              else target.userId.value);
      var paths := WritePaths(target);
      && (paths.Some? <==> (target.kind == "mydrive" || target.kind == "shared") && id != "")
      && (paths.Some? ==>
            && NoDup(paths.value) && 1 <= |paths.value| <= 2
            && paths.value[|paths.value| - 1] == (if target.kind == "mydrive" then Personal(id) else Shared(id))
            && (|paths.value| == 2 <==>
                  && target.kind == "shared" && target.sharedDriveName.Some?
                  && T.Strip(target.sharedDriveName.value) !in {"", id})
            && (|paths.value| == 2 ==> paths.value[0] == Shared(T.Strip(target.sharedDriveName.value))))
  {
    assert T.Strip("") == "";
    assert "mydrive"[0] == 'm' && "shared"[0] == 's';
  }

  /** At most the last request of a call can have changed the device: every earlier one was
      answered 404 or 405, or 401 or 403 before the second pass. */
  lemma OnlyTheLastCounts(obstacle: Option<PassEnd>, attempts: seq<Request>, answers: nat -> Response,
                          first: seq<Request>, end: PassEnd, second: seq<Request>, lastEnd: PassEnd)
    requires if obstacle.None? then attempts != [] else Silent(obstacle.value)
    requires (first, end) == PassWith(obstacle, attempts, answers, 0)
    requires (second, lastEnd) == PassWith(obstacle, attempts, answers, |first|)
    ensures AbsentIn(answers, 0, |first| - 1)
    ensures end == NeedsLogin ==>
              first != [] && (answers(|first| - 1) == Status(401) || answers(|first| - 1) == Status(403))
    ensures AbsentIn(answers, |first|, |first| + |second| - 1)
  {
    PassWithShape(obstacle, attempts, answers, 0);
    PassWithShape(obstacle, attempts, answers, |first|);
  }
}
