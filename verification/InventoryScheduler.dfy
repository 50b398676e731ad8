/** The resumable snapshot-inventory scheduler of the coordinator: what one poll does to
    its fields, as functions on a state value, and the class that does it in place. */
module InventoryScheduler {
  import opened Prelude
  import opened TargetKeys
  import opened InventorySummary

  /** Ten minutes, in microseconds. */
  const REFRESH_INTERVAL: int := 600_000_000

  /** Published category of a failed inventory read. */
  datatype Reason = Permission | Unsupported | Connection | UnexpectedAnswer | Unknown

  /** The exceptions one read can raise; `marker` says that the message of an
      UnsupportedFeature contains "not available on this system". */
  datatype ReadError =
    | InvalidAuth
    | UnsupportedFeature(marker: bool)
    | CannotConnect
    | UnexpectedResponse
    | InternalError

  /** How one awaited read ends. `Unhandled` is an error that no handler of the pass or of the
      poll names, such as the OverflowError of a timestamp outside the calendar. */
  datatype Outcome = Read(summary: Summary) | Failed(error: ReadError) | Cancelled | Unhandled

  /** One awaited read, and whether a refresh was requested while it was pending. */
  datatype ReadEvent = ReadEvent(outcome: Outcome, requestArrived: bool)

  /** Everything one poll takes from outside: the accepted settings list, the clock at its
      start and end, the client's support map and how a read of each key would end. `abort`
      is the number of entries after which a runtime, type or value error ends the pass
      outside any read; no answer of the device produces it. */
  datatype Poll = Poll(
    settings: seq<Target>,
    now: int,
    finished: int,
    support: map<string, bool>,
    answers: string -> ReadEvent,
    abort: Option<nat>)

  /** The coordinator fields. `served` is a history variable that the program does not
      have: the advertised targets published since the latest refresh request. */
  datatype State = State(
    settings: seq<Target>,
    available: bool,
    inventory: map<string, Summary>,
    errors: map<string, Reason>,
    skips: map<string, Reason>,
    targetKeys: set<string>,
    lastRefresh: Option<int>,
    requested: bool,
    pending: Option<seq<string>>,
    batchStarted: Option<int>,
    served: set<string>)

  const INITIAL := State([], false, map[], map[], map[], {}, None, false, None, None, {})

  /** How the inventory part of a poll ended: `Interrupted` by a cancelled read, `Broken` by an
      unhandled error of a read, `Aborted` by an error that the poll handles. */
  datatype End = NotDue | Completed | Interrupted(at: string) | Broken(at: string) | Aborted

  /** The result of a pass or poll: `visited` lists the queue entries taken up, in order,
      and `issued` those for which a read was sent. */
  datatype Pass = Pass(state: State, end: End, visited: seq<string>, issued: seq<string>)

  /** `_snapshot_inventory_error_reason` */
  function ReasonOf(e: ReadError): Reason {
    match e
    case InvalidAuth => Permission
    case UnsupportedFeature(marker) => if marker then Unsupported else UnexpectedAnswer
    case CannotConnect => Connection
    case UnexpectedResponse => UnexpectedAnswer
    case InternalError => Unknown
  }

  /** `_snapshot_inventory_read_should_be_skipped` */
  predicate Sticky(e: ReadError) {
    e.InvalidAuth? || (e.UnsupportedFeature? && e.marker)
  }

  /** `snapshot_inventory_error_is_sticky`, which the entities ask about a published reason */
  predicate StickyReason(reason: Reason) {
    reason == Permission || reason == Unsupported
  }

  /** `_snapshot_inventory_type_is_unsupported` */
  predicate TypeUnsupported(support: map<string, bool>, kind: string) {
    || (kind in support && !support[kind])
    || (kind == "mydrive" && "personal" in support && !support["personal"])
  }

  function Dequeue(pending: Option<seq<string>>, key: string): Option<seq<string>> {
    match pending
    case None => None
    case Some(q) => Some(Without(q, key))
  }

  function Requeue(pending: Option<seq<string>>, key: string): Option<seq<string>> {
    match pending
    case None => None
    case Some(q) => Some(Without(q, key) + [key])
  }

  /** Merge a changed set of advertised targets into the queue. */
  function MergeTargets(s: State, active: set<string>): State {
    if active == s.targetKeys then s
    else
      match s.pending
      case None => s.(requested := true, targetKeys := active)
      case Some(q) =>
        s.(pending := Some(AppendMissing(Keep(q, active), SortedKeys(active - s.targetKeys))),
           targetKeys := active)
  }

  /** The entries whose key is still advertised. */
  function Restrict<V>(m: map<string, V>, keep: set<string>): map<string, V> {
    map k | k in m && k in keep :: m[k]
  }

  /** `_prune_snapshot_inventory_state` */
  function Prune(s: State, active: set<string>): State {
    s.(inventory := Restrict(s.inventory, active),
       errors := Restrict(s.errors, active),
       skips := Restrict(s.skips, active),
       served := s.served * active)
  }

  /** `_snapshot_inventory_refresh_due` */
  predicate Due(s: State, now: int) {
    || s.requested
    || s.pending.Some?
    || s.lastRefresh.None?
    || now - s.lastRefresh.value >= REFRESH_INTERVAL
  }

  predicate BatchExpired(s: State, now: int) {
    s.batchStarted.Some? && now - s.batchStarted.value >= REFRESH_INTERVAL
  }

  /** Open a batch, or put completed targets back on the queue of an open one. */
  function OpenBatch(s: State, active: set<string>, now: int): State {
    match s.pending
    case None =>
      s.(requested := false, pending := Some(SortedKeys(active)), batchStarted := Some(now))
    case Some(q) =>
      if s.requested || BatchExpired(s, now) then
        s.(requested := false, pending := Some(AppendMissing(q, SortedKeys(active))), batchStarted := Some(now))
      else s
  }

  /** A published inventory entry. */
  function PublishRead(s: State, key: string, summary: Summary): State {
    s.(inventory := s.inventory[key := summary],
       errors := s.errors - {key},
       skips := s.skips - {key})
  }

  /** A published error; `sticky` also stops later reads. */
  function PublishError(s: State, key: string, reason: Reason, sticky: bool): State {
    s.(inventory := s.inventory - {key},
       errors := s.errors[key := reason],
       skips := if sticky then s.skips[key := reason] else s.skips)
  }

  /** The effect of taking up one queue entry; `stop` is set when the pass ends here. */
  datatype Visit = Visit(state: State, issued: bool, stop: Option<End>)

  function Leave(s: State, key: string): State {
    s.(pending := Dequeue(s.pending, key), served := s.served + {key})
  }

  function VisitOne(s: State, key: string, p: Poll): Visit {
    match TargetFor(s.settings, key)
    case None => Visit(s.(pending := Dequeue(s.pending, key)), false, None)
    case Some(target) => VisitTarget(s, key, TypeUnsupported(p.support, target.kind), p.answers(key))
  }

  /** The branches of the loop body for an advertised target. */
  function VisitTarget(s: State, key: string, unsupported: bool, event: ReadEvent): Visit {
    if key in s.skips then
      Visit(Leave(PublishError(s, key, s.skips[key], false), key), false, None)
    else if unsupported then
      Visit(Leave(PublishError(s, key, Unsupported, true), key), false, None)
    else
      var s1 := Heard(s, event.requestArrived);
      match event.outcome
      case Read(summary) =>
        Visit(LeaveAfterRead(PublishRead(s1, key, summary), key, event.requestArrived), true, None)
      case Failed(e) =>
        Visit(LeaveAfterRead(PublishError(s1, key, ReasonOf(e), Sticky(e)), key, event.requestArrived), true, None)
      case Cancelled => Visit(s1.(pending := Requeue(s1.pending, key)), true, Some(Interrupted(key)))
      case Unhandled => Visit(s1, true, Some(Broken(key)))
  }

  /** A request that another task may make while a read is awaited. */
  function Heard(s: State, requestArrived: bool): State {
    if requestArrived then RequestStep(s) else s
  }

  /** A read sent before the latest request does not serve that request. */
  function LeaveAfterRead(s: State, key: string, requestArrived: bool): State {
    if requestArrived then s.(pending := Dequeue(s.pending, key)) else Leave(s, key)
  }

  /** The place of the abort once one more entry is behind it. */
  function Closer(abort: Option<nat>): Option<nat>
    requires abort != Some(0)
  {
    match abort
    case None => None
    case Some(n) => Some(n - 1)
  }

  /** The loop over the queue snapshot `todo`. */
  function Walk(s: State, todo: seq<string>, abort: Option<nat>, p: Poll): Pass
    decreases |todo|
  {
    if abort == Some(0) then Pass(s, Aborted, [], [])
    else if todo == [] then Pass(s, Completed, [], [])
    else
      var v := VisitOne(s, todo[0], p);
      var sent := if v.issued then [todo[0]] else [];
      match v.stop
      case Some(end) => Pass(v.state, end, [todo[0]], sent)
      case None =>
        var rest := Walk(v.state, todo[1..], Closer(abort), p);
        Pass(rest.state, rest.end, [todo[0]] + rest.visited, sent + rest.issued)
  }

  /** A pass that continues one with these entries already behind it. */
  function After(visited: seq<string>, issued: seq<string>, rest: Pass): Pass {
    Pass(rest.state, rest.end, visited + rest.visited, issued + rest.issued)
  }

  /** The place of the abort after `n` entries, unless it lies behind. */
  function Ahead(abort: Option<nat>, n: nat): Option<nat> {
    if abort.Some? && n <= abort.value then Some(abort.value - n) else None
  }

  lemma AfterOne(visited: seq<string>, issued: seq<string>, key: string, sent: seq<string>, rest: Pass)
    ensures After(visited, issued, After([key], sent, rest)) == After(visited + [key], issued + sent, rest)
  {
    assert visited + ([key] + rest.visited) == visited + [key] + rest.visited;
    assert issued + (sent + rest.issued) == issued + sent + rest.issued;
  }

  /** One unfolding of the loop. */
  lemma WalkOne(s: State, todo: seq<string>, abort: Option<nat>, p: Poll)
    requires todo != [] && abort != Some(0)
    ensures var v, key := VisitOne(s, todo[0], p), todo[0];
      var sent := if v.issued then [key] else [];
      Walk(s, todo, abort, p) ==
        if v.stop.Some? then Pass(v.state, v.stop.value, [key], sent)
        else After([key], sent, Walk(v.state, todo[1..], Closer(abort), p))
  {
  }

  /** One unfolding of the loop, with the entries already behind it. */
  lemma WalkOn(s: State, todo: seq<string>, n: nat, abort: Option<nat>, p: Poll,
               visited: seq<string>, issued: seq<string>)
    requires n < |todo| && abort != Some(n)
    ensures var v, key := VisitOne(s, todo[n], p), todo[n];
      var sent := issued + if v.issued then [key] else [];
      After(visited, issued, Walk(s, todo[n..], Ahead(abort, n), p)) ==
        if v.stop.Some? then Pass(v.state, v.stop.value, visited + [key], sent)
        else After(visited + [key], sent, Walk(v.state, todo[n + 1..], Ahead(abort, n + 1), p))
  {
    assert todo[n..][0] == todo[n] && todo[n..][1..] == todo[n + 1..];
    assert Closer(Ahead(abort, n)) == Ahead(abort, n + 1);
    WalkOne(s, todo[n..], Ahead(abort, n), p);
    var v := VisitOne(s, todo[n], p);
    if v.stop.None? {
      AfterOne(visited, issued, todo[n], if v.issued then [todo[n]] else [],
               Walk(v.state, todo[n + 1..], Ahead(abort, n + 1), p));
    }
  }

  /** A pass that ends before its next entry. */
  lemma AbortsHere(s: State, todo: seq<string>, p: Poll, visited: seq<string>, issued: seq<string>)
    ensures After(visited, issued, Walk(s, todo, Some(0), p)) == Pass(s, Aborted, visited, issued)
  {
    assert visited + [] == visited && issued + [] == issued;
  }

  /** A pass that has no entry left. */
  lemma EndsHere(s: State, abort: Option<nat>, p: Poll, visited: seq<string>, issued: seq<string>)
    ensures After(visited, issued, Walk(s, [], abort, p))
         == Pass(s, if abort == Some(0) then Aborted else Completed, visited, issued)
  {
    assert visited + [] == visited && issued + [] == issued;
  }

  lemma StartsHere(s: State, todo: seq<string>, abort: Option<nat>, p: Poll)
    ensures After([], [], Walk(s, todo[0..], Ahead(abort, 0), p)) == Walk(s, todo, abort, p)
  {
    assert todo[0..] == todo;
    var r := Walk(s, todo, abort, p);
    assert [] + r.visited == r.visited && [] + r.issued == r.issued;
  }

  /** The state on which the pass of a due poll runs. */
  function Prepared(s: State, p: Poll): State {
    var active := ActiveKeys(p.settings);
    Prune(MergeTargets(s.(settings := p.settings, available := true), active), active)
  }

  function Opened(s: State, p: Poll): State {
    OpenBatch(Prepared(s, p), ActiveKeys(p.settings), p.now)
  }

  /** What the end of the pass does to the batch. */
  function Conclude(s: State, end: End, refreshRequested: bool, p: Poll): State {
    match end
    case Completed =>
      s.(pending := None, batchStarted := None, lastRefresh := Some(p.finished),
         skips := Restrict(s.skips, s.targetKeys))
    case Aborted =>
      s.(pending := None, batchStarted := None, lastRefresh := Some(p.now),
         requested := s.requested || refreshRequested)
    case Interrupted(_) => s
    case Broken(_) => s
    case NotDue => s
  }

  /** One accepted settings read followed by the inventory refresh, if due. */
  function PollStep(s: State, p: Poll): Pass {
    var prepared := Prepared(s, p);
    if !Due(prepared, p.now) then Pass(prepared, NotDue, [], [])
    else
      var batch := Opened(s, p);
      var pass := Walk(batch, batch.pending.value, p.abort, p);
      pass.(state := Conclude(pass.state, pass.end, prepared.requested, p))
  }

  /** `request_snapshot_inventory_refresh` */
  function RequestStep(s: State): State {
    s.(requested := true, served := {})
  }

  /** `_clear_snapshot_settings_state` */
  function ClearStep(s: State): State {
    INITIAL
  }

  /** A poll of the settings endpoint: refused or unsupported, or an accepted list. */
  datatype SettingsRead = Unavailable | Accepted(poll: Poll)

  /** The coordinator, with the fields that the inventory refresh works on. */
  class Coordinator {
    var settings: seq<Target>
    var available: bool
    var inventory: map<string, Summary>
    var errors: map<string, Reason>
    var skips: map<string, Reason>
    var targetKeys: set<string>
    var lastRefresh: Option<int>
    var requested: bool
    var pending: Option<seq<string>>
    var batchStarted: Option<int>
    ghost var served: set<string>

    ghost function Value(): State
      reads this
    {
      State(settings, available, inventory, errors, skips, targetKeys, lastRefresh, requested, pending, batchStarted,
          served)
    }

    constructor ()
      ensures Value() == INITIAL
    {
      settings, available, inventory, errors, skips := [], false, map[], map[], map[];
      targetKeys, lastRefresh, requested, pending, batchStarted, served := {}, None, false, None, None, {};
    }

    /** `request_snapshot_inventory_refresh` */
    method RequestRefresh()
      modifies this
      ensures Value() == RequestStep(old(Value()))
    {
      requested := true;
      served := {};
    }

    /** `_clear_snapshot_settings_state` */
    method Clear()
      modifies this
      ensures Value() == ClearStep(old(Value()))
    {
      settings, available, inventory, errors, skips := [], false, map[], map[], map[];
      targetKeys, lastRefresh, requested, pending, batchStarted, served := {}, None, false, None, None, {};
    }

    /** `_async_snapshot_targets_for_service`, after its read: the list is stored without a poll. */
    method StoreSettings(list: seq<Target>)
      modifies this
      ensures Value() == old(Value()).(settings := list)
    {
      settings := list;
    }

    /** `_refresh_snapshot_settings` */
    method RefreshSettings(answer: SettingsRead) returns (end: End, visited: seq<string>, issued: seq<string>)
      modifies this
      ensures answer.Unavailable? ==>
                Value() == old(Value()).(available := false) && end == NotDue && visited == issued == []
      ensures answer.Accepted? ==> Pass(Value(), end, visited, issued) == PollStep(old(Value()), answer.poll)
    {
      if answer.Unavailable? {
        available := false;
        return NotDue, [], [];
      }
      available := true;
      settings := answer.poll.settings;
      end, visited, issued := RefreshIfDue(answer.poll);
    }

    /** `_async_refresh_snapshot_inventory_if_due` */
    method RefreshIfDue(p: Poll) returns (end: End, visited: seq<string>, issued: seq<string>)
      requires settings == p.settings && available
      modifies this
      ensures Pass(Value(), end, visited, issued) == PollStep(old(Value()), p)
    {
      var active := ActiveKeys(settings);
      Merge(active);
      PruneTo(active);
      assert Value() == Prepared(old(Value()), p);
      var due := requested || pending.Some? || lastRefresh.None? || p.now - lastRefresh.value >= REFRESH_INTERVAL;
      if !due {
        return NotDue, [], [];
      }
      var refreshRequested := requested;
      Open(active, p.now);
      assert Value() == Opened(old(Value()), p);
      end, visited, issued := GetInventory(p);
      Finish(end, refreshRequested, p);
    }

    /** Take over a changed set of advertised targets. */
    method Merge(active: set<string>)
      modifies this
      ensures Value() == MergeTargets(old(Value()), active)
    {
      if active != targetKeys {
        if pending.None? {
          requested := true;
        } else {
          pending := Some(AppendMissing(Keep(pending.value, active), SortedKeys(active - targetKeys)));
        }
        targetKeys := active;
      }
    }

    /** Open a batch, or revisit completed targets of an open one. */
    method Open(active: set<string>, now: int)
      modifies this
      ensures Value() == OpenBatch(old(Value()), active, now)
      ensures pending.Some?
    {
      var expired := batchStarted.Some? && now - batchStarted.value >= REFRESH_INTERVAL;
      if pending.None? {
        requested := false;
        pending := Some(SortedKeys(active));
        batchStarted := Some(now);
      } else if requested || expired {
        pending := Some(AppendMissing(pending.value, SortedKeys(active)));
        requested := false;
        batchStarted := Some(now);
      }
    }

    /** Close the batch, or leave an interrupted or broken one open. */
    method Finish(end: End, refreshRequested: bool, p: Poll)
      modifies this
      ensures Value() == Conclude(old(Value()), end, refreshRequested, p)
    {
      match end {
        case Completed =>
          skips := Restrict(skips, targetKeys);
          pending, batchStarted, lastRefresh := None, None, Some(p.finished);
        case Aborted =>
          pending, batchStarted := None, None;
          if refreshRequested {
            requested := true;
          }
          lastRefresh := Some(p.now);
        case _ =>
      }
    }

    /** `_prune_snapshot_inventory_state` */
    method PruneTo(active: set<string>)
      modifies this
      ensures Value() == Prune(old(Value()), active)
    {
      inventory := Restrict(inventory, active);
      errors := Restrict(errors, active);
      skips := Restrict(skips, active);
      served := served * active;
    }

    /** The loop of `_async_get_snapshot_inventory` over the open batch. */
    method GetInventory(p: Poll) returns (end: End, visited: seq<string>, issued: seq<string>)
      requires pending.Some?
      modifies this
      ensures Pass(Value(), end, visited, issued) == Walk(old(Value()), old(pending).value, p.abort, p)
    {
      var todo := pending.value;
      end, visited, issued := Completed, [], [];
      ghost var whole := Walk(Value(), todo, p.abort, p);
      StartsHere(Value(), todo, p.abort, p);
      for n := 0 to |todo|
        invariant pending.Some? && end == Completed
        invariant p.abort.Some? ==> n <= p.abort.value
        invariant whole == After(visited, issued, Walk(Value(), todo[n..], Ahead(p.abort, n), p))
      {
        if p.abort == Some(n) {
          AbortsHere(Value(), todo[n..], p, visited, issued);
          return Aborted, visited, issued;
        }
        WalkOn(Value(), todo, n, p.abort, p, visited, issued);
        var stop, sent := VisitKey(todo[n], p);
        visited := visited + [todo[n]];
        issued := issued + if sent then [todo[n]] else [];
        if stop.Some? {
          end := stop.value;
          return;
        }
      }
      assert todo[|todo|..] == [];
      EndsHere(Value(), Ahead(p.abort, |todo|), p, visited, issued);
      if p.abort == Some(|todo|) {
        end := Aborted;
      }
    }

    /** One iteration of that loop. */
    method VisitKey(key: string, p: Poll) returns (stop: Option<End>, sent: bool)
      requires pending.Some?
      modifies this
      ensures Visit(Value(), sent, stop) == VisitOne(old(Value()), key, p)
      ensures pending.Some?
    {
      var found := TargetFor(settings, key);
      if found.None? {
        pending := Some(Without(pending.value, key));
        return None, false;
      }
      stop, sent := VisitAdvertised(key, TypeUnsupported(p.support, found.value.kind), p.answers(key));
    }

    method VisitAdvertised(key: string, unsupported: bool, event: ReadEvent) returns (stop: Option<End>, sent: bool)
      requires pending.Some?
      modifies this
      ensures Visit(Value(), sent, stop) == VisitTarget(old(Value()), key, unsupported, event)
      ensures pending.Some?
    {
      stop, sent := None, false;
      ghost var counts := true;
      if key in skips {
        errors := errors[key := skips[key]];
      } else if unsupported {
        errors := errors[key := Unsupported];
        skips := skips[key := Unsupported];
      } else {
        sent := true;
        if event.requestArrived {
          RequestRefresh();
          counts := false;
        }
        match event.outcome {
          case Read(summary) =>
            inventory := inventory[key := summary];
            errors := errors - {key};
            skips := skips - {key};
          case Cancelled =>
            pending := Some(Without(pending.value, key) + [key]);
            return Some(Interrupted(key)), true;
          case Unhandled =>
            return Some(Broken(key)), true;
          case Failed(e) =>
            errors := errors[key := ReasonOf(e)];
            if Sticky(e) {
              skips := skips[key := errors[key]];
            }
        }
      }
      if key in errors {
        inventory := inventory - {key};
      }
      pending := Some(Without(pending.value, key));
      if counts {
        served := served + {key};
      }
    }
  }
}
