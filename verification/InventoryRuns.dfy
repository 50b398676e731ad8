/** What the scheduler keeps over every run of polls, requests and unreadable settings. */
module InventoryRuns {
  import opened Prelude
  import opened TargetKeys
  import opened InventorySummary
  import opened InventoryScheduler

  /** What is published for one key. */
  datatype Entry = Entry(inventory: Option<Summary>, error: Option<Reason>, skip: Option<Reason>)

  const UNPUBLISHED := Entry(None, None, None)

  function Lookup<V>(m: map<string, V>, key: string): Option<V> {
    if key in m then Some(m[key]) else None
  }

  function EntryOf(s: State, key: string): Entry {
    Entry(Lookup(s.inventory, key), Lookup(s.errors, key), Lookup(s.skips, key))
  }

  /** The entry a visit leaves behind. */
  function Resolved(before: Entry, unsupported: bool, outcome: Outcome): Entry {
    if before.skip.Some? then Entry(None, before.skip, before.skip)
    else if unsupported then Entry(None, Some(Unsupported), Some(Unsupported))
    else
      match outcome
      case Read(summary) => Entry(Some(summary), None, None)
      case Failed(e) => Entry(None, Some(ReasonOf(e)), if Sticky(e) then Some(ReasonOf(e)) else None)
      case Cancelled => before
      case Unhandled => before
  }

  /** The entry that the visit of an advertised key in poll `p` leaves behind. */
  function ResolvedIn(before: Entry, p: Poll, key: string): Entry
    requires key in ActiveKeys(p.settings)
  {
    Resolved(before, TypeUnsupported(p.support, TargetFor(p.settings, key).value.kind), p.answers(key).outcome)
  }

  /** The visit of an entry sends a read. */
  predicate Reads(e: Entry, p: Poll, key: string)
    requires key in ActiveKeys(p.settings)
  {
    e.skip.None? && !TypeUnsupported(p.support, TargetFor(p.settings, key).value.kind)
  }

  predicate Queued(s: State, key: string) {
    s.pending.Some? && key in s.pending.value
  }

  predicate HasEntry(s: State, key: string) {
    var e := EntryOf(s, key);
    e.inventory.Some? || e.error.Some?
  }

  /** At most one of inventory and error; a skip reason is the published error, and stands
      exactly when that error reads as sticky. */
  predicate Consistent(e: Entry) {
    && !(e.inventory.Some? && e.error.Some?)
    && (e.skip.Some? ==> e.error == e.skip)
    && (e.error.Some? && StickyReason(e.error.value) <==> e.skip.Some?)
  }

  /** The invariant of every reachable state. */
  ghost predicate Valid(s: State) {
    && (forall k :: Consistent(EntryOf(s, k)))
    && (forall k :: EntryOf(s, k) != UNPUBLISHED ==> k in s.targetKeys)
    && (s.batchStarted.Some? <==> s.pending.Some?)
    && (s.pending.Some? ==>
          && NoDup(s.pending.value)
          && (forall k :: k in s.pending.value ==> k in s.targetKeys)
          && (forall k :: k in s.targetKeys ==> k in s.pending.value || HasEntry(s, k)))
    && (forall k :: k in s.served ==> HasEntry(s, k))
  }

  // ---------------------------------------------------------------- one visit, one pass

  /** A pass works on queue `todo` of a valid state in which its targets are known. */
  ghost predicate Ready(s: State, todo: seq<string>, p: Poll) {
    Valid(s) && s.pending == Some(todo) && s.settings == p.settings && s.targetKeys == ActiveKeys(p.settings)
  }

  /** The fields that a visit leaves alone. */
  ghost predicate SameFrame(s: State, t: State) {
    t.settings == s.settings && t.available == s.available && t.targetKeys == s.targetKeys
    && t.lastRefresh == s.lastRefresh && t.batchStarted == s.batchStarted
    && (s.requested ==> t.requested)
  }

  ghost predicate VisitKeepsShape(s: State, todo: seq<string>, v: Visit)
    requires todo != []
  {
    && SameFrame(s, v.state)
    && (forall k :: k in v.state.served ==> k in s.served || (k == todo[0] && v.stop.None?))
    && match v.stop
       case None => v.state.pending == Some(todo[1..])
       case Some(Interrupted(c)) => c == todo[0] && v.state.pending == Some(todo[1..] + [c])
       case Some(Broken(c)) => c == todo[0] && v.state.pending == s.pending
       case Some(_) => false
  }

  lemma VisitShape(s: State, todo: seq<string>, unsupported: bool, event: ReadEvent)
    requires todo != [] && NoDup(todo) && s.pending == Some(todo)
    ensures VisitKeepsShape(s, todo, VisitTarget(s, todo[0], unsupported, event))
  {
    WithoutHead(todo);
    var key := todo[0];
    if key !in s.skips && !unsupported {
      match event.outcome
      case Read(summary) =>
      case Failed(e) =>
      case Cancelled =>
      case Unhandled =>
    }
  }

  lemma PublishedRead(s: State, key: string, summary: Summary)
    ensures var t := PublishRead(s, key, summary);
      && EntryOf(t, key) == Entry(Some(summary), None, None)
      && (forall k :: k != key ==> EntryOf(t, k) == EntryOf(s, k))
  {
  }

  lemma PublishedError(s: State, key: string, reason: Reason, sticky: bool)
    ensures var t := PublishError(s, key, reason, sticky);
      && EntryOf(t, key) == Entry(None, Some(reason), if sticky then Some(reason) else EntryOf(s, key).skip)
      && (forall k :: k != key ==> EntryOf(t, k) == EntryOf(s, k))
  {
  }

  lemma VisitEntries(s: State, key: string, unsupported: bool, event: ReadEvent)
    ensures var v := VisitTarget(s, key, unsupported, event);
      && EntryOf(v.state, key) == Resolved(EntryOf(s, key), unsupported, event.outcome)
      && (forall k :: k != key ==> EntryOf(v.state, k) == EntryOf(s, k))
      && (v.issued <==> key !in s.skips && !unsupported)
  {
    if key in s.skips {
      PublishedError(s, key, s.skips[key], false);
    } else if unsupported {
      PublishedError(s, key, Unsupported, true);
    } else {
      ReadEntries(s, key, event);
    }
  }

  lemma ReadEntries(s: State, key: string, event: ReadEvent)
    requires key !in s.skips
    ensures var v := VisitTarget(s, key, false, event);
      && EntryOf(v.state, key) == Resolved(EntryOf(s, key), false, event.outcome)
      && (forall k :: k != key ==> EntryOf(v.state, k) == EntryOf(s, k))
      && v.issued
  {
    var s1 := Heard(s, event.requestArrived);
    match event.outcome
    case Read(summary) => PublishedRead(s1, key, summary);
    case Failed(e) => PublishedError(s1, key, ReasonOf(e), Sticky(e));
    case _ =>
  }

  /** A visit in a ready state: shape, entries and invariant. */
  lemma VisitStep(s: State, todo: seq<string>, p: Poll)
    requires Ready(s, todo, p) && todo != []
    ensures var v, key := VisitOne(s, todo[0], p), todo[0];
      && key in ActiveKeys(p.settings)
      && VisitKeepsShape(s, todo, v) && Valid(v.state)
      && EntryOf(v.state, key) == ResolvedIn(EntryOf(s, key), p, key)
      && (forall k :: k != key ==> EntryOf(v.state, k) == EntryOf(s, k))
      && (v.issued <==> Reads(EntryOf(s, key), p, key))
  {
    var key := todo[0];
    assert key in todo;
    var unsupported, event := TypeUnsupported(p.support, TargetFor(p.settings, key).value.kind), p.answers(key);
    VisitShape(s, todo, unsupported, event);
    VisitEntries(s, key, unsupported, event);
    assert Consistent(EntryOf(s, key));
    var v := VisitTarget(s, key, unsupported, event);
    assert VisitOne(s, key, p) == v;
    VisitValid(s, todo, v, Resolved(EntryOf(s, key), unsupported, event.outcome));
  }

  lemma VisitValid(s: State, todo: seq<string>, v: Visit, resolved: Entry)
    requires Valid(s) && s.pending == Some(todo) && todo != [] && VisitKeepsShape(s, todo, v)
    requires EntryOf(v.state, todo[0]) == resolved && Consistent(resolved)
    requires forall k :: k != todo[0] ==> EntryOf(v.state, k) == EntryOf(s, k)
    requires if v.stop.None? then resolved.inventory.Some? || resolved.error.Some? else resolved == EntryOf(s, todo[0])
    ensures Valid(v.state)
  {
    assert todo[0] in todo;
    assert todo == [todo[0]] + todo[1..];
    forall k | k in v.state.served ensures HasEntry(v.state, k) {
      if k in s.served { assert HasEntry(s, k); }
    }
    forall k | k in v.state.targetKeys && v.state.pending.Some?
      ensures k in v.state.pending.value || HasEntry(v.state, k)
    {
      assert k in todo || HasEntry(s, k);
    }
  }

  /** How far a pass over `todo` came and what it left on the queue. */
  ghost predicate PassShape(todo: seq<string>, r: Pass) {
    && r.visited <= todo
    && match r.end
       case Completed => r.visited == todo && r.state.pending == Some([])
       case Interrupted(c) =>
         && r.visited != [] && c == r.visited[|r.visited| - 1]
         && r.state.pending == Some(todo[|r.visited|..] + [c])
       case Broken(c) =>
         && r.visited != [] && c == r.visited[|r.visited| - 1]
         && r.state.pending == Some(todo[|r.visited| - 1..])
       case Aborted => r.state.pending == Some(todo[|r.visited|..])
       case NotDue => false
  }

  /** What one more visited entry makes of the shape. */
  lemma ShapeOn(todo: seq<string>, rest: Pass, sent: seq<string>)
    requires todo != [] && PassShape(todo[1..], rest)
    ensures PassShape(todo, After([todo[0]], sent, rest))
  {
    var n := |rest.visited|;
    assert todo == [todo[0]] + todo[1..];
    assert todo[n + 1..] == todo[1..][n..];
    assert n > 0 ==> todo[n..] == todo[1..][n - 1..];
  }

  lemma {:induction false} WalkShape(s: State, todo: seq<string>, abort: Option<nat>, p: Poll)
    requires Ready(s, todo, p)
    ensures var r := Walk(s, todo, abort, p); Valid(r.state) && SameFrame(s, r.state) && PassShape(todo, r)
    decreases |todo|
  {
    if abort != Some(0) && todo != [] {
      VisitStep(s, todo, p);
      WalkOne(s, todo, abort, p);
      var v := VisitOne(s, todo[0], p);
      if v.stop.None? {
        WalkShape(v.state, todo[1..], Closer(abort), p);
        ShapeOn(todo, Walk(v.state, todo[1..], Closer(abort), p), if v.issued then [todo[0]] else []);
      }
    }
  }

  /** From `before` on, the pass resolved exactly the entries it visited, left every other one
      alone, and sent reads for exactly the visited ones that are neither skipped nor unsupported. */
  ghost predicate Resolves(before: State, p: Poll, r: Pass) {
    && (forall k :: k in r.visited ==>
          k in ActiveKeys(p.settings) && EntryOf(r.state, k) == ResolvedIn(EntryOf(before, k), p, k))
    && (forall k :: k !in r.visited ==> EntryOf(r.state, k) == EntryOf(before, k))
    && (forall k :: k in r.issued <==> k in r.visited && Reads(EntryOf(before, k), p, k))
  }

  lemma {:induction false} WalkEntries(s: State, todo: seq<string>, abort: Option<nat>, p: Poll)
    requires Ready(s, todo, p)
    ensures Resolves(s, p, Walk(s, todo, abort, p))
    decreases |todo|
  {
    if abort != Some(0) && todo != [] {
      VisitStep(s, todo, p);
      WalkOne(s, todo, abort, p);
      var v, key := VisitOne(s, todo[0], p), todo[0];
      if v.stop.None? {
        WalkShape(v.state, todo[1..], Closer(abort), p);
        WalkEntries(v.state, todo[1..], Closer(abort), p);
        assert key !in todo[1..];
        EntriesOn(s, v, key, p, Walk(v.state, todo[1..], Closer(abort), p));
      }
    }
  }

  lemma EntriesOn(s: State, v: Visit, key: string, p: Poll, rest: Pass)
    requires key in ActiveKeys(p.settings) && key !in rest.visited
    requires EntryOf(v.state, key) == ResolvedIn(EntryOf(s, key), p, key)
    requires forall k :: k != key ==> EntryOf(v.state, k) == EntryOf(s, k)
    requires v.issued <==> Reads(EntryOf(s, key), p, key)
    requires Resolves(v.state, p, rest)
    ensures Resolves(s, p, After([key], if v.issued then [key] else [], rest))
  {
    var r := After([key], if v.issued then [key] else [], rest);
    assert forall k :: k in r.visited <==> k == key || k in rest.visited;
    assert forall k :: k in r.issued <==> (v.issued && k == key) || k in rest.issued;
  }

  /** The read of an entry ends the pass there. */
  predicate Stops(e: Entry, p: Poll, key: string)
    requires key in ActiveKeys(p.settings)
  {
    Reads(e, p, key) && (p.answers(key).outcome.Cancelled? || p.answers(key).outcome.Unhandled?)
  }

  /** None of the entries ends the pass. */
  ghost predicate FreeOfStops(s: State, p: Poll, todo: seq<string>) {
    forall k :: k in todo ==> k in ActiveKeys(p.settings) && !Stops(EntryOf(s, k), p, k)
  }

  /** The read of `stop` is why the pass ends this way. */
  predicate StopsAs(e: Entry, p: Poll, stop: string, end: End)
    requires stop in ActiveKeys(p.settings)
  {
    Stops(e, p, stop) && end == if p.answers(stop).outcome.Cancelled? then Interrupted(stop) else Broken(stop)
  }

  /** Exactly where a pass ends, and why. */
  ghost predicate EndsThere(s: State, todo: seq<string>, abort: Option<nat>, p: Poll, r: Pass) {
    var n := |r.visited|;
    && n <= |todo| && r.visited == todo[..n]
    && match r.end
       case Completed => n == |todo| && FreeOfStops(s, p, todo) && (abort.Some? ==> n < abort.value)
       case Aborted => abort == Some(n) && FreeOfStops(s, p, todo[..n])
       case NotDue => false
       case _ =>
         && n > 0 && FreeOfStops(s, p, todo[..n - 1]) && (abort.Some? ==> n <= abort.value)
         && todo[n - 1] in ActiveKeys(p.settings)
         && StopsAs(EntryOf(s, todo[n - 1]), p, todo[n - 1], r.end)
  }

  lemma FreeOn(s: State, t: State, p: Poll, key: string, todo: seq<string>)
    requires key in ActiveKeys(p.settings) && !Stops(EntryOf(s, key), p, key) && key !in todo
    requires forall k :: k != key ==> EntryOf(t, k) == EntryOf(s, k)
    requires FreeOfStops(t, p, todo)
    ensures FreeOfStops(s, p, [key] + todo)
  {
  }

  lemma {:induction false} WalkEnds(s: State, todo: seq<string>, abort: Option<nat>, p: Poll)
    requires Ready(s, todo, p)
    ensures EndsThere(s, todo, abort, p, Walk(s, todo, abort, p))
    decreases |todo|
  {
    if abort != Some(0) && todo != [] {
      VisitStep(s, todo, p);
      WalkOne(s, todo, abort, p);
      var v, key := VisitOne(s, todo[0], p), todo[0];
      VisitStops(s, todo, p);
      if v.stop.None? {
        WalkEnds(v.state, todo[1..], Closer(abort), p);
        EndsOn(s, v.state, todo, abort, p, Walk(v.state, todo[1..], Closer(abort), p), if v.issued then [key] else []);
      } else {
        assert todo[..1] == [key] && todo[..0] == [];
      }
    }
  }

  /** A visit ends the pass exactly when its read is cancelled or unhandled. */
  lemma VisitStops(s: State, todo: seq<string>, p: Poll)
    requires Ready(s, todo, p) && todo != []
    ensures var v, key := VisitOne(s, todo[0], p), todo[0];
      && key in ActiveKeys(p.settings)
      && v.stop == if !Stops(EntryOf(s, key), p, key) then None
                   else Some(if p.answers(key).outcome.Cancelled? then Interrupted(key) else Broken(key))
  {
    assert todo[0] in todo;
  }

  lemma EndsOn(s: State, t: State, todo: seq<string>, abort: Option<nat>, p: Poll, rest: Pass, sent: seq<string>)
    requires todo != [] && NoDup(todo) && abort != Some(0)
    requires todo[0] in ActiveKeys(p.settings) && !Stops(EntryOf(s, todo[0]), p, todo[0])
    requires forall k :: k != todo[0] ==> EntryOf(t, k) == EntryOf(s, k)
    requires EndsThere(t, todo[1..], Closer(abort), p, rest)
    ensures EndsThere(s, todo, abort, p, After([todo[0]], sent, rest))
  {
    var n, tail, r := |rest.visited|, todo[1..], After([todo[0]], sent, rest);
    assert todo == [todo[0]] + tail;
    assert todo[0] !in tail;
    assert r.visited == todo[..n + 1] && r.end == rest.end;
    if rest.end.Completed? {
      FreeOn(s, t, p, todo[0], tail);
    } else if rest.end.Aborted? {
      FreeOn(s, t, p, todo[0], tail[..n]);
      assert todo[..n + 1] == [todo[0]] + tail[..n];
    } else {
      StopOn(s, t, todo, n, p, rest.end);
    }
  }

  /** The entry that ends the pass, and those before it, once the head is put back. */
  lemma StopOn(s: State, t: State, todo: seq<string>, n: nat, p: Poll, end: End)
    requires 0 < n < |todo| && todo[0] !in todo[1..]
    requires todo[0] in ActiveKeys(p.settings) && !Stops(EntryOf(s, todo[0]), p, todo[0])
    requires forall k :: k != todo[0] ==> EntryOf(t, k) == EntryOf(s, k)
    requires FreeOfStops(t, p, todo[1..][..n - 1]) && todo[n] in ActiveKeys(p.settings)
    requires StopsAs(EntryOf(t, todo[n]), p, todo[n], end)
    ensures FreeOfStops(s, p, todo[..n]) && StopsAs(EntryOf(s, todo[n]), p, todo[n], end)
  {
    var tail := todo[1..];
    assert todo[..n] == [todo[0]] + tail[..n - 1];
    assert todo[n] == tail[n - 1];
    FreeOn(s, t, p, todo[0], tail[..n - 1]);
  }

  // ---------------------------------------------------------------- one poll

  /** Every target of the last poll is queued or has something published. */
  ghost predicate Covered(s: State) {
    forall k :: k in s.targetKeys ==> Queued(s, k) || HasEntry(s, k)
  }

  /** The queue after a change of targets: survivors keep their order, newcomers follow. */
  lemma MergedQueue(q: seq<string>, known: set<string>, active: set<string>)
    requires NoDup(q) && forall k :: k in q ==> k in known
    ensures var r := AppendMissing(Keep(q, active), SortedKeys(active - known));
      && NoDup(r) && Keep(q, active) <= r
      && (forall k :: k in r <==> k in active && (k in q || k !in known))
  {
    KeepNoDup(q, active);
    AppendMissingNoDup(Keep(q, active), SortedKeys(active - known));
  }

  lemma KeepAll(q: seq<string>, keep: set<string>)
    requires forall k :: k in q ==> k in keep
    ensures Keep(q, keep) == q
  {
    if q != [] {
      assert q[0] in keep;
      KeepAll(q[1..], keep);
      assert q == [q[0]] + q[1..];
    }
  }

  lemma PreparedEntries(s: State, p: Poll)
    ensures var t, active := Prepared(s, p), ActiveKeys(p.settings);
      && (forall k :: EntryOf(t, k) == if k in active then EntryOf(s, k) else UNPUBLISHED)
      && t.settings == p.settings && t.targetKeys == active && t.served == s.served * active
      && t.lastRefresh == s.lastRefresh && t.batchStarted == s.batchStarted
  {
    var active := ActiveKeys(p.settings);
    var accepted := s.(settings := p.settings, available := true);
    MergedEntries(accepted, active);
    PrunedEntries(MergeTargets(accepted, active), active);
  }

  lemma MergedEntries(s: State, active: set<string>)
    ensures var t := MergeTargets(s, active);
      && t.inventory == s.inventory && t.errors == s.errors && t.skips == s.skips && t.served == s.served
      && t.targetKeys == active && t.settings == s.settings
      && t.lastRefresh == s.lastRefresh && t.batchStarted == s.batchStarted
  {
    if active != s.targetKeys {
      match s.pending
      case None =>
      case Some(q) =>
    }
  }

  lemma PrunedEntries(s: State, active: set<string>)
    ensures forall k :: EntryOf(Prune(s, active), k) == if k in active then EntryOf(s, k) else UNPUBLISHED
  {
    forall k ensures EntryOf(Prune(s, active), k) == if k in active then EntryOf(s, k) else UNPUBLISHED {
      PrunedEntry(s, active, k);
    }
  }

  lemma PrunedEntry(s: State, active: set<string>, key: string)
    ensures EntryOf(Prune(s, active), key) == if key in active then EntryOf(s, key) else UNPUBLISHED
  {
    RestrictLookup(s.inventory, active, key);
    RestrictLookup(s.errors, active, key);
    RestrictLookup(s.skips, active, key);
  }

  lemma RestrictLookup<V>(m: map<string, V>, keep: set<string>, key: string)
    ensures Lookup(Restrict(m, keep), key) == if key in keep then Lookup(m, key) else None
  {
  }

  lemma PreparedQueue(s: State, p: Poll)
    requires Valid(s)
    ensures var t, active := Prepared(s, p), ActiveKeys(p.settings);
      && (s.pending.None? ==> t.pending.None? && (t.requested <==> s.requested || active != s.targetKeys))
      && (s.pending.Some? ==>
            && t.pending.Some? && NoDup(t.pending.value) && t.requested == s.requested
            && Keep(s.pending.value, active) <= t.pending.value
            && (forall k :: k in t.pending.value <==> k in active && (k in s.pending.value || k !in s.targetKeys)))
  {
    if s.pending.Some? {
      var active := ActiveKeys(p.settings);
      MergedQueue(s.pending.value, s.targetKeys, active);
      if active == s.targetKeys {
        KeepAll(s.pending.value, active);
      }
    }
  }

  lemma PreparedValid(s: State, p: Poll)
    requires Valid(s)
    ensures Valid(Prepared(s, p))
  {
    var t := Prepared(s, p);
    PreparedEntries(s, p);
    PreparedQueue(s, p);
    forall k | k in t.served ensures HasEntry(t, k) {
      assert HasEntry(s, k);
      assert EntryOf(t, k) == EntryOf(s, k);
    }
    if s.pending.Some? {
      forall k | k in t.targetKeys ensures k in t.pending.value || HasEntry(t, k) {
        assert EntryOf(t, k) == EntryOf(s, k);
        assert k in s.targetKeys ==> k in s.pending.value || HasEntry(s, k);
      }
    }
    forall k ensures Consistent(EntryOf(t, k)) && (EntryOf(t, k) != UNPUBLISHED ==> k in t.targetKeys) {
      assert Consistent(EntryOf(s, k));
    }
  }

  /** How the opened batch extends the prepared queue. */
  ghost predicate Extends(prepared: State, t: State, now: int) {
    && t.pending.Some? && !t.requested
    && t.settings == prepared.settings && t.targetKeys == prepared.targetKeys && t.served == prepared.served
    && (prepared.pending.Some? ==> prepared.pending.value <= t.pending.value)
    && (prepared.pending.None? || prepared.requested || BatchExpired(prepared, now) ==>
          forall k :: k in t.targetKeys ==> k in t.pending.value)
    && (prepared.pending.None? ==> |t.pending.value| == |t.targetKeys|)
  }

  lemma OpenedState(s: State, now: int)
    requires Valid(s)
    ensures var t := OpenBatch(s, s.targetKeys, now);
      Extends(s, t, now) && Valid(t) && forall k :: EntryOf(t, k) == EntryOf(s, k)
  {
    assert s.pending.Some? ==> NoDup(s.pending.value) && forall k :: k in s.pending.value ==> k in s.targetKeys;
    OpenedQueue(s, now);
    SameEntriesValid(s, OpenBatch(s, s.targetKeys, now));
  }

  lemma OpenedQueue(s: State, now: int)
    requires s.batchStarted.Some? <==> s.pending.Some?
    requires s.pending.Some? ==> NoDup(s.pending.value) && forall k :: k in s.pending.value ==> k in s.targetKeys
    ensures var t := OpenBatch(s, s.targetKeys, now);
      && Extends(s, t, now) && SameEntries(s, t) && t.batchStarted.Some?
      && NoDup(t.pending.value) && (forall k :: k in t.pending.value ==> k in s.targetKeys)
      && (s.pending.Some? ==> forall k :: k in s.pending.value ==> k in t.pending.value)
  {
    match s.pending
    case None =>
    case Some(q) =>
      if s.requested || BatchExpired(s, now) {
        AppendMissingNoDup(q, SortedKeys(s.targetKeys));
        assert OpenBatch(s, s.targetKeys, now).pending == Some(AppendMissing(q, SortedKeys(s.targetKeys)));
      }
  }

  /** Nothing published, advertised or served differs. */
  ghost predicate SameEntries(s: State, t: State) {
    && t.inventory == s.inventory && t.errors == s.errors && t.skips == s.skips
    && t.settings == s.settings && t.targetKeys == s.targetKeys && t.served == s.served
  }

  lemma SameEntriesValid(s: State, t: State)
    requires Valid(s) && SameEntries(s, t) && t.pending.Some? && t.batchStarted.Some?
    requires NoDup(t.pending.value) && forall k :: k in t.pending.value ==> k in s.targetKeys
    requires if s.pending.Some? then forall k :: k in s.pending.value ==> k in t.pending.value
             else forall k :: k in s.targetKeys ==> k in t.pending.value
    ensures Valid(t) && forall k :: EntryOf(t, k) == EntryOf(s, k)
  {
    forall k ensures EntryOf(t, k) == EntryOf(s, k) && Consistent(EntryOf(t, k)) {
      assert Consistent(EntryOf(s, k));
    }
    forall k | k in t.served ensures HasEntry(t, k) {
      assert HasEntry(s, k);
    }
    forall k | k in t.targetKeys ensures k in t.pending.value || HasEntry(t, k) {
      assert s.pending.Some? ==> k in s.pending.value || HasEntry(s, k);
    }
  }

  /** The batch on which the pass of a due poll works. */
  lemma BatchReady(s: State, p: Poll)
    requires Valid(s)
    ensures var prepared, t := Prepared(s, p), Opened(s, p);
      && Valid(prepared) && Extends(prepared, t, p.now) && Ready(t, t.pending.value, p)
      && (forall k :: EntryOf(t, k) == if k in ActiveKeys(p.settings) then EntryOf(s, k) else UNPUBLISHED)
  {
    PreparedEntries(s, p);
    PreparedValid(s, p);
    OpenedState(Prepared(s, p), p.now);
  }

  lemma ConcludedState(s: State, end: End, refreshRequested: bool, p: Poll)
    requires Valid(s) && s.pending.Some?
    ensures var t := Conclude(s, end, refreshRequested, p);
      && Valid(t) && t.targetKeys == s.targetKeys && t.settings == s.settings && t.served == s.served
      && (forall k :: EntryOf(t, k) == EntryOf(s, k))
  {
    var t := Conclude(s, end, refreshRequested, p);
    forall k ensures EntryOf(t, k) == EntryOf(s, k) {
      assert EntryOf(s, k) != UNPUBLISHED ==> k in s.targetKeys;
    }
    forall k | k in t.served ensures HasEntry(t, k) {
      assert HasEntry(s, k);
    }
  }

  /** The pass of a due poll, from the opened batch to its conclusion. */
  lemma PassEffects(s: State, p: Poll)
    requires Valid(s) && Due(Prepared(s, p), p.now)
    ensures var batch, r := Opened(s, p), PollStep(s, p);
      && batch.pending.Some? && NoDup(batch.pending.value)
      && var pass := Walk(batch, batch.pending.value, p.abort, p);
      && Valid(pass.state) && PassShape(batch.pending.value, pass) && SameFrame(batch, pass.state)
      && r == pass.(state := Conclude(pass.state, pass.end, Prepared(s, p).requested, p))
      && Valid(r.state) && r.state.targetKeys == ActiveKeys(p.settings) && r.state.settings == p.settings
      && r.state.served == pass.state.served
      && (forall k :: EntryOf(r.state, k) == EntryOf(pass.state, k))
  {
    BatchReady(s, p);
    var batch := Opened(s, p);
    WalkShape(batch, batch.pending.value, p.abort, p);
    var pass := Walk(batch, batch.pending.value, p.abort, p);
    ConcludedState(pass.state, pass.end, Prepared(s, p).requested, p);
  }

  /** What one poll does to the published entries, and which reads it sends. */
  ghost predicate Effects(s: State, p: Poll, r: Pass) {
    var active := ActiveKeys(p.settings);
    && (forall k :: k in r.visited ==> k in active && EntryOf(r.state, k) == ResolvedIn(EntryOf(s, k), p, k))
    && (forall k :: k in active && k !in r.visited ==> EntryOf(r.state, k) == EntryOf(s, k))
    && (forall k :: k !in active ==> EntryOf(r.state, k) == UNPUBLISHED)
    && (forall k :: k in r.issued <==> k in r.visited && Reads(EntryOf(s, k), p, k))
  }

  lemma PollEffects(s: State, p: Poll)
    requires Valid(s)
    ensures var r := PollStep(s, p);
      && Effects(s, p, r) && Valid(r.state) && NoDup(r.visited)
      && r.state.targetKeys == ActiveKeys(p.settings) && r.state.settings == p.settings
  {
    PreparedEntries(s, p);
    PreparedValid(s, p);
    if Due(Prepared(s, p), p.now) {
      PassEffects(s, p);
      BatchReady(s, p);
      var batch := Opened(s, p);
      var pass := Walk(batch, batch.pending.value, p.abort, p);
      WalkEntries(batch, batch.pending.value, p.abort, p);
      BatchEffects(s, batch, p, pass, PollStep(s, p).state);
    }
  }

  /** The read of the target's inventory is not even tried: the type is known not to support it. */
  predicate TypeRefused(support: map<string, bool>, kind: string) {
    || (kind in support && !support[kind])
    || (kind == "mydrive" && "personal" in support && !support["personal"])
  }

  /** What the visit of a target in a poll publishes, answer by answer. */
  ghost predicate Publishes(before: Entry, refused: bool, outcome: Outcome, issued: bool, after: Entry) {
    if before.skip.Some? then !issued && after == Entry(None, before.skip, before.skip)
    else if refused then !issued && after == Entry(None, Some(Unsupported), Some(Unsupported))
    else
      && issued
      && match outcome
         case Read(summary) => after == Entry(Some(summary), None, None)
         case Failed(InvalidAuth) => after == Entry(None, Some(Permission), Some(Permission))
         case Failed(UnsupportedFeature(marker)) =>
           if marker then after == Entry(None, Some(Unsupported), Some(Unsupported))
           else after == Entry(None, Some(UnexpectedAnswer), None)
         case Failed(CannotConnect) => after == Entry(None, Some(Connection), None)
         case Failed(UnexpectedResponse) => after == Entry(None, Some(UnexpectedAnswer), None)
         case Failed(InternalError) => after == Entry(None, Some(Unknown), None)
         case Cancelled => after == before
         case Unhandled => after == before
  }

  /** What a poll publishes for each target it takes up: an earlier reason to skip it stands, a type
      that is known not to support inventories is refused without a read, and otherwise the read
      decides: each kind of error has its reason, and a refused login or a missing endpoint stops
      later reads. */
  lemma PublishedByAnswer(s: State, p: Poll, key: string)
    requires Valid(s) && key in PollStep(s, p).visited
    ensures key in ActiveKeys(p.settings)
    ensures var r, target := PollStep(s, p), TargetFor(p.settings, key).value;
      Publishes(EntryOf(s, key), TypeRefused(p.support, target.kind), p.answers(key).outcome, key in r.issued,
                EntryOf(r.state, key))
  {
    PollEffects(s, p);
  }

  lemma BatchEffects(s: State, batch: State, p: Poll, pass: Pass, t: State)
    requires Resolves(batch, p, pass) && forall k :: EntryOf(t, k) == EntryOf(pass.state, k)
    requires forall k :: EntryOf(batch, k) == if k in ActiveKeys(p.settings) then EntryOf(s, k) else UNPUBLISHED
    ensures Effects(s, p, pass.(state := t))
  {
  }

  /** Batch conservation: after a due poll that was not aborted, whether its pass completed, was
      cancelled or broke off, every advertised target is queued or published; an idle poll
      changes no such thing. */
  lemma BatchConservation(s: State, p: Poll)
    requires Valid(s)
    ensures var r := PollStep(s, p);
      && (!r.end.NotDue? && !r.end.Aborted? ==> Covered(r.state))
      && (r.end.NotDue? ==> (Covered(r.state) <==> Covered(s)))
  {
    var r := PollStep(s, p);
    PreparedEntries(s, p);
    PreparedQueue(s, p);
    if !Due(Prepared(s, p), p.now) {
      forall k | k in s.targetKeys
        ensures (Queued(r.state, k) || HasEntry(r.state, k)) <==> (Queued(s, k) || HasEntry(s, k))
      {
        assert EntryOf(r.state, k) == EntryOf(s, k);
      }
    } else {
      PassEffects(s, p);
      var pass := Walk(Opened(s, p), Opened(s, p).pending.value, p.abort, p);
      if r.end.Completed? {
        forall k | k in r.state.targetKeys ensures HasEntry(r.state, k) {
          assert k in pass.state.pending.value || HasEntry(pass.state, k);
          assert EntryOf(r.state, k) == EntryOf(pass.state, k);
        }
      }
    }
  }

  // ---------------------------------------------------------------- runs

  /** One thing that happens to the scheduler between two of its quiescent states. `ListStored` is
      a list that a service call has read itself, because it had found none; a pass that is under
      way works on its own list and notices it as little as if it came at its end. */
  datatype Event =
    | RefreshRequested
    | SettingsUnavailable
    | Polled(poll: Poll)
    | SettingsCleared
    | ListStored(settings: seq<Target>)

  function StepOf(s: State, e: Event): Pass {
    match e
    case RefreshRequested => Pass(RequestStep(s), NotDue, [], [])
    case SettingsUnavailable => Pass(s.(available := false), NotDue, [], [])
    case Polled(p) => PollStep(s, p)
    case SettingsCleared => Pass(ClearStep(s), NotDue, [], [])
    case ListStored(settings) => Pass(s.(settings := settings), NotDue, [], [])
  }

  function Next(s: State, e: Event): State {
    StepOf(s, e).state
  }

  function Run(s: State, events: seq<Event>): State
    decreases |events|
  {
    if events == [] then s else Run(Next(s, events[0]), events[1..])
  }

  lemma NextValid(s: State, e: Event)
    requires Valid(s)
    ensures Valid(Next(s, e))
  {
    match e
    case Polled(p) => PollEffects(s, p);
    case SettingsCleared => InitialValid();
    case RefreshRequested => OutsideValid(s, RequestStep(s));
    case SettingsUnavailable => OutsideValid(s, s.(available := false));
    case ListStored(settings) => OutsideValid(s, s.(settings := settings));
  }

  /** The list, the flags and the history are free to change. */
  lemma OutsideValid(s: State, t: State)
    requires Valid(s) && t.served <= s.served
    requires t == s.(settings := t.settings, available := t.available, requested := t.requested, served := t.served)
    ensures Valid(t)
  {
    forall k ensures EntryOf(t, k) == EntryOf(s, k) && Consistent(EntryOf(t, k)) {
      assert Consistent(EntryOf(s, k));
    }
    forall k | k in t.served ensures HasEntry(t, k) {
      assert HasEntry(s, k);
    }
  }

  lemma InitialValid()
    ensures Valid(INITIAL)
  {
    assert forall k :: EntryOf(INITIAL, k) == UNPUBLISHED;
  }

  /** The invariant holds in every reachable state, aborted passes included. */
  lemma {:induction false} RunValid(s: State, events: seq<Event>)
    requires Valid(s)
    ensures Valid(Run(s, events))
    decreases |events|
  {
    if events != [] {
      NextValid(s, events[0]);
      RunValid(Next(s, events[0]), events[1..]);
    }
  }

  /** The known targets are those of the settings list after this event, if they were before it. */
  predicate KnownAfter(known: bool, e: Event) {
    match e
    case Polled(_) => true
    case SettingsCleared => true
    case ListStored(_) => false
    case _ => known
  }

  /** No list was stored since the last poll; `known` says so for the time before the run. */
  predicate ListKnown(known: bool, events: seq<Event>)
    decreases |events|
  {
    if events == [] then known else ListKnown(KnownAfter(known, events[0]), events[1..])
  }

  lemma NextKnown(s: State, known: bool, e: Event)
    requires Valid(s) && (known ==> s.targetKeys == ActiveKeys(s.settings))
    ensures KnownAfter(known, e) ==> Next(s, e).targetKeys == ActiveKeys(Next(s, e).settings)
  {
    match e
    case Polled(p) => PollEffects(s, p);
    case _ =>
  }

  lemma {:induction false} ListAgrees(s: State, known: bool, events: seq<Event>)
    requires Valid(s) && (known ==> s.targetKeys == ActiveKeys(s.settings))
    ensures ListKnown(known, events) ==> Run(s, events).targetKeys == ActiveKeys(Run(s, events).settings)
    decreases |events|
  {
    if events != [] {
      NextValid(s, events[0]);
      NextKnown(s, known, events[0]);
      ListAgrees(Next(s, events[0]), KnownAfter(known, events[0]), events[1..]);
    }
  }

  /** In every reachable state published inventory and errors exclude each other, every
      skip reason is the published error, reads are skipped exactly where the published
      error reads as sticky, only known targets have entries, and an open queue is free
      of duplicates, of known targets, and covers what has no entry. The known targets are the
      advertised ones, unless a service call stored a list since the last poll. */
  lemma ReachableStates(events: seq<Event>)
    ensures var s := Run(INITIAL, events);
      && (ListKnown(true, events) ==> s.targetKeys == ActiveKeys(s.settings))
      && s.inventory.Keys !! s.errors.Keys
      && s.inventory.Keys + s.errors.Keys + s.skips.Keys <= s.targetKeys
      && (forall k :: k in s.skips ==> k in s.errors && s.errors[k] == s.skips[k])
      && (forall k :: k in s.errors ==> (k in s.skips <==> StickyReason(s.errors[k])))
      && (s.pending.Some? ==>
            && NoDup(s.pending.value) && ToSet(s.pending.value) <= s.targetKeys
            && forall k :: k in s.targetKeys ==> k in s.pending.value || k in s.inventory || k in s.errors)
  {
    InitialValid();
    ListAgrees(INITIAL, true, events);
    RunValid(INITIAL, events);
    var s := Run(INITIAL, events);
    forall k ensures Consistent(EntryOf(s, k)) && (EntryOf(s, k) != UNPUBLISHED ==> k in s.targetKeys) {
    }
    forall k | k in s.inventory.Keys ensures k !in s.errors && k in s.targetKeys {
      assert Consistent(EntryOf(s, k));
    }
    forall k | k in s.errors.Keys ensures k in s.targetKeys {
      assert EntryOf(s, k) != UNPUBLISHED;
    }
    forall k | k in s.skips ensures k in s.errors && s.errors[k] == s.skips[k] && k in s.targetKeys {
      assert Consistent(EntryOf(s, k));
    }
    forall k | k in s.errors ensures k in s.skips <==> StickyReason(s.errors[k]) {
      assert Consistent(EntryOf(s, k));
    }
    if s.pending.Some? {
      forall k | k in s.targetKeys ensures k in s.pending.value || k in s.inventory || k in s.errors {
        assert k in s.pending.value || HasEntry(s, k);
      }
    }
  }

  /** No pass of the run was aborted by an escaping error. */
  ghost predicate NoAbort(s: State, events: seq<Event>)
    decreases |events|
  {
    events != [] ==> !StepOf(s, events[0]).end.Aborted? && NoAbort(Next(s, events[0]), events[1..])
  }

  // ---------------------------------------------------------------- sticky errors

  /** The target stays advertised: every accepted list names it and nothing is cleared. */
  ghost predicate StaysAdvertised(events: seq<Event>, key: string) {
    forall i :: 0 <= i < |events| ==>
      !events[i].SettingsCleared? && (events[i].Polled? ==> key in ActiveKeys(events[i].poll.settings))
  }

  /** The reads issued for `key` over a run. */
  function ReadsOf(s: State, events: seq<Event>, key: string): nat
    decreases |events|
  {
    if events == [] then 0
    else (if key in StepOf(s, events[0]).issued then 1 else 0) + ReadsOf(Next(s, events[0]), events[1..], key)
  }

  lemma StickyEntry(s: State, p: Poll, r: Pass, key: string)
    requires Effects(s, p, r) && key in ActiveKeys(p.settings)
    requires EntryOf(s, key).skip.Some? && Consistent(EntryOf(s, key))
    ensures key !in r.issued && EntryOf(r.state, key) == EntryOf(s, key)
  {
  }

  lemma StickyStep(s: State, e: Event, key: string)
    requires Valid(s) && key in s.skips && StaysAdvertised([e], key)
    ensures key !in StepOf(s, e).issued && EntryOf(Next(s, e), key) == EntryOf(s, key)
    ensures EntryOf(s, key) == Entry(None, Some(s.skips[key]), Some(s.skips[key]))
  {
    assert Consistent(EntryOf(s, key));
    assert [e][0] == e;
    if e.Polled? {
      PollEffects(s, e.poll);
      StickyEntry(s, e.poll, StepOf(s, e), key);
    }
  }

  /** Once a target has a skip reason, no read is issued for it while it stays advertised,
      and the published error remains that reason. */
  lemma {:induction false} StickyErrorsHold(s: State, events: seq<Event>, key: string)
    requires Valid(s) && key in s.skips && StaysAdvertised(events, key)
    ensures ReadsOf(s, events, key) == 0
    ensures EntryOf(Run(s, events), key) == Entry(None, Some(s.skips[key]), Some(s.skips[key]))
    decreases |events|
  {
    assert Consistent(EntryOf(s, key));
    if events != [] {
      var e, rest := events[0], events[1..];
      NextValid(s, e);
      StickyStep(s, e, key);
      assert forall i :: 0 <= i < |rest| ==> rest[i] == events[i + 1];
      assert EntryOf(Next(s, e), key).skip.Some?;
      StickyErrorsHold(Next(s, e), rest, key);
    }
  }
}
