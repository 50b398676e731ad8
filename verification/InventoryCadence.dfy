/** When the scheduler polls the inventory: the times it keeps, and the ten minutes between passes. */
module InventoryCadence {
  import opened Prelude
  import opened TargetKeys
  import opened InventoryScheduler
  import opened InventoryRuns
  import opened InventoryFairness

  // ---------------------------------------------------------------- one poll

  /** The time of the end of the last pass, after one more poll: a completed pass counts from its
      own end, an aborted one from the start of its poll, and one that stays open does not count. */
  function EndTime(last: Option<int>, p: Poll, end: End): Option<int> {
    match end
    case Completed => Some(p.finished)
    case Aborted => Some(p.now)
    case _ => last
  }

  /** The time at which the open batch was opened or last filled up again: now, if no batch was
      open, a request was pending or ten minutes had passed. */
  function OpenTime(since: Option<int>, requested: bool, p: Poll, end: End): Option<int> {
    if end.Interrupted? || end.Broken? then
      if since.None? || requested || p.now - since.value >= 600_000_000 then Some(p.now) else since
    else None
  }

  lemma PollTimes(s: State, p: Poll)
    requires Valid(s)
    ensures var r := PollStep(s, p);
      && r.state.lastRefresh == EndTime(s.lastRefresh, p, r.end)
      && r.state.batchStarted == OpenTime(s.batchStarted, s.requested, p, r.end)
      && (r.end.Completed? || r.end.Aborted? ==> r.state.pending.None?)
      && (r.end.NotDue? ==> r.state.pending.None? && r.visited == [] && r.issued == [])
  {
    PreparedEntries(s, p);
    PreparedQueue(s, p);
    if Due(Prepared(s, p), p.now) {
      PollEnds(s, p, PollStep(s, p));
      PassTimes(s, p);
    }
  }

  /** The times after the pass of a due poll. */
  lemma PassTimes(s: State, p: Poll)
    requires Valid(s) && Due(Prepared(s, p), p.now)
    ensures var r := PollStep(s, p);
      && r.state.lastRefresh == EndTime(s.lastRefresh, p, r.end)
      && (!r.end.NotDue? ==> r.state.batchStarted == OpenTime(s.batchStarted, s.requested, p, r.end))
      && (r.end.Completed? || r.end.Aborted? ==> r.state.pending.None?)
  {
    OpenedAt(s, p);
    PassEffects(s, p);
    var batch := Opened(s, p);
    var pass := Walk(batch, batch.pending.value, p.abort, p);
    ConcludedTimes(pass.state, pass.end, Prepared(s, p).requested, p);
  }

  lemma ConcludedTimes(t: State, end: End, refreshRequested: bool, p: Poll)
    ensures var c := Conclude(t, end, refreshRequested, p);
      && c.lastRefresh == EndTime(t.lastRefresh, p, end)
      && (if end.Completed? || end.Aborted? then c.batchStarted.None? && c.pending.None?
          else c.batchStarted == t.batchStarted)
  {
  }

  lemma OpenedAt(s: State, p: Poll)
    requires Valid(s)
    ensures var t := Opened(s, p);
      && t.lastRefresh == s.lastRefresh && t.batchStarted.Some?
      && t.batchStarted.value == (if s.batchStarted.None? || s.requested || p.now - s.batchStarted.value >= 600_000_000
                                  then p.now else s.batchStarted.value)
  {
    PreparedEntries(s, p);
    PreparedQueue(s, p);
    PreparedValid(s, p);
  }

  // ---------------------------------------------------------------- runs

  function EndOf(last: Option<int>, s: State, e: Event): Option<int> {
    match e
    case Polled(p) => EndTime(last, p, PollStep(s, p).end)
    case SettingsCleared => None
    case _ => last
  }

  function OpenOf(since: Option<int>, s: State, e: Event): Option<int> {
    match e
    case Polled(p) => OpenTime(since, s.requested, p, PollStep(s, p).end)
    case SettingsCleared => None
    case _ => since
  }

  lemma NextTimes(s: State, e: Event)
    requires Valid(s)
    ensures Next(s, e).lastRefresh == EndOf(s.lastRefresh, s, e)
    ensures Next(s, e).batchStarted == OpenOf(s.batchStarted, s, e)
  {
    if e.Polled? {
      PollTimes(s, e.poll);
    }
  }

  /** When the last pass of a run ended, from its polls alone. */
  function EndAfter(last: Option<int>, s: State, events: seq<Event>): Option<int>
    decreases |events|
  {
    if events == [] then last
    else
      EndAfter(EndOf(last, s, events[0]), Next(s, events[0]), events[1..])
  }

  /** When the batch that is open after a run was opened or last filled up again. */
  function OpenAfter(since: Option<int>, s: State, events: seq<Event>): Option<int>
    decreases |events|
  {
    if events == [] then since
    else
      OpenAfter(OpenOf(since, s, events[0]), Next(s, events[0]), events[1..])
  }

  /** The two times that the scheduler keeps are these, along every run. */
  lemma {:induction false} TimesKept(s: State, events: seq<Event>)
    requires Valid(s)
    ensures Run(s, events).lastRefresh == EndAfter(s.lastRefresh, s, events)
    ensures Run(s, events).batchStarted == OpenAfter(s.batchStarted, s, events)
    decreases |events|
  {
    if events != [] {
      NextValid(s, events[0]);
      NextTimes(s, events[0]);
      TimesKept(Next(s, events[0]), events[1..]);
    }
  }

  /** In every reachable state: a poll is idle, and reads nothing, exactly when no request and no
      batch is open, the targets are the known ones, and the last pass of the run ended less than
      ten minutes ago. */
  lemma IdlePolls(events: seq<Event>, p: Poll)
    ensures var s, last := Run(INITIAL, events), EndAfter(None, INITIAL, events);
      && (PollStep(s, p).end.NotDue? <==>
            && !s.requested && s.pending.None? && ActiveKeys(p.settings) == s.targetKeys
            && last.Some? && p.now - last.value < 600_000_000)
      && (PollStep(s, p).end.NotDue? ==> PollStep(s, p).visited == [] && PollStep(s, p).issued == [])
  {
    InitialValid();
    RunValid(INITIAL, events);
    TimesKept(INITIAL, events);
    IdleStep(Run(INITIAL, events), p);
  }

  lemma IdleStep(s: State, p: Poll)
    requires Valid(s)
    ensures PollStep(s, p).end.NotDue? <==>
              && !s.requested && s.pending.None? && ActiveKeys(p.settings) == s.targetKeys
              && s.lastRefresh.Some? && p.now - s.lastRefresh.value < 600_000_000
    ensures PollStep(s, p).end.NotDue? ==> PollStep(s, p).visited == [] && PollStep(s, p).issued == []
  {
    PreparedEntries(s, p);
    PreparedQueue(s, p);
    if Due(Prepared(s, p), p.now) {
      PollEnds(s, p, PollStep(s, p));
    }
  }

  // ---------------------------------------------------------------- the list in force

  predicate AvailableNext(available: bool, e: Event) {
    match e
    case Polled(_) => true
    case SettingsUnavailable => false
    case SettingsCleared => false
    case _ => available
  }

  function ListNext(list: seq<Target>, e: Event): seq<Target> {
    match e
    case Polled(p) => p.settings
    case ListStored(stored) => stored
    case SettingsCleared => []
    case _ => list
  }

  lemma NextList(s: State, e: Event)
    requires Valid(s)
    ensures Next(s, e).available == AvailableNext(s.available, e) && Next(s, e).settings == ListNext(s.settings, e)
  {
    if e.Polled? {
      PollAccepts(s, e.poll);
    }
  }

  /** Whether the settings are available, from the events alone: as of the last read of them. */
  function AvailableAfter(available: bool, events: seq<Event>): bool
    decreases |events|
  {
    if events == [] then available
    else
      AvailableAfter(AvailableNext(available, events[0]), events[1..])
  }

  /** The settings list in force: the last accepted or stored one. */
  function ListAfter(list: seq<Target>, events: seq<Event>): seq<Target>
    decreases |events|
  {
    if events == [] then list
    else
      ListAfter(ListNext(list, events[0]), events[1..])
  }

  lemma PollAccepts(s: State, p: Poll)
    requires Valid(s)
    ensures PollStep(s, p).state.available && PollStep(s, p).state.settings == p.settings
  {
    PollEffects(s, p);
    assert Prepared(s, p).available;
    if Due(Prepared(s, p), p.now) {
      PassEffects(s, p);
      assert Opened(s, p).available;
    }
  }

  /** A failed read leaves the list in force and makes it unavailable; an accepted one replaces it. */
  lemma {:induction false} ListKept(s: State, events: seq<Event>)
    requires Valid(s)
    ensures Run(s, events).available == AvailableAfter(s.available, events)
    ensures Run(s, events).settings == ListAfter(s.settings, events)
    decreases |events|
  {
    if events != [] {
      NextValid(s, events[0]);
      NextList(s, events[0]);
      ListKept(Next(s, events[0]), events[1..]);
    }
  }

  // ---------------------------------------------------------------- the cadence

  /** Since a pass ended at `time`, nothing asked for another one: no request, no clearing, and only
      polls of the same targets within ten minutes. Failed reads and lists that a service call
      stores do not matter. */
  ghost predicate Undisturbed(events: seq<Event>, active: set<string>, time: int) {
    forall i :: 0 <= i < |events| ==> Undisturbing(events[i], active, time)
  }

  predicate Undisturbing(e: Event, active: set<string>, time: int) {
    match e
    case RefreshRequested => false
    case SettingsCleared => false
    case Polled(p) => ActiveKeys(p.settings) == active && p.now - time < 600_000_000
    case _ => true
  }

  /** Nothing is open and nothing asked for since a pass ended at `time`. */
  ghost predicate Resting(s: State, active: set<string>, time: int) {
    Valid(s) && !s.requested && s.pending.None? && s.targetKeys == active && s.lastRefresh == Some(time)
  }

  lemma RestsOn(s: State, e: Event, active: set<string>, time: int)
    requires Resting(s, active, time) && Undisturbing(e, active, time)
    ensures Resting(Next(s, e), active, time)
  {
    NextValid(s, e);
    match e
    case Polled(p) =>
      IdleStep(s, p);
      PollTimes(s, p);
      PollEffects(s, p);
      PreparedQueue(s, p);
    case _ =>
  }

  lemma {:induction false} RestsThroughout(s: State, events: seq<Event>, active: set<string>, time: int)
    requires Resting(s, active, time) && Undisturbed(events, active, time)
    ensures Resting(Run(s, events), active, time)
    decreases |events|
  {
    if events != [] {
      assert Undisturbing(events[0], active, time);
      RestsOn(s, events[0], active, time);
      assert forall i :: 0 <= i < |events[1..]| ==> events[1..][i] == events[i + 1];
      RestsThroughout(Next(s, events[0]), events[1..], active, time);
    }
  }

  /** The cadence: a poll whose pass completes, or is aborted, and leaves no request open, is followed
      by idle polls for ten minutes and not longer. With the same targets and nothing in between that
      asks for a pass, a later poll is idle exactly when less than ten minutes have passed since the
      end of the completed pass, or since the start of the aborted one. */
  lemma Cadence(events: seq<Event>, p: Poll, later: seq<Event>, q: Poll, time: int)
    requires var r := PollStep(Run(INITIAL, events), p);
      && (if r.end.Completed? then time == p.finished else r.end.Aborted? && time == p.now)
      && !r.state.requested
    requires Undisturbed(later, ActiveKeys(p.settings), time) && ActiveKeys(q.settings) == ActiveKeys(p.settings)
    ensures var t := Run(PollStep(Run(INITIAL, events), p).state, later);
      && (PollStep(t, q).end.NotDue? <==> q.now - time < 600_000_000)
      && (PollStep(t, q).end.NotDue? ==> PollStep(t, q).visited == [] && PollStep(t, q).issued == [])
  {
    var s := Run(INITIAL, events);
    InitialValid();
    RunValid(INITIAL, events);
    PollTimes(s, p);
    PollEffects(s, p);
    var r := PollStep(s, p);
    assert Resting(r.state, ActiveKeys(p.settings), time);
    RestsThroughout(r.state, later, ActiveKeys(p.settings), time);
    IdleStep(Run(r.state, later), q);
  }

  /** An open batch is filled up with every target again after a request, and once ten minutes have
      passed since it was opened or last filled up. */
  lemma RefillsExactly(events: seq<Event>, p: Poll)
    ensures var s, since := Run(INITIAL, events), OpenAfter(None, INITIAL, events);
      && (s.pending.Some? <==> since.Some?)
      && (since.Some? && (s.requested || p.now - since.value >= 600_000_000) ==>
            forall key :: key in ActiveKeys(p.settings) ==> key in QueueOf(s, p))
      && (since.Some? && !s.requested && p.now - since.value < 600_000_000 ==>
            forall key :: key in QueueOf(s, p) <==>
              key in ActiveKeys(p.settings) && (key in s.pending.value || key !in s.targetKeys))
  {
    var s := Run(INITIAL, events);
    InitialValid();
    RunValid(INITIAL, events);
    TimesKept(INITIAL, events);
    PreparedEntries(s, p);
    PreparedQueue(s, p);
    QueueContents(s, p);
  }
}
