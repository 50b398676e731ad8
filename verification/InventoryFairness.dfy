/** How soon the scheduler takes a queued target up, and exactly when it never does. */
module InventoryFairness {
  import opened Prelude
  import opened TargetKeys
  import opened InventoryScheduler
  import opened InventoryRuns

  // ---------------------------------------------------------------- the queue of a poll

  /** The queue that a due poll works through. */
  function QueueOf(s: State, p: Poll): seq<string> {
    match Opened(s, p).pending
    case None => []
    case Some(q) => q
  }

  /** What is on it. */
  lemma QueueContents(s: State, p: Poll)
    requires Valid(s)
    ensures var q, active := QueueOf(s, p), ActiveKeys(p.settings);
      && NoDup(q) && |q| <= |active| && (forall k :: k in q ==> k in active)
      && (s.pending.Some? ==> Keep(s.pending.value, active) <= q)
      && (s.pending.None? || s.requested || BatchExpired(s, p.now) ==> forall k :: k in active ==> k in q)
      && (s.pending.Some? ==> forall k :: k in active && k !in s.targetKeys ==> k in q)
  {
    PreparedEntries(s, p);
    PreparedQueue(s, p);
    BatchReady(s, p);
    NoDupLength(QueueOf(s, p), ActiveKeys(p.settings));
  }

  /** What a poll leaves of the queue it worked through. */
  ghost predicate Leaves(q: seq<string>, r: Pass) {
    && r.visited <= q
    && match r.end
       case Completed => r.visited == q
       case Interrupted(c) =>
         r.visited != [] && c == r.visited[|r.visited| - 1] && r.state.pending == Some(q[|r.visited|..] + [c])
       case Broken(_) => r.visited != [] && r.state.pending == Some(q[|r.visited| - 1..])
       case Aborted => r.state.pending == None
       case NotDue => false
  }

  /** Where a due poll ends, why, and what it leaves. */
  lemma PollEnds(s: State, p: Poll, r: Pass)
    requires Valid(s) && Due(Prepared(s, p), p.now) && r == PollStep(s, p)
    ensures EndsThere(s, QueueOf(s, p), p.abort, p, r) && Leaves(QueueOf(s, p), r)
  {
    PassEffects(s, p);
    BatchReady(s, p);
    var q, batch := QueueOf(s, p), Opened(s, p);
    WalkEnds(batch, q, p.abort, p);
    ConcludedEnds(s, batch, q, Walk(batch, q, p.abort, p), Prepared(s, p).requested, p);
  }

  lemma ConcludedEnds(s: State, batch: State, q: seq<string>, pass: Pass, refreshRequested: bool, p: Poll)
    requires PassShape(q, pass) && EndsThere(batch, q, p.abort, p, pass)
    requires forall k :: k in ActiveKeys(p.settings) ==> EntryOf(batch, k) == EntryOf(s, k)
    ensures var r := pass.(state := Conclude(pass.state, pass.end, refreshRequested, p));
      EndsThere(s, q, p.abort, p, r) && Leaves(q, r)
  {
    assert forall todo :: FreeOfStops(batch, p, todo) ==> FreeOfStops(s, p, todo);
  }

  /** A poll with a queue, or one after a request, is due. */
  lemma MustPoll(s: State, p: Poll)
    requires Valid(s) && (s.requested || s.pending.Some?)
    ensures Due(Prepared(s, p), p.now)
  {
    PreparedQueue(s, p);
  }

  /** Exactly which entries a due poll takes up: those with no stopping read and no abort ahead. */
  lemma TakenUp(s: State, p: Poll, i: nat, r: Pass)
    requires Valid(s) && Due(Prepared(s, p), p.now) && r == PollStep(s, p) && i < |QueueOf(s, p)|
    ensures QueueOf(s, p)[i] in r.visited <==>
              FreeOfStops(s, p, QueueOf(s, p)[..i]) && (p.abort.Some? ==> i < p.abort.value)
  {
    PollEnds(s, p, r);
    QueueContents(s, p);
    ReachedPlace(s, QueueOf(s, p), p, i, r);
  }

  lemma ReachedPlace(s: State, q: seq<string>, p: Poll, i: nat, r: Pass)
    requires NoDup(q) && EndsThere(s, q, p.abort, p, r) && i < |q|
    ensures q[i] in r.visited <==> i < |r.visited|
    ensures i < |r.visited| <==> FreeOfStops(s, p, q[..i]) && (p.abort.Some? ==> i < p.abort.value)
  {
    var n := |r.visited|;
    if i < n {
      assert r.visited[i] == q[i];
      forall k | k in q[..i] ensures k in ActiveKeys(p.settings) && !Stops(EntryOf(s, k), p, k) {
        var m :| 0 <= m < i && q[m] == k;
        assert q[..n][m] == k && k in q[..n];
        assert q[..n - 1][m] == k && k in q[..n - 1];
      }
    } else if FreeOfStops(s, p, q[..i]) && n > 0 {
      assert q[..i][n - 1] == q[n - 1] || n - 1 == i;
      assert n - 1 < i ==> q[n - 1] in q[..i];
    }
  }

  // ---------------------------------------------------------------- bounded fairness

  /** Some pass of the run takes `key` up: processes it or attempts its read. */
  ghost predicate EverVisited(s: State, events: seq<Event>, key: string)
    decreases |events|
  {
    events != [] && (key in StepOf(s, events[0]).visited || EverVisited(Next(s, events[0]), events[1..], key))
  }

  function Polls(events: seq<Event>): nat {
    if events == [] then 0 else (if events[0].Polled? then 1 else 0) + Polls(events[1..])
  }

  /** The pass broke off at the first entry of its queue. */
  predicate Stuck(r: Pass) {
    r.end.Broken? && |r.visited| == 1
  }

  /** The polls of a run that are not stuck. */
  function Moves(s: State, events: seq<Event>): nat
    decreases |events|
  {
    if events == [] then 0
    else (if events[0].Polled? && !Stuck(StepOf(s, events[0])) then 1 else 0)
         + Moves(Next(s, events[0]), events[1..])
  }

  /** The read of an advertised entry raises an error that nothing handles. */
  predicate Jams(e: Entry, p: Poll, key: string) {
    key in ActiveKeys(p.settings) && Reads(e, p, key) && p.answers(key).outcome.Unhandled?
  }

  /** A due poll is stuck exactly when the read of its first entry raises such an error. */
  lemma StuckExactly(s: State, p: Poll, r: Pass)
    requires Valid(s) && Due(Prepared(s, p), p.now) && r == PollStep(s, p)
    ensures var q := QueueOf(s, p);
      Stuck(r) <==> q != [] && p.abort != Some(0) && Jams(EntryOf(s, q[0]), p, q[0])
  {
    PollEnds(s, p, r);
    QueueContents(s, p);
    StuckPass(s, QueueOf(s, p), p, r);
  }

  lemma StuckPass(s: State, q: seq<string>, p: Poll, r: Pass)
    requires NoDup(q) && EndsThere(s, q, p.abort, p, r) && forall k :: k in q ==> k in ActiveKeys(p.settings)
    ensures Stuck(r) <==> q != [] && p.abort != Some(0) && Jams(EntryOf(s, q[0]), p, q[0])
  {
    if q != [] {
      assert q[0] in q && q[..0] == [];
      ReachedPlace(s, q, p, 0, r);
      if |q| > 1 {
        assert q[..1] == [q[0]];
        ReachedPlace(s, q, p, 1, r);
      }
    }
  }

  /** A stuck pass leaves its queue as it was. */
  lemma StuckLeaves(q: seq<string>, r: Pass)
    requires Leaves(q, r) && Stuck(r)
    ensures r.state.pending == Some(q) && r.visited == [q[0]]
  {
    assert r.visited[0] == q[0];
    assert q[0..] == q;
  }

  /** A queue entry that a pass did not reach stays on the queue, nearer to its front unless the
      pass was stuck. */
  lemma Unreached(q: seq<string>, r: Pass, i: nat) returns (j: nat)
    requires Leaves(q, r) && !r.end.Aborted? && i < |q|
    ensures q[i] !in r.visited ==>
              && r.state.pending.Some? && j < |r.state.pending.value| && r.state.pending.value[j] == q[i]
              && j <= i && (j < i || Stuck(r))
  {
    j := 0;
    if q[i] !in r.visited {
      assert forall n :: 0 <= n < |r.visited| ==> r.visited[n] == q[n];
      j := if r.end.Broken? then i - (|r.visited| - 1) else i - |r.visited|;
    }
  }

  /** One poll brings a queued target forward, takes it up, or is stuck. */
  lemma PollAdvances(s: State, p: Poll, key: string, at: nat, r: Pass) returns (j: nat)
    requires Valid(s) && s.pending.Some? && at < |s.pending.value| && s.pending.value[at] == key
    requires key in ActiveKeys(p.settings) && r == PollStep(s, p) && !r.end.Aborted?
    ensures key !in r.visited ==>
              && r.state.pending.Some? && j < |r.state.pending.value| && r.state.pending.value[j] == key
              && j <= at && (j < at || Stuck(r))
  {
    MustPoll(s, p);
    QueueContents(s, p);
    PollEnds(s, p, r);
    var i := KeepIndex(s.pending.value, ActiveKeys(p.settings), at);
    j := Unreached(QueueOf(s, p), r, i);
  }

  /** Bounded fairness: a target at index `at` of the queue that stays advertised is taken up
      within `at + 1` polls that are not stuck, whichever reads stall or break their pass and
      however targets come and go. */
  lemma {:induction false} BoundedFairness(s: State, events: seq<Event>, key: string, at: nat)
    requires Valid(s) && s.pending.Some? && at < |s.pending.value| && s.pending.value[at] == key
    requires StaysAdvertised(events, key) && NoAbort(s, events)
    requires Moves(s, events) >= at + 1
    ensures EverVisited(s, events, key)
    decreases |events|
  {
    var e, rest := events[0], events[1..];
    NextValid(s, e);
    assert forall i :: 0 <= i < |rest| ==> rest[i] == events[i + 1];
    if e.Polled? {
      var j := PollAdvances(s, e.poll, key, at, StepOf(s, e));
      if key !in StepOf(s, e).visited {
        BoundedFairness(Next(s, e), rest, key, j);
      }
    } else {
      BoundedFairness(Next(s, e), rest, key, at);
    }
  }

  /** Completed targets are due again: a refresh was requested, or the batch is older than
      a full interval. */
  predicate MustRevisit(s: State, now: int) {
    s.requested || BatchExpired(s, now)
  }

  /** The poll after that takes an advertised target up or queues it. */
  lemma RevisitQueues(s: State, p: Poll, key: string, r: Pass) returns (j: nat)
    requires Valid(s) && MustRevisit(s, p.now) && key in ActiveKeys(p.settings)
    requires r == PollStep(s, p) && !r.end.Aborted?
    ensures key !in r.visited ==>
              && r.state.pending.Some? && j < |r.state.pending.value| && r.state.pending.value[j] == key
              && j < |ActiveKeys(p.settings)| && (j + 1 < |ActiveKeys(p.settings)| || Stuck(r))
  {
    MustPoll(s, p);
    QueueContents(s, p);
    PollEnds(s, p, r);
    var q := QueueOf(s, p);
    var i :| 0 <= i < |q| && q[i] == key;
    j := Unreached(q, r, i);
  }

  /** After a request, and once a batch is older than a full interval even if a peer stalls,
      every target that the next accepted list advertises is taken up within as many polls
      that are not stuck as that list has targets. */
  lemma RevisitsAreServed(s: State, p: Poll, later: seq<Event>, key: string)
    requires Valid(s) && MustRevisit(s, p.now) && key in ActiveKeys(p.settings)
    requires StaysAdvertised(later, key) && NoAbort(s, [Polled(p)] + later)
    requires Moves(s, [Polled(p)] + later) >= |ActiveKeys(p.settings)|
    ensures EverVisited(s, [Polled(p)] + later, key)
  {
    var events := [Polled(p)] + later;
    assert events[0] == Polled(p) && events[1..] == later;
    assert NoAbort(s, events) ==> !StepOf(s, events[0]).end.Aborted?;
    PollEffects(s, p);
    var r := PollStep(s, p);
    if key !in r.visited {
      var i := RevisitQueues(s, p, key, r);
      BoundedFairness(r.state, later, key, i);
    }
  }

  // ---------------------------------------------------------------- starvation

  /** Two survivors keep their order. */
  lemma KeepOrder(q: seq<string>, keep: set<string>, a: nat, b: nat) returns (i: nat, j: nat)
    requires a < b < |q| && q[a] in keep && q[b] in keep
    ensures i < j < |Keep(q, keep)| && Keep(q, keep)[i] == q[a] && Keep(q, keep)[j] == q[b] && j <= b
  {
    if a == 0 {
      i := 0;
      j := KeepIndex(q[1..], keep, b - 1);
      j := j + 1;
    } else {
      i, j := KeepOrder(q[1..], keep, a - 1, b - 1);
      if q[0] in keep {
        i, j := i + 1, j + 1;
      }
    }
  }

  /** Both targets stay advertised, and every read of `jam` raises an error that nothing handles. */
  ghost predicate JamsThroughout(events: seq<Event>, jam: string, key: string) {
    forall i :: 0 <= i < |events| ==>
      && !events[i].SettingsCleared?
      && (events[i].Polled? ==>
            && key in ActiveKeys(events[i].poll.settings)
            && Jams(UNPUBLISHED, events[i].poll, jam))
  }

  /** Such a read leaves the entry of its target as it was. */
  lemma JamEntry(s: State, p: Poll, r: Pass, jam: string)
    requires Effects(s, p, r) && Jams(EntryOf(s, jam), p, jam)
    ensures EntryOf(r.state, jam) == EntryOf(s, jam)
  {
  }

  /** One poll with such a read ahead of a target does not reach the target. */
  lemma JamHolds(s: State, p: Poll, jam: string, key: string, a: nat, b: nat, r: Pass) returns (i: nat, j: nat)
    requires Valid(s) && s.pending.Some? && a < b < |s.pending.value|
    requires s.pending.value[a] == jam && s.pending.value[b] == key && key in ActiveKeys(p.settings)
    requires Jams(EntryOf(s, jam), p, jam) && r == PollStep(s, p) && !r.end.Aborted?
    ensures key !in r.visited && EntryOf(r.state, jam) == EntryOf(s, jam)
    ensures r.state.pending.Some? && i < j < |r.state.pending.value|
    ensures r.state.pending.value[i] == jam && r.state.pending.value[j] == key
  {
    MustPoll(s, p);
    QueueContents(s, p);
    PollEnds(s, p, r);
    PollEffects(s, p);
    var q := QueueOf(s, p);
    JamEntry(s, p, r, jam);
    i, j := KeepOrder(s.pending.value, ActiveKeys(p.settings), a, b);
    i, j := JamStays(s, q, p, r, i, j);
  }

  lemma JamStays(s: State, q: seq<string>, p: Poll, r: Pass, a: nat, b: nat) returns (i: nat, j: nat)
    requires NoDup(q) && EndsThere(s, q, p.abort, p, r) && Leaves(q, r) && !r.end.Aborted?
    requires a < b < |q| && Jams(EntryOf(s, q[a]), p, q[a])
    ensures q[b] !in r.visited
    ensures r.state.pending.Some? && i < j < |r.state.pending.value|
    ensures r.state.pending.value[i] == q[a] && r.state.pending.value[j] == q[b]
  {
    JamEnds(s, q, p, r, a, b);
    i, j := JamShifts(q, r, a, b);
  }

  /** A pass ends at that read at the latest. */
  lemma JamEnds(s: State, q: seq<string>, p: Poll, r: Pass, a: nat, b: nat)
    requires NoDup(q) && EndsThere(s, q, p.abort, p, r) && !r.end.Aborted?
    requires a < b < |q| && Jams(EntryOf(s, q[a]), p, q[a])
    ensures q[b] !in r.visited && |r.visited| <= a + 1
    ensures r.end.Broken? || (r.end.Interrupted? && |r.visited| <= a)
  {
    JamNotFree(s, p, q, a);
    ReachedPlace(s, q, p, a + 1, r);
    ReachedPlace(s, q, p, b, r);
  }

  lemma JamNotFree(s: State, p: Poll, q: seq<string>, a: nat)
    requires a < |q| && Jams(EntryOf(s, q[a]), p, q[a])
    ensures !FreeOfStops(s, p, q[..a + 1])
  {
    assert q[..a + 1][a] == q[a] && q[a] in q[..a + 1];
  }

  lemma JamShifts(q: seq<string>, r: Pass, a: nat, b: nat) returns (i: nat, j: nat)
    requires Leaves(q, r) && a < b < |q| && |r.visited| <= a + 1
    requires r.end.Broken? || (r.end.Interrupted? && |r.visited| <= a)
    ensures r.state.pending.Some? && i < j < |r.state.pending.value|
    ensures r.state.pending.value[i] == q[a] && r.state.pending.value[j] == q[b]
  {
    var n := if r.end.Broken? then |r.visited| - 1 else |r.visited|;
    i, j := a - n, b - n;
  }

  lemma JamStep(s: State, e: Event, jam: string, key: string, a: nat, b: nat) returns (i: nat, j: nat)
    requires Valid(s) && s.pending.Some? && a < b < |s.pending.value|
    requires s.pending.value[a] == jam && s.pending.value[b] == key && EntryOf(s, jam).skip.None?
    requires JamsThroughout([e], jam, key) && !StepOf(s, e).end.Aborted?
    ensures var r := StepOf(s, e);
      && key !in r.visited && EntryOf(r.state, jam).skip.None?
      && r.state.pending.Some? && i < j < |r.state.pending.value|
      && r.state.pending.value[i] == jam && r.state.pending.value[j] == key
  {
    assert [e][0] == e;
    if e.Polled? {
      i, j := JamHolds(s, e.poll, jam, key, a, b, StepOf(s, e));
    } else {
      i, j := a, b;
      assert EntryOf(Next(s, e), jam) == EntryOf(s, jam);
    }
  }

  /** Starvation, for a run of any length: while every read of a target raises an error that
      nothing handles, no target behind it on the queue is ever taken up. */
  lemma {:induction false} Starvation(s: State, events: seq<Event>, jam: string, key: string, a: nat, b: nat)
    requires Valid(s) && s.pending.Some? && a < b < |s.pending.value|
    requires s.pending.value[a] == jam && s.pending.value[b] == key && EntryOf(s, jam).skip.None?
    requires JamsThroughout(events, jam, key) && NoAbort(s, events)
    ensures !EverVisited(s, events, key)
    decreases |events|
  {
    if events != [] {
      NextValid(s, events[0]);
      JamsLater(events, jam, key);
      var i, j := JamStep(s, events[0], jam, key, a, b);
      Starvation(Next(s, events[0]), events[1..], jam, key, i, j);
    }
  }

  lemma JamsLater(events: seq<Event>, jam: string, key: string)
    requires events != [] && JamsThroughout(events, jam, key)
    ensures JamsThroughout([events[0]], jam, key) && JamsThroughout(events[1..], jam, key)
  {
    assert forall i :: 0 <= i < |events[1..]| ==> events[1..][i] == events[i + 1];
  }

  // ---------------------------------------------------------------- the exact condition

  /** The device answers each poll alike, nothing aborts and nothing is cleared. */
  ghost predicate Steady(events: seq<Event>, p: Poll) {
    forall i :: 0 <= i < |events| ==>
      && !events[i].SettingsCleared?
      && (events[i].Polled? ==>
            var q := events[i].poll;
            q.settings == p.settings && q.support == p.support && q.answers == p.answers && q.abort.None?)
  }

  lemma {:induction false} SteadyNoAbort(s: State, events: seq<Event>, p: Poll)
    requires Valid(s) && Steady(events, p)
    ensures NoAbort(s, events)
    decreases |events|
  {
    if events != [] {
      var e, rest := events[0], events[1..];
      NextValid(s, e);
      assert forall i :: 0 <= i < |rest| ==> rest[i] == events[i + 1];
      if e.Polled? && Due(Prepared(s, e.poll), e.poll.now) {
        PollEnds(s, e.poll, StepOf(s, e));
      }
      SteadyNoAbort(Next(s, e), rest, p);
    }
  }

  /** No read ahead of place `at` of the queue raises an error that nothing handles. */
  ghost predicate ClearAhead(s: State, p: Poll, q: seq<string>, at: nat)
    requires at < |q|
  {
    forall j :: 0 <= j < at ==> !Jams(EntryOf(s, q[j]), p, q[j])
  }

  lemma ClearPrefix(s: State, p: Poll, front: seq<string>, q: seq<string>, at: nat)
    requires front <= q && at < |front| && ClearAhead(s, p, front, at)
    ensures ClearAhead(s, p, q, at) && q[at] == front[at]
  {
    assert forall j :: 0 <= j < |front| ==> q[j] == front[j];
  }

  /** A pass without such a read ahead of place `at`: the entry there is taken up or gets nearer,
      and what is then ahead of it was ahead before and is not taken up. */
  lemma ClearPass(s: State, q: seq<string>, p: Poll, at: nat, r: Pass) returns (j: nat)
    requires NoDup(q) && EndsThere(s, q, p.abort, p, r) && Leaves(q, r) && p.abort.None? && at < |q|
    requires ClearAhead(s, p, q, at)
    ensures q[at] !in r.visited ==>
              && r.state.pending.Some? && j < at && j < |r.state.pending.value| && r.state.pending.value[j] == q[at]
              && forall k :: 0 <= k < j ==> r.state.pending.value[k] == q[at - j + k] && q[at - j + k] !in r.visited
  {
    j := 0;
    ReachedPlace(s, q, p, at, r);
    if |r.visited| <= at {
      ClearEnds(s, q, p, at, r);
      j := ClearShifts(q, r, at);
    }
  }

  lemma ClearEnds(s: State, q: seq<string>, p: Poll, at: nat, r: Pass)
    requires EndsThere(s, q, p.abort, p, r) && p.abort.None? && |r.visited| <= at < |q|
    requires ClearAhead(s, p, q, at)
    ensures r.end.Interrupted?
  {
    if 0 < |r.visited| {
      assert !Jams(EntryOf(s, q[|r.visited| - 1]), p, q[|r.visited| - 1]);
    }
  }

  lemma ClearShifts(q: seq<string>, r: Pass, at: nat) returns (j: nat)
    requires NoDup(q) && Leaves(q, r) && r.end.Interrupted? && |r.visited| <= at < |q|
    ensures r.state.pending.Some? && j < at && j < |r.state.pending.value| && r.state.pending.value[j] == q[at]
    ensures forall k :: 0 <= k < j ==> r.state.pending.value[k] == q[at - j + k] && q[at - j + k] !in r.visited
  {
    var n := |r.visited|;
    j := at - n;
    assert forall m :: 0 <= m < n ==> r.visited[m] == q[m];
  }

  /** The queue of a poll of a steady run starts with the one left by the poll before. */
  lemma SteadyQueue(s: State, p: Poll, r: Pass)
    requires Valid(s) && s.pending.Some? && s.targetKeys == ActiveKeys(p.settings) && r == PollStep(s, p)
    ensures var q := QueueOf(s, p);
      && s.pending.value <= q && NoDup(q) && (forall k :: k in q ==> k in ActiveKeys(p.settings))
      && EndsThere(s, q, p.abort, p, r) && Leaves(q, r)
  {
    MustPoll(s, p);
    QueueContents(s, p);
    PollEnds(s, p, r);
    KeepAll(s.pending.value, ActiveKeys(p.settings));
  }

  /** One poll of a steady run: the target is taken up or gets nearer, and nothing new is ahead. */
  lemma ClearStep(s: State, p: Poll, at: nat, r: Pass) returns (j: nat)
    requires Valid(s) && s.pending.Some? && at < |s.pending.value| && s.targetKeys == ActiveKeys(p.settings)
    requires ClearAhead(s, p, s.pending.value, at) && p.abort.None? && r == PollStep(s, p)
    ensures var key := s.pending.value[at];
      key !in r.visited ==>
        && r.state.pending.Some? && j < at && j < |r.state.pending.value| && r.state.pending.value[j] == key
        && ClearAhead(r.state, p, r.state.pending.value, j)
  {
    SteadyQueue(s, p, r);
    PollEffects(s, p);
    var q := QueueOf(s, p);
    ClearPrefix(s, p, s.pending.value, q, at);
    j := ClearPass(s, q, p, at, r);
    if q[at] !in r.visited {
      StillClear(s, p, q, r, at, j);
    }
  }

  lemma StillClear(s: State, p: Poll, q: seq<string>, r: Pass, at: nat, j: nat)
    requires j < at < |q| && r.state.pending.Some? && j < |r.state.pending.value|
    requires ClearAhead(s, p, q, at) && forall k :: k in q ==> k in ActiveKeys(p.settings)
    requires forall k :: 0 <= k < j ==> r.state.pending.value[k] == q[at - j + k] && q[at - j + k] !in r.visited
    requires forall k :: k in ActiveKeys(p.settings) && k !in r.visited ==> EntryOf(r.state, k) == EntryOf(s, k)
    ensures ClearAhead(r.state, p, r.state.pending.value, j)
  {
    forall k | 0 <= k < j ensures !Jams(EntryOf(r.state, r.state.pending.value[k]), p, r.state.pending.value[k]) {
      assert q[at - j + k] in q;
      assert !Jams(EntryOf(s, q[at - j + k]), p, q[at - j + k]);
    }
  }

  lemma AlikeClear(s: State, p: Poll, other: Poll, q: seq<string>, at: nat)
    requires other.settings == p.settings && other.support == p.support && other.answers == p.answers && at < |q|
    ensures ClearAhead(s, other, q, at) == ClearAhead(s, p, q, at)
  {
    assert forall e, k :: Jams(e, other, k) == Jams(e, p, k);
  }

  lemma OutsideClear(s: State, e: Event, p: Poll, q: seq<string>, at: nat)
    requires !e.Polled? && !e.SettingsCleared? && at < |q|
    ensures Next(s, e).pending == s.pending && Next(s, e).targetKeys == s.targetKeys
    ensures ClearAhead(Next(s, e), p, q, at) == ClearAhead(s, p, q, at)
  {
    assert forall k :: EntryOf(Next(s, e), k) == EntryOf(s, k);
  }

  lemma SteadyLater(events: seq<Event>, p: Poll)
    requires events != [] && Steady(events, p)
    ensures Steady(events[1..], p)
  {
    assert forall i :: 0 <= i < |events[1..]| ==> events[1..][i] == events[i + 1];
  }

  lemma {:induction false} ClearReaches(s: State, p: Poll, events: seq<Event>, at: nat)
    requires Valid(s) && s.pending.Some? && at < |s.pending.value| && s.targetKeys == ActiveKeys(p.settings)
    requires ClearAhead(s, p, s.pending.value, at) && Steady(events, p) && Polls(events) >= at + 1
    ensures EverVisited(s, events, s.pending.value[at])
    decreases |events|
  {
    var e := events[0];
    NextValid(s, e);
    SteadyLater(events, p);
    if e.Polled? {
      var r := StepOf(s, e);
      PollEffects(s, e.poll);
      AlikeClear(s, p, e.poll, s.pending.value, at);
      var j := ClearStep(s, e.poll, at, r);
      if s.pending.value[at] !in r.visited {
        AlikeClear(r.state, p, e.poll, r.state.pending.value, j);
        ClearReaches(r.state, p, events[1..], j);
      }
    } else {
      OutsideClear(s, e, p, s.pending.value, at);
      ClearReaches(Next(s, e), p, events[1..], at);
    }
  }

  /** The exact condition of fairness: when the device keeps answering alike, a queued target is
      taken up within as many polls as its place on the queue exactly when no target ahead of it
      raises an error that nothing handles; otherwise it is never taken up, however long the run. */
  lemma FairExactly(s: State, p: Poll, events: seq<Event>, at: nat)
    requires Valid(s) && s.pending.Some? && at < |s.pending.value| && s.targetKeys == ActiveKeys(p.settings)
    requires Steady(events, p) && Polls(events) >= at + 1
    ensures EverVisited(s, events, s.pending.value[at]) <==> ClearAhead(s, p, s.pending.value, at)
  {
    if ClearAhead(s, p, s.pending.value, at) {
      ClearReaches(s, p, events, at);
    } else {
      var j :| 0 <= j < at && Jams(EntryOf(s, s.pending.value[j]), p, s.pending.value[j]);
      SteadyNoAbort(s, events, p);
      assert s.pending.value[at] in s.pending.value;
      SteadyJams(events, p, s.pending.value[j], s.pending.value[at]);
      Starvation(s, events, s.pending.value[j], s.pending.value[at], j, at);
    }
  }

  lemma SteadyJams(events: seq<Event>, p: Poll, jam: string, key: string)
    requires Steady(events, p) && Jams(UNPUBLISHED, p, jam) && key in ActiveKeys(p.settings)
    ensures JamsThroughout(events, jam, key)
  {
    forall i | 0 <= i < |events| && events[i].Polled? ensures Jams(UNPUBLISHED, events[i].poll, jam) {
      assert events[i].poll.settings == p.settings;
    }
  }

  // ---------------------------------------------------------------- a starving run

  const PAIR: seq<Target> := [Target("shared", "a"), Target("shared", "b")]

  /** The read of the first raises an error that nothing handles. */
  const PAIR_ANSWERS: string -> ReadEvent :=
    key => ReadEvent(if key == "shared_a" then Unhandled else Cancelled, false)

  function PairPoll(now: int): Poll {
    Poll(PAIR, now, now, map[], PAIR_ANSWERS, None)
  }

  lemma PairKeys()
    ensures ActiveKeys(PAIR) == {"shared_a", "shared_b"} && "shared_a" != "shared_b"
  {
    assert TargetKey(PAIR[0]) == "shared_a" && TargetKey(PAIR[1]) == "shared_b";
    assert "shared_a"[7] == 'a' && "shared_b"[7] == 'b';
  }

  lemma PairSorted()
    ensures SortedKeys({"shared_a", "shared_b"}) == ["shared_a", "shared_b"]
  {
    PairOrder();
    SortedPair(SortedKeys({"shared_a", "shared_b"}), "shared_a", "shared_b");
  }

  lemma PairOrder()
    ensures "shared_a" != "shared_b" && !Leq("shared_b", "shared_a")
  {
    assert "shared_a"[7] == 'a' && "shared_b"[7] == 'b';
    assert "shared_" + "a" == "shared_a" && "shared_" + "b" == "shared_b";
    PrefixOrder("shared_", "a", "b");
  }

  lemma SortedPair(q: seq<string>, a: string, b: string)
    requires a != b && !Leq(b, a) && NoDup(q) && Ascending(q) && (forall k :: k in q <==> k in {a, b})
        && |q| == |{a, b}|
    ensures q == [a, b]
  {
    assert |q| == 2;
    assert q[0] in q && q[1] in q && Leq(q[0], q[1]);
  }

  lemma {:induction false} PrefixOrder(prefix: string, a: string, b: string)
    requires |a| == |b| == 1 && a[0] < b[0]
    ensures !Leq(prefix + b, prefix + a)
  {
    if prefix == "" {
      assert prefix + a == a && prefix + b == b;
    } else {
      PrefixOrder(prefix[1..], a, b);
      assert (prefix + a)[1..] == prefix[1..] + a && (prefix + b)[1..] == prefix[1..] + b;
    }
  }

  /** Polls of that pair at the given times. */
  function PairPolls(times: seq<int>): (r: seq<Event>)
    ensures |r| == |times| && forall i :: 0 <= i < |times| ==> r[i] == Polled(PairPoll(times[i]))
  {
    seq(|times|, i requires 0 <= i < |times| => Polled(PairPoll(times[i])))
  }

  /** A starving run of any length, from the start: the first target's answer breaks every pass,
      and the second target, advertised throughout, is never taken up. */
  lemma StarvedPeer(times: seq<int>)
    ensures !EverVisited(INITIAL, PairPolls(times), "shared_b")
  {
    var events := PairPolls(times);
    if events != [] {
      var t := FirstPairPoll(times[0]);
      PairTail(t, events[1..], times[1..]);
    }
  }

  lemma PairTail(t: State, events: seq<Event>, times: seq<int>)
    requires |events| == |times| && forall i :: 0 <= i < |times| ==> events[i] == Polled(PairPoll(times[i]))
    requires Valid(t) && t.pending == Some(["shared_a", "shared_b"]) && EntryOf(t, "shared_a").skip.None?
    ensures !EverVisited(t, events, "shared_b")
  {
    PairRest(events, times);
    SteadyNoAbort(t, events, PairPoll(0));
    Starvation(t, events, "shared_a", "shared_b", 0, 1);
  }

  lemma PairRest(events: seq<Event>, times: seq<int>)
    requires |events| == |times| && forall i :: 0 <= i < |times| ==> events[i] == Polled(PairPoll(times[i]))
    ensures JamsThroughout(events, "shared_a", "shared_b") && Steady(events, PairPoll(0))
  {
    PairKeys();
  }

  lemma FirstPairPoll(now: int) returns (t: State)
    ensures var r := PollStep(INITIAL, PairPoll(now)); t == r.state && "shared_b" !in r.visited
    ensures Valid(t) && t.pending == Some(["shared_a", "shared_b"]) && EntryOf(t, "shared_a").skip.None?
  {
    var p := PairPoll(now);
    var r := PollStep(INITIAL, p);
    t := r.state;
    PairQueue(p);
    InitialValid();
    PollEffects(INITIAL, p);
    FirstStuck(p, r);
  }

  lemma PairQueue(p: Poll)
    requires p.settings == PAIR
    ensures QueueOf(INITIAL, p) == ["shared_a", "shared_b"] && Due(Prepared(INITIAL, p), p.now)
  {
    PairKeys();
    PairSorted();
  }

  lemma FirstStuck(p: Poll, r: Pass)
    requires QueueOf(INITIAL, p) == ["shared_a", "shared_b"] && Due(Prepared(INITIAL, p), p.now)
    requires r == PollStep(INITIAL, p) && p == PairPoll(p.now)
    ensures "shared_b" !in r.visited && r.state.pending == Some(["shared_a", "shared_b"])
    ensures EntryOf(r.state, "shared_a").skip.None?
  {
    PairKeys();
    InitialValid();
    PairJams(p.now);
    StuckExactly(INITIAL, p, r);
    PollEnds(INITIAL, p, r);
    StuckLeaves(QueueOf(INITIAL, p), r);
    PollEffects(INITIAL, p);
    JamEntry(INITIAL, p, r, "shared_a");
  }

  lemma PairJams(now: int)
    ensures Jams(EntryOf(INITIAL, "shared_a"), PairPoll(now), "shared_a")
  {
    PairKeys();
    assert EntryOf(INITIAL, "shared_a") == UNPUBLISHED;
  }
}
