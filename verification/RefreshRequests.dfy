/** No refresh request is lost, and exactly when an aborted pass loses one. */
module RefreshRequests {
  import opened Prelude
  import opened TargetKeys
  import opened InventoryScheduler
  import opened InventoryRuns
  import opened InventoryFairness

  /** A request is pending, or every target of the last poll is queued or was published by a
      visit that began after the latest request. */
  ghost predicate NoRequestLost(s: State) {
    s.requested || forall k :: k in s.targetKeys ==> Queued(s, k) || k in s.served
  }

  // ---------------------------------------------------------------- one visit, one pass

  lemma VisitServes(s: State, key: string, unsupported: bool, event: ReadEvent)
    ensures var v := VisitTarget(s, key, unsupported, event);
      && v.state.requested == (s.requested || (v.issued && event.requestArrived))
      && (!v.state.requested ==> v.state.served == if v.stop.None? then s.served + {key} else s.served)
  {
  }

  /** The guarantee holds at every await of a pass, not only between polls. */
  lemma VisitKeepsRequests(s: State, todo: seq<string>, p: Poll)
    requires Ready(s, todo, p) && todo != [] && NoRequestLost(s)
    ensures NoRequestLost(VisitOne(s, todo[0], p).state)
  {
    var key := todo[0];
    VisitStep(s, todo, p);
    VisitServes(s, key, TypeUnsupported(p.support, TargetFor(p.settings, key).value.kind), p.answers(key));
    ShapeKeepsRequests(s, todo, VisitOne(s, key, p));
  }

  lemma ShapeKeepsRequests(s: State, todo: seq<string>, v: Visit)
    requires s.pending == Some(todo) && todo != [] && NoRequestLost(s) && VisitKeepsShape(s, todo, v)
    requires !v.state.requested ==> v.state.served == if v.stop.None? then s.served + {todo[0]} else s.served
    ensures NoRequestLost(v.state)
  {
    if !v.state.requested {
      forall k | k in v.state.targetKeys ensures Queued(v.state, k) || k in v.state.served {
        assert Queued(s, k) || k in s.served;
        assert todo == [todo[0]] + todo[1..];
      }
    }
  }

  /** Whether a request arrived while a read of the pass was awaited. */
  predicate RequestArrived(p: Poll, issued: seq<string>) {
    exists k :: k in issued && p.answers(k).requestArrived
  }

  lemma ArrivedOn(p: Poll, key: string, issued: bool, rest: seq<string>)
    ensures RequestArrived(p, (if issued then [key] else []) + rest) <==>
              (issued && p.answers(key).requestArrived) || RequestArrived(p, rest)
  {
    assert forall k :: k in (if issued then [key] else []) + rest <==> (issued && k == key) || k in rest;
  }

  /** The request flag after a pass. */
  lemma {:induction false} WalkFlag(s: State, todo: seq<string>, abort: Option<nat>, p: Poll)
    requires Ready(s, todo, p)
    ensures var r := Walk(s, todo, abort, p); r.state.requested <==> s.requested || RequestArrived(p, r.issued)
    decreases |todo|
  {
    if abort != Some(0) && todo != [] {
      var key := todo[0];
      VisitStep(s, todo, p);
      WalkOne(s, todo, abort, p);
      VisitServes(s, key, TypeUnsupported(p.support, TargetFor(p.settings, key).value.kind), p.answers(key));
      var v := VisitOne(s, key, p);
      if v.stop.None? {
        WalkFlag(v.state, todo[1..], Closer(abort), p);
        ArrivedOn(p, key, v.issued, Walk(v.state, todo[1..], Closer(abort), p).issued);
      } else {
        ArrivedOn(p, key, v.issued, []);
      }
    }
  }

  /** The entries of a pass that were published, not merely attempted. */
  function Settled(r: Pass): seq<string> {
    if r.end.Interrupted? || r.end.Broken? then if r.visited == [] then [] else r.visited[..|r.visited| - 1]
    else r.visited
  }

  lemma SettledOn(key: string, sent: seq<string>, rest: Pass, todo: seq<string>)
    requires PassShape(todo, rest)
    ensures Settled(After([key], sent, rest)) == [key] + Settled(rest)
  {
  }

  /** The served targets after a pass during which no request arrived. */
  lemma {:induction false} WalkServes(s: State, todo: seq<string>, abort: Option<nat>, p: Poll)
    requires Ready(s, todo, p)
    ensures var r := Walk(s, todo, abort, p);
      !r.state.requested ==> forall k :: k in r.state.served <==> k in s.served || k in Settled(r)
    decreases |todo|
  {
    if abort != Some(0) && todo != [] {
      var key := todo[0];
      VisitStep(s, todo, p);
      WalkOne(s, todo, abort, p);
      VisitServes(s, key, TypeUnsupported(p.support, TargetFor(p.settings, key).value.kind), p.answers(key));
      var v := VisitOne(s, key, p);
      if v.stop.None? {
        var rest := Walk(v.state, todo[1..], Closer(abort), p);
        WalkShape(v.state, todo[1..], Closer(abort), p);
        WalkServes(v.state, todo[1..], Closer(abort), p);
        SettledOn(key, if v.issued then [key] else [], rest, todo[1..]);
      }
    }
  }

  // ---------------------------------------------------------------- one poll

  /** What the pass of a due poll makes of the request flag and of the served targets. */
  lemma PassServes(s: State, p: Poll)
    requires Valid(s)
    ensures var batch := Opened(s, p);
      && batch.pending.Some?
      && var pass := Walk(batch, batch.pending.value, p.abort, p);
      && (pass.state.requested <==> RequestArrived(p, pass.issued))
      && (!pass.state.requested ==>
            forall k :: k in pass.state.served <==>
              (k in s.served && k in ActiveKeys(p.settings)) || k in Settled(pass))
  {
    PreparedEntries(s, p);
    BatchReady(s, p);
    WalkFlag(Opened(s, p), Opened(s, p).pending.value, p.abort, p);
    WalkServes(Opened(s, p), Opened(s, p).pending.value, p.abort, p);
  }

  /** What a due poll makes of them. */
  lemma PollServes(s: State, p: Poll)
    requires Valid(s) && Due(Prepared(s, p), p.now)
    ensures var r := PollStep(s, p);
      && (r.state.requested <==> RequestArrived(p, r.issued) || (r.end.Aborted? && Prepared(s, p).requested))
      && (!RequestArrived(p, r.issued) ==>
            forall k :: k in r.state.served <==> k in ActiveKeys(p.settings) && (k in s.served || k in Settled(r)))
  {
    PassEffects(s, p);
    PassServes(s, p);
    PollEffects(s, p);
    var pass := Walk(Opened(s, p), Opened(s, p).pending.value, p.abort, p);
    ConcludedFlag(pass, Prepared(s, p).requested, p);
  }

  lemma ConcludedFlag(pass: Pass, refreshRequested: bool, p: Poll)
    ensures var r := pass.(state := Conclude(pass.state, pass.end, refreshRequested, p));
      && (r.state.requested <==> pass.state.requested || (pass.end.Aborted? && refreshRequested))
      && r.state.served == pass.state.served && Settled(r) == Settled(pass)
  {
  }

  /** An entry of the queue is settled by the pass or still queued after it. */
  lemma QueuedOrSettled(q: seq<string>, r: Pass, key: string)
    requires Leaves(q, r) && !r.end.Aborted? && key in q
    ensures key in Settled(r) || Queued(r.state, key)
  {
    var i :| 0 <= i < |q| && q[i] == key;
    var n := |Settled(r)|;
    assert Settled(r) == q[..n];
    if i < n {
      assert Settled(r)[i] == key;
    } else {
      var left := r.state.pending.value;
      assert r.end.Broken? ==> left[i - n] == key;
      assert r.end.Interrupted? ==> left[if i == n then |left| - 1 else i - n - 1] == key;
    }
  }

  /** No refresh request is lost by a poll that is not aborted. */
  lemma PollKeepsRequests(s: State, p: Poll, r: Pass)
    requires Valid(s) && NoRequestLost(s) && r == PollStep(s, p) && !r.end.Aborted?
    ensures NoRequestLost(r.state)
  {
    PollEffects(s, p);
    if Due(Prepared(s, p), p.now) {
      PollServes(s, p);
      PollEnds(s, p, r);
      if !r.state.requested {
        forall k | k in r.state.targetKeys ensures Queued(r.state, k) || k in r.state.served {
          if k !in s.served {
            UnservedIsQueued(s, p, k);
            QueuedOrSettled(QueueOf(s, p), r, k);
          }
        }
      }
    } else {
      PreparedEntries(s, p);
      PreparedQueue(s, p);
    }
  }

  lemma UnservedIsQueued(s: State, p: Poll, key: string)
    requires Valid(s) && NoRequestLost(s) && Due(Prepared(s, p), p.now)
    requires key in ActiveKeys(p.settings) && key !in s.served
    ensures key in QueueOf(s, p)
  {
    QueueContents(s, p);
    if s.pending.Some? && !s.requested && key in s.targetKeys {
      assert Queued(s, key);
      assert key in Keep(s.pending.value, ActiveKeys(p.settings));
    }
  }

  // ---------------------------------------------------------------- aborted passes

  /** The pass of the poll reaches place `n`, where an error ends it. */
  ghost predicate AbortsAt(s: State, p: Poll, n: nat) {
    && p.abort == Some(n) && Due(Prepared(s, p), p.now)
    && n <= |QueueOf(s, p)| && FreeOfStops(s, p, QueueOf(s, p)[..n])
  }

  /** A poll is aborted exactly when it is due and no read ends its pass before the error. */
  lemma AbortsExactly(s: State, p: Poll, r: Pass)
    requires Valid(s) && r == PollStep(s, p)
    ensures r.end.Aborted? <==> p.abort.Some? && AbortsAt(s, p, p.abort.value)
    ensures r.end.Aborted? ==> r.visited == QueueOf(s, p)[..p.abort.value]
  {
    if Due(Prepared(s, p), p.now) {
      PollEnds(s, p, r);
      AbortPlace(s, QueueOf(s, p), p, r);
    }
  }

  lemma AbortPlace(s: State, q: seq<string>, p: Poll, r: Pass)
    requires EndsThere(s, q, p.abort, p, r)
    ensures r.end.Aborted? <==> p.abort.Some? && p.abort.value <= |q| && FreeOfStops(s, p, q[..p.abort.value])
    ensures r.end.Aborted? ==> r.visited == q[..p.abort.value]
  {
    var n := |r.visited|;
    if !r.end.Aborted? && !r.end.Completed? && p.abort.Some? && p.abort.value <= |q| {
      assert q[..p.abort.value][n - 1] == q[n - 1] && q[n - 1] in q[..p.abort.value];
    }
  }

  /** An abort after `n` entries loses no request: the flag was up or goes up as the batch opens,
      a request arrives during one of the reads before, or nothing else is left to serve. */
  ghost predicate AbortIsSafe(s: State, p: Poll, n: nat)
    requires n <= |QueueOf(s, p)|
  {
    var done, active := QueueOf(s, p)[..n], ActiveKeys(p.settings);
    || s.requested
    || (s.pending.None? && active != s.targetKeys)
    || (exists k :: k in done && k in active && Reads(EntryOf(s, k), p, k) && p.answers(k).requestArrived)
    || (forall k :: k in active ==> k in s.served || k in done)
  }

  /** An aborted poll drops the queue. It keeps the guarantee exactly when its abort is safe. */
  lemma AbortedPollKeepsRequests(s: State, p: Poll, n: nat, r: Pass)
    requires Valid(s) && AbortsAt(s, p, n) && r == PollStep(s, p)
    ensures NoRequestLost(r.state) <==> AbortIsSafe(s, p, n)
  {
    AbortOutcome(s, p, n, r);
    PollEffects(s, p);
    ArrivedDuring(s, p, r);
    var done, active := QueueOf(s, p)[..n], ActiveKeys(p.settings);
    if !r.state.requested {
      assert forall k :: k in active ==> (k in r.state.served <==> k in s.served || k in done);
    }
  }

  /** What an aborted poll leaves of flag, queue and served targets. */
  lemma AbortOutcome(s: State, p: Poll, n: nat, r: Pass)
    requires Valid(s) && AbortsAt(s, p, n) && r == PollStep(s, p)
    ensures var active := ActiveKeys(p.settings);
      && r.visited == QueueOf(s, p)[..n] && r.state.pending.None? && r.state.targetKeys == active
      && (r.state.requested <==>
            s.requested || (s.pending.None? && active != s.targetKeys) || RequestArrived(p, r.issued))
      && (!r.state.requested ==>
            forall k :: k in active ==> (k in r.state.served <==> k in s.served || k in r.visited))
  {
    AbortsExactly(s, p, r);
    PreparedQueue(s, p);
    PollServes(s, p);
    PollEffects(s, p);
    PollEnds(s, p, r);
  }

  /** A request arrived exactly if one did during a visited read. */
  lemma ArrivedDuring(s: State, p: Poll, r: Pass)
    requires Effects(s, p, r)
    ensures RequestArrived(p, r.issued) <==>
              exists k :: k in r.visited && k in ActiveKeys(p.settings) && Reads(EntryOf(s, k), p, k)
                          && p.answers(k).requestArrived
  {
  }

  /** Every aborted pass of the run is safe. */
  ghost predicate SafeAborts(s: State, events: seq<Event>)
    decreases |events|
  {
    events != [] ==>
      && (events[0].Polled? ==>
            forall n :: AbortsAt(s, events[0].poll, n) ==> AbortIsSafe(s, events[0].poll, n))
      && SafeAborts(Next(s, events[0]), events[1..])
  }

  lemma EventKeepsRequests(s: State, e: Event)
    requires Valid(s) && NoRequestLost(s)
    requires e.Polled? ==> forall n :: AbortsAt(s, e.poll, n) ==> AbortIsSafe(s, e.poll, n)
    ensures NoRequestLost(Next(s, e))
  {
    match e
    case Polled(p) =>
      var r := PollStep(s, p);
      AbortsExactly(s, p, r);
      if r.end.Aborted? {
        AbortedPollKeepsRequests(s, p, p.abort.value, r);
      } else {
        PollKeepsRequests(s, p, r);
      }
    case SettingsUnavailable =>
      assert forall k :: Queued(Next(s, e), k) <==> Queued(s, k);
    case _ =>
  }

  /** No lost refresh request, over every run whose aborts are safe. */
  lemma {:induction false} RunKeepsRequests(s: State, events: seq<Event>)
    requires Valid(s) && NoRequestLost(s) && SafeAborts(s, events)
    ensures NoRequestLost(Run(s, events))
    decreases |events|
  {
    if events != [] {
      NextValid(s, events[0]);
      EventKeepsRequests(s, events[0]);
      RunKeepsRequests(Next(s, events[0]), events[1..]);
    }
  }

  // ---------------------------------------------------------------- a losing run

  /** A poll of one shared target whose read would be cancelled. */
  function LonePoll(now: int, abort: Option<nat>): Poll {
    Poll([Target("shared", "a")], now, now, map[], _ => ReadEvent(Cancelled, false), abort)
  }

  lemma LoneKey()
    ensures ActiveKeys(LonePoll(0, None).settings) == {"shared_a"}
  {
    var settings := LonePoll(0, None).settings;
    assert TargetKey(settings[0]) == "shared_a";
  }

  /** The guarantee fails with an abort: a request, a batch whose only read is cancelled, then a
      pass of that batch that an error ends at once. The flag is down, the queue is gone and
      nothing was published. */
  lemma AbortLosesRequest()
    ensures var s1 := Next(INITIAL, RefreshRequested);
      var s2 := Next(s1, Polled(LonePoll(0, None)));
      var s3 := Next(s2, Polled(LonePoll(1, Some(0))));
      NoRequestLost(s2) && !NoRequestLost(s3)
  {
    var s1 := Next(INITIAL, RefreshRequested);
    InitialValid();
    NextValid(INITIAL, RefreshRequested);
    LoneKey();
    var s2 := LoneBatch(s1);
    LoneAbort(s2);
  }

  lemma LoneBatch(s: State) returns (t: State)
    requires s == Next(INITIAL, RefreshRequested) && Valid(s)
    ensures t == PollStep(s, LonePoll(0, None)).state && Valid(t) && NoRequestLost(t)
    ensures t.pending == Some(["shared_a"]) && !t.requested && t.served == {}
  {
    var p := LonePoll(0, None);
    var r := PollStep(s, p);
    t := r.state;
    LoneKey();
    MustPoll(s, p);
    LoneQueue(s, p);
    PollEnds(s, p, r);
    PollEffects(s, p);
    PollKeepsRequests(s, p, r);
    LoneStops(s, p);
    LonePass(s, p, r);
    PollServes(s, p);
  }

  lemma LoneQueue(s: State, p: Poll)
    requires Valid(s) && s.requested && s.pending.None? && ActiveKeys(p.settings) == {"shared_a"}
    ensures QueueOf(s, p) == ["shared_a"]
  {
    QueueContents(s, p);
    assert "shared_a" in ActiveKeys(p.settings);
  }

  lemma LoneStops(s: State, p: Poll)
    requires s == Next(INITIAL, RefreshRequested) && p == LonePoll(0, None)
    ensures "shared_a" in ActiveKeys(p.settings) && Stops(EntryOf(s, "shared_a"), p, "shared_a")
  {
    LoneKey();
  }

  lemma LonePass(s: State, p: Poll, r: Pass)
    requires EndsThere(s, ["shared_a"], p.abort, p, r) && Leaves(["shared_a"], r) && p == LonePoll(0, None)
    requires "shared_a" in ActiveKeys(p.settings) && Stops(EntryOf(s, "shared_a"), p, "shared_a")
    ensures r.end.Interrupted? && r.state.pending == Some(["shared_a"]) && Settled(r) == []
  {
    assert "shared_a" in ["shared_a"];
    assert ["shared_a"][1..] + ["shared_a"] == ["shared_a"];
  }

  lemma LoneAbort(s: State)
    requires Valid(s) && s.pending == Some(["shared_a"]) && !s.requested && s.served == {}
    ensures !NoRequestLost(PollStep(s, LonePoll(1, Some(0))).state)
  {
    var p := LonePoll(1, Some(0));
    LoneKey();
    MustPoll(s, p);
    assert "shared_a" in ActiveKeys(p.settings);
    assert QueueOf(s, p)[..0] == [];
    AbortedPollKeepsRequests(s, p, 0, PollStep(s, p));
  }

  // ---------------------------------------------------------------- what counts as served

  lemma {:induction false} WalkBound(s: State, todo: seq<string>, abort: Option<nat>, p: Poll, key: string)
    requires Ready(s, todo, p) && key in Walk(s, todo, abort, p).state.served
    ensures key in s.served || key in Settled(Walk(s, todo, abort, p))
    decreases |todo|
  {
    if abort != Some(0) && todo != [] {
      VisitStep(s, todo, p);
      WalkOne(s, todo, abort, p);
      var v := VisitOne(s, todo[0], p);
      if v.stop.None? {
        var rest := Walk(v.state, todo[1..], Closer(abort), p);
        WalkShape(v.state, todo[1..], Closer(abort), p);
        WalkBound(v.state, todo[1..], Closer(abort), p, key);
        SettledOn(todo[0], if v.issued then [todo[0]] else [], rest, todo[1..]);
      }
    }
  }

  lemma PollBound(s: State, p: Poll, key: string)
    requires Valid(s) && key in PollStep(s, p).state.served
    ensures key in s.served || key in Settled(PollStep(s, p))
  {
    PreparedEntries(s, p);
    if Due(Prepared(s, p), p.now) {
      PassEffects(s, p);
      BatchReady(s, p);
      var batch := Opened(s, p);
      WalkBound(batch, batch.pending.value, p.abort, p, key);
      ConcludedFlag(Walk(batch, batch.pending.value, p.abort, p), Prepared(s, p).requested, p);
    }
  }

  /** Some poll of the run settled the target: published its inventory or its error. */
  ghost predicate EverSettled(s: State, events: seq<Event>, key: string)
    decreases |events|
  {
    && events != []
    && ((events[0].Polled? && key in Settled(PollStep(s, events[0].poll)))
        || EverSettled(Next(s, events[0]), events[1..], key))
  }

  lemma {:induction false} ServedWasSettled(s: State, events: seq<Event>, key: string)
    requires Valid(s) && key !in s.served && key in Run(s, events).served
    ensures EverSettled(s, events, key)
    decreases |events|
  {
    if events != [] {
      NextValid(s, events[0]);
      if key in Next(s, events[0]).served {
        ServedNow(s, events[0], key);
      } else {
        ServedWasSettled(Next(s, events[0]), events[1..], key);
      }
    }
  }

  lemma ServedNow(s: State, e: Event, key: string)
    requires Valid(s) && key !in s.served && key in Next(s, e).served
    ensures e.Polled? && key in Settled(PollStep(s, e.poll))
  {
    if e.Polled? {
      PollBound(s, e.poll, key);
    }
  }

  /** What counts as served after a request was settled by a poll after that request, never before. */
  lemma ServedAfterRequest(events: seq<Event>, later: seq<Event>, key: string)
    requires key in Run(Next(Run(INITIAL, events), RefreshRequested), later).served
    ensures Next(Run(INITIAL, events), RefreshRequested).requested
    ensures EverSettled(Next(Run(INITIAL, events), RefreshRequested), later, key)
  {
    InitialValid();
    RunValid(INITIAL, events);
    NextValid(Run(INITIAL, events), RefreshRequested);
    ServedWasSettled(Next(Run(INITIAL, events), RefreshRequested), later, key);
  }
}
