/** Counting accepted settings lists that lack a target, and the repair issue at three. */
module MissingTargets {
  import opened Prelude

  const REPAIR_THRESHOLD: nat := 3

  /** The state kept for one coordinator: the list last counted, the counts per target key
      and the open repair issues. Settings lists carry a fresh version each. */
  datatype Tracker = Tracker(seen: Option<nat>, counts: map<string, nat>, issues: set<string>)

  function CountOf(t: Tracker, key: string): nat {
    if key in t.counts then t.counts[key] else 0
  }

  /** The branch for a live target that the current list names. */
  function MarkPresent(t: Tracker, key: string): Tracker {
    Tracker(t.seen, t.counts - {key}, if CountOf(t, key) > 0 then t.issues - {key} else t.issues)
  }

  /** The branch for a live target that it lacks. */
  function MarkMissing(t: Tracker, key: string, increment: bool): Tracker {
    var counts := if increment then t.counts[key := CountOf(t, key) + 1] else t.counts;
    var count := if key in counts then counts[key] else 0;
    Tracker(t.seen, counts, if count < REPAIR_THRESHOLD then t.issues - {key} else t.issues + {key})
  }

  function Mark(t: Tracker, key: string, current: set<string>, increment: bool): Tracker {
    if key in current then MarkPresent(t, key) else MarkMissing(t, key, increment)
  }

  /** What one listener call must do to the entry of every key. */
  ghost predicate Updates(t: Tracker, r: Tracker, available: bool, version: nat, current: set<string>,
                          live: set<string>) {
    if !available then r == t
    else
      && r.seen == Some(version)
      && forall k :: var counted := t.seen != Some(version);
           var expected := if k !in live then CountOf(t, k)
                           else if k in current then 0
                           else CountOf(t, k) + if counted then 1 else 0;
           && CountOf(r, k) == expected
           && (k !in live ==> (k in r.issues <==> k in t.issues))
           && (k in live && k !in current ==> (k in r.issues <==> expected >= REPAIR_THRESHOLD))
           && (k in live && k in current ==> (k in r.issues <==> k in t.issues && CountOf(t, k) == 0))
  }

  /** The entry of a key is the same in both. */
  predicate SameEntry(a: Tracker, b: Tracker, key: string) {
    CountOf(a, key) == CountOf(b, key) && (key in a.issues <==> key in b.issues)
  }

  /** The keys that are done have been marked, the others are as they were. */
  ghost predicate Marked(start: Tracker, now: Tracker, done: seq<string>, current: set<string>, increment: bool) {
    forall k :: SameEntry(now, if k in done then Mark(start, k, current, increment) else start, k)
  }

  lemma MarkedOn(start: Tracker, before: Tracker, done: seq<string>, key: string, current: set<string>,
                 increment: bool)
    requires Marked(start, before, done, current, increment) && key !in done
    ensures Marked(start, Mark(before, key, current, increment), done + [key], current, increment)
  {
    var after := Mark(before, key, current, increment);
    forall k ensures SameEntry(after, if k in done + [key] then Mark(start, k, current, increment) else start, k) {
      assert SameEntry(before, if k in done then Mark(start, k, current, increment) else start, k);
      assert k != key ==> SameEntry(after, before, k);
    }
  }

  /** All live keys marked is what a call must do. */
  lemma MarkedUpdates(t: Tracker, r: Tracker, version: nat, current: set<string>, bucket: seq<string>)
    requires r.seen == Some(version)
    requires Marked(t.(seen := Some(version)), r, bucket, current, t.seen != Some(version))
    ensures Updates(t, r, true, version, current, ToSet(bucket))
  {
    var start, counted := t.(seen := Some(version)), t.seen != Some(version);
    forall k
      ensures SameEntry(r, if k in ToSet(bucket) then Mark(start, k, current, counted) else start, k)
    {
    }
  }

  /** The tracker as the listeners share it. */
  class MissingTracker {
    var seen: Option<nat>
    var counts: map<string, nat>
    var issues: set<string>

    ghost function Value(): Tracker
      reads this
    {
      Tracker(seen, counts, issues)
    }

    constructor ()
      ensures Value() == Tracker(None, map[], {})
    {
      seen, counts, issues := None, map[], {};
    }

    /** `_update_snapshot_target_missing_state`; `bucket` lists the keys with live entities. */
    method Update(available: bool, version: nat, current: set<string>, bucket: seq<string>)
      requires NoDup(bucket)
      modifies this
      ensures Updates(old(Value()), Value(), available, version, current, ToSet(bucket))
    {
      if !available {
        return;
      }
      var increment := seen != Some(version);
      if increment {
        seen := Some(version);
      }
      ghost var start := Value();
      for n := 0 to |bucket|
        invariant seen == Some(version)
        invariant Marked(start, Value(), bucket[..n], current, increment)
      {
        var key := bucket[n];
        assert key !in bucket[..n];
        assert bucket[..n + 1] == bucket[..n] + [key];
        MarkedOn(start, Value(), bucket[..n], key, current, increment);
        if key in current {
          var count := if key in counts then counts[key] else 0;
          counts := counts - {key};
          if count > 0 {
            issues := issues - {key};
          }
        } else {
          if increment {
            counts := counts[key := (if key in counts then counts[key] else 0) + 1];
          }
          var count := if key in counts then counts[key] else 0;
          issues := if count < REPAIR_THRESHOLD then issues - {key} else issues + {key};
        }
      }
      assert bucket[..|bucket|] == bucket;
      MarkedUpdates(old(Value()), Value(), version, current, bucket);
    }
  }

  // ---------------------------------------------------------------- runs

  /** What happens between listener calls, and one such call. `Accepted` is a list that a poll
      accepts, `Stored` one that a service call stores by itself, `Unavailable` a failed read, and
      `Called` one platform listener, with the targets whose entities it creates. */
  datatype Event =
    | Accepted(keys: set<string>)
    | Stored(keys: set<string>)
    | Unavailable
    | Called(added: set<string>)

  /** `lists` are the settings lists in the order in which they came, `counted` those that a
      listener call counted, and `live` says for each target with entities how many lists had been
      counted when they appeared. */
  datatype World = World(
    tracker: Tracker,
    available: bool,
    lists: seq<set<string>>,
    counted: seq<set<string>>,
    live: map<string, nat>)

  const CLEAN := World(Tracker(None, map[], {}), false, [], [], map[])

  /** The keys of the list in force; none before the first. */
  function Current(lists: seq<set<string>>): set<string> {
    if lists == [] then {} else lists[|lists| - 1]
  }

  /** How many of the latest lists lack the key without a break. */
  function Lacking(lists: seq<set<string>>, key: string): nat {
    if lists == [] || key in lists[|lists| - 1] then 0 else 1 + Lacking(lists[..|lists| - 1], key)
  }

  /** Entities appear for listed targets only. */
  function Appear(w: World, added: set<string>): map<string, nat> {
    map k | k in w.live.Keys + added * Current(w.lists) :: if k in w.live then w.live[k] else |w.counted|
  }

  /** The call counts the list in force: it is available and no call has counted it. */
  predicate Counts(w: World) {
    w.available && w.tracker.seen != Some(|w.lists|)
  }

  /** A listener call: entities appear, then the state is updated. */
  ghost predicate Call(w: World, added: set<string>, after: World) {
    && after.available == w.available && after.lists == w.lists && after.live == Appear(w, added)
    && after.counted == (if Counts(w) then w.counted + [Current(w.lists)] else w.counted)
    && Updates(w.tracker, after.tracker, w.available, |w.lists|, Current(w.lists), after.live.Keys)
  }

  ghost predicate Next(w: World, e: Event, after: World) {
    match e
    case Accepted(keys) => after == w.(available := true, lists := w.lists + [keys])
    case Stored(keys) => after == w.(lists := w.lists + [keys])
    case Unavailable => after == w.(available := false)
    case Called(added) => Call(w, added, after)
  }

  ghost predicate Run(w: World, events: seq<Event>, after: World)
    decreases |events|
  {
    if events == [] then after == w
    else exists mid :: Next(w, events[0], mid) && Run(mid, events[1..], after)
  }

  /** The lists counted since the entities of a live target appeared that lack it without a break. */
  function Missed(w: World, key: string): nat
    requires key in w.live && w.live[key] <= |w.counted|
  {
    Lacking(w.counted[w.live[key]..], key)
  }

  /** Counts and issues agree with the counted lists. */
  ghost predicate Agrees(w: World) {
    && (forall k :: k in w.live ==> w.live[k] <= |w.counted|)
    && (forall k :: CountOf(w.tracker, k) == if k in w.live then Missed(w, k) else 0)
    && (forall k :: k in w.tracker.issues <==> k in w.live && Missed(w, k) >= REPAIR_THRESHOLD)
  }

  /** The list that was counted last is the one that the tracker has seen. */
  ghost predicate Settled(w: World) {
    && Agrees(w)
    && (w.tracker.seen.Some? ==> w.tracker.seen.value <= |w.lists|)
    && (w.tracker.seen == Some(|w.lists|) ==> w.counted != [] && w.counted[|w.counted| - 1] == Current(w.lists))
  }

  /** What one more counted list means for a target. */
  lemma LackingOne(counted: seq<set<string>>, from: nat, list: set<string>, key: string)
    requires from <= |counted|
    ensures Lacking((counted + [list])[from..], key) == if key in list then 0 else 1 + Lacking(counted[from..], key)
  {
    var lists := (counted + [list])[from..];
    assert lists == counted[from..] + [list] && lists[..|lists| - 1] == counted[from..];
  }

  /** A listed target is not missed once its list is counted. */
  lemma PresentNotMissed(w: World, key: string)
    requires Settled(w) && key in Current(w.lists) && key in w.live && w.tracker.seen == Some(|w.lists|)
    ensures Missed(w, key) == 0
  {
    var since := w.counted[w.live[key]..];
    assert since != [] ==> since[|since| - 1] == w.counted[|w.counted| - 1];
  }

  /** What a call leaves of a target's lists. */
  lemma MissedAfter(w: World, added: set<string>, after: World, key: string)
    requires Settled(w) && Call(w, added, after) && key in after.live
    ensures after.live[key] <= |after.counted|
    ensures Missed(after, key) ==
              if !Counts(w) then (if key in w.live then Missed(w, key) else 0)
              else if key in Current(w.lists) then 0
              else 1 + if key in w.live then Missed(w, key) else 0
  {
    if Counts(w) {
      LackingOne(w.counted, after.live[key], Current(w.lists), key);
    }
  }

  lemma CallSettles(w: World, added: set<string>, after: World)
    requires Settled(w) && Call(w, added, after)
    ensures Settled(after)
  {
    forall k
      ensures k in after.live ==> after.live[k] <= |after.counted|
      ensures CountOf(after.tracker, k) == if k in after.live then Missed(after, k) else 0
      ensures k in after.tracker.issues <==> k in after.live && Missed(after, k) >= REPAIR_THRESHOLD
    {
      assert CountOf(w.tracker, k) == if k in w.live then Missed(w, k) else 0;
      if k in after.live {
        MissedAfter(w, added, after, k);
        if w.available && !Counts(w) && k in Current(w.lists) && k in w.live {
          PresentNotMissed(w, k);
        }
      }
    }
  }

  lemma NextSettles(w: World, e: Event, after: World)
    requires Settled(w) && Next(w, e, after)
    ensures Settled(after)
  {
    if e.Called? {
      CallSettles(w, e.added, after);
    } else {
      assert forall k :: k in w.live ==> Missed(after, k) == Missed(w, k);
    }
  }

  /** Any number of listener calls per list, and lists that no call counts: counts and issues agree
      with the counted lists along every run. */
  lemma {:induction false} MissingCounts(w: World, events: seq<Event>, after: World)
    requires Settled(w) && Run(w, events, after)
    ensures Settled(after)
    decreases |events|
  {
    if events != [] {
      var mid :| Next(w, events[0], mid) && Run(mid, events[1..], after);
      NextSettles(w, events[0], mid);
      MissingCounts(mid, events[1..], after);
    }
  }

  /** From a clean start a live target's count is the number of consecutive lists lacking it, among
      those that a listener call counted since its entities appeared; unavailable reads change
      nothing, and its repair issue exists exactly when the count is at least three. */
  lemma LiveTargetCounts(events: seq<Event>, after: World, key: string)
    requires Run(CLEAN, events, after) && key in after.live
    ensures after.live[key] <= |after.counted|
    ensures CountOf(after.tracker, key) == Missed(after, key)
    ensures key in after.tracker.issues <==> Missed(after, key) >= 3
  {
    MissingCounts(CLEAN, events, after);
  }

  // ---------------------------------------------------------------- which lists are counted

  /** Every list is counted before the next one comes. */
  ghost predicate EachCounted(w: World, events: seq<Event>, after: World)
    decreases |events|
  {
    if events == [] then after == w
    else
      && (events[0].Accepted? || events[0].Stored? ==> w.lists == [] || w.tracker.seen == Some(|w.lists|))
      && exists mid :: Next(w, events[0], mid) && EachCounted(mid, events[1..], after)
  }

  /** The counted lists are all lists, or all but the last one. */
  predicate AllCounted(w: World) {
    && w.counted == w.lists[..|w.lists| - if w.lists == [] || w.tracker.seen == Some(|w.lists|) then 0 else 1]
    && (w.available ==> w.lists != [])
  }

  lemma NextAllCounted(w: World, e: Event, after: World)
    requires Settled(w) && AllCounted(w) && Next(w, e, after)
    requires e.Accepted? || e.Stored? ==> w.lists == [] || w.tracker.seen == Some(|w.lists|)
    ensures AllCounted(after)
  {
    if e.Called? && Counts(w) {
      assert w.lists == w.lists[..|w.lists| - 1] + [Current(w.lists)];
    }
  }

  /** If every list is counted before the next one comes, as a poll that succeeds does by calling
      the listeners, the counted lists are exactly the lists that came, up to the last. */
  lemma {:induction false} AllListsCount(w: World, events: seq<Event>, after: World)
    requires Settled(w) && AllCounted(w) && EachCounted(w, events, after)
    ensures Run(w, events, after) && AllCounted(after)
    decreases |events|
  {
    if events != [] {
      var mid :| Next(w, events[0], mid) && EachCounted(mid, events[1..], after);
      NextSettles(w, events[0], mid);
      NextAllCounted(w, events[0], mid);
      AllListsCount(mid, events[1..], after);
    }
  }

  /** Then a live target's count is the number of consecutive lists lacking it, once the last list
      is counted. */
  lemma EveryListCounts(events: seq<Event>, after: World, key: string)
    requires EachCounted(CLEAN, events, after) && key in after.live
    requires after.lists != [] && after.tracker.seen == Some(|after.lists|)
    ensures after.live[key] <= |after.lists|
    ensures CountOf(after.tracker, key) == Lacking(after.lists[after.live[key]..], key)
    ensures key in after.tracker.issues <==> Lacking(after.lists[after.live[key]..], key) >= 3
  {
    AllListsCount(CLEAN, events, after);
    assert after.lists[..|after.lists|] == after.lists;
    LiveTargetCounts(events, after, key);
  }
}
