/** The compact inventory summary of one snapshot target, computed in one pass. */
module InventorySummary {
  import opened Prelude
  import opened PreviewHeap

  const PREVIEW_LIMIT: nat := 10

  /** What the pass publishes. `latest` and `oldest` stand for the four fields each
      (time, id, name, description) that the source copies from one snapshot. */
  datatype Summary = Summary(
    snapshotCount: nat,
    countFromTotal: bool,
    returnedCount: nat,
    lockedCount: nat,
    latest: Option<Snapshot>,
    oldest: Option<Snapshot>,
    recent: seq<Snapshot>,
    metadataTruncated: bool,
    inventoryTruncated: bool)

  /** `_public_snapshot_item`: the snapshot without its parsed instant. */
  function Public(s: Snapshot): Snapshot {
    s.(instant := None)
  }

  /** The dated snapshots, each with its place among all snapshots. */
  function DatedOf(snaps: seq<Snapshot>): (r: seq<Dated>)
    ensures |r| <= |snaps|
    ensures forall i :: 0 <= i < |r| ==> r[i].order < |snaps|
    ensures forall i :: 0 <= i < |r| ==> snaps[r[i].order] == r[i].item && r[i].item.instant == Some(r[i].instant)
    ensures forall i, j :: 0 <= i < j < |r| ==> r[i].order < r[j].order
  {
    if snaps == [] then []
    else
      var front, last := DatedOf(snaps[..|snaps| - 1]), snaps[|snaps| - 1];
      match last.instant
      case None => front
      case Some(t) => front + [Dated(t, |snaps| - 1, last)]
  }

  /** The undated snapshots in payload order. */
  function UndatedOf(snaps: seq<Snapshot>): seq<Snapshot> {
    if snaps == [] then []
    else
      var front, last := UndatedOf(snaps[..|snaps| - 1]), snaps[|snaps| - 1];
      if last.instant.None? then front + [last] else front
  }

  function LockedIn(snaps: seq<Snapshot>): nat {
    if snaps == [] then 0
    else LockedIn(snaps[..|snaps| - 1]) + if snaps[|snaps| - 1].locked == Some(true) then 1 else 0
  }

  function Take<T>(q: seq<T>, k: nat): seq<T> {
    if |q| <= k then q else q[..k]
  }

  function Items(d: seq<Dated>): (r: seq<Snapshot>)
    ensures |r| == |d|
    ensures forall i :: 0 <= i < |d| ==> r[i] == Public(d[i].item)
  {
    seq(|d|, i requires 0 <= i < |d| => Public(d[i].item))
  }

  function PublicAll(q: seq<Snapshot>): (r: seq<Snapshot>)
    ensures |r| == |q|
    ensures forall i :: 0 <= i < |q| ==> r[i] == Public(q[i])
  {
    seq(|q|, i requires 0 <= i < |q| => Public(q[i]))
  }

  /** The simple form of the preview: sort, append, take ten. */
  function Preview(snaps: seq<Snapshot>): seq<Snapshot> {
    Take(Items(NewestFirst(DatedOf(snaps))) + PublicAll(UndatedOf(snaps)), PREVIEW_LIMIT)
  }

  /** Snapshot `i` is the first of the newest dated ones. */
  ghost predicate IsFirstNewest(snaps: seq<Snapshot>, i: int) {
    && 0 <= i < |snaps| && snaps[i].instant.Some?
    && (forall j :: 0 <= j < |snaps| && snaps[j].instant.Some? ==> snaps[j].instant.value <= snaps[i].instant.value)
    && (forall j :: 0 <= j < i && snaps[j].instant.Some? ==> snaps[j].instant.value < snaps[i].instant.value)
  }

  /** Snapshot `i` is the first of the oldest dated ones. */
  ghost predicate IsFirstOldest(snaps: seq<Snapshot>, i: int) {
    && 0 <= i < |snaps| && snaps[i].instant.Some?
    && (forall j :: 0 <= j < |snaps| && snaps[j].instant.Some? ==> snaps[i].instant.value <= snaps[j].instant.value)
    && (forall j :: 0 <= j < i && snaps[j].instant.Some? ==> snaps[i].instant.value < snaps[j].instant.value)
  }

  predicate NoneDated(snaps: seq<Snapshot>) {
    forall i :: 0 <= i < |snaps| ==> snaps[i].instant.None?
  }

  /** The running extreme: absent while nothing is dated, else the extreme so far. */
  ghost predicate TracksNewest(snaps: seq<Snapshot>, r: Option<Snapshot>) {
    if NoneDated(snaps) then r.None? else exists i :: IsFirstNewest(snaps, i) && r == Some(snaps[i])
  }

  ghost predicate TracksOldest(snaps: seq<Snapshot>, r: Option<Snapshot>) {
    if NoneDated(snaps) then r.None? else exists i :: IsFirstOldest(snaps, i) && r == Some(snaps[i])
  }

  ghost predicate IsLatest(snaps: seq<Snapshot>, r: Option<Snapshot>) {
    if snaps == [] then r.None?
    else if NoneDated(snaps) then r == Some(snaps[0])
    else exists i :: IsFirstNewest(snaps, i) && r == Some(snaps[i])
  }

  ghost predicate IsOldest(snaps: seq<Snapshot>, r: Option<Snapshot>) {
    if snaps == [] then r.None?
    else if NoneDated(snaps) then r == Some(snaps[|snaps| - 1])
    else exists i :: IsFirstOldest(snaps, i) && r == Some(snaps[i])
  }

  /** The running maximum: only a strictly newer snapshot replaces it. */
  function NewerOf(r: Option<Snapshot>, x: Snapshot): Option<Snapshot>
    requires r.Some? ==> r.value.instant.Some?
  {
    if x.instant.Some? && (r.None? || x.instant.value > r.value.instant.value) then Some(x) else r
  }

  /** The running minimum: only a strictly older snapshot replaces it. */
  function OlderOf(r: Option<Snapshot>, x: Snapshot): Option<Snapshot>
    requires r.Some? ==> r.value.instant.Some?
  {
    if x.instant.Some? && (r.None? || x.instant.value < r.value.instant.value) then Some(x) else r
  }

  lemma NewestStep(snaps: seq<Snapshot>, x: Snapshot, r: Option<Snapshot>)
    requires TracksNewest(snaps, r)
    ensures r.Some? ==> r.value.instant.Some?
    ensures TracksNewest(snaps + [x], NewerOf(r, x))
  {
    var all := snaps + [x];
    if NoneDated(snaps) {
      if x.instant.Some? {
        assert IsFirstNewest(all, |snaps|);
        assert all[|snaps|].instant.Some?;
      }
    } else {
      var i :| IsFirstNewest(snaps, i) && r == Some(snaps[i]);
      assert all[i] == snaps[i];
      if x.instant.Some? && x.instant.value > r.value.instant.value {
        assert IsFirstNewest(all, |snaps|);
      } else {
        assert IsFirstNewest(all, i);
      }
    }
  }

  lemma OldestStep(snaps: seq<Snapshot>, x: Snapshot, r: Option<Snapshot>)
    requires TracksOldest(snaps, r)
    ensures r.Some? ==> r.value.instant.Some?
    ensures TracksOldest(snaps + [x], OlderOf(r, x))
  {
    var all := snaps + [x];
    if NoneDated(snaps) {
      if x.instant.Some? {
        assert IsFirstOldest(all, |snaps|);
        assert all[|snaps|].instant.Some?;
      }
    } else {
      var i :| IsFirstOldest(snaps, i) && r == Some(snaps[i]);
      assert all[i] == snaps[i];
      if x.instant.Some? && x.instant.value < r.value.instant.value {
        assert IsFirstOldest(all, |snaps|);
      } else {
        assert IsFirstOldest(all, i);
      }
    }
  }

  /** Every snapshot is either dated or undated. */
  lemma {:induction false} DatedAndUndated(snaps: seq<Snapshot>)
    ensures |DatedOf(snaps)| + |UndatedOf(snaps)| == |snaps|
    ensures DatedOf(snaps) == [] <==> NoneDated(snaps)
  {
    if snaps != [] {
      var front := snaps[..|snaps| - 1];
      DatedAndUndated(front);
      if NoneDated(snaps) {
        assert forall i :: 0 <= i < |front| ==> front[i] == snaps[i];
        assert NoneDated(front);
        assert snaps[|snaps| - 1].instant.None?;
      } else if NoneDated(front) {
        var i :| 0 <= i < |snaps| && snaps[i].instant.Some?;
        assert i < |front| ==> front[i] == snaps[i];
      }
    }
  }

  /** The preview holds ten snapshots, or all of them if there are fewer. */
  lemma PreviewLength(snaps: seq<Snapshot>)
    ensures |Preview(snaps)| == if |snaps| < PREVIEW_LIMIT then |snaps| else PREVIEW_LIMIT
  {
    DatedAndUndated(snaps);
  }

  lemma TopBeats(d: seq<Dated>, e: Dated)
    requires DistinctOrders(d) && e in d
    ensures var ranked := NewestFirst(d); ranked != [] && ranked[0] in d && (ranked[0] == e || Below(e, ranked[0]))
  {
    var ranked := NewestFirst(d);
    NewestFirstDescending(d);
    NewestFirstKeepsItems(d);
    assert e in multiset(ranked);
    var k :| 0 <= k < |ranked| && ranked[k] == e;
    assert ranked[0] in multiset(d);
  }

  /** The ranking starts with the first of the newest dated snapshots. */
  lemma NewestRanksFirst(snaps: seq<Snapshot>, i: nat)
    requires IsFirstNewest(snaps, i)
    ensures var ranked := NewestFirst(DatedOf(snaps)); ranked != [] && ranked[0].item == snaps[i]
  {
    var d := DatedOf(snaps);
    var e := DatedAt(snaps, i);
    TopBeats(d, e);
    var top := NewestFirst(d)[0];
    var h :| 0 <= h < |d| && d[h] == top;
    var j := top.order;
    assert snaps[j] == top.item && snaps[j].instant == Some(top.instant);
    assert snaps[j].instant.value <= snaps[i].instant.value;
    assert top == e || Below(e, top);
  }

  /** The first preview entry is the snapshot published as the latest. */
  lemma LatestHeadsPreview(snaps: seq<Snapshot>, r: Option<Snapshot>)
    requires IsLatest(snaps, r) && !NoneDated(snaps)
    ensures r.Some? && Preview(snaps) != [] && Preview(snaps)[0] == Public(r.value)
  {
    var i :| IsFirstNewest(snaps, i) && r == Some(snaps[i]);
    NewestRanksFirst(snaps, i);
  }

  lemma {:induction false} DatedAt(snaps: seq<Snapshot>, i: nat) returns (e: Dated)
    requires i < |snaps| && snaps[i].instant.Some?
    ensures e in DatedOf(snaps) && e == Dated(snaps[i].instant.value, i, snaps[i])
  {
    if i == |snaps| - 1 {
      e := DatedOf(snaps)[|DatedOf(snaps)| - 1];
    } else {
      e := DatedAt(snaps[..|snaps| - 1], i);
    }
  }

  /** The heap holds the ten best dated snapshots of `snaps`. */
  ghost predicate HoldsTop(snaps: seq<Snapshot>, kept: seq<Dated>) {
    multiset(kept) == multiset(Take(NewestFirst(DatedOf(snaps)), PREVIEW_LIMIT))
  }

  /** One more dated snapshot is inserted into the ranking. */
  lemma RankStep(snaps: seq<Snapshot>, x: Snapshot)
    requires x.instant.Some?
    ensures var ranked, entry := NewestFirst(DatedOf(snaps)), Dated(x.instant.value, |snaps|, x);
            && Descending(ranked) && (forall y :: y in ranked ==> y.order != entry.order)
            && NewestFirst(DatedOf(snaps + [x])) == Insert(entry, ranked)
  {
    var entry, d := Dated(x.instant.value, |snaps|, x), DatedOf(snaps);
    var ranked := NewestFirst(d);
    NewestFirstDescending(d);
    NewestFirstKeepsItems(d);
    forall y | y in ranked ensures y.order != entry.order {
      assert y in multiset(ranked);
      assert y in d;
    }
    assert (snaps + [x])[..|snaps|] == snaps;
    assert DatedOf(snaps + [x]) == d + [entry];
    assert (d + [entry])[..|d|] == d;
  }

  /** Whichever branch of the loop ran, the heap holds the top of the longer list. */
  lemma HeapStep(snaps: seq<Snapshot>, x: Snapshot, kept: seq<Dated>, after: seq<Dated>)
    requires x.instant.Some? && HoldsTop(snaps, kept) && IsHeap(kept)
    requires var entry := Dated(x.instant.value, |snaps|, x);
             multiset(after) == (
               if |kept| < PREVIEW_LIMIT then multiset(kept) + multiset{entry}
               else if Below(kept[0], entry) then multiset(kept) - multiset{kept[0]} + multiset{entry}
               else multiset(kept))
    ensures HoldsTop(snaps + [x], after)
  {
    var entry := Dated(x.instant.value, |snaps|, x);
    var ranked := NewestFirst(DatedOf(snaps));
    RankStep(snaps, x);
    forall y | y in kept ensures !Below(y, kept[0]) {
      var i :| 0 <= i < |kept| && kept[i] == y;
      RootIsLeast(kept, i);
    }
    TopOn(entry, ranked, kept, after);
  }

  /** The same step on a ranking alone. */
  lemma TopOn(entry: Dated, ranked: seq<Dated>, kept: seq<Dated>, after: seq<Dated>)
    requires Descending(ranked) && forall y :: y in ranked ==> y.order != entry.order
    requires multiset(kept) == multiset(Take(ranked, PREVIEW_LIMIT))
    requires forall y :: y in kept ==> !Below(y, kept[0])
    requires multiset(after) == (
               if |kept| < PREVIEW_LIMIT then multiset(kept) + multiset{entry}
               else if Below(kept[0], entry) then multiset(kept) - multiset{kept[0]} + multiset{entry}
               else multiset(kept))
    ensures multiset(after) == multiset(Take(Insert(entry, ranked), PREVIEW_LIMIT))
  {
    assert ranked[..|ranked|] == ranked;
    TopStep(entry, ranked, kept, PREVIEW_LIMIT);
    if |ranked| < PREVIEW_LIMIT {
      InsertKeepsItems(entry, ranked);
    }
  }

  /** Ranking the heap content gives the first ten of the full ranking. */
  lemma RankedHeap(snaps: seq<Snapshot>, kept: seq<Dated>)
    requires HoldsTop(snaps, kept)
    ensures NewestFirst(kept) == Take(NewestFirst(DatedOf(snaps)), PREVIEW_LIMIT)
  {
    var d := DatedOf(snaps);
    NewestFirstDescending(d);
    var top := Take(NewestFirst(d), PREVIEW_LIMIT);
    assert DistinctOrders(kept) by {
      NewestFirstKeepsItems(d);
      SameItemsDistinct(d, NewestFirst(d));
      SameItemsDistinct(top, kept);
    }
    NewestFirstDescending(kept);
    NewestFirstKeepsItems(kept);
    RankingIsUnique(NewestFirst(kept), top);
  }

  lemma TopSize(snaps: seq<Snapshot>, kept: seq<Dated>)
    requires HoldsTop(snaps, kept)
    ensures |kept| == |Take(NewestFirst(DatedOf(snaps)), PREVIEW_LIMIT)| <= PREVIEW_LIMIT
  {
    assert |multiset(kept)| == |kept|;
  }

  /** Offer one more dated snapshot to the bounded heap. */
  method Retain(dated: Heap, heapItem: Dated, ghost snaps: seq<Snapshot>)
    requires dated.Valid() && HoldsTop(snaps, dated.items)
    requires heapItem.item.instant == Some(heapItem.instant) && heapItem.order == |snaps|
    modifies dated
    ensures dated.Valid() && HoldsTop(snaps + [heapItem.item], dated.items)
  {
    TopSize(snaps, dated.items);
    if |dated.items| < PREVIEW_LIMIT {
      dated.Push(heapItem);
    } else if Below(dated.items[0], heapItem) {
      dated.Replace(heapItem);
    }
    HeapStep(snaps, heapItem.item, old(dated.items), dated.items);
  }

  /** The running values of the pass, the heap apart. */
  datatype Running = Running(
    returnedCount: nat,
    lockedCount: nat,
    first: Option<Snapshot>,
    last: Option<Snapshot>,
    newest: Option<Snapshot>,
    oldest: Option<Snapshot>,
    undated: seq<Snapshot>)
  {
    /** The running extremes are dated snapshots. */
    predicate Dated() {
      (newest.Some? ==> newest.value.instant.Some?) && (oldest.Some? ==> oldest.value.instant.Some?)
    }

    /** One iteration of the loop, the heap apart. */
    function Observe(x: Snapshot): (r: Running)
      requires Dated()
      ensures r.Dated()
    {
      Running(
        returnedCount + 1,
        lockedCount + if x.locked == Some(true) then 1 else 0,
        if first.None? then Some(x) else first,
        Some(x),
        NewerOf(newest, x),
        OlderOf(oldest, x),
        if x.instant.None? && |undated| < PREVIEW_LIMIT then undated + [x] else undated)
    }
  }

  /** The running values once `snaps` have been seen. */
  function RunOver(snaps: seq<Snapshot>): (r: Running)
    ensures r.Dated()
  {
    if snaps == [] then Running(0, 0, None, None, None, None, [])
    else RunOver(snaps[..|snaps| - 1]).Observe(snaps[|snaps| - 1])
  }

  /** What the running values stand for once `snaps` have been seen. */
  ghost predicate Tracks(snaps: seq<Snapshot>, run: Running) {
    && run.returnedCount == |snaps| && run.lockedCount == LockedIn(snaps)
    && run.first == (if snaps == [] then None else Some(snaps[0]))
    && run.last == (if snaps == [] then None else Some(snaps[|snaps| - 1]))
    && run.Dated() && TracksNewest(snaps, run.newest) && TracksOldest(snaps, run.oldest)
    && run.undated == Take(UndatedOf(snaps), PREVIEW_LIMIT)
  }

  lemma TracksOn(snaps: seq<Snapshot>, run: Running, x: Snapshot)
    requires Tracks(snaps, run)
    ensures Tracks(snaps + [x], run.Observe(x))
  {
    Extend(snaps, x);
    NewestStep(snaps, x, run.newest);
    OldestStep(snaps, x, run.oldest);
  }

  lemma {:induction false} RunTracks(snaps: seq<Snapshot>)
    ensures Tracks(snaps, RunOver(snaps))
  {
    if snaps != [] {
      var front, x := snaps[..|snaps| - 1], snaps[|snaps| - 1];
      RunTracks(front);
      TracksOn(front, RunOver(front), x);
      assert front + [x] == snaps;
    }
  }

  lemma RunOn(snaps: seq<Snapshot>, x: Snapshot)
    ensures RunOver(snaps + [x]) == RunOver(snaps).Observe(x)
    ensures RunOver(snaps).returnedCount == |snaps|
  {
    RunTracks(snaps);
    assert (snaps + [x])[..|snaps|] == snaps;
  }

  /** The loop of the source: one pass over the payload items, of which it takes the mappings. */
  method Scan(items: seq<Option<Snapshot>>) returns (run: Running, dated: Heap)
    ensures fresh(dated)
    ensures run == RunOver(Present(items)) && HoldsTop(Present(items), dated.items)
  {
    run := Running(0, 0, None, None, None, None, []);
    dated := new Heap();
    ghost var snaps: seq<Snapshot> := [];
    for n := 0 to |items|
      invariant fresh(dated) && dated.Valid()
      invariant snaps == Present(items[..n])
      invariant run == RunOver(snaps) && HoldsTop(snaps, dated.items)
    {
      PresentOn(items, n);
      if items[n].Some? {
        var snapshot := items[n].value;
        RunOn(snaps, snapshot);
        if snapshot.instant.Some? {
          Retain(dated, Dated(snapshot.instant.value, run.returnedCount, snapshot), snaps);
        } else {
          UndatedKeepsTop(snaps, snapshot, dated.items);
        }
        run := run.Observe(snapshot);
        snaps := snaps + [snapshot];
      }
    }
    assert items[..|items|] == items;
  }

  lemma UndatedKeepsTop(snaps: seq<Snapshot>, x: Snapshot, kept: seq<Dated>)
    requires HoldsTop(snaps, kept) && x.instant.None?
    ensures HoldsTop(snaps + [x], kept)
  {
    Extend(snaps, x);
  }

  /** The result of `extract_snapshot_inventory` on the listed items and the
      collection total that the payload declares, if any. */
  method Extract(items: seq<Option<Snapshot>>, total: Option<nat>) returns (r: Summary)
    ensures var snaps := Present(items);
      && r.recent == Preview(snaps)
      && IsLatest(snaps, r.latest) && IsOldest(snaps, r.oldest)
      && r.returnedCount == |snaps| && r.lockedCount == LockedIn(snaps)
      && r.snapshotCount == (if total.Some? then total.value else |snaps|)
      && r.countFromTotal == total.Some?
      && (r.metadataTruncated <==> r.snapshotCount > |r.recent|)
      && (r.inventoryTruncated <==> r.metadataTruncated)
  {
    var run, dated := Scan(items);
    ghost var snaps := Present(items);
    RunTracks(snaps);
    var snapshotCount := if total.Some? then total.value else run.returnedCount;
    var newest := if run.newest.None? then run.first else run.newest;
    var oldest := if run.oldest.None? then run.last else run.oldest;
    RankedHeap(snaps, dated.items);
    PreviewLength(snaps);
    var preview := Items(NewestFirst(dated.items));
    PreviewParts(snaps, preview, run.undated);
    if preview == [] {
      preview := PublicAll(Take(run.undated, PREVIEW_LIMIT));
    } else if |preview| < PREVIEW_LIMIT {
      preview := preview + PublicAll(Take(run.undated, PREVIEW_LIMIT - |preview|));
    }
    r := Summary(snapshotCount, total.Some?, run.returnedCount, run.lockedCount, newest, oldest, preview,
                 snapshotCount > |preview|,
                 snapshotCount > if run.returnedCount < PREVIEW_LIMIT then run.returnedCount else PREVIEW_LIMIT);
  }

  /** How the derived lists grow with one more snapshot. */
  lemma Extend(snaps: seq<Snapshot>, x: Snapshot)
    ensures LockedIn(snaps + [x]) == LockedIn(snaps) + if x.locked == Some(true) then 1 else 0
    ensures UndatedOf(snaps + [x]) == UndatedOf(snaps) + if x.instant.None? then [x] else []
    ensures x.instant.None? ==> DatedOf(snaps + [x]) == DatedOf(snaps)
  {
    assert (snaps + [x])[..|snaps|] == snaps;
  }

  /** Filling the ranked heap up with retained undated snapshots gives the simple form. */
  lemma PreviewParts(snaps: seq<Snapshot>, ranked: seq<Snapshot>, undated: seq<Snapshot>)
    requires ranked == Items(Take(NewestFirst(DatedOf(snaps)), PREVIEW_LIMIT))
    requires undated == Take(UndatedOf(snaps), PREVIEW_LIMIT)
    ensures |ranked| <= PREVIEW_LIMIT
    ensures Preview(snaps) == ranked + PublicAll(Take(undated, PREVIEW_LIMIT - |ranked|))
  {
    var all := Items(NewestFirst(DatedOf(snaps)));
    var rest := PublicAll(UndatedOf(snaps));
    assert ranked == Take(all, PREVIEW_LIMIT);
    var room := PREVIEW_LIMIT - |ranked|;
    UndatedRoom(UndatedOf(snaps), undated, room);
    TakeParts(all, rest, PREVIEW_LIMIT);
  }

  lemma UndatedRoom(all: seq<Snapshot>, undated: seq<Snapshot>, room: nat)
    requires undated == Take(all, PREVIEW_LIMIT) && room <= PREVIEW_LIMIT
    ensures PublicAll(Take(undated, room)) == Take(PublicAll(all), room)
  {
    assert Take(undated, room) == Take(all, room);
  }

  lemma TakeParts<T>(a: seq<T>, b: seq<T>, k: nat)
    ensures Take(a + b, k) == Take(a, k) + Take(b, k - |Take(a, k)|)
  {
  }

  lemma Occurrences(q: seq<Dated>, a: nat)
    requires DistinctOrders(q) && a < |q|
    ensures multiset(q)[q[a]] == 1
  {
    assert q == q[..a] + [q[a]] + q[a + 1..];
    assert q[a] !in q[..a] && q[a] !in q[a + 1..];
  }

  lemma SameItemsDistinct(p: seq<Dated>, q: seq<Dated>)
    requires DistinctOrders(p) && multiset(p) == multiset(q)
    ensures DistinctOrders(q)
  {
    forall i, j | 0 <= i < j < |q| ensures q[i].order != q[j].order {
      assert q[i] in multiset(q) && q[j] in multiset(q);
      var a :| 0 <= a < |p| && p[a] == q[i];
      var b :| 0 <= b < |p| && p[b] == q[j];
      if a == b {
        Occurrences(p, a);
        Repeated(q, i, j);
      }
    }
  }

  lemma Repeated(q: seq<Dated>, i: nat, j: nat)
    requires i < j < |q| && q[i] == q[j]
    ensures multiset(q)[q[i]] >= 2
  {
    assert q == q[..j] + q[j..];
    assert q[..j][i] == q[i] && q[j..][0] == q[i];
    assert q[i] in multiset(q[..j]) && q[i] in multiset(q[j..]);
  }
}
