/** What the inventory summary shows, said without the sorting and the heap. */
module SummaryRanking {
  import opened Prelude
  import opened PreviewHeap
  import opened InventorySummary

  // ---------------------------------------------------------------- the order of the preview

  /** Snapshot `i` of the payload is shown before snapshot `j`: a dated one before an undated one, of
      two dated ones the newer, and otherwise the one that comes first in the payload. */
  predicate ShownBefore(snaps: seq<Snapshot>, i: nat, j: nat)
    requires i < |snaps| && j < |snaps|
  {
    match (snaps[i].instant, snaps[j].instant)
    case (Some(a), Some(b)) => a > b || (a == b && i < j)
    case (Some(_), None) => true
    case (None, Some(_)) => false
    case (None, None) => i < j
  }

  /** The places are of snapshots, each shown before those after it. */
  ghost predicate InOrder(snaps: seq<Snapshot>, places: seq<nat>) {
    && (forall k :: 0 <= k < |places| ==> places[k] < |snaps|)
    && (forall k, l :: 0 <= k < l < |places| ==> ShownBefore(snaps, places[k], places[l]))
  }

  /** A published entry: everything of the snapshot but its parsed time. */
  predicate Shows(entry: Snapshot, snapshot: Snapshot) {
    && entry.id == snapshot.id && entry.name == snapshot.name && entry.description == snapshot.description
    && entry.locked == snapshot.locked && entry.createdAt == snapshot.createdAt && entry.instant.None?
  }

  /** The entries show the snapshots at these places: the ten that come first in the order, or all. */
  ghost predicate IsPreviewOf(snaps: seq<Snapshot>, recent: seq<Snapshot>, places: seq<nat>) {
    && |recent| == |places| == (if |snaps| < 10 then |snaps| else 10) && InOrder(snaps, places)
    && (forall k :: 0 <= k < |places| ==> Shows(recent[k], snaps[places[k]]))
    && (forall i, k :: 0 <= i < |snaps| && i !in places && 0 <= k < |places| ==> ShownBefore(snaps, places[k], i))
  }

  // ---------------------------------------------------------------- all places in that order

  function Orders(d: seq<Dated>): (r: seq<nat>)
    ensures |r| == |d| && forall i :: 0 <= i < |d| ==> r[i] == d[i].order
  {
    seq(|d|, i requires 0 <= i < |d| => d[i].order)
  }

  /** The places of the undated snapshots. */
  function UndatedPlaces(snaps: seq<Snapshot>): (r: seq<nat>)
    ensures |r| == |UndatedOf(snaps)|
    ensures forall k :: 0 <= k < |r| ==>
              r[k] < |snaps| && snaps[r[k]] == UndatedOf(snaps)[k] && snaps[r[k]].instant.None?
    ensures forall k, l :: 0 <= k < l < |r| ==> r[k] < r[l]
  {
    if snaps == [] then []
    else
      var front := UndatedPlaces(snaps[..|snaps| - 1]);
      if snaps[|snaps| - 1].instant.None? then front + [|snaps| - 1] else front
  }

  lemma {:induction false} EveryUndatedPlace(snaps: seq<Snapshot>, i: nat)
    requires i < |snaps| && snaps[i].instant.None?
    ensures i in UndatedPlaces(snaps)
  {
    var front := snaps[..|snaps| - 1];
    if i < |front| {
      EveryUndatedPlace(front, i);
      assert i in UndatedPlaces(front);
      assert UndatedPlaces(snaps) == UndatedPlaces(front)
          || UndatedPlaces(snaps) == UndatedPlaces(front) + [|snaps| - 1];
    } else {
      assert UndatedPlaces(snaps)[|UndatedPlaces(front)|] == i;
    }
  }

  lemma {:induction false} EveryDatedPlace(snaps: seq<Snapshot>, i: nat)
    requires i < |snaps| && snaps[i].instant.Some?
    ensures exists d :: d in DatedOf(snaps) && d.order == i
  {
    var front := snaps[..|snaps| - 1];
    if i < |front| {
      EveryDatedPlace(front, i);
      var d :| d in DatedOf(front) && d.order == i;
      assert DatedOf(snaps) == DatedOf(front) || DatedOf(snaps) == DatedOf(front) + [DatedOf(snaps)[|DatedOf(front)|]];
      assert d in DatedOf(snaps);
    } else {
      var d := Dated(snaps[i].instant.value, i, snaps[i]);
      assert DatedOf(snaps) == DatedOf(front) + [d];
      assert d in DatedOf(snaps);
    }
  }

  function AllPlaces(snaps: seq<Snapshot>): seq<nat> {
    Orders(NewestFirst(DatedOf(snaps))) + UndatedPlaces(snaps)
  }

  /** What is known of a ranked dated snapshot. */
  lemma RankedPlace(snaps: seq<Snapshot>, k: nat)
    requires k < |NewestFirst(DatedOf(snaps))|
    ensures var d := NewestFirst(DatedOf(snaps))[k];
      d.order < |snaps| && snaps[d.order] == d.item && d.item.instant == Some(d.instant)
  {
    var dated := DatedOf(snaps);
    var d := NewestFirst(dated)[k];
    NewestFirstKeepsItems(dated);
    assert d in multiset(NewestFirst(dated));
    assert d in dated;
  }

  lemma AllInOrder(snaps: seq<Snapshot>)
    ensures InOrder(snaps, AllPlaces(snaps))
  {
    var dated, n := NewestFirst(DatedOf(snaps)), |DatedOf(snaps)|;
    NewestFirstDescending(DatedOf(snaps));
    forall k | 0 <= k < |AllPlaces(snaps)|
      ensures AllPlaces(snaps)[k] < |snaps| && (k < n <==> snaps[AllPlaces(snaps)[k]].instant.Some?)
      ensures k < n ==> snaps[AllPlaces(snaps)[k]].instant == Some(dated[k].instant)
    {
      if k < n {
        RankedPlace(snaps, k);
      }
    }
    forall k, l | 0 <= k < l < |AllPlaces(snaps)| ensures ShownBefore(snaps, AllPlaces(snaps)[k], AllPlaces(snaps)[l]) {
      if l < n {
        assert Below(dated[l], dated[k]);
      } else if k >= n {
        assert UndatedPlaces(snaps)[k - n] < UndatedPlaces(snaps)[l - n];
      }
    }
  }

  lemma EveryPlace(snaps: seq<Snapshot>, i: nat)
    requires i < |snaps|
    ensures i in AllPlaces(snaps)
  {
    if snaps[i].instant.None? {
      EveryUndatedPlace(snaps, i);
    } else {
      EveryDatedPlace(snaps, i);
      RankedSomewhere(DatedOf(snaps), i);
    }
  }

  lemma RankedSomewhere(dated: seq<Dated>, i: nat)
    requires exists d :: d in dated && d.order == i
    ensures i in Orders(NewestFirst(dated))
  {
    var d :| d in dated && d.order == i;
    NewestFirstKeepsItems(dated);
    assert d in multiset(NewestFirst(dated));
    var k :| 0 <= k < |NewestFirst(dated)| && NewestFirst(dated)[k] == d;
    assert Orders(NewestFirst(dated))[k] == i;
  }

  // ---------------------------------------------------------------- the preview

  lemma EntriesShow(snaps: seq<Snapshot>, k: nat)
    requires k < |AllPlaces(snaps)| && AllPlaces(snaps)[k] < |snaps|
    ensures var entries := Items(NewestFirst(DatedOf(snaps))) + PublicAll(UndatedOf(snaps));
      k < |entries| && Shows(entries[k], snaps[AllPlaces(snaps)[k]])
  {
    var dated, undated := NewestFirst(DatedOf(snaps)), UndatedOf(snaps);
    if k < |dated| {
      RankedPlace(snaps, k);
      assert AllPlaces(snaps)[k] == Orders(dated)[k] && (Items(dated) + PublicAll(undated))[k] == Items(dated)[k];
    } else {
      assert AllPlaces(snaps)[k] == UndatedPlaces(snaps)[k - |dated|];
      assert (Items(dated) + PublicAll(undated))[k] == PublicAll(undated)[k - |dated|];
    }
  }

  /** The preview shows the snapshots that come first in that order: newest first, ties and undated
      ones in payload order, dated ones ahead, ten of them or all. */
  lemma PreviewIsRanked(snaps: seq<Snapshot>)
    ensures exists places :: IsPreviewOf(snaps, Preview(snaps), places)
  {
    var all, recent := AllPlaces(snaps), Preview(snaps);
    PreviewLength(snaps);
    AllInOrder(snaps);
    var places := all[..|recent|];
    forall k | 0 <= k < |places| ensures Shows(recent[k], snaps[places[k]]) {
      EntriesShow(snaps, k);
    }
    forall i, k | 0 <= i < |snaps| && i !in places && 0 <= k < |places| ensures ShownBefore(snaps, places[k], i) {
      EveryPlace(snaps, i);
      var l :| 0 <= l < |all| && all[l] == i;
      assert all[l] !in all[..|recent|];
      assert ShownBefore(snaps, all[k], all[l]);
    }
    assert IsPreviewOf(snaps, recent, places);
  }

  // ---------------------------------------------------------------- counts

  /** The places of the locked snapshots. */
  function LockedPlaces(snaps: seq<Snapshot>): set<nat> {
    set i | 0 <= i < |snaps| && snaps[i].locked == Some(true)
  }

  lemma {:induction false} LockedCounted(snaps: seq<Snapshot>)
    ensures LockedIn(snaps) == |LockedPlaces(snaps)|
  {
    if snaps == [] {
      assert LockedPlaces(snaps) == {};
    } else {
      var front, n := snaps[..|snaps| - 1], |snaps| - 1;
      LockedCounted(front);
      assert LockedPlaces(snaps) == LockedPlaces(front) + if snaps[n].locked == Some(true) then {n} else {};
    }
  }
}
