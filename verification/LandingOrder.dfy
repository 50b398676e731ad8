/** What the documents are in every run, late requests included: for each target a list of turns,
    each of which read, changed and wrote what the turns before it on the list had made. */
module LandingOrder {
  import opened Prelude
  import opened SettingsWrite
  import opened WriteProtocol
  import opened SerialWrites
  import opened WriteSteps
  import opened SerialOrder

  // ---------------------------------------------------------------- the counted turns

  /** The places are places of turns. */
  predicate Places(turns: seq<Turn>, list: seq<nat>) {
    forall j :: j in list ==> j < |turns|
  }

  /** One counted turn done alone on a document. */
  function ApplyPlace(dev: Device, key: string, d: Document, t: Turn): Document {
    match t.effect
    case None => d
    case Some(verb) => Changed(dev, key, d, t.update, verb)
  }

  /** The listed turns done one after another. */
  function FoldList(dev: Device, key: string, d: Document, turns: seq<Turn>, list: seq<nat>): Document
    requires Places(turns, list)
  {
    if list == [] then d
    else
      var front, j := list[..|list| - 1], list[|list| - 1];
      assert j in list && forall i :: i in front ==> i in list;
      ApplyPlace(dev, key, FoldList(dev, key, d, turns, front), turns[j])
  }

  /** Different turns of the key that took effect. */
  ghost predicate Listed(turns: seq<Turn>, key: string, list: seq<nat>) {
    NoDup(list) && forall j :: j in list ==> j < |turns| && turns[j].key == key && turns[j].effect.Some?
  }

  /** What turn `k` read is what the turns it has seen had made. */
  ghost predicate SeenOk(dev: Device, start: map<string, Document>, turns: seq<Turn>, k: nat)
    requires k < |turns|
  {
    var key, seen := turns[k].key, turns[k].seen;
    turns[k].read.Some? ==>
      && Listed(turns, key, seen) && (forall j :: j in seen ==> j < k)
      && (key in start ==> turns[k].read.value == dev.view(key, FoldList(dev, key, start[key], turns, seen)))
  }

  /** Every document is made by the turns counted for it. */
  ghost predicate Made(dev: Device, start: map<string, Document>, s: System) {
    && s.docs.Keys == start.Keys
    && (forall key :: Listed(s.turns, key, Counted(s, key)))
    && (forall key :: key in start ==> s.docs[key] == FoldList(dev, key, start[key], s.turns, Counted(s, key)))
    && (forall k :: 0 <= k < |s.turns| ==> SeenOk(dev, start, s.turns, k))
  }

  /** Turns that took effect stay as they are. */
  ghost predicate Settle(turns: seq<Turn>, after: seq<Turn>) {
    && |turns| <= |after|
    && forall j :: 0 <= j < |turns| ==>
         && after[j].key == turns[j].key
         && (turns[j].effect.Some? ==> after[j].update == turns[j].update && after[j].effect == turns[j].effect)
  }

  lemma {:induction false} FoldSettled(dev: Device, key: string, d: Document, turns: seq<Turn>, after: seq<Turn>,
                                       list: seq<nat>)
    requires Listed(turns, key, list) && Settle(turns, after)
    ensures Listed(after, key, list)
    ensures FoldList(dev, key, d, turns, list) == FoldList(dev, key, d, after, list)
  {
    if list != [] {
      var front, j := list[..|list| - 1], list[|list| - 1];
      assert list == front + [j];
      assert j in list && forall k :: k in front ==> k in list;
      FoldSettled(dev, key, d, turns, after, front);
    }
  }

  lemma SeenSettled(dev: Device, start: map<string, Document>, turns: seq<Turn>, after: seq<Turn>, k: nat)
    requires k < |turns| && Settle(turns, after) && SeenOk(dev, start, turns, k)
    requires after[k].read == turns[k].read && after[k].seen == turns[k].seen
    ensures SeenOk(dev, start, after, k)
  {
    if turns[k].read.Some? {
      var key := turns[k].key;
      if key in start {
        FoldSettled(dev, key, start[key], turns, after, turns[k].seen);
      }
    }
  }

  // ---------------------------------------------------------------- every step

  /** A step that changes no document. */
  lemma QuietMakes(dev: Device, start: map<string, Document>, s: System, t: System)
    requires Made(dev, start, s) && Quiet(dev, s, t)
    ensures Made(dev, start, t)
  {
    forall key ensures Listed(t.turns, key, Counted(t, key)) {
      assert Listed(s.turns, key, Counted(s, key));
    }
    forall key | key in start ensures t.docs[key] == FoldList(dev, key, start[key], t.turns, Counted(t, key)) {
      FoldSettled(dev, key, start[key], s.turns, t.turns, Counted(s, key));
    }
    forall k | 0 <= k < |t.turns| ensures SeenOk(dev, start, t.turns, k) {
      QuietSeen(dev, start, s, t, k);
    }
  }

  /** What a turn has read stays what the turns counted before it had made. */
  lemma QuietSeen(dev: Device, start: map<string, Document>, s: System, t: System, k: nat)
    requires Made(dev, start, s) && Quiet(dev, s, t) && k < |t.turns|
    requires forall key :: Listed(t.turns, key, Counted(t, key))
    requires forall key :: key in start ==> t.docs[key] == FoldList(dev, key, start[key], t.turns, Counted(t, key))
    ensures SeenOk(dev, start, t.turns, k)
  {
    assert Remembers(dev, s, t, k);
    if k < |s.turns| && t.turns[k].read == s.turns[k].read && t.turns[k].seen == s.turns[k].seen {
      SeenSettled(dev, start, s.turns, t.turns, k);
    } else if t.turns[k].read.Some? {
      assert Listed(t.turns, t.turns[k].key, Counted(t, t.turns[k].key));
    }
  }

  /** Appending a turn to a list. */
  lemma CountOne(dev: Device, key: string, d: Document, turns: seq<Turn>, list: seq<nat>, j: nat)
    requires Listed(turns, key, list) && j < |turns| && turns[j].key == key && turns[j].effect.Some? && j !in list
    ensures Listed(turns, key, list + [j])
    ensures FoldList(dev, key, d, turns, list + [j])
         == Changed(dev, key, FoldList(dev, key, d, turns, list), turns[j].update, turns[j].effect.value)
  {
    assert (list + [j])[..|list|] == list;
  }

  /** The turns counted for its key once a request takes effect. */
  lemma LandCounts(dev: Device, start: map<string, Document>, s: System, t: System, j: nat, verb: Method)
    returns (from: seq<nat>)
    requires Made(dev, start, s) && Lands(dev, s, t, j, verb)
    ensures from == if verb == Put then s.turns[j].seen else Counted(s, s.turns[j].key)
    ensures Listed(s.turns, s.turns[j].key, from) && j !in from && Counted(t, s.turns[j].key) == from + [j]
    ensures Settle(s.turns, t.turns) && Listed(t.turns, s.turns[j].key, from + [j])
  {
    var key := s.turns[j].key;
    assert SeenOk(dev, start, s.turns, j) && Listed(s.turns, key, Counted(s, key));
    from := if verb == Put then s.turns[j].seen else Counted(s, key);
    assert forall i :: i in from + [j] <==> i in from || i == j;
  }

  /** A request takes effect, in time or late. */
  lemma LandMakes(dev: Device, start: map<string, Document>, s: System, t: System, j: nat, verb: Method)
    requires Made(dev, start, s) && Lands(dev, s, t, j, verb)
    ensures Made(dev, start, t)
  {
    var key := s.turns[j].key;
    var from := LandCounts(dev, start, s, t, j, verb);
    forall k | 0 <= k < |t.turns| ensures SeenOk(dev, start, t.turns, k) {
      SeenSettled(dev, start, s.turns, t.turns, k);
    }
    forall other ensures Listed(t.turns, other, Counted(t, other)) {
      assert Listed(s.turns, other, Counted(s, other));
    }
    forall other | other in start
      ensures t.docs[other] == FoldList(dev, other, start[other], t.turns, Counted(t, other))
    {
      if other == key {
        LandDocument(dev, start, s, t, j, verb, from);
      } else {
        FoldSettled(dev, other, start[other], s.turns, t.turns, Counted(s, other));
      }
    }
  }

  lemma LandDocument(dev: Device, start: map<string, Document>, s: System, t: System, j: nat, verb: Method,
                     from: seq<nat>)
    requires Made(dev, start, s) && Lands(dev, s, t, j, verb) && s.turns[j].key in start
    requires from == if verb == Put then s.turns[j].seen else Counted(s, s.turns[j].key)
    requires Settle(s.turns, t.turns) && Listed(s.turns, s.turns[j].key, from) && j !in from
    requires Counted(t, s.turns[j].key) == from + [j] && Listed(t.turns, s.turns[j].key, from + [j])
    ensures var key := s.turns[j].key; t.docs[key] == FoldList(dev, key, start[key], t.turns, Counted(t, key))
  {
    var key := s.turns[j].key;
    assert SeenOk(dev, start, s.turns, j);
    FoldSettled(dev, key, start[key], s.turns, t.turns, from);
    CountOne(dev, key, start[key], t.turns, from, j);
  }

  /** Every step of any interleaving keeps the documents made of the turns counted for them. */
  lemma NextMakes(dev: Device, start: map<string, Document>, s: System, e: Event)
    requires Orderly(dev, s) && Made(dev, start, s)
    ensures Made(dev, start, Next(dev, s, e))
  {
    var t := Next(dev, s, e);
    NextSteps(dev, s, e);
    if Quiet(dev, s, t) {
      QuietMakes(dev, start, s, t);
    } else {
      var j: nat, verb :| Lands(dev, s, t, j, verb);
      LandMakes(dev, start, s, t, j, verb);
    }
  }

  lemma {:induction false} RunMakes(dev: Device, start: map<string, Document>, events: seq<Event>)
    ensures Made(dev, start, Run(dev, Start(start), events))
  {
    if events != [] {
      var front := events[..|events| - 1];
      RunMakes(dev, start, front);
      RunKeeps(dev, start, front);
      NextMakes(dev, start, Run(dev, Start(start), front), events[|events| - 1]);
    }
  }

  /** Whatever took effect since its turn had read, a PUT leaves what that turn had read, with its
      own change: a request that comes late in between is written over. */
  lemma PutReplaces(dev: Device, start: map<string, Document>, s: System, t: System, j: nat)
    requires Made(dev, start, s) && Lands(dev, s, t, j, Put) && s.turns[j].key in start
    ensures Listed(s.turns, s.turns[j].key, s.turns[j].seen) && t.docs.Keys == start.Keys
    ensures var turn, key := s.turns[j], s.turns[j].key;
      && t.docs[key] == Changed(dev, key, FoldList(dev, key, start[key], s.turns, turn.seen), turn.update, Put)
      && (forall i :: i in Counted(t, key) ==> i == j || i in turn.seen)
  {
    assert SeenOk(dev, start, s.turns, j);
  }

  // ---------------------------------------------------------------- acknowledged turns

  predicate Increasing(list: seq<nat>) {
    forall a, b :: 0 <= a < b < |list| ==> list[a] < list[b]
  }

  lemma IncreasingOne(list: seq<nat>, j: nat)
    requires Increasing(list) && forall i :: i in list ==> i < j
    ensures Increasing(list + [j])
  {
    forall a, b | 0 <= a < b < |list + [j]| ensures (list + [j])[a] < (list + [j])[b] {
      if b == |list| {
        assert list[a] in list;
      }
    }
  }

  /** The list is in lock order and holds every acknowledged turn of the key before `end`. */
  ghost predicate Complete(s: System, key: string, list: seq<nat>, end: nat) {
    && Increasing(list)
    && forall j :: 0 <= j < end && j < |s.turns| && s.turns[j].key == key && Acked(s, j) ==> j in list
  }

  /** So are the turns counted for every key, and those that each turn has seen. */
  ghost predicate InOrder(s: System) {
    && (forall key :: Complete(s, key, Counted(s, key), |s.turns|))
    && (forall k :: 0 <= k < |s.turns| && s.turns[k].read.Some? ==> Complete(s, s.turns[k].key, s.turns[k].seen, k))
  }

  /** A step that changes no document. */
  lemma QuietOrder(dev: Device, s: System, t: System)
    requires InOrder(s) && Quiet(dev, s, t)
    ensures InOrder(t)
  {
    forall key ensures Complete(t, key, Counted(t, key), |t.turns|) {
      assert Complete(s, key, Counted(s, key), |s.turns|);
    }
    forall k | 0 <= k < |t.turns| && t.turns[k].read.Some? ensures Complete(t, t.turns[k].key, t.turns[k].seen, k) {
      assert Remembers(dev, s, t, k);
      if k < |s.turns| && t.turns[k].read == s.turns[k].read && t.turns[k].seen == s.turns[k].seen {
        assert Complete(s, s.turns[k].key, s.turns[k].seen, k);
      } else {
        assert Complete(s, t.turns[k].key, Counted(s, t.turns[k].key), |s.turns|);
      }
    }
  }

  /** An acknowledged turn took effect. */
  lemma AckedEffect(dev: Device, s: System, k: nat)
    requires Orderly(dev, s) && Acked(s, k)
    ensures s.turns[k].effect.Some?
  {
    assert TurnOk(dev, s, s.turns[k]);
  }

  /** What turn `j` saw, and what is counted if no later turn has changed the target, is of
      earlier turns. */
  lemma CountedBefore(dev: Device, start: map<string, Document>, s: System, j: nat, from: seq<nat>)
    requires Made(dev, start, s) && j < |s.turns| && s.turns[j].read.Some? && s.turns[j].effect.None?
    requires from == s.turns[j].seen || (from == Counted(s, s.turns[j].key) && !LaterEffect(s.turns, j))
    ensures forall i :: i in from ==> i < j
  {
    assert SeenOk(dev, start, s.turns, j) && Listed(s.turns, s.turns[j].key, Counted(s, s.turns[j].key));
  }

  /** A request takes effect before any later turn has changed its target. */
  lemma LandOrder(dev: Device, start: map<string, Document>, s: System, t: System, j: nat, verb: Method)
    requires Orderly(dev, s) && Made(dev, start, s) && InOrder(s) && Lands(dev, s, t, j, verb)
    requires !LaterEffect(s.turns, j)
    ensures InOrder(t)
  {
    var key := s.turns[j].key;
    var from := if verb == Put then s.turns[j].seen else Counted(s, key);
    CountedBefore(dev, start, s, j, from);
    IncreasingOne(from, j);
    assert Complete(s, key, Counted(s, key), |s.turns|) && Complete(s, key, s.turns[j].seen, j);
    forall k | 0 <= k < |t.turns| && t.turns[k].key == key && Acked(t, k) ensures k in from + [j] {
      if k != j {
        AckedEffect(dev, s, k);
      }
    }
    forall other ensures Complete(t, other, Counted(t, other), |t.turns|) {
      assert Complete(s, other, Counted(s, other), |s.turns|);
    }
    forall k | 0 <= k < |t.turns| && t.turns[k].read.Some? ensures Complete(t, t.turns[k].key, t.turns[k].seen, k) {
      assert Complete(s, s.turns[k].key, s.turns[k].seen, k);
    }
  }

  /** Every step keeps the order, unless a late request takes effect after a later turn has
      changed its target. */
  lemma NextOrder(dev: Device, start: map<string, Document>, s: System, e: Event)
    requires Orderly(dev, s) && Made(dev, start, s) && InOrder(s) && !Next(dev, s, e).overtaken
    ensures InOrder(Next(dev, s, e))
  {
    var t := Next(dev, s, e);
    NextSteps(dev, s, e);
    if Quiet(dev, s, t) {
      QuietOrder(dev, s, t);
    } else {
      var j: nat, verb :| Lands(dev, s, t, j, verb);
      LandOrder(dev, start, s, t, j, verb);
    }
  }

  lemma {:induction false} RunOrder(dev: Device, start: map<string, Document>, events: seq<Event>)
    requires !Run(dev, Start(start), events).overtaken
    ensures InOrder(Run(dev, Start(start), events))
  {
    if events != [] {
      var front := events[..|events| - 1];
      RunKeeps(dev, start, front);
      RunMakes(dev, start, front);
      CrossedStays(dev, Run(dev, Start(start), front), events[|events| - 1]);
      RunOrder(dev, start, front);
      NextOrder(dev, start, Run(dev, Start(start), front), events[|events| - 1]);
    }
  }

  // ---------------------------------------------------------------- every run

  /** The call of the turn ended without knowing what became of its request. */
  predicate LeftBehind(s: System, j: nat)
    requires j < |s.turns|
  {
    var i := s.turns[j].task;
    i < |s.tasks| && (s.tasks[i].phase == Done(Ended(Ambiguous)) || s.tasks[i].phase == Done(Cancelled))
  }

  /** In every run, whatever requests take effect late: each document is made by the turns counted
      for it, done one after another; they are different turns of its key that took effect. While
      no request takes effect after a later turn has changed its target, they stand in lock order
      and hold every turn that took effect, but for ambiguous or cancelled calls whose effect a
      later write replaced. */
  lemma EveryRun(dev: Device, start: map<string, Document>, events: seq<Event>, s: System, key: string)
    requires s == Run(dev, Start(start), events) && key in start
    ensures s.docs.Keys == start.Keys && Listed(s.turns, key, Counted(s, key))
    ensures s.docs[key] == FoldList(dev, key, start[key], s.turns, Counted(s, key))
    ensures !s.overtaken ==>
              && Increasing(Counted(s, key))
              && forall j :: 0 <= j < |s.turns| && s.turns[j].key == key && s.turns[j].effect.Some? ==>
                   j in Counted(s, key) || LeftBehind(s, j)
  {
    RunKeeps(dev, start, events);
    RunMakes(dev, start, events);
    assert Listed(s.turns, key, Counted(s, key));
    if !s.overtaken {
      RunOrder(dev, start, events);
      assert Complete(s, key, Counted(s, key), |s.turns|);
      forall j | 0 <= j < |s.turns| && s.turns[j].effect.Some? ensures Acked(s, j) || LeftBehind(s, j) {
        assert TurnOk(dev, s, s.turns[j]);
      }
    }
  }

  /** Appending a turn keeps the order exactly when it is later than those before it. */
  lemma IncreasingExactly(list: seq<nat>, j: nat)
    requires Increasing(list) && j !in list
    ensures Increasing(list + [j]) <==> forall i :: i in list ==> i < j
  {
    if forall i :: i in list ==> i < j {
      IncreasingOne(list, j);
    } else {
      var i :| i in list && !(i < j);
      var a :| 0 <= a < |list| && list[a] == i;
      assert (list + [j])[a] == i && (list + [j])[|list|] == j;
    }
  }

  /** A turn of the key was acknowledged and its effect is not counted. */
  predicate Lost(s: System, key: string, k: nat) {
    k < |s.turns| && s.turns[k].key == key && Acked(s, k) && k !in Counted(s, key)
  }

  predicate LaterAck(s: System, j: nat, k: nat)
    requires j < |s.turns|
  {
    j < k < |s.turns| && s.turns[k].key == s.turns[j].key && Acked(s, k)
  }

  /** A request that takes effect late, after a run without an overtaking one: it loses an
      acknowledged turn exactly when it is a PUT and a later turn of its key was acknowledged,
      and it leaves the lock order exactly when it is a DELETE and a later turn is counted. */
  lemma LateLosesExactly(dev: Device, start: map<string, Document>, events: seq<Event>, s: System, j: nat, t: System)
    requires s == Run(dev, Start(start), events) && !s.overtaken && j < |s.turns|
    requires s.turns[j].open.Some? && s.turns[j].read.Some? && t == Next(dev, s, Late(j))
    ensures var key, verb := s.turns[j].key, s.turns[j].open.value;
      && ((exists k: nat :: Lost(t, key, k)) <==> verb == Put && exists k: nat :: LaterAck(s, j, k))
      && (Increasing(Counted(t, key)) <==> verb == Put || forall i :: i in Counted(s, key) ==> i < j)
  {
    RunKeeps(dev, start, events);
    RunMakes(dev, start, events);
    RunOrder(dev, start, events);
    LateLands(dev, s, j);
    LateAcks(dev, start, s, j, t);
    var key := s.turns[j].key;
    assert Complete(s, key, Counted(s, key), |s.turns|) && Complete(s, key, s.turns[j].seen, j);
    CountedBefore(dev, start, s, j, s.turns[j].seen);
    assert Listed(s.turns, key, Counted(s, key));
    IncreasingExactly(if s.turns[j].open.value == Put then s.turns[j].seen else Counted(s, key), j);
  }

  lemma LateAcks(dev: Device, start: map<string, Document>, s: System, j: nat, t: System)
    requires Orderly(dev, s) && Made(dev, start, s) && InOrder(s) && j < |s.turns|
    requires s.turns[j].open.Some? && s.turns[j].read.Some? && t == LandLate(dev, s, j)
    ensures var key, verb := s.turns[j].key, s.turns[j].open.value;
      (exists k: nat :: Lost(t, key, k)) <==> verb == Put && exists k: nat :: LaterAck(s, j, k)
  {
    var key, verb := s.turns[j].key, s.turns[j].open.value;
    assert TurnOk(dev, s, s.turns[j]) && !Acked(s, j);
    CountedBefore(dev, start, s, j, s.turns[j].seen);
    assert Complete(s, key, Counted(s, key), |s.turns|) && Complete(s, key, s.turns[j].seen, j);
    if verb == Put {
      forall k: nat ensures Lost(t, key, k) <==> LaterAck(s, j, k) {
      }
    }
  }
}
