/** The time budget that the optional refreshers of one poll share. */
module OptionalBudget {

  function Min(a: real, b: real): real {
    if a <= b then a else b
  }

  /** A share of what is left: `max(0, left) / waiting`. */
  function Share(left: real, waiting: nat): real
    requires waiting > 0
  {
    (if left < 0.0 then 0.0 else left) / (waiting as real)
  }

  /** The budgets granted in turn when refresher `i` would need `needs[i]` seconds, is
      stopped at its budget, and `left` seconds remain. */
  function Budgets(needs: seq<real>, left: real): (r: seq<real>)
    ensures |r| == |needs|
  {
    if needs == [] then []
    else
      var budget := Share(left, |needs|);
      [budget] + Budgets(needs[1..], left - Min(needs[0], budget))
  }

  /** The time used under given budgets. */
  function Used(needs: seq<real>, budgets: seq<real>): real
    requires |needs| == |budgets|
  {
    if needs == [] then 0.0 else Min(needs[0], budgets[0]) + Used(needs[1..], budgets[1..])
  }

  lemma ShareBound(left: real, n: real, share: real)
    requires n > 0.0 && share * n <= left
    ensures left / n >= share
  {
    var q := left / n;
    assert q * n == left;
    if q < share {
      assert (share - q) * n > 0.0;
    }
  }

  /** Using at most one share leaves the next share at least as large. */
  lemma SharesGrow(left: real, waiting: nat, used: real)
    requires waiting > 1 && 0.0 <= left && 0.0 <= used <= Share(left, waiting)
    ensures left - used >= 0.0
    ensures Share(left - used, waiting - 1) >= Share(left, waiting)
  {
    var share, n := Share(left, waiting), waiting as real;
    assert share * n == left;
    assert share * (n - 1.0) == left - share;
    ShareBound(left - used, n - 1.0, share);
  }

  lemma ShareWithin(left: real, waiting: nat)
    requires waiting > 0 && left >= 0.0
    ensures 0.0 <= Share(left, waiting) <= left
  {
    var share, n := Share(left, waiting), waiting as real;
    ShareBound(left, n, 0.0);
    assert share * n == left;
    MulNonNegative(share, n - 1.0);
  }

  lemma MulNonNegative(a: real, b: real)
    requires a >= 0.0 && b >= 0.0
    ensures a * b >= 0.0
  {
  }

  /** However much earlier refreshers use, the total stays within the time left, every
      refresher is granted at least an equal share, and budgets never shrink. */
  lemma {:induction false} FairBudgets(needs: seq<real>, left: real)
    requires left >= 0.0 && forall i :: 0 <= i < |needs| ==> needs[i] >= 0.0
    ensures var budgets := Budgets(needs, left);
      && 0.0 <= Used(needs, budgets) <= left
      && (forall i :: 0 <= i < |needs| ==> budgets[i] >= Share(left, |needs|) >= 0.0)
      && (forall i, j :: 0 <= i <= j < |needs| ==> budgets[i] <= budgets[j])
  {
    if needs != [] {
      var budget := Share(left, |needs|);
      var used := Min(needs[0], budget);
      ShareWithin(left, |needs|);
      if |needs| > 1 {
        SharesGrow(left, |needs|, used);
      }
      FairBudgets(needs[1..], left - used);
      var rest := Budgets(needs[1..], left - used);
      forall i, j | 0 <= i <= j < |needs| ensures ([budget] + rest)[i] <= ([budget] + rest)[j] {
        if 0 == i < j {
          assert rest[j - 1] >= Share(left - used, |needs| - 1) >= budget;
        }
      }
      forall i | 0 <= i < |needs| ensures ([budget] + rest)[i] >= budget {
        if i > 0 {
          assert rest[i - 1] >= Share(left - used, |needs| - 1) >= budget;
        }
      }
    }
  }

  /** A refresher that fits an equal share is never stopped, whatever the others do. */
  lemma ModestRefreshersFinish(needs: seq<real>, timeout: real, i: nat)
    requires timeout >= 0.0 && forall k :: 0 <= k < |needs| ==> needs[k] >= 0.0
    requires i < |needs| && needs[i] <= timeout / (|needs| as real)
    ensures Min(needs[i], Budgets(needs, timeout)[i]) == needs[i]
  {
    FairBudgets(needs, timeout);
  }

  /** Some refresher needs more than its budget. */
  predicate AnyStopped(needs: seq<real>, budgets: seq<real>)
    requires |needs| == |budgets|
  {
    exists i :: 0 <= i < |needs| && needs[i] > budgets[i]
  }

  lemma StoppedAppend(needs: seq<real>, budgets: seq<real>, need: real, budget: real)
    requires |needs| == |budgets|
    ensures AnyStopped(needs + [need], budgets + [budget]) <==> AnyStopped(needs, budgets) || need > budget
  {
    var n, b := needs + [need], budgets + [budget];
    assert n[|needs|] == need && b[|needs|] == budget;
    if AnyStopped(needs, budgets) {
      var i :| 0 <= i < |needs| && needs[i] > budgets[i];
      assert n[i] > b[i];
    }
  }

  /** A budget is a share of the time that those before it have left. */
  lemma {:induction false} BudgetAt(needs: seq<real>, left: real, i: nat)
    requires i < |needs|
    ensures var budgets := Budgets(needs, left);
      budgets[i] == Share(left - Used(needs[..i], budgets[..i]), |needs| - i)
  {
    if i > 0 {
      var budget, budgets := Share(left, |needs|), Budgets(needs, left);
      var rest := Budgets(needs[1..], left - Min(needs[0], budget));
      BudgetAt(needs[1..], left - Min(needs[0], budget), i - 1);
      assert needs[..i][1..] == needs[1..][..i - 1] && budgets[..i][1..] == rest[..i - 1];
    }
  }

  /** None of the refreshers that have run raised an error: one that would was stopped before. */
  ghost predicate NoneRaised(needs: seq<real>, fails: seq<bool>, budgets: seq<real>)
    requires |fails| == |needs|
  {
    |budgets| <= |needs| && forall i :: 0 <= i < |budgets| && fails[i] ==> needs[i] > budgets[i]
  }

  lemma NoneRaisedOn(needs: seq<real>, fails: seq<bool>, budgets: seq<real>, budget: real)
    requires |fails| == |needs| && NoneRaised(needs, fails, budgets) && |budgets| < |needs|
    requires fails[|budgets|] ==> needs[|budgets|] > budget
    ensures NoneRaised(needs, fails, budgets + [budget])
  {
  }

  /** The first refreshers have run within the first of all budgets. */
  ghost predicate Ran(needs: seq<real>, all: seq<real>, budgets: seq<real>, elapsed: real, timedOut: bool)
    requires |all| == |needs|
  {
    && |budgets| <= |needs| && budgets == all[..|budgets|]
    && elapsed == Used(needs[..|budgets|], budgets)
    && (timedOut <==> AnyStopped(needs[..|budgets|], budgets))
  }

  /** One more refresher runs, within the budget it is due. */
  lemma RanOn(needs: seq<real>, timeout: real, all: seq<real>, budgets: seq<real>, elapsed: real, timedOut: bool)
    requires all == Budgets(needs, timeout) && Ran(needs, all, budgets, elapsed, timedOut) && |budgets| < |needs|
    ensures var need, budget := needs[|budgets|], Share(timeout - elapsed, |needs| - |budgets|);
      && budget == all[|budgets|]
      && Ran(needs, all, budgets + [budget], elapsed + Min(need, budget), timedOut || need > budget)
  {
    var n := |budgets|;
    BudgetAt(needs, timeout, n);
    UsedAppend(needs[..n], budgets, needs[n], all[n]);
    StoppedAppend(needs[..n], budgets, needs[n], all[n]);
    assert needs[..n] + [needs[n]] == needs[..n + 1];
    assert budgets + [all[n]] == all[..n + 1];
  }

  /** Run the refreshers one after another; `needs` says how long each would take, `fails` which
      would then raise an error. An error skips the refreshers after it. */
  method RunRefreshers(needs: seq<real>, fails: seq<bool>, timeout: real)
    returns (budgets: seq<real>, elapsed: real, timedOut: bool, raised: bool)
    requires |fails| == |needs|
    ensures Ran(needs, Budgets(needs, timeout), budgets, elapsed, timedOut)
    ensures raised ==> var n := |budgets| - 1;
      0 <= n < |needs| && fails[n] && needs[n] <= budgets[n] && NoneRaised(needs, fails, budgets[..n])
    ensures !raised ==> |budgets| == |needs| && NoneRaised(needs, fails, budgets)
  {
    budgets, elapsed, timedOut, raised := [], 0.0, false, false;
    ghost var all := Budgets(needs, timeout);
    for index := 0 to |needs|
      invariant |budgets| == index && Ran(needs, all, budgets, elapsed, timedOut) && !raised
      invariant NoneRaised(needs, fails, budgets)
    {
      var budget := Share(timeout - elapsed, |needs| - index);
      RanOn(needs, timeout, all, budgets, elapsed, timedOut);
      ghost var before := budgets;
      if needs[index] > budget {
        timedOut := true;
      }
      budgets := budgets + [budget];
      elapsed := elapsed + Min(needs[index], budget);
      if needs[index] <= budget && fails[index] {
        raised := true;
        assert budgets[..index] == before;
        return;
      }
      NoneRaisedOn(needs, fails, before, budget);
    }
  }

  lemma {:induction false} UsedAppend(needs: seq<real>, budgets: seq<real>, need: real, budget: real)
    requires |needs| == |budgets|
    ensures Used(needs + [need], budgets + [budget]) == Used(needs, budgets) + Min(need, budget)
  {
    if needs == [] {
      assert Used([need][1..], [budget][1..]) == 0.0;
    } else {
      UsedAppend(needs[1..], budgets[1..], need, budget);
      assert (needs + [need])[1..] == needs[1..] + [need] && (budgets + [budget])[1..] == budgets[1..] + [budget];
    }
  }

  // ---------------------------------------------------------------- an error on the way

  lemma {:induction false} UsedPrefix(needs: seq<real>, budgets: seq<real>, m: nat)
    requires |needs| == |budgets| && m <= |needs|
    requires forall i :: 0 <= i < |needs| ==> needs[i] >= 0.0 && budgets[i] >= 0.0
    ensures 0.0 <= Used(needs[..m], budgets[..m]) <= Used(needs, budgets)
    decreases |needs| - m
  {
    if m == |needs| {
      assert needs[..m] == needs && budgets[..m] == budgets;
      UsedSome(needs, budgets);
    } else {
      UsedPrefix(needs, budgets, m + 1);
      assert needs[..m] + [needs[m]] == needs[..m + 1] && budgets[..m] + [budgets[m]] == budgets[..m + 1];
      UsedAppend(needs[..m], budgets[..m], needs[m], budgets[m]);
      UsedSome(needs[..m], budgets[..m]);
    }
  }

  lemma {:induction false} UsedSome(needs: seq<real>, budgets: seq<real>)
    requires |needs| == |budgets|
    requires forall i :: 0 <= i < |needs| ==> needs[i] >= 0.0 && budgets[i] >= 0.0
    ensures Used(needs, budgets) >= 0.0
  {
    if needs != [] {
      UsedSome(needs[1..], budgets[1..]);
    }
  }

  /** Up to a refresher that raises, the first `m` use no more than the time left, and each is
      granted at least an equal share among all that were waiting. */
  lemma FairUntilRaise(needs: seq<real>, left: real, m: nat)
    requires left >= 0.0 && m <= |needs| && forall i :: 0 <= i < |needs| ==> needs[i] >= 0.0
    ensures var budgets := Budgets(needs, left)[..m];
      && 0.0 <= Used(needs[..m], budgets) <= left
      && (forall i :: 0 <= i < m ==> budgets[i] >= Share(left, |needs|))
  {
    FairBudgets(needs, left);
    UsedPrefix(needs, Budgets(needs, left), m);
  }
}
