/**
 What runs of the two budget checks report (internal/check/pdb.go, pdbeviction.go), said of the
 budgets the cluster holds and what the controller would grant.
 */
module PdbRuns {
  import opened Base
  import opened Labels
  import opened Rollouts
  import opened Pdb

  /** The selector parses and picks the workload's pods; an empty one picks everything, an absent one nothing. */
  ghost predicate Selected(b: Budget, w: Workload) {
    Selects(b.selector, w.labels) == Some(true)
  }

  /** The matched budgets are the ones selected, in list order. */
  lemma {:induction false} MatchedInOrder(a: seq<Budget>, b: seq<Budget>, w: Workload)
    ensures Matched(a + b, w) == Matched(a, w) + Matched(b, w)
    ensures forall one :: Matched([one], w) == if Selected(one, w) then [one] else []
  {
    hide Covers;
    forall one: Budget
      ensures Matched([one], w) == if Covers(one, w) then [one] else []
    {
      assert [one][..0] == [];
    }
    hide Matched;
    assert forall one :: Covers(one, w) <==> Selected(one, w) by { CoversIs(w); }
    MatchedAppend(a, b, w);
  }

  lemma CoversIs(w: Workload)
    ensures forall b :: Covers(b, w) <==> Selected(b, w)
  {
    hide Selects;
  }

  lemma {:induction false} MatchedAppend(a: seq<Budget>, b: seq<Budget>, w: Workload)
    ensures Matched(a + b, w) == Matched(a, w) + Matched(b, w)
  {
    hide Covers;
    if b == [] {
      assert a + b == a;
    } else {
      var ab := a + b;
      assert ab[..|ab| - 1] == a + b[..|b| - 1];
      MatchedAppend(a, b[..|b| - 1], w);
    }
  }

  /** A percentage of pods that may be lost is rounded up. */
  lemma MaxUnavailablePercent(b: Budget, p: nat, n: nat, k: nat)
    requires b.minAvailable == None && b.maxUnavailable == Some(Percent(p))
    ensures Allowed(b, n) == Some(k) <==> 100 * (k - 1) < p * n <= 100 * k
  {
    RoundsToNearest(p, n, k);
    RoundsToNearest(p, n, k - 1);
    assert p * n >= 0;
    RoundsToNearest(p, n, -1);
    hide Ceil, Floor;
  }

  /** A plain number is taken as it is, and minAvailable before maxUnavailable. */
  lemma CountsAreTaken(b: Budget, k: nat, n: nat)
    ensures b.minAvailable == Some(Count(k)) ==> Allowed(b, n) == Some(Max(0, n - k))
    ensures b.minAvailable == None && b.maxUnavailable == Some(Count(k)) ==> Allowed(b, n) == Some(k)
    ensures b.minAvailable == None && b.maxUnavailable == None ==> Allowed(b, n) == None
    ensures b.minAvailable == Some(Malformed) ==> Allowed(b, n) == None
  {
  }

  ghost predicate Sensible(b: Budget) {
    NonNegative(b.minAvailable) && NonNegative(b.maxUnavailable)
  }

  /** With every replica healthy, the evictions that succeed one after another. */
  ghost function Granted(b: Budget, w: Workload): Option<nat> {
    match DesiredHealthy(b, w.replicas)
    case None => None
    case Some(desired) => Some(Evictions(w.replicas, desired))
  }

  lemma BudgetFindingsAre(b: Budget, w: Workload)
    requires Sensible(b) && w.replicas > 0
    ensures BudgetFindings(b, w) ==
            match Granted(b, w)
            case None => []
            case Some(n) =>
              if n == 0 then [NoHeadroom(b.name)]
              else if w.strategy.kind == Recreate && n < w.replicas then [RecreateExceeds(b.name)]
              else []
  {
    AllowedMatchesController(b, w.replicas);
    hide Evictions, Allowed;
  }

  /** pdb-consistency: one High finding for each selected budget that does not let enough go, and Low without any. */
  lemma ConsistencyReports(budgets: seq<Budget>, w: Workload, f: Finding)
    requires w.replicas > 0 && forall b :: b in budgets ==> Sensible(b)
    ensures f in ConsistencyFindings(budgets, w) <==>
            || (exists b :: b in budgets && Selected(b, w) && BudgetFindings(b, w) == [f])
            || (f == NoBudget && w.replicas > 1 && forall b :: b in budgets ==> !Selected(b, w))
    ensures f in ConsistencyFindings(budgets, w) ==> SeverityOf(f) == if f == NoBudget then Low else High
  {
    var matched := Matched(budgets, w);
    MatchedAre(budgets, w);
    CoversIs(w);
    FindingsNameMatched(matched, w);
    assert |matched| > 0 ==> matched[0] in matched;
    hide Matched, Covers, BudgetFindings, Selected, AllBudgetFindings;
    if b :| b in budgets && Selected(b, w) && BudgetFindings(b, w) == [f] {
      assert b in matched && f in BudgetFindings(b, w);
    }
    if f in ConsistencyFindings(budgets, w) && f != NoBudget {
      var b :| b in matched && BudgetFindings(b, w) == [f];
      BudgetFindingsAre(b, w);
    }
  }

  lemma NoReplicas(budgets: seq<Budget>, w: Workload)
    requires w.replicas == 0
    ensures ConsistencyFindings(budgets, w) == [] && EvictionFindings(budgets, w) == []
  {
  }

  lemma {:induction false} NamesAre(budgets: seq<Budget>)
    ensures |Names(budgets)| == |budgets|
    ensures forall i :: 0 <= i < |budgets| ==> Names(budgets)[i] == budgets[i].name
  {
    if budgets != [] {
      NamesAre(budgets[..|budgets| - 1]);
    }
  }

  /**
   pdb-eviction-blocked: High naming every selected budget when there are several; for a single one
   Medium when a settled status of a completed rollout shows zero although evictions would be granted.
   */
  lemma EvictionReports(budgets: seq<Budget>, w: Workload)
    requires w.replicas > 0 && forall b :: b in budgets ==> Sensible(b)
    ensures var matched := Matched(budgets, w);
            EvictionFindings(budgets, w) ==
            if |matched| > 1 then [SeveralBudgets(Names(matched))]
            else if
              && |matched| == 1
              && var b := matched[0];
                 && b.status.observed && b.status.disruptionsAllowed == 0 && b.status.disruptedPods == 0
                 && w.rolloutComplete && Granted(b, w).Some? && Granted(b, w).value > 0
            then [LiveZero(matched[0].name)]
            else []
    ensures SeverityOf(SeveralBudgets(Names(Matched(budgets, w)))) == High
    ensures forall name :: SeverityOf(LiveZero(name)) == Medium
  {
    var matched := Matched(budgets, w);
    if |matched| == 1 {
      MatchedAre(budgets, w);
      hide Matched;
      assert matched[0] in matched;
      AllowedMatchesController(matched[0], w.replicas);
      hide Allowed, DesiredHealthy;
    }
    hide Matched;
  }
}
