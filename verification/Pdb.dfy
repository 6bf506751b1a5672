/**
 The pdb-consistency and pdb-eviction-blocked checks (internal/check/pdb.go,
 pdbeviction.go), against what the disruption controller computes and the Eviction API
 grants, one eviction after another.
 */
module Pdb {
  import opened Base
  import opened Labels
  import opened Rollouts

  datatype Status = Status(observed: bool, disruptionsAllowed: int, disruptedPods: nat)

  datatype Budget = Budget(
    name: string, selector: Option<LabelSelector>, minAvailable: Option<IntOrPercent>,
    maxUnavailable: Option<IntOrPercent>,
    status: Status)

  datatype Workload = Workload(kind: string, replicas: nat, labels: LabelSet, strategy: Strategy, rolloutComplete: bool)

  /** What the spec alone allows; None when it has neither bound or one that does not parse. */
  function AllowedDisruptions(minAvailable: Option<IntOrPercent>, maxUnavailable: Option<IntOrPercent>, replicas: nat):
    (allowed: Option<int>)
    ensures allowed.Some? ==> allowed.value >= 0
  {
    if minAvailable.Some? then
      var v := Scaled(minAvailable.value, replicas, true);
      if v.None? then None else Some(Max(0, replicas - v.value))
    else if maxUnavailable.Some? then
      var v := Scaled(maxUnavailable.value, replicas, true);
      if v.None? then None else Some(Max(0, v.value))
    else None
  }

  function Allowed(b: Budget, replicas: nat): Option<int> {
    AllowedDisruptions(b.minAvailable, b.maxUnavailable, replicas)
  }

  // ----- The controller, and evictions -----

  /** Pods the controller wants healthy out of the expected ones. */
  function DesiredHealthy(b: Budget, expected: nat): Option<int> {
    if b.minAvailable.Some? then Scaled(b.minAvailable.value, expected, true)
    else if b.maxUnavailable.Some? then
      var v := Scaled(b.maxUnavailable.value, expected, true);
      if v.None? then None else Some(Max(0, expected - v.value))
    else None
  }

  /** disruptionsAllowed as the controller writes it. */
  function DisruptionsAllowed(healthy: nat, desired: int, expected: nat): int {
    if expected == 0 then 0 else Max(0, healthy - desired)
  }

  /** Evictions the API grants one after another while no pod becomes healthy again. */
  function Evictions(healthy: nat, desired: int): nat {
    if healthy > 0 && healthy > desired then 1 + Evictions(healthy - 1, desired) else 0
  }

  /** The API accepts no negative number and no negative percentage in either bound. */
  predicate NonNegative(v: Option<IntOrPercent>) {
    match v
    case None => true
    case Some(Count(n)) => n >= 0
    case Some(Percent(p)) => p >= 0
    case Some(Malformed) => true
  }

  lemma {:induction false} EvictionsAre(healthy: nat, desired: int)
    requires desired >= 0
    ensures Evictions(healthy, desired) == Max(0, healthy - desired)
  {
    if healthy > desired { EvictionsAre(healthy - 1, desired); }
  }

  /**
   The check's number is the controller's: with n pods healthy, the evictions that succeed
   one after another are min(allowed, n), for numbers and for percentages alike.
   */
  lemma AllowedMatchesController(b: Budget, n: nat)
    requires NonNegative(b.minAvailable) && NonNegative(b.maxUnavailable)
    ensures Allowed(b, n).Some? <==> DesiredHealthy(b, n).Some?
    ensures Allowed(b, n).Some? ==>
              && DesiredHealthy(b, n).value >= 0
              && Min(Allowed(b, n).value, n) == Max(0, n - DesiredHealthy(b, n).value)
              && Evictions(n, DesiredHealthy(b, n).value) == Min(Allowed(b, n).value, n)
  {
    if Allowed(b, n).Some? {
      ScaledIsNonNegative(b.minAvailable, n);
      ScaledIsNonNegative(b.maxUnavailable, n);
      EvictionsAre(n, DesiredHealthy(b, n).value);
    }
  }

  lemma ScaledIsNonNegative(v: Option<IntOrPercent>, n: nat)
    requires NonNegative(v)
    ensures v.Some? && Scaled(v.value, n, true).Some? ==> Scaled(v.value, n, true).value >= 0
  {
    if v.Some? && v.value.Percent? {
      assert v.value.p * n >= 0;
    }
  }

  /** Rounding p% up to keep is rounding the rest down to lose. */
  lemma MinAvailablePercent(b: Budget, p: nat, n: nat)
    requires b.minAvailable == Some(Percent(p)) && p <= 100
    ensures Allowed(b, n) == Some((100 - p) * n / 100)
  {
    var kept, lost := Ceil(p, n), (100 - p) * n / 100;
    RoundsToNearest(p, n, kept);
    RoundsToNearest(p, n, kept - 1);
    assert (100 - p) * n == 100 * n - p * n;
    assert kept == n - lost;
    assert (100 - p) * n >= 0;
  }

  // ----- pdb-consistency -----

  datatype Finding =
    | NoHeadroom(budget: string)
    | RecreateExceeds(budget: string)
    | NoBudget
    | SeveralBudgets(budgets: seq<string>)
    | LiveZero(budget: string)

  function SeverityOf(f: Finding): Severity {
    match f
    case NoHeadroom(_) => High
    case RecreateExceeds(_) => High
    case NoBudget => Low
    case SeveralBudgets(_) => High
    case LiveZero(_) => Medium
  }

  datatype CheckResult = Skipped(reason: string) | Reported(findings: seq<Finding>)

  predicate Covers(b: Budget, w: Workload) {
    Picks(b.selector, w.labels)
  }

  /** The budgets that cover the workload's pods, in list order. */
  function Matched(budgets: seq<Budget>, w: Workload): seq<Budget> {
    if budgets == [] then []
    else Matched(budgets[..|budgets| - 1], w)
         + if Covers(budgets[|budgets| - 1], w) then [budgets[|budgets| - 1]] else []
  }

  function BudgetFindings(b: Budget, w: Workload): seq<Finding> {
    var allowed := Allowed(b, w.replicas);
    if allowed.None? then []
    else if allowed.value <= 0 then [NoHeadroom(b.name)]
    else if w.strategy.kind.Recreate? && allowed.value < w.replicas then [RecreateExceeds(b.name)]
    else []
  }

  function AllBudgetFindings(matched: seq<Budget>, w: Workload): seq<Finding> {
    if matched == [] then []
    else AllBudgetFindings(matched[..|matched| - 1], w) + BudgetFindings(matched[|matched| - 1], w)
  }

  function ConsistencyFindings(budgets: seq<Budget>, w: Workload): seq<Finding> {
    var matched := Matched(budgets, w);
    if w.replicas == 0 then []
    else AllBudgetFindings(matched, w) + if matched == [] && w.replicas > 1 then [NoBudget] else []
  }

  method RunConsistency(list: Result<seq<Budget>>, w: Workload) returns (r: CheckResult)
    ensures r == if list.Err? then Skipped(list.error) else Reported(ConsistencyFindings(list.value, w))
  {
    if list.Err? {
      return Skipped(list.error);
    }
    if w.replicas == 0 {
      return Reported([]);
    }
    var budgets := list.value;
    var findings := [];
    var matchedPDB := false;
    for i := 0 to |budgets|
      invariant findings == AllBudgetFindings(Matched(budgets[..i], w), w)
      invariant matchedPDB <==> Matched(budgets[..i], w) != []
    {
      hide AllBudgetFindings, Matched, BudgetFindings, Covers;
      MatchedStep(budgets, i, w);
      if !Covers(budgets[i], w) {
        continue;
      }
      matchedPDB := true;
      var found := EvaluateBudget(budgets[i], w);
      findings := findings + found;
    }
    assert budgets[..|budgets|] == budgets;
    if !matchedPDB && w.replicas > 1 {
      findings := findings + [NoBudget];
    }
    return Reported(findings);
  }

  lemma MatchedStep(budgets: seq<Budget>, i: nat, w: Workload)
    requires i < |budgets|
    ensures var before, after := Matched(budgets[..i], w), Matched(budgets[..i + 1], w);
            if Covers(budgets[i], w) then
              && after == before + [budgets[i]] && after != []
              && AllBudgetFindings(after, w) == AllBudgetFindings(before, w) + BudgetFindings(budgets[i], w)
            else after == before
  {
    assert budgets[..i + 1][..i] == budgets[..i];
    var before := Matched(budgets[..i], w);
    assert (before + [budgets[i]])[..|before|] == before;
  }

  method EvaluateBudget(b: Budget, w: Workload) returns (found: seq<Finding>)
    ensures found == BudgetFindings(b, w)
  {
    var allowed := Allowed(b, w.replicas);
    if allowed.None? {
      return [];
    }
    if allowed.value <= 0 {
      return [NoHeadroom(b.name)];
    }
    if w.strategy.kind.Recreate? && allowed.value < w.replicas {
      return [RecreateExceeds(b.name)];
    }
    return [];
  }

  // ----- pdb-eviction-blocked -----

  /** Every precondition under which a live zero is worth reporting. */
  predicate LiveZeroHolds(b: Budget, w: Workload) {
    && b.status.observed && b.status.disruptionsAllowed == 0 && b.status.disruptedPods == 0 && w.rolloutComplete
    && Allowed(b, w.replicas).Some? && Allowed(b, w.replicas).value > 0
  }

  function Names(budgets: seq<Budget>): seq<string> {
    if budgets == [] then [] else Names(budgets[..|budgets| - 1]) + [budgets[|budgets| - 1].name]
  }

  function EvictionFindings(budgets: seq<Budget>, w: Workload): seq<Finding> {
    var matched := Matched(budgets, w);
    if w.replicas == 0 then []
    else if |matched| > 1 then [SeveralBudgets(Names(matched))]
    else if |matched| == 1 && LiveZeroHolds(matched[0], w) then [LiveZero(matched[0].name)]
    else []
  }

  method FactA(matched: seq<Budget>) returns (f: Finding)
    ensures f == SeveralBudgets(Names(matched))
  {
    var names := [];
    for i := 0 to |matched|
      invariant names == Names(matched[..i])
    {
      assert matched[..i + 1][..i] == matched[..i];
      names := names + [matched[i].name];
    }
    assert matched[..|matched|] == matched;
    return SeveralBudgets(names);
  }

  function FactB(b: Budget, w: Workload): Option<Finding> {
    if !b.status.observed then None
    else if b.status.disruptionsAllowed != 0 then None
    else if b.status.disruptedPods != 0 then None
    else if !w.rolloutComplete then None
    else
      var allowed := Allowed(b, w.replicas);
      if allowed.None? || allowed.value <= 0 then None else Some(LiveZero(b.name))
  }

  method RunEvictionBlocked(list: Result<seq<Budget>>, w: Workload) returns (r: CheckResult)
    ensures r == if w.replicas > 0 && list.Err? then Skipped(list.error)
                 else if w.replicas == 0 then Reported([])
                 else Reported(EvictionFindings(list.value, w))
  {
    if w.replicas == 0 {
      return Reported([]);
    }
    if list.Err? {
      return Skipped(list.error);
    }
    var budgets := list.value;
    var matched := [];
    for i := 0 to |budgets|
      invariant matched == Matched(budgets[..i], w)
    {
      assert budgets[..i + 1][..i] == budgets[..i];
      if !Covers(budgets[i], w) {
        continue;
      }
      matched := matched + [budgets[i]];
    }
    assert budgets[..|budgets|] == budgets;
    if |matched| > 1 {
      var f := FactA(matched);
      return Reported([f]);
    } else if |matched| == 1 {
      var f := FactB(matched[0], w);
      if f.Some? {
        return Reported([f.value]);
      }
    }
    return Reported([]);
  }

  // ----- What the findings say -----

  /** No headroom: with every replica healthy the Eviction API grants nothing at all. */
  lemma NoHeadroomIsExact(b: Budget, w: Workload)
    requires NonNegative(b.minAvailable) && NonNegative(b.maxUnavailable) && w.replicas > 0
             && DesiredHealthy(b, w.replicas).Some?
    ensures BudgetFindings(b, w) == [NoHeadroom(b.name)] <==>
            Evictions(w.replicas, DesiredHealthy(b, w.replicas).value) == 0
    ensures BudgetFindings(b, w) == [RecreateExceeds(b.name)] <==>
            w.strategy.kind.Recreate? && 0 < Evictions(w.replicas, DesiredHealthy(b, w.replicas).value) < w.replicas
  {
    AllowedMatchesController(b, w.replicas);
  }

  lemma {:induction false} FindingsNameMatched(matched: seq<Budget>, w: Workload)
    ensures forall f :: f in AllBudgetFindings(matched, w) ==>
      exists b :: b in matched && BudgetFindings(b, w) == [f] && !f.NoBudget?
    ensures forall b, f :: b in matched && f in BudgetFindings(b, w) ==> f in AllBudgetFindings(matched, w)
  {
    if matched != [] {
      assert matched == matched[..|matched| - 1] + [matched[|matched| - 1]];
      FindingsNameMatched(matched[..|matched| - 1], w);
    }
  }

  /** With every replica healthy the budget lets no pod go, or not all that a Recreate takes down at once. */
  predicate Blocks(b: Budget, w: Workload) {
    var desired := DesiredHealthy(b, w.replicas);
    && desired.Some?
    && (Evictions(w.replicas, desired.value) == 0
        || (w.strategy.kind.Recreate? && Evictions(w.replicas, desired.value) < w.replicas))
  }

  lemma BudgetBlocks(b: Budget, w: Workload)
    requires NonNegative(b.minAvailable) && NonNegative(b.maxUnavailable) && w.replicas > 0
    ensures Blocks(b, w) <==> BudgetFindings(b, w) != []
    ensures forall f :: f in BudgetFindings(b, w) ==> SeverityOf(f) == High
  {
    AllowedMatchesController(b, w.replicas);
  }

  /**
   What the severities of the two checks say of a workload: High exactly when some covering budget
   blocks evictions outright, or several cover it at all; Medium exactly for the unexplained zero.
   */
  lemma SeveritiesAreEarned(budgets: seq<Budget>, w: Workload)
    requires w.replicas > 0
    requires forall b :: b in budgets ==> NonNegative(b.minAvailable) && NonNegative(b.maxUnavailable)
    ensures (exists f :: f in ConsistencyFindings(budgets, w) && SeverityOf(f) == High) <==>
            exists b :: b in budgets && Covers(b, w) && Blocks(b, w)
    ensures (exists f :: f in EvictionFindings(budgets, w) && SeverityOf(f) == High) <==> |Matched(budgets, w)| > 1
    ensures (exists f :: f in EvictionFindings(budgets, w) && SeverityOf(f) == Medium) <==>
            |Matched(budgets, w)| == 1 && LiveZeroHolds(Matched(budgets, w)[0], w)
  {
    var matched := Matched(budgets, w);
    MatchedAre(budgets, w);
    FindingsNameMatched(matched, w);
    EvictionSeverities(budgets, w);
    hide Matched, Blocks, BudgetFindings, EvictionFindings, LiveZeroHolds, Covers, NonNegative;
    forall b | b in matched
      ensures Blocks(b, w) <==> BudgetFindings(b, w) != []
      ensures forall f :: f in BudgetFindings(b, w) ==> SeverityOf(f) == High
    {
      BudgetBlocks(b, w);
    }
    if b :| b in matched && Blocks(b, w) {
      assert BudgetFindings(b, w)[0] in BudgetFindings(b, w);
      assert BudgetFindings(b, w)[0] in ConsistencyFindings(budgets, w);
    }
    if f :| f in ConsistencyFindings(budgets, w) && SeverityOf(f) == High {
      assert f in AllBudgetFindings(matched, w);
      var b :| b in matched && BudgetFindings(b, w) == [f];
      assert Blocks(b, w);
    }
  }

  lemma {:induction false} MatchedAre(budgets: seq<Budget>, w: Workload)
    ensures forall b :: b in Matched(budgets, w) <==> b in budgets && Covers(b, w)
  {
    if budgets != [] {
      assert budgets == budgets[..|budgets| - 1] + [budgets[|budgets| - 1]];
      MatchedAre(budgets[..|budgets| - 1], w);
    }
  }

  lemma EvictionSeverities(budgets: seq<Budget>, w: Workload)
    requires w.replicas > 0
    ensures (exists f :: f in EvictionFindings(budgets, w) && SeverityOf(f) == High) <==> |Matched(budgets, w)| > 1
    ensures (exists f :: f in EvictionFindings(budgets, w) && SeverityOf(f) == Medium) <==>
            |Matched(budgets, w)| == 1 && LiveZeroHolds(Matched(budgets, w)[0], w)
  {
    hide Matched, LiveZeroHolds, Names;
    var fs := EvictionFindings(budgets, w);
    assert |fs| > 0 ==> fs[0] in fs;
  }

  /** A budget without headroom by its spec is never also reported as zero for unexplained reasons. */
  lemma NeverBothHighAndLiveZero(budgets: seq<Budget>, w: Workload, name: string)
    requires LiveZero(name) in EvictionFindings(budgets, w)
    ensures forall other :: NoHeadroom(other) !in ConsistencyFindings(budgets, w)
  {
    var matched := Matched(budgets, w);
    hide Matched, Allowed;
    assert |matched| == 1 && LiveZeroHolds(matched[0], w);
    assert matched[..0] == [];
    assert AllBudgetFindings(matched, w) == BudgetFindings(matched[0], w);
  }

  /** The two checks agree on which budgets cover the workload. */
  lemma ChecksAgreeOnCoverage(budgets: seq<Budget>, w: Workload)
    ensures NoBudget in ConsistencyFindings(budgets, w) ==> EvictionFindings(budgets, w) == []
    ensures w.replicas > 0 ==>
              ((exists names :: SeveralBudgets(names) in EvictionFindings(budgets, w)) <==> |Matched(budgets, w)| > 1)
  {
    FindingsNameMatched(Matched(budgets, w), w);
    hide Matched, LiveZeroHolds, BudgetFindings;
    if w.replicas > 0 && |Matched(budgets, w)| > 1 {
      assert SeveralBudgets(Names(Matched(budgets, w))) in EvictionFindings(budgets, w);
    }
  }

  /** A live zero the spec does not explain means the cluster is not what the spec assumes. */
  lemma LiveZeroIsLive(b: Budget, w: Workload, healthy: nat, expected: nat)
    requires NonNegative(b.minAvailable) && NonNegative(b.maxUnavailable) && w.replicas > 0
    requires LiveZeroHolds(b, w) && DesiredHealthy(b, expected).Some?
    requires b.status.disruptionsAllowed == DisruptionsAllowed(healthy, DesiredHealthy(b, expected).value, expected)
    ensures healthy < w.replicas || expected != w.replicas
  {
    AllowedMatchesController(b, w.replicas);
  }
}
