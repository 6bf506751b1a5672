/**
 Pods placed one at a time over topology domains, the way kube-scheduler applies a
 topologySpreadConstraint with DoNotSchedule or a required self-anti-affinity term
 (the mechanism internal/check/scheduling.go lines 57-72 relies on). A state holds one
 pod count per eligible domain; pods may be deleted at any time.
 */
module Placement {
  import opened Base

  type Counts = seq<nat>

  datatype Rule = Spread(minDomains: int, maxSkew: int) | OnePerDomain

  datatype Step = Place(domain: nat) | Delete(domain: nat)

  function Sum(c: Counts): nat {
    if c == [] then 0 else Sum(c[..|c| - 1]) + c[|c| - 1]
  }

  function Least(c: Counts): nat
    requires c != []
  {
    if |c| == 1 then c[0] else Min(Least(c[..|c| - 1]), c[|c| - 1])
  }

  /** The global minimum is taken as zero while there are fewer domains than asked for. */
  function GlobalMinimum(rule: Rule, c: Counts): nat
    requires rule.Spread? && c != []
  {
    if |c| < rule.minDomains then 0 else Least(c)
  }

  predicate Permits(rule: Rule, c: Counts, d: nat)
    requires d < |c|
  {
    match rule
    case Spread(_, maxSkew) => c[d] + 1 - GlobalMinimum(rule, c) <= maxSkew
    case OnePerDomain => c[d] == 0
  }

  /** Domains that are counted; a pod can be placed in the first `placeable` of them. */
  datatype Topology = Topology(domains: nat, placeable: nat)

  function All(domains: nat): Topology {
    Topology(domains, domains)
  }

  predicate Enabled(rule: Rule, topo: Topology, c: Counts, step: Step) {
    match step
    case Place(d) => d < |c| && d < topo.placeable && Permits(rule, c, d)
    case Delete(d) => d < |c| && c[d] > 0
  }

  function Taken(rule: Rule, topo: Topology, c: Counts, step: Step): (next: Counts)
    requires Enabled(rule, topo, c, step)
    ensures |next| == |c|
  {
    match step
    case Place(d) => c[d := c[d] + 1]
    case Delete(d) => c[d := c[d] - 1]
  }

  function Empty(domains: nat): Counts {
    seq(domains, i => 0)
  }

  /** The state after some steps from the empty placement, if each was enabled in turn. */
  function After(rule: Rule, topo: Topology, steps: seq<Step>): (c: Option<Counts>)
    ensures c.Some? ==> |c.value| == topo.domains
  {
    if steps == [] then Some(Empty(topo.domains))
    else
      var before := After(rule, topo, steps[..|steps| - 1]);
      if before.Some? && Enabled(rule, topo, before.value, steps[|steps| - 1])
      then Some(Taken(rule, topo, before.value, steps[|steps| - 1]))
      else None
  }

  ghost predicate Reachable(rule: Rule, topo: Topology, c: Counts) {
    exists steps :: After(rule, topo, steps) == Some(c)
  }

  /** Some order of placements and deletions ends with n pods running. */
  ghost predicate Hosts(rule: Rule, topo: Topology, n: nat) {
    exists c :: Reachable(rule, topo, c) && Sum(c) == n
  }

  /**
   The most pods the domains can hold; None without a bound. A counted domain that no pod can
   be placed in stays empty, and with it the global minimum.
   */
  function Capacity(rule: Rule, topo: Topology): Option<int> {
    match rule
    case Spread(minDomains, maxSkew) =>
      if topo.placeable == topo.domains && topo.domains >= minDomains then None else Some(topo.placeable * maxSkew)
    case OnePerDomain => Some(topo.placeable)
  }

  predicate Sensible(rule: Rule, topo: Topology) {
    PerDomain(rule) >= 1 && (rule.Spread? ==> rule.minDomains >= 1) && topo.placeable <= topo.domains
  }

  predicate Within(capacity: Option<int>, n: int) {
    capacity.Some? ==> n <= capacity.value
  }

  // ----- Sums and minima -----

  lemma {:induction false} SumOfUpdate(c: Counts, d: nat, v: nat)
    requires d < |c|
    ensures Sum(c[d := v]) == Sum(c) - c[d] + v
  {
    var next := c[d := v];
    if d == |c| - 1 {
      assert next[..|c| - 1] == c[..|c| - 1];
    } else {
      assert next[..|c| - 1] == c[..|c| - 1][d := v];
      SumOfUpdate(c[..|c| - 1], d, v);
    }
  }

  lemma {:induction false} LeastIsAttained(c: Counts) returns (d: nat)
    requires c != []
    ensures d < |c| && c[d] == Least(c)
    ensures forall e :: 0 <= e < |c| ==> Least(c) <= c[e]
  {
    if |c| == 1 {
      d := 0;
    } else {
      d := LeastIsAttained(c[..|c| - 1]);
      if c[|c| - 1] < c[d] {
        d := |c| - 1;
      }
    }
  }

  lemma {:induction false} SumIsBounded(c: Counts, used: nat, bound: nat)
    requires used <= |c| && forall d :: 0 <= d < |c| ==> c[d] <= if d < used then bound else 0
    ensures Sum(c) <= used * bound
  {
    if used < |c| {
      SumIsBounded(c[..|c| - 1], used, bound);
    } else if c != [] {
      SumIsBounded(c[..|c| - 1], used - 1, bound);
    }
  }

  lemma {:induction false} SumOfPrefix(c: Counts, k: nat)
    requires k <= |c|
    ensures Sum(c[..k]) <= Sum(c)
  {
    if k == |c| {
      assert c[..k] == c;
    } else {
      assert c[..|c| - 1][..k] == c[..k];
      SumOfPrefix(c[..|c| - 1], k);
    }
  }

  lemma {:induction false} SumReaches(c: Counts, bound: nat)
    requires forall d :: 0 <= d < |c| ==> c[d] >= bound
    ensures Sum(c) >= |c| * bound
  {
    if c != [] { SumReaches(c[..|c| - 1], bound); }
  }

  lemma {:induction false} EmptySum(domains: nat)
    ensures Sum(Empty(domains)) == 0
  {
    if domains > 0 {
      assert Empty(domains)[..domains - 1] == Empty(domains - 1);
      EmptySum(domains - 1);
    }
  }

  // ----- The capacity is exact -----

  /** How full one domain can get below minDomains, or under anti-affinity. */
  function PerDomain(rule: Rule): int {
    if rule.Spread? then rule.maxSkew else 1
  }

  /** A domain no pod can be placed in is empty, and where the total is bounded no domain is overfull. */
  predicate Keeps(rule: Rule, topo: Topology, c: Counts) {
    && |c| == topo.domains
    && (forall d :: topo.placeable <= d < |c| ==> c[d] == 0)
    && (Capacity(rule, topo).Some? ==> forall d :: 0 <= d < |c| ==> c[d] <= PerDomain(rule))
  }

  /** No run, whatever it places and deletes, takes a domain beyond its share. */
  lemma {:induction false} NeverAbovePerDomain(rule: Rule, topo: Topology, steps: seq<Step>)
    requires Sensible(rule, topo) && After(rule, topo, steps).Some?
    ensures Keeps(rule, topo, After(rule, topo, steps).value)
  {
    if steps != [] {
      NeverAbovePerDomain(rule, topo, steps[..|steps| - 1]);
      MinimumStaysZero(rule, topo, After(rule, topo, steps[..|steps| - 1]).value);
    }
  }

  lemma MinimumStaysZero(rule: Rule, topo: Topology, c: Counts)
    requires Sensible(rule, topo) && Keeps(rule, topo, c)
    ensures rule.Spread? && Capacity(rule, topo).Some? && c != [] ==> GlobalMinimum(rule, c) == 0
  {
    if c != [] && topo.placeable < topo.domains {
      var d := LeastIsAttained(c);
      assert c[topo.placeable] == 0;
    }
  }

  lemma KeptSum(rule: Rule, topo: Topology, c: Counts)
    requires Sensible(rule, topo) && Keeps(rule, topo, c)
    ensures Within(Capacity(rule, topo), Sum(c))
  {
    if Capacity(rule, topo).Some? {
      SumIsBounded(c, topo.placeable, PerDomain(rule));
    }
  }

  /** While the bound is not reached, some domain can take one more pod. */
  lemma CanPlaceOneMore(rule: Rule, topo: Topology, c: Counts) returns (d: nat)
    requires Sensible(rule, topo) && |c| == topo.domains
    requires Within(Capacity(rule, topo), Sum(c) + 1)
    ensures d < topo.placeable && Permits(rule, c, d)
  {
    if Capacity(rule, topo).None? {
      d := LeastIsAttained(c);
    } else {
      SumOfPrefix(c, topo.placeable);
      d := BelowShare(c[..topo.placeable], PerDomain(rule));
    }
  }

  lemma BelowShare(c: Counts, share: nat) returns (d: nat)
    requires Sum(c) < |c| * share
    ensures d < |c| && c[d] < share
  {
    d := LeastIsAttained(c);
    if c[d] >= share {
      SumReaches(c, share);
    }
  }

  lemma {:induction false} Attains(rule: Rule, topo: Topology, n: nat) returns (steps: seq<Step>)
    requires Sensible(rule, topo) && Within(Capacity(rule, topo), n)
    ensures After(rule, topo, steps).Some? && Sum(After(rule, topo, steps).value) == n
  {
    if n == 0 {
      EmptySum(topo.domains);
      return [];
    }
    hide Capacity, After;
    var before := Attains(rule, topo, n - 1);
    var c := After(rule, topo, before).value;
    var d := CanPlaceOneMore(rule, topo, c);
    steps := before + [Place(d)];
    OneMoreStep(rule, topo, before, Place(d));
    SumOfUpdate(c, d, c[d] + 1);
  }

  lemma OneMoreStep(rule: Rule, topo: Topology, steps: seq<Step>, step: Step)
    requires After(rule, topo, steps).Some? && Enabled(rule, topo, After(rule, topo, steps).value, step)
    ensures After(rule, topo, steps + [step]) == Some(Taken(rule, topo, After(rule, topo, steps).value, step))
  {
    assert (steps + [step])[..|steps|] == steps;
  }

  /** More domains never hold fewer pods. */
  lemma CapacityGrows(rule: Rule, few: nat, many: nat)
    requires few <= many && PerDomain(rule) >= 1
    ensures Capacity(rule, All(few)).None? ==> Capacity(rule, All(many)).None?
    ensures Capacity(rule, All(few)).Some? && Capacity(rule, All(many)).Some? ==>
              0 <= Capacity(rule, All(few)).value <= Capacity(rule, All(many)).value
  {
    if rule.Spread? {
      assert few * rule.maxSkew <= many * rule.maxSkew;
    }
  }

  /**
   The closed form is exact: n pods can run at once precisely when the capacity is not
   exceeded, over every order of placements and deletions. A spread constraint bounds nothing
   once minDomains is reached and every counted domain can take pods.
   */
  lemma CapacityIsExact(rule: Rule, topo: Topology, n: nat)
    requires Sensible(rule, topo)
    ensures Hosts(rule, topo, n) <==> Within(Capacity(rule, topo), n)
  {
    if Hosts(rule, topo, n) {
      var c :| Reachable(rule, topo, c) && Sum(c) == n;
      var steps :| After(rule, topo, steps) == Some(c);
      NeverAbovePerDomain(rule, topo, steps);
      KeptSum(rule, topo, c);
    }
    if Within(Capacity(rule, topo), n) {
      var steps := Attains(rule, topo, n);
      assert Reachable(rule, topo, After(rule, topo, steps).value);
    }
  }

  /** No domain holds more than one pod above another. */
  predicate Balanced(c: Counts) {
    forall d, e :: 0 <= d < |c| && 0 <= e < |c| ==> c[d] <= c[e] + 1
  }

  /** At or above minDomains, spreading evenly keeps the skew within one: the balanced state is always reachable. */
  lemma {:induction false} SpreadingEvenlyKeepsSkewOne(minDomains: int, maxSkew: int, domains: nat, n: nat)
    returns (steps: seq<Step>)
    requires 1 <= minDomains <= domains && maxSkew >= 1
    ensures After(Spread(minDomains, maxSkew), All(domains), steps).Some?
    ensures var c := After(Spread(minDomains, maxSkew), All(domains), steps).value; Sum(c) == n && Balanced(c)
  {
    if n == 0 {
      EmptySum(domains);
      return [];
    }
    var rule := Spread(minDomains, maxSkew);
    var before := SpreadingEvenlyKeepsSkewOne(minDomains, maxSkew, domains, n - 1);
    hide After;
    var c := After(rule, All(domains), before).value;
    var d := LeastIsAttained(c);
    OneMoreStep(rule, All(domains), before, Place(d));
    steps := before + [Place(d)];
    SumOfUpdate(c, d, c[d] + 1);
  }

  /** In every reachable state some domain can take a pod exactly while the capacity is not used up. */
  lemma RoomUntilCapacity(rule: Rule, topo: Topology, c: Counts)
    requires Sensible(rule, topo) && Reachable(rule, topo, c)
    ensures (exists d: nat :: d < |c| && Enabled(rule, topo, c, Place(d))) <==> Within(Capacity(rule, topo), Sum(c) + 1)
  {
    var steps :| After(rule, topo, steps) == Some(c);
    hide After, Capacity, Sum, Permits;
    if Within(Capacity(rule, topo), Sum(c) + 1) {
      var d := CanPlaceOneMore(rule, topo, c);
      assert d < |c| && Enabled(rule, topo, c, Place(d));
    } else if exists d: nat :: d < |c| && Enabled(rule, topo, c, Place(d)) {
      var d: nat :| d < |c| && Enabled(rule, topo, c, Place(d));
      PlacedFits(rule, topo, steps, c, d);
    }
  }

  lemma PlacedFits(rule: Rule, topo: Topology, steps: seq<Step>, c: Counts, d: nat)
    requires Sensible(rule, topo) && After(rule, topo, steps) == Some(c)
    requires d < |c| && Enabled(rule, topo, c, Place(d))
    ensures Within(Capacity(rule, topo), Sum(c) + 1)
  {
    hide Capacity, Permits, Sum;
    OneMoreStep(rule, topo, steps, Place(d));
    hide After;
    NeverAbovePerDomain(rule, topo, steps + [Place(d)]);
    KeptSum(rule, topo, c[d := c[d] + 1]);
    SumOfUpdate(c, d, c[d] + 1);
  }
}
