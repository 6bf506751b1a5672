/**
 The scheduling-constraints-feasibility check (internal/check/scheduling.go). What the
 scheduler library answers about a node (its affinity match, whether its taints are
 tolerated) is part of the node here; the verdicts are proved against the placement and
 rollout steps of Placement.dfy and Rollouts.dfy.
 */
module Scheduling {
  import opened Base
  import Rollouts
  import Placement
  import DomainRollouts

  // ----- Nodes -----

  datatype Match = Matches | Differs | Unparsable(error: string)

  /**
   `othersTolerated`: the workload tolerates every blocking taint of the node but the one that
   comes and goes with a cordon (node.kubernetes.io/unschedulable); `cordonTolerated`: that one.
   */
  datatype Node = Node(
    name: string, labels: map<string, string>, cordoned: bool, affinity: Match,
    othersTolerated: bool, cordonTolerated: bool, allocatable: map<string, int>)

  /** Every blocking taint the node carries now is tolerated. */
  predicate Tolerated(n: Node) {
    n.othersTolerated && (n.cordoned ==> n.cordonTolerated)
  }

  /** The nodes whose labels match; `live` leaves out the cordoned ones. */
  function Candidates(nodes: seq<Node>, live: bool): seq<Node> {
    if nodes == [] then []
    else
      var n := nodes[|nodes| - 1];
      Candidates(nodes[..|nodes| - 1], live)
      + if n.affinity.Matches? && !(live && n.cordoned) then [n] else []
  }

  function LastError(nodes: seq<Node>): Option<string> {
    if nodes == [] then None
    else if nodes[|nodes| - 1].affinity.Unparsable? then Some(nodes[|nodes| - 1].affinity.error)
    else LastError(nodes[..|nodes| - 1])
  }

  method CandidateNodes(nodes: seq<Node>) returns (all: seq<Node>, live: seq<Node>, matchErr: Option<string>)
    ensures all == Candidates(nodes, false) && live == Candidates(nodes, true) && matchErr == LastError(nodes)
  {
    all, live, matchErr := [], [], None;
    for i := 0 to |nodes|
      invariant all == Candidates(nodes[..i], false) && live == Candidates(nodes[..i], true)
      invariant matchErr == LastError(nodes[..i])
    {
      assert nodes[..i + 1][..i] == nodes[..i];
      var n := nodes[i];
      if n.affinity.Unparsable? {
        matchErr := Some(n.affinity.error);
        continue;
      }
      if n.affinity.Differs? {
        continue;
      }
      all := all + [n];
      if !n.cordoned {
        live := live + [n];
      }
    }
    assert nodes[..|nodes|] == nodes;
  }

  lemma {:induction false} CandidatesAre(nodes: seq<Node>)
    ensures forall n :: n in Candidates(nodes, false) <==> n in nodes && n.affinity.Matches?
    ensures forall n :: n in Candidates(nodes, true) <==> n in Candidates(nodes, false) && !n.cordoned
  {
    if nodes != [] {
      var init := nodes[..|nodes| - 1];
      assert nodes == init + [nodes[|nodes| - 1]];
      CandidatesAre(init);
    }
  }

  // ----- Domains -----

  /** The domains of a topology key; `tolerable` leaves out nodes a new pod cannot land on. */
  function Domains(nodes: seq<Node>, key: string, tolerable: bool): set<string> {
    set n | n in nodes && key in n.labels && (tolerable ==> Tolerated(n)) :: n.labels[key]
  }

  method DomainCount(nodes: seq<Node>, key: string) returns (count: nat)
    ensures count == |Domains(nodes, key, false)|
  {
    var seen: set<string> := {};
    for i := 0 to |nodes|
      invariant seen == Domains(nodes[..i], key, false)
    {
      assert nodes[..i + 1] == nodes[..i] + [nodes[i]];
      if key !in nodes[i].labels {
        continue;
      }
      seen := seen + {nodes[i].labels[key]};
    }
    assert nodes[..|nodes|] == nodes;
    return |seen|;
  }

  /** A node may carry the label with an empty value. */
  ghost predicate EmptyValued(nodes: seq<Node>, key: string) {
    exists n :: n in nodes && key in n.labels && n.labels[key] == ""
  }

  /** The count is that of the non-empty values, and one more exactly when some node carries the label empty. */
  lemma EmptyValueIsADomain(nodes: seq<Node>, key: string)
    ensures |Domains(nodes, key, false)| ==
            |Domains(nodes, key, false) - {""}| + if EmptyValued(nodes, key) then 1 else 0
  {
    assert "" in Domains(nodes, key, false) <==> EmptyValued(nodes, key);
    if EmptyValued(nodes, key) {
      assert Domains(nodes, key, false) == (Domains(nodes, key, false) - {""}) + {""};
    } else {
      assert Domains(nodes, key, false) == Domains(nodes, key, false) - {""};
    }
  }

  /** One node with an empty value: one domain, and no non-empty value. */
  lemma OnlyAnEmptyValue()
    ensures var nodes := [Node("a", map["zone" := ""], false, Matches, true, false, map[])];
            |Domains(nodes, "zone", false)| == 1 && Domains(nodes, "zone", false) - {""} == {}
  {
    var nodes := [Node("a", map["zone" := ""], false, Matches, true, false, map[])];
    assert nodes[0] in nodes;
    assert Domains(nodes, "zone", false) == {""};
  }

  method AntiAffinityDomainCount(nodes: seq<Node>, key: string) returns (count: nat)
    ensures count == |Domains(nodes, key, true)|
  {
    var seen: set<string> := {};
    for i := 0 to |nodes|
      invariant seen == Domains(nodes[..i], key, true)
    {
      assert nodes[..i + 1] == nodes[..i] + [nodes[i]];
      if key !in nodes[i].labels {
        continue;
      }
      if !Tolerated(nodes[i]) {
        continue;
      }
      seen := seen + {nodes[i].labels[key]};
    }
    assert nodes[..|nodes|] == nodes;
    return |seen|;
  }

  predicate AnyNodeMissingTopologyKey(nodes: seq<Node>, key: string) {
    exists n :: n in nodes && key !in n.labels
  }

  lemma SubsetIsSmaller<T>(a: set<T>, b: set<T>)
    requires a <= b
    ensures |a| <= |b|
  {
    assert b == a + (b - a);
  }

  /** Cordoning a node never adds a domain. */
  lemma CordonLosesDomains(nodes: seq<Node>, key: string, tolerable: bool)
    ensures |Domains(Candidates(nodes, true), key, tolerable)| <= |Domains(Candidates(nodes, false), key, tolerable)|
  {
    CandidatesAre(nodes);
    SubsetIsSmaller(Domains(Candidates(nodes, true), key, tolerable),
                    Domains(Candidates(nodes, false), key, tolerable));
  }

  // ----- Capacity against demand -----

  datatype SurgeContext = SurgeContext(replicas: nat, surge: Option<nat>, maxUnavailable: Option<int>)

  /** A capacity, and whether there is none. */
  function SpreadCapacity(domains: int, minDomains: int, maxSkew: int): (int, bool) {
    if domains >= minDomains then (0, true) else (domains * maxSkew, false)
  }

  predicate CapacityInfeasible(capacity: int, unlimited: bool, sc: SurgeContext) {
    if unlimited then false
    else if capacity < sc.replicas then true
    else sc.surge.Some? && sc.maxUnavailable == Some(0) && capacity < sc.replicas + sc.surge.value
  }

  /** The pods that run at once at the height of the rollout, as far as the check commits itself. */
  function Peak(sc: SurgeContext): nat {
    if sc.surge.Some? && sc.maxUnavailable == Some(0) then sc.replicas + sc.surge.value else sc.replicas
  }

  /** The domains can hold the peak, whatever order the pods come and go in. */
  ghost predicate HoldsPeak(rule: Placement.Rule, domains: nat, sc: SurgeContext) {
    Placement.Hosts(rule, Placement.All(domains), Peak(sc))
  }

  /** The check's arithmetic says infeasible exactly when no run of the scheduler reaches the peak. */
  lemma SpreadVerdictIsExact(domains: nat, minDomains: int, maxSkew: int, sc: SurgeContext)
    requires minDomains >= 1 && maxSkew >= 1
    ensures var (capacity, unlimited) := SpreadCapacity(domains, minDomains, maxSkew);
            CapacityInfeasible(capacity, unlimited, sc) <==>
            !HoldsPeak(Placement.Spread(minDomains, maxSkew), domains, sc)
  {
    Placement.CapacityIsExact(Placement.Spread(minDomains, maxSkew), Placement.All(domains), Peak(sc));
  }

  lemma AntiAffinityVerdictIsExact(domains: nat, sc: SurgeContext)
    ensures CapacityInfeasible(domains, false, sc) <==> !HoldsPeak(Placement.OnePerDomain, domains, sc)
  {
    Placement.CapacityIsExact(Placement.OnePerDomain, Placement.All(domains), Peak(sc));
  }

  lemma MoreDomainsHoldPeak(rule: Placement.Rule, few: nat, many: nat, sc: SurgeContext)
    requires few <= many && Placement.PerDomain(rule) >= 1 && (rule.Spread? ==> rule.minDomains >= 1)
    requires HoldsPeak(rule, few, sc)
    ensures HoldsPeak(rule, many, sc)
  {
    hide Placement.Hosts, Placement.Capacity;
    Placement.CapacityIsExact(rule, Placement.All(few), Peak(sc));
    Placement.CapacityIsExact(rule, Placement.All(many), Peak(sc));
    Placement.CapacityGrows(rule, few, many);
  }

  // ----- One constraint -----

  datatype Unsatisfiable = DoNotSchedule | ScheduleAnyway

  datatype SpreadConstraint = SpreadConstraint(
    topologyKey: string, maxSkew: int, minDomains: Option<int>, whenUnsatisfiable: Unsatisfiable,
    ignoresNodeAffinity: bool)

  datatype FindingKind =
    | ZeroCandidateNodes | AllMatchingNodesCordoned | AllMatchingNodesUntolerated
    | DeadSpread(key: string) | SpreadInfeasible(key: string) | AntiAffinityInfeasible(key: string)

  datatype Finding = Finding(kind: FindingKind, severity: Severity)

  function MinDomainsOf(tsc: SpreadConstraint): int {
    if tsc.minDomains.Some? then tsc.minDomains.value else 1
  }

  function RuleOf(tsc: SpreadConstraint): Placement.Rule {
    Placement.Spread(MinDomainsOf(tsc), tsc.maxSkew)
  }

  /** What the check knows of a workload on a cluster. */
  datatype Input = Input(nodes: seq<Node>, hasNodeConstraints: bool, sc: SurgeContext) {
    function DomainsOf(key: string, live: bool, tolerable: bool): nat {
      |Domains(Candidates(nodes, live), key, tolerable)|
    }
  }

  /** The API refuses minDomains below 1; here it would bound nothing. */
  ghost predicate SpreadHolds(tsc: SpreadConstraint, domains: nat, sc: SurgeContext) {
    MinDomainsOf(tsc) >= 1 ==> HoldsPeak(RuleOf(tsc), domains, sc)
  }

  /** High: not even with every cordoned node back. Medium: only with cordoned nodes back. */
  ghost function SpreadFinding(tsc: SpreadConstraint, i: Input): Option<Finding> {
    var live, all := i.DomainsOf(tsc.topologyKey, true, false), i.DomainsOf(tsc.topologyKey, false, false);
    if tsc.ignoresNodeAffinity && i.hasNodeConstraints then None
    else if tsc.whenUnsatisfiable.ScheduleAnyway? then
      if live > 0 then None else Some(Finding(DeadSpread(tsc.topologyKey), Low))
    else if SpreadHolds(tsc, live, i.sc) then None
    else Some(Finding(SpreadInfeasible(tsc.topologyKey), if SpreadHolds(tsc, all, i.sc) then Medium else High))
  }

  ghost function AntiAffinityFinding(key: string, i: Input): Option<Finding> {
    var live, all := i.DomainsOf(key, true, true), i.DomainsOf(key, false, true);
    if AnyNodeMissingTopologyKey(Candidates(i.nodes, false), key) then None
    else if HoldsPeak(Placement.OnePerDomain, live, i.sc) then None
    else
      Some(Finding(AntiAffinityInfeasible(key), if HoldsPeak(Placement.OnePerDomain, all, i.sc) then Medium else High))
  }

  lemma SpreadArithmetic(tsc: SpreadConstraint, domains: nat, sc: SurgeContext)
    requires tsc.maxSkew >= 1
    ensures var (capacity, unlimited) := SpreadCapacity(domains, MinDomainsOf(tsc), tsc.maxSkew);
            CapacityInfeasible(capacity, unlimited, sc) <==> !SpreadHolds(tsc, domains, sc)
  {
    if MinDomainsOf(tsc) >= 1 {
      SpreadVerdictIsExact(domains, MinDomainsOf(tsc), tsc.maxSkew, sc);
    }
  }

  method EvaluateSpreadConstraint(tsc: SpreadConstraint, all: seq<Node>, live: seq<Node>, hasNodeConstraints: bool,
                                  sc: SurgeContext, ghost nodes: seq<Node>)
    returns (f: Option<Finding>)
    requires tsc.maxSkew >= 1
    requires all == Candidates(nodes, false) && live == Candidates(nodes, true)
    ensures f == SpreadFinding(tsc, Input(nodes, hasNodeConstraints, sc))
  {
    hide Domains, SpreadHolds;
    if tsc.ignoresNodeAffinity && hasNodeConstraints {
      return None;
    }
    var dLive := DomainCount(live, tsc.topologyKey);
    if tsc.whenUnsatisfiable.ScheduleAnyway? {
      return if dLive > 0 then None else Some(Finding(DeadSpread(tsc.topologyKey), Low));
    }
    var minDomains := 1;
    if tsc.minDomains.Some? {
      minDomains := tsc.minDomains.value;
    }
    var dAll := DomainCount(all, tsc.topologyKey);
    SpreadArithmetic(tsc, dLive, sc);
    SpreadArithmetic(tsc, dAll, sc);
    var (capLive, unlimitedLive) := SpreadCapacity(dLive, minDomains, tsc.maxSkew);
    if !CapacityInfeasible(capLive, unlimitedLive, sc) {
      return None;
    }
    var (capAll, unlimitedAll) := SpreadCapacity(dAll, minDomains, tsc.maxSkew);
    var severity := High;
    if !CapacityInfeasible(capAll, unlimitedAll, sc) {
      severity := Medium;
    }
    return Some(Finding(SpreadInfeasible(tsc.topologyKey), severity));
  }

  method EvaluateAntiAffinityTerm(key: string, all: seq<Node>, live: seq<Node>, hasNodeConstraints: bool,
                                  sc: SurgeContext, ghost nodes: seq<Node>)
    returns (f: Option<Finding>)
    requires all == Candidates(nodes, false) && live == Candidates(nodes, true)
    ensures f == AntiAffinityFinding(key, Input(nodes, hasNodeConstraints, sc))
  {
    hide Domains, HoldsPeak;
    if AnyNodeMissingTopologyKey(all, key) {
      return None;
    }
    var capLive := AntiAffinityDomainCount(live, key);
    AntiAffinityVerdictIsExact(capLive, sc);
    if !CapacityInfeasible(capLive, false, sc) {
      return None;
    }
    var capAll := AntiAffinityDomainCount(all, key);
    AntiAffinityVerdictIsExact(capAll, sc);
    var severity := High;
    if !CapacityInfeasible(capAll, false, sc) {
      severity := Medium;
    }
    return Some(Finding(AntiAffinityInfeasible(key), severity));
  }

  // ----- What cordons are worth -----

  function Uncordoned(nodes: seq<Node>): (out: seq<Node>)
    ensures |out| == |nodes|
  {
    if nodes == [] then []
    else Uncordoned(nodes[..|nodes| - 1]) + [nodes[|nodes| - 1].(cordoned := false)]
  }

  lemma {:induction false} UncordonedCandidates(nodes: seq<Node>)
    ensures Candidates(Uncordoned(nodes), true) == Candidates(Uncordoned(nodes), false)
    ensures |Candidates(Uncordoned(nodes), false)| == |Candidates(nodes, false)|
    ensures forall k :: 0 <= k < |Candidates(nodes, false)| ==>
      Candidates(Uncordoned(nodes), false)[k] == Candidates(nodes, false)[k].(cordoned := false)
  {
    if nodes != [] {
      UncordonedCandidates(nodes[..|nodes| - 1]);
      var out := Uncordoned(nodes);
      assert out[..|out| - 1] == Uncordoned(nodes[..|nodes| - 1]);
    }
  }

  /** The domains once every node is uncordoned, and the cordons' own taints gone with the cordons. */
  function OpenDomains(nodes: seq<Node>, key: string, tolerable: bool): set<string> {
    set n | n in Candidates(nodes, false) && key in n.labels && (tolerable ==> n.othersTolerated) :: n.labels[key]
  }

  lemma UncordonedDomains(nodes: seq<Node>, key: string, tolerable: bool)
    ensures Domains(Candidates(Uncordoned(nodes), true), key, tolerable) == OpenDomains(nodes, key, tolerable)
  {
    UncordonedCandidates(nodes);
    hide Candidates, Uncordoned;
    var before, after := Candidates(nodes, false), Candidates(Uncordoned(nodes), true);
    forall d
      ensures d in OpenDomains(nodes, key, tolerable) <==> d in Domains(after, key, tolerable)
    {
      if d in OpenDomains(nodes, key, tolerable) {
        var n :| n in before && key in n.labels && (tolerable ==> n.othersTolerated) && n.labels[key] == d;
        var k :| 0 <= k < |before| && before[k] == n;
        assert after[k] in after && after[k].labels[key] == d;
      }
      if d in Domains(after, key, tolerable) {
        var n :| n in after && key in n.labels && (tolerable ==> Tolerated(n)) && n.labels[key] == d;
        var k :| 0 <= k < |after| && after[k] == n;
        assert before[k] in before && before[k].labels[key] == d;
      }
    }
  }

  /** Uncordoning never loses a domain, not even one of a node whose cordon the workload tolerates. */
  lemma OpenDomainsAreMore(nodes: seq<Node>, key: string)
    ensures OpenDomains(nodes, key, false) == Domains(Candidates(nodes, false), key, false)
    ensures |Domains(Candidates(nodes, true), key, true)| <= |Domains(Candidates(nodes, false), key, true)|
    ensures |Domains(Candidates(nodes, false), key, true)| <= |OpenDomains(nodes, key, true)|
  {
    CordonLosesDomains(nodes, key, true);
    SubsetIsSmaller(Domains(Candidates(nodes, false), key, true), OpenDomains(nodes, key, true));
  }

  /**
   Medium is a matter of cordons and High is not: with every node uncordoned the Medium
   finding is gone and the High one still stands. A feasible constraint stays feasible.
   */
  lemma SpreadSeverityIsCordons(tsc: SpreadConstraint, i: Input)
    requires tsc.whenUnsatisfiable.DoNotSchedule? && tsc.maxSkew >= 1
    ensures var open := SpreadFinding(tsc, i.(nodes := Uncordoned(i.nodes)));
            match SpreadFinding(tsc, i)
            case None => open == None
            case Some(f) => open == if f.severity == High then Some(f) else None
  {
    hide Domains, HoldsPeak;
    UncordonedDomains(i.nodes, tsc.topologyKey, false);
    OpenDomainsAreMore(i.nodes, tsc.topologyKey);
    UncordonedCandidates(i.nodes);
    CordonLosesDomains(i.nodes, tsc.topologyKey, false);
    var live, all := i.DomainsOf(tsc.topologyKey, true, false), i.DomainsOf(tsc.topologyKey, false, false);
    if MinDomainsOf(tsc) >= 1 && HoldsPeak(RuleOf(tsc), live, i.sc) {
      MoreDomainsHoldPeak(RuleOf(tsc), live, all, i.sc);
    }
  }

  /**
   For anti-affinity a Medium is right: with every node uncordoned it is gone. A High can be too
   severe: the check counts the domains of cordoned nodes by the taints they carry while
   cordoned, the cordon's own among them. It survives uncordoning exactly when not even the
   domains of all matching nodes whose other taints are tolerated hold the peak.
   */
  lemma AntiAffinitySeverity(key: string, i: Input)
    ensures var open := AntiAffinityFinding(key, i.(nodes := Uncordoned(i.nodes)));
            match AntiAffinityFinding(key, i)
            case None => open == None
            case Some(f) =>
              if f.severity == Medium then open == None
              else
                && f.severity == High
                && open == if HoldsPeak(Placement.OnePerDomain, |OpenDomains(i.nodes, key, true)|, i.sc)
                           then None else Some(f)
  {
    hide Domains, OpenDomains, HoldsPeak, AnyNodeMissingTopologyKey;
    UncordonedDomains(i.nodes, key, true);
    UncordonedCandidates(i.nodes);
    OpenDomainsAreMore(i.nodes, key);
    UncordoningKeepsLabels(i.nodes, key);
    var live, all := i.DomainsOf(key, true, true), i.DomainsOf(key, false, true);
    var open := |OpenDomains(i.nodes, key, true)|;
    if HoldsPeak(Placement.OnePerDomain, live, i.sc) {
      MoreDomainsHoldPeak(Placement.OnePerDomain, live, open, i.sc);
    }
    if HoldsPeak(Placement.OnePerDomain, all, i.sc) {
      MoreDomainsHoldPeak(Placement.OnePerDomain, all, open, i.sc);
    }
  }

  const HOST := "kubernetes.io/hostname"

  function HostNode(host: string, cordoned: bool): Node {
    Node(host, map[HOST := host], cordoned, Matches, true, false, map[])
  }

  const HOSTS := [HostNode("a", false), HostNode("b", false), HostNode("c", true)]

  /** Three replicas, one per host, two open hosts and a cordoned one: High, although uncordoning is all it takes. */
  lemma HighAlthoughUncordoningHelps()
    ensures var i := Input(HOSTS, false, SurgeContext(3, None, None));
            && AntiAffinityFinding(HOST, i) == Some(Finding(AntiAffinityInfeasible(HOST), High))
            && AntiAffinityFinding(HOST, i.(nodes := Uncordoned(i.nodes))) == None
  {
    hide HoldsPeak, Domains, OpenDomains, Candidates;
    var i := Input(HOSTS, false, SurgeContext(3, None, None));
    HostCandidates();
    HostDomains();
    AntiAffinityVerdictIsExact(2, i.sc);
    AntiAffinityVerdictIsExact(3, i.sc);
    AntiAffinitySeverity(HOST, i);
  }

  lemma HostCandidates()
    ensures forall n :: n in Candidates(HOSTS, false) <==> n in HOSTS
    ensures forall n :: n in Candidates(HOSTS, true) <==> n == HOSTS[0] || n == HOSTS[1]
    ensures !AnyNodeMissingTopologyKey(Candidates(HOSTS, false), HOST)
  {
    CandidatesAre(HOSTS);
  }

  lemma HostDomains()
    ensures |Domains(Candidates(HOSTS, true), HOST, true)| == |Domains(Candidates(HOSTS, false), HOST, true)| == 2
    ensures |OpenDomains(HOSTS, HOST, true)| == 3
  {
    hide Candidates;
    HostCandidates();
    assert HOSTS[0] in HOSTS && HOSTS[1] in HOSTS && HOSTS[2] in HOSTS;
    assert Domains(Candidates(HOSTS, true), HOST, true) == {"a", "b"};
    assert Domains(Candidates(HOSTS, false), HOST, true) == {"a", "b"};
    assert OpenDomains(HOSTS, HOST, true) == {"a", "b", "c"};
  }

  lemma UncordoningKeepsLabels(nodes: seq<Node>, key: string)
    ensures AnyNodeMissingTopologyKey(Candidates(Uncordoned(nodes), false), key) <==>
            AnyNodeMissingTopologyKey(Candidates(nodes, false), key)
  {
    UncordonedCandidates(nodes);
    hide Candidates, Uncordoned;
    var before, after := Candidates(nodes, false), Candidates(Uncordoned(nodes), false);
    if n :| n in before && key !in n.labels {
      var k :| 0 <= k < |before| && before[k] == n;
      assert after[k] in after;
    }
    if n :| n in after && key !in n.labels {
      var k :| 0 <= k < |after| && after[k] == n;
      assert before[k] in before;
    }
  }

  // ----- What the spread count leaves out -----

  /**
   The spread count ignores taints. A counted domain without a tolerated node stays empty and
   holds the global minimum at zero. So a finding is always right, and its absence is right
   exactly when every counted domain has a tolerated node, or the peak fits into those that
   have one with maxSkew pods each.
   */
  lemma SpreadSilenceIsRightWhen(tsc: SpreadConstraint, i: Input)
    requires tsc.whenUnsatisfiable.DoNotSchedule? && tsc.maxSkew >= 1 && MinDomainsOf(tsc) >= 1
    requires !(tsc.ignoresNodeAffinity && i.hasNodeConstraints)
    ensures var counted, open := i.DomainsOf(tsc.topologyKey, true, false), i.DomainsOf(tsc.topologyKey, true, true);
            Placement.Hosts(RuleOf(tsc), Placement.Topology(counted, open), Peak(i.sc)) <==>
            SpreadFinding(tsc, i) == None && (open == counted || Peak(i.sc) <= open * tsc.maxSkew)
  {
    var live := Candidates(i.nodes, true);
    SubsetIsSmaller(Domains(live, tsc.topologyKey, true), Domains(live, tsc.topologyKey, false));
    var counted, open := i.DomainsOf(tsc.topologyKey, true, false), i.DomainsOf(tsc.topologyKey, true, true);
    TaintsLowerCapacity(RuleOf(tsc), counted, open, i.sc);
  }

  lemma TaintsLowerCapacity(rule: Placement.Rule, counted: nat, open: nat, sc: SurgeContext)
    requires rule.Spread? && rule.minDomains >= 1 && rule.maxSkew >= 1 && open <= counted
    ensures Placement.Hosts(rule, Placement.Topology(counted, open), Peak(sc)) <==>
            HoldsPeak(rule, counted, sc) && (open == counted || Peak(sc) <= open * rule.maxSkew)
  {
    hide Placement.Hosts, Peak;
    Placement.CapacityIsExact(rule, Placement.Topology(counted, open), Peak(sc));
    Placement.CapacityIsExact(rule, Placement.All(counted), Peak(sc));
    FewerTimes(open, counted, rule.maxSkew);
  }

  lemma FewerTimes(few: nat, many: nat, each: nat)
    requires few <= many
    ensures few * each <= many * each
  {
  }

  const ZONE := "zone"

  const ZONES := [
    Node("a", map[ZONE := "1"], false, Matches, true, false, map[]),
    Node("b", map[ZONE := "2"], false, Matches, false, false, map[])
  ]

  /** Two zones, one of them tainted throughout: two replicas with maxSkew 1 do not fit, and nothing is reported. */
  lemma SilentAlthoughTainted()
    ensures var tsc := SpreadConstraint(ZONE, 1, None, DoNotSchedule, false);
            var i := Input(ZONES, false, SurgeContext(2, None, None));
            var topo := Placement.Topology(i.DomainsOf(ZONE, true, false), i.DomainsOf(ZONE, true, true));
            SpreadFinding(tsc, i) == None && !Placement.Hosts(RuleOf(tsc), topo, Peak(i.sc))
  {
    hide HoldsPeak, Placement.Hosts, Domains, Candidates;
    var tsc := SpreadConstraint(ZONE, 1, None, DoNotSchedule, false);
    var i := Input(ZONES, false, SurgeContext(2, None, None));
    ZoneDomains();
    SpreadArithmetic(tsc, 2, i.sc);
    SpreadSilenceIsRightWhen(tsc, i);
  }

  lemma ZoneDomains()
    ensures |Domains(Candidates(ZONES, true), ZONE, false)| == 2
    ensures |Domains(Candidates(ZONES, true), ZONE, true)| == 1
  {
    CandidatesAre(ZONES);
    hide Candidates;
    assert ZONES[0] in ZONES && ZONES[1] in ZONES;
    assert Domains(Candidates(ZONES, true), ZONE, false) == {"1", "2"};
    assert Domains(Candidates(ZONES, true), ZONE, true) == {"1"};
  }

  // ----- What the surge clause is worth -----

  /** What the check makes of a strategy: without surge there is nothing to add to the desired count. */
  function ContextFor(replicas: nat, surge: nat, maxUnavailable: nat): SurgeContext {
    SurgeContext(replicas, if surge > 0 then Some(surge) else None, Some(maxUnavailable))
  }

  /** What the Deployment controller makes of it: with no surge and nothing to lose it may still lose one. */
  function Resolved(surge: nat, maxUnavailable: nat): nat {
    if surge == 0 && maxUnavailable == 0 then 1 else maxUnavailable
  }

  /**
   For every capacity and strategy: what is not flagged can roll out. What is flagged cannot, except
   between the desired count and the surge peak: there the peak does not fit, but the rollout finishes.
   */
  lemma SurgeVerdict(t: Rollouts.Terms, maxUnavailable: nat)
    requires t.replicas >= 1 && t.capacity.Some? && t.maxUnavailable == Resolved(t.surge, maxUnavailable)
    ensures var flagged := CapacityInfeasible(t.capacity.value, false, ContextFor(t.replicas, t.surge, maxUnavailable));
            Rollouts.CanFinish(t) <==>
            !flagged || (maxUnavailable == 0 && t.replicas < t.capacity.value < t.replicas + t.surge)
  {
    Rollouts.CanFinishExactly(t);
  }

  /** The rule lets the old version be placed, and wherever it is, every way of rolling it over finishes. */
  ghost predicate RollsOut(rule: Placement.Rule, topo: Placement.Topology, t: Rollouts.Terms) {
    && Placement.Hosts(rule, topo, t.replicas)
    && forall start :: DomainRollouts.Starts(rule, topo, t.replicas, start) ==>
         DomainRollouts.AlwaysFinishes(rule, topo, t, start)
  }

  /** The rule lets the old version be placed somewhere, and some way of rolling it over finishes. */
  ghost predicate CanRollOut(rule: Placement.Rule, topo: Placement.Topology, t: Rollouts.Terms) {
    exists start :: DomainRollouts.Starts(rule, topo, t.replicas, start)
                    && DomainRollouts.Finishes(rule, topo, t, start)
  }

  /**
   The same for a spread or anti-affinity rule itself, pods placed domain by domain. There is no
   middle ground: either every start and every order of actions finishes, or none does.
   */
  lemma RuleSurgeVerdict(rule: Placement.Rule, domains: nat, replicas: nat, surge: nat, maxUnavailable: nat)
    requires Placement.Sensible(rule, Placement.All(domains)) && replicas >= 1
    ensures var topo := Placement.All(domains);
            var t := DomainRollouts.TermsOf(rule, topo, replicas, surge, Resolved(surge, maxUnavailable));
            var capacity := Placement.Capacity(rule, topo);
            var flagged := capacity.Some?
                           && CapacityInfeasible(capacity.value, false, ContextFor(replicas, surge, maxUnavailable));
            && (RollsOut(rule, topo, t) <==>
                !flagged || (maxUnavailable == 0 && replicas < capacity.value < replicas + surge))
            && (RollsOut(rule, topo, t) <==> CanRollOut(rule, topo, t))
  {
    hide Placement.Capacity, Placement.Hosts;
    hide DomainRollouts.Finishes, DomainRollouts.AlwaysFinishes, DomainRollouts.Starts;
    var topo := Placement.All(domains);
    var t := DomainRollouts.TermsOf(rule, topo, replicas, surge, Resolved(surge, maxUnavailable));
    Placement.CapacityIsExact(rule, topo, replicas);
    forall start | DomainRollouts.Starts(rule, topo, replicas, start)
      ensures Placement.Hosts(rule, topo, replicas)
      ensures |start| == topo.domains
      ensures DomainRollouts.Finishes(rule, topo, t, start) <==> DomainRollouts.AlwaysFinishes(rule, topo, t, start)
      ensures DomainRollouts.Finishes(rule, topo, t, start) <==>
              !(t.maxUnavailable == 0 && Placement.Capacity(rule, topo) == Some(replicas))
    {
      StartIsHosted(rule, topo, replicas, start);
      DomainRollouts.FinishesUnlessDeadlocked(rule, topo, t, start);
    }
    if Placement.Hosts(rule, topo, replicas) {
      var start := OldVersion(rule, topo, replicas);
    }
  }

  lemma StartIsHosted(rule: Placement.Rule, topo: Placement.Topology, replicas: nat, start: Placement.Counts)
    requires DomainRollouts.Starts(rule, topo, replicas, start)
    ensures Placement.Hosts(rule, topo, replicas) && |start| == topo.domains
  {
  }

  lemma OldVersion(rule: Placement.Rule, topo: Placement.Topology, replicas: nat) returns (start: Placement.Counts)
    requires Placement.Hosts(rule, topo, replicas)
    ensures DomainRollouts.Starts(rule, topo, replicas, start)
  {
    start :| Placement.Reachable(rule, topo, start) && Placement.Sum(start) == replicas;
    var steps :| Placement.After(rule, topo, steps) == Some(start);
  }

  /** Two replicas, surge two, one pod per domain and three domains: flagged, and yet the rollout finishes. */
  lemma FlaggedYetFinishes()
    ensures CapacityInfeasible(3, false, SurgeContext(2, Some(2), Some(0)))
    ensures RollsOut(Placement.OnePerDomain, Placement.All(3),
                     DomainRollouts.TermsOf(Placement.OnePerDomain, Placement.All(3), 2, 2, 0))
  {
    RuleSurgeVerdict(Placement.OnePerDomain, 3, 2, 2, 0);
  }

  // ----- The whole check -----

  datatype AntiAffinityTerm = AntiAffinityTerm(
    topologyKey: string, crossNamespace: bool, revisionScoped: bool, selectsOwnPods: Option<bool>)

  datatype Workload = Workload(
    daemonSet: bool, replicas: nat, spread: seq<SpreadConstraint>, antiAffinity: seq<AntiAffinityTerm>,
    hasNodeConstraints: bool, foreignScheduler: bool, strategy: Rollouts.Strategy)

  datatype CheckResult = Skipped(reason: string) | Reported(findings: seq<Finding>)

  predicate Counts(term: AntiAffinityTerm) {
    term.topologyKey != "" && !term.crossNamespace && !term.revisionScoped && term.selectsOwnPods == Some(true)
  }

  function SelfTerms(terms: seq<AntiAffinityTerm>): seq<string> {
    if terms == [] then []
    else SelfTerms(terms[..|terms| - 1]) + if Counts(terms[|terms| - 1]) then [terms[|terms| - 1].topologyKey] else []
  }

  method RequiredSelfAntiAffinityTerms(terms: seq<AntiAffinityTerm>) returns (keys: seq<string>)
    ensures keys == SelfTerms(terms)
  {
    keys := [];
    for i := 0 to |terms|
      invariant keys == SelfTerms(terms[..i])
    {
      assert terms[..i + 1][..i] == terms[..i];
      var term := terms[i];
      if term.topologyKey == "" {
        continue;
      }
      if term.crossNamespace {
        continue;
      }
      if term.revisionScoped {
        continue;
      }
      if term.selectsOwnPods != Some(true) {
        continue;
      }
      keys := keys + [term.topologyKey];
    }
    assert terms[..|terms|] == terms;
  }

  function ContextOf(w: Workload): SurgeContext {
    var surge := Rollouts.SurgeCount(w.strategy, w.replicas);
    SurgeContext(w.replicas, if surge.Some? && surge.value >= 0 then Some(surge.value) else None,
                 Rollouts.MaxUnavailableCount(w.strategy, w.replicas))
  }

  ghost function SpreadFindings(spread: seq<SpreadConstraint>, i: Input): seq<Finding> {
    if spread == [] then []
    else
      var tsc := spread[|spread| - 1];
      SpreadFindings(spread[..|spread| - 1], i)
      + if tsc.maxSkew >= 1 && SpreadFinding(tsc, i).Some? then [SpreadFinding(tsc, i).value] else []
  }

  ghost function AntiAffinityFindings(keys: seq<string>, i: Input): seq<Finding> {
    if keys == [] then []
    else
      var f := AntiAffinityFinding(keys[|keys| - 1], i);
      AntiAffinityFindings(keys[..|keys| - 1], i) + if f.Some? then [f.value] else []
  }

  /** A node the workload's pods can run on now. */
  predicate Usable(n: Node) {
    n.affinity.Matches? && !n.cordoned && Tolerated(n)
  }

  /** The verdict on the node selector and required node affinity alone. */
  ghost function NodeFindings(nodes: seq<Node>): seq<Finding> {
    if exists n :: n in nodes && Usable(n) then []
    else if exists n :: n in nodes && n.affinity.Matches? && !n.cordoned then
      [Finding(AllMatchingNodesUntolerated, High)]
    else if exists n :: n in nodes && n.affinity.Matches? then [Finding(AllMatchingNodesCordoned, Medium)]
    else [Finding(ZeroCandidateNodes, High)]
  }

  ghost function Verdict(w: Workload, nodes: Result<seq<Node>>): CheckResult {
    var keys := SelfTerms(w.antiAffinity);
    var unconstrained := w.spread == [] && keys == [];
    if w.daemonSet then Skipped("DaemonSet")
    else if w.replicas == 0 || (unconstrained && !w.hasNodeConstraints) || w.foreignScheduler then Reported([])
    else if nodes.Err? then Skipped(nodes.error)
    else if nodes.value == [] then Skipped("zero nodes")
    else if (forall n :: n in nodes.value ==> !n.affinity.Matches?) && LastError(nodes.value).Some? then
      Skipped(LastError(nodes.value).value)
    else if unconstrained || forall n :: n in nodes.value ==> !n.affinity.Matches? then
      Reported(NodeFindings(nodes.value))
    else
      var i := Input(nodes.value, w.hasNodeConstraints, ContextOf(w));
      Reported(SpreadFindings(w.spread, i) + AntiAffinityFindings(keys, i))
  }

  method EvaluateConstraints(w: Workload, keys: seq<string>, all: seq<Node>, live: seq<Node>, ghost nodes: seq<Node>)
    returns (findings: seq<Finding>)
    requires all == Candidates(nodes, false) && live == Candidates(nodes, true)
    ensures var i := Input(nodes, w.hasNodeConstraints, ContextOf(w));
            findings == SpreadFindings(w.spread, i) + AntiAffinityFindings(keys, i)
  {
    hide SpreadFinding, AntiAffinityFinding, Candidates;
    var sc := ContextOf(w);
    ghost var input := Input(nodes, w.hasNodeConstraints, sc);
    findings := [];
    for i := 0 to |w.spread|
      invariant findings == SpreadFindings(w.spread[..i], input)
    {
      assert w.spread[..i + 1][..i] == w.spread[..i];
      if w.spread[i].maxSkew <= 0 {
        continue;
      }
      var f := EvaluateSpreadConstraint(w.spread[i], all, live, w.hasNodeConstraints, sc, nodes);
      if f.Some? {
        findings := findings + [f.value];
      }
    }
    assert w.spread[..|w.spread|] == w.spread;
    ghost var spread := findings;
    for i := 0 to |keys|
      invariant findings == spread + AntiAffinityFindings(keys[..i], input)
    {
      assert keys[..i + 1][..i] == keys[..i];
      var f := EvaluateAntiAffinityTerm(keys[i], all, live, w.hasNodeConstraints, sc, nodes);
      if f.Some? {
        findings := findings + [f.value];
      }
    }
    assert keys[..|keys|] == keys;
  }

  method CountTolerated(nodes: seq<Node>) returns (count: nat)
    ensures count > 0 <==> exists n :: n in nodes && Tolerated(n)
  {
    count := 0;
    for i := 0 to |nodes|
      invariant count > 0 <==> exists n :: n in nodes[..i] && Tolerated(n)
    {
      assert nodes[..i + 1] == nodes[..i] + [nodes[i]];
      if Tolerated(nodes[i]) {
        count := count + 1;
      }
    }
    assert nodes[..|nodes|] == nodes;
  }

  lemma NoCandidates(nodes: seq<Node>)
    ensures Candidates(nodes, false) == [] <==> forall n :: n in nodes ==> !n.affinity.Matches?
    ensures Candidates(nodes, false) == [] ==> NodeFindings(nodes) == [Finding(ZeroCandidateNodes, High)]
  {
    CandidatesAre(nodes);
    var all := Candidates(nodes, false);
    assert |all| > 0 ==> all[0] in all;
  }

  /** The path without spread or anti-affinity constraints, some node matching. */
  method EvaluateNodeConstraints(all: seq<Node>, live: seq<Node>, ghost nodes: seq<Node>)
    returns (findings: seq<Finding>)
    requires all == Candidates(nodes, false) && live == Candidates(nodes, true) && |all| > 0
    ensures findings == NodeFindings(nodes)
  {
    CandidatesAre(nodes);
    hide Candidates;
    assert all[0] in all;
    assert |live| > 0 ==> live[0] in live;
    if |live| == 0 {
      return [Finding(AllMatchingNodesCordoned, Medium)];
    }
    var tolerated := CountTolerated(live);
    return if tolerated == 0 then [Finding(AllMatchingNodesUntolerated, High)] else [];
  }

  method Run(w: Workload, nodes: Result<seq<Node>>) returns (r: CheckResult)
    ensures r == Verdict(w, nodes)
  {
    hide SpreadFindings, AntiAffinityFindings, LastError, ContextOf, SelfTerms;
    if w.daemonSet {
      return Skipped("DaemonSet");
    }
    if w.replicas == 0 {
      return Reported([]);
    }
    var keys := RequiredSelfAntiAffinityTerms(w.antiAffinity);
    if |w.spread| == 0 && |keys| == 0 && !w.hasNodeConstraints {
      return Reported([]);
    }
    if w.foreignScheduler {
      return Reported([]);
    }
    if nodes.Err? {
      return Skipped(nodes.error);
    }
    if |nodes.value| == 0 {
      return Skipped("zero nodes");
    }
    var all, live, matchErr := CandidateNodes(nodes.value);
    NoCandidates(nodes.value);
    hide NodeFindings, Candidates;
    if |all| == 0 {
      return if matchErr.Some? then Skipped(matchErr.value) else Reported([Finding(ZeroCandidateNodes, High)]);
    }
    if |w.spread| == 0 && |keys| == 0 {
      var onNodes := EvaluateNodeConstraints(all, live, nodes.value);
      return Reported(onNodes);
    }
    var findings := EvaluateConstraints(w, keys, all, live, nodes.value);
    return Reported(findings);
  }

  lemma UncordonedMembers(nodes: seq<Node>)
    ensures forall n :: n in nodes ==> n.(cordoned := false) in Uncordoned(nodes)
    ensures forall n :: n in Uncordoned(nodes) ==> !n.cordoned && exists m :: m in nodes && n == m.(cordoned := false)
  {
    if nodes != [] {
      UncordonedMembers(nodes[..|nodes| - 1]);
      assert nodes == nodes[..|nodes| - 1] + [nodes[|nodes| - 1]];
    }
  }

  /** With every node uncordoned the Medium is gone exactly when some matching node's other taints are tolerated. */
  lemma CordonedClaim(nodes: seq<Node>)
    requires NodeFindings(nodes) == [Finding(AllMatchingNodesCordoned, Medium)]
    ensures NodeFindings(Uncordoned(nodes)) ==
            if exists n :: n in nodes && n.affinity.Matches? && n.othersTolerated then []
            else [Finding(AllMatchingNodesUntolerated, High)]
  {
    UncordonedMembers(nodes);
    var open := Uncordoned(nodes);
    var m :| m in nodes && m.affinity.Matches?;
    assert m.(cordoned := false) in open && m.(cordoned := false).affinity.Matches?;
    if n :| n in nodes && n.affinity.Matches? && n.othersTolerated {
      assert Usable(n.(cordoned := false)) && n.(cordoned := false) in open;
    }
    if n :| n in open && Usable(n) {
      var k :| k in nodes && n == k.(cordoned := false);
      assert k.affinity.Matches? && k.othersTolerated;
    }
  }

  function UncordonedAt(nodes: seq<Node>, k: nat): seq<Node>
    requires k < |nodes|
  {
    nodes[k := nodes[k].(cordoned := false)]
  }

  /** With one matching node uncordoned it is gone exactly when that node's other taints are tolerated. */
  lemma OneIsEnoughWhen(nodes: seq<Node>, k: nat)
    requires k < |nodes| && nodes[k].affinity.Matches?
    requires NodeFindings(nodes) == [Finding(AllMatchingNodesCordoned, Medium)]
    ensures NodeFindings(UncordonedAt(nodes, k)) ==
            if nodes[k].othersTolerated then [] else [Finding(AllMatchingNodesUntolerated, High)]
  {
    var one := UncordonedAt(nodes, k);
    assert one[k] in one;
    forall j | 0 <= j < |one| && j != k
      ensures one[j].affinity.Matches? ==> one[j].cordoned
    {
      assert nodes[j] in nodes;
    }
    forall n | n in one && n.affinity.Matches? && !n.cordoned
      ensures n == one[k]
    {
      var j :| 0 <= j < |one| && one[j] == n;
    }
  }

  /** Uncordoning any one matching node restores feasibility. */
  ghost predicate AnyOneIsEnough(nodes: seq<Node>) {
    forall k: nat :: k < |nodes| && nodes[k].affinity.Matches? ==> NodeFindings(UncordonedAt(nodes, k)) == []
  }

  /** That is so exactly when the other taints of all matching nodes are tolerated. */
  lemma AnyOneIsEnoughExactly(nodes: seq<Node>)
    requires NodeFindings(nodes) == [Finding(AllMatchingNodesCordoned, Medium)]
    ensures AnyOneIsEnough(nodes) <==> forall n :: n in nodes && n.affinity.Matches? ==> n.othersTolerated
  {
    hide NodeFindings;
    forall k: nat | k < |nodes| && nodes[k].affinity.Matches?
      ensures NodeFindings(UncordonedAt(nodes, k)) == [] <==> nodes[k].othersTolerated
    {
      OneIsEnoughWhen(nodes, k);
    }
    if AnyOneIsEnough(nodes) {
      forall n | n in nodes && n.affinity.Matches?
        ensures n.othersTolerated
      {
        var k: nat :| k < |nodes| && nodes[k] == n;
        assert NodeFindings(UncordonedAt(nodes, k)) == [];
      }
    }
  }

  const TWO_CORDONED := [
    Node("a", map[], true, Matches, true, false, map[]),
    Node("b", map[], true, Matches, false, false, map[])
  ]

  /** Two cordoned nodes, the second with a taint of its own: uncordoning the first helps, the second does not. */
  lemma OneMayNotBeEnough()
    ensures NodeFindings(TWO_CORDONED) == [Finding(AllMatchingNodesCordoned, Medium)]
    ensures NodeFindings(UncordonedAt(TWO_CORDONED, 0)) == []
    ensures NodeFindings(UncordonedAt(TWO_CORDONED, 1)) == [Finding(AllMatchingNodesUntolerated, High)]
    ensures !AnyOneIsEnough(TWO_CORDONED)
  {
    assert TWO_CORDONED[0] in TWO_CORDONED;
    OneIsEnoughWhen(TWO_CORDONED, 0);
    OneIsEnoughWhen(TWO_CORDONED, 1);
  }
}
