/**
 What a run of the scheduling-constraints-feasibility check reports (internal/check/scheduling.go
 lines 179-311), said of the workload and the nodes alone: the counts its strategy resolves to, the
 domains its constraints leave it, and what the placement and rollout steps make of the two.
 */
module SchedulingRuns {
  import opened Base
  import opened Scheduling
  import Rollouts
  import Placement
  import DomainRollouts

  // ----- The counts of a strategy -----

  /** A percentage of the desired count surges by the least whole number not below it. */
  lemma SurgeIs(w: Workload, n: nat)
    ensures ContextOf(w).surge == Some(n) <==>
            && n > 0 && w.strategy.kind.RollingUpdate?
            && match w.strategy.maxSurge
               case Some(Count(k)) => n == k
               case Some(Percent(p)) => 100 * (n - 1) < p * w.replicas <= 100 * n
               case _ => false
  {
    match w.strategy.maxSurge
    case Some(Percent(p)) =>
      Rollouts.RoundsToNearest(p, w.replicas, n);
      Rollouts.RoundsToNearest(p, w.replicas, n - 1);
      hide Rollouts.Ceil;
    case _ =>
  }

  /** And may lose the greatest whole number not above it, whatever the kind of the strategy. */
  lemma MaxUnavailableIs(w: Workload, n: int)
    ensures ContextOf(w).maxUnavailable == Some(n) <==>
            match w.strategy.maxUnavailable
            case Some(Count(k)) => n == k
            case Some(Percent(p)) => 100 * n <= p * w.replicas < 100 * (n + 1)
            case _ => false
  {
    match w.strategy.maxUnavailable
    case Some(Percent(p)) =>
      Rollouts.RoundsToNearest(p, w.replicas, n);
      Rollouts.RoundsToNearest(p, w.replicas, n + 1);
      hide Rollouts.Floor;
    case _ =>
  }

  /** The surge and the maxUnavailable the strategy of a workload resolves to. */
  ghost predicate Resolves(w: Workload, surge: nat, maxUnavailable: nat) {
    && Rollouts.SurgeCount(w.strategy, w.replicas) == (if surge > 0 then Some(surge) else None)
    && Rollouts.MaxUnavailableCount(w.strategy, w.replicas) == Some(maxUnavailable)
  }

  /** What the check asks the domains to hold: the surge is on top only when no pod may be lost. */
  lemma ContextIs(w: Workload, surge: nat, maxUnavailable: nat)
    requires Resolves(w, surge, maxUnavailable)
    ensures ContextOf(w) == ContextFor(w.replicas, surge, maxUnavailable)
    ensures Peak(ContextOf(w)) == w.replicas + if maxUnavailable == 0 then surge else 0
  {
  }

  /** Without a surge, or without a maxUnavailable that resolves, it asks for the desired count. */
  lemma ContextWithout(w: Workload)
    ensures ContextOf(w).replicas == w.replicas
    ensures !w.strategy.kind.RollingUpdate? || w.strategy.maxSurge.None? ==> ContextOf(w).surge == None
    ensures ContextOf(w).surge == None || ContextOf(w).maxUnavailable == None ==> Peak(ContextOf(w)) == w.replicas
  {
  }

  // ----- The domains -----

  /** A node new pods may be placed on as far as its labels go. */
  ghost predicate Eligible(n: Node, live: bool) {
    n.affinity.Matches? && (live ==> !n.cordoned)
  }

  /** The domains of the nodes that match; of the uncordoned ones only, and of those pods can land on only. */
  ghost function Offered(nodes: seq<Node>, key: string, live: bool, landing: bool): set<string> {
    set n | n in nodes && Eligible(n, live) && key in n.labels
            && (landing ==> n.othersTolerated && (n.cordoned ==> n.cordonTolerated)) :: n.labels[key]
  }

  lemma OfferedAre(i: Input, key: string, live: bool, landing: bool)
    ensures i.DomainsOf(key, live, landing) == |Offered(i.nodes, key, live, landing)|
  {
    CandidatesAre(i.nodes);
    hide Candidates;
    assert Domains(Candidates(i.nodes, live), key, landing) == Offered(i.nodes, key, live, landing);
  }

  /** The last node whose match failed gives the reason. */
  lemma {:induction false} LastErrorIs(nodes: seq<Node>, k: nat)
    requires k < |nodes| && nodes[k].affinity.Unparsable?
    requires forall j :: k < j < |nodes| ==> !nodes[j].affinity.Unparsable?
    ensures LastError(nodes) == Some(nodes[k].affinity.error)
  {
    if k < |nodes| - 1 {
      LastErrorIs(nodes[..|nodes| - 1], k);
    }
  }

  // ----- When there is anything to report -----

  /** A required anti-affinity term the workload's own pods fall under, and nothing else decides. */
  ghost predicate KeepsItsPodsApart(term: AntiAffinityTerm) {
    term.topologyKey != "" && !term.crossNamespace && !term.revisionScoped && term.selectsOwnPods == Some(true)
  }

  lemma {:induction false} SelfTermsAre(terms: seq<AntiAffinityTerm>)
    ensures forall key :: key in SelfTerms(terms) <==>
              exists t :: t in terms && KeepsItsPodsApart(t) && t.topologyKey == key
    ensures SelfTerms(terms) == [] <==> forall t :: t in terms ==> !KeepsItsPodsApart(t)
  {
    if terms != [] {
      var init, last := terms[..|terms| - 1], terms[|terms| - 1];
      assert terms == init + [last];
      SelfTermsAre(init);
      assert KeepsItsPodsApart(last) <==> Counts(last);
      assert forall t :: t in terms <==> t in init || t == last;
    }
  }

  ghost predicate ConstrainsPods(w: Workload) {
    w.spread != [] || exists t :: t in w.antiAffinity && KeepsItsPodsApart(t)
  }

  /** The workload is one whose scheduling the check looks into. */
  ghost predicate Considered(w: Workload) {
    !w.daemonSet && w.replicas > 0 && (ConstrainsPods(w) || w.hasNodeConstraints) && !w.foreignScheduler
  }

  ghost predicate SomeMatch(nodes: seq<Node>) {
    exists n :: n in nodes && n.affinity.Matches?
  }

  /** The check refuses to conclude for a DaemonSet, and without a node it can read and match. */
  lemma SkipsExactly(w: Workload, nodes: Result<seq<Node>>)
    ensures Verdict(w, nodes).Skipped? <==>
            || w.daemonSet
            || (Considered(w)
                && (nodes.Err?
                    || nodes.value == []
                    || (!SomeMatch(nodes.value) && exists n :: n in nodes.value && n.affinity.Unparsable?)))
  {
    hide SpreadFindings, AntiAffinityFindings, NodeFindings, LastError, SelfTerms, ContextOf;
    SelfTermsAre(w.antiAffinity);
    if nodes.Ok? {
      SomeError(nodes.value);
    }
  }

  lemma {:induction false} SomeError(nodes: seq<Node>)
    ensures LastError(nodes).Some? <==> exists n :: n in nodes && n.affinity.Unparsable?
  {
    if nodes != [] {
      assert nodes == nodes[..|nodes| - 1] + [nodes[|nodes| - 1]];
      SomeError(nodes[..|nodes| - 1]);
    }
  }

  lemma NotConsidered(w: Workload, nodes: Result<seq<Node>>)
    requires !w.daemonSet && !Considered(w)
    ensures Verdict(w, nodes) == Reported([])
  {
    SelfTermsAre(w.antiAffinity);
  }

  /** No node matches: no pod can be scheduled, whatever the constraints. */
  lemma NothingMatches(w: Workload, nodes: seq<Node>)
    requires Considered(w) && nodes != [] && forall n :: n in nodes ==> n.affinity.Differs?
    ensures Verdict(w, Ok(nodes)) == Reported([Finding(ZeroCandidateNodes, High)])
  {
    hide SelfTerms;
    SelfTermsAre(w.antiAffinity);
    SomeError(nodes);
  }

  /** Only a node selector or node affinity: silent, Medium or High by what the matching nodes are like. */
  lemma NodesDecide(w: Workload, nodes: seq<Node>)
    requires Considered(w) && !ConstrainsPods(w) && SomeMatch(nodes)
    ensures var up := exists n :: n in nodes && n.affinity.Matches? && !n.cordoned;
            var usable := exists n :: n in nodes && n.affinity.Matches? && !n.cordoned && n.othersTolerated;
            Verdict(w, Ok(nodes)) ==
            Reported(if usable then []
                     else if up then [Finding(AllMatchingNodesUntolerated, High)]
                     else [Finding(AllMatchingNodesCordoned, Medium)])
  {
    hide SelfTerms, LastError;
    SelfTermsAre(w.antiAffinity);
    assert forall n: Node :: Usable(n) <==> n.affinity.Matches? && !n.cordoned && n.othersTolerated;
  }

  // ----- What is reported of each constraint -----

  /** Every spread constraint and every term is evaluated by itself; what they yield is reported in order. */
  lemma ConstraintsDecide(w: Workload, nodes: seq<Node>)
    requires Considered(w) && ConstrainsPods(w) && SomeMatch(nodes)
    ensures var i := Input(nodes, w.hasNodeConstraints, ContextOf(w));
            Verdict(w, Ok(nodes)) ==
            Reported(SpreadFindings(w.spread, i) + AntiAffinityFindings(SelfTerms(w.antiAffinity), i))
  {
    hide SpreadFindings, AntiAffinityFindings, NodeFindings, LastError, SelfTerms, ContextOf;
    SelfTermsAre(w.antiAffinity);
  }

  lemma {:induction false} SpreadInOrder(a: seq<SpreadConstraint>, b: seq<SpreadConstraint>, i: Input)
    ensures SpreadFindings(a + b, i) == SpreadFindings(a, i) + SpreadFindings(b, i)
  {
    if b == [] {
      assert a + b == a;
    } else {
      hide SpreadFinding;
      assert (a + b)[..|a + b| - 1] == a + b[..|b| - 1];
      SpreadInOrder(a, b[..|b| - 1], i);
    }
  }

  lemma {:induction false} AntiAffinityInOrder(a: seq<string>, b: seq<string>, i: Input)
    ensures AntiAffinityFindings(a + b, i) == AntiAffinityFindings(a, i) + AntiAffinityFindings(b, i)
  {
    hide AntiAffinityFinding;
    if b == [] {
      assert a + b == a && AntiAffinityFindings(b, i) == [];
    } else {
      hide AntiAffinityFindings;
      var init, last := b[..|b| - 1], b[|b| - 1];
      assert a + b == (a + init) + [last] && b == init + [last];
      AntiAffinityInOrder(a, init, i);
      OneMoreTerm(a + init, last, i);
      OneMoreTerm(init, last, i);
    }
  }

  lemma OneMoreTerm(keys: seq<string>, last: string, i: Input)
    ensures AntiAffinityFindings(keys + [last], i) == AntiAffinityFindings(keys, i) + AntiAffinityFindings([last], i)
  {
    OneTerm(last, i);
    assert (keys + [last])[..|keys|] == keys;
    hide AntiAffinityFinding;
  }

  lemma {:induction false} TermsInOrder(a: seq<AntiAffinityTerm>, b: seq<AntiAffinityTerm>)
    ensures SelfTerms(a + b) == SelfTerms(a) + SelfTerms(b)
  {
    if b == [] {
      assert a + b == a;
    } else {
      assert (a + b)[..|a + b| - 1] == a + b[..|b| - 1];
      TermsInOrder(a, b[..|b| - 1]);
    }
  }

  /** High when not even all matching nodes' domains hold the pods, Medium when only the cordoned ones are missing. */
  ghost function ByRoom(kind: FindingKind, rule: Placement.Rule, live: nat, all: nat, pods: nat): seq<Finding> {
    if Placement.Hosts(rule, Placement.All(live), pods) then []
    else if Placement.Hosts(rule, Placement.All(all), pods) then [Finding(kind, Medium)]
    else [Finding(kind, High)]
  }

  ghost predicate IsValid(tsc: SpreadConstraint) {
    tsc.maxSkew >= 1 && (tsc.minDomains.Some? ==> tsc.minDomains.value >= 1)
  }

  ghost function SpreadRule(tsc: SpreadConstraint): Placement.Rule {
    Placement.Spread(match tsc.minDomains case Some(n) => n case None => 1, tsc.maxSkew)
  }

  /** A binding spread constraint is judged by the pods the check asks for and the domains there are. */
  lemma SpreadDecides(w: Workload, nodes: seq<Node>, tsc: SpreadConstraint)
    requires IsValid(tsc) && tsc.whenUnsatisfiable.DoNotSchedule?
    requires !(tsc.ignoresNodeAffinity && w.hasNodeConstraints)
    ensures var live := |Offered(nodes, tsc.topologyKey, true, false)|;
            var all := |Offered(nodes, tsc.topologyKey, false, false)|;
            SpreadFindings([tsc], Input(nodes, w.hasNodeConstraints, ContextOf(w))) ==
            ByRoom(SpreadInfeasible(tsc.topologyKey), SpreadRule(tsc), live, all, Peak(ContextOf(w)))
  {
    var i := Input(nodes, w.hasNodeConstraints, ContextOf(w));
    OfferedAre(i, tsc.topologyKey, true, false);
    OfferedAre(i, tsc.topologyKey, false, false);
    hide Offered, Input.DomainsOf, ContextOf, Peak, Placement.Hosts;
    assert [tsc][..0] == [];
  }

  /** A preference is dead exactly when no uncordoned matching node carries its key. */
  lemma PreferenceIsDead(w: Workload, nodes: seq<Node>, tsc: SpreadConstraint)
    requires tsc.maxSkew >= 1 && tsc.whenUnsatisfiable.ScheduleAnyway?
    requires !(tsc.ignoresNodeAffinity && w.hasNodeConstraints)
    ensures SpreadFindings([tsc], Input(nodes, w.hasNodeConstraints, ContextOf(w))) ==
            if exists n :: n in nodes && Eligible(n, true) && tsc.topologyKey in n.labels then []
            else [Finding(DeadSpread(tsc.topologyKey), Low)]
  {
    var i := Input(nodes, w.hasNodeConstraints, ContextOf(w));
    OfferedAre(i, tsc.topologyKey, true, false);
    var offered := Offered(nodes, tsc.topologyKey, true, false);
    if n :| n in nodes && Eligible(n, true) && tsc.topologyKey in n.labels {
      assert n.labels[tsc.topologyKey] in offered;
    } else {
      assert offered == {};
    }
    hide Offered, Input.DomainsOf, ContextOf;
    assert [tsc][..0] == [];
  }

  /** Nothing is said of a constraint whose node set is not the one matched here, or that the API refuses. */
  lemma SpreadIsPassedOver(w: Workload, nodes: seq<Node>, tsc: SpreadConstraint)
    requires || tsc.maxSkew <= 0
             || (tsc.ignoresNodeAffinity && w.hasNodeConstraints)
             || (tsc.whenUnsatisfiable.DoNotSchedule? && tsc.minDomains.Some? && tsc.minDomains.value < 1)
    ensures SpreadFindings([tsc], Input(nodes, w.hasNodeConstraints, ContextOf(w))) == []
  {
    assert [tsc][..0] == [];
  }

  /** Some matching node is in no domain of the key at all. */
  ghost predicate SomeLacks(nodes: seq<Node>, key: string) {
    exists n :: n in nodes && n.affinity.Matches? && key !in n.labels
  }

  /** A term is judged the same way, one pod per domain, unless a matching node has no such label. */
  lemma TermDecides(w: Workload, nodes: seq<Node>, term: AntiAffinityTerm)
    ensures var key := term.topologyKey;
            var live, all := |Offered(nodes, key, true, true)|, |Offered(nodes, key, false, true)|;
            AntiAffinityFindings(SelfTerms([term]), Input(nodes, w.hasNodeConstraints, ContextOf(w))) ==
            if !KeepsItsPodsApart(term) || SomeLacks(nodes, key) then []
            else ByRoom(AntiAffinityInfeasible(key), Placement.OnePerDomain, live, all, Peak(ContextOf(w)))
  {
    var key := term.topologyKey;
    var i := Input(nodes, w.hasNodeConstraints, ContextOf(w));
    assert AntiAffinityFindings([], i) == [];
    hide AntiAffinityFindings, SelfTerms, Candidates, Offered, Input.DomainsOf, ContextOf, Peak, Placement.Hosts;
    hide AnyNodeMissingTopologyKey, KeepsItsPodsApart, SomeLacks;
    OneTerm(key, i);
    OfferedAre(i, key, true, true);
    OfferedAre(i, key, false, true);
    MissingKeyIs(nodes, key);
    TermsBecomeKeys(term);
  }

  lemma OneTerm(key: string, i: Input)
    ensures AntiAffinityFindings([key], i) ==
            if AntiAffinityFinding(key, i).Some? then [AntiAffinityFinding(key, i).value] else []
  {
    hide AntiAffinityFinding;
    assert [key][..0] == [];
  }

  lemma MissingKeyIs(nodes: seq<Node>, key: string)
    ensures AnyNodeMissingTopologyKey(Candidates(nodes, false), key) <==> SomeLacks(nodes, key)
  {
    CandidatesAre(nodes);
    hide Candidates;
  }

  lemma TermsBecomeKeys(term: AntiAffinityTerm)
    ensures SelfTerms([term]) == if KeepsItsPodsApart(term) then [term.topologyKey] else []
  {
    assert [term][..0] == [];
    assert KeepsItsPodsApart(term) <==> Counts(term);
  }

  // ----- Whole runs against the rollout -----

  /**
   The run is silent, Medium or High by whether the open or at least all domains can hold the desired
   pods, and the surge on top when none may be lost. It is silent exactly when the rollout finishes on
   the open domains, whatever order its pods come and go in, except for a capacity between the two counts.
   */
  ghost predicate JudgedByPlacement(r: CheckResult, kind: FindingKind, rule: Placement.Rule, live: nat, all: nat,
                                    replicas: nat, surge: nat, maxUnavailable: nat)
    requires Placement.Sensible(rule, Placement.All(live))
  {
    && r == Reported(ByRoom(kind, rule, live, all, replicas + if maxUnavailable == 0 then surge else 0))
    && (RollsOutOn(rule, live, replicas, surge, maxUnavailable) <==>
        r == Reported([]) || FitsBetween(rule, live, replicas, surge, maxUnavailable))
  }

  /**
   The whole run on a workload with one binding spread constraint, its domains those of the matching
   nodes, the open ones being those of the uncordoned nodes among them.
   */
  lemma SpreadRun(w: Workload, nodes: seq<Node>, tsc: SpreadConstraint, surge: nat, maxUnavailable: nat)
    requires Considered(w) && SomeMatch(nodes) && Resolves(w, surge, maxUnavailable)
    requires w.spread == [tsc] && (forall t :: t in w.antiAffinity ==> !KeepsItsPodsApart(t))
    requires IsValid(tsc) && tsc.whenUnsatisfiable.DoNotSchedule?
    requires !(tsc.ignoresNodeAffinity && w.hasNodeConstraints)
    ensures var live := |Offered(nodes, tsc.topologyKey, true, false)|;
            var all := |Offered(nodes, tsc.topologyKey, false, false)|;
            JudgedByPlacement(Verdict(w, Ok(nodes)), SpreadInfeasible(tsc.topologyKey), SpreadRule(tsc), live, all,
                              w.replicas, surge, maxUnavailable)
  {
    assert w.replicas >= 1;
    hide Verdict, SpreadFindings, Offered, ByRoom, ContextOf, Peak, JudgedByPlacement;
    hide SomeMatch, Considered, Resolves, KeepsItsPodsApart;
    OnlySpread(w, nodes);
    SpreadDecides(w, nodes, tsc);
    ContextIs(w, surge, maxUnavailable);
    var live := |Offered(nodes, tsc.topologyKey, true, false)|;
    var all := |Offered(nodes, tsc.topologyKey, false, false)|;
    Judged(Verdict(w, Ok(nodes)), SpreadInfeasible(tsc.topologyKey), SpreadRule(tsc), live, all,
           w.replicas, surge, maxUnavailable);
  }

  lemma OnlySpread(w: Workload, nodes: seq<Node>)
    requires Considered(w) && SomeMatch(nodes) && w.spread != []
    requires forall t :: t in w.antiAffinity ==> !KeepsItsPodsApart(t)
    ensures Verdict(w, Ok(nodes)) ==
            Reported(SpreadFindings(w.spread, Input(nodes, w.hasNodeConstraints, ContextOf(w))))
  {
    var i := Input(nodes, w.hasNodeConstraints, ContextOf(w));
    ConstraintsDecide(w, nodes);
    SelfTermsAre(w.antiAffinity);
    assert AntiAffinityFindings([], i) == [];
    hide Verdict, SelfTerms, SpreadFindings, AntiAffinityFindings, ContextOf;
    assert SpreadFindings(w.spread, i) + [] == SpreadFindings(w.spread, i);
  }

  lemma OnlyTerms(w: Workload, nodes: seq<Node>)
    requires Considered(w) && SomeMatch(nodes) && w.spread == [] && ConstrainsPods(w)
    ensures Verdict(w, Ok(nodes)) ==
            Reported(AntiAffinityFindings(SelfTerms(w.antiAffinity),
                                          Input(nodes, w.hasNodeConstraints, ContextOf(w))))
  {
    var i := Input(nodes, w.hasNodeConstraints, ContextOf(w));
    ConstraintsDecide(w, nodes);
    assert SpreadFindings([], i) == [];
    hide Verdict, SelfTerms, SpreadFindings, AntiAffinityFindings, ContextOf;
    var findings := AntiAffinityFindings(SelfTerms(w.antiAffinity), i);
    assert [] + findings == findings;
  }

  /** The same with one required self-anti-affinity term, one pod per domain, of nodes its pods can land on. */
  lemma AntiAffinityRun(w: Workload, nodes: seq<Node>, term: AntiAffinityTerm, surge: nat, maxUnavailable: nat)
    requires Considered(w) && SomeMatch(nodes) && Resolves(w, surge, maxUnavailable)
    requires w.spread == [] && w.antiAffinity == [term] && KeepsItsPodsApart(term)
    requires !SomeLacks(nodes, term.topologyKey)
    ensures var live := |Offered(nodes, term.topologyKey, true, true)|;
            var all := |Offered(nodes, term.topologyKey, false, true)|;
            JudgedByPlacement(Verdict(w, Ok(nodes)), AntiAffinityInfeasible(term.topologyKey), Placement.OnePerDomain,
                              live, all, w.replicas, surge, maxUnavailable)
  {
    OneTermRun(w, nodes, term, surge, maxUnavailable);
    assert w.replicas >= 1;
    var live := |Offered(nodes, term.topologyKey, true, true)|;
    var all := |Offered(nodes, term.topologyKey, false, true)|;
    hide Verdict, Offered, ByRoom, JudgedByPlacement, SomeLacks, SomeMatch, Considered, Resolves, KeepsItsPodsApart;
    Judged(Verdict(w, Ok(nodes)), AntiAffinityInfeasible(term.topologyKey), Placement.OnePerDomain, live, all,
           w.replicas, surge, maxUnavailable);
  }

  lemma OneTermRun(w: Workload, nodes: seq<Node>, term: AntiAffinityTerm, surge: nat, maxUnavailable: nat)
    requires Considered(w) && SomeMatch(nodes) && Resolves(w, surge, maxUnavailable)
    requires w.spread == [] && w.antiAffinity == [term] && KeepsItsPodsApart(term)
    requires !SomeLacks(nodes, term.topologyKey)
    ensures var live := |Offered(nodes, term.topologyKey, true, true)|;
            var all := |Offered(nodes, term.topologyKey, false, true)|;
            Verdict(w, Ok(nodes)) ==
            Reported(ByRoom(AntiAffinityInfeasible(term.topologyKey), Placement.OnePerDomain, live, all,
                            w.replicas + if maxUnavailable == 0 then surge else 0))
  {
    assert term in w.antiAffinity;
    hide Verdict, SelfTerms, AntiAffinityFindings, Offered, ByRoom, ContextOf, Peak;
    hide SomeLacks, SomeMatch, Considered, Resolves, KeepsItsPodsApart;
    OnlyTerms(w, nodes);
    TermDecides(w, nodes, term);
    ContextIs(w, surge, maxUnavailable);
  }

  lemma Judged(r: CheckResult, kind: FindingKind, rule: Placement.Rule, live: nat, all: nat, replicas: nat,
               surge: nat, maxUnavailable: nat)
    requires Placement.Sensible(rule, Placement.All(live)) && replicas >= 1
    requires r == Reported(ByRoom(kind, rule, live, all, replicas + if maxUnavailable == 0 then surge else 0))
    ensures JudgedByPlacement(r, kind, rule, live, all, replicas, surge, maxUnavailable)
  {
    hide ByRoom, RollsOutOn, FitsBetween;
    SilentWhenItRollsOut(kind, rule, live, all, replicas, surge, maxUnavailable);
  }

  /** The rolling update of a workload, its pods placed by the rule over so many domains. */
  ghost predicate RollsOutOn(rule: Placement.Rule, domains: nat, replicas: nat, surge: nat, maxUnavailable: nat)
    requires Placement.Sensible(rule, Placement.All(domains))
  {
    var topo := Placement.All(domains);
    RollsOut(rule, topo, DomainRollouts.TermsOf(rule, topo, replicas, surge, Resolved(surge, maxUnavailable)))
  }

  /** The domains hold more than the desired count and less than the surge peak. */
  ghost predicate FitsBetween(rule: Placement.Rule, domains: nat, replicas: nat, surge: nat, maxUnavailable: nat) {
    && maxUnavailable == 0
    && Placement.Hosts(rule, Placement.All(domains), replicas + 1)
    && !Placement.Hosts(rule, Placement.All(domains), replicas + surge)
    && surge > 0
  }

  lemma SilentWhenItRollsOut(kind: FindingKind, rule: Placement.Rule, live: nat, all: nat, replicas: nat, surge: nat,
                             maxUnavailable: nat)
    requires Placement.Sensible(rule, Placement.All(live)) && replicas >= 1
    ensures var pods := replicas + if maxUnavailable == 0 then surge else 0;
            RollsOutOn(rule, live, replicas, surge, maxUnavailable) <==>
            ByRoom(kind, rule, live, all, pods) == [] || FitsBetween(rule, live, replicas, surge, maxUnavailable)
  {
    hide RollsOut, CanRollOut, Placement.Hosts, Placement.Capacity, Placement.Sensible;
    var topo := Placement.All(live);
    RuleSurgeVerdict(rule, live, replicas, surge, maxUnavailable);
    Placement.CapacityIsExact(rule, topo, replicas);
    Placement.CapacityIsExact(rule, topo, replicas + 1);
    Placement.CapacityIsExact(rule, topo, replicas + surge);
  }

  const THREE_HOSTS := [HostNode("a", false), HostNode("b", false), HostNode("c", false)]

  /** Three replicas on three hosts, one per host, a surge of one and none to lose: the rollout deadlocks, High. */
  lemma DefaultsDeadlock(w: Workload)
    requires !w.daemonSet && !w.foreignScheduler && w.replicas == 3
    requires w.strategy == Rollouts.Strategy(Rollouts.RollingUpdate, Some(Rollouts.Percent(25)),
                                             Some(Rollouts.Percent(25)))
    requires w.spread == [] && w.antiAffinity == [AntiAffinityTerm(HOST, false, false, Some(true))]
    ensures Verdict(w, Ok(THREE_HOSTS)) == Reported([Finding(AntiAffinityInfeasible(HOST), High)])
    ensures !RollsOutOn(Placement.OnePerDomain, 3, 3, 1, 0)
  {
    hide Placement.Hosts, RollsOutOn;
    var term := w.antiAffinity[0];
    assert term in w.antiAffinity && THREE_HOSTS[0] in THREE_HOSTS;
    ThreeHosts(true);
    ThreeHosts(false);
    hide THREE_HOSTS, Offered, Verdict;
    AntiAffinityRun(w, THREE_HOSTS, term, 1, 0);
    Placement.CapacityIsExact(Placement.OnePerDomain, Placement.All(3), 4);
  }

  lemma ThreeHosts(live: bool)
    ensures |Offered(THREE_HOSTS, HOST, live, true)| == 3
    ensures SomeMatch(THREE_HOSTS) && forall n :: n in THREE_HOSTS ==> HOST in n.labels
  {
    assert THREE_HOSTS[0] in THREE_HOSTS && THREE_HOSTS[1] in THREE_HOSTS && THREE_HOSTS[2] in THREE_HOSTS;
    assert Offered(THREE_HOSTS, HOST, live, true) == {"a", "b", "c"};
  }
}
