/**
 What runs of the two admission checks report (internal/check/admissionwebhook.go and
 validatingadmissionpolicy.go), said of the objects the cluster holds: which rules cover a pod's
 creation, which objects are in its path, and how severe each of them is.
 */
module AdmissionRuns {
  import opened Base
  import opened Labels
  import opened AdmissionMatch
  import Policies = AdmissionPolicies
  import Webhooks = AdmissionWebhooks

  // ----- Rules and selectors -----

  ghost predicate Lists(xs: seq<string>, wanted: set<string>) {
    exists x :: x in xs && x in wanted
  }

  /** Every part of the request for a pod's creation is listed, or covered by a wildcard. */
  ghost predicate ListsPodCreate(r: Rule) {
    && Lists(r.groups, {"", "*"}) && Lists(r.versions, {"v1", "*"})
    && Lists(r.resources, {"pods", "*", "*/*"}) && Lists(r.operations, {"CREATE", "*"})
    && (r.scope.None? || r.scope.value.Namespaced? || r.scope.value.AllScopes?)
  }

  lemma RulesCover(rules: seq<Rule>)
    ensures PodCreateMatches(rules) <==> exists r :: r in rules && ListsPodCreate(r)
  {
    forall r | r in rules
      ensures RuleCoversPodCreate(r) <==> ListsPodCreate(r)
    {
      ListsEither(r.groups, "", "*");
      ListsEither(r.versions, "v1", "*");
      ListsEither(r.operations, "CREATE", "*");
      ListsAnyOf(r.resources, "pods", "*", "*/*");
      hide Lists;
    }
    hide ListsPodCreate, RuleCoversPodCreate;
  }

  lemma ListsAnyOf(xs: seq<string>, a: string, b: string, c: string)
    ensures Lists(xs, {a, b, c}) <==> a in xs || b in xs || c in xs
  {
  }

  lemma ListsEither(xs: seq<string>, a: string, b: string)
    ensures Lists(xs, {a, b}) <==> a in xs || b in xs
  {
  }

  /** What an absent, an empty and a malformed selector amount to. */
  ghost predicate Takes(sel: Option<LabelSelector>, labels: LabelSet) {
    || sel.None?
    || (sel.value.matchLabels == map[] && sel.value.matchExpressions == [])
    || Selects(sel, labels) == Some(true)
  }

  lemma AcceptedTakes(sel: Option<LabelSelector>, labels: LabelSet)
    ensures Accepted(SelectorMatchesOrEmpty(sel, labels)) <==> Takes(sel, labels)
  {
  }

  /** Only a selector with some requirement needs labels to be read. */
  ghost predicate NeedsLabels(sel: Option<LabelSelector>) {
    sel.Some? && (sel.value.matchLabels != map[] || sel.value.matchExpressions != [])
  }

  // ----- Policies -----

  ghost predicate Covered(rules: seq<Policies.NamedRule>) {
    exists r :: r in rules && r.resourceNames == [] && PodCreateMatches([r.rule])
  }

  /** Exclusion wins, no rules at all match everything, and both selectors have a say. */
  ghost predicate Concerns(mr: Policies.MatchResources, pod: LabelSet) {
    && !Covered(mr.exclude) && (mr.rules == [] || Covered(mr.rules)) && Takes(mr.objectSelector, pod)
  }

  lemma CoveredIsSome(rules: seq<Policies.NamedRule>)
    ensures Policies.SomeRuleCovers(rules) <==> Covered(rules)
  {
    forall r: Policies.NamedRule
      ensures PodCreateMatches([r.rule]) <==> RuleCoversPodCreate(r.rule)
    {
      assert r.rule in [r.rule];
    }
    hide RuleCoversPodCreate, PodCreateMatches;
  }

  /** The pair can deny the creation of the pod, its namespace aside. */
  ghost predicate Paired(p: Policies.Policy, b: Policies.Binding, pod: LabelSet) {
    && b.policyName == p.name && !p.conditional
    && p.constraints.Some? && Concerns(p.constraints.value, pod)
    && (b.resources.Some? ==> Concerns(b.resources.value, pod))
  }

  ghost predicate NamespaceTakes(mr: Option<Policies.MatchResources>, ns: LabelSet) {
    mr.Some? ==> Takes(mr.value.namespaceSelector, ns)
  }

  lemma InPathIs(p: Policies.Policy, b: Policies.Binding, pod: LabelSet, ns: LabelSet)
    ensures Policies.InPath(p, b, pod, ns) <==>
            && Paired(p, b, pod) && NamespaceTakes(p.constraints, ns) && NamespaceTakes(b.resources, ns)
            && Policies.Deny in b.actions
  {
    if p.constraints.Some? {
      ConcernsIs(p.constraints.value, pod, ns);
    }
    if b.resources.Some? {
      ConcernsIs(b.resources.value, pod, ns);
    }
    hide Policies.Applies, Concerns, Takes;
  }

  lemma ConcernsIs(mr: Policies.MatchResources, pod: LabelSet, ns: LabelSet)
    ensures Policies.Applies(mr, pod, ns) <==> Concerns(mr, pod) && Takes(mr.namespaceSelector, ns)
    ensures Accepted(Policies.MatchesExceptNamespace(Some(mr), pod)) <==> Concerns(mr, pod)
  {
    CoveredIsSome(mr.exclude);
    CoveredIsSome(mr.rules);
    Policies.CandidatesCover(mr.exclude);
    Policies.CandidatesCover(mr.rules);
    AcceptedTakes(mr.objectSelector, pod);
    AcceptedTakes(mr.namespaceSelector, ns);
    hide Covered, Policies.SomeRuleCovers, PodCreateMatches, Takes, SelectorMatchesOrEmpty;
  }

  /** Medium exactly when the parameters are null and their errors deny; never High. */
  function SeverityOf(p: Policies.Policy, b: Policies.Binding): Severity {
    if p.paramKind && !b.paramRef && p.failurePolicy != Some(Ignore) then Medium else Low
  }

  /** A run whose namespace is read reports exactly the pairs in the path, each with its severity. */
  lemma PolicyRunReports(policies: seq<Policies.Policy>, bindings: seq<Policies.Binding>, pod: LabelSet, ns: LabelSet,
                         f: Policies.Finding)
    requires Policies.DistinctNames(policies)
    ensures var r := Policies.Outcome(Ok(policies), Ok(bindings), pod, Ok(ns));
            && r.Reported?
            && (f in r.findings <==>
                exists p, b ::
                  && p in policies && b in bindings && Paired(p, b, pod)
                  && NamespaceTakes(p.constraints, ns) && NamespaceTakes(b.resources, ns) && Policies.Deny in b.actions
                  && f == Policies.Finding(p.name, b.name, SeverityOf(p, b)))
  {
    Policies.LazyReadKeepsMeaning(policies, bindings, pod, Ok(ns), ns);
    Policies.FindingsAreInPath(policies, bindings, pod, ns);
    hide Policies.Outcome, Policies.FullFindings, Policies.InPath, Paired, NamespaceTakes;
    forall p, b
      ensures Policies.InPath(p, b, pod, ns) <==>
              && Paired(p, b, pod) && NamespaceTakes(p.constraints, ns) && NamespaceTakes(b.resources, ns)
              && Policies.Deny in b.actions
      ensures Policies.PairFinding(p, b) == Policies.Finding(p.name, b.name, SeverityOf(p, b))
    {
      InPathIs(p, b, pod, ns);
    }
  }

  ghost predicate PairNeedsLabels(p: Policies.Policy, b: Policies.Binding) {
    || (p.constraints.Some? && NeedsLabels(p.constraints.value.namespaceSelector))
    || (b.resources.Some? && NeedsLabels(b.resources.value.namespaceSelector))
  }

  lemma {:induction false} StructuralPolicyIs(policies: seq<Policies.Policy>, name: string, pod: LabelSet)
    requires Policies.DistinctNames(policies)
    ensures forall p :: Policies.StructuralPolicy(policies, name, pod) == Some(p) <==>
                        p in policies && p.name == name && Policies.Structural(p, pod)
  {
    if policies != [] {
      hide Policies.Structural;
      var init, last := policies[..|policies| - 1], policies[|policies| - 1];
      assert policies == init + [last];
      StructuralPolicyIs(init, name, pod);
      forall p | p in init
        ensures p.name != last.name
      {
        var i :| 0 <= i < |init| && init[i] == p;
        assert policies[i] == p;
      }
    }
  }

  lemma {:induction false} PairsAre(policies: seq<Policies.Policy>, bindings: seq<Policies.Binding>, pod: LabelSet)
    requires Policies.DistinctNames(policies)
    ensures forall pair :: pair in Policies.Pairs(policies, bindings, pod) <==>
              pair.policy in policies && pair.binding in bindings && Paired(pair.policy, pair.binding, pod)
  {
    if bindings != [] {
      var init, b := bindings[..|bindings| - 1], bindings[|bindings| - 1];
      assert bindings == init + [b];
      PairsAre(policies, init, pod);
      hide Paired, Policies.BindingPairs;
      forall pair
        ensures pair in Policies.BindingPairs(policies, b, pod) <==>
                pair.policy in policies && pair.binding == b && Paired(pair.policy, b, pod)
      {
        BindingPairIs(policies, b, pod, pair);
      }
    }
  }

  lemma BindingPairIs(policies: seq<Policies.Policy>, b: Policies.Binding, pod: LabelSet, pair: Policies.Pair)
    requires Policies.DistinctNames(policies)
    ensures pair in Policies.BindingPairs(policies, b, pod) <==>
            pair.policy in policies && pair.binding == b && Paired(pair.policy, b, pod)
  {
    StructuralPolicyIs(policies, b.policyName, pod);
    hide Policies.StructuralPolicy;
    if b.resources.Some? {
      ConcernsIs(b.resources.value, pod, map[]);
      assert b.resources == Some(b.resources.value);
    }
    if pair.policy.constraints.Some? {
      ConcernsIs(pair.policy.constraints.value, pod, map[]);
      assert pair.policy.constraints == Some(pair.policy.constraints.value);
    }
    hide Concerns, Policies.MatchesExceptNamespace;
    assert b.resources.None? ==> Accepted(Policies.MatchesExceptNamespace(b.resources, pod)) by {
      NoResources(pod);
    }
  }

  lemma NoResources(pod: LabelSet)
    ensures Accepted(Policies.MatchesExceptNamespace(None, pod))
  {
  }

  /** The check skips exactly for a list or a namespace it cannot read, the latter only when a pair needs its labels. */
  lemma PolicyRunSkips(policies: Result<seq<Policies.Policy>>, bindings: Result<seq<Policies.Binding>>, pod: LabelSet,
                       namespace: Result<LabelSet>)
    requires policies.Ok? ==> Policies.DistinctNames(policies.value)
    ensures Policies.Outcome(policies, bindings, pod, namespace).Skipped? <==>
            || policies.Err? || bindings.Err?
            || (namespace.Err?
                && exists p, b ::
                     p in policies.value && b in bindings.value && Paired(p, b, pod) && PairNeedsLabels(p, b))
  {
    if policies.Ok? && bindings.Ok? {
      PairsAre(policies.value, bindings.value, pod);
      hide Policies.Pairs, Paired, Policies.PairFindings;
      var pairs := Policies.Pairs(policies.value, bindings.value, pod);
      forall pair: Policies.Pair
        ensures Policies.NeedsNamespace(pair) <==> PairNeedsLabels(pair.policy, pair.binding)
      {
      }
      hide Policies.NeedsNamespace, PairNeedsLabels;
      if p, b :| p in policies.value && b in bindings.value && Paired(p, b, pod) && PairNeedsLabels(p, b) {
        assert Policies.NeedsNamespace(Policies.Pair(p, b)) && Policies.Pair(p, b) in pairs;
      }
    }
  }

  // ----- Webhooks -----

  ghost predicate Answers(e: Webhooks.Endpoint) {
    (e.ready.None? || e.ready.value) && e.addresses > 0
  }

  /** Some endpoint behind the Service is ready, or not known not to be, and has an address. */
  ghost predicate HasReady(b: Webhooks.Backend) {
    b.slices.Some? && exists s, e :: s in b.slices.value && e in s && Answers(e)
  }

  /**
   One webhook: High without its Service, Medium without a ready endpoint, Low otherwise; only Low when
   it mutates; nothing when it fails open, is outside the cluster, or its Service cannot be read.
   */
  lemma WebhookFindings(mutating: bool, c: Webhooks.Candidate, backends: Webhooks.Backends)
    ensures var one := (s: Severity) => [Webhooks.Finding(mutating, c.config, c.webhook.name, s)];
            Webhooks.FindingsOf(mutating, c, backends) ==
            if c.webhook.service.None? then []
            else if mutating then one(Low)
            else if c.webhook.failurePolicy == Some(Ignore) then []
            else
              var b := backends(c.webhook.service.value);
              if b.service == Webhooks.Absent then one(High)
              else if b.service == Webhooks.Unreadable || b.slices.None? then []
              else if HasReady(b) then one(Low) else one(Medium)
  {
    forall e: Webhooks.Endpoint
      ensures Webhooks.Serves(e) <==> Answers(e)
    {
    }
    hide Webhooks.Serves, Answers;
  }

  /** Configurations and webhooks in list order, each reported by itself. */
  lemma {:induction false} WebhooksAreReported(mutating: bool, configs: seq<Webhooks.Config>, pod: LabelSet,
                                               ns: LabelSet, backends: Webhooks.Backends, f: Webhooks.Finding)
    ensures f in Webhooks.FullFindings(mutating, configs, pod, ns, backends) <==>
            exists cfg, wh ::
              && cfg in configs && wh in cfg.webhooks && Webhooks.InPath(wh, pod, ns)
              && f in Webhooks.FindingsOf(mutating, Webhooks.Candidate(cfg.name, wh), backends)
  {
    if configs != [] {
      hide Webhooks.InPath, Webhooks.FindingsOf, Webhooks.ConfigFindings;
      var last := configs[|configs| - 1];
      assert configs == configs[..|configs| - 1] + [last];
      WebhooksAreReported(mutating, configs[..|configs| - 1], pod, ns, backends, f);
      ConfigIsReported(mutating, last.name, last.webhooks, pod, ns, backends, f);
    }
  }

  lemma {:induction false} ConfigIsReported(mutating: bool, name: string, webhooks: seq<Webhooks.Webhook>,
                                            pod: LabelSet,
                                            ns: LabelSet, backends: Webhooks.Backends, f: Webhooks.Finding)
    ensures f in Webhooks.ConfigFindings(mutating, name, webhooks, pod, ns, backends) <==>
            exists wh ::
              && wh in webhooks && Webhooks.InPath(wh, pod, ns)
              && f in Webhooks.FindingsOf(mutating, Webhooks.Candidate(name, wh), backends)
  {
    if webhooks != [] {
      hide Webhooks.InPath, Webhooks.FindingsOf;
      assert webhooks == webhooks[..|webhooks| - 1] + [webhooks[|webhooks| - 1]];
      ConfigIsReported(mutating, name, webhooks[..|webhooks| - 1], pod, ns, backends, f);
    }
  }

  /** In the path: a rule that covers pod creation, no match condition, and both selectors. */
  lemma WebhookInPathIs(wh: Webhooks.Webhook, pod: LabelSet, ns: LabelSet)
    ensures Webhooks.InPath(wh, pod, ns) <==>
            && (exists r :: r in wh.rules && PodCreateMatches([r])) && !wh.conditional
            && Takes(wh.objectSelector, pod) && Takes(wh.namespaceSelector, ns)
  {
    AcceptedTakes(wh.objectSelector, pod);
    AcceptedTakes(wh.namespaceSelector, ns);
    hide Takes, SelectorMatchesOrEmpty;
    forall r: Rule
      ensures PodCreateMatches([r]) <==> RuleCoversPodCreate(r)
    {
      assert r in [r];
    }
    assert PodCreateMatches(wh.rules) <==> exists r :: r in wh.rules && RuleCoversPodCreate(r);
    hide RuleCoversPodCreate, PodCreateMatches;
  }

  lemma {:induction false} CandidatesAre(configs: seq<Webhooks.Config>, pod: LabelSet, c: Webhooks.Candidate)
    ensures c in Webhooks.Candidates(configs, pod) <==>
            exists cfg :: cfg in configs && c.webhook in cfg.webhooks && c.config == cfg.name
                          && Webhooks.Structural(c.webhook, pod)
  {
    if configs != [] {
      hide Webhooks.Structural, Webhooks.ConfigCandidates;
      var last := configs[|configs| - 1];
      assert configs == configs[..|configs| - 1] + [last];
      CandidatesAre(configs[..|configs| - 1], pod, c);
      ConfigCandidatesAre(last.name, last.webhooks, pod, c);
    }
  }

  lemma {:induction false} ConfigCandidatesAre(name: string, webhooks: seq<Webhooks.Webhook>, pod: LabelSet,
                                               c: Webhooks.Candidate)
    ensures c in Webhooks.ConfigCandidates(name, webhooks, pod) <==>
            c.webhook in webhooks && c.config == name && Webhooks.Structural(c.webhook, pod)
  {
    if webhooks != [] {
      hide Webhooks.Structural;
      assert webhooks == webhooks[..|webhooks| - 1] + [webhooks[|webhooks| - 1]];
      ConfigCandidatesAre(name, webhooks[..|webhooks| - 1], pod, c);
    }
  }

  ghost predicate WebhookNeedsLabels(configs: seq<Webhooks.Config>, pod: LabelSet) {
    exists cfg, wh ::
      && cfg in configs && wh in cfg.webhooks && PodCreateMatches(wh.rules) && !wh.conditional
      && Takes(wh.objectSelector, pod) && NeedsLabels(wh.namespaceSelector)
  }

  lemma NeedsNamespaceIs(configs: seq<Webhooks.Config>, pod: LabelSet)
    ensures Webhooks.NeedsNamespace(Webhooks.Candidates(configs, pod)) <==> WebhookNeedsLabels(configs, pod)
  {
    var cs := Webhooks.Candidates(configs, pod);
    forall c: Webhooks.Candidate
      ensures c in cs <==> exists cfg :: cfg in configs && c.webhook in cfg.webhooks && c.config == cfg.name
                                         && Webhooks.Structural(c.webhook, pod)
    {
      CandidatesAre(configs, pod, c);
    }
    hide Webhooks.Candidates, PodCreateMatches, Takes, SelectorMatchesOrEmpty;
    if cfg, wh :| cfg in configs && wh in cfg.webhooks && PodCreateMatches(wh.rules) && !wh.conditional
                  && Takes(wh.objectSelector, pod) && NeedsLabels(wh.namespaceSelector) {
      AcceptedTakes(wh.objectSelector, pod);
      var c := Webhooks.Candidate(cfg.name, wh);
      assert Webhooks.Structural(c.webhook, pod) && c in cs;
    }
    if c :| c in cs && !NoSelector(c.webhook.namespaceSelector) {
      AcceptedTakes(c.webhook.objectSelector, pod);
    }
  }

  /** The check skips exactly for a list it cannot read, or the namespace when a webhook in question needs labels. */
  lemma WebhookRunSkips(validating: Result<seq<Webhooks.Config>>, mutating: Result<seq<Webhooks.Config>>, pod: LabelSet,
                        namespace: Result<LabelSet>, backends: Webhooks.Backends)
    ensures Webhooks.Outcome(validating, mutating, pod, namespace, backends).Skipped? <==>
            || validating.Err? || mutating.Err?
            || (namespace.Err?
                && (WebhookNeedsLabels(validating.value, pod) || WebhookNeedsLabels(mutating.value, pod)))
  {
    hide Webhooks.BothPhases, Webhooks.Candidates, Webhooks.NeedsNamespace, WebhookNeedsLabels;
    if validating.Ok? && mutating.Ok? {
      NeedsNamespaceIs(validating.value, pod);
      NeedsNamespaceIs(mutating.value, pod);
    }
  }
}
