/**
 The validating-admission-policy-visibility check (internal/check/validatingadmissionpolicy.go).
 It matches in two phases, so that the namespace is read only when some candidate needs its
 labels; what it reports is proved to be what one full match of every pair gives.
 */
module AdmissionPolicies {
  import opened Base
  import opened Labels
  import opened AdmissionMatch

  datatype NamedRule = NamedRule(resourceNames: seq<string>, rule: Rule)

  datatype MatchResources = MatchResources(
    exclude: seq<NamedRule>, rules: seq<NamedRule>,
    objectSelector: Option<LabelSelector>, namespaceSelector: Option<LabelSelector>)

  datatype Policy = Policy(
    name: string, conditional: bool, constraints: Option<MatchResources>, paramKind: bool,
    failurePolicy: Option<FailurePolicy>)

  datatype Action = Deny | Warn | Audit

  datatype Binding = Binding(
    name: string, policyName: string, resources: Option<MatchResources>, actions: seq<Action>, paramRef: bool)

  datatype Pair = Pair(policy: Policy, binding: Binding)

  datatype Finding = Finding(policy: string, binding: string, severity: Severity)

  datatype CheckResult = Skipped(reason: string) | Reported(findings: seq<Finding>)

  // ----- Matching -----

  /** Rules restricted to named objects cannot match a pod with a generated name. */
  function PodCreateCandidates(rules: seq<NamedRule>): seq<Rule> {
    if rules == [] then []
    else
      PodCreateCandidates(rules[..|rules| - 1])
      + if rules[|rules| - 1].resourceNames == [] then [rules[|rules| - 1].rule] else []
  }

  method NamedRulesToPodCreateCandidates(rules: seq<NamedRule>) returns (out: seq<Rule>)
    ensures out == PodCreateCandidates(rules)
  {
    out := [];
    for i := 0 to |rules|
      invariant out == PodCreateCandidates(rules[..i])
    {
      assert rules[..i + 1][..i] == rules[..i];
      if |rules[i].resourceNames| > 0 {
        continue;
      }
      out := out + [rules[i].rule];
    }
    assert rules[..|rules|] == rules;
  }

  /** Everything but the namespace selector. */
  function MatchesExceptNamespace(mr: Option<MatchResources>, pod: LabelSet): Option<bool> {
    if mr.None? then Some(true)
    else if PodCreateMatches(PodCreateCandidates(mr.value.exclude)) then Some(false)
    else if mr.value.rules != [] && !PodCreateMatches(PodCreateCandidates(mr.value.rules)) then Some(false)
    else SelectorMatchesOrEmpty(mr.value.objectSelector, pod)
  }

  predicate HasNamespaceSelector(mr: Option<MatchResources>) {
    mr.Some? && !NoSelector(mr.value.namespaceSelector)
  }

  function NamespaceMatches(mr: Option<MatchResources>, ns: LabelSet): Option<bool> {
    if mr.None? then Some(true) else SelectorMatchesOrEmpty(mr.value.namespaceSelector, ns)
  }

  method EvaluateExceptNamespace(mr: Option<MatchResources>, pod: LabelSet) returns (m: Option<bool>)
    ensures m == MatchesExceptNamespace(mr, pod)
  {
    if mr.None? {
      return Some(true);
    }
    var exclude := NamedRulesToPodCreateCandidates(mr.value.exclude);
    if PodCreateMatches(exclude) {
      return Some(false);
    }
    var rules := NamedRulesToPodCreateCandidates(mr.value.rules);
    if |mr.value.rules| > 0 && !PodCreateMatches(rules) {
      return Some(false);
    }
    return SelectorMatchesOrEmpty(mr.value.objectSelector, pod);
  }

  /** One of the rules covers pod creation by any name. */
  predicate SomeRuleCovers(rules: seq<NamedRule>) {
    exists r :: r in rules && r.resourceNames == [] && RuleCoversPodCreate(r.rule)
  }

  lemma {:induction false} CandidatesCover(rules: seq<NamedRule>)
    ensures PodCreateMatches(PodCreateCandidates(rules)) <==> SomeRuleCovers(rules)
  {
    if rules != [] {
      var init, last := rules[..|rules| - 1], rules[|rules| - 1];
      assert rules == init + [last];
      CandidatesCover(init);
      if r :| r in PodCreateCandidates(init) && RuleCoversPodCreate(r) {
        assert r in PodCreateCandidates(rules);
      }
      if last.resourceNames == [] {
        assert last.rule in PodCreateCandidates(rules);
      }
    }
  }

  // ----- The reference: one full match per pair, the namespace at hand -----

  /** A MatchResources object applied in one go. */
  predicate Applies(mr: MatchResources, pod: LabelSet, ns: LabelSet) {
    && !SomeRuleCovers(mr.exclude)
    && (mr.rules != [] ==> SomeRuleCovers(mr.rules))
    && Accepted(SelectorMatchesOrEmpty(mr.objectSelector, pod))
    && Accepted(SelectorMatchesOrEmpty(mr.namespaceSelector, ns))
  }

  /** The pair can deny the creation of the pod. */
  predicate InPath(p: Policy, b: Binding, pod: LabelSet, ns: LabelSet) {
    && b.policyName == p.name && !p.conditional
    && p.constraints.Some? && Applies(p.constraints.value, pod, ns)
    && (b.resources.Some? ==> Applies(b.resources.value, pod, ns))
    && Deny in b.actions
  }

  function PairFinding(p: Policy, b: Binding): Finding {
    Finding(p.name, b.name,
            if p.paramKind && !b.paramRef && EffectiveFailurePolicy(p.failurePolicy).Fail? then Medium else Low)
  }

  predicate DistinctNames(policies: seq<Policy>) {
    forall i, j :: 0 <= i < j < |policies| ==> policies[i].name != policies[j].name
  }

  /** The findings of the policies a binding puts in the path. */
  function BindingFindings(policies: seq<Policy>, b: Binding, pod: LabelSet, ns: LabelSet): seq<Finding> {
    if policies == [] then []
    else
      BindingFindings(policies[..|policies| - 1], b, pod, ns)
      + if InPath(policies[|policies| - 1], b, pod, ns) then [PairFinding(policies[|policies| - 1], b)] else []
  }

  function FullFindings(policies: seq<Policy>, bindings: seq<Binding>, pod: LabelSet, ns: LabelSet): seq<Finding> {
    if bindings == [] then []
    else
      FullFindings(policies, bindings[..|bindings| - 1], pod, ns)
      + BindingFindings(policies, bindings[|bindings| - 1], pod, ns)
  }

  // ----- The two phases -----

  predicate Structural(p: Policy, pod: LabelSet) {
    !p.conditional && p.constraints.Some? && Accepted(MatchesExceptNamespace(p.constraints, pod))
  }

  /** The structurally matching policy of a name; a repeated name is overwritten. */
  function StructuralPolicy(policies: seq<Policy>, name: string, pod: LabelSet): Option<Policy> {
    if policies == [] then None
    else
      var p := policies[|policies| - 1];
      if p.name == name && Structural(p, pod) then Some(p) else StructuralPolicy(policies[..|policies| - 1], name, pod)
  }

  function BindingPairs(policies: seq<Policy>, b: Binding, pod: LabelSet): seq<Pair> {
    var p := StructuralPolicy(policies, b.policyName, pod);
    if p.Some? && Accepted(MatchesExceptNamespace(b.resources, pod)) then [Pair(p.value, b)] else []
  }

  function Pairs(policies: seq<Policy>, bindings: seq<Binding>, pod: LabelSet): seq<Pair> {
    if bindings == [] then []
    else
      Pairs(policies, bindings[..|bindings| - 1], pod) + BindingPairs(policies, bindings[|bindings| - 1], pod)
  }

  predicate NeedsNamespace(pair: Pair) {
    HasNamespaceSelector(pair.policy.constraints) || HasNamespaceSelector(pair.binding.resources)
  }

  predicate AnyNeedsNamespace(pairs: seq<Pair>) {
    exists pair :: pair in pairs && NeedsNamespace(pair)
  }

  function SecondPhase(pair: Pair, ns: LabelSet): seq<Finding> {
    if Accepted(NamespaceMatches(pair.policy.constraints, ns)) && Accepted(NamespaceMatches(pair.binding.resources, ns))
       && Deny in pair.binding.actions
    then [PairFinding(pair.policy, pair.binding)]
    else []
  }

  function PairFindings(pairs: seq<Pair>, ns: LabelSet): seq<Finding> {
    if pairs == [] then [] else PairFindings(pairs[..|pairs| - 1], ns) + SecondPhase(pairs[|pairs| - 1], ns)
  }

  method IndexPolicies(policies: seq<Policy>, pod: LabelSet) returns (byName: map<string, Policy>)
    ensures forall name :: Lookup(byName, name) == StructuralPolicy(policies, name, pod)
  {
    byName := map[];
    for i := 0 to |policies|
      invariant forall name :: Lookup(byName, name) == StructuralPolicy(policies[..i], name, pod)
    {
      assert policies[..i + 1][..i] == policies[..i];
      var p := policies[i];
      if p.conditional {
        continue;
      }
      if p.constraints.None? {
        continue;
      }
      var m := EvaluateExceptNamespace(p.constraints, pod);
      if !Accepted(m) {
        continue;
      }
      byName := byName[p.name := p];
    }
    assert policies[..|policies|] == policies;
  }

  method CollectPairs(policies: seq<Policy>, bindings: seq<Binding>, pod: LabelSet) returns (pairs: seq<Pair>)
    ensures pairs == Pairs(policies, bindings, pod)
  {
    var byName := IndexPolicies(policies, pod);
    hide StructuralPolicy, MatchesExceptNamespace;
    pairs := [];
    for i := 0 to |bindings|
      invariant pairs == Pairs(policies, bindings[..i], pod)
    {
      assert bindings[..i + 1][..i] == bindings[..i];
      var b := bindings[i];
      assert Lookup(byName, b.policyName) == StructuralPolicy(policies, b.policyName, pod);
      if b.policyName !in byName {
        continue;
      }
      var m := EvaluateExceptNamespace(b.resources, pod);
      if !Accepted(m) {
        continue;
      }
      pairs := pairs + [Pair(byName[b.policyName], b)];
    }
    assert bindings[..|bindings|] == bindings;
  }

  method AnyPairNeedsNamespace(pairs: seq<Pair>) returns (needs: bool)
    ensures needs <==> AnyNeedsNamespace(pairs)
  {
    needs := false;
    for i := 0 to |pairs|
      invariant !needs && !AnyNeedsNamespace(pairs[..i])
    {
      assert pairs[..i + 1] == pairs[..i] + [pairs[i]];
      if NeedsNamespace(pairs[i]) {
        return true;
      }
    }
    assert pairs[..|pairs|] == pairs;
  }

  method EvaluatePairs(pairs: seq<Pair>, ns: LabelSet) returns (findings: seq<Finding>)
    ensures findings == PairFindings(pairs, ns)
  {
    hide NamespaceMatches, PairFinding;
    findings := [];
    for i := 0 to |pairs|
      invariant findings == PairFindings(pairs[..i], ns)
    {
      assert pairs[..i + 1][..i] == pairs[..i];
      var pair := pairs[i];
      if !Accepted(NamespaceMatches(pair.policy.constraints, ns)) {
        continue;
      }
      if !Accepted(NamespaceMatches(pair.binding.resources, ns)) {
        continue;
      }
      if Deny !in pair.binding.actions {
        continue;
      }
      findings := findings + [PairFinding(pair.policy, pair.binding)];
    }
    assert pairs[..|pairs|] == pairs;
  }

  /** Labels the check goes on with when it did not read the namespace. */
  const UNREAD: LabelSet := map[]

  /** `asked` tells whether the namespace was read. */
  method Run(policies: Result<seq<Policy>>, bindings: Result<seq<Binding>>, pod: LabelSet, namespace: Result<LabelSet>)
    returns (r: CheckResult, ghost asked: bool)
    ensures r == Outcome(policies, bindings, pod, namespace)
    ensures asked <==> policies.Ok? && bindings.Ok? && AnyNeedsNamespace(Pairs(policies.value, bindings.value, pod))
  {
    asked := false;
    if policies.Err? {
      return Skipped(policies.error), asked;
    }
    if bindings.Err? {
      return Skipped(bindings.error), asked;
    }
    var pairs := CollectPairs(policies.value, bindings.value, pod);
    var needsNamespace := AnyPairNeedsNamespace(pairs);
    var labels := UNREAD;
    if needsNamespace {
      asked := true;
      if namespace.Err? {
        return Skipped(namespace.error), asked;
      }
      labels := namespace.value;
    }
    var findings := EvaluatePairs(pairs, labels);
    return Reported(findings), asked;
  }

  function Outcome(policies: Result<seq<Policy>>, bindings: Result<seq<Binding>>,
                   pod: LabelSet, namespace: Result<LabelSet>):
    CheckResult
  {
    if policies.Err? then Skipped(policies.error)
    else if bindings.Err? then Skipped(bindings.error)
    else
      var pairs := Pairs(policies.value, bindings.value, pod);
      if !AnyNeedsNamespace(pairs) then Reported(PairFindings(pairs, UNREAD))
      else if namespace.Err? then Skipped(namespace.error)
      else Reported(PairFindings(pairs, namespace.value))
  }

  // ----- Lazy reading changes nothing -----

  lemma AppliesInTwoParts(mr: MatchResources, pod: LabelSet, ns: LabelSet)
    ensures Applies(mr, pod, ns) <==>
            Accepted(MatchesExceptNamespace(Some(mr), pod)) && Accepted(NamespaceMatches(Some(mr), ns))
  {
    CandidatesCover(mr.exclude);
    CandidatesCover(mr.rules);
  }

  /** A policy in the path of a binding is the structural one of that name. */
  lemma InPathInTwoPhases(p: Policy, b: Binding, pod: LabelSet, ns: LabelSet)
    ensures InPath(p, b, pod, ns) <==>
            && b.policyName == p.name && Structural(p, pod) && Accepted(MatchesExceptNamespace(b.resources, pod))
            && SecondPhase(Pair(p, b), ns) == [PairFinding(p, b)]
    ensures InPath(p, b, pod, ns) || SecondPhase(Pair(p, b), ns) == [] || b.policyName != p.name || !Structural(p, pod)
            || !Accepted(MatchesExceptNamespace(b.resources, pod))
  {
    if p.constraints.Some? {
      AppliesInTwoParts(p.constraints.value, pod, ns);
    }
    if b.resources.Some? {
      AppliesInTwoParts(b.resources.value, pod, ns);
    }
    assert p.constraints.Some? ==> p.constraints == Some(p.constraints.value);
    assert b.resources.Some? ==> b.resources == Some(b.resources.value);
  }

  lemma {:induction false} OtherNamesFindNothing(policies: seq<Policy>, b: Binding, pod: LabelSet, ns: LabelSet)
    requires forall p :: p in policies ==> p.name != b.policyName
    ensures BindingFindings(policies, b, pod, ns) == []
    ensures StructuralPolicy(policies, b.policyName, pod) == None
  {
    if policies != [] {
      assert policies == policies[..|policies| - 1] + [policies[|policies| - 1]];
      OtherNamesFindNothing(policies[..|policies| - 1], b, pod, ns);
    }
  }

  lemma {:induction false} BindingInTwoPhases(policies: seq<Policy>, b: Binding, pod: LabelSet, ns: LabelSet)
    requires DistinctNames(policies)
    ensures BindingFindings(policies, b, pod, ns) == PairFindings(BindingPairs(policies, b, pod), ns)
  {
    if policies != [] {
      var init, p := policies[..|policies| - 1], policies[|policies| - 1];
      assert policies == init + [p];
      InPathInTwoPhases(p, b, pod, ns);
      if p.name == b.policyName {
        OtherNamesFindNothing(init, b, pod, ns);
        hide InPath, Structural, MatchesExceptNamespace, NamespaceMatches, PairFinding;
        assert [Pair(p, b)][..0] == [];
        assert PairFindings([Pair(p, b)], ns) == SecondPhase(Pair(p, b), ns);
      } else {
        BindingInTwoPhases(init, b, pod, ns);
      }
    }
  }

  lemma {:induction false} PairFindingsConcat(a: seq<Pair>, b: seq<Pair>, ns: LabelSet)
    ensures PairFindings(a + b, ns) == PairFindings(a, ns) + PairFindings(b, ns)
  {
    if b == [] {
      assert a + b == a;
    } else {
      assert (a + b)[..|a + b| - 1] == a + b[..|b| - 1];
      PairFindingsConcat(a, b[..|b| - 1], ns);
    }
  }

  lemma {:induction false} TwoPhasesAreOne(policies: seq<Policy>, bindings: seq<Binding>, pod: LabelSet, ns: LabelSet)
    requires DistinctNames(policies)
    ensures PairFindings(Pairs(policies, bindings, pod), ns) == FullFindings(policies, bindings, pod, ns)
  {
    if bindings != [] {
      hide BindingPairs, BindingFindings;
      var init, b := bindings[..|bindings| - 1], bindings[|bindings| - 1];
      TwoPhasesAreOne(policies, init, pod, ns);
      BindingInTwoPhases(policies, b, pod, ns);
      PairFindingsConcat(Pairs(policies, init, pod), BindingPairs(policies, b, pod), ns);
    }
  }

  lemma {:induction false} LabelsDoNotMatter(pairs: seq<Pair>, ns: LabelSet, other: LabelSet)
    requires !AnyNeedsNamespace(pairs)
    ensures PairFindings(pairs, ns) == PairFindings(pairs, other)
  {
    if pairs != [] {
      var init, last := pairs[..|pairs| - 1], pairs[|pairs| - 1];
      assert pairs == init + [last];
      assert last in pairs && !NeedsNamespace(last);
      assert forall pair :: pair in init ==> pair in pairs;
      LabelsDoNotMatter(init, ns, other);
    }
  }

  /**
   Reading the namespace lazily: with the namespace readable the result is the findings of
   one full match of every pair, in binding order. With it unreadable the check skips exactly
   when a structurally matching pair has a namespace selector, and otherwise still reports
   the full match, whatever the labels of the namespace are.
   */
  lemma LazyReadKeepsMeaning(policies: seq<Policy>, bindings: seq<Binding>, pod: LabelSet,
                           namespace: Result<LabelSet>, ns: LabelSet)
    requires DistinctNames(policies)
    ensures var r := Outcome(Ok(policies), Ok(bindings), pod, namespace);
            && (namespace == Ok(ns) ==> r == Reported(FullFindings(policies, bindings, pod, ns)))
            && (namespace.Err? ==> (r.Skipped? <==> AnyNeedsNamespace(Pairs(policies, bindings, pod))))
            && (!AnyNeedsNamespace(Pairs(policies, bindings, pod)) ==>
                  r == Reported(FullFindings(policies, bindings, pod, ns)))
  {
    var pairs := Pairs(policies, bindings, pod);
    TwoPhasesAreOne(policies, bindings, pod, ns);
    if !AnyNeedsNamespace(pairs) {
      LabelsDoNotMatter(pairs, ns, UNREAD);
    }
  }

  /** A finding's severity: Medium exactly when the parameters are null and an error denies. */
  lemma {:induction false} FindingsAreInPath(policies: seq<Policy>, bindings: seq<Binding>, pod: LabelSet, ns: LabelSet)
    ensures forall f :: f in FullFindings(policies, bindings, pod, ns) <==>
                        exists p, b :: p in policies && b in bindings && InPath(p, b, pod, ns) && f == PairFinding(p, b)
  {
    if bindings != [] {
      var init, b := bindings[..|bindings| - 1], bindings[|bindings| - 1];
      assert bindings == init + [b];
      FindingsAreInPath(policies, init, pod, ns);
      BindingFindingsAreInPath(policies, b, pod, ns);
    }
  }

  lemma {:induction false} BindingFindingsAreInPath(policies: seq<Policy>, b: Binding, pod: LabelSet, ns: LabelSet)
    ensures forall f :: f in BindingFindings(policies, b, pod, ns) <==>
                        exists p :: p in policies && InPath(p, b, pod, ns) && f == PairFinding(p, b)
  {
    if policies != [] {
      assert policies == policies[..|policies| - 1] + [policies[|policies| - 1]];
      BindingFindingsAreInPath(policies[..|policies| - 1], b, pod, ns);
    }
  }

  // ----- When the labels can matter -----

  /** The pair's namespace selectors accept the labels. */
  predicate Admits(pair: Pair, ns: LabelSet) {
    Accepted(NamespaceMatches(pair.policy.constraints, ns)) && Accepted(NamespaceMatches(pair.binding.resources, ns))
  }

  /** A pair can make a difference between two label sets only with a namespace selector and a binding that denies. */
  predicate Sways(pair: Pair, ns: LabelSet, other: LabelSet) {
    NeedsNamespace(pair) && Deny in pair.binding.actions && Admits(pair, ns) != Admits(pair, other)
  }

  predicate DistinctBindings(bindings: seq<Binding>) {
    forall i, j :: 0 <= i < j < |bindings| ==> bindings[i].name != bindings[j].name
  }

  lemma SwaysOrNot(pair: Pair, ns: LabelSet, other: LabelSet)
    ensures Sways(pair, ns, other) <==> SecondPhase(pair, ns) != SecondPhase(pair, other)
  {
  }

  lemma {:induction false} PairFindingsAre(pairs: seq<Pair>, ns: LabelSet)
    ensures forall f :: f in PairFindings(pairs, ns) <==> exists pair :: pair in pairs && SecondPhase(pair, ns) == [f]
  {
    if pairs != [] {
      assert pairs == pairs[..|pairs| - 1] + [pairs[|pairs| - 1]];
      PairFindingsAre(pairs[..|pairs| - 1], ns);
    }
  }

  lemma {:induction false} PairsComeFromBindings(policies: seq<Policy>, bindings: seq<Binding>, pod: LabelSet)
    ensures forall pair :: pair in Pairs(policies, bindings, pod) ==>
              pair.binding in bindings && BindingPairs(policies, pair.binding, pod) == [pair]
  {
    if bindings != [] {
      assert bindings == bindings[..|bindings| - 1] + [bindings[|bindings| - 1]];
      PairsComeFromBindings(policies, bindings[..|bindings| - 1], pod);
    }
  }

  lemma {:induction false} NobodySways(pairs: seq<Pair>, ns: LabelSet, other: LabelSet)
    requires forall pair :: pair in pairs ==> !Sways(pair, ns, other)
    ensures PairFindings(pairs, ns) == PairFindings(pairs, other)
  {
    if pairs != [] {
      var init, last := pairs[..|pairs| - 1], pairs[|pairs| - 1];
      assert pairs == init + [last];
      assert last in pairs && forall pair :: pair in init ==> pair in pairs;
      SwaysOrNot(last, ns, other);
      NobodySways(init, ns, other);
    }
  }

  /** A pair that sways shows: its finding is there for one of the two label sets only. */
  lemma SwayShows(policies: seq<Policy>, bindings: seq<Binding>, pod: LabelSet, ns: LabelSet, other: LabelSet,
                  pair: Pair)
    requires DistinctBindings(bindings) && pair in Pairs(policies, bindings, pod)
    requires SecondPhase(pair, ns) == [PairFinding(pair.policy, pair.binding)] && SecondPhase(pair, other) == []
    ensures PairFinding(pair.policy, pair.binding) in PairFindings(Pairs(policies, bindings, pod), ns)
    ensures PairFinding(pair.policy, pair.binding) !in PairFindings(Pairs(policies, bindings, pod), other)
  {
    var pairs, f := Pairs(policies, bindings, pod), PairFinding(pair.policy, pair.binding);
    PairFindingsAre(pairs, ns);
    PairFindingsAre(pairs, other);
    PairsComeFromBindings(policies, bindings, pod);
    hide Pairs, PairFindings, NamespaceMatches, BindingPairs;
    forall p | p in pairs && PairFinding(p.policy, p.binding) == f
      ensures p == pair
    {
      var i :| 0 <= i < |bindings| && bindings[i] == p.binding;
      var j :| 0 <= j < |bindings| && bindings[j] == pair.binding;
      assert i == j;
    }
  }

  /**
   The labels of the namespace matter exactly when some candidate that can deny has a namespace
   selector and its selectors accept one of the label sets and not the other. Candidates without
   Deny never need them, although the check reads the namespace, and skips, for those too.
   */
  lemma LabelsMatterExactly(policies: seq<Policy>, bindings: seq<Binding>, pod: LabelSet, ns: LabelSet, other: LabelSet)
    requires DistinctNames(policies) && DistinctBindings(bindings)
    ensures FullFindings(policies, bindings, pod, ns) != FullFindings(policies, bindings, pod, other) <==>
            exists pair :: pair in Pairs(policies, bindings, pod) && Sways(pair, ns, other)
  {
    var pairs := Pairs(policies, bindings, pod);
    TwoPhasesAreOne(policies, bindings, pod, ns);
    TwoPhasesAreOne(policies, bindings, pod, other);
    if pair :| pair in pairs && Sways(pair, ns, other) {
      if Admits(pair, ns) {
        SwayShows(policies, bindings, pod, ns, other, pair);
      } else {
        SwayShows(policies, bindings, pod, other, ns, pair);
      }
    } else {
      NobodySways(pairs, ns, other);
    }
  }

  const EVERYTHING := MatchResources([], [], None, None)

  const AUDITED := Policy("p", false, Some(EVERYTHING), false, None)

  const AUDIT_IN_PROD := Binding(
    "b", "p", Some(MatchResources([], [], None, Some(LabelSelector(map["env" := "prod"], [], true)))), [Audit], false)

  /** A binding that only audits: the check skips for want of the labels, and there is nothing to report under any. */
  lemma SkippedForNothing(pod: LabelSet, ns: LabelSet)
    ensures Outcome(Ok([AUDITED]), Ok([AUDIT_IN_PROD]), pod, Err("forbidden")) == Skipped("forbidden")
    ensures FullFindings([AUDITED], [AUDIT_IN_PROD], pod, ns) == []
  {
    var pair := Pair(AUDITED, AUDIT_IN_PROD);
    AuditedPair(pod);
    AuditNeedsLabels();
    TwoPhasesAreOne([AUDITED], [AUDIT_IN_PROD], pod, ns);
    hide Pairs, FullFindings, NeedsNamespace, NamespaceMatches;
    assert pair in [pair];
    assert [pair][..0] == [] && PairFindings([pair], ns) == SecondPhase(pair, ns);
  }

  lemma AuditNeedsLabels()
    ensures NeedsNamespace(Pair(AUDITED, AUDIT_IN_PROD))
  {
    assert "env" in AUDIT_IN_PROD.resources.value.namespaceSelector.value.matchLabels;
  }

  lemma AuditedPair(pod: LabelSet)
    ensures Pairs([AUDITED], [AUDIT_IN_PROD], pod) == [Pair(AUDITED, AUDIT_IN_PROD)]
  {
    EverythingMatches(pod);
    hide MatchesExceptNamespace, Structural;
    assert [AUDITED][..0] == [] && [AUDIT_IN_PROD][..0] == [];
    assert BindingPairs([AUDITED], AUDIT_IN_PROD, pod) == [Pair(AUDITED, AUDIT_IN_PROD)];
    hide BindingPairs;
    assert Pairs([AUDITED], [AUDIT_IN_PROD], pod) == [] + [Pair(AUDITED, AUDIT_IN_PROD)];
  }

  lemma EverythingMatches(pod: LabelSet)
    ensures Structural(AUDITED, pod) && Accepted(MatchesExceptNamespace(AUDIT_IN_PROD.resources, pod))
  {
    CandidatesCover([]);
  }
}
