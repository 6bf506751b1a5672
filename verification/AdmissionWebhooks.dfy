/**
 The admission-webhook-visibility check (internal/check/admissionwebhook.go): validating
 webhooks first, then mutating ones, with the namespace read only when some candidate
 needs its labels.
 */
module AdmissionWebhooks {
  import opened Base
  import opened Labels
  import opened AdmissionMatch

  datatype Service = Service(namespace: string, name: string)

  datatype Webhook = Webhook(
    name: string, rules: seq<Rule>, conditional: bool,
    objectSelector: Option<LabelSelector>, namespaceSelector: Option<LabelSelector>,
    failurePolicy: Option<FailurePolicy>, service: Option<Service>)

  datatype Config = Config(name: string, webhooks: seq<Webhook>)

  datatype Candidate = Candidate(config: string, webhook: Webhook)

  datatype Finding = Finding(mutating: bool, config: string, webhook: string, severity: Severity)

  datatype CheckResult = Skipped(reason: string) | Reported(findings: seq<Finding>)

  // ----- Backends -----

  /** `ready` is None when the API does not say, which counts as ready. */
  datatype Endpoint = Endpoint(ready: Option<bool>, addresses: nat)

  datatype Found = Exists | Absent | Unreadable

  /** What the cluster answers about the Service behind a webhook. */
  datatype Backend = Backend(service: Found, slices: Option<seq<seq<Endpoint>>>)

  datatype BackendState = Unclear | NotFound | ZeroReady | Ready

  predicate Serves(e: Endpoint) {
    e.ready != Some(false) && e.addresses > 0
  }

  method ResolveBackend(b: Backend) returns (s: BackendState)
    ensures s == StateOf(b)
  {
    if b.service.Absent? {
      return NotFound;
    }
    if b.service.Unreadable? {
      return Unclear;
    }
    if b.slices.None? {
      return Unclear;
    }
    var slices := b.slices.value;
    for i := 0 to |slices|
      invariant forall k :: 0 <= k < i ==> forall e :: e in slices[k] ==> !Serves(e)
    {
      for j := 0 to |slices[i]|
        invariant forall e :: e in slices[i][..j] ==> !Serves(e)
      {
        if Serves(slices[i][j]) {
          assert slices[i] in slices && slices[i][j] in slices[i];
          return Ready;
        }
      }
      assert slices[i][..|slices[i]|] == slices[i];
    }
    return ZeroReady;
  }

  ghost function StateOf(b: Backend): BackendState {
    if b.service.Absent? then NotFound
    else if b.service.Unreadable? || b.slices.None? then Unclear
    else if exists s, e :: s in b.slices.value && e in s && Serves(e) then Ready
    else ZeroReady
  }

  // ----- Findings -----

  type Backends = Service -> Backend

  ghost function ValidatingFindings(c: Candidate, backends: Backends): seq<Finding> {
    if EffectiveFailurePolicy(c.webhook.failurePolicy).Ignore? || c.webhook.service.None? then []
    else
      match StateOf(backends(c.webhook.service.value))
      case Unclear => []
      case NotFound => [Finding(false, c.config, c.webhook.name, High)]
      case ZeroReady => [Finding(false, c.config, c.webhook.name, Medium)]
      case Ready => [Finding(false, c.config, c.webhook.name, Low)]
  }

  function MutatingFindings(c: Candidate): seq<Finding> {
    if c.webhook.service.None? then [] else [Finding(true, c.config, c.webhook.name, Low)]
  }

  ghost function FindingsOf(mutating: bool, c: Candidate, backends: Backends): seq<Finding> {
    if mutating then MutatingFindings(c) else ValidatingFindings(c, backends)
  }

  method EvaluateValidating(c: Candidate, backends: Backends) returns (findings: seq<Finding>)
    ensures findings == ValidatingFindings(c, backends)
  {
    if EffectiveFailurePolicy(c.webhook.failurePolicy) != Fail {
      return [];
    }
    if c.webhook.service.None? {
      return [];
    }
    var state := ResolveBackend(backends(c.webhook.service.value));
    match state
    case NotFound => return [Finding(false, c.config, c.webhook.name, High)];
    case ZeroReady => return [Finding(false, c.config, c.webhook.name, Medium)];
    case Ready => return [Finding(false, c.config, c.webhook.name, Low)];
    case Unclear => return [];
  }

  // ----- Candidates -----

  predicate Structural(wh: Webhook, pod: LabelSet) {
    PodCreateMatches(wh.rules) && !wh.conditional && Accepted(SelectorMatchesOrEmpty(wh.objectSelector, pod))
  }

  function ConfigCandidates(name: string, webhooks: seq<Webhook>, pod: LabelSet): seq<Candidate> {
    if webhooks == [] then []
    else
      var wh := webhooks[|webhooks| - 1];
      ConfigCandidates(name, webhooks[..|webhooks| - 1], pod)
      + if Structural(wh, pod) then [Candidate(name, wh)] else []
  }

  function Candidates(configs: seq<Config>, pod: LabelSet): seq<Candidate> {
    if configs == [] then []
    else
      Candidates(configs[..|configs| - 1], pod)
      + ConfigCandidates(configs[|configs| - 1].name, configs[|configs| - 1].webhooks, pod)
  }

  method CollectCandidates(configs: seq<Config>, pod: LabelSet) returns (out: seq<Candidate>)
    ensures out == Candidates(configs, pod)
  {
    hide Structural, SelectorMatchesOrEmpty;
    out := [];
    for i := 0 to |configs|
      invariant out == Candidates(configs[..i], pod)
    {
      assert configs[..i + 1][..i] == configs[..i];
      var collected := CollectConfig(configs[i], pod);
      out := out + collected;
    }
    assert configs[..|configs|] == configs;
  }

  method CollectConfig(cfg: Config, pod: LabelSet) returns (out: seq<Candidate>)
    ensures out == ConfigCandidates(cfg.name, cfg.webhooks, pod)
  {
    out := [];
    for j := 0 to |cfg.webhooks|
      invariant out == ConfigCandidates(cfg.name, cfg.webhooks[..j], pod)
    {
      assert cfg.webhooks[..j + 1][..j] == cfg.webhooks[..j];
      var wh := cfg.webhooks[j];
      if !PodCreateMatches(wh.rules) || wh.conditional {
        continue;
      }
      if !Accepted(SelectorMatchesOrEmpty(wh.objectSelector, pod)) {
        continue;
      }
      out := out + [Candidate(cfg.name, wh)];
    }
    assert cfg.webhooks[..|cfg.webhooks|] == cfg.webhooks;
  }

  predicate NeedsNamespace(cs: seq<Candidate>) {
    exists c :: c in cs && !NoSelector(c.webhook.namespaceSelector)
  }

  method AnyNeedsNamespace(cs: seq<Candidate>) returns (needs: bool)
    ensures needs <==> NeedsNamespace(cs)
  {
    needs := false;
    for i := 0 to |cs|
      invariant needs <==> NeedsNamespace(cs[..i])
    {
      assert cs[..i + 1] == cs[..i] + [cs[i]];
      if !NoSelector(cs[i].webhook.namespaceSelector) {
        needs := true;
      }
    }
    assert cs[..|cs|] == cs;
  }

  ghost function SecondPhase(mutating: bool, cs: seq<Candidate>, ns: LabelSet, backends: Backends): seq<Finding> {
    if cs == [] then []
    else
      var c := cs[|cs| - 1];
      SecondPhase(mutating, cs[..|cs| - 1], ns, backends)
      + if Accepted(SelectorMatchesOrEmpty(c.webhook.namespaceSelector, ns))
        then FindingsOf(mutating, c, backends) else []
  }

  method EvaluateCandidates(mutating: bool, cs: seq<Candidate>, ns: LabelSet, backends: Backends)
    returns (findings: seq<Finding>)
    ensures findings == SecondPhase(mutating, cs, ns, backends)
  {
    hide SelectorMatchesOrEmpty, ValidatingFindings;
    findings := [];
    for i := 0 to |cs|
      invariant findings == SecondPhase(mutating, cs[..i], ns, backends)
    {
      assert cs[..i + 1][..i] == cs[..i];
      var c := cs[i];
      if !Accepted(SelectorMatchesOrEmpty(c.webhook.namespaceSelector, ns)) {
        continue;
      }
      var found := MutatingFindings(c);
      if !mutating {
        found := EvaluateValidating(c, backends);
      }
      findings := findings + found;
    }
    assert cs[..|cs|] == cs;
  }

  const UNREAD: LabelSet := map[]

  ghost function BothPhases(validating: seq<Config>, mutating: seq<Config>, pod: LabelSet,
                           ns: LabelSet, backends: Backends):
    seq<Finding>
  {
    SecondPhase(false, Candidates(validating, pod), ns, backends)
    + SecondPhase(true, Candidates(mutating, pod), ns, backends)
  }

  ghost predicate Asks(validating: seq<Config>, mutating: seq<Config>, pod: LabelSet) {
    NeedsNamespace(Candidates(validating, pod)) || NeedsNamespace(Candidates(mutating, pod))
  }

  ghost function Outcome(validating: Result<seq<Config>>, mutating: Result<seq<Config>>, pod: LabelSet,
                         namespace: Result<LabelSet>, backends: Backends): CheckResult
  {
    if validating.Err? then Skipped(validating.error)
    else if mutating.Err? then Skipped(mutating.error)
    else if !Asks(validating.value, mutating.value, pod) then
      Reported(BothPhases(validating.value, mutating.value, pod, UNREAD, backends))
    else if namespace.Err? then Skipped(namespace.error)
    else Reported(BothPhases(validating.value, mutating.value, pod, namespace.value, backends))
  }

  method Run(validating: Result<seq<Config>>, mutating: Result<seq<Config>>, pod: LabelSet, namespace: Result<LabelSet>,
             backends: Backends)
    returns (r: CheckResult)
    ensures r == Outcome(validating, mutating, pod, namespace, backends)
  {
    if validating.Err? {
      return Skipped(validating.error);
    }
    if mutating.Err? {
      return Skipped(mutating.error);
    }
    var candidateValidating := CollectCandidates(validating.value, pod);
    var candidateMutating := CollectCandidates(mutating.value, pod);
    var needsNamespace := AnyNeedsNamespace(candidateValidating);
    var needsMore := AnyNeedsNamespace(candidateMutating);
    var labels := UNREAD;
    if needsNamespace || needsMore {
      if namespace.Err? {
        return Skipped(namespace.error);
      }
      labels := namespace.value;
    }
    var first := EvaluateCandidates(false, candidateValidating, labels, backends);
    var second := EvaluateCandidates(true, candidateMutating, labels, backends);
    return Reported(first + second);
  }

  // ----- The reference: one full match per webhook -----

  predicate InPath(wh: Webhook, pod: LabelSet, ns: LabelSet) {
    && PodCreateMatches(wh.rules) && !wh.conditional
    && Accepted(SelectorMatchesOrEmpty(wh.objectSelector, pod))
    && Accepted(SelectorMatchesOrEmpty(wh.namespaceSelector, ns))
  }

  ghost function ConfigFindings(mutating: bool, name: string, webhooks: seq<Webhook>, pod: LabelSet, ns: LabelSet,
                                backends: Backends): seq<Finding>
  {
    if webhooks == [] then []
    else
      var wh := webhooks[|webhooks| - 1];
      ConfigFindings(mutating, name, webhooks[..|webhooks| - 1], pod, ns, backends)
      + if InPath(wh, pod, ns) then FindingsOf(mutating, Candidate(name, wh), backends) else []
  }

  ghost function FullFindings(mutating: bool, configs: seq<Config>, pod: LabelSet, ns: LabelSet, backends: Backends):
    seq<Finding>
  {
    if configs == [] then []
    else
      var cfg := configs[|configs| - 1];
      FullFindings(mutating, configs[..|configs| - 1], pod, ns, backends)
      + ConfigFindings(mutating, cfg.name, cfg.webhooks, pod, ns, backends)
  }

  // ----- Lazy reading changes nothing -----

  lemma Regroup(a: seq<Finding>, b: seq<Finding>, c: seq<Finding>)
    ensures (a + b) + c == a + (b + c)
  {
  }

  ghost function LastFindings(mutating: bool, cs: seq<Candidate>, ns: LabelSet, backends: Backends): seq<Finding>
    requires cs != []
  {
    var c := cs[|cs| - 1];
    if Accepted(SelectorMatchesOrEmpty(c.webhook.namespaceSelector, ns)) then FindingsOf(mutating, c, backends) else []
  }

  lemma LastCandidate(mutating: bool, cs: seq<Candidate>, ns: LabelSet, backends: Backends)
    requires cs != []
    ensures SecondPhase(mutating, cs, ns, backends) ==
            SecondPhase(mutating, cs[..|cs| - 1], ns, backends) + LastFindings(mutating, cs, ns, backends)
  {
  }

  lemma {:induction false} SecondPhaseConcat(mutating: bool, a: seq<Candidate>, b: seq<Candidate>,
                                             ns: LabelSet, backends: Backends)
    ensures SecondPhase(mutating, a + b, ns, backends) ==
            SecondPhase(mutating, a, ns, backends) + SecondPhase(mutating, b, ns, backends)
  {
    if b == [] {
      assert a + b == a;
    } else {
      hide FindingsOf, SelectorMatchesOrEmpty;
      var ab, init := a + b, b[..|b| - 1];
      assert ab[..|ab| - 1] == a + init && ab[|ab| - 1] == b[|b| - 1];
      SecondPhaseConcat(mutating, a, init, ns, backends);
      LastCandidate(mutating, b, ns, backends);
      LastCandidate(mutating, ab, ns, backends);
      hide SecondPhase, LastFindings;
      Regroup(SecondPhase(mutating, a, ns, backends), SecondPhase(mutating, init, ns, backends),
              LastFindings(mutating, b, ns, backends));
    }
  }

  lemma {:induction false} ConfigInTwoPhases(mutating: bool, name: string, webhooks: seq<Webhook>, pod: LabelSet,
                                             ns: LabelSet,
                                             backends: Backends)
    ensures SecondPhase(mutating, ConfigCandidates(name, webhooks, pod), ns, backends) ==
            ConfigFindings(mutating, name, webhooks, pod, ns, backends)
  {
    if webhooks != [] {
      hide FindingsOf, SelectorMatchesOrEmpty, PodCreateMatches;
      var init, wh := webhooks[..|webhooks| - 1], webhooks[|webhooks| - 1];
      ConfigInTwoPhases(mutating, name, init, pod, ns, backends);
      var before := ConfigCandidates(name, init, pod);
      assert (before + [Candidate(name, wh)])[..|before|] == before;
      assert before + [] == before;
      assert InPath(wh, pod, ns) <==>
             Structural(wh, pod) && Accepted(SelectorMatchesOrEmpty(wh.namespaceSelector, ns));
      var found := ConfigFindings(mutating, name, init, pod, ns, backends);
      assert found + [] == found;
    }
  }

  lemma {:induction false} TwoPhasesAreOne(mutating: bool, configs: seq<Config>, pod: LabelSet,
                                           ns: LabelSet, backends: Backends)
    ensures SecondPhase(mutating, Candidates(configs, pod), ns, backends) ==
            FullFindings(mutating, configs, pod, ns, backends)
  {
    if configs != [] {
      hide SecondPhase, ConfigFindings, ConfigCandidates;
      var init, cfg := configs[..|configs| - 1], configs[|configs| - 1];
      TwoPhasesAreOne(mutating, init, pod, ns, backends);
      ConfigInTwoPhases(mutating, cfg.name, cfg.webhooks, pod, ns, backends);
      SecondPhaseConcat(mutating, Candidates(init, pod), ConfigCandidates(cfg.name, cfg.webhooks, pod), ns, backends);
    } else {
      assert Candidates(configs, pod) == [];
    }
  }

  lemma {:induction false} LabelsDoNotMatter(mutating: bool, cs: seq<Candidate>, ns: LabelSet,
                                             other: LabelSet, backends: Backends)
    requires !NeedsNamespace(cs)
    ensures SecondPhase(mutating, cs, ns, backends) == SecondPhase(mutating, cs, other, backends)
  {
    if cs != [] {
      hide FindingsOf;
      var init, last := cs[..|cs| - 1], cs[|cs| - 1];
      assert cs == init + [last];
      assert last in cs && NoSelector(last.webhook.namespaceSelector);
      assert forall c :: c in init ==> c in cs;
      LabelsDoNotMatter(mutating, init, ns, other, backends);
    }
  }

  /**
   With the namespace readable, the result is that of one full match of every webhook,
   validating ones first. With it unreadable the check skips exactly when a structurally
   matching webhook has a namespace selector, and otherwise the labels make no difference.
   */
  lemma LazyReadKeepsMeaning(validating: seq<Config>, mutating: seq<Config>, pod: LabelSet, namespace: Result<LabelSet>,
                             ns: LabelSet, backends: Backends)
    ensures var r := Outcome(Ok(validating), Ok(mutating), pod, namespace, backends);
            var full := FullFindings(false, validating, pod, ns, backends)
                       + FullFindings(true, mutating, pod, ns, backends);
            && (namespace == Ok(ns) ==> r == Reported(full))
            && (namespace.Err? ==> (r.Skipped? <==> Asks(validating, mutating, pod)))
            && (!Asks(validating, mutating, pod) ==> r == Reported(full))
  {
    hide SecondPhase, FullFindings, Candidates;
    TwoPhasesAreOne(false, validating, pod, ns, backends);
    TwoPhasesAreOne(true, mutating, pod, ns, backends);
    if !Asks(validating, mutating, pod) {
      LabelsDoNotMatter(false, Candidates(validating, pod), ns, UNREAD, backends);
      LabelsDoNotMatter(true, Candidates(mutating, pod), ns, UNREAD, backends);
    }
  }

  /** High is kept for what blocks for certain: fail closed, in the cluster, and no such Service. */
  lemma HighOnlyWhenBlocked(c: Candidate, backends: Backends, mutating: bool)
    ensures (exists f :: f in FindingsOf(mutating, c, backends) && f.severity == High) <==>
            && !mutating && EffectiveFailurePolicy(c.webhook.failurePolicy) == Fail
            && c.webhook.service.Some? && backends(c.webhook.service.value).service.Absent?
  {
    var fs := FindingsOf(mutating, c, backends);
    if fs != [] {
      assert fs[0] in fs;
    }
  }

  // ----- When the labels can matter -----

  /** The webhook is in the cluster and, if validating, fails closed: what it takes to be reported at all. */
  predicate CanReport(mutating: bool, c: Candidate) {
    c.webhook.service.Some? && (mutating || EffectiveFailurePolicy(c.webhook.failurePolicy) == Fail)
  }

  lemma OnlyThoseAreReported(mutating: bool, c: Candidate, backends: Backends)
    ensures FindingsOf(mutating, c, backends) != [] ==> CanReport(mutating, c)
    ensures CanReport(mutating, c) && FindingsOf(mutating, c, backends) == [] ==>
              !mutating && StateOf(backends(c.webhook.service.value)) == Unclear
  {
  }

  /** A selector that accepts one of two label sets only, on a webhook that is reported when it matches. */
  ghost predicate Sways(mutating: bool, c: Candidate, ns: LabelSet, other: LabelSet, backends: Backends) {
    && !NoSelector(c.webhook.namespaceSelector) && FindingsOf(mutating, c, backends) != []
    && Accepted(SelectorMatchesOrEmpty(c.webhook.namespaceSelector, ns)) !=
       Accepted(SelectorMatchesOrEmpty(c.webhook.namespaceSelector, other))
  }

  /** No webhook of one list is there twice. */
  predicate DistinctCandidates(cs: seq<Candidate>) {
    forall i, j :: 0 <= i < j < |cs| ==> cs[i].config != cs[j].config || cs[i].webhook.name != cs[j].webhook.name
  }

  lemma {:induction false} NobodySways(mutating: bool, cs: seq<Candidate>, ns: LabelSet, other: LabelSet,
                                       backends: Backends)
    requires forall c :: c in cs ==> !Sways(mutating, c, ns, other, backends)
    ensures SecondPhase(mutating, cs, ns, backends) == SecondPhase(mutating, cs, other, backends)
  {
    if cs != [] {
      hide FindingsOf;
      var init, last := cs[..|cs| - 1], cs[|cs| - 1];
      assert cs == init + [last];
      assert last in cs && forall c :: c in init ==> c in cs;
      NobodySways(mutating, init, ns, other, backends);
    }
  }

  lemma {:induction false} PhaseFindingsAre(mutating: bool, cs: seq<Candidate>, ns: LabelSet, backends: Backends)
    ensures forall f :: f in SecondPhase(mutating, cs, ns, backends) <==>
                        exists c :: c in cs && Accepted(SelectorMatchesOrEmpty(c.webhook.namespaceSelector, ns))
                                    && f in FindingsOf(mutating, c, backends)
  {
    if cs != [] {
      hide FindingsOf, SelectorMatchesOrEmpty;
      assert cs == cs[..|cs| - 1] + [cs[|cs| - 1]];
      PhaseFindingsAre(mutating, cs[..|cs| - 1], ns, backends);
    }
  }

  /** A finding names its list, its configuration and its webhook. */
  lemma FindingNames(mutating: bool, c: Candidate, backends: Backends)
    ensures forall f :: f in FindingsOf(mutating, c, backends) ==>
                        f.mutating == mutating && f.config == c.config && f.webhook == c.webhook.name
  {
  }

  lemma SwayShows(mutating: bool, cs: seq<Candidate>, ns: LabelSet, other: LabelSet, backends: Backends, c: Candidate)
    requires DistinctCandidates(cs) && c in cs && FindingsOf(mutating, c, backends) != []
    requires Accepted(SelectorMatchesOrEmpty(c.webhook.namespaceSelector, ns))
    requires !Accepted(SelectorMatchesOrEmpty(c.webhook.namespaceSelector, other))
    ensures SecondPhase(mutating, cs, ns, backends) != SecondPhase(mutating, cs, other, backends)
  {
    hide FindingsOf, SelectorMatchesOrEmpty, SecondPhase;
    PhaseFindingsAre(mutating, cs, ns, backends);
    PhaseFindingsAre(mutating, cs, other, backends);
    var f := FindingsOf(mutating, c, backends)[0];
    assert f in FindingsOf(mutating, c, backends);
    FindingNames(mutating, c, backends);
    forall x | x in cs && f in FindingsOf(mutating, x, backends)
      ensures x == c
    {
      FindingNames(mutating, x, backends);
      var i :| 0 <= i < |cs| && cs[i] == x;
      var j :| 0 <= j < |cs| && cs[j] == c;
      assert i == j;
    }
    assert f in SecondPhase(mutating, cs, ns, backends);
    assert f !in SecondPhase(mutating, cs, other, backends);
  }

  /**
   The labels of the namespace matter to one list of webhooks exactly when one that is reported when
   it matches has a namespace selector accepting one of the label sets and not the other. The check
   reads the namespace, and skips, for every structural candidate with a selector.
   */
  lemma LabelsMatterExactly(mutating: bool, configs: seq<Config>, pod: LabelSet, ns: LabelSet, other: LabelSet,
                            backends: Backends)
    requires DistinctCandidates(Candidates(configs, pod))
    ensures FullFindings(mutating, configs, pod, ns, backends) != FullFindings(mutating, configs, pod, other, backends)
            <==> exists c :: c in Candidates(configs, pod) && Sways(mutating, c, ns, other, backends)
  {
    hide FindingsOf, SelectorMatchesOrEmpty, SecondPhase, FullFindings, Candidates;
    var cs := Candidates(configs, pod);
    TwoPhasesAreOne(mutating, configs, pod, ns, backends);
    TwoPhasesAreOne(mutating, configs, pod, other, backends);
    if c :| c in cs && Sways(mutating, c, ns, other, backends) {
      if Accepted(SelectorMatchesOrEmpty(c.webhook.namespaceSelector, ns)) {
        SwayShows(mutating, cs, ns, other, backends, c);
      } else {
        SwayShows(mutating, cs, other, ns, backends, c);
      }
    } else {
      NobodySways(mutating, cs, ns, other, backends);
    }
  }

  const POD_CREATE := Rule([""], ["v1"], ["pods"], ["CREATE"], None)

  const IGNORED_IN_PROD := Webhook(
    "w", [POD_CREATE], false, None, Some(LabelSelector(map["env" := "prod"], [], true)), Some(Ignore),
    Some(Service("s", "n")))

  const IGNORING := [Config("c", [IGNORED_IN_PROD])]

  /** A webhook whose errors are ignored: skipped for want of the labels, and nothing to report under any. */
  lemma SkippedForNothing(pod: LabelSet, ns: LabelSet, backends: Backends)
    ensures Outcome(Ok(IGNORING), Ok([]), pod, Err("forbidden"), backends) == Skipped("forbidden")
    ensures FullFindings(false, IGNORING, pod, ns, backends) + FullFindings(true, [], pod, ns, backends) == []
  {
    IgnoredCandidate(pod);
    IgnoredNeedsLabels();
    TwoPhasesAreOne(false, IGNORING, pod, ns, backends);
    assert FullFindings(true, [], pod, ns, backends) == [];
    IgnoredIsSilent(ns, backends);
    hide Candidates, FullFindings, NeedsNamespace, SecondPhase;
  }

  lemma IgnoredNeedsLabels()
    ensures NeedsNamespace([Candidate("c", IGNORED_IN_PROD)])
  {
    assert "env" in IGNORED_IN_PROD.namespaceSelector.value.matchLabels;
    assert Candidate("c", IGNORED_IN_PROD) in [Candidate("c", IGNORED_IN_PROD)];
  }

  lemma IgnoredIsSilent(ns: LabelSet, backends: Backends)
    ensures SecondPhase(false, [Candidate("c", IGNORED_IN_PROD)], ns, backends) == []
  {
    hide SelectorMatchesOrEmpty;
    assert [Candidate("c", IGNORED_IN_PROD)][..0] == [];
    assert FindingsOf(false, Candidate("c", IGNORED_IN_PROD), backends) == [];
  }

  lemma IgnoredCandidate(pod: LabelSet)
    ensures Candidates(IGNORING, pod) == [Candidate("c", IGNORED_IN_PROD)]
  {
    RuleCovers(pod);
    hide Structural;
    assert [IGNORED_IN_PROD][..0] == [] && IGNORING[..0] == [];
    assert ConfigCandidates("c", [IGNORED_IN_PROD], pod) == [] + [Candidate("c", IGNORED_IN_PROD)];
    hide ConfigCandidates;
    assert Candidates(IGNORING, pod) == [] + [Candidate("c", IGNORED_IN_PROD)];
  }

  lemma RuleCovers(pod: LabelSet)
    ensures Structural(IGNORED_IN_PROD, pod)
  {
    assert POD_CREATE.groups[0] == "" && POD_CREATE.versions[0] == "v1" && POD_CREATE.resources[0] == "pods";
    assert POD_CREATE.operations[0] == "CREATE";
    assert IGNORED_IN_PROD.rules[0] == POD_CREATE && RuleCoversPodCreate(POD_CREATE);
  }
}
