/** Which admission rules and selectors concern the creation of a pod (internal/check/admissionwebhook.go). */
module AdmissionMatch {
  import opened Base
  import opened Labels

  datatype Scope = Namespaced | ClusterWide | AllScopes

  datatype Rule = Rule(
    groups: seq<string>, versions: seq<string>, resources: seq<string>, operations: seq<string>, scope: Option<Scope>)

  predicate RuleCoversPodCreate(r: Rule) {
    && ("" in r.groups || "*" in r.groups)
    && ("v1" in r.versions || "*" in r.versions)
    && ("pods" in r.resources || "*" in r.resources || "*/*" in r.resources)
    && ("CREATE" in r.operations || "*" in r.operations)
    && r.scope != Some(ClusterWide)
  }

  predicate PodCreateMatches(rules: seq<Rule>) {
    exists r :: r in rules && RuleCoversPodCreate(r)
  }

  /** A missing or empty selector matches everything; a malformed one (None) is left to the caller. */
  function SelectorMatchesOrEmpty(sel: Option<LabelSelector>, labels: LabelSet): (m: Option<bool>)
    ensures NoSelector(sel) ==> m == Some(true)
  {
    if NoSelector(sel) then Some(true) else Selects(sel, labels)
  }

  predicate NoSelector(sel: Option<LabelSelector>) {
    sel.None? || IsEmpty(sel.value)
  }

  predicate Accepted(m: Option<bool>) {
    m == Some(true)
  }

  datatype FailurePolicy = Fail | Ignore

  function EffectiveFailurePolicy(fp: Option<FailurePolicy>): FailurePolicy {
    if fp.Some? then fp.value else Fail
  }
}
