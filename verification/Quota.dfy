/**
 The quota-headroom and hpa-quota-headroom checks (internal/check/quota.go, hpa.go) and the
 container requests they multiply (internal/workload/workload.go), against a namespace that
 admits pods one at a time. Quantities are whole milli-units; one pod is 1000 of "pods".
 */
module Quota {
  import opened Base
  import Rollouts

  type Amounts = map<string, int>

  datatype ResourceQuota = ResourceQuota(name: string, hard: Amounts, used: Amounts)

  const PODS := "pods"
  const CPU := "cpu"
  const MEMORY := "memory"
  const PREFIX := "requests."

  // ----- What one pod requests -----

  /** The sum over the containers that request the resource. */
  function Requested(containers: seq<map<string, nat>>, resource: string): nat {
    if containers == [] then 0
    else
      Requested(containers[..|containers| - 1], resource)
      + if resource in containers[|containers| - 1] then containers[|containers| - 1][resource] else 0
  }

  /** A missing key reads as zero. */
  function Of(total: map<string, nat>, resource: string): nat {
    if resource in total then total[resource] else 0
  }

  /** What a pod of these containers requests. */
  function Requests(containers: seq<map<string, nat>>): (total: map<string, nat>)
    ensures forall r :: Of(total, r) == Requested(containers, r)
  {
    RequestedOnlyIfNamed(containers);
    map r | r in (set c, r | c in containers && r in c.Keys :: r) :: Requested(containers, r)
  }

  lemma {:induction false} RequestedOnlyIfNamed(containers: seq<map<string, nat>>)
    ensures forall r :: Requested(containers, r) > 0 ==> exists c :: c in containers && r in c
  {
    if containers != [] {
      assert containers == containers[..|containers| - 1] + [containers[|containers| - 1]];
      RequestedOnlyIfNamed(containers[..|containers| - 1]);
    }
  }

  method PodRequests(containers: seq<map<string, nat>>) returns (total: map<string, nat>)
    ensures total == Requests(containers)
  {
    total := map[];
    for i := 0 to |containers|
      invariant forall r :: Of(total, r) == Requested(containers[..i], r)
      invariant forall r :: r in total <==> exists c :: c in containers[..i] && r in c
    {
      assert containers[..i + 1] == containers[..i] + [containers[i]] && containers[..i + 1][..i] == containers[..i];
      var requests := containers[i];
      ghost var before := total;
      var rest := requests.Keys;
      while rest != {}
        invariant rest <= requests.Keys
        invariant forall r :: Of(total, r) == Of(before, r) + if r in requests && r !in rest then requests[r] else 0
        invariant total.Keys == before.Keys + (requests.Keys - rest)
      {
        var name :| name in rest;
        var sum := Of(total, name);
        total := total[name := sum + requests[name]];
        rest := rest - {name};
      }
    }
    assert containers[..|containers|] == containers;
    SameTotals(containers, total);
  }

  lemma SameTotals(containers: seq<map<string, nat>>, total: map<string, nat>)
    requires forall r :: Of(total, r) == Requested(containers, r)
    requires forall r :: r in total <==> exists c :: c in containers && r in c
    ensures total == Requests(containers)
  {
    forall r
      ensures r in total <==> r in Requests(containers)
      ensures r in total ==> total[r] == Requests(containers)[r]
    {
      assert Of(total, r) == Requested(containers, r);
    }
  }

  // ----- Headroom -----

  /** Value() of a quantity: whole units, rounded up. */
  function Value(milli: int): int {
    -(-milli / 1000)
  }

  lemma ValueIs(milli: int, n: int)
    ensures n >= Value(milli) <==> 1000 * n >= milli
  {
  }

  function Used(q: ResourceQuota, key: string): int {
    if key in q.used then q.used[key] else 0
  }

  /** The first of the two spellings the quota bounds; without a prefix there is only one. */
  function Headroom(q: ResourceQuota, name: string, prefix: string): Option<(int, int)> {
    if prefix != "" && prefix + name in q.hard then Some((q.hard[prefix + name], Used(q, prefix + name)))
    else if name in q.hard then Some((q.hard[name], Used(q, name)))
    else None
  }

  function PodsShort(q: ResourceQuota, count: nat): bool {
    var h := Headroom(q, PODS, "");
    h.Some? && Value(h.value.0) - Value(h.value.1) < count
  }

  function ComputeShort(q: ResourceQuota, count: nat, name: string, perPod: nat): bool {
    var h := Headroom(q, name, PREFIX);
    h.Some? && perPod != 0 && h.value.0 - h.value.1 < perPod * count
  }

  datatype Finding = Finding(severity: Severity, quota: string, resource: string)

  function QuotaFindings(q: ResourceQuota, severity: Severity, count: nat, perPod: map<string, nat>): seq<Finding> {
    (if PodsShort(q, count) then [Finding(severity, q.name, PODS)] else [])
    + (if ComputeShort(q, count, CPU, Of(perPod, CPU)) then [Finding(severity, q.name, CPU)] else [])
    + (if ComputeShort(q, count, MEMORY, Of(perPod, MEMORY)) then [Finding(severity, q.name, MEMORY)] else [])
  }

  function FindingsFor(quotas: seq<ResourceQuota>, severity: Severity, count: nat, perPod: map<string, nat>):
    seq<Finding> {
    if quotas == [] then []
    else
      FindingsFor(quotas[..|quotas| - 1], severity, count, perPod)
      + QuotaFindings(quotas[|quotas| - 1], severity, count, perPod)
  }

  datatype CheckResult = Skipped(reason: string) | Reported(findings: seq<Finding>)

  /** The loop over the quotas of a namespace. */
  method Examine(quotas: seq<ResourceQuota>, severity: Severity, count: nat, perPod: map<string, nat>)
    returns (findings: seq<Finding>)
    ensures findings == FindingsFor(quotas, severity, count, perPod)
  {
    findings := [];
    for i := 0 to |quotas|
      invariant findings == FindingsFor(quotas[..i], severity, count, perPod)
    {
      assert quotas[..i + 1][..i] == quotas[..i];
      var found := ExamineOne(quotas[i], severity, count, perPod);
      findings := findings + found;
    }
    assert quotas[..|quotas|] == quotas;
  }

  method ExamineOne(q: ResourceQuota, severity: Severity, count: nat, perPod: map<string, nat>)
    returns (findings: seq<Finding>)
    ensures findings == QuotaFindings(q, severity, count, perPod)
  {
    hide PodsShort, ComputeShort;
    findings := [];
    if PodsShort(q, count) {
      findings := findings + [Finding(severity, q.name, PODS)];
    }
    if ComputeShort(q, count, CPU, Of(perPod, CPU)) {
      findings := findings + [Finding(severity, q.name, CPU)];
    }
    if ComputeShort(q, count, MEMORY, Of(perPod, MEMORY)) {
      findings := findings + [Finding(severity, q.name, MEMORY)];
    }
  }

  function SurgeVerdict(quotas: Result<seq<ResourceQuota>>, strategy: Rollouts.Strategy, replicas: nat,
                        containers: seq<map<string, nat>>): CheckResult {
    if quotas.Err? then Skipped(quotas.error)
    else
      match Rollouts.SurgeCount(strategy, replicas)
      case None => Reported([])
      case Some(surge) => Reported(FindingsFor(quotas.value, High, surge, Requests(containers)))
  }

  /** quota-headroom: the pods a rolling update creates above the desired count. */
  method RunQuotaHeadroom(quotas: Result<seq<ResourceQuota>>, strategy: Rollouts.Strategy, replicas: nat,
                          containers: seq<map<string, nat>>)
    returns (r: CheckResult)
    ensures r == SurgeVerdict(quotas, strategy, replicas, containers)
  {
    if quotas.Err? {
      return Skipped(quotas.error);
    }
    if |quotas.value| == 0 {
      return Reported([]);
    }
    var surge := Rollouts.SurgeCount(strategy, replicas);
    if surge.None? {
      return Reported([]);
    }
    var perPod := PodRequests(containers);
    var findings := Examine(quotas.value, High, surge.value, perPod);
    return Reported(findings);
  }

  datatype Autoscaler = Autoscaler(name: string, targetKind: string, targetName: string, maxReplicas: int)

  /** The first autoscaler that scales the workload. */
  function Targeting(hpas: seq<Autoscaler>, kind: string, name: string): Option<Autoscaler> {
    if hpas == [] then None
    else if hpas[0].targetKind == kind && hpas[0].targetName == name then Some(hpas[0])
    else Targeting(hpas[1..], kind, name)
  }

  method FindTargeting(hpas: seq<Autoscaler>, kind: string, name: string) returns (t: Option<Autoscaler>)
    ensures t == Targeting(hpas, kind, name)
  {
    for i := 0 to |hpas|
      invariant Targeting(hpas, kind, name) == Targeting(hpas[i..], kind, name)
    {
      assert hpas[i..][0] == hpas[i] && hpas[i..][1..] == hpas[i + 1..];
      if hpas[i].targetKind == kind && hpas[i].targetName == name {
        return Some(hpas[i]);
      }
    }
    return None;
  }

  /** How many pods an autoscaler can still ask for. */
  function Additional(hpas: seq<Autoscaler>, kind: string, name: string, replicas: nat): nat {
    var t := Targeting(hpas, kind, name);
    if t.None? || t.value.maxReplicas <= replicas then 0 else t.value.maxReplicas - replicas
  }

  function AutoscalingVerdict(kind: string, name: string, replicas: nat, containers: seq<map<string, nat>>,
                              hpas: Result<seq<Autoscaler>>, quotas: Result<seq<ResourceQuota>>): CheckResult {
    if kind == "DaemonSet" then Reported([])
    else if hpas.Err? then Skipped(hpas.error)
    else
      var additional := Additional(hpas.value, kind, name, replicas);
      if additional == 0 then Reported([])
      else if quotas.Err? then Skipped(quotas.error)
      else Reported(FindingsFor(quotas.value, Medium, additional, Requests(containers)))
  }

  /** hpa-quota-headroom: the quotas are not even read when nothing can be asked for. */
  method RunHpaQuotaHeadroom(kind: string, name: string, replicas: nat, containers: seq<map<string, nat>>,
                             hpas: Result<seq<Autoscaler>>, quotas: Result<seq<ResourceQuota>>)
    returns (r: CheckResult)
    ensures r == AutoscalingVerdict(kind, name, replicas, containers, hpas, quotas)
  {
    if kind == "DaemonSet" {
      return Reported([]);
    }
    if hpas.Err? {
      return Skipped(hpas.error);
    }
    var targeting := FindTargeting(hpas.value, kind, name);
    if targeting.None? {
      return Reported([]);
    }
    var additional := targeting.value.maxReplicas - replicas;
    if additional <= 0 {
      return Reported([]);
    }
    if quotas.Err? {
      return Skipped(quotas.error);
    }
    if |quotas.value| == 0 {
      return Reported([]);
    }
    var perPod := PodRequests(containers);
    var findings := Examine(quotas.value, Medium, additional, perPod);
    return Reported(findings);
  }

  // ----- Admission, one pod at a time -----

  /** What one pod adds to a quota key; the prefixed and the plain spelling count the same. */
  function Charge(perPod: map<string, nat>, key: string): nat {
    if key == PODS then 1000
    else if key == CPU || key == PREFIX + CPU then Of(perPod, CPU)
    else if key == MEMORY || key == PREFIX + MEMORY then Of(perPod, MEMORY)
    else 0
  }

  /** Only what a pod adds to is held against the quota. */
  ghost predicate Admits(q: ResourceQuota, perPod: map<string, nat>) {
    forall key :: key in q.hard && Charge(perPod, key) > 0 ==> Used(q, key) + Charge(perPod, key) <= q.hard[key]
  }

  function Charged(q: ResourceQuota, perPod: map<string, nat>): ResourceQuota {
    q.(used := map key | key in q.hard :: Used(q, key) + Charge(perPod, key))
  }

  ghost predicate AllAdmit(quotas: seq<ResourceQuota>, perPod: map<string, nat>) {
    forall i :: 0 <= i < |quotas| ==> Admits(quotas[i], perPod)
  }

  function AllCharged(quotas: seq<ResourceQuota>, perPod: map<string, nat>): seq<ResourceQuota> {
    seq(|quotas|, i requires 0 <= i < |quotas| => Charged(quotas[i], perPod))
  }

  /** n pods created one after the other, every quota admitting every one of them. */
  ghost predicate Creates(quotas: seq<ResourceQuota>, perPod: map<string, nat>, n: nat)
    decreases n
  {
    n == 0 || (AllAdmit(quotas, perPod) && Creates(AllCharged(quotas, perPod), perPod, n - 1))
  }

  /** Room for n pods under one key. */
  ghost predicate Room(q: ResourceQuota, perPod: map<string, nat>, key: string, n: nat) {
    key in q.hard && Charge(perPod, key) > 0 ==> Used(q, key) + n * Charge(perPod, key) <= q.hard[key]
  }

  ghost predicate AllRoom(quotas: seq<ResourceQuota>, perPod: map<string, nat>, n: nat) {
    forall i, key :: 0 <= i < |quotas| ==> Room(quotas[i], perPod, key, n)
  }

  lemma RoomForOneMore(q: ResourceQuota, perPod: map<string, nat>, key: string, n: nat)
    requires n >= 1
    ensures Room(q, perPod, key, n) ==> Room(q, perPod, key, 1)
    ensures Room(q, perPod, key, n) <==> Room(Charged(q, perPod), perPod, key, n - 1)
  {
    var charge := Charge(perPod, key);
    assert n * charge == (n - 1) * charge + charge;
    assert (n - 1) * charge >= 0;
  }

  /** Creating them one at a time succeeds exactly when every bound has room for all of them. */
  lemma {:induction false} CreatesIffRoom(quotas: seq<ResourceQuota>, perPod: map<string, nat>, n: nat)
    requires n >= 1
    ensures Creates(quotas, perPod, n) <==> AllRoom(quotas, perPod, n)
    decreases n
  {
    hide Charge, Room, Charged, AllAdmit;
    var next, left := AllCharged(quotas, perPod), n - 1;
    forall i, key | 0 <= i < |quotas|
      ensures Room(quotas[i], perPod, key, n) <==> Room(quotas[i], perPod, key, 1) && Room(next[i], perPod, key, left)
    {
      RoomForOneMore(quotas[i], perPod, key, n);
    }
    if AllRoom(quotas, perPod, 1) && AllRoom(next, perPod, left) {
      forall i, key | 0 <= i < |quotas|
        ensures Room(quotas[i], perPod, key, n)
      {
        assert Room(next[i], perPod, key, left) && Room(quotas[i], perPod, key, 1);
      }
    }
    if AllRoom(quotas, perPod, n) {
      forall i, key | 0 <= i < |next|
        ensures Room(next[i], perPod, key, left)
      {
        assert Room(quotas[i], perPod, key, n);
      }
      forall i, key | 0 <= i < |quotas|
        ensures Room(quotas[i], perPod, key, 1)
      {
        assert Room(quotas[i], perPod, key, n);
      }
    }
    AdmitsIffRoomForOne(quotas, perPod);
    if n > 1 {
      CreatesIffRoom(next, perPod, left);
    } else {
      assert Creates(next, perPod, 0);
    }
  }

  lemma AdmitsIffRoomForOne(quotas: seq<ResourceQuota>, perPod: map<string, nat>)
    ensures AllAdmit(quotas, perPod) <==> AllRoom(quotas, perPod, 1)
  {
    forall i | 0 <= i < |quotas|
      ensures Admits(quotas[i], perPod) <==> forall key :: Room(quotas[i], perPod, key, 1)
    {
      forall key
        ensures Room(quotas[i], perPod, key, 1) <==>
                (key in quotas[i].hard && Charge(perPod, key) > 0 ==>
                   Used(quotas[i], key) + Charge(perPod, key) <= quotas[i].hard[key])
      {
      }
    }
  }

  // ----- What the findings say -----

  /** The API accepts only whole numbers of pods. */
  predicate WholePods(q: ResourceQuota) {
    (PODS in q.hard ==> q.hard[PODS] % 1000 == 0) && Used(q, PODS) % 1000 == 0
  }

  /** Bounded under both spellings, of which the check reads the prefixed one only. */
  ghost predicate UnreadAliasHasRoom(q: ResourceQuota, perPod: map<string, nat>, name: string, n: nat) {
    PREFIX + name in q.hard ==> Room(q, perPod, name, n)
  }

  lemma PodsFinding(q: ResourceQuota, perPod: map<string, nat>, n: nat)
    requires WholePods(q)
    ensures PodsShort(q, n) <==> !Room(q, perPod, PODS, n)
  {
  }

  lemma ComputeFinding(q: ResourceQuota, perPod: map<string, nat>, n: nat, name: string)
    requires name == CPU || name == MEMORY
    ensures ComputeShort(q, n, name, Of(perPod, name)) <==>
            !Room(q, perPod, if PREFIX + name in q.hard then PREFIX + name else name, n)
  {
    assert Charge(perPod, PREFIX + name) == Charge(perPod, name) == Of(perPod, name);
    assert n * Of(perPod, name) == Of(perPod, name) * n;
  }

  lemma OtherKeysHaveRoom(q: ResourceQuota, perPod: map<string, nat>, n: nat, key: string)
    requires key !in {PODS, CPU, MEMORY, PREFIX + CPU, PREFIX + MEMORY}
    ensures Room(q, perPod, key, n)
  {
  }

  /** One quota: no finding exactly when it has room for all the pods, the unread aliases aside. */
  lemma QuotaVerdict(q: ResourceQuota, severity: Severity, perPod: map<string, nat>, n: nat)
    requires WholePods(q)
    ensures (forall key :: Room(q, perPod, key, n)) <==>
            && QuotaFindings(q, severity, n, perPod) == []
            && UnreadAliasHasRoom(q, perPod, CPU, n) && UnreadAliasHasRoom(q, perPod, MEMORY, n)
  {
    hide Room, PodsShort, ComputeShort;
    PodsFinding(q, perPod, n);
    ComputeFinding(q, perPod, n, CPU);
    ComputeFinding(q, perPod, n, MEMORY);
    AbsentHasRoom(q, perPod, n, PREFIX + CPU);
    AbsentHasRoom(q, perPod, n, PREFIX + MEMORY);
    forall key | key !in {PODS, CPU, MEMORY, PREFIX + CPU, PREFIX + MEMORY}
      ensures Room(q, perPod, key, n)
    {
      OtherKeysHaveRoom(q, perPod, n, key);
    }
  }

  /** Each finding names the resource that is short, under the spelling that is read. */
  lemma FindingsNameShortages(q: ResourceQuota, severity: Severity, perPod: map<string, nat>, n: nat)
    requires WholePods(q)
    ensures Finding(severity, q.name, PODS) in QuotaFindings(q, severity, n, perPod) <==> !Room(q, perPod, PODS, n)
    ensures forall name :: name == CPU || name == MEMORY ==>
              (Finding(severity, q.name, name) in QuotaFindings(q, severity, n, perPod) <==>
               !Room(q, perPod, if PREFIX + name in q.hard then PREFIX + name else name, n))
  {
    hide Room, PodsShort, ComputeShort;
    PodsFinding(q, perPod, n);
    ComputeFinding(q, perPod, n, CPU);
    ComputeFinding(q, perPod, n, MEMORY);
  }

  lemma AbsentHasRoom(q: ResourceQuota, perPod: map<string, nat>, n: nat, key: string)
    ensures key !in q.hard ==> Room(q, perPod, key, n)
  {
  }

  lemma {:induction false} NoFindings(quotas: seq<ResourceQuota>, severity: Severity, n: nat, perPod: map<string, nat>)
    ensures FindingsFor(quotas, severity, n, perPod) == [] <==>
            forall i :: 0 <= i < |quotas| ==> QuotaFindings(quotas[i], severity, n, perPod) == []
  {
    if quotas != [] { NoFindings(quotas[..|quotas| - 1], severity, n, perPod); }
  }

  /**
   Over all quotas of the namespace: the check reports nothing and the spellings it does not
   read have room, exactly when creating the pods one at a time is admitted at every step.
   */
  lemma HeadroomIsStepwiseAdmission(quotas: seq<ResourceQuota>, severity: Severity, n: nat, perPod: map<string, nat>)
    requires n >= 1 && forall i :: 0 <= i < |quotas| ==> WholePods(quotas[i])
    ensures Creates(quotas, perPod, n) <==>
            && FindingsFor(quotas, severity, n, perPod) == []
            && forall i :: 0 <= i < |quotas| ==>
                 UnreadAliasHasRoom(quotas[i], perPod, CPU, n) && UnreadAliasHasRoom(quotas[i], perPod, MEMORY, n)
  {
    hide Room, UnreadAliasHasRoom, QuotaFindings, Creates;
    CreatesIffRoom(quotas, perPod, n);
    NoFindings(quotas, severity, n, perPod);
    forall i | 0 <= i < |quotas|
      ensures (forall key :: Room(quotas[i], perPod, key, n)) <==>
              && QuotaFindings(quotas[i], severity, n, perPod) == []
              && UnreadAliasHasRoom(quotas[i], perPod, CPU, n) && UnreadAliasHasRoom(quotas[i], perPod, MEMORY, n)
    {
      QuotaVerdict(quotas[i], severity, perPod, n);
    }
  }

  /** So without doubly bounded resources the check is exact. */
  lemma HeadroomIsExact(quotas: seq<ResourceQuota>, severity: Severity, n: nat, perPod: map<string, nat>)
    requires n >= 1 && forall i :: 0 <= i < |quotas| ==> WholePods(quotas[i])
    requires forall i :: 0 <= i < |quotas| ==>
               !(CPU in quotas[i].hard && PREFIX + CPU in quotas[i].hard)
               && !(MEMORY in quotas[i].hard && PREFIX + MEMORY in quotas[i].hard)
    ensures FindingsFor(quotas, severity, n, perPod) == [] <==> Creates(quotas, perPod, n)
  {
    HeadroomIsStepwiseAdmission(quotas, severity, n, perPod);
    forall i | 0 <= i < |quotas|
      ensures UnreadAliasHasRoom(quotas[i], perPod, CPU, n) && UnreadAliasHasRoom(quotas[i], perPod, MEMORY, n)
    {
      AbsentHasRoom(quotas[i], perPod, n, CPU);
      AbsentHasRoom(quotas[i], perPod, n, MEMORY);
    }
  }

  /** A quota bounding cpu under both spellings: no finding, and yet the pod is refused. */
  lemma UnreadAliasRefuses()
    ensures var q := ResourceQuota("q", map[PREFIX + CPU := 2000, CPU := 500], map[]);
            var perPod: map<string, nat> := map[CPU := 1000];
            FindingsFor([q], High, 1, perPod) == [] && !Creates([q], perPod, 1)
  {
    var q := ResourceQuota("q", map[PREFIX + CPU := 2000, CPU := 500], map[]);
    var perPod: map<string, nat> := map[CPU := 1000];
    assert !Room(q, perPod, CPU, 1);
    CreatesIffRoom([q], perPod, 1);
    assert [q][..0] == [];
  }

  /** A quota that bounds nothing but pods. */
  ghost predicate OnlyPods(quotas: seq<ResourceQuota>, perPod: map<string, nat>) {
    && |quotas| == 1 && PODS in quotas[0].hard
    && forall key :: key in quotas[0].hard && Charge(perPod, key) > 0 ==> key == PODS
  }

  /**
   The number the pod-count finding reports is the number of creations that succeed: as long as
   pods are the only bound, exactly max(0, available) of them do.
   */
  lemma AvailableIsCreated(quotas: seq<ResourceQuota>, perPod: map<string, nat>, n: nat)
    requires OnlyPods(quotas, perPod) && WholePods(quotas[0])
    ensures var available := Value(quotas[0].hard[PODS]) - Value(Used(quotas[0], PODS));
            Creates(quotas, perPod, n) <==> n <= Max(0, available)
  {
    if n >= 1 {
      CreatesIffRoom(quotas, perPod, n);
      PodsFinding(quotas[0], perPod, n);
      assert AllRoom(quotas, perPod, n) <==> Room(quotas[0], perPod, PODS, n);
    }
  }
}
