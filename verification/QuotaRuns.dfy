/**
 What the two headroom checks report of whole namespaces (internal/check/quota.go, hpa.go), against
 an admission that charges a pod to its quotas container by container.
 */
module QuotaRuns {
  import opened Base
  import opened Quota
  import Rollouts

  type Container = map<string, nat>

  // ----- Admission, one container at a time -----

  /** What a container adds to a key of a quota. */
  function ContainerCharge(c: Container, key: string): nat {
    if key == "cpu" || key == "requests.cpu" then (if "cpu" in c then c["cpu"] else 0)
    else if key == "memory" || key == "requests.memory" then (if "memory" in c then c["memory"] else 0)
    else 0
  }

  function InUse(used: Amounts, key: string): int {
    match Lookup(used, key) case Some(n) => n case None => 0
  }

  /** One container charged to a quota. */
  function WithContainer(q: ResourceQuota, c: Container): ResourceQuota {
    q.(used := map key | key in q.hard :: InUse(q.used, key) + ContainerCharge(c, key))
  }

  function WithContainers(q: ResourceQuota, containers: seq<Container>): ResourceQuota
    decreases |containers|
  {
    if containers == [] then q else WithContainers(WithContainer(q, containers[0]), containers[1..])
  }

  /** A whole pod: its containers, and itself as one pod, 1000 of "pods". */
  function WithPod(q: ResourceQuota, containers: seq<Container>): ResourceQuota {
    var full := WithContainers(q, containers);
    full.(used := map key | key in q.hard :: InUse(full.used, key) + if key == "pods" then 1000 else 0)
  }

  /** The pod may take no key it adds to above its bound. */
  ghost predicate Accepts(q: ResourceQuota, containers: seq<Container>) {
    var full := WithPod(q, containers);
    forall key :: key in q.hard && InUse(full.used, key) > InUse(q.used, key) ==> InUse(full.used, key) <= q.hard[key]
  }

  ghost predicate AllAccept(quotas: seq<ResourceQuota>, containers: seq<Container>) {
    forall q :: q in quotas ==> Accepts(q, containers)
  }

  function AllWithPod(quotas: seq<ResourceQuota>, containers: seq<Container>): seq<ResourceQuota> {
    seq(|quotas|, i requires 0 <= i < |quotas| => WithPod(quotas[i], containers))
  }

  /** n pods created one after the other, every quota accepting every one of them. */
  ghost predicate CreatesPods(quotas: seq<ResourceQuota>, containers: seq<Container>, n: nat)
    decreases n
  {
    n == 0 || (AllAccept(quotas, containers) && CreatesPods(AllWithPod(quotas, containers), containers, n - 1))
  }

  // ----- The request of a pod is what its containers add up to -----

  lemma RequestedOfOne(c: Container, resource: string)
    ensures Requested([c], resource) == if resource in c then c[resource] else 0
  {
    assert [c][..0] == [];
  }

  /** A pod of two lists of containers requests what the two request together. */
  lemma {:induction false} RequestsAddUp(a: seq<Container>, b: seq<Container>, resource: string)
    ensures Requested(a + b, resource) == Requested(a, resource) + Requested(b, resource)
  {
    if b == [] {
      assert a + b == a;
    } else {
      assert (a + b)[..|a + b| - 1] == a + b[..|b| - 1];
      RequestsAddUp(a, b[..|b| - 1], resource);
    }
  }

  /** Charging containers one by one adds up their requests under either spelling, and no pod yet. */
  lemma {:induction false} ContainersAddUp(q: ResourceQuota, containers: seq<Container>, key: string)
    requires key in q.hard
    ensures WithContainers(q, containers).hard == q.hard && WithContainers(q, containers).name == q.name
    ensures InUse(WithContainers(q, containers).used, key) ==
            InUse(q.used, key)
            + (if key == "cpu" || key == "requests.cpu" then Requested(containers, "cpu")
               else if key == "memory" || key == "requests.memory" then Requested(containers, "memory")
               else 0)
    decreases |containers|
  {
    if containers != [] {
      var c, rest := containers[0], containers[1..];
      ContainersAddUp(WithContainer(q, c), rest, key);
      assert containers == [c] + rest;
      RequestsAddUp([c], rest, "cpu");
      RequestsAddUp([c], rest, "memory");
      RequestedOfOne(c, "cpu");
      RequestedOfOne(c, "memory");
    }
  }

  lemma {:induction false} SameBounds(q: ResourceQuota, containers: seq<Container>)
    ensures WithContainers(q, containers).hard == q.hard && WithContainers(q, containers).name == q.name
    decreases |containers|
  {
    if containers != [] {
      SameBounds(WithContainer(q, containers[0]), containers[1..]);
    }
  }

  /** The charge per pod the check multiplies is what its containers are charged one by one. */
  lemma PodIsCharged(q: ResourceQuota, containers: seq<Container>)
    ensures WithPod(q, containers) == Charged(q, Requests(containers))
    ensures Accepts(q, containers) <==> Admits(q, Requests(containers))
  {
    hide Requests, Charge, WithPod, Accepts, Admits, Used;
    OnlyUsageChanges(q, containers);
    forall key | key in q.hard
      ensures WithPod(q, containers).used[key] == Used(q, key) + Charge(Requests(containers), key)
    {
      KeyIsCharged(q, containers, key);
    }
    assert WithPod(q, containers).used == Charged(q, Requests(containers)).used;
    AcceptsWhatItAdmits(q, containers);
  }

  lemma OnlyUsageChanges(q: ResourceQuota, containers: seq<Container>)
    ensures WithPod(q, containers) == q.(used := WithPod(q, containers).used)
    ensures WithPod(q, containers).used.Keys == q.hard.Keys
  {
    hide WithContainers;
    SameBounds(q, containers);
  }

  lemma AcceptsWhatItAdmits(q: ResourceQuota, containers: seq<Container>)
    requires WithPod(q, containers) == Charged(q, Requests(containers))
    ensures Accepts(q, containers) <==> Admits(q, Requests(containers))
  {
    hide Requests, Charge, WithPod;
    var full, perPod := Charged(q, Requests(containers)), Requests(containers);
    forall key | key in q.hard
      ensures InUse(full.used, key) == Used(q, key) + Charge(perPod, key) && InUse(q.used, key) == Used(q, key)
    {
    }
  }

  lemma KeyIsCharged(q: ResourceQuota, containers: seq<Container>, key: string)
    requires key in q.hard
    ensures key in WithPod(q, containers).used
    ensures WithPod(q, containers).used[key] == Used(q, key) + Charge(Requests(containers), key)
  {
    Spellings();
    ContainersAddUp(q, containers, key);
    var perPod := Requests(containers);
    hide Requested, Requests, WithContainers;
    assert Of(perPod, CPU) == Requested(containers, CPU) && Of(perPod, MEMORY) == Requested(containers, MEMORY);
  }

  lemma Spellings()
    ensures PODS == "pods" && CPU == "cpu" && MEMORY == "memory"
    ensures PREFIX + CPU == "requests.cpu" && PREFIX + MEMORY == "requests.memory"
  {
  }

  lemma AllAreCharged(quotas: seq<ResourceQuota>, containers: seq<Container>)
    ensures AllWithPod(quotas, containers) == AllCharged(quotas, Requests(containers))
    ensures AllAccept(quotas, containers) <==> AllAdmit(quotas, Requests(containers))
  {
    hide Requests, WithPod, Charged, Accepts, Admits;
    forall i | 0 <= i < |quotas|
      ensures WithPod(quotas[i], containers) == Charged(quotas[i], Requests(containers))
      ensures Accepts(quotas[i], containers) <==> Admits(quotas[i], Requests(containers))
    {
      PodIsCharged(quotas[i], containers);
    }
  }

  lemma {:induction false} CreationsAreCharged(quotas: seq<ResourceQuota>, containers: seq<Container>, n: nat)
    ensures CreatesPods(quotas, containers, n) <==> Creates(quotas, Requests(containers), n)
    decreases n
  {
    hide Requests, AllAccept, AllAdmit, AllWithPod, AllCharged;
    if n > 0 {
      AllAreCharged(quotas, containers);
      CreationsAreCharged(AllWithPod(quotas, containers), containers, n - 1);
    }
  }

  // ----- Whole runs -----

  /** The quotas are as the API accepts them, and none bounds a resource under both spellings. */
  ghost predicate BoundedOnce(quotas: seq<ResourceQuota>) {
    forall q :: q in quotas ==>
      && WholePods(q) && !("cpu" in q.hard && "requests.cpu" in q.hard)
      && !("memory" in q.hard && "requests.memory" in q.hard)
  }

  /**
   quota-headroom reports nothing exactly when every pod of the surge is admitted, one at a time, its
   containers charged one by one; a finding is always High.
   */
  lemma SurgeIsAdmitted(quotas: seq<ResourceQuota>, strategy: Rollouts.Strategy, replicas: nat,
                        containers: seq<Container>, surge: nat)
    requires Rollouts.SurgeCount(strategy, replicas) == Some(surge) && BoundedOnce(quotas)
    ensures var r := SurgeVerdict(Ok(quotas), strategy, replicas, containers);
            && (r == Reported([]) <==> CreatesPods(quotas, containers, surge))
            && r.Reported? && forall f :: f in r.findings ==> f.severity == High
  {
    Spellings();
    OnlyOf(quotas, High, surge, Requests(containers));
    CreationsAreCharged(quotas, containers, surge);
    HeadroomIsExact(quotas, High, surge, Requests(containers));
  }

  /** Nothing surges, nothing is reported; nothing can be read, nothing is concluded. */
  lemma NothingSurges(quotas: Result<seq<ResourceQuota>>, strategy: Rollouts.Strategy, replicas: nat,
                      containers: seq<Container>)
    ensures quotas.Err? ==> SurgeVerdict(quotas, strategy, replicas, containers) == Skipped(quotas.error)
    ensures quotas.Ok? && (strategy.kind != Rollouts.RollingUpdate || strategy.maxSurge.None?) ==>
              SurgeVerdict(quotas, strategy, replicas, containers) == Reported([])
  {
  }

  lemma {:induction false} OnlyOf(quotas: seq<ResourceQuota>, severity: Severity, n: nat, perPod: map<string, nat>)
    ensures forall f :: f in FindingsFor(quotas, severity, n, perPod) ==> f.severity == severity
  {
    if quotas != [] {
      OnlyOf(quotas[..|quotas| - 1], severity, n, perPod);
    }
  }

  /** Findings are those of each quota by itself, in the order the quotas are listed. */
  lemma {:induction false} QuotaByQuota(a: seq<ResourceQuota>, b: seq<ResourceQuota>, severity: Severity, n: nat,
                                        perPod: map<string, nat>)
    ensures FindingsFor(a + b, severity, n, perPod) ==
            FindingsFor(a, severity, n, perPod) + FindingsFor(b, severity, n, perPod)
  {
    hide FindingsFor, QuotaFindings;
    if b == [] {
      OneQuotaMore(a, None, severity, n, perPod);
      assert a + b == a;
    } else {
      var init, last := b[..|b| - 1], b[|b| - 1];
      assert a + b == (a + init) + [last] && b == init + [last];
      QuotaByQuota(a, init, severity, n, perPod);
      OneQuotaMore(a + init, Some(last), severity, n, perPod);
      OneQuotaMore(init, Some(last), severity, n, perPod);
    }
  }

  lemma OneQuotaMore(quotas: seq<ResourceQuota>, last: Option<ResourceQuota>, severity: Severity, n: nat,
                     perPod: map<string, nat>)
    ensures FindingsFor([], severity, n, perPod) == []
    ensures last.Some? ==>
              FindingsFor(quotas + [last.value], severity, n, perPod) ==
              FindingsFor(quotas, severity, n, perPod) + QuotaFindings(last.value, severity, n, perPod)
  {
    if last.Some? {
      assert (quotas + [last.value])[..|quotas|] == quotas;
    }
  }

  lemma OneQuota(q: ResourceQuota, severity: Severity, n: nat, perPod: map<string, nat>)
    ensures FindingsFor([q], severity, n, perPod) == QuotaFindings(q, severity, n, perPod)
  {
    hide QuotaFindings;
    assert [q][..0] == [];
  }

  /** n such pods do not fit under the key: too many pods, or too much in all their containers. */
  ghost predicate Exceeds(q: ResourceQuota, key: string, n: nat, containers: seq<Container>) {
    && key in q.hard
    && var one := if key == "pods" then 1000
                  else if key == "cpu" || key == "requests.cpu" then Requested(containers, "cpu")
                  else Requested(containers, "memory");
       one > 0 && InUse(q.used, key) + n * one > q.hard[key]
  }

  /** One quota: which resources are reported, each under the prefixed spelling where the quota has it. */
  lemma WhatIsReported(q: ResourceQuota, severity: Severity, n: nat, containers: seq<Container>)
    requires WholePods(q)
    ensures var findings := QuotaFindings(q, severity, n, Requests(containers));
            var cpu := if "requests.cpu" in q.hard then "requests.cpu" else "cpu";
            var memory := if "requests.memory" in q.hard then "requests.memory" else "memory";
            findings ==
            (if Exceeds(q, "pods", n, containers) then [Finding(severity, q.name, "pods")] else [])
            + (if Exceeds(q, cpu, n, containers) then [Finding(severity, q.name, "cpu")] else [])
            + (if Exceeds(q, memory, n, containers) then [Finding(severity, q.name, "memory")] else [])
  {
    hide Requested, Requests, PodsShort, ComputeShort;
    Spellings();
    var perPod := Requests(containers);
    assert Of(perPod, "cpu") == Requested(containers, "cpu") && Of(perPod, "memory") == Requested(containers, "memory");
    PodsFinding(q, perPod, n);
    ComputeFinding(q, perPod, n, "cpu");
    ComputeFinding(q, perPod, n, "memory");
  }

  // ----- Autoscaling -----

  /** The first autoscaler that targets the workload. */
  ghost predicate IsFirstTarget(hpas: seq<Autoscaler>, kind: string, name: string, k: nat) {
    && k < |hpas| && hpas[k].targetKind == kind && hpas[k].targetName == name
    && forall j :: 0 <= j < k ==> !(hpas[j].targetKind == kind && hpas[j].targetName == name)
  }

  /** It may still ask for what lies between the current count and its maximum; without one nothing is asked for. */
  lemma {:induction false} AdditionalIs(hpas: seq<Autoscaler>, kind: string, name: string, replicas: nat)
    ensures forall k: nat :: IsFirstTarget(hpas, kind, name, k) ==>
              Additional(hpas, kind, name, replicas) == Max(0, hpas[k].maxReplicas - replicas)
    ensures (forall j :: 0 <= j < |hpas| ==> !(hpas[j].targetKind == kind && hpas[j].targetName == name)) ==>
              Additional(hpas, kind, name, replicas) == 0
  {
    if hpas != [] && !(hpas[0].targetKind == kind && hpas[0].targetName == name) {
      AdditionalIs(hpas[1..], kind, name, replicas);
      forall k: nat | IsFirstTarget(hpas, kind, name, k)
        ensures IsFirstTarget(hpas[1..], kind, name, k - 1)
      {
        forall j | 0 <= j < k - 1
          ensures !(hpas[1..][j].targetKind == kind && hpas[1..][j].targetName == name)
        {
          var next := j + 1;
          assert !(hpas[next].targetKind == kind && hpas[next].targetName == name);
        }
      }
    }
  }

  /** hpa-quota-headroom reports nothing exactly when all the pods up to the maximum are admitted. */
  lemma AutoscalingIsAdmitted(kind: string, name: string, replicas: nat, containers: seq<Container>,
                              hpas: seq<Autoscaler>, quotas: seq<ResourceQuota>, k: nat)
    requires kind != "DaemonSet" && IsFirstTarget(hpas, kind, name, k) && BoundedOnce(quotas)
    ensures var r := AutoscalingVerdict(kind, name, replicas, containers, Ok(hpas), Ok(quotas));
            && (r == Reported([]) <==> CreatesPods(quotas, containers, Max(0, hpas[k].maxReplicas - replicas)))
            && r.Reported? && forall f :: f in r.findings ==> f.severity == Medium
  {
    hide Additional;
    Spellings();
    AdditionalIs(hpas, kind, name, replicas);
    var n := Additional(hpas, kind, name, replicas);
    CreationsAreCharged(quotas, containers, n);
    if n > 0 {
      OnlyOf(quotas, Medium, n, Requests(containers));
      HeadroomIsExact(quotas, Medium, n, Requests(containers));
    }
  }

  /** The quotas are not read when no autoscaler can ask for more. */
  lemma QuotasAreReadLast(kind: string, name: string, replicas: nat, containers: seq<Container>,
                          hpas: Result<seq<Autoscaler>>, quotas: Result<seq<ResourceQuota>>)
    ensures AutoscalingVerdict(kind, name, replicas, containers, hpas, quotas).Skipped? <==>
            && kind != "DaemonSet"
            && (hpas.Err?
                || (quotas.Err?
                    && exists k: nat ::
                         IsFirstTarget(hpas.value, kind, name, k) && hpas.value[k].maxReplicas > replicas))
  {
    if hpas.Ok? {
      AdditionalIs(hpas.value, kind, name, replicas);
      hide Additional;
      var n := Additional(hpas.value, kind, name, replicas);
      if n > 0 {
        var k := SomeFirstTarget(hpas.value, kind, name);
        assert hpas.value[k].maxReplicas > replicas;
      }
    }
  }

  lemma {:induction false} SomeFirstTarget(hpas: seq<Autoscaler>, kind: string, name: string) returns (k: nat)
    requires exists j :: 0 <= j < |hpas| && hpas[j].targetKind == kind && hpas[j].targetName == name
    ensures IsFirstTarget(hpas, kind, name, k)
  {
    k := 0;
    while !(hpas[k].targetKind == kind && hpas[k].targetName == name)
      invariant k < |hpas|
      invariant forall j :: 0 <= j < k ==> !(hpas[j].targetKind == kind && hpas[j].targetName == name)
      decreases |hpas| - k
    {
      k := k + 1;
    }
  }
}
