/**
 The selector-overlap check (internal/check/selector.go): every Deployment, StatefulSet and
 DaemonSet of the namespace, in one sorted list, tested against the target in both directions.
 */
module SelectorOverlap {
  import opened Base
  import opened Labels
  import opened Sorting

  datatype Workload = Workload(
    kind: string, name: string, uid: string, replicas: nat, selector: Option<LabelSelector>, labels: LabelSet)

  /** `selfMatches`: the target's selector matches the other's labels; `otherMatches`: the converse. */
  datatype Finding = Overlap(otherKind: string, otherName: string, otherReplicas: nat,
                                   selfMatches: bool, otherMatches: bool)

  datatype CheckResult = Skipped(reason: string) | Reported(findings: seq<Finding>)

  /** The sort key: kind first, then name. */
  predicate Before(a: Workload, b: Workload) {
    if a.kind != b.kind then StringLess(a.kind, b.kind) else StringLess(a.name, b.name)
  }

  /** What comparing the two workloads reports, from the side of `self`. */
  function Compare(self: Workload, other: Workload): Option<Finding> {
    if other.uid == self.uid then None
    else
      var selfMatches, otherMatches := Selects(self.selector, other.labels), Selects(other.selector, self.labels);
      if selfMatches.None? || otherMatches.None? then None
      else if !selfMatches.value && !otherMatches.value then None
      else Some(Overlap(other.kind, other.name, other.replicas, selfMatches.value, otherMatches.value))
  }

  function Compared(self: Workload, candidates: seq<Workload>): seq<Finding> {
    if candidates == [] then []
    else
      var f := Compare(self, candidates[|candidates| - 1]);
      Compared(self, candidates[..|candidates| - 1]) + if f.Some? then [f.value] else []
  }

  /** A target whose own selector is malformed is not compared at all. */
  function FindingsOf(self: Workload, all: seq<Workload>): seq<Finding> {
    if Selects(self.selector, map[]).None? then [] else Compared(self, Sort(all, Before))
  }

  method Run(self: Workload, deployments: Result<seq<Workload>>, statefulSets: Result<seq<Workload>>,
             daemonSets: Result<seq<Workload>>)
    returns (r: CheckResult)
    ensures r == if Selects(self.selector, map[]).None? then Reported([])
                 else if deployments.Err? then Skipped(deployments.error)
                 else if statefulSets.Err? then Skipped(statefulSets.error)
                 else if daemonSets.Err? then Skipped(daemonSets.error)
                 else Reported(FindingsOf(self, deployments.value + statefulSets.value + daemonSets.value))
  {
    if Selects(self.selector, map[]).None? {
      return Reported([]);
    }
    if deployments.Err? {
      return Skipped(deployments.error);
    }
    if statefulSets.Err? {
      return Skipped(statefulSets.error);
    }
    if daemonSets.Err? {
      return Skipped(daemonSets.error);
    }
    var candidates := deployments.value + statefulSets.value + daemonSets.value;
    candidates := Sort(candidates, Before);
    var findings := [];
    for i := 0 to |candidates|
      invariant findings == Compared(self, candidates[..i])
    {
      assert candidates[..i + 1][..i] == candidates[..i];
      var other := candidates[i];
      if other.uid == self.uid {
        continue;
      }
      var otherMatchesSelf := Selects(other.selector, self.labels);
      if otherMatchesSelf.None? {
        continue;
      }
      var selfMatchesOther := Selects(self.selector, other.labels);
      if !selfMatchesOther.value && !otherMatchesSelf.value {
        continue;
      }
      findings := findings + [Overlap(other.kind, other.name, other.replicas,
                                       selfMatchesOther.value, otherMatchesSelf.value)];
    }
    assert candidates[..|candidates|] == candidates;
    return Reported(findings);
  }

  // ----- Symmetry -----

  /** The same overlap as the other workload reports it. */
  function Mirrored(f: Finding, self: Workload): Finding {
    Overlap(self.kind, self.name, self.replicas, f.otherMatches, f.selfMatches)
  }

  lemma {:induction false} ComparedIsEach(self: Workload, candidates: seq<Workload>)
    ensures forall f :: f in Compared(self, candidates) <==> exists o :: o in candidates && Compare(self, o) == Some(f)
  {
    if candidates != [] {
      var init, last := candidates[..|candidates| - 1], candidates[|candidates| - 1];
      assert candidates == init + [last];
      ComparedIsEach(self, init);
    }
  }

  lemma Reports(self: Workload, all: seq<Workload>, f: Finding)
    ensures f in FindingsOf(self, all) <==> exists o :: o in all && Compare(self, o) == Some(f)
  {
    SortPermutes(all, Before);
    ComparedIsEach(self, Sort(all, Before));
    if o :| o in all && Compare(self, o) == Some(f) {
      assert o in Sort(all, Before);
    }
  }

  /**
   Running on A reports B exactly when running on B reports A, with the two directions
   swapped. A malformed selector on either side silences both.
   */
  lemma OverlapIsSymmetric(a: Workload, b: Workload)
    ensures Compare(a, b).Some? <==> Compare(b, a).Some?
    ensures Compare(a, b).Some? ==> Compare(b, a) == Some(Mirrored(Compare(a, b).value, a))
  {
  }

  /** The same for whole runs over one namespace. */
  lemma RunsAreSymmetric(a: Workload, b: Workload, all: seq<Workload>)
    requires a in all && b in all && Compare(a, b).Some?
    ensures Compare(a, b).value in FindingsOf(a, all)
    ensures Mirrored(Compare(a, b).value, a) in FindingsOf(b, all)
  {
    OverlapIsSymmetric(a, b);
    Reports(a, all, Compare(a, b).value);
    Reports(b, all, Compare(b, a).value);
  }

  /** Every finding of a run is mirrored by a run on the workload it names. */
  lemma EveryFindingIsMirrored(a: Workload, all: seq<Workload>, f: Finding)
    requires a in all && f in FindingsOf(a, all)
    ensures exists b :: b in all && b.kind == f.otherKind && b.name == f.otherName
                        && Mirrored(f, a) in FindingsOf(b, all)
  {
    Reports(a, all, f);
    var b :| b in all && Compare(a, b) == Some(f);
    RunsAreSymmetric(a, b, all);
  }

  // ----- Canonical order -----

  lemma BeforeIsStrictWeak()
    ensures StrictWeak(Before)
  {
    StringLessIsStrictWeak();
  }

  /** No two workloads of a namespace share both kind and name. */
  predicate DistinctKeys(all: seq<Workload>) {
    forall i, j :: 0 <= i < |all| && 0 <= j < |all| && all[i] != all[j] ==>
      all[i].kind != all[j].kind || all[i].name != all[j].name
  }

  lemma KeysSeparate(all: seq<Workload>)
    requires DistinctKeys(all)
    ensures Separates(Before, all)
  {
    StringLessIsStrictWeak();
  }

  /** The finding list is the same for every order in which the API lists the workloads. */
  lemma FindingsAreCanonical(self: Workload, all: seq<Workload>, listed: seq<Workload>)
    requires DistinctKeys(all) && multiset(all) == multiset(listed)
    ensures FindingsOf(self, all) == FindingsOf(self, listed)
  {
    BeforeIsStrictWeak();
    KeysSeparate(all);
    SortCanonical(all, listed, Before);
  }

  // ----- Whole runs -----

  /** Every other workload that one side's selector picks by the other's labels, both selectors being well formed. */
  lemma RunReports(self: Workload, all: seq<Workload>, f: Finding)
    requires Selects(self.selector, map[]).Some?
    ensures f in FindingsOf(self, all) <==>
            exists o ::
              && o in all && o.uid != self.uid
              && f.otherKind == o.kind && f.otherName == o.name && f.otherReplicas == o.replicas
              && Selects(self.selector, o.labels) == Some(f.selfMatches)
              && Selects(o.selector, self.labels) == Some(f.otherMatches)
              && (f.selfMatches || f.otherMatches)
  {
    Reports(self, all, f);
    hide FindingsOf, Selects;
    if o :| && o in all && o.uid != self.uid
            && f.otherKind == o.kind && f.otherName == o.name && f.otherReplicas == o.replicas
            && Selects(self.selector, o.labels) == Some(f.selfMatches)
            && Selects(o.selector, self.labels) == Some(f.otherMatches)
            && (f.selfMatches || f.otherMatches) {
      assert Compare(self, o) == Some(f);
    }
  }

  ghost predicate InOrder(fs: seq<Finding>) {
    forall i, j :: 0 <= i < j < |fs| ==> !ReportedBefore(fs[j], fs[i])
  }

  lemma AppendInOrder(fs: seq<Finding>, g: Finding)
    requires InOrder(fs) && forall f :: f in fs ==> !ReportedBefore(g, f)
    ensures InOrder(fs + [g])
  {
  }

  lemma {:induction false} ComparedInOrder(self: Workload, candidates: seq<Workload>)
    requires Ordered(candidates, Before)
    ensures InOrder(Compared(self, candidates))
  {
    if candidates != [] {
      hide Compare, StringLess, Before, ReportedBefore;
      var init, last := candidates[..|candidates| - 1], candidates[|candidates| - 1];
      ComparedInOrder(self, init);
      ComparedIsEach(self, init);
      var fs := Compared(self, init);
      if Compare(self, last).Some? {
        var g := Compare(self, last).value;
        forall f | f in fs
          ensures !ReportedBefore(g, f)
        {
          var o :| o in init && Compare(self, o) == Some(f);
          var i :| 0 <= i < |init| && init[i] == o;
          assert !Before(candidates[|candidates| - 1], candidates[i]);
          SameOrder(self, last, o);
        }
        AppendInOrder(fs, g);
        assert Compared(self, candidates) == fs + [g];
      } else {
        assert Compared(self, candidates) == fs;
      }
    }
  }

  lemma SameOrder(self: Workload, a: Workload, b: Workload)
    requires Compare(self, a).Some? && Compare(self, b).Some?
    ensures ReportedBefore(Compare(self, a).value, Compare(self, b).value) <==> Before(a, b)
  {
    ComparedNames(self, a);
    ComparedNames(self, b);
  }

  lemma ComparedNames(self: Workload, other: Workload)
    ensures Compare(self, other).Some? ==>
            Compare(self, other).value.otherKind == other.kind && Compare(self, other).value.otherName == other.name
  {
  }

  /** By kind, then name. */
  ghost predicate ReportedBefore(f: Finding, g: Finding) {
    if f.otherKind != g.otherKind then StringLess(f.otherKind, g.otherKind) else StringLess(f.otherName, g.otherName)
  }

  /** The findings of a run come sorted by the kind and name they report. */
  lemma FindingsAreSorted(self: Workload, all: seq<Workload>)
    ensures InOrder(FindingsOf(self, all))
  {
    BeforeIsStrictWeak();
    SortOrders(all, Before);
    hide Sort, Compared, Before, Selects, ReportedBefore;
    ComparedInOrder(self, Sort(all, Before));
    assert InOrder([]);
  }
}
