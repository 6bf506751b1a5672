/**
 The report and the exit decision (internal/output/output.go, and the end of the check and
 watch commands): findings of a group by descending severity, and an error exit exactly for
 High ones.
 */
module Report {
  import opened Base
  import opened Sorting
  import opened Diagnosis
  import WatchRuns

  /** What checks and diagnosers have in common. */
  type Group = DiagnoserResult

  datatype Report = Report(status: string, results: seq<Group>)

  predicate MoreSevere(a: Finding, b: Finding) {
    a.severity.Rank() > b.severity.Rank()
  }

  function Arranged(g: Group): Group {
    g.(findings := Sort(g.findings, MoreSevere))
  }

  method NewReport(groups: seq<Group>) returns (r: Report)
    ensures r.status == "" && |r.results| == |groups|
    ensures forall i :: 0 <= i < |groups| ==> r.results[i] == Arranged(groups[i])
  {
    r := Report("", []);
    for i := 0 to |groups|
      invariant r.status == "" && |r.results| == i
      invariant forall k :: 0 <= k < i ==> r.results[k] == Arranged(groups[k])
    {
      var findings := Sort(groups[i].findings, MoreSevere);
      r := r.(results := r.results + [groups[i].(findings := findings)]);
    }
  }

  lemma MoreSevereIsStrictWeak()
    ensures StrictWeak(MoreSevere)
  {
  }

  function OfSeverity(s: Severity): Finding -> bool {
    (f: Finding) => f.severity == s
  }

  /**
   Arranging loses nothing, puts the severest first, and keeps the order in which findings of
   one severity were produced.
   */
  lemma ArrangedIsStable(g: Group, s: Severity)
    ensures multiset(Arranged(g).findings) == multiset(g.findings)
    ensures forall i, j :: 0 <= i < j < |Arranged(g).findings| ==>
      Arranged(g).findings[i].severity.Rank() >= Arranged(g).findings[j].severity.Rank()
    ensures Filter(Arranged(g).findings, OfSeverity(s)) == Filter(g.findings, OfSeverity(s))
    ensures Arranged(g).id == g.id && Arranged(g).skipped == g.skipped && Arranged(g).reason == g.reason
  {
    MoreSevereIsStrictWeak();
    SortPermutes(g.findings, MoreSevere);
    SortOrders(g.findings, MoreSevere);
    SortStable(g.findings, MoreSevere, OfSeverity(s));
  }

  /** Some group holds a finding of that severity. */
  predicate Holds(groups: seq<Group>, s: Severity) {
    exists g, f :: g in groups && f in g.findings && f.severity == s
  }

  method MaxSeverity(r: Report) returns (sev: Severity, ok: bool)
    ensures ok <==> exists s :: Holds(r.results, s)
    ensures ok ==> Holds(r.results, sev) && forall s :: Holds(r.results, s) ==> s.Rank() <= sev.Rank()
  {
    sev, ok := Low, false;
    for i := 0 to |r.results|
      invariant ok <==> exists s :: Holds(r.results[..i], s)
      invariant ok ==> Holds(r.results[..i], sev) && forall s :: Holds(r.results[..i], s) ==> s.Rank() <= sev.Rank()
    {
      hide Holds;
      sev, ok := MaxOfGroup(r.results[..i], r.results[i], sev, ok);
      assert r.results[..i + 1] == r.results[..i] + [r.results[i]];
    }
    assert r.results[..|r.results|] == r.results;
  }

  predicate HoldsIn(fs: seq<Finding>, s: Severity) {
    exists f :: f in fs && f.severity == s
  }

  lemma HoldsStep(groups: seq<Group>, g: Group, s: Severity)
    ensures Holds(groups + [g], s) <==> Holds(groups, s) || HoldsIn(g.findings, s)
  {
    if HoldsIn(g.findings, s) {
      assert g in groups + [g];
    }
    if x, f :| x in groups && f in x.findings && f.severity == s {
      assert x in groups + [g];
    }
  }

  /** The inner loop: the findings of one more group. */
  method MaxOfGroup(ghost before: seq<Group>, g: Group, sev0: Severity, ok0: bool) returns (sev: Severity, ok: bool)
    requires ok0 <==> exists s :: Holds(before, s)
    requires ok0 ==> Holds(before, sev0) && forall s :: Holds(before, s) ==> s.Rank() <= sev0.Rank()
    ensures ok <==> exists s :: Holds(before + [g], s)
    ensures ok ==> Holds(before + [g], sev) && forall s :: Holds(before + [g], s) ==> s.Rank() <= sev.Rank()
  {
    hide Holds;
    sev, ok := sev0, ok0;
    for j := 0 to |g.findings|
      invariant ok <==> ok0 || j > 0
      invariant ok ==> (ok0 && sev == sev0) || HoldsIn(g.findings[..j], sev)
      invariant ok ==> forall s :: (Holds(before, s) || HoldsIn(g.findings[..j], s)) ==> s.Rank() <= sev.Rank()
    {
      var f := g.findings[j];
      assert g.findings[..j + 1] == g.findings[..j] + [f];
      if !ok || f.severity.Rank() > sev.Rank() {
        sev := f.severity;
        ok := true;
      }
    }
    assert g.findings[..|g.findings|] == g.findings;
    forall s
      ensures Holds(before + [g], s) <==> Holds(before, s) || HoldsIn(g.findings, s)
    {
      HoldsStep(before, g, s);
    }
    if |g.findings| > 0 {
      assert HoldsIn(g.findings, g.findings[0].severity);
    }
  }

  // ----- The exit decision -----

  datatype Exit = Success | HighSeverity | Failed(error: string)

  /** `rendered` is None when the report could be written. */
  method RenderCheckReport(r: Report, rendered: Option<string>) returns (e: Exit)
    ensures rendered.Some? ==> e == Failed(rendered.value)
    ensures rendered.None? ==> e == if Holds(r.results, High) then HighSeverity else Success
  {
    if rendered.Some? {
      return Failed(rendered.value);
    }
    var sev, ok := MaxSeverity(r);
    if ok && sev == High {
      return HighSeverity;
    }
    return Success;
  }

  /** Arranging neither adds nor loses a severity. */
  lemma ArrangingKeepsSeverities(groups: seq<Group>, results: seq<Group>, s: Severity)
    requires |results| == |groups| && forall i :: 0 <= i < |groups| ==> results[i] == Arranged(groups[i])
    ensures Holds(results, s) <==> Holds(groups, s)
  {
    if g, f :| g in groups && f in g.findings && f.severity == s {
      var i :| 0 <= i < |groups| && groups[i] == g;
      SortPermutes(g.findings, MoreSevere);
      assert results[i] in results && f in results[i].findings;
    }
    if g, f :| g in results && f in g.findings && f.severity == s {
      var i :| 0 <= i < |results| && results[i] == g;
      SortPermutes(groups[i].findings, MoreSevere);
      assert groups[i] in groups && f in groups[i].findings;
    }
  }

  /** The check command: it fails on severity exactly when some check found something High. */
  method CheckCommand(groups: seq<Group>, rendered: Option<string>) returns (e: Exit)
    ensures rendered.Some? ==> e == Failed(rendered.value)
    ensures rendered.None? ==>
              e == if exists g, f :: g in groups && f in g.findings && f.severity == High then HighSeverity else Success
  {
    var r := NewReport(groups);
    ArrangingKeepsSeverities(groups, r.results, High);
    e := RenderCheckReport(r, rendered);
  }

  const TIMEOUT_REACHED := "--timeout reached"

  /**
   The watch command, for a run that ended with an outcome or an error. `timeout` is the flag's
   value, `deadline` whether the error is that of a context whose deadline passed.
   */
  method WatchCommand(end: WatchRuns.End, timeout: int, deadline: bool, rendered: Option<string>) returns (e: Exit)
    requires end.Finished? || end.Failed?
    ensures end.Failed? ==> e == Failed(if timeout > 0 && deadline then TIMEOUT_REACHED else end.error)
    ensures end.Finished? && rendered.Some? ==> e == Failed(rendered.value)
    ensures end.Finished? && rendered.None? ==>
              e == if exists g, f :: g in end.outcome.results && f in g.findings && f.severity == High
                   then HighSeverity else Success
  {
    if end.Failed? {
      if timeout > 0 && deadline {
        return Failed(TIMEOUT_REACHED);
      }
      return Failed(end.error);
    }
    var r := NewReport(end.outcome.results);
    if end.outcome.succeeded {
      r := r.(status := "succeeded");
    }
    ArrangingKeepsSeverities(end.outcome.results, r.results, High);
    e := RenderCheckReport(r, rendered);
  }

  /** A watch run that reports success carries nothing that could make the command fail on severity. */
  lemma SuccessNeverFails(w: WatchRuns.Windows, eval: WatchRuns.Evaluator, sessions: seq<WatchRuns.Session>)
    requires WatchRuns.AllSensible(eval)
    requires var end := WatchRuns.WatchRun(w, eval, [], 0, sessions).end; end.Finished? && end.outcome.succeeded
    ensures !Holds(WatchRuns.WatchRun(w, eval, [], 0, sessions).end.outcome.results, High)
  {
    WatchRuns.SuccessIsEarned(w, eval, sessions);
  }

  /** And one that reports a failure always carries a finding to show for it. */
  lemma FailureIsShown(w: WatchRuns.Windows, eval: WatchRuns.Evaluator, sessions: seq<WatchRuns.Session>)
    requires WatchRuns.AllSensible(eval)
    requires var end := WatchRuns.WatchRun(w, eval, [], 0, sessions).end; end.Finished? && !end.outcome.succeeded
    ensures exists s :: Holds(WatchRuns.WatchRun(w, eval, [], 0, sessions).end.outcome.results, s)
  {
    var o := WatchRuns.WatchRun(w, eval, [], 0, sessions).end.outcome;
    WatchRuns.NoPrematureVerdict(w, eval, sessions);
    var f := AllFindings(o.results)[0];
    FindingComesFromResult(o.results, f);
    var r :| r in o.results && f in r.findings;
    assert Holds(o.results, f.severity);
  }

  /** The order of the severities. */
  lemma SeverestFirst(g: Group)
    ensures forall i, j :: 0 <= i < j < |Arranged(g).findings| ==>
              (Arranged(g).findings[j].severity == High ==> Arranged(g).findings[i].severity == High)
              && (Arranged(g).findings[i].severity == Low ==> Arranged(g).findings[j].severity == Low)
  {
    ArrangedIsStable(g, High);
    hide Arranged;
  }
}
