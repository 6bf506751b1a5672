/**
 One reevaluation of the observed rollout: running the registered diagnosers,
 merging failures to collect their inputs, and classifying the result
 (internal/diagnose/diagnose.go, quota.go and the evaluateTick half of watch.go).
 */
module Diagnosis {
  import opened Base

  datatype Finding = Finding(cause: string, severity: Severity, undetermined: bool)

  datatype DiagnoserResult = DiagnoserResult(id: string, findings: seq<Finding>, skipped: bool, reason: string)

  datatype Outcome = Outcome(succeeded: bool, results: seq<DiagnoserResult>)

  const QUOTA := "quota"
  const EVENTS := "events"
  const PAUSED := "rollout-paused"
  const STATEFUL_SET_UPDATE := "statefulset-update"

  /** Registration order. */
  const REGISTERED: seq<string> := [
    "crashloop", "imagepull", "container-config", "volume-mount", "init-container", "readiness",
    "pending", QUOTA, "replicaset-create", "progress-deadline", PAUSED, STATEFUL_SET_UPDATE
  ]

  // ----- What the cluster answers during one tick -----

  /** How the wording of a pod-creation rejection is recognised; the patterns themselves are not modelled. */
  datatype Message = QuotaExceeded | MissingServiceAccount | Unrecognised

  datatype Event = Event(involved: string, failedCreate: bool, message: Message)

  /** What a diagnoser other than the quota one says about the state of this tick. */
  datatype Answer = Found(findings: seq<Finding>) | Skips(reason: string) | Breaks(error: string)

  datatype Target = Target(sources: seq<string>, eventsByUid: map<string, seq<Event>>, answers: map<string, Answer>)

  /** Every read of one tick: the controller object, its pod-creation sources, the events, the diagnosers. */
  datatype Reading = Reading(
    controller: Result<bool>, // whether RolloutComplete holds on the object read
    sources: Result<seq<string>>,
    events: Result<seq<Event>>,
    answers: map<string, Answer>)

  // ----- Findings of a list of results -----

  function AllFindings(results: seq<DiagnoserResult>): seq<Finding> {
    if results == [] then []
    else AllFindings(results[..|results| - 1]) + results[|results| - 1].findings
  }

  lemma {:induction false} AllFindingsConcat(a: seq<DiagnoserResult>, b: seq<DiagnoserResult>)
    ensures AllFindings(a + b) == AllFindings(a) + AllFindings(b)
  {
    if b == [] {
      assert a + b == a;
    } else {
      var ab := a + b;
      assert ab[..|ab| - 1] == a + b[..|b| - 1];
      AllFindingsConcat(a, b[..|b| - 1]);
    }
  }

  lemma {:induction false} FindingComesFromResult(results: seq<DiagnoserResult>, f: Finding)
    ensures f in AllFindings(results) <==> exists r :: r in results && f in r.findings
  {
    if results != [] {
      var last := results[|results| - 1];
      assert results == results[..|results| - 1] + [last];
      FindingComesFromResult(results[..|results| - 1], f);
    }
  }

  method AnyFindings(results: seq<DiagnoserResult>) returns (any: bool)
    ensures any <==> AllFindings(results) != []
  {
    for i := 0 to |results|
      invariant AllFindings(results[..i]) == []
    {
      assert results[..i + 1][..i] == results[..i];
      if |results[i].findings| > 0 {
        assert results == results[..i + 1] + results[i + 1..];
        AllFindingsConcat(results[..i + 1], results[i + 1..]);
        return true;
      }
    }
    assert results[..|results|] == results;
    return false;
  }

  /** An outcome without findings does not count. */
  ghost predicate OnlyUndetermined(o: Outcome) {
    AllFindings(o.results) != [] && forall r :: r in o.results ==> EachUndetermined(r.findings)
  }

  ghost predicate OnlySettle(o: Outcome) {
    && AllFindings(o.results) != []
    && forall r :: r in o.results && r.findings != [] ==> r.id == PAUSED || r.id == STATEFUL_SET_UPDATE
  }

  method AllUndetermined(o: Outcome) returns (all: bool)
    ensures all <==> OnlyUndetermined(o)
  {
    var any := false;
    for i := 0 to |o.results|
      invariant any <==> AllFindings(o.results[..i]) != []
      invariant forall r :: r in o.results[..i] ==> EachUndetermined(r.findings)
    {
      hide EachUndetermined;
      assert o.results[..i + 1][..i] == o.results[..i];
      var undetermined := ScanFindings(o.results[i].findings);
      if !undetermined {
        assert o.results[i] in o.results;
        return false;
      }
      any := any || |o.results[i].findings| > 0;
    }
    assert o.results[..|o.results|] == o.results;
    return any;
  }

  predicate EachUndetermined(fs: seq<Finding>) {
    forall f :: f in fs ==> f.undetermined
  }

  /** The inner loop. */
  method ScanFindings(fs: seq<Finding>) returns (undetermined: bool)
    ensures undetermined <==> EachUndetermined(fs)
  {
    for j := 0 to |fs|
      invariant EachUndetermined(fs[..j])
    {
      if !fs[j].undetermined {
        assert fs[j] in fs;
        return false;
      }
    }
    assert fs[..|fs|] == fs;
    return true;
  }

  method IsSettleWindowOnly(o: Outcome) returns (all: bool)
    ensures all <==> OnlySettle(o)
  {
    var any := false;
    for i := 0 to |o.results|
      invariant any <==> AllFindings(o.results[..i]) != []
      invariant forall r :: r in o.results[..i] && r.findings != [] ==> r.id == PAUSED || r.id == STATEFUL_SET_UPDATE
    {
      assert o.results[..i + 1][..i] == o.results[..i];
      if |o.results[i].findings| > 0 {
        any := true;
        if o.results[i].id != PAUSED && o.results[i].id != STATEFUL_SET_UPDATE {
          assert o.results[i] in o.results;
          return false;
        }
      }
    }
    assert o.results[..|o.results|] == o.results;
    return any;
  }

  // ----- Events by involved object, and the quota diagnoser -----

  function About(events: seq<Event>, uid: string): seq<Event> {
    if events == [] then []
    else
      var last, earlier := events[|events| - 1], About(events[..|events| - 1], uid);
      if last.involved == uid then earlier + [last] else earlier
  }

  /** A missing key reads as an empty list. */
  function Recorded(grouped: map<string, seq<Event>>, uid: string): seq<Event> {
    if uid in grouped then grouped[uid] else []
  }

  function Grouped(events: seq<Event>): map<string, seq<Event>> {
    if events == [] then map[]
    else
      var last, before := events[|events| - 1], Grouped(events[..|events| - 1]);
      if last.involved == "" then before else before[last.involved := Recorded(before, last.involved) + [last]]
  }

  /** Every event is under the UID it is about, in list order; events about no object are dropped. */
  lemma {:induction false} GroupedIsAbout(events: seq<Event>, uid: string)
    ensures Recorded(Grouped(events), uid) == if uid == "" then [] else About(events, uid)
    ensures uid in Grouped(events) <==> uid != "" && About(events, uid) != []
  {
    if events != [] { GroupedIsAbout(events[..|events| - 1], uid); }
  }

  method GroupEventsByInvolvedObject(events: seq<Event>) returns (grouped: map<string, seq<Event>>)
    ensures grouped == Grouped(events)
  {
    grouped := map[];
    for i := 0 to |events|
      invariant grouped == Grouped(events[..i])
    {
      assert events[..i + 1][..i] == events[..i];
      var uid := events[i].involved;
      if uid == "" {
        continue;
      }
      grouped := grouped[uid := Recorded(grouped, uid) + [events[i]]];
    }
    assert events[..|events|] == events;
  }

  predicate Rejected(events: seq<Event>, m: Message) {
    exists e :: e in events && e.failedCreate && e.message == m
  }

  /** At most one finding per cause for one source, whatever the number of rejections. */
  function SourceFindings(events: seq<Event>): seq<Finding> {
    (if Rejected(events, QuotaExceeded) then [Finding("quota-exceeded", High, false)] else [])
    + (if Rejected(events, MissingServiceAccount) then [Finding("serviceaccount-missing", High, false)] else [])
    + (if Rejected(events, Unrecognised) then [Finding("quota-undetermined", High, true)] else [])
  }

  function QuotaFindings(sources: seq<string>, eventsByUid: map<string, seq<Event>>): seq<Finding> {
    if sources == [] then []
    else
      QuotaFindings(sources[..|sources| - 1], eventsByUid)
      + SourceFindings(Recorded(eventsByUid, sources[|sources| - 1]))
  }

  method Tally(events: seq<Event>) returns (exceeded: nat, missing: nat, undetermined: nat)
    ensures exceeded > 0 <==> Rejected(events, QuotaExceeded)
    ensures missing > 0 <==> Rejected(events, MissingServiceAccount)
    ensures undetermined > 0 <==> Rejected(events, Unrecognised)
  {
    exceeded, missing, undetermined := 0, 0, 0;
    for j := 0 to |events|
      invariant exceeded > 0 <==> Rejected(events[..j], QuotaExceeded)
      invariant missing > 0 <==> Rejected(events[..j], MissingServiceAccount)
      invariant undetermined > 0 <==> Rejected(events[..j], Unrecognised)
    {
      assert events[..j + 1] == events[..j] + [events[j]];
      if !events[j].failedCreate {
        continue;
      }
      match events[j].message
      case QuotaExceeded => exceeded := exceeded + 1;
      case MissingServiceAccount => missing := missing + 1;
      case Unrecognised => undetermined := undetermined + 1;
    }
    assert events[..|events|] == events;
  }

  method DiagnoseQuota(target: Target) returns (res: DiagnoserResult)
    ensures res == DiagnoserResult(QUOTA, QuotaFindings(target.sources, target.eventsByUid), false, "")
  {
    hide Rejected, Recorded;
    var findings := [];
    for i := 0 to |target.sources|
      invariant findings == QuotaFindings(target.sources[..i], target.eventsByUid)
    {
      assert target.sources[..i + 1][..i] == target.sources[..i];
      var events := Recorded(target.eventsByUid, target.sources[i]);
      var exceeded, missing, undetermined := Tally(events);
      ghost var before := findings;
      if exceeded > 0 {
        findings := findings + [Finding("quota-exceeded", High, false)];
      }
      if missing > 0 {
        findings := findings + [Finding("serviceaccount-missing", High, false)];
      }
      if undetermined > 0 {
        findings := findings + [Finding("quota-undetermined", High, true)];
      }
      assert findings == before + SourceFindings(events);
    }
    assert target.sources[..|target.sources|] == target.sources;
    res := DiagnoserResult(QUOTA, findings, false, "");
  }

  // ----- Running every registered diagnoser -----

  function Answered(id: string, target: Target): Result<DiagnoserResult> {
    if id == QUOTA then
      Ok(DiagnoserResult(QUOTA, QuotaFindings(target.sources, target.eventsByUid), false, ""))
    else if id !in target.answers then
      Ok(DiagnoserResult(id, [], false, ""))
    else
      match target.answers[id]
      case Found(findings) => Ok(DiagnoserResult(id, findings, false, ""))
      case Skips(reason) => Ok(DiagnoserResult(id, [], true, reason))
      case Breaks(error) => Err(error)
  }

  /** The results in registration order, or the first diagnoser error. */
  function Diagnosed(ids: seq<string>, target: Target): Result<seq<DiagnoserResult>> {
    if ids == [] then Ok([])
    else
      var rest := Diagnosed(ids[..|ids| - 1], target);
      if rest.Err? then rest
      else
        var last := Answered(ids[|ids| - 1], target);
        if last.Err? then Err(last.error) else Ok(rest.value + [last.value])
  }

  lemma {:induction false} DiagnosedInOrder(ids: seq<string>, target: Target)
    requires Diagnosed(ids, target).Ok?
    ensures var results := Diagnosed(ids, target).value;
            |results| == |ids| && forall i :: 0 <= i < |ids| ==> Answered(ids[i], target) == Ok(results[i])
  {
    if ids != [] {
      DiagnosedInOrder(ids[..|ids| - 1], target);
    }
  }

  lemma {:induction false} DiagnosisStops(ids: seq<string>, target: Target, k: nat)
    requires k <= |ids| && Diagnosed(ids[..k], target).Err?
    ensures Diagnosed(ids, target) == Diagnosed(ids[..k], target)
    decreases |ids|
  {
    if k == |ids| {
      assert ids[..k] == ids;
    } else {
      assert ids[..|ids| - 1][..k] == ids[..k];
      DiagnosisStops(ids[..|ids| - 1], target, k);
    }
  }

  method RunDiagnosis(target: Target) returns (r: Result<seq<DiagnoserResult>>)
    ensures r == Diagnosed(REGISTERED, target)
  {
    r := RunDiagnosers(REGISTERED, target);
  }

  method RunDiagnosers(ids: seq<string>, target: Target) returns (r: Result<seq<DiagnoserResult>>)
    ensures r == Diagnosed(ids, target)
  {
    hide Answered;
    var results := [];
    for i := 0 to |ids|
      invariant Diagnosed(ids[..i], target) == Ok(results)
    {
      assert ids[..i + 1][..i] == ids[..i];
      var res := Diagnose(ids[i], target);
      if res.Err? {
        DiagnosisStops(ids, target, i + 1);
        return Err(res.error);
      }
      results := results + [res.value];
    }
    assert ids[..|ids|] == ids;
    return Ok(results);
  }

  method Diagnose(id: string, target: Target) returns (res: Result<DiagnoserResult>)
    ensures res == Answered(id, target)
  {
    if id == QUOTA {
      var quota := DiagnoseQuota(target);
      return Ok(quota);
    }
    return Answered(id, target);
  }

  // ----- Merging collection failures -----

  predicate DistinctIds(rs: seq<DiagnoserResult>) {
    forall i, j :: 0 <= i < j < |rs| ==> rs[i].id != rs[j].id
  }

  predicate Has(rs: seq<DiagnoserResult>, id: string) {
    exists r :: r in rs && r.id == id
  }

  /** The last skip with an ID. */
  function Pick(skipped: seq<DiagnoserResult>, id: string): (s: DiagnoserResult)
    requires Has(skipped, id)
    ensures s in skipped && s.id == id
  {
    var last := skipped[|skipped| - 1];
    assert skipped == skipped[..|skipped| - 1] + [last];
    if last.id == id then last else Pick(skipped[..|skipped| - 1], id)
  }

  /** The skips no result carries the ID of, in their own order. */
  function Unmatched(results: seq<DiagnoserResult>, skipped: seq<DiagnoserResult>): seq<DiagnoserResult> {
    if skipped == [] then []
    else
      var last, earlier := skipped[|skipped| - 1], Unmatched(results, skipped[..|skipped| - 1]);
      if Has(results, last.id) then earlier else earlier + [last]
  }

  lemma {:induction false} UnmatchedAre(results: seq<DiagnoserResult>, skipped: seq<DiagnoserResult>)
    ensures forall r :: r in Unmatched(results, skipped) <==> r in skipped && !Has(results, r.id)
  {
    if skipped != [] {
      UnmatchedAre(results, skipped[..|skipped| - 1]);
      assert skipped == skipped[..|skipped| - 1] + [skipped[|skipped| - 1]];
    }
  }

  /** What is appended keeps the order of the skips. */
  lemma {:induction false} UnmatchedInOrder(results: seq<DiagnoserResult>, a: seq<DiagnoserResult>,
                                            b: seq<DiagnoserResult>)
    ensures Unmatched(results, a + b) == Unmatched(results, a) + Unmatched(results, b)
  {
    if b == [] {
      assert a + b == a;
    } else {
      var ab := a + b;
      assert ab[..|ab| - 1] == a + b[..|b| - 1];
      UnmatchedInOrder(results, a, b[..|b| - 1]);
    }
  }

  function Replaced(r: DiagnoserResult, skipped: seq<DiagnoserResult>): DiagnoserResult {
    if Has(skipped, r.id) then Pick(skipped, r.id) else r
  }

  function InPlace(results: seq<DiagnoserResult>, skipped: seq<DiagnoserResult>): (out: seq<DiagnoserResult>)
    ensures |out| == |results|
  {
    if results == [] then []
    else InPlace(results[..|results| - 1], skipped) + [Replaced(results[|results| - 1], skipped)]
  }

  lemma {:induction false} InPlaceAt(results: seq<DiagnoserResult>, skipped: seq<DiagnoserResult>)
    ensures forall i :: 0 <= i < |results| ==> InPlace(results, skipped)[i] == Replaced(results[i], skipped)
  {
    if results != [] {
      InPlaceAt(results[..|results| - 1], skipped);
    }
  }

  function Merge(results: seq<DiagnoserResult>, skipped: seq<DiagnoserResult>): seq<DiagnoserResult> {
    InPlace(results, skipped) + Unmatched(results, skipped)
  }

  method ReplaceSkippedResults(results: seq<DiagnoserResult>, skipped: seq<DiagnoserResult>)
    returns (out: seq<DiagnoserResult>)
    ensures DistinctIds(results) && DistinctIds(skipped) ==> out == Merge(results, skipped)
  {
    hide Pick, Unmatched;
    var byId := IndexById(skipped);
    out := [];
    ghost var distinct := DistinctIds(results);
    for i := 0 to |results|
      invariant forall id :: id in byId ==> Has(skipped, id) && byId[id] == Pick(skipped, id)
      invariant distinct ==> forall id :: id in byId <==> Has(skipped, id) && !Has(results[..i], id)
      invariant distinct ==> out == InPlace(results[..i], skipped)
    {
      assert results[..i + 1] == results[..i] + [results[i]] && results[..i + 1][..i] == results[..i];
      assert distinct ==> !Has(results[..i], results[i].id);
      if results[i].id in byId {
        out := out + [byId[results[i].id]];
        byId := byId - {results[i].id};
        continue;
      }
      out := out + [results[i]];
    }
    assert results[..|results|] == results;
    var appended := AppendRemaining(results, skipped, byId);
    out := out + appended;
  }

  method IndexById(skipped: seq<DiagnoserResult>) returns (byId: map<string, DiagnoserResult>)
    ensures forall id :: id in byId <==> Has(skipped, id)
    ensures forall id :: id in byId ==> byId[id] == Pick(skipped, id)
  {
    byId := map[];
    for i := 0 to |skipped|
      invariant forall id :: id in byId <==> Has(skipped[..i], id)
      invariant forall id :: id in byId ==> byId[id] == Pick(skipped[..i], id)
    {
      assert skipped[..i + 1] == skipped[..i] + [skipped[i]] && skipped[..i + 1][..i] == skipped[..i];
      byId := byId[skipped[i].id := skipped[i]];
    }
    assert skipped[..|skipped|] == skipped;
  }

  method AppendRemaining(ghost results: seq<DiagnoserResult>, skipped: seq<DiagnoserResult>,
                         remaining: map<string, DiagnoserResult>)
    returns (out: seq<DiagnoserResult>)
    ensures DistinctIds(skipped) && (forall id :: id in remaining <==> Has(skipped, id) && !Has(results, id)) ==>
              out == Unmatched(results, skipped)
  {
    var byId := remaining;
    out := [];
    ghost var expected := DistinctIds(skipped) && (forall id :: id in byId <==> Has(skipped, id) && !Has(results, id));
    for i := 0 to |skipped|
      invariant expected ==>
          forall id :: id in byId <==> Has(skipped, id) && !Has(results, id) && !Has(skipped[..i], id)
      invariant expected ==> out == Unmatched(results, skipped[..i])
    {
      assert skipped[..i + 1] == skipped[..i] + [skipped[i]] && skipped[..i + 1][..i] == skipped[..i];
      assert expected ==> !Has(skipped[..i], skipped[i].id);
      assert skipped[i] in skipped;
      if skipped[i].id in byId {
        out := out + [skipped[i]];
        byId := byId - {skipped[i].id};
      }
    }
    assert skipped[..|skipped|] == skipped;
  }

  /**
   Merging that only overwrites results without findings, by results without findings,
   neither loses, gains nor moves a finding.
   */
  lemma MergeLosesNoFinding(results: seq<DiagnoserResult>, skipped: seq<DiagnoserResult>)
    requires forall s :: s in skipped ==> s.findings == []
    requires forall r :: r in results && Has(skipped, r.id) ==> r.findings == []
    ensures AllFindings(Merge(results, skipped)) == AllFindings(results)
  {
    AllFindingsConcat(InPlace(results, skipped), Unmatched(results, skipped));
    InPlaceAt(results, skipped);
    UnmatchedAre(results, skipped);
    SameFindings(InPlace(results, skipped), results);
    NoFindings(Unmatched(results, skipped));
  }

  /** Order kept, every skip present exactly once, under the position of the result it replaces if there is one. */
  lemma MergeKeepsOrder(results: seq<DiagnoserResult>, skipped: seq<DiagnoserResult>)
    requires DistinctIds(results) && DistinctIds(skipped)
    ensures var out := Merge(results, skipped);
            && DistinctIds(out)
            && |out| >= |results|
            && (forall i :: 0 <= i < |results| ==> out[i].id == results[i].id)
            && (forall i :: 0 <= i < |results| && !Has(skipped, results[i].id) ==> out[i] == results[i])
            && (forall s :: s in skipped ==> s in out)
  {
    var out := Merge(results, skipped);
    UnmatchedDistinct(results, skipped);
    UnmatchedAre(results, skipped);
    InPlaceAt(results, skipped);
    forall i, j | 0 <= i < |results| <= j < |out|
      ensures out[i].id != out[j].id
    {
      assert out[j] in Unmatched(results, skipped) && results[i] in results;
    }
    forall s | s in skipped
      ensures s in out
    {
      SkipIsMerged(results, skipped, s);
    }
  }

  lemma SkipIsMerged(results: seq<DiagnoserResult>, skipped: seq<DiagnoserResult>, s: DiagnoserResult)
    requires DistinctIds(skipped) && s in skipped
    ensures s in Merge(results, skipped)
  {
    InPlaceAt(results, skipped);
    UnmatchedAre(results, skipped);
    if Has(results, s.id) {
      var i :| 0 <= i < |results| && results[i].id == s.id;
      assert Has(skipped, s.id);
      var picked := Pick(skipped, s.id);
      var p :| 0 <= p < |skipped| && skipped[p] == s;
      var q :| 0 <= q < |skipped| && skipped[q] == picked;
      assert picked.id == s.id && p == q;
      assert InPlace(results, skipped)[i] == s;
    } else {
      assert s in Unmatched(results, skipped);
    }
  }

  lemma {:induction false} UnmatchedDistinct(results: seq<DiagnoserResult>, skipped: seq<DiagnoserResult>)
    requires DistinctIds(skipped)
    ensures DistinctIds(Unmatched(results, skipped))
  {
    if skipped != [] {
      var init := skipped[..|skipped| - 1];
      UnmatchedDistinct(results, init);
      UnmatchedAre(results, init);
      assert forall r :: r in Unmatched(results, init) ==> r.id != skipped[|skipped| - 1].id by {
        forall r | r in Unmatched(results, init)
          ensures r.id != skipped[|skipped| - 1].id
        {
          var i :| 0 <= i < |init| && init[i] == r;
          assert skipped[i] == r;
        }
      }
    }
  }

  lemma {:induction false} SameFindings(a: seq<DiagnoserResult>, b: seq<DiagnoserResult>)
    requires |a| == |b| && forall i :: 0 <= i < |a| ==> a[i].findings == b[i].findings
    ensures AllFindings(a) == AllFindings(b)
  {
    if a != [] { SameFindings(a[..|a| - 1], b[..|b| - 1]); }
  }

  lemma {:induction false} NoFindings(a: seq<DiagnoserResult>)
    requires forall r :: r in a ==> r.findings == []
    ensures AllFindings(a) == []
  {
    if a != [] { NoFindings(a[..|a| - 1]); }
  }

  // ----- Evaluating one tick -----

  datatype TickResult = TickResult(complete: bool, failureFound: bool, outcome: Outcome)

  const NOTHING := Outcome(false, [])

  function CollectionFailures(reading: Reading): seq<DiagnoserResult> {
    (if reading.sources.Err? then [DiagnoserResult(QUOTA, [], true, reading.sources.error)] else [])
    + (if reading.events.Err? then [DiagnoserResult(EVENTS, [], true, reading.events.error)] else [])
  }

  /** What cannot be read is diagnosed as if it were empty. */
  function TargetOf(reading: Reading): Target {
    Target(if reading.sources.Ok? then reading.sources.value else [],
           Grouped(if reading.events.Ok? then reading.events.value else []),
           reading.answers)
  }

  function Evaluate(reading: Reading): Result<TickResult> {
    if reading.controller.Err? then Err(reading.controller.error)
    else
      match Diagnosed(REGISTERED, TargetOf(reading))
      case Err(e) => Err(e)
      case Ok(results) =>
        var merged := Merge(results, CollectionFailures(reading));
        if AllFindings(merged) != [] then Ok(TickResult(false, true, Outcome(false, merged)))
        else Ok(TickResult(reading.controller.value, false, NOTHING))
  }

  lemma RegisteredAreDistinct(target: Target)
    requires Diagnosed(REGISTERED, target).Ok?
    ensures DistinctIds(Diagnosed(REGISTERED, target).value)
    ensures forall r :: r in Diagnosed(REGISTERED, target).value ==> r.id in REGISTERED
    ensures forall r :: r in Diagnosed(REGISTERED, target).value && r.id == QUOTA ==>
      r.findings == QuotaFindings(target.sources, target.eventsByUid)
  {
    hide Diagnosed, QuotaFindings;
    var results := Diagnosed(REGISTERED, target).value;
    DiagnosedInOrder(REGISTERED, target);
    assert forall i :: 0 <= i < |results| ==> results[i].id == REGISTERED[i];
  }

  /**
   A tick reports exactly what the diagnosers found, whatever could not be read; a
   rollout that shows any finding is never complete, and a failure to collect is
   reported next to the findings.
   */
  lemma TickReportsEveryFinding(reading: Reading)
    requires Evaluate(reading).Ok?
    ensures var results := Diagnosed(REGISTERED, TargetOf(reading)).value;
            var tr := Evaluate(reading).value;
            && (tr.failureFound <==> AllFindings(results) != [])
            && (tr.failureFound ==> AllFindings(tr.outcome.results) == AllFindings(results))
            && (tr.complete <==> reading.controller.value && AllFindings(results) == [])
            && (tr.failureFound && reading.sources.Err? ==>
                  DiagnoserResult(QUOTA, [], true, reading.sources.error) in tr.outcome.results)
            && (tr.failureFound && reading.events.Err? ==>
                  DiagnoserResult(EVENTS, [], true, reading.events.error) in tr.outcome.results)
  {
    var target := TargetOf(reading);
    var results := Diagnosed(REGISTERED, target).value;
    var skips := CollectionFailures(reading);
    SkipsReplaceNoFinding(reading, results);
    CollectionFailuresAreListed(reading);
    MergeLosesNoFinding(results, skips);
    forall s | s in skips
      ensures s in Merge(results, skips)
    {
      SkipIsMerged(results, skips, s);
    }
  }

  lemma CollectionFailuresAreListed(reading: Reading)
    ensures reading.sources.Err? ==>
              DiagnoserResult(QUOTA, [], true, reading.sources.error) in CollectionFailures(reading)
    ensures reading.events.Err? ==>
              DiagnoserResult(EVENTS, [], true, reading.events.error) in CollectionFailures(reading)
    ensures reading.sources.Ok? ==> !Has(CollectionFailures(reading), QUOTA)
    ensures DistinctIds(CollectionFailures(reading))
    ensures forall s :: s in CollectionFailures(reading) ==> s.findings == [] && (s.id == QUOTA || s.id == EVENTS)
  {
    var skips := CollectionFailures(reading);
    if reading.sources.Err? {
      assert skips[0] == DiagnoserResult(QUOTA, [], true, reading.sources.error);
    }
    if reading.events.Err? {
      assert skips[|skips| - 1] == DiagnoserResult(EVENTS, [], true, reading.events.error);
    }
  }

  /** The only result a collection failure can replace is the quota one, computed with no sources. */
  lemma SkipsReplaceNoFinding(reading: Reading, results: seq<DiagnoserResult>)
    requires Diagnosed(REGISTERED, TargetOf(reading)) == Ok(results)
    ensures forall r :: r in results && Has(CollectionFailures(reading), r.id) ==> r.findings == []
  {
    RegisteredAreDistinct(TargetOf(reading));
    CollectionFailuresAreListed(reading);
    assert EVENTS !in REGISTERED;
  }

  method EvaluateTick(reading: Reading) returns (r: Result<TickResult>)
    ensures r == Evaluate(reading)
  {
    if reading.controller.Err? {
      return Err(reading.controller.error);
    }
    var failures := [];
    var sources := [];
    if reading.sources.Err? {
      failures := failures + [DiagnoserResult(QUOTA, [], true, reading.sources.error)];
    } else {
      sources := reading.sources.value;
    }
    var events := [];
    if reading.events.Err? {
      failures := failures + [DiagnoserResult(EVENTS, [], true, reading.events.error)];
    } else {
      events := reading.events.value;
    }
    assert failures == CollectionFailures(reading);
    var grouped := GroupEventsByInvolvedObject(events);
    var target := Target(sources, grouped, reading.answers);
    var diagnosed := RunDiagnosis(target);
    if diagnosed.Err? {
      return Err(diagnosed.error);
    }
    RegisteredAreDistinct(target);
    CollectionFailuresAreListed(reading);
    var results := diagnosed.value;
    if |failures| > 0 {
      results := ReplaceSkippedResults(diagnosed.value, failures);
    } else {
      InPlaceAt(results, failures);
      assert InPlace(results, failures) == results && Merge(results, failures) == results;
    }
    var any := AnyFindings(results);
    if any {
      return Ok(TickResult(false, true, Outcome(false, results)));
    }
    return Ok(TickResult(reading.controller.value, false, NOTHING));
  }
}
