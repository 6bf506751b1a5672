/**
 What one evaluated tick reports (internal/diagnose/diagnose.go lines 149-160, quota.go and
 watch.go lines 782-820), said of what the cluster and the diagnosers answered and nothing else.
 */
module DiagnosisRuns {
  import opened Base
  import opened Diagnosis
  import WatchRuns

  // ----- The diagnosers -----

  /** Every registered diagnoser but the quota one. */
  ghost predicate Ordinary(id: string) {
    || id == "crashloop" || id == "imagepull" || id == "container-config" || id == "volume-mount"
    || id == "init-container" || id == "readiness" || id == "pending" || id == "replicaset-create"
    || id == "progress-deadline" || id == "rollout-paused" || id == "statefulset-update"
  }

  lemma RegisteredAre(id: string)
    ensures id in REGISTERED <==> Ordinary(id) || id == "quota"
    ensures !Ordinary("quota") && !Ordinary("events")
  {
    assert !Ordinary("quota") by { assert |"quota"| == 5; }
    assert !Ordinary("events") by { assert |"events"| == 6; }
  }

  // ----- Rejected creations -----

  /** Some event about the source says its pod was refused, in this wording. */
  ghost predicate Refused(events: seq<Event>, source: string, m: Message) {
    source != "" && exists e :: e in events && e.involved == source && e.failedCreate && e.message == m
  }

  /** Only an unrecognised wording leaves the cause undetermined. */
  function CauseOf(m: Message): Finding {
    match m
    case QuotaExceeded => Finding("quota-exceeded", High, false)
    case MissingServiceAccount => Finding("serviceaccount-missing", High, false)
    case Unrecognised => Finding("quota-undetermined", High, true)
  }

  lemma {:induction false} AboutAre(events: seq<Event>, uid: string)
    ensures forall e :: e in About(events, uid) <==> e in events && e.involved == uid
  {
    if events != [] {
      assert events == events[..|events| - 1] + [events[|events| - 1]];
      AboutAre(events[..|events| - 1], uid);
    }
  }

  /** Events about one object stay in the order they were listed. */
  lemma {:induction false} AboutInOrder(a: seq<Event>, b: seq<Event>, uid: string)
    ensures About(a + b, uid) == About(a, uid) + About(b, uid)
    ensures forall e: Event :: About([e], uid) == if e.involved == uid then [e] else []
  {
    forall e: Event
      ensures About([e], uid) == if e.involved == uid then [e] else []
    {
      assert [e][..0] == [];
    }
    if b == [] {
      assert a + b == a;
    } else {
      assert (a + b)[..|a + b| - 1] == a + b[..|b| - 1];
      AboutInOrder(a, b[..|b| - 1], uid);
    }
  }

  lemma RefusedIsRejected(events: seq<Event>, source: string, m: Message)
    ensures Rejected(Recorded(Grouped(events), source), m) <==> Refused(events, source, m)
  {
    GroupedIsAbout(events, source);
    AboutAre(events, source);
  }

  /** One source: one finding for each wording its pods were refused in, recognised ones first. */
  lemma OneSource(events: seq<Event>, source: string)
    ensures QuotaFindings([source], Grouped(events)) ==
            (if Refused(events, source, QuotaExceeded) then [CauseOf(QuotaExceeded)] else [])
            + (if Refused(events, source, MissingServiceAccount) then [CauseOf(MissingServiceAccount)] else [])
            + (if Refused(events, source, Unrecognised) then [CauseOf(Unrecognised)] else [])
  {
    hide Grouped, Recorded, Rejected, Refused;
    RefusedIsRejected(events, source, QuotaExceeded);
    RefusedIsRejected(events, source, MissingServiceAccount);
    RefusedIsRejected(events, source, Unrecognised);
    assert [source][..0] == [];
  }

  lemma NoSource(eventsByUid: map<string, seq<Event>>)
    ensures QuotaFindings([], eventsByUid) == []
  {
  }

  lemma OneMoreSource(sources: seq<string>, last: string, eventsByUid: map<string, seq<Event>>)
    ensures QuotaFindings(sources + [last], eventsByUid) ==
            QuotaFindings(sources, eventsByUid) + QuotaFindings([last], eventsByUid)
  {
    hide SourceFindings;
    assert (sources + [last])[..|sources|] == sources;
    assert [last][..0] == [];
  }

  /** Each source by itself, in the order they are listed. */
  lemma {:induction false} SourceBySource(a: seq<string>, b: seq<string>, eventsByUid: map<string, seq<Event>>)
    ensures QuotaFindings(a + b, eventsByUid) == QuotaFindings(a, eventsByUid) + QuotaFindings(b, eventsByUid)
  {
    hide QuotaFindings;
    if b == [] {
      NoSource(eventsByUid);
      assert a + b == a;
    } else {
      var init, last := b[..|b| - 1], b[|b| - 1];
      assert a + b == (a + init) + [last] && b == init + [last];
      SourceBySource(a, init, eventsByUid);
      OneMoreSource(a + init, last, eventsByUid);
      OneMoreSource(init, last, eventsByUid);
    }
  }

  lemma {:induction false} RefusalsAre(sources: seq<string>, events: seq<Event>, f: Finding)
    ensures f in QuotaFindings(sources, Grouped(events)) <==>
            exists s, m :: s in sources && Refused(events, s, m) && f == CauseOf(m)
  {
    hide Refused, Grouped;
    if sources == [] {
      assert QuotaFindings(sources, Grouped(events)) == [];
    } else {
      hide QuotaFindings, CauseOf;
      var init, last := sources[..|sources| - 1], sources[|sources| - 1];
      assert sources == init + [last];
      RefusalsAre(init, events, f);
      RefusalsOfOne(events, last, f);
      OneMoreSource(init, last, Grouped(events));
    }
  }

  lemma RefusalsOfOne(events: seq<Event>, source: string, f: Finding)
    ensures f in QuotaFindings([source], Grouped(events)) <==> exists m :: Refused(events, source, m) && f == CauseOf(m)
  {
    hide Refused, Grouped, QuotaFindings, CauseOf;
    OneSource(events, source);
    forall m | Refused(events, source, m) && f == CauseOf(m)
      ensures f in QuotaFindings([source], Grouped(events))
    {
      match m
      case QuotaExceeded =>
      case MissingServiceAccount =>
      case Unrecognised =>
    }
  }

  // ----- What a tick reports -----

  /** Some pod of a listed source was refused, and could be seen to be. */
  ghost predicate SeenRefused(reading: Reading, m: Message) {
    && reading.sources.Ok? && reading.events.Ok?
    && exists s :: s in reading.sources.value && Refused(reading.events.value, s, m)
  }

  ghost predicate FoundBy(reading: Reading, id: string, f: Finding) {
    && Ordinary(id) && id in reading.answers && reading.answers[id].Found?
    && f in reading.answers[id].findings
  }

  lemma QuotaSees(reading: Reading, f: Finding)
    ensures var target := TargetOf(reading);
            f in QuotaFindings(target.sources, target.eventsByUid) <==>
            exists m :: SeenRefused(reading, m) && f == CauseOf(m)
  {
    var events := if reading.events.Ok? then reading.events.value else [];
    var target := TargetOf(reading);
    RefusalsAre(target.sources, events, f);
    hide QuotaFindings, Grouped;
    if s, m :| s in target.sources && Refused(events, s, m) && f == CauseOf(m) {
      assert SeenRefused(reading, m);
    }
    if m :| SeenRefused(reading, m) && f == CauseOf(m) {
      var s :| s in reading.sources.value && Refused(reading.events.value, s, m);
      assert s in target.sources;
    }
  }

  /** What a registered diagnoser answered is its result, word for word. */
  lemma AnswersAre(reading: Reading, id: string)
    requires Ordinary(id)
    ensures var r := Answered(id, TargetOf(reading));
            if id !in reading.answers then r == Ok(DiagnoserResult(id, [], false, ""))
            else
              match reading.answers[id]
              case Found(fs) => r == Ok(DiagnoserResult(id, fs, false, ""))
              case Skips(reason) => r == Ok(DiagnoserResult(id, [], true, reason))
              case Breaks(error) => r == Err(error)
  {
    RegisteredAre(id);
  }

  lemma ResultOf(reading: Reading, id: string) returns (r: DiagnoserResult)
    requires Diagnosed(REGISTERED, TargetOf(reading)).Ok? && id in REGISTERED
    ensures r in Diagnosed(REGISTERED, TargetOf(reading)).value
    ensures Answered(id, TargetOf(reading)) == Ok(r) && r.id == id
  {
    hide Diagnosed, REGISTERED, QuotaFindings, Grouped;
    DiagnosedInOrder(REGISTERED, TargetOf(reading));
    var k :| 0 <= k < |REGISTERED| && REGISTERED[k] == id;
    r := Diagnosed(REGISTERED, TargetOf(reading)).value[k];
  }

  lemma ResultIsAnswer(reading: Reading, r: DiagnoserResult)
    requires Diagnosed(REGISTERED, TargetOf(reading)).Ok? && r in Diagnosed(REGISTERED, TargetOf(reading)).value
    ensures r.id in REGISTERED && Answered(r.id, TargetOf(reading)) == Ok(r)
  {
    hide Diagnosed, REGISTERED, QuotaFindings, Grouped;
    DiagnosedInOrder(REGISTERED, TargetOf(reading));
    var results := Diagnosed(REGISTERED, TargetOf(reading)).value;
    var k :| 0 <= k < |results| && results[k] == r;
    assert REGISTERED[k] in REGISTERED;
  }

  /** A result no collection failure replaces is in the merge, and every merged result is one of those or a skip. */
  lemma MergedAre(results: seq<DiagnoserResult>, skips: seq<DiagnoserResult>, r: DiagnoserResult)
    ensures r in results && !Has(skips, r.id) ==> r in Merge(results, skips)
    ensures r in Merge(results, skips) ==> r in skips || r in results
  {
    hide Unmatched, Pick;
    InPlaceAt(results, skips);
    UnmatchedAre(results, skips);
    if r in results && !Has(skips, r.id) {
      var k :| 0 <= k < |results| && results[k] == r;
      assert InPlace(results, skips)[k] == r;
    }
  }

  lemma EvaluatedAre(reading: Reading)
    requires Evaluate(reading).Ok?
    ensures var tr := Evaluate(reading).value;
            var results := Diagnosed(REGISTERED, TargetOf(reading));
            && results.Ok? && reading.controller.Ok?
            && (tr.failureFound ==> tr.outcome.results == Merge(results.value, CollectionFailures(reading)))
  {
    hide Diagnosed, Merge;
  }

  lemma SomeFinding(reading: Reading, r: DiagnoserResult, f: Finding)
    requires Evaluate(reading).Ok?
    requires r in Diagnosed(REGISTERED, TargetOf(reading)).value && f in r.findings
    ensures Evaluate(reading).value.failureFound && !Evaluate(reading).value.complete
    ensures r in Evaluate(reading).value.outcome.results
  {
    EvaluatedAre(reading);
    hide Evaluate, Diagnosed, Merge, CollectionFailures;
    var results := Diagnosed(REGISTERED, TargetOf(reading)).value;
    TickReportsEveryFinding(reading);
    FindingComesFromResult(results, f);
    SkipsReplaceNoFinding(reading, results);
    MergedAre(results, CollectionFailures(reading), r);
  }

  /** What a diagnoser found fails the tick, and is reported under its ID with nothing lost. */
  lemma FoundIsReported(reading: Reading, id: string)
    requires Evaluate(reading).Ok? && Ordinary(id) && id in reading.answers
    requires reading.answers[id].Found? && reading.answers[id].findings != []
    ensures var tr := Evaluate(reading).value;
            && tr.failureFound && !tr.complete && !tr.outcome.succeeded
            && DiagnoserResult(id, reading.answers[id].findings, false, "") in tr.outcome.results
  {
    RegisteredAre(id);
    AnswersAre(reading, id);
    EvaluatedAre(reading);
    NeverSucceeded(reading);
    var r := ResultOf(reading, id);
    hide Evaluate, Diagnosed, Answered, REGISTERED;
    assert r == DiagnoserResult(id, reading.answers[id].findings, false, "");
    assert r.findings[0] in r.findings;
    SomeFinding(reading, r, r.findings[0]);
  }

  lemma NeverSucceeded(reading: Reading)
    ensures Evaluate(reading).Ok? ==> !Evaluate(reading).value.outcome.succeeded
  {
    hide Diagnosed, Merge;
  }

  /** A refused creation does too, under the quota diagnoser: undetermined exactly when its wording is unknown. */
  lemma RefusalIsReported(reading: Reading, m: Message)
    requires Evaluate(reading).Ok? && SeenRefused(reading, m)
    ensures var tr := Evaluate(reading).value;
            && tr.failureFound && !tr.complete
            && exists r :: r in tr.outcome.results && r.id == "quota" && !r.skipped && CauseOf(m) in r.findings
  {
    EvaluatedAre(reading);
    RegisteredAre("quota");
    QuotaSees(reading, CauseOf(m));
    var r := ResultOf(reading, "quota");
    SomeFinding(reading, r, CauseOf(m));
    hide Evaluate, Diagnosed;
  }

  /** And nothing else is reported: every finding was found by the diagnoser it stands under. */
  lemma OnlyFindings(reading: Reading, r: DiagnoserResult, f: Finding)
    requires Evaluate(reading).Ok? && r in Evaluate(reading).value.outcome.results && f in r.findings
    ensures !r.skipped
    ensures if r.id == "quota" then exists m :: SeenRefused(reading, m) && f == CauseOf(m)
            else FoundBy(reading, r.id, f)
  {
    EvaluatedAre(reading);
    CollectionFailuresAreListed(reading);
    var results := Diagnosed(REGISTERED, TargetOf(reading)).value;
    MergedAre(results, CollectionFailures(reading), r);
    NothingWithoutFailure(reading);
    hide Evaluate, Diagnosed, Merge, CollectionFailures, QuotaFindings, Grouped;
    assert r in results;
    ResultIsAnswer(reading, r);
    RegisteredAre(r.id);
    QuotaSees(reading, f);
    if r.id != "quota" {
      AnswersAre(reading, r.id);
    }
  }

  lemma NothingWithoutFailure(reading: Reading)
    ensures Evaluate(reading).Ok? && !Evaluate(reading).value.failureFound ==>
              Evaluate(reading).value.outcome.results == []
  {
    hide Diagnosed, Merge;
  }

  /** A tick fails exactly when something is found, and otherwise is complete exactly when the controller says so. */
  lemma TickDecides(reading: Reading)
    requires Evaluate(reading).Ok?
    ensures var tr := Evaluate(reading).value;
            && reading.controller.Ok?
            && (tr.failureFound <==> (exists m :: SeenRefused(reading, m)) || exists id, f :: FoundBy(reading, id, f))
            && (tr.complete <==> reading.controller.value && !tr.failureFound)
  {
    EvaluatedAre(reading);
    TickReportsEveryFinding(reading);
    var tr := Evaluate(reading).value;
    var results := Diagnosed(REGISTERED, TargetOf(reading)).value;
    hide Evaluate, Diagnosed, SeenRefused, FoundBy;
    if m :| SeenRefused(reading, m) {
      RefusalIsReported(reading, m);
    }
    if id, f :| FoundBy(reading, id, f) {
      FoundIsReportedBy(reading, id, f);
    }
    if tr.failureFound {
      var f := AllFindings(tr.outcome.results)[0];
      FindingComesFromResult(tr.outcome.results, f);
      var r :| r in tr.outcome.results && f in r.findings;
      OnlyFindings(reading, r, f);
    }
  }

  lemma FoundIsReportedBy(reading: Reading, id: string, f: Finding)
    requires Evaluate(reading).Ok? && FoundBy(reading, id, f)
    ensures Evaluate(reading).value.failureFound
  {
    FoundIsReported(reading, id);
  }

  /** A diagnoser that cannot evaluate says so next to what the others found. */
  lemma SkipIsReported(reading: Reading, id: string)
    requires Evaluate(reading).Ok? && Evaluate(reading).value.failureFound
    requires Ordinary(id) && id in reading.answers && reading.answers[id].Skips?
    ensures DiagnoserResult(id, [], true, reading.answers[id].reason) in Evaluate(reading).value.outcome.results
  {
    RegisteredAre(id);
    AnswersAre(reading, id);
    EvaluatedAre(reading);
    CollectionFailuresAreListed(reading);
    var r := ResultOf(reading, id);
    hide Evaluate, Diagnosed, REGISTERED, Merge, CollectionFailures;
    MergedAre(Diagnosed(REGISTERED, TargetOf(reading)).value, CollectionFailures(reading), r);
  }

  // ----- When the tick cannot be evaluated -----

  ghost predicate BreaksAt(reading: Reading, k: nat) {
    && k < |REGISTERED| && Ordinary(REGISTERED[k]) && REGISTERED[k] in reading.answers
    && reading.answers[REGISTERED[k]].Breaks?
  }

  lemma AnswerBreaks(reading: Reading, k: nat)
    requires k < |REGISTERED|
    ensures Answered(REGISTERED[k], TargetOf(reading)).Err? <==> BreaksAt(reading, k)
    ensures BreaksAt(reading, k) ==>
              Answered(REGISTERED[k], TargetOf(reading)) == Err(reading.answers[REGISTERED[k]].error)
  {
    RegisteredAre(REGISTERED[k]);
    hide REGISTERED, QuotaFindings;
    assert REGISTERED[k] in REGISTERED;
    if Ordinary(REGISTERED[k]) {
      AnswersAre(reading, REGISTERED[k]);
    }
  }

  lemma {:induction false} FirstToBreak(reading: Reading, n: nat)
    requires n <= |REGISTERED|
    ensures Diagnosed(REGISTERED[..n], TargetOf(reading)).Ok? <==> forall k: nat :: k < n ==> !BreaksAt(reading, k)
    ensures forall k: nat :: k < n && BreaksAt(reading, k) && (forall j: nat :: j < k ==> !BreaksAt(reading, j)) ==>
              Diagnosed(REGISTERED[..n], TargetOf(reading)) == Err(reading.answers[REGISTERED[k]].error)
  {
    hide Answered, BreaksAt, REGISTERED;
    if n > 0 {
      var last := n - 1;
      assert REGISTERED[..n][..last] == REGISTERED[..last] && REGISTERED[..n][last] == REGISTERED[last];
      FirstToBreak(reading, last);
      AnswerBreaks(reading, last);
    }
  }

  /** An error of the first diagnoser that breaks, in registration order, ends the evaluation; so does the read. */
  lemma EvaluationFails(reading: Reading)
    ensures reading.controller.Err? ==> Evaluate(reading) == Err(reading.controller.error)
    ensures Evaluate(reading).Ok? <==> reading.controller.Ok? && forall k: nat :: !BreaksAt(reading, k)
    ensures forall k: nat ::
              reading.controller.Ok? && BreaksAt(reading, k) && (forall j: nat :: j < k ==> !BreaksAt(reading, j)) ==>
              Evaluate(reading) == Err(reading.answers[REGISTERED[k]].error)
  {
    FirstToBreak(reading, |REGISTERED|);
    assert REGISTERED[..|REGISTERED|] == REGISTERED;
    assert forall k: nat :: BreaksAt(reading, k) ==> k < |REGISTERED|;
    hide Diagnosed, REGISTERED, Merge, BreaksAt;
  }

  // ----- What it makes of the watch -----

  /** A determined finding of a diagnoser that no settle window covers ends the run with everything reported. */
  lemma FindingEndsTheRun(w: WatchRuns.Windows, h: WatchRuns.History, reading: Reading, id: string, f: Finding,
                          polled: bool)
    requires Evaluate(reading).Ok? && FoundBy(reading, id, f) && !f.undetermined
    requires id != "rollout-paused" && id != "statefulset-update"
    ensures WatchRuns.AfterTick(w, Evaluate, h, reading, polled).end ==
            WatchRuns.Finished(Evaluate(reading).value.outcome)
  {
    FoundIsReported(reading, id);
    hide Evaluate, WatchRuns.AfterTick;
    WatchRuns.DeterminedEndsAtOnce(w, Evaluate, h, reading, polled);
  }

  /** So does a creation refused for a quota or a missing service account. */
  lemma RefusalEndsTheRun(w: WatchRuns.Windows, h: WatchRuns.History, reading: Reading, m: Message, polled: bool)
    requires Evaluate(reading).Ok? && SeenRefused(reading, m) && m != Unrecognised
    ensures WatchRuns.AfterTick(w, Evaluate, h, reading, polled).end ==
            WatchRuns.Finished(Evaluate(reading).value.outcome)
  {
    RefusalIsReported(reading, m);
    hide Evaluate, WatchRuns.AfterTick;
    assert !CauseOf(m).undetermined;
    WatchRuns.DeterminedEndsAtOnce(w, Evaluate, h, reading, polled);
  }

  /** One refused in words nothing recognises is waited out, as long as nothing else is found. */
  lemma UnknownRefusalIsHeld(w: WatchRuns.Windows, h: WatchRuns.History, reading: Reading, polled: bool)
    requires Evaluate(reading).Ok? && SeenRefused(reading, Unrecognised)
    requires forall m :: SeenRefused(reading, m) ==> m == Unrecognised
    requires forall id, f :: !FoundBy(reading, id, f)
    requires h.trace == [] || h.trace[|h.trace| - 1].kind != WatchRuns.FullyUndetermined
    ensures WatchRuns.AfterTick(w, Evaluate, h, reading, polled).end.Waiting?
  {
    RefusalIsReported(reading, Unrecognised);
    var outcome := Evaluate(reading).value.outcome;
    FindingComesFromResult(outcome.results, CauseOf(Unrecognised));
    hide Evaluate, WatchRuns.AfterTick, SeenRefused, FoundBy;
    forall r, f | r in outcome.results && f in r.findings
      ensures f.undetermined
    {
      OnlyFindings(reading, r, f);
    }
    WatchRuns.UndeterminedIsHeld(w, Evaluate, h, reading, polled);
  }
}
