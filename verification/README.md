# kubectl-safe-rollout: verified models

`kubectl safe-rollout` predicts, before a rollout, whether the cluster will let it through
(`check`), and then follows it live until it succeeds or a cause of failure is established
(`watch`). Its value rests on arguments written in comments: that success is never reported
too early, that a High finding is a certainty, that a closed formula says what the scheduler,
an admission plugin or the disruption controller would do. The modules here state those
arguments and prove them, for all inputs and all runs.

## How the project is laid out

| file | models |
|---|---|
| `Restarts.dfy` | restart counts of containers, and the observations that outlive a relist |
| `Diagnosis.dfy`, `DiagnosisRuns.dfy` | one reevaluation: diagnosers in order, events by object, merging of collection failures; what its outcome shows of what was found |
| `WatchRuns.dfy` | what a watch run means, told with the full trace of ticks; the theorems over whole runs |
| `WatchLoop.dfy` | the loop itself as a class with three timers and two restart maps, proved to do what the trace says |
| `LimitRange.dfy`, `LimitRangeAdmission.dfy` | the LimitRange check, and the admission plugin it predicts |
| `Placement.dfy`, `Rollouts.dfy`, `DomainRollouts.dfy`, `Scheduling.dfy`, `SchedulingRuns.dfy` | pods placed one at a time, a rolling update move by move, the two together, the scheduling check that sums them up in arithmetic, and its whole runs |
| `NodeCapacity.dfy` | whether any node is large enough for one pod |
| `Quota.dfy`, `QuotaRuns.dfy` | quota headroom for surge and for autoscaling, against pods created one by one and charged container by container |
| `Pdb.dfy`, `PdbRuns.dfy` | PodDisruptionBudget arithmetic, against the controller and successive evictions |
| `ConfigRefs.dfy`, `ConfigRefRuns.dfy` | the resolver that remembers what it read, and what a template refers to |
| `AdmissionMatch.dfy`, `AdmissionPolicies.dfy`, `AdmissionWebhooks.dfy`, `AdmissionRuns.dfy` | two-phase matching with a lazy namespace read, and what is reported of which objects |
| `SelectorOverlap.dfy` | selector overlap in both directions, over a sorted list |
| `Report.dfy` | stable ordering by severity and the exit decision |
| `Sorting.dfy`, `Labels.dfy`, `Base.dfy` | sorting, label selectors, options and severities |

`dafny verify dfyconfig.toml` checks everything.

The form follows the program. The watch loop is a class whose fields are the variables its
closures share, updated in place. The restart observations and the config resolver are classes
too. Loops that build or update something are methods with loops; searches of a list that only
answer yes or no (`podCreateMatches`, `anyNodeMissingTopologyKey`, `anyPresent` and the like) are
predicates. Each such method is proved equal to a specification (a function of the inputs or of the
full history), and the properties are lemmas about that specification. What a specification
means is then said without it, of the cluster's objects alone: the `...Runs` modules do that for
whole runs.

What the cluster answers is an input: a tick gets a `Reading`, a run gets a script of events
with delays, a check gets its API lists as `Result`s. No assumption is made about any of them
beyond what the API server enforces. Such a premise stands in a `requires` (distinct names,
non-negative budgets, whole pods) or in a type (quantities and replica counts are `nat`). Time is a clock in milliseconds that never runs
backwards; a timer delivers only at or after its deadline, and a due timer may also be
overtaken by another event.

## Where the code does less, or other, than its words

- **The quiet period after a restart.** A stability window, short or long, is only closed by
  restarts of containers in its baseline. One that appeared later may restart a moment before the
  window ends, and success follows. `WatchRuns.QuietPeriodIsKept` and `OpenWindowOutlivesExactly`
  say exactly which restarts a window outlives, `ShortWindowDespiteIncrease` draws the conclusion
  for short windows, and `RestartOutsideBaselineGoesUnnoticed` and `LateRestartGoesUnnoticed` are
  whole runs with a short and with a long window.
- **Medium although every order agrees.** The LimitRange comment declares that a Medium may stand
  where every order rejects; it may also stand where every order accepts.
  `LimitRangeAdmission.CoupledMediumIsRightWhen` says exactly when Medium is right: two items that
  do not get in each other's way must supply a violating pair, and two others a harmless one.
  `MediumAlthoughEveryOrderRejects` and `MediumAlthoughEveryOrderAccepts` are instances.
- **The surge clause** calls every shortage of the surge peak a deadlock. Only capacity equal
  to the replica count deadlocks; between that and the peak the rollout finishes
  (`Scheduling.SurgeVerdict`, `RuleSurgeVerdict`, `FlaggedYetFinishes`).
- **An anti-affinity High may be a matter of cordons after all.** A cordoned node carries a taint
  of its own, and the check counts the domains of cordoned nodes by the taints they carry while
  cordoned. `Scheduling.AntiAffinitySeverity` says exactly when a High survives uncordoning;
  `HighAlthoughUncordoningHelps` is a cluster where it does not.
- **"Uncordoning any one matching node restores feasibility"** holds exactly when the taints of
  all matching nodes other than the cordon's are tolerated (`Scheduling.AnyOneIsEnoughExactly`).
  For one node it depends on that node's taints (`OneIsEnoughWhen`), for all nodes at once on some
  matching node's (`CordonedClaim`); `OneMayNotBeEnough` is an instance.
- **The spread count ignores taints.** A counted domain without a tolerated node stays empty and
  keeps the global minimum at zero, so silence can be wrong: `Scheduling.SpreadSilenceIsRightWhen`
  says exactly when it is right, `SilentAlthoughTainted` is an instance.
- **A quota that bounds a resource under both spellings** is read under the prefixed one only.
  The check is exact if and only if the other one has room
  (`Quota.HeadroomIsStepwiseAdmission`, `UnreadAliasRefuses`).
- **"Distinct non-empty values"** is what the comment of `domainCount` promises; the code counts an
  empty value too. `Scheduling.EmptyValueIsADomain` says exactly when the count is one more,
  `OnlyAnEmptyValue` is an instance.
- **The namespace is read "only when something actually needs it"**, but also for candidates that
  can never report anything: bindings without Deny, webhooks without a Service or with ignored
  errors. `LabelsMatterExactly` in `AdmissionPolicies` and `AdmissionWebhooks` says when the labels
  can change the findings, `SkippedForNothing` gives inputs where the check skips needlessly.

## Model

| member | source | states |
|---|---|---|
| Restarts.IndexPods | internal/diagnose/watch.go:666-672 | a listed pod is stored under its UID, the last one of a UID winning |
| Restarts.AfterEvent | internal/diagnose/watch.go:674-684 | applying a pod event keeps every pod under its own UID |
| Restarts.EventsConcernOnePod | internal/diagnose/watch.go:674-684 | a removed pod shows no count any more, a stored one the counts of its new version, every other pod what it showed before |
| Restarts.LastIsKept | internal/diagnose/watch.go:666-672 | of pods listed with the same UID the last one is kept |
| Restarts.Collect | internal/diagnose/watch.go:703-714 | the collected map shows for every container exactly the count its snapshot shows, whatever order the pods are walked in |
| Restarts.LastEntryCounts | internal/diagnose/watch.go:703-714 | a container name listed twice shows the count of its last entry |
| Restarts.AnyRestartObserved | internal/diagnose/watch.go:720-727 | true exactly when some container's count is positive |
| Restarts.Increased | internal/diagnose/watch.go:729-736 | true exactly when some container present in the baseline's snapshot is above its count there |
| Restarts.RunningMapSuffices | internal/diagnose/watch.go:747-755 | comparing with the last known counts alone detects an increase exactly when some container is above any count it ever showed in the whole history |
| Restarts.LastCountAtMost | internal/diagnose/watch.go:747-755 | while no increase was observed, a container's last count is at most every earlier one |
| Restarts.IncreaseIsRemembered | internal/diagnose/watch.go:738-755 | an observed increase stays observed whatever comes later |
| Restarts.RestartObservations.Observe | internal/diagnose/watch.go:747-755 | the map holds each container's last count and the flag tells whether any count ever rose, over all snapshots observed across relists |
| Diagnosis.AnyFindings | internal/diagnose/diagnose.go:182-189 | true exactly when some result carries a finding |
| Diagnosis.AllUndetermined | internal/diagnose/watch.go:605-616 | true exactly when there are findings and every one is undetermined |
| Diagnosis.IsSettleWindowOnly | internal/diagnose/watch.go:628-647 | true exactly when there are findings and every one comes from the paused or the StatefulSet-update diagnoser |
| Diagnosis.GroupEventsByInvolvedObject | internal/diagnose/diagnose.go:167-177 | the events are grouped event by event, a missing entry counting as empty |
| Diagnosis.GroupedIsAbout | internal/diagnose/diagnose.go:167-177 | under a UID stand exactly the events about that object, in list order; events about no object are nowhere |
| Diagnosis.DiagnoseQuota | internal/diagnose/quota.go:79-150 | per source at most one finding per recognised cause, and none at all without sources |
| Diagnosis.RunDiagnosis | internal/diagnose/diagnose.go:149-160 | one result per registered diagnoser in registration order, or the first error |
| Diagnosis.ReplaceSkippedResults | internal/diagnose/watch.go:822-843 | with distinct IDs: results in place, each overwritten by the skip of its ID, then every unmatched skip once in its own order |
| Diagnosis.MergeKeepsOrder | internal/diagnose/watch.go:822-843 | positions and IDs are kept, untouched results are unchanged, every skip is present, IDs stay distinct |
| Diagnosis.MergeLosesNoFinding | internal/diagnose/watch.go:782-819 | overwriting results without findings neither loses, adds nor reorders a finding |
| Diagnosis.SkipsReplaceNoFinding | internal/diagnose/watch.go:782-808 | the only result a collection failure can overwrite is the quota one, which had no sources and so no finding |
| Diagnosis.TickReportsEveryFinding | internal/diagnose/watch.go:776-820 | a tick reports exactly what the diagnosers found whatever could not be read, is complete only without findings, and lists each collection failure |
| Diagnosis.EvaluateTick | internal/diagnose/watch.go:776-820 | the evaluation of a tick: read errors degrade to skips, a read error of the controller or a diagnoser error is fatal, findings beat completeness |
| DiagnosisRuns.FoundIsReported | internal/diagnose/diagnose.go:149-160 | what a diagnoser found fails the tick and stands in its outcome under the ID of that diagnoser, nothing lost |
| DiagnosisRuns.RefusalIsReported | internal/diagnose/quota.go:79-150 | a refused pod creation of a listed source fails the tick too, undetermined exactly when its wording is unknown |
| DiagnosisRuns.OnlyFindings | internal/diagnose/diagnose.go:149-160 | every finding of an outcome was found by the diagnoser it stands under, or comes from a refused creation |
| DiagnosisRuns.TickDecides | internal/diagnose/watch.go:810-819 | a tick fails exactly when something is found or a creation was seen refused, and otherwise is complete exactly when the controller says so |
| DiagnosisRuns.EvaluationFails | internal/diagnose/diagnose.go:149-160 | the evaluation fails exactly when the controller cannot be read or a diagnoser breaks, with the error of the first that does |
| DiagnosisRuns.SkipIsReported | internal/diagnose/diagnose.go:149-160 | a diagnoser that cannot evaluate is listed next to the findings of the others |
| DiagnosisRuns.OneSource | internal/diagnose/quota.go:79-150 | one source yields one finding for each wording its pods were refused in, read off the listed events |
| DiagnosisRuns.SourceBySource | internal/diagnose/quota.go:79-150 | sources are judged each by itself, in order |
| DiagnosisRuns.FindingEndsTheRun | internal/diagnose/watch.go:482-490 | a determined finding that no settle window covers ends the run at once, with everything the tick reported |
| DiagnosisRuns.RefusalEndsTheRun | internal/diagnose/watch.go:482-490 | so does a creation refused for a quota or a missing service account |
| DiagnosisRuns.UnknownRefusalIsHeld | internal/diagnose/watch.go:440-454 | a creation refused in unknown words alone is waited out |
| WatchRuns.WindowsOf | internal/diagnose/watch.go:369-382 | every window in force is positive, and without an override the one after a restart is the longer |
| WatchRuns.WindowsInForce | internal/diagnose/watch.go:369-382 | 5s, 30s, 3s and 5s without overrides, and what each positive override replaces |
| WatchRuns.RunsWellEnded | internal/diagnose/watch.go:338-356 | invariant over every run with any number of relists: no undecided tick is unsound, and each way to end is justified by the trace |
| WatchRuns.RelistsExactly | internal/diagnose/watch.go:348-355 | only an expired version starts another session, with every observed snapshot and the clock carried over |
| WatchRuns.LongOnceIncreased | internal/diagnose/watch.go:348-355 | an increase observed before some sessions makes every stability window of every one of them the long one |
| WatchRuns.LongAfterRelist | internal/diagnose/watch.go:511-512 | so does one observed by a session that is relisted |
| WatchRuns.SuccessAfterRelistIsLate | internal/diagnose/watch.go:511-512 | success after such a relist comes no earlier than the long window after its own window opened |
| WatchRuns.RelistKeepsTheLongWindow | internal/diagnose/watch.go:348-355 | a restart, a relist, five healthy seconds: the run is still waiting |
| WatchRuns.ObjectsAreEvaluated | internal/diagnose/watch.go:584-598 | every object either stream yields is evaluated, on the pods as they then are |
| WatchRuns.TicksAreRecorded | internal/diagnose/watch.go:434-439 | a tick is recorded with its time, its pods, what it found and what caused it |
| WatchRuns.DueTimersDeliver | internal/diagnose/watch.go:561-583 | a due ticker makes a tick, a due stability timer ends the run with success, and one not due does nothing |
| WatchRuns.PollIsDueWhen | internal/diagnose/watch.go:441-481 | each ticker fires every 500ms from the start of its sequence, and only while the last tick is of its class |
| WatchRuns.StreamsEnd | internal/diagnose/watch.go:649-664 | an expired version relists; anything else that is no object, and a cancelled context, end the run with an error |
| WatchRuns.HeldTickDecides | internal/diagnose/watch.go:440-481 | a later tick of a grace (settle) sequence, polled or not, ends the run exactly when the sequence has outlasted its window |
| WatchRuns.UndeterminedIsHeld | internal/diagnose/watch.go:440-454 | findings that are all undetermined are held, whatever diagnosers have them |
| WatchRuns.SettleIsHeld | internal/diagnose/watch.go:455-481 | findings only the paused and the StatefulSet-update diagnoser have are held, one of them being determined |
| WatchRuns.DeterminedEndsAtOnce | internal/diagnose/watch.go:482-490 | any other determined finding ends the run at once |
| WatchRuns.CompleteOpensWindow | internal/diagnose/watch.go:506-522 | a tick without findings leaves a window open exactly when it is complete |
| WatchRuns.OpenWindowIsQuiet | internal/diagnose/watch.go:501-522 | a window is open exactly when the last tick was complete; since it opened every tick was complete and no baseline container rose; and it could not have opened earlier |
| WatchRuns.SuccessIsEarned | internal/diagnose/watch.go:561-566 | success over every run: in the last session a window opened at some tick, its whole length has passed, every tick since was complete without findings, and no container of its baseline ever showed a higher count |
| WatchRuns.NoPrematureVerdict | internal/diagnose/watch.go:440-490 | a failure outcome is the last tick's own, carries a finding, and, unless determined, ends an unbroken sequence of ticks of its class longer than the window; a determined tick is always the last |
| WatchRuns.UndecidedTicks | internal/diagnose/watch.go:482-490 | a run still going has seen no determined finding, and its ticks are in order of time |
| WatchRuns.OutcomesAreEarned | internal/diagnose/watch.go:338-356 | both guarantees hold for the evaluation the loop itself performs, under any window overrides |
| WatchRuns.PollsAreBounded | internal/diagnose/watch.go:441-481 | a grace (settle) sequence of a run still going holds at most window / interval polls |
| WatchRuns.GraceEnds | internal/diagnose/watch.go:441-454 | the poll after that many, still undetermined, ends the run with its own outcome |
| WatchRuns.SettleEnds | internal/diagnose/watch.go:455-481 | the same for the settle window, whose length depends on restarts already seen |
| WatchRuns.EndsWithinPolls | internal/diagnose/watch.go:441-481 | a run that ends on such findings has polled at most window / interval + 1 times |
| WatchRuns.PollingEnds | internal/diagnose/watch.go:567-580 | over event scripts: however events are mixed, one that keeps finding only undetermined (only settle) causes and delivers more than window / interval polls ends the run with the outcome of its last tick, which is of that class |
| WatchRuns.RunningMapBelowBaseline | internal/diagnose/watch.go:495-516 | while no increase is observed, the running count of every container of the open window's baseline is at most its baseline count |
| WatchRuns.ReopenedWindowIsLong | internal/diagnose/watch.go:501-516 | a restart that closes a window is an observed increase, so the window opened in its place and every later one, across relists, is the long one |
| WatchRuns.OpenWindowOutlivesExactly | internal/diagnose/watch.go:729-736 | the rises an open window of either length outlives are exactly those of containers its baseline does not cover, or that had fallen below their baseline count |
| WatchRuns.ShortWindowDespiteIncrease | internal/diagnose/watch.go:501-516 | so a short window stays open although an increase is observed exactly when there was such a rise |
| WatchRuns.QuietPeriodIsKept | internal/diagnose/watch.go:50-55 | over every run that reports success: a rise observed less than the long window before it is one the open window outlives |
| WatchRuns.RestartOutsideBaselineGoesUnnoticed | internal/diagnose/watch.go:729-736 | the run of one session in which that happens: a container appears, restarts, and success is reported at 5s |
| WatchRuns.LateRestartGoesUnnoticed | internal/diagnose/watch.go:50-55 | the run of one session with a long window in which a container outside the baseline restarts one second before success |
| WatchLoop.Loop.constructor | internal/diagnose/watch.go:362-406 | a fresh session: pods from the List, no timer armed |
| WatchLoop.Loop.HoldUndetermined | internal/diagnose/watch.go:441-454 | grace ticker and deadline agree with the start of the undetermined sequence; it expires exactly when that sequence outlasted the window |
| WatchLoop.Loop.HoldSettle | internal/diagnose/watch.go:455-481 | the same for the settle ticker, with the longer window if a container had restarted when the sequence began |
| WatchLoop.Loop.Hold | internal/diagnose/watch.go:440-494 | the switch ends the run exactly when the trace says so, and otherwise each ticker is armed exactly for its class, so at most one is |
| WatchLoop.Loop.UpdateStability | internal/diagnose/watch.go:495-523 | the stability timer runs exactly while a window is open on the trace, with that window's baseline and deadline |
| WatchLoop.Loop.HandleTick | internal/diagnose/watch.go:434-524 | one tick of the loop is one step of the trace model, and all timers and maps agree with the trace again |
| WatchLoop.TimersFollowClass | internal/diagnose/watch.go:440-522 | after every tick that does not end the run the grace ticker is armed exactly for an undetermined tick, the settle ticker for a settle-only one, the stability timer for a complete one |
| WatchLoop.Loop.Receive | internal/diagnose/watch.go:557-598 | what each channel makes the loop do, with a timer delivering only when armed and due |
| WatchLoop.Loop.Follow | internal/diagnose/watch.go:557-598 | the select loop does to the full history what the trace model says, event after event |
| WatchLoop.CheckWatchEvent | internal/diagnose/watch.go:649-664 | a closed stream or a broken one ends the run, except that an expired version asks for a relist |
| WatchLoop.WatchFromCurrentState | internal/diagnose/watch.go:362-598 | one session ends as the trace model says, and hands on the restart observations of all its ticks |
| WatchLoop.Watch | internal/diagnose/watch.go:338-356 | the relist loop ends as the trace model of the whole run says, the restart observations of every session carried into the next |
| LimitRange.ContainerLimitItems | internal/check/limitrange.go:183-194 | the Container items of all objects in order |
| LimitRangeAdmission.ItemsAre | internal/check/limitrange.go:183-194 | the items the check works with are exactly the entries of type Container of some object |
| LimitRangeAdmission.ObjectsAdmitByItems | internal/check/limitrange.go:74-88 | a plugin that fills and validates object by object, entry by entry, by the entries of type Container, admits a container exactly when one that works over the items does |
| LimitRange.RelevantKeys | internal/check/limitrange.go:218-238 | exactly the keys some item mentions, strictly ascending |
| LimitRange.OnlyOneList | internal/check/limitrange.go:218-238 | there is only one such list, so the order the map is walked in does not matter |
| LimitRange.CombinedBound | internal/check/limitrange.go:245-261 | the fold of all declared values of a key, found exactly when some item declares it |
| LimitRange.FoldedBinds | internal/check/limitrange.go:266-281 | the fold is the largest (smallest) declared value |
| LimitRange.BoundsExist | internal/check/limitrange.go:440-446 | a key is evaluated exactly when some item constrains it |
| LimitRange.DistinctLimitRangeValues | internal/check/limitrange.go:307-327 | the declared values sorted and without repetition |
| LimitRange.DistinctValues | internal/check/limitrange.go:307-327 | exactly the declared values, each once |
| LimitRange.CollectLimitCandidates | internal/check/limitrange.go:347-352 | a declared limit alone, or every default of the namespace |
| LimitRange.CollectRequestCandidates | internal/check/limitrange.go:361-369 | a declared request, else the copied limit, else every default request |
| LimitRange.CountViolations | internal/check/limitrange.go:464-476 | over the whole cross product, none violating is counted as none and all as all |
| LimitRange.EvaluateContainer | internal/check/limitrange.go:429-543 | per key High when every pair violates, Medium when some do, and one list of silently defaulted keys |
| LimitRange.RatioIs | internal/check/limitrange.go:407-419 | the ratio is exceeded exactly when limit / request, as real numbers, is above it |
| LimitRange.Run | internal/check/limitrange.go:146-168 | all containers, then all init containers; skipped exactly when the list cannot be read |
| LimitRangeAdmission.RunVerdictIsSound | internal/check/limitrange.go:146-168 | of what the run reports: a High and some container is refused in every order of the objects; only defaulted keys and every container, init ones included, is admitted in every order |
| LimitRangeAdmission.ApplyStage1RequestsFromLimits | internal/check/nodecapacity.go:272-287 | every container of the array is updated in place to its limits as requests, overridden by its declared requests |
| LimitRangeAdmission.LimitsBecomeRequests | internal/check/nodecapacity.go:272-287 | a limit without a request becomes the request, and what is declared stays |
| LimitRangeAdmission.CombinedBoundsAreEquivalent | internal/check/limitrange.go:84-88 | the pair violates the combined bounds exactly when some item, alone, rejects it |
| LimitRangeAdmission.FirstWins | internal/check/limitrange.go:74-78 | after all objects in list order, a declared value is kept and an absent one is the first object's that has it |
| LimitRangeAdmission.WinnersAreCandidates | internal/check/limitrange.go:92-103 | whatever the list order, what the plugin leaves is one of the evaluated pairs |
| LimitRangeAdmission.VerdictIsSound | internal/check/limitrange.go:100-106 | High: every order rejects the key; no finding: every order accepts it |
| LimitRangeAdmission.ContainerVerdictIsSound | internal/check/limitrange.go:100-106 | the same for a container over all keys, mentioned or not |
| LimitRangeAdmission.PodVerdictIsSound | internal/check/limitrange.go:146-168 | the same for a pod's containers and a plugin over the LimitRange objects, in whatever order they are listed |
| LimitRangeAdmission.ReachedExactly | internal/check/limitrange.go:92-99 | the pairs some list order leaves, exactly: the cross product, or in the coupled case the pairs two compatible items supply |
| LimitRangeAdmission.UncoupledVerdictIsExact | internal/check/limitrange.go:487-496 | outside the coupled case Medium says exactly that some order rejects and some accepts, High that all reject |
| LimitRangeAdmission.OneSidedVerdictIsExact | internal/check/limitrange.go:347-369 | with one candidate on either side Medium is exact, coupled or not |
| LimitRangeAdmission.CoupledMediumIsRightWhen | internal/check/limitrange.go:92-106 | in the coupled case, when a Medium finding is backed by a rejecting and by an accepting order |
| LimitRangeAdmission.MediumAlthoughEveryOrderRejects | internal/check/limitrange.go:103-106 | two items for which the verdict is Medium and no order accepts |
| LimitRangeAdmission.MediumAlthoughEveryOrderAccepts | internal/check/limitrange.go:487-496 | two items for which the verdict is Medium and no order rejects |
| LimitRangeAdmission.SingleItemIsNeverMedium | internal/check/limitrange.go:487-496 | one LimitRange never gives a Medium |
| LimitRangeAdmission.VerdictIgnoresOrder | internal/check/limitrange.go:307-327 | findings and defaulted keys do not depend on the order of the items |
| LimitRangeAdmission.FindingsIgnoreOrder | internal/check/limitrange.go:429-543 | the finding list of a container does not depend on it either |
| LimitRangeAdmission.ObjectsArranged | internal/check/limitrange.go:183-194 | reordering the objects reorders their items and nothing else |
| LimitRangeAdmission.DefaultedExactly | internal/check/limitrange.go:478-485 | a key is silently defaulted exactly when, in one order and so in all, the plugin leaves a value the manifest does not declare |
| LimitRangeAdmission.DefaultedAreListed | internal/check/limitrange.go:521-543 | the keys a container is told were defaulted are exactly those, in ascending order |
| Placement.CapacityIsExact | internal/check/scheduling.go:57-77 | n pods can run at once, over every order of placements and deletions, exactly when the closed formula allows n, also when some counted domains can take no pod |
| Placement.NeverAbovePerDomain | internal/check/scheduling.go:57-68 | where the total is bounded no run takes a domain beyond maxSkew pods, nor beyond one under anti-affinity; a domain that can take no pod stays empty |
| Placement.RoomUntilCapacity | internal/check/scheduling.go:57-77 | in every reachable state some domain takes one more pod exactly while the capacity is not used up |
| Placement.SpreadingEvenlyKeepsSkewOne | internal/check/scheduling.go:62-68 | from minDomains on, any number of pods can be spread with skew at most one |
| Placement.CapacityGrows | internal/check/scheduling.go:560-565 | more domains never hold fewer pods |
| Rollouts.RoundsToNearest | internal/check/pdb.go:178-189 | what rounding a percentage up and down means |
| Rollouts.UpdateStrategyOf | internal/workload/workload.go:257-282 | Recreate has neither bound, a rolling update always both |
| Rollouts.GivenBoundsAreTaken | internal/workload/workload.go:257-282 | a bound that is given is taken as it is, one that is left out is 25%, and without a count there is one replica |
| Rollouts.DefaultsForSmallDeployments | internal/workload/workload.go:257-282 | by default one to three replicas surge by one and may lose none |
| Rollouts.DeadlockPersists | internal/check/scheduling.go:567-582 | with no pod to lose and room for exactly the desired count, no run ever starts a new pod or retires an old one |
| Rollouts.NeverStuck | internal/check/scheduling.go:567-582 | otherwise some move is always possible until the rollout is done |
| Rollouts.FinishesUnlessDeadlocked | internal/check/scheduling.go:567-582 | a rolling update can finish exactly unless it deadlocks, and then always does within four moves per replica |
| Rollouts.BelowDemandNeverFinishes | internal/check/scheduling.go:575-577 | with room for fewer pods than desired no rollout ever finishes, whatever ran before |
| Rollouts.CanFinishExactly | internal/check/scheduling.go:567-582 | for every capacity, a rolling update can finish exactly unless it deadlocks or lacks room for the desired count |
| DomainRollouts.RunIsPlainRun | internal/check/scheduling.go:57-77 | a rolling update that places pods domain by domain under a spread or anti-affinity rule is a run of the plain rollout with that rule's capacity, through placements the rule can reach |
| DomainRollouts.NeverStranded | internal/check/scheduling.go:567-582 | outside the deadlock no order of actions, wherever pods are placed, strands the rollout or takes more than four actions per replica |
| DomainRollouts.FinishesUnlessDeadlocked | internal/check/scheduling.go:567-582 | under such a rule every order of actions finishes exactly unless no pod may be lost and the domains hold just the desired count; then none does, and no new pod is ever placed |
| Scheduling.CandidateNodes | internal/check/scheduling.go:340-357 | the matching nodes, the schedulable ones among them, and the last match error |
| Scheduling.DomainCount | internal/check/scheduling.go:487-497 | the number of distinct values of the topology key |
| Scheduling.EmptyValueIsADomain | internal/check/scheduling.go:483-497 | the count is that of the non-empty values, and one more exactly when some node carries the label with an empty value |
| Scheduling.OnlyAnEmptyValue | internal/check/scheduling.go:483-497 | one node with an empty value counts as one domain |
| Scheduling.AntiAffinityDomainCount | internal/check/scheduling.go:541-554 | the same over nodes all of whose present taints are tolerated, the cordon's included |
| Scheduling.CordonLosesDomains | internal/check/scheduling.go:340-357 | leaving out cordoned nodes never adds a domain |
| Scheduling.SpreadVerdictIsExact | internal/check/scheduling.go:560-582 | infeasible exactly when no run of placements reaches the peak the rollout needs |
| Scheduling.AntiAffinityVerdictIsExact | internal/check/scheduling.go:469-480 | the same for one pod per domain |
| Scheduling.EvaluateSpreadConstraint | internal/check/scheduling.go:405-451 | no finding when the live domains hold the peak, Medium when only all domains do, High when not even they do; Low for a dead preference |
| Scheduling.EvaluateAntiAffinityTerm | internal/check/scheduling.go:455-481 | the same for self-anti-affinity, with no verdict when a matching node lacks the key |
| Scheduling.SpreadSeverityIsCordons | internal/check/scheduling.go:439-450 | uncordoning every node removes a Medium finding, leaves a High one, and adds none |
| Scheduling.AntiAffinitySeverity | internal/check/scheduling.go:469-480 | uncordoning every node removes a Medium finding and adds none; a High stands exactly when not even the domains of all matching nodes whose other taints are tolerated hold the peak |
| Scheduling.HighAlthoughUncordoningHelps | internal/check/scheduling.go:541-554 | a High that uncordoning one node lifts |
| Scheduling.SpreadSilenceIsRightWhen | internal/check/scheduling.go:487-497 | with taints taken into account, the peak fits exactly when nothing is reported and every counted domain has a tolerated node or those that do hold the peak at maxSkew each |
| Scheduling.SilentAlthoughTainted | internal/check/scheduling.go:487-497 | two zones, one tainted throughout: nothing reported, and the pods do not fit |
| Scheduling.SurgeVerdict | internal/check/scheduling.go:567-582 | for every capacity, surge and maxUnavailable: what is not flagged can roll out; what is flagged cannot, exactly except between the desired count and the peak |
| Scheduling.RuleSurgeVerdict | internal/check/scheduling.go:560-582 | the same for a spread or anti-affinity rule itself: either every placement of the old version and every order of actions finishes, or none does |
| Scheduling.FlaggedYetFinishes | internal/check/scheduling.go:578-580 | a flagged rollout that finishes |
| Scheduling.RequiredSelfAntiAffinityTerms | internal/check/scheduling.go:376-399 | exactly the terms the check can judge, in order |
| Scheduling.EvaluateNodeConstraints | internal/check/scheduling.go:247-283 | without spread or anti-affinity: nothing when a usable node exists, else High for untolerated taints, Medium for cordons |
| Scheduling.CordonedClaim | internal/check/scheduling.go:247-257 | uncordoning every node lifts the Medium exactly when some matching node's taints other than the cordon's are tolerated, and otherwise turns it into a High |
| Scheduling.OneIsEnoughWhen | internal/check/scheduling.go:601-609 | uncordoning one matching node lifts it exactly when that node's other taints are tolerated, and otherwise turns it into a High |
| Scheduling.AnyOneIsEnoughExactly | internal/check/scheduling.go:601-609 | uncordoning any one matching node is enough exactly when the other taints of all of them are tolerated |
| Scheduling.OneMayNotBeEnough | internal/check/scheduling.go:601-609 | two cordoned nodes, of which uncordoning the one helps and the other does not |
| Scheduling.Run | internal/check/scheduling.go:171-317 | the whole check with its skips and early ends |
| SchedulingRuns.SurgeIs | internal/check/quota.go:90-100 | the surge is the number given or the least whole number not below the percentage, and there is none without a positive one |
| SchedulingRuns.MaxUnavailableIs | internal/check/scheduling.go:286-294 | maxUnavailable is the number given or the greatest whole number not above the percentage |
| SchedulingRuns.ContextIs | internal/check/scheduling.go:285-295 | what the domains are asked to hold is the desired count, and the surge on top exactly when no pod may be lost |
| SchedulingRuns.SkipsExactly | internal/check/scheduling.go:171-245 | skipped exactly for a DaemonSet, or when a workload in question meets nodes that cannot be read, are none, or match nowhere with some match in error |
| SchedulingRuns.NothingMatches | internal/check/scheduling.go:231-245 | no node matches: High, whatever the constraints |
| SchedulingRuns.NodesDecide | internal/check/scheduling.go:247-283 | without other constraints: silent, High or Medium by whether a matching node is open and tolerated, open, or neither |
| SchedulingRuns.ConstraintsDecide | internal/check/scheduling.go:297-316 | otherwise the findings of the spread constraints, then of the terms |
| SchedulingRuns.SpreadInOrder | internal/check/scheduling.go:297-309 | constraints are judged each by itself, in order |
| SchedulingRuns.PreferenceIsDead | internal/check/scheduling.go:420-427 | a ScheduleAnyway constraint is reported, at Low, exactly when no open matching node carries its key |
| SchedulingRuns.TermDecides | internal/check/scheduling.go:455-481 | a term is reported by whether the domains of the nodes its pods can land on, open ones or all, host the pods asked for one by one |
| SchedulingRuns.SpreadRun | internal/check/scheduling.go:285-317 | the whole run on one binding spread constraint: silent, Medium or High as placements of the peak exist on the open, on all, or on no such domains; and silent exactly when every order of the rollout finishes, between the two counts excepted |
| SchedulingRuns.AntiAffinityRun | internal/check/scheduling.go:285-317 | the same for one required self-anti-affinity term |
| SchedulingRuns.DefaultsDeadlock | internal/check/scheduling.go:578-580 | three replicas with the default bounds on three hosts, one per host: High, and the rollout deadlocks |
| NodeCapacity.LargestAllocatable | internal/check/nodecapacity.go:293-305 | the first of the nodes with the most to allocate, found exactly when some node reports the resource |
| NodeCapacity.LargestDecides | internal/check/nodecapacity.go:229-242 | larger than that node's amount means fitting on no node that reports the resource |
| NodeCapacity.WiderSetIsSafe | internal/check/nodecapacity.go:208-214 | what fits on no matching node fits on none of the schedulable ones |
| NodeCapacity.Run | internal/check/nodecapacity.go:173-250 | silent without requests or candidates, refused when nodes cannot be read or nothing could be compared, else the keys that are short |
| NodeCapacity.ReportsTheShort | internal/check/nodecapacity.go:225-249 | the reported keys are exactly the requested cpu or memory that no candidate node reporting it has room for |
| NodeCapacity.RunReports | internal/check/nodecapacity.go:225-249 | the same said of the nodes themselves: matching, and open unless a DaemonSet asks |
| NodeCapacity.RefusesExactly | internal/check/nodecapacity.go:182-247 | refused exactly when something is asked for and nodes cannot be read, are none, or none that counts reports any of it |
| Quota.PodRequests | internal/workload/workload.go:285-295 | for every resource the sum over the containers, present exactly when some container requests it |
| QuotaRuns.RequestsAddUp | internal/workload/workload.go:285-295 | two lists of containers request together the sum of what each requests |
| QuotaRuns.PodIsCharged | internal/workload/workload.go:285-295 | the charge per pod is what a quota is charged when its containers are taken one by one, under either spelling, and the pod itself counted |
| Quota.RunQuotaHeadroom | internal/check/quota.go:52-84 | for the surge, per quota: pods, then cpu, then memory |
| QuotaRuns.SurgeIsAdmitted | internal/check/quota.go:52-84 | with no resource bounded twice, the run reports nothing exactly when every pod of the surge is admitted, one at a time and container by container; all findings are High |
| QuotaRuns.WhatIsReported | internal/check/quota.go:102-177 | per quota exactly the resources the pods exceed, pods first, then cpu, then memory |
| Quota.RunHpaQuotaHeadroom | internal/check/hpa.go:55-119 | the same at Medium for the pods the first matching autoscaler can still ask for, the quotas read only if there are any |
| QuotaRuns.AdditionalIs | internal/check/hpa.go:72-93 | what can still be asked for is the distance to maxReplicas of the first autoscaler that targets the workload, none being below zero |
| QuotaRuns.AutoscalingIsAdmitted | internal/check/hpa.go:55-119 | the run reports nothing exactly when that many pods are admitted one at a time; all findings are Medium |
| QuotaRuns.QuotasAreReadLast | internal/check/hpa.go:83-98 | an unreadable quota list skips the check only when pods can be asked for |
| Quota.CreatesIffRoom | internal/check/quota.go:102-140 | creating n pods one after the other succeeds exactly when every bound has room for all n |
| Quota.FindingsNameShortages | internal/check/quota.go:102-177 | each finding is there exactly when its resource is short under the spelling that is read |
| Quota.HeadroomIsStepwiseAdmission | internal/check/quota.go:52-177 | over all quotas: no finding and room under the unread spellings, exactly when every one of the pods is admitted |
| Quota.HeadroomIsExact | internal/check/quota.go:160-177 | without a resource bounded twice, no finding exactly when all pods are admitted |
| Quota.UnreadAliasRefuses | internal/check/quota.go:165-177 | a quota with both spellings: no finding and yet a refusal |
| Quota.AvailableIsCreated | internal/check/quota.go:102-110 | bounded by pods alone, exactly max(0, available) creations succeed |
| Pdb.AllowedMatchesController | internal/check/pdb.go:178-213 | min(allowed, n) is what the controller allows with n healthy pods, and the number of evictions that succeed one after another |
| Pdb.MinAvailablePercent | internal/check/pdb.go:192-198 | keeping p% of n allows losing (100 - p)% of n, rounded down |
| PdbRuns.MaxUnavailablePercent | internal/check/pdb.go:199-213 | a percentage of pods that may be lost is rounded up |
| Pdb.NoHeadroomIsExact | internal/check/pdb.go:105-149 | no headroom exactly when no eviction succeeds; the Recreate finding exactly when some but not all would |
| Pdb.SeveritiesAreEarned | internal/check/pdb.go:105-149 | High exactly when some covering budget blocks evictions outright, or several budgets cover the pods; Medium exactly for the unexplained live zero |
| Pdb.RunConsistency | internal/check/pdb.go:50-176 | per covering budget in list order, and one Low finding when none covers more than one replica |
| PdbRuns.ConsistencyReports | internal/check/pdb.go:50-176 | the run reports exactly each selected budget that grants too few evictions, at High, and at Low that no budget selects the pods of several replicas |
| Pdb.RunEvictionBlocked | internal/check/pdbeviction.go:141-183 | several covering budgets are High; exactly one with an unexplained live zero is Medium |
| PdbRuns.EvictionReports | internal/check/pdbeviction.go:221-242 | High naming all selected budgets when there are several; Medium for one whose settled status shows zero after a completed rollout although evictions would be granted |
| Pdb.NeverBothHighAndLiveZero | internal/check/pdbeviction.go:235-242 | a live zero is never reported next to a no-headroom finding |
| Pdb.ChecksAgreeOnCoverage | internal/check/pdbeviction.go:160-180 | the two checks agree on whether none, one or several budgets cover the workload |
| Pdb.LiveZeroIsLive | internal/check/pdbeviction.go:77-99 | an unexplained live zero means a pod is unhealthy or the budget counts other pods |
| ConfigRefs.CollectRefs | internal/check/configrefs.go:72-77 | every reference of containers, then of volumes, in order |
| ConfigRefRuns.RefsAre | internal/check/configrefs.go:113-186 | the references are exactly what the envFrom, env and volume fields name, keys and optional marks included |
| ConfigRefs.CacheKeyIsInjective | internal/check/configrefs.go:210 | one cache key stands for one kind and name |
| ConfigRefs.Resolver.Resolve | internal/check/configrefs.go:209-259 | the answer of a direct read, with at most one Get and never a second one of the same object |
| ConfigRefs.Run | internal/check/configrefs.go:71-111 | the findings of direct reads of all references, or the first read error; no object is read twice, and none without a reference to it |
| ConfigRefRuns.RunReports | internal/check/configrefs.go:71-111 | of the template and the cluster: a missing key exactly for a required reference whose object lacks it, a missing object exactly for required references to none |
| ConfigRefRuns.RunSkips | internal/check/configrefs.go:82-93 | skipped exactly when some object the template refers to, optionally or not, cannot be read |
| ConfigRefs.EachMissingObjectOnce | internal/check/configrefs.go:95-105 | every missing object that a reference needs is reported exactly once |
| ConfigRefs.FindingsAreUnsatisfied | internal/check/configrefs.go:87-109 | findings come from unsatisfied references that are not optional, and there are none exactly when all of those are satisfied |
| ConfigRefs.FirstSeenOrder | internal/check/configrefs.go:95-105 | a missing object is reported for the first reference that needs it |
| AdmissionPolicies.NamedRulesToPodCreateCandidates | internal/check/validatingadmissionpolicy.go:285-294 | the rules without a list of names, in order |
| AdmissionPolicies.CandidatesCover | internal/check/validatingadmissionpolicy.go:285-294 | they cover pod creation exactly when some unnamed rule does |
| AdmissionPolicies.EvaluateExceptNamespace | internal/check/validatingadmissionpolicy.go:307-318 | exclusion first, then rules, then the object selector |
| AdmissionPolicies.CollectPairs | internal/check/validatingadmissionpolicy.go:192-226 | every binding with its structurally matching policy, in binding order |
| AdmissionPolicies.Run | internal/check/validatingadmissionpolicy.go:176-263 | the two-phase result; the namespace is read exactly when some pair has a namespace selector |
| AdmissionPolicies.TwoPhasesAreOne | internal/check/validatingadmissionpolicy.go:192-262 | the two phases give the findings of one full match of every pair, in the same order |
| AdmissionPolicies.LazyReadKeepsMeaning | internal/check/validatingadmissionpolicy.go:228-243 | with an unreadable namespace the check skips exactly when a candidate pair has a namespace selector; otherwise, and with a readable one, the result is the full match |
| AdmissionPolicies.LabelsMatterExactly | internal/check/validatingadmissionpolicy.go:188-191 | two label sets give different findings exactly when a candidate pair that denies has a namespace selector and is accepted under one of them only |
| AdmissionPolicies.SkippedForNothing | internal/check/validatingadmissionpolicy.go:188-191 | a binding that only audits: the check skips, and there is nothing to report under any labels |
| AdmissionPolicies.FindingsAreInPath | internal/check/validatingadmissionpolicy.go:143-155 | a finding for exactly the pairs that can deny the pod, with its severity |
| AdmissionRuns.PolicyRunReports | internal/check/validatingadmissionpolicy.go:245-262 | of the objects themselves: a finding for exactly the pairs in the path, Medium exactly when parameters are declared, not bound, and errors deny |
| AdmissionRuns.PolicyRunSkips | internal/check/validatingadmissionpolicy.go:177-243 | skipped exactly for a list that cannot be read, or the namespace when a pair in question has a selector on it |
| AdmissionWebhooks.ResolveBackend | internal/check/admissionwebhook.go:341-367 | ready exactly when some endpoint with addresses is not declared unready |
| AdmissionWebhooks.Run | internal/check/admissionwebhook.go:137-231 | validating webhooks before mutating ones, the namespace consulted only when needed |
| AdmissionWebhooks.LazyReadKeepsMeaning | internal/check/admissionwebhook.go:183-230 | one full match of every webhook; with an unreadable namespace the check skips exactly when a candidate has a namespace selector |
| AdmissionWebhooks.OnlyThoseAreReported | internal/check/admissionwebhook.go:376-390 | only webhooks with a Service and, if validating, failurePolicy Fail are ever reported, and those are unless the backend cannot be read |
| AdmissionWebhooks.LabelsMatterExactly | internal/check/admissionwebhook.go:183-187 | two label sets give different findings exactly when a candidate that is reported when it matches has a namespace selector accepting one of them only |
| AdmissionWebhooks.SkippedForNothing | internal/check/admissionwebhook.go:183-187 | a webhook whose errors are ignored: the check skips, and there is nothing to report under any labels |
| AdmissionWebhooks.HighOnlyWhenBlocked | internal/check/admissionwebhook.go:376-400 | High exactly for a validating webhook that fails closed and whose Service does not exist |
| AdmissionRuns.RulesCover | internal/check/admissionwebhook.go:237-265 | a rule covers pod creation exactly when it lists or wildcards group, version, resource and operation and its scope admits namespaced objects |
| AdmissionRuns.WebhookFindings | internal/check/admissionwebhook.go:376-452 | one webhook: High, Medium or Low by its Service and endpoints, or nothing |
| AdmissionRuns.WebhooksAreReported | internal/check/admissionwebhook.go:213-230 | the findings are exactly those of the webhooks in the path |
| AdmissionRuns.WebhookInPathIs | internal/check/admissionwebhook.go:155-217 | in the path: covered, unconditional, and accepted by both selectors, an empty one accepting everything |
| AdmissionRuns.WebhookRunSkips | internal/check/admissionwebhook.go:137-207 | skipped exactly for a list that cannot be read, or the namespace when a webhook in question has a selector on it |
| SelectorOverlap.Run | internal/check/selector.go:101-200 | every workload of the namespace but the target compared in both directions, sorted by kind and name |
| SelectorOverlap.RunReports | internal/check/selector.go:144-197 | exactly the other workloads one of whose selectors picks the other side, both being well formed |
| SelectorOverlap.FindingsAreSorted | internal/check/selector.go:133-138 | by kind, then by name |
| SelectorOverlap.OverlapIsSymmetric | internal/check/selector.go:144-162 | A reports B exactly when B reports A, with the directions swapped, malformed selectors included |
| SelectorOverlap.EveryFindingIsMirrored | internal/check/selector.go:144-197 | every finding of a run is mirrored in a run on the workload it names |
| SelectorOverlap.FindingsAreCanonical | internal/check/selector.go:123-138 | the finding list is the same for every order of the API lists |
| Report.NewReport | internal/output/output.go:68-83 | each group with its findings sorted, in the order of the groups |
| Report.ArrangedIsStable | internal/output/output.go:71-74 | the same findings, severest first, those of one severity in their original order |
| Report.SeverestFirst | internal/output/output.go:71-74 | nothing stands before a High but Highs, nothing after a Low but Lows |
| Report.MaxSeverity | internal/output/output.go:88-98 | the highest severity present, and none exactly without findings |
| Report.CheckCommand | cmd/kubectl-safe_rollout/check.go:114-155 | the exit sentinel exactly when some check found something High |
| Report.WatchCommand | cmd/kubectl-safe_rollout/watch.go:81-108 | the same for the outcome of a watch run; an error of the run is returned, a passed deadline being replaced by its own error when a timeout is set |
| Report.SuccessNeverFails | cmd/kubectl-safe_rollout/watch.go:94-108 | a successful run never triggers the sentinel |
| Report.FailureIsShown | internal/diagnose/watch.go:816-818 | a failed run always has a finding to show |
| Sorting.SortCanonical | internal/check/selector.go:133-138 | sorting by an order that separates the elements forgets how they were listed |
| Sorting.SortStable | internal/output/output.go:72-74 | elements that compare equal keep their order |

## Left out

- The Kubernetes client, RetryWatcher, contexts and kubeconfig: their answers are inputs.
- Time inside a tick: the clock is read once per tick, so the time API calls take counts as delay before it.
- The fields a run is set up with (`Watch` on an unsupported kind or an invalid selector fails before the first List).
- Classification inside the other diagnosers and the patterns over event messages: a tick may get any answer from them.
- Texts of findings (cause, evidence, remediation, commands), rendering, JSON and command-line parsing.
- Overflow of int32 and int64, and float64 rounding in the LimitRange ratio test: integers are exact and the ratio is compared by cross multiplication. Quantities are whole milli-units.
- Sorting is the contract of Go's sort package (`Sorting.dfy`), not its algorithm.
- LimitRange items of type Pod and PersistentVolumeClaim, and the names of the objects in a finding: the check does not use them for its verdict.
- Node affinity matching, taint matching, aggregate pod requests with init containers, and the syntax of label keys: library calls whose answers are part of the input.
- Whether the scheduler lets a workload that tolerates the cordon's taint onto cordoned nodes, and counts the domains of cordoned nodes in a spread: the check leaves cordoned nodes out of the live count, and so does the model.
- That a spread constraint's own selector selects the workload's pods: the check does not look, and the placement model takes every placed pod as counted.
- The quota plugin's rule that a pod must declare a request for a bounded resource, quota scopes, and quotas on anything but pods, cpu and memory requests: the check does not predict them.
- Update strategies of StatefulSet and DaemonSet beyond the common form: only the Deployment defaults are spelled out.
- The controllers' own partition and revision bookkeeping, and `RolloutComplete`: a truth value of the object read.
- Existence-only checks (ServiceAccount, PriorityClass, volumes, storage and ingress classes), probes, limits presence, image names, Service and Ingress ports, NetworkPolicy, pod security, pdb-daemonset-scale, requests-vs-usage: each is settled by reading it.
