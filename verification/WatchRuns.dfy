/**
 The meaning of a watch run (internal/diagnose/watch.go), told with full memory: a
 session keeps every tick it evaluated, and whether it ends is read off that trace.
 WatchLoop.dfy proves that the loop with its three timers and two restart maps does
 the same; the theorems about whole runs are here.
 */
module WatchRuns {
  import opened Base
  import opened Restarts
  import opened Diagnosis

  // ----- Windows, in milliseconds -----

  const ROLLOUT_STABILITY_WINDOW := 5000
  const RESTARTED_ROLLOUT_STABILITY_WINDOW := 30000
  const UNDETERMINED_GRACE_WINDOW := 3000
  const PAUSED_SETTLE_WINDOW := 5000
  const POLL_INTERVAL := 500 // of the grace ticker and of the settle ticker alike

  datatype Overrides = Overrides(stability: int, grace: int, settle: int)

  datatype Windows = Windows(clean: nat, restarted: nat, grace: nat, settle: nat)

  /** An override counts only when positive; the stability one replaces both stability windows. */
  function WindowsOf(o: Overrides): (w: Windows)
    ensures w.clean > 0 && w.restarted > 0 && w.grace > 0 && w.settle > 0
    ensures o.stability <= 0 ==> w.clean < w.restarted
  {
    Windows(
      if o.stability > 0 then o.stability else ROLLOUT_STABILITY_WINDOW,
      if o.stability > 0 then o.stability else RESTARTED_ROLLOUT_STABILITY_WINDOW,
      if o.grace <= 0 then UNDETERMINED_GRACE_WINDOW else o.grace,
      if o.settle <= 0 then PAUSED_SETTLE_WINDOW else o.settle)
  }

  // ----- Ticks -----

  datatype Class = FullyUndetermined | SettleOnly | Determined | Complete | Quiet

  /** The order of the tests matters: an undetermined outcome is never settle-only. */
  ghost function ClassOf(tr: TickResult): Class {
    if tr.failureFound && OnlyUndetermined(tr.outcome) then FullyUndetermined
    else if tr.failureFound && OnlySettle(tr.outcome) then SettleOnly
    else if tr.failureFound then Determined
    else if tr.complete then Complete
    else Quiet
  }

  /** `polled` marks a tick caused by the grace or the settle ticker. */
  datatype Tick = Tick(now: int, pods: Snapshot, kind: Class, outcome: Outcome, polled: bool)

  type Trace = seq<Tick>

  /** Where the unbroken sequence of ticks of the last tick's class begins. */
  function RunStart(t: Trace): (s: nat)
    requires t != []
    ensures s < |t|
  {
    if |t| == 1 || t[|t| - 2].kind != t[|t| - 1].kind then |t| - 1 else RunStart(t[..|t| - 1])
  }

  /** It is the longest such sequence. */
  lemma {:induction false} RunStartIsMaximal(t: Trace)
    requires t != []
    ensures forall j :: RunStart(t) <= j < |t| ==> t[j].kind == t[|t| - 1].kind
    ensures RunStart(t) > 0 ==> t[RunStart(t) - 1].kind != t[|t| - 1].kind
  {
    if |t| > 1 && t[|t| - 2].kind == t[|t| - 1].kind {
      RunStartIsMaximal(t[..|t| - 1]);
    }
  }

  /** How many ticks of that sequence, after its first, a ticker caused. */
  function Polls(t: Trace): nat
    requires t != []
  {
    if |t| == 1 || t[|t| - 2].kind != t[|t| - 1].kind then 0
    else Polls(t[..|t| - 1]) + if t[|t| - 1].polled then 1 else 0
  }

  /** A container that already restarted predicts long gaps between its updates. */
  ghost function SettleWindow(w: Windows, pods: Snapshot): nat {
    if AnyRestarted(pods) then w.restarted else w.settle
  }

  /** Whether the last tick ends the run, and with what. */
  ghost function Verdict(w: Windows, t: Trace): Option<Outcome>
    requires t != []
  {
    var first, last := t[RunStart(t)], t[|t| - 1];
    match last.kind
    case FullyUndetermined => if last.now > first.now + w.grace then Some(last.outcome) else None
    case SettleOnly => if last.now > first.now + SettleWindow(w, first.pods) then Some(last.outcome) else None
    case Determined => Some(last.outcome)
    case Complete => None
    case Quiet => None
  }

  /** The tick that opened the stability window still open after the trace. */
  ghost function OpenedAt(t: Trace): Option<nat> {
    if t == [] || t[|t| - 1].kind != Complete then None
    else
      match OpenedAt(t[..|t| - 1])
      case None => Some(|t| - 1)
      case Some(i) =>
        if i < |t| && !Rose(t[i].pods, t[|t| - 1].pods) then Some(i) else Some(|t| - 1)
  }

  function Snapshots(t: Trace): (s: seq<Snapshot>)
    ensures |s| == |t| && forall i :: 0 <= i < |t| ==> s[i] == t[i].pods
  {
    if t == [] then [] else Snapshots(t[..|t| - 1]) + [t[|t| - 1].pods]
  }

  // ----- A session between two relists -----

  /** `earlier` holds the snapshots observed by the sessions before this one. */
  datatype History = History(earlier: seq<Snapshot>, trace: Trace, pods: Snapshot, clock: int) {

    function Seen(): seq<Snapshot> {
      earlier + Snapshots(trace)
    }

    function SeenUpTo(i: nat): seq<Snapshot>
      requires i < |trace|
    {
      earlier + Snapshots(trace[..i + 1])
    }

    /** Long as soon as any increase was observed, in this session or an earlier one. */
    ghost function StabilityWindow(w: Windows, i: nat): nat
      requires i < |trace|
    {
      if IncreaseSeen(SeenUpTo(i)) then w.restarted else w.clean
    }

    ghost predicate StabilityDue(w: Windows) {
      && OpenedAt(trace).Some?
      && OpenedAt(trace).value < |trace|
      && clock >= trace[OpenedAt(trace).value].now + StabilityWindow(w, OpenedAt(trace).value)
    }

    /** The n-th value of a ticker is not delivered before n intervals have passed. */
    predicate PollDue(kind: Class) {
      && trace != []
      && trace[|trace| - 1].kind == kind
      && clock >= trace[RunStart(trace)].now + (Polls(trace) + 1) * POLL_INTERVAL
    }
  }

  /** What a watch stream yields: its end, an error event (an expired version or another), or an object. */
  datatype StreamItem<T> = Closed(cancelled: Option<string>) | Broken(expired: bool, error: string) | Item(value: T)

  datatype Happening =
    | Cancelled(error: string)
    | StabilityFires
    | GracePoll(reading: Reading)
    | SettlePoll(reading: Reading)
    | PodStream(pod: StreamItem<PodEvent>, reading: Reading)
    | ControllerStream(object: StreamItem<()>, reading: Reading)

  /** `delay` is the time since the previous event; the reading is what the cluster answers if it is asked. */
  datatype Arrival = Arrival(delay: nat, what: Happening)

  /** A run reaches an end, asks for a relist, or has consumed its script and is still waiting. */
  datatype End = Finished(outcome: Outcome) | Failed(error: string) | Relist | Waiting

  datatype Progress = Progress(end: End, h: History)

  const CLOSED := "watch stream closed unexpectedly"

  function StreamEnd<T>(item: StreamItem<T>): (e: Option<End>)
    ensures e.None? <==> item.Item?
    ensures e.Some? ==> e.value.Failed? || e.value.Relist?
  {
    match item
    case Closed(cancelled) => Some(Failed(if cancelled.Some? then cancelled.value else CLOSED))
    case Broken(expired, error) => Some(if expired then Relist else Failed(error))
    case Item(_) => None
  }

  /** How a tick turns what the cluster answers into a result. */
  type Evaluator = Reading -> Result<TickResult>

  /** A failure is found exactly when the outcome carries a finding. */
  ghost predicate Sensible(r: Result<TickResult>) {
    r.Ok? ==>
      && !r.value.outcome.succeeded
      && (r.value.failureFound <==> AllFindings(r.value.outcome.results) != [])
  }

  ghost predicate AllSensible(eval: Evaluator) {
    forall reading :: Sensible(eval(reading))
  }

  /** The effect of one evaluation on the session. */
  ghost function Step(w: Windows, h: History, r: Result<TickResult>, polled: bool): (p: Progress)
    ensures p.end.Waiting? ==> p.h.pods == h.pods
  {
    match r
    case Err(e) => Progress(Failed(e), h)
    case Ok(tr) =>
      var next := h.(trace := h.trace + [Tick(h.clock, h.pods, ClassOf(tr), tr.outcome, polled)]);
      match Verdict(w, next.trace)
      case Some(o) => Progress(Finished(o), next)
      case None => Progress(Waiting, next)
  }

  ghost function AfterTick(w: Windows, eval: Evaluator, h: History, reading: Reading, polled: bool): (p: Progress)
    ensures p.end.Waiting? ==> p.h.pods == h.pods
  {
    Step(w, h, eval(reading), polled)
  }

  /** What an event makes the loop do: stop, keep waiting, or evaluate a tick on some pods. */
  datatype Effect = Stop(end: End) | Ignore | Evaluating(pods: Snapshot, reading: Reading, polled: bool)

  /** A timer that is off or not due delivers nothing: the loop keeps waiting. */
  ghost function EffectOf(w: Windows, h: History, what: Happening): Effect
    requires Indexed(h.pods)
  {
    match what
    case Cancelled(error) => Stop(Failed(error))
    case StabilityFires => if h.StabilityDue(w) then Stop(Finished(Outcome(true, []))) else Ignore
    case GracePoll(reading) => if h.PollDue(FullyUndetermined) then Evaluating(h.pods, reading, true) else Ignore
    case SettlePoll(reading) => if h.PollDue(SettleOnly) then Evaluating(h.pods, reading, true) else Ignore
    case PodStream(item, reading) =>
      if StreamEnd(item).Some? then Stop(StreamEnd(item).value)
      else Evaluating(AfterEvent(h.pods, item.value), reading, false)
    case ControllerStream(item, reading) =>
      if StreamEnd(item).Some? then Stop(StreamEnd(item).value) else Evaluating(h.pods, reading, false)
  }

  ghost function Enact(w: Windows, eval: Evaluator, h: History, e: Effect): Progress {
    match e
    case Stop(end) => Progress(end, h)
    case Ignore => Progress(Waiting, h)
    case Evaluating(pods, reading, polled) => AfterTick(w, eval, h.(pods := pods), reading, polled)
  }

  ghost function Deliver(w: Windows, eval: Evaluator, before: History, ev: Arrival): (p: Progress)
    requires Indexed(before.pods)
    ensures p.end.Waiting? ==> Indexed(p.h.pods)
  {
    var h := before.(clock := before.clock + ev.delay);
    Enact(w, eval, h, EffectOf(w, h, ev.what))
  }

  ghost function Deliveries(w: Windows, eval: Evaluator, h: History, events: seq<Arrival>): Progress
    requires Indexed(h.pods)
    decreases |events|
  {
    if events == [] then Progress(Waiting, h)
    else
      var p := Deliver(w, eval, h, events[0]);
      if p.end.Waiting? then Deliveries(w, eval, p.h, events[1..]) else p
  }

  /** One List and what follows it. `startError` covers the reads and watches set up after the first tick. */
  datatype Session = Session(
    delay: nat, listing: Result<seq<Pod>>, first: Reading, startError: Option<string>, events: seq<Arrival>)

  ghost function SessionRun(w: Windows, eval: Evaluator, earlier: seq<Snapshot>, clock: int, s: Session): Progress {
    if s.listing.Err? then Progress(Failed(s.listing.error), History(earlier, [], map[], clock + s.delay))
    else
      var p := AfterTick(w, eval, History(earlier, [], IndexOf(s.listing.value), clock + s.delay), s.first, false);
      if !p.end.Waiting? then p
      else if s.startError.Some? then Progress(Failed(s.startError.value), p.h)
      else Deliveries(w, eval, p.h, s.events)
  }

  lemma SessionAfterFirst(w: Windows, eval: Evaluator, earlier: seq<Snapshot>, clock: int, s: Session, p: Progress)
    requires s.listing.Ok?
    requires p == AfterTick(w, eval, History(earlier, [], IndexOf(s.listing.value), clock + s.delay), s.first, false)
    ensures SessionRun(w, eval, earlier, clock, s) ==
      if !p.end.Waiting? then p
      else if s.startError.Some? then Progress(Failed(s.startError.value), p.h)
      else Deliveries(w, eval, p.h, s.events)
  {
  }

  /** A relist starts a new session; only the observed restarts are carried over. */
  ghost function WatchRun(w: Windows, eval: Evaluator, earlier: seq<Snapshot>, clock: int,
                          sessions: seq<Session>): Progress
    decreases |sessions|
  {
    if sessions == [] then Progress(Waiting, History(earlier, [], map[], clock))
    else
      var p := SessionRun(w, eval, earlier, clock, sessions[0]);
      if p.end.Relist? then WatchRun(w, eval, p.h.Seen(), p.h.clock, sessions[1..]) else p
  }

  // ----- What every step of a run keeps -----

  predicate TickSound(t: Tick) {
    && !t.outcome.succeeded
    && (t.kind == Complete || t.kind == Quiet ==> AllFindings(t.outcome.results) == [])
    && (t.kind != Complete && t.kind != Quiet ==> AllFindings(t.outcome.results) != [])
  }

  predicate PollClass(c: Class) {
    c == FullyUndetermined || c == SettleOnly
  }

  /** Polled ticks of one sequence keep their distance. */
  predicate KeepsPace(t: Trace)
    requires t != []
  {
    t[|t| - 1].now >= t[RunStart(t)].now + Polls(t) * POLL_INTERVAL
  }

  ghost predicate LastIsSound(t: Trace)
    requires t != []
  {
    && TickSound(t[|t| - 1])
    && (|t| > 1 ==> t[|t| - 2].now <= t[|t| - 1].now)
    && (PollClass(t[|t| - 1].kind) ==> KeepsPace(t))
  }

  /** Every tick was sound, and none ended the run. */
  ghost predicate Undecided(w: Windows, t: Trace) {
    t == [] || (LastIsSound(t) && Verdict(w, t).None? && Undecided(w, t[..|t| - 1]))
  }

  ghost predicate Sound(w: Windows, h: History) {
    && Indexed(h.pods)
    && (h.trace != [] ==> h.trace[|h.trace| - 1].now <= h.clock)
    && Undecided(w, h.trace)
  }

  /** The history of a run that ended on its last tick. */
  ghost predicate Decided(w: Windows, h: History, o: Outcome) {
    && h.trace != []
    && LastIsSound(h.trace)
    && Undecided(w, h.trace[..|h.trace| - 1])
    && Verdict(w, h.trace) == Some(o)
  }

  /** Every way one step, one session or a whole run can stop. */
  ghost predicate WellEnded(w: Windows, p: Progress) {
    match p.end
    case Waiting => Sound(w, p.h)
    case Finished(o) =>
      if o.succeeded then o.results == [] && Sound(w, p.h) && p.h.StabilityDue(w) else Decided(w, p.h, o)
    case Failed(_) => true
    case Relist => true
  }

  /** The evaluation the loop performs is one of them. */
  lemma EvaluationIsSensible()
    ensures AllSensible(Evaluate)
  {
  }

  lemma StepWellEnded(w: Windows, h: History, r: Result<TickResult>, polled: bool)
    requires Sound(w, h) && Sensible(r)
    requires polled ==> h.PollDue(FullyUndetermined) || h.PollDue(SettleOnly)
    ensures WellEnded(w, Step(w, h, r, polled))
  {
    if r.Ok? {
      var tick := Tick(h.clock, h.pods, ClassOf(r.value), r.value.outcome, polled);
      assert TickSound(tick);
      OneMoreTick(w, h, tick);
    }
  }

  lemma OneMoreTick(w: Windows, h: History, tick: Tick)
    requires Sound(w, h) && TickSound(tick) && tick.now == h.clock
    requires tick.polled ==> h.PollDue(FullyUndetermined) || h.PollDue(SettleOnly)
    ensures var next := h.(trace := h.trace + [tick]);
            match Verdict(w, next.trace)
            case None => Sound(w, next)
            case Some(o) => Decided(w, next, o) && !o.succeeded
  {
    var t := h.trace + [tick];
    assert t[..|t| - 1] == h.trace;
    NextKeepsPace(w, h, tick);
  }

  lemma NextKeepsPace(w: Windows, h: History, tick: Tick)
    requires Sound(w, h) && tick.now == h.clock
    requires tick.polled ==> h.PollDue(FullyUndetermined) || h.PollDue(SettleOnly)
    ensures PollClass(tick.kind) ==> KeepsPace(h.trace + [tick])
  {
    var t := h.trace + [tick];
    assert t[..|t| - 1] == h.trace;
  }

  lemma AfterTickWellEnded(w: Windows, eval: Evaluator, h: History, reading: Reading, polled: bool)
    requires AllSensible(eval)
    requires Sound(w, h)
    requires polled ==> h.PollDue(FullyUndetermined) || h.PollDue(SettleOnly)
    ensures WellEnded(w, AfterTick(w, eval, h, reading, polled))
  {
    StepWellEnded(w, h, eval(reading), polled);
  }

  lemma TimePasses(w: Windows, h: History, delay: nat, pods: Snapshot)
    requires Sound(w, h) && Indexed(pods)
    ensures Sound(w, h.(clock := h.clock + delay, pods := pods))
  {
  }

  /** What an effect may rely on: only a window that is due ends a run with success, only a due ticker polls. */
  ghost predicate Warranted(w: Windows, h: History, e: Effect) {
    match e
    case Stop(end) => !end.Waiting? && (end.Finished? ==> end.outcome == Outcome(true, []) && h.StabilityDue(w))
    case Ignore => true
    case Evaluating(pods, _, polled) =>
      Indexed(pods) && (polled ==> h.PollDue(FullyUndetermined) || h.PollDue(SettleOnly))
  }

  lemma EffectsAreWarranted(w: Windows, h: History, what: Happening)
    requires Indexed(h.pods)
    ensures Warranted(w, h, EffectOf(w, h, what))
  {
  }

  lemma EnactWellEnded(w: Windows, eval: Evaluator, h: History, e: Effect)
    requires AllSensible(eval)
    requires Sound(w, h) && Warranted(w, h, e)
    ensures WellEnded(w, Enact(w, eval, h, e))
  {
    if e.Evaluating? {
      TimePasses(w, h, 0, e.pods);
      AfterTickWellEnded(w, eval, h.(pods := e.pods), e.reading, e.polled);
    }
  }

  lemma DeliverWellEnded(w: Windows, eval: Evaluator, before: History, ev: Arrival)
    requires AllSensible(eval)
    requires Sound(w, before)
    ensures WellEnded(w, Deliver(w, eval, before, ev))
  {
    var h := before.(clock := before.clock + ev.delay);
    DeliverIs(w, eval, before, ev);
    hide Deliver, EffectOf, Enact, Warranted, WellEnded, AllSensible;
    TimePasses(w, before, ev.delay, before.pods);
    EffectsAreWarranted(w, h, ev.what);
    EnactWellEnded(w, eval, h, EffectOf(w, h, ev.what));
  }

  lemma DeliverIs(w: Windows, eval: Evaluator, before: History, ev: Arrival)
    requires Indexed(before.pods)
    ensures var h := before.(clock := before.clock + ev.delay);
            Deliver(w, eval, before, ev) == Enact(w, eval, h, EffectOf(w, h, ev.what))
  {
    hide EffectOf, Enact, Indexed;
  }

  lemma {:induction false} DeliveriesWellEnded(w: Windows, eval: Evaluator, h: History, events: seq<Arrival>)
    requires AllSensible(eval)
    requires Sound(w, h)
    ensures WellEnded(w, Deliveries(w, eval, h, events))
    decreases |events|
  {
    if events != [] {
      DeliverWellEnded(w, eval, h, events[0]);
      var p := Deliver(w, eval, h, events[0]);
      if p.end.Waiting? { DeliveriesWellEnded(w, eval, p.h, events[1..]); }
    }
  }

  lemma SessionWellEnded(w: Windows, eval: Evaluator, earlier: seq<Snapshot>, clock: int, s: Session)
    requires AllSensible(eval)
    ensures WellEnded(w, SessionRun(w, eval, earlier, clock, s))
  {
    if s.listing.Ok? {
      hide AfterTick, SessionRun;
      var h := History(earlier, [], IndexOf(s.listing.value), clock + s.delay);
      AfterTickWellEnded(w, eval, h, s.first, false);
      var p := AfterTick(w, eval, h, s.first, false);
      SessionAfterFirst(w, eval, earlier, clock, s, p);
      if p.end.Waiting? && s.startError.None? {
        DeliveriesWellEnded(w, eval, p.h, s.events);
      }
    }
  }

  /** Invariant over every run, whatever the cluster answers, in whatever order, over any number of relists. */
  lemma {:induction false} RunsWellEnded(w: Windows, eval: Evaluator, earlier: seq<Snapshot>, clock: int,
                                         sessions: seq<Session>)
    requires AllSensible(eval)
    ensures WellEnded(w, WatchRun(w, eval, earlier, clock, sessions))
    decreases |sessions|
  {
    if sessions != [] {
      SessionWellEnded(w, eval, earlier, clock, sessions[0]);
      var p := SessionRun(w, eval, earlier, clock, sessions[0]);
      if p.end.Relist? { RunsWellEnded(w, eval, p.h.Seen(), p.h.clock, sessions[1..]); }
    }
  }

  /** Ticks that did not end the run: each sound, in order of time, none with a determined finding. */
  lemma {:induction false} UndecidedTicks(w: Windows, t: Trace)
    requires Undecided(w, t)
    ensures forall j :: 0 <= j < |t| ==> TickSound(t[j]) && t[j].kind != Determined
    ensures forall i, j :: 0 <= i <= j < |t| ==> t[i].now <= t[j].now
  {
    if t != [] {
      var init := t[..|t| - 1];
      UndecidedTicks(w, init);
      assert forall j :: 0 <= j < |init| ==> init[j] == t[j];
      assert TickSound(t[|t| - 1]) && Verdict(w, t).None?;
    }
  }

  // ----- Success is earned -----

  /** Since tick i: complete without any finding, and no container of tick i above its count there. */
  ghost predicate QuietSince(t: Trace, i: nat) {
    i < |t| && forall j :: i <= j < |t| ==> t[j].kind == Complete && !Rose(t[i].pods, t[j].pods)
  }

  /** The open window is quiet, and it is the oldest such: nothing before its opening could have kept it open. */
  lemma {:induction false} OpenWindowIsQuiet(t: Trace)
    ensures OpenedAt(t).Some? <==> t != [] && t[|t| - 1].kind == Complete
    ensures OpenedAt(t).Some? ==> QuietSince(t, OpenedAt(t).value)
    ensures OpenedAt(t).Some? && OpenedAt(t).value > 0 ==>
              var i := OpenedAt(t).value;
              t[i - 1].kind != Complete
              || (OpenedAt(t[..i]).Some? && OpenedAt(t[..i]).value < i
                  && Rose(t[OpenedAt(t[..i]).value].pods, t[i].pods))
  {
    if t != [] && t[|t| - 1].kind == Complete {
      var init := t[..|t| - 1];
      OpenWindowIsQuiet(init);
      NotAboveItself(t[|t| - 1].pods);
      var i := OpenedAt(t).value;
      assert i < |init| ==> init[..i] == t[..i];
    }
  }

  lemma NotAboveItself(pods: Snapshot)
    ensures !Rose(pods, pods)
  {
  }

  /** What a run that reports success has shown. */
  ghost predicate SuccessEarned(w: Windows, h: History, i: nat) {
    && QuietSince(h.trace, i)
    && h.clock >= h.trace[i].now + h.StabilityWindow(w, i)
    && (forall j :: i <= j < |h.trace| ==>
          h.trace[i].now <= h.trace[j].now <= h.clock && AllFindings(h.trace[j].outcome.results) == [])
  }

  /**
   Success safety over every run: the session that reports it opened a window at some
   tick, at least the whole window has passed, every tick since was complete and without
   findings, and no container present at the opening ever showed a higher count.
   */
  lemma SuccessIsEarned(w: Windows, eval: Evaluator, sessions: seq<Session>)
    requires AllSensible(eval)
    requires WatchRun(w, eval, [], 0, sessions).end.Finished?
             && WatchRun(w, eval, [], 0, sessions).end.outcome.succeeded
    ensures WatchRun(w, eval, [], 0, sessions).end.outcome.results == []
    ensures var h := WatchRun(w, eval, [], 0, sessions).h;
            OpenedAt(h.trace).Some? && SuccessEarned(w, h, OpenedAt(h.trace).value)
  {
    RunsWellEnded(w, eval, [], 0, sessions);
    DueWindowIsEarned(w, WatchRun(w, eval, [], 0, sessions).h);
  }

  lemma DueWindowIsEarned(w: Windows, h: History)
    requires Sound(w, h) && h.StabilityDue(w)
    ensures SuccessEarned(w, h, OpenedAt(h.trace).value)
  {
    OpenWindowIsQuiet(h.trace);
    UndecidedTicks(w, h.trace);
  }

  // ----- No premature verdict -----

  /** The last tick alone decided, and nothing before it could have. */
  ghost predicate VerdictEarned(w: Windows, t: Trace, o: Outcome) {
    && t != []
    && o == t[|t| - 1].outcome
    && AllFindings(o.results) != []
    && (forall j :: 0 <= j < |t| - 1 ==> t[j].kind != Determined)
    && (forall j :: RunStart(t) <= j < |t| ==> t[j].kind == t[|t| - 1].kind)
    && match t[|t| - 1].kind
       case Determined => true
       case FullyUndetermined => t[|t| - 1].now - t[RunStart(t)].now > w.grace
       case SettleOnly => t[|t| - 1].now - t[RunStart(t)].now > SettleWindow(w, t[RunStart(t)].pods)
       case Complete => false
       case Quiet => false
  }

  /**
   A failure outcome is the last tick's own, carries a finding, and was not reported
   before an unbroken sequence of ticks of that class outlasted its window; a tick with
   a determined finding is always the last one.
   */
  lemma NoPrematureVerdict(w: Windows, eval: Evaluator, sessions: seq<Session>)
    requires AllSensible(eval)
    requires WatchRun(w, eval, [], 0, sessions).end.Finished?
             && !WatchRun(w, eval, [], 0, sessions).end.outcome.succeeded
    ensures VerdictEarned(w, WatchRun(w, eval, [], 0, sessions).h.trace, WatchRun(w, eval, [], 0, sessions).end.outcome)
  {
    RunsWellEnded(w, eval, [], 0, sessions);
    DecidedIsEarned(w, WatchRun(w, eval, [], 0, sessions).h, WatchRun(w, eval, [], 0, sessions).end.outcome);
  }

  lemma DecidedIsEarned(w: Windows, h: History, o: Outcome)
    requires Decided(w, h, o)
    ensures VerdictEarned(w, h.trace, o)
  {
    var init := h.trace[..|h.trace| - 1];
    UndecidedTicks(w, init);
    assert forall j :: 0 <= j < |init| ==> init[j] == h.trace[j];
    assert TickSound(h.trace[|h.trace| - 1]);
    hide Undecided, LastIsSound, RunStart, SettleWindow;
    RunStartIsMaximal(h.trace);
  }

  /** Both, for the evaluation the loop performs. */
  lemma OutcomesAreEarned(overrides: Overrides, sessions: seq<Session>)
    requires WatchRun(WindowsOf(overrides), Evaluate, [], 0, sessions).end.Finished?
    ensures var w := WindowsOf(overrides);
            var p := WatchRun(w, Evaluate, [], 0, sessions);
            if p.end.outcome.succeeded
              then OpenedAt(p.h.trace).Some? && SuccessEarned(w, p.h, OpenedAt(p.h.trace).value)
            else VerdictEarned(w, p.h.trace, p.end.outcome)
  {
    hide WatchRun, SuccessEarned, VerdictEarned;
    EvaluationIsSensible();
    if WatchRun(WindowsOf(overrides), Evaluate, [], 0, sessions).end.outcome.succeeded {
      SuccessIsEarned(WindowsOf(overrides), Evaluate, sessions);
    } else {
      NoPrematureVerdict(WindowsOf(overrides), Evaluate, sessions);
    }
  }

  // ----- The polling ends -----

  /** In a run still going, a sequence of grace (settle) ticks holds at most window / interval polls. */
  lemma PollsAreBounded(w: Windows, h: History)
    requires Sound(w, h) && h.trace != []
    ensures h.trace[|h.trace| - 1].kind == FullyUndetermined ==> Polls(h.trace) <= w.grace / POLL_INTERVAL
    ensures h.trace[|h.trace| - 1].kind == SettleOnly ==>
              Polls(h.trace) <= SettleWindow(w, h.trace[RunStart(h.trace)].pods) / POLL_INTERVAL
  {
    var t := h.trace;
    if PollClass(t[|t| - 1].kind) {
      assert KeepsPace(t);
      assert Verdict(w, t).None?;
    }
  }

  /** A run that ends on undetermined (settle) findings does so within one poll more than that. */
  lemma EndsWithinPolls(w: Windows, h: History, o: Outcome)
    requires Decided(w, h, o)
    ensures h.trace[|h.trace| - 1].kind == FullyUndetermined ==> Polls(h.trace) <= w.grace / POLL_INTERVAL + 1
    ensures h.trace[|h.trace| - 1].kind == SettleOnly ==>
              Polls(h.trace) <= SettleWindow(w, h.trace[RunStart(h.trace)].pods) / POLL_INTERVAL + 1
  {
    var t := h.trace;
    var init := t[..|t| - 1];
    if init != [] && init[|init| - 1].kind == t[|t| - 1].kind {
      assert RunStart(t) == RunStart(init) && t[RunStart(t)] == init[RunStart(init)];
      var before := History(h.earlier, init, map[], init[|init| - 1].now);
      assert Sound(w, before);
      PollsAreBounded(w, before);
    }
  }

  /** So one more poll that still finds only undetermined causes ends the run with them. */
  lemma GraceEnds(w: Windows, eval: Evaluator, h: History, reading: Reading)
    requires Sound(w, h) && h.PollDue(FullyUndetermined) && Polls(h.trace) == w.grace / POLL_INTERVAL
    requires eval(reading).Ok? && ClassOf(eval(reading).value) == FullyUndetermined
    ensures AfterTick(w, eval, h, reading, true).end == Finished(eval(reading).value.outcome)
  {
    var tick := Tick(h.clock, h.pods, FullyUndetermined, eval(reading).value.outcome, true);
    var t := h.trace + [tick];
    assert t[..|t| - 1] == h.trace;
    assert RunStart(t) == RunStart(h.trace);
    assert (w.grace / POLL_INTERVAL + 1) * POLL_INTERVAL > w.grace;
  }

  lemma SettleEnds(w: Windows, eval: Evaluator, h: History, reading: Reading)
    requires Sound(w, h) && h.PollDue(SettleOnly)
    requires Polls(h.trace) == SettleWindow(w, h.trace[RunStart(h.trace)].pods) / POLL_INTERVAL
    requires eval(reading).Ok? && ClassOf(eval(reading).value) == SettleOnly
    ensures AfterTick(w, eval, h, reading, true).end == Finished(eval(reading).value.outcome)
  {
    var tick := Tick(h.clock, h.pods, SettleOnly, eval(reading).value.outcome, true);
    var t := h.trace + [tick];
    assert t[..|t| - 1] == h.trace;
    assert RunStart(t) == RunStart(h.trace);
    var window := SettleWindow(w, h.trace[RunStart(h.trace)].pods);
    assert (window / POLL_INTERVAL + 1) * POLL_INTERVAL > window;
  }

  /** How many polls fit into the window of the last tick's sequence. */
  ghost function MostPolls(w: Windows, t: Trace): nat
    requires t != []
  {
    HeldFor(w, t) / POLL_INTERVAL
  }

  /** How long a sequence of grace (settle) ticks is held. */
  ghost function HeldFor(w: Windows, t: Trace): nat
    requires t != []
  {
    if t[|t| - 1].kind == SettleOnly then SettleWindow(w, t[RunStart(t)].pods) else w.grace
  }

  ghost function EffectNext(w: Windows, h: History, ev: Arrival): Effect
    requires Indexed(h.pods)
  {
    EffectOf(w, h.(clock := h.clock + ev.delay), ev.what)
  }

  /** Nothing happens, or a tick of the class. */
  ghost predicate Holds(eval: Evaluator, kind: Class, e: Effect) {
    e.Ignore? || (e.Evaluating? && eval(e.reading).Ok? && ClassOf(eval(e.reading).value) == kind)
  }

  predicate Polled(e: Effect) {
    e.Evaluating? && e.polled
  }

  /** As long as the run goes on, the script makes no tick of another class and ends nothing itself. */
  ghost predicate Stays(w: Windows, eval: Evaluator, kind: Class, h: History, events: seq<Arrival>)
    requires Indexed(h.pods)
    decreases |events|
  {
    events == [] ||
    var p := Deliver(w, eval, h, events[0]);
    var e := EffectNext(w, h, events[0]);
    && Holds(eval, kind, e)
    && (p.end.Waiting? ==> Stays(w, eval, kind, p.h, events[1..]))
  }

  /** The polls a ticker delivers on the way. */
  ghost function PollsDelivered(w: Windows, eval: Evaluator, h: History, events: seq<Arrival>): nat
    requires Indexed(h.pods)
    decreases |events|
  {
    if events == [] then 0
    else
      var p := Deliver(w, eval, h, events[0]);
      var e := EffectNext(w, h, events[0]);
      (if Polled(e) then 1 else 0)
      + if p.end.Waiting? then PollsDelivered(w, eval, p.h, events[1..]) else 0
  }

  /** Ended by its last tick, which is of that class. */
  ghost predicate EndedBy(kind: Class, p: Progress) {
    && p.h.trace != [] && p.h.trace[|p.h.trace| - 1].kind == kind
    && p.end == Finished(p.h.trace[|p.h.trace| - 1].outcome)
    && !p.end.outcome.succeeded
  }

  /** A run held in a sequence of that class, with a script that polls beyond the window. */
  ghost predicate Outpolled(w: Windows, eval: Evaluator, kind: Class, h: History, events: seq<Arrival>) {
    && Sound(w, h) && h.trace != [] && h.trace[|h.trace| - 1].kind == kind
    && Stays(w, eval, kind, h, events)
    && Polls(h.trace) + PollsDelivered(w, eval, h, events) > MostPolls(w, h.trace)
  }

  /**
   Polling terminates: whatever arrives in between, a script that keeps finding only undetermined
   (only settle) causes and delivers more polls than window / interval ends the run with what the
   last of these ticks found.
   */
  lemma PollingEnds(w: Windows, eval: Evaluator, kind: Class, h: History, events: seq<Arrival>)
    requires AllSensible(eval) && PollClass(kind)
    requires Sound(w, h) && h.trace != [] && h.trace[|h.trace| - 1].kind == kind
    requires Stays(w, eval, kind, h, events)
    requires Polls(h.trace) + PollsDelivered(w, eval, h, events) > MostPolls(w, h.trace)
    ensures EndedBy(kind, Deliveries(w, eval, h, events))
  {
    OutpolledEnds(w, eval, kind, h, events);
  }

  lemma {:induction false} OutpolledEnds(w: Windows, eval: Evaluator, kind: Class, h: History, events: seq<Arrival>)
    requires AllSensible(eval) && PollClass(kind) && Indexed(h.pods)
    requires Outpolled(w, eval, kind, h, events)
    ensures EndedBy(kind, Deliveries(w, eval, h, events))
    decreases |events|
  {
    hide *;
    OutpolledStep(w, eval, kind, h, events);
    var p := Deliver(w, eval, h, events[0]);
    if p.end.Waiting? {
      OutpolledEnds(w, eval, kind, p.h, events[1..]);
    }
  }

  lemma OutpolledStep(w: Windows, eval: Evaluator, kind: Class, h: History, events: seq<Arrival>)
    requires AllSensible(eval) && PollClass(kind) && Indexed(h.pods)
    requires Outpolled(w, eval, kind, h, events)
    ensures events != []
    ensures var p := Deliver(w, eval, h, events[0]);
            if p.end.Waiting? then
              && Outpolled(w, eval, kind, p.h, events[1..])
              && Deliveries(w, eval, h, events) == Deliveries(w, eval, p.h, events[1..])
            else EndedBy(kind, p) && Deliveries(w, eval, h, events) == p
  {
    hide Deliver, Deliveries, Stays, PollsDelivered, EffectNext, Holds, Polled;
    hide Sound, MostPolls, Polls, PollClass, AllSensible, Indexed, EndedBy;
    PollsFit(w, h);
    FirstArrival(w, eval, kind, h, events);
    HeldDelivery(w, eval, kind, h, events[0]);
  }

  lemma FirstArrival(w: Windows, eval: Evaluator, kind: Class, h: History, events: seq<Arrival>)
    requires Indexed(h.pods) && Stays(w, eval, kind, h, events)
    ensures events == [] ==> PollsDelivered(w, eval, h, events) == 0
    ensures events != [] ==>
              var p := Deliver(w, eval, h, events[0]);
              var e := EffectNext(w, h, events[0]);
              && Holds(eval, kind, e)
              && (!p.end.Waiting? ==> Deliveries(w, eval, h, events) == p)
              && (p.end.Waiting? ==>
                    && Deliveries(w, eval, h, events) == Deliveries(w, eval, p.h, events[1..])
                    && Stays(w, eval, kind, p.h, events[1..])
                    && PollsDelivered(w, eval, h, events) ==
                       (if Polled(e) then 1 else 0) + PollsDelivered(w, eval, p.h, events[1..]))
  {
    hide Deliver, EffectNext, Holds, Polled;
  }

  lemma PollsFit(w: Windows, h: History)
    requires Sound(w, h) && h.trace != [] && PollClass(h.trace[|h.trace| - 1].kind)
    ensures Polls(h.trace) <= MostPolls(w, h.trace)
  {
    PollsAreBounded(w, h);
  }

  lemma HeldDelivery(w: Windows, eval: Evaluator, kind: Class, h: History, ev: Arrival)
    requires AllSensible(eval) && Sound(w, h) && PollClass(kind)
    requires h.trace != [] && h.trace[|h.trace| - 1].kind == kind
    requires Holds(eval, kind, EffectNext(w, h, ev))
    ensures var p := Deliver(w, eval, h, ev);
            var e := EffectNext(w, h, ev);
            && (p.end.Waiting? || EndedBy(kind, p))
            && (p.end.Waiting? ==>
                  && Sound(w, p.h) && p.h.trace != [] && p.h.trace[|p.h.trace| - 1].kind == kind
                  && MostPolls(w, p.h.trace) == MostPolls(w, h.trace)
                  && Polls(p.h.trace) == Polls(h.trace) + if Polled(e) then 1 else 0)
  {
    hide AfterTick, HeldFor, Polls, AllSensible;
    DeliverWellEnded(w, eval, h, ev);
    var now := h.(clock := h.clock + ev.delay);
    var e := EffectOf(w, now, ev.what);
    hide EffectOf, Sound;
    if e.Evaluating? {
      HeldTick(w, eval, kind, now, e.pods, e.reading, e.polled);
    }
  }

  /** One more tick of the class: the sequence and its window stay, and a poll is counted. */
  lemma HeldTick(w: Windows, eval: Evaluator, kind: Class, h: History, pods: Snapshot, reading: Reading, polled: bool)
    requires AllSensible(eval) && PollClass(kind) && h.trace != [] && h.trace[|h.trace| - 1].kind == kind
    requires eval(reading).Ok? && ClassOf(eval(reading).value) == kind
    ensures var p := AfterTick(w, eval, h.(pods := pods), reading, polled);
            && (p.end.Waiting? || EndedBy(kind, p))
            && p.h.trace != [] && p.h.trace[|p.h.trace| - 1].kind == kind
            && HeldFor(w, p.h.trace) == HeldFor(w, h.trace)
            && Polls(p.h.trace) == Polls(h.trace) + if polled then 1 else 0
  {
    assert Sensible(eval(reading));
    hide Verdict, ClassOf, SettleWindow;
    var tr := eval(reading).value;
    var tick := Tick(h.clock, pods, kind, tr.outcome, polled);
    var t := h.trace + [tick];
    SameSequence(w, h.trace, tick);
    VerdictIsLast(w, t);
    hide RunStart, Polls, HeldFor;
  }

  /** A tick of the class of the last one continues its sequence. */
  lemma SameSequence(w: Windows, t: Trace, tick: Tick)
    requires t != [] && tick.kind == t[|t| - 1].kind
    ensures var next := t + [tick];
            && RunStart(next) == RunStart(t) && next[RunStart(t)] == t[RunStart(t)]
            && HeldFor(w, next) == HeldFor(w, t)
            && Polls(next) == Polls(t) + if tick.polled then 1 else 0
  {
    hide SettleWindow;
    var next := t + [tick];
    assert next[..|next| - 1] == t;
  }

  lemma VerdictIsLast(w: Windows, t: Trace)
    requires t != []
    ensures Verdict(w, t).Some? ==> Verdict(w, t).value == t[|t| - 1].outcome
  {
    hide RunStart, SettleWindow;
  }

  // ----- The two restart maps together -----

  lemma SeenAt(h: History, i: nat, j: nat)
    requires i <= j < |h.trace|
    ensures h.SeenUpTo(j)[|h.earlier| + i] == h.trace[i].pods
    ensures |h.SeenUpTo(j)| == |h.earlier| + j + 1
    ensures h.SeenUpTo(j)[..|h.earlier| + i + 1] == h.SeenUpTo(i)
    ensures j == |h.trace| - 1 ==> h.SeenUpTo(j) == h.Seen()
  {
    assert h.trace[..|h.trace|] == h.trace;
    var upTo := Snapshots(h.trace[..j + 1]);
    assert forall m :: 0 <= m <= i ==> upTo[m] == h.trace[m].pods;
  }

  /**
   While no increase has been observed, the running count of every container of the open
   window's baseline is at most its baseline count.
   */
  lemma RunningMapBelowBaseline(h: History, k: Key)
    requires OpenedAt(h.trace).Some? && OpenedAt(h.trace).value < |h.trace|
    requires !IncreaseSeen(h.Seen())
    requires CountOf(h.trace[OpenedAt(h.trace).value].pods, k).Some?
    ensures LastCount(h.Seen(), k).Some?
    ensures LastCount(h.Seen(), k).value <= CountOf(h.trace[OpenedAt(h.trace).value].pods, k).value
  {
    var i := OpenedAt(h.trace).value;
    SeenAt(h, i, |h.trace| - 1);
    LastCountAtMost(h.Seen(), k, |h.earlier| + i);
  }

  /**
   A restart that closes a window is always an observed increase, so the window opened
   in its place, and every later one of any session, is the long one.
   */
  lemma ReopenedWindowIsLong(w: Windows, h: History, i: nat, j: nat)
    requires i < j < |h.trace| && Rose(h.trace[i].pods, h.trace[j].pods)
    ensures h.StabilityWindow(w, j) == w.restarted
    ensures forall m :: j <= m < |h.trace| ==> h.StabilityWindow(w, m) == w.restarted
    ensures forall more: seq<Snapshot> :: IncreaseSeen(h.Seen() + more)
  {
    hide History.SeenUpTo, RoseFor, IncreaseSeen, History.Seen;
    RiseIsSeen(h, i, j);
    forall m | j <= m < |h.trace|
      ensures IncreaseSeen(h.SeenUpTo(m))
    {
      IncreaseSeenLater(h, j, m);
    }
    IncreaseSeenLater(h, j, |h.trace| - 1);
    SeenAt(h, j, |h.trace| - 1);
    forall more: seq<Snapshot>
      ensures IncreaseSeen(h.Seen() + more)
    {
      IncreaseIsRemembered(h.Seen(), more);
    }
  }

  lemma RiseIsSeen(h: History, i: nat, j: nat)
    requires i < j < |h.trace| && Rose(h.trace[i].pods, h.trace[j].pods)
    ensures IncreaseSeen(h.SeenUpTo(j))
  {
    var k :| RoseFor(h.trace[i].pods, h.trace[j].pods, k);
    SeenAt(h, i, j);
    SeenAt(h, j, j);
    assert RoseFor(h.SeenUpTo(j)[|h.earlier| + i], h.SeenUpTo(j)[|h.earlier| + j], k);
  }

  lemma IncreaseSeenLater(h: History, j: nat, m: nat)
    requires j <= m < |h.trace| && IncreaseSeen(h.SeenUpTo(j))
    ensures IncreaseSeen(h.SeenUpTo(m))
  {
    SeenAt(h, j, m);
    var more := h.SeenUpTo(m)[|h.earlier| + j + 1..];
    IncreaseIsRemembered(h.SeenUpTo(j), more);
    assert h.SeenUpTo(m) == h.SeenUpTo(j) + more;
  }

  /**
   After the window opened at tick i, a container rose that the baseline does not cover, or
   that had fallen below its baseline count.
   */
  ghost predicate RoseUnnoticed(h: History, i: nat, m: nat, b: nat, k: Key) {
    && i < b < |h.trace| && m < |h.earlier| + b
    && RoseFor(h.Seen()[m], h.trace[b].pods, k)
    && (CountOf(h.trace[i].pods, k).None? || CountOf(h.Seen()[m], k).value < CountOf(h.trace[i].pods, k).value)
  }

  /** Of whatever length the open window is: the rises it outlives are exactly those. */
  lemma OpenWindowOutlivesExactly(h: History, m: nat, b: nat, k: Key)
    requires OpenedAt(h.trace).Some? && OpenedAt(h.trace).value < |h.trace|
    ensures var i := OpenedAt(h.trace).value;
            i < b < |h.trace| && m < |h.earlier| + b && RoseFor(h.Seen()[m], h.trace[b].pods, k)
            <==> RoseUnnoticed(h, i, m, b, k)
  {
    var i := OpenedAt(h.trace).value;
    if i < b < |h.trace| && m < |h.earlier| + b && RoseFor(h.Seen()[m], h.trace[b].pods, k) {
      OpenWindowIsQuiet(h.trace);
      assert !RoseFor(h.trace[i].pods, h.trace[b].pods, k);
    }
  }

  /** So a short window stays open although an increase is observed exactly when there is such a rise. */
  lemma ShortWindowDespiteIncrease(h: History)
    requires OpenedAt(h.trace).Some?
    requires OpenedAt(h.trace).value < |h.trace| && !IncreaseSeen(h.SeenUpTo(OpenedAt(h.trace).value))
    ensures IncreaseSeen(h.Seen()) <==>
            exists m: nat, b: nat, k: Key :: RoseUnnoticed(h, OpenedAt(h.trace).value, m, b, k)
  {
    var i := OpenedAt(h.trace).value;
    if IncreaseSeen(h.Seen()) {
      var m, n, k :| 0 <= m < n < |h.Seen()| && RoseFor(h.Seen()[m], h.Seen()[n], k);
      if n <= |h.earlier| + i {
        RiseUpTo(h, i, m, n, k);
        assert false;
      }
      OpenWindowOutlivesExactly(h, m, n - |h.earlier|, k);
      assert RoseUnnoticed(h, i, m, n - |h.earlier|, k);
    } else if exists m: nat, b: nat, k: Key :: RoseUnnoticed(h, i, m, b, k) {
      var m: nat, b: nat, k: Key :| RoseUnnoticed(h, i, m, b, k);
      assert RoseFor(h.Seen()[m], h.Seen()[|h.earlier| + b], k);
    }
  }

  /** A rise seen at tick b, less than the long window ago. */
  ghost predicate RecentRise(w: Windows, h: History, m: nat, b: nat, k: Key) {
    && b < |h.trace| && m < |h.earlier| + b
    && RoseFor(h.Seen()[m], h.trace[b].pods, k)
    && h.clock < h.trace[b].now + w.restarted
  }

  /**
   The quiet period after an observed increase, over every run that reports success: it is cut
   short only by rises the open window does not notice.
   */
  lemma QuietPeriodIsKept(w: Windows, eval: Evaluator, sessions: seq<Session>, m: nat, b: nat, k: Key)
    requires AllSensible(eval)
    requires WatchRun(w, eval, [], 0, sessions).end.Finished?
             && WatchRun(w, eval, [], 0, sessions).end.outcome.succeeded
    requires RecentRise(w, WatchRun(w, eval, [], 0, sessions).h, m, b, k)
    ensures var h := WatchRun(w, eval, [], 0, sessions).h;
            OpenedAt(h.trace).Some? && RoseUnnoticed(h, OpenedAt(h.trace).value, m, b, k)
  {
    RunsWellEnded(w, eval, [], 0, sessions);
    DueWindowIsQuiet(w, WatchRun(w, eval, [], 0, sessions).h, m, b, k);
  }

  lemma DueWindowIsQuiet(w: Windows, h: History, m: nat, b: nat, k: Key)
    requires Sound(w, h) && h.StabilityDue(w) && RecentRise(w, h, m, b, k)
    ensures RoseUnnoticed(h, OpenedAt(h.trace).value, m, b, k)
  {
    hide OpenedAt, IncreaseSeen, RoseFor, Verdict;
    var i := OpenedAt(h.trace).value;
    if b <= i {
      UndecidedTicks(w, h.trace);
      RiseUpTo(h, i, m, |h.earlier| + b, k);
      assert false;
    }
    OpenWindowOutlivesExactly(h, m, b, k);
  }

  lemma RiseUpTo(h: History, i: nat, m: nat, n: nat, k: Key)
    requires i < |h.trace| && m < n <= |h.earlier| + i
    requires RoseFor(h.Seen()[m], h.Seen()[n], k)
    ensures IncreaseSeen(h.SeenUpTo(i))
  {
    SeenAt(h, i, |h.trace| - 1);
    var upTo := h.SeenUpTo(i);
    assert upTo[m] == h.Seen()[m] && upTo[n] == h.Seen()[n];
    assert RoseFor(upTo[m], upTo[n], k);
  }

  // ----- Restarts outlive a relist -----

  lemma DeliverKeepsEarlier(w: Windows, eval: Evaluator, h: History, ev: Arrival)
    requires Indexed(h.pods)
    ensures Deliver(w, eval, h, ev).h.earlier == h.earlier
  {
    hide EffectOf;
  }

  lemma {:induction false} DeliveriesKeepEarlier(w: Windows, eval: Evaluator, h: History, events: seq<Arrival>)
    requires Indexed(h.pods)
    ensures Deliveries(w, eval, h, events).h.earlier == h.earlier
    decreases |events|
  {
    if events != [] {
      hide Deliver;
      DeliverKeepsEarlier(w, eval, h, events[0]);
      var p := Deliver(w, eval, h, events[0]);
      if p.end.Waiting? { DeliveriesKeepEarlier(w, eval, p.h, events[1..]); }
    }
  }

  lemma SessionKeepsEarlier(w: Windows, eval: Evaluator, earlier: seq<Snapshot>, clock: int, s: Session)
    ensures SessionRun(w, eval, earlier, clock, s).h.earlier == earlier
  {
    if s.listing.Ok? {
      var h := History(earlier, [], IndexOf(s.listing.value), clock + s.delay);
      var p := AfterTick(w, eval, h, s.first, false);
      SessionAfterFirst(w, eval, earlier, clock, s, p);
      if p.end.Waiting? {
        hide SessionRun;
        DeliveriesKeepEarlier(w, eval, p.h, s.events);
      }
    }
  }

  /** Whatever was observed before some sessions, their ticks still know: every window of theirs is the long one. */
  lemma {:induction false} LongOnceIncreased(w: Windows, eval: Evaluator, earlier: seq<Snapshot>, clock: int,
                                             sessions: seq<Session>)
    requires IncreaseSeen(earlier)
    ensures var h := WatchRun(w, eval, earlier, clock, sessions).h;
            && IncreaseSeen(h.earlier)
            && forall i: nat :: i < |h.trace| ==> h.StabilityWindow(w, i) == w.restarted
    decreases |sessions|
  {
    if sessions != [] {
      hide SessionRun, IncreaseSeen, History.StabilityWindow;
      SessionKeepsEarlier(w, eval, earlier, clock, sessions[0]);
      var p := SessionRun(w, eval, earlier, clock, sessions[0]);
      if p.end.Relist? {
        IncreaseIsRemembered(earlier, Snapshots(p.h.trace));
        LongOnceIncreased(w, eval, p.h.Seen(), p.h.clock, sessions[1..]);
      } else {
        LongInSession(w, p.h);
      }
    }
  }

  lemma LongInSession(w: Windows, h: History)
    requires IncreaseSeen(h.earlier)
    ensures forall i: nat :: i < |h.trace| ==> h.StabilityWindow(w, i) == w.restarted
  {
    hide IncreaseSeen;
    forall i: nat | i < |h.trace|
      ensures h.StabilityWindow(w, i) == w.restarted
    {
      IncreaseIsRemembered(h.earlier, Snapshots(h.trace[..i + 1]));
    }
  }

  /** An increase observed by a session that is relisted makes every window of every later session the long one. */
  lemma LongAfterRelist(w: Windows, eval: Evaluator, earlier: seq<Snapshot>, clock: int, sessions: seq<Session>)
    requires sessions != []
    requires var p := SessionRun(w, eval, earlier, clock, sessions[0]); p.end.Relist? && IncreaseSeen(p.h.Seen())
    ensures var h := WatchRun(w, eval, earlier, clock, sessions).h;
            forall i: nat :: i < |h.trace| ==> h.StabilityWindow(w, i) == w.restarted
  {
    var p := SessionRun(w, eval, earlier, clock, sessions[0]);
    LongOnceIncreased(w, eval, p.h.Seen(), p.h.clock, sessions[1..]);
  }

  /** So no success after that relist comes before the long window is over. */
  lemma SuccessAfterRelistIsLate(w: Windows, eval: Evaluator, sessions: seq<Session>)
    requires AllSensible(eval) && sessions != []
    requires var p := SessionRun(w, eval, [], 0, sessions[0]); p.end.Relist? && IncreaseSeen(p.h.Seen())
    requires WatchRun(w, eval, [], 0, sessions).end.Finished?
             && WatchRun(w, eval, [], 0, sessions).end.outcome.succeeded
    ensures var h := WatchRun(w, eval, [], 0, sessions).h;
            && OpenedAt(h.trace).Some? && OpenedAt(h.trace).value < |h.trace|
            && h.clock >= h.trace[OpenedAt(h.trace).value].now + w.restarted
  {
    hide WatchRun, SessionRun, IncreaseSeen;
    SuccessIsEarned(w, eval, sessions);
    LongAfterRelist(w, eval, [], 0, sessions);
  }

  // ----- What each event does -----

  /** The windows in force without overrides, in milliseconds, and what each override replaces. */
  lemma WindowsInForce(o: Overrides)
    ensures o.stability <= 0 ==> WindowsOf(o).clean == 5000 && WindowsOf(o).restarted == 30000
    ensures o.stability > 0 ==> WindowsOf(o).clean == WindowsOf(o).restarted == o.stability
    ensures WindowsOf(o).grace == if o.grace <= 0 then 3000 else o.grace
    ensures WindowsOf(o).settle == if o.settle <= 0 then 5000 else o.settle
  {
  }

  /** No object that arrives is missed: either stream's makes a tick on the pods as they then are. */
  lemma ObjectsAreEvaluated(w: Windows, eval: Evaluator, h: History, delay: nat, reading: Reading)
    requires Indexed(h.pods) && eval(reading).Ok?
    ensures forall item: PodEvent ::
              var p := Deliver(w, eval, h, Arrival(delay, PodStream(Item(item), reading)));
              && p.h.pods == AfterEvent(h.pods, item) && |p.h.trace| == |h.trace| + 1
              && p.h.trace[|h.trace|].pods == AfterEvent(h.pods, item) && p.h.trace[|h.trace|].now == h.clock + delay
              && p.h.trace[|h.trace|].outcome == eval(reading).value.outcome
    ensures var p := Deliver(w, eval, h, Arrival(delay, ControllerStream(Item(()), reading)));
            && p.h.pods == h.pods && |p.h.trace| == |h.trace| + 1
            && p.h.trace[|h.trace|].pods == h.pods && p.h.trace[|h.trace|].now == h.clock + delay
            && p.h.trace[|h.trace|].outcome == eval(reading).value.outcome
  {
    hide AfterEvent, Verdict;
  }

  /** Neither does a due ticker miss its tick, nor a due stability timer its success. */
  lemma DueTimersDeliver(w: Windows, eval: Evaluator, h: History, delay: nat, reading: Reading)
    requires Indexed(h.pods)
    ensures var now := h.(clock := h.clock + delay);
            Deliver(w, eval, h, Arrival(delay, GracePoll(reading))) ==
            if now.PollDue(FullyUndetermined) then AfterTick(w, eval, now, reading, true) else Progress(Waiting, now)
    ensures var now := h.(clock := h.clock + delay);
            Deliver(w, eval, h, Arrival(delay, SettlePoll(reading))) ==
            if now.PollDue(SettleOnly) then AfterTick(w, eval, now, reading, true) else Progress(Waiting, now)
    ensures var now := h.(clock := h.clock + delay);
            Deliver(w, eval, h, Arrival(delay, StabilityFires)) ==
            Progress(if now.StabilityDue(w) then Finished(Outcome(true, [])) else Waiting, now)
  {
    hide History.StabilityDue, Verdict;
  }

  /** A tick is recorded as it was evaluated: when, on which pods, what it found, and whether a ticker caused it. */
  lemma TicksAreRecorded(w: Windows, eval: Evaluator, h: History, reading: Reading, polled: bool)
    requires eval(reading).Ok?
    ensures var next := AfterTick(w, eval, h, reading, polled).h;
            && next.earlier == h.earlier && next.pods == h.pods && next.clock == h.clock
            && |next.trace| == |h.trace| + 1 && next.trace[..|h.trace|] == h.trace
            && next.trace[|h.trace|] == Tick(h.clock, h.pods, ClassOf(eval(reading).value),
                                             eval(reading).value.outcome, polled)
  {
    hide Verdict, ClassOf;
  }

  /** The streams: an expired version relists, anything else that is no object ends the run with an error. */
  lemma StreamsEnd(w: Windows, eval: Evaluator, h: History, delay: nat, reading: Reading, error: string)
    requires Indexed(h.pods)
    ensures Deliver(w, eval, h, Arrival(delay, PodStream(Broken(true, error), reading))).end == Relist
    ensures Deliver(w, eval, h, Arrival(delay, ControllerStream(Broken(true, error), reading))).end == Relist
    ensures Deliver(w, eval, h, Arrival(delay, PodStream(Broken(false, error), reading))).end == Failed(error)
    ensures Deliver(w, eval, h, Arrival(delay, ControllerStream(Broken(false, error), reading))).end == Failed(error)
    ensures Deliver(w, eval, h, Arrival(delay, PodStream(Closed(None), reading))).end == Failed(CLOSED)
    ensures Deliver(w, eval, h, Arrival(delay, ControllerStream(Closed(None), reading))).end == Failed(CLOSED)
    ensures Deliver(w, eval, h, Arrival(delay, PodStream(Closed(Some(error)), reading))).end == Failed(error)
    ensures Deliver(w, eval, h, Arrival(delay, ControllerStream(Closed(Some(error)), reading))).end == Failed(error)
    ensures Deliver(w, eval, h, Arrival(delay, Cancelled(error))).end == Failed(error)
  {
  }

  /** The evaluation failed. */
  lemma FailedEvaluationEnds(w: Windows, eval: Evaluator, h: History, reading: Reading, polled: bool)
    requires eval(reading).Err?
    ensures AfterTick(w, eval, h, reading, polled).end == Failed(eval(reading).error)
  {
  }

  /** One finding that is determined and one that no settle window explains, perhaps the same: the tick ends the run. */
  lemma DeterminedEndsAtOnce(w: Windows, eval: Evaluator, h: History, reading: Reading, polled: bool)
    requires eval(reading).Ok? && eval(reading).value.failureFound
    requires exists r, f :: r in eval(reading).value.outcome.results && f in r.findings && !f.undetermined
    requires exists r :: r in eval(reading).value.outcome.results && r.findings != []
                         && r.id != "rollout-paused" && r.id != "statefulset-update"
    ensures AfterTick(w, eval, h, reading, polled).end == Finished(eval(reading).value.outcome)
  {
    var tr := eval(reading).value;
    var r, f :| r in tr.outcome.results && f in r.findings && !f.undetermined;
    assert !EachUndetermined(r.findings);
    var t := h.trace + [Tick(h.clock, h.pods, ClassOf(tr), tr.outcome, polled)];
    assert t[|t| - 1].kind == Determined;
  }

  /** Findings that are all undetermined are held. */
  lemma UndeterminedIsHeld(w: Windows, eval: Evaluator, h: History, reading: Reading, polled: bool)
    requires eval(reading).Ok? && eval(reading).value.failureFound
    requires AllFindings(eval(reading).value.outcome.results) != []
    requires forall r, f :: r in eval(reading).value.outcome.results && f in r.findings ==> f.undetermined
    requires h.trace == [] || h.trace[|h.trace| - 1].kind != FullyUndetermined
    ensures var p := AfterTick(w, eval, h, reading, polled);
            p.end.Waiting? && p.h.trace[|p.h.trace| - 1].kind == FullyUndetermined
  {
    var tr := eval(reading).value;
    var t := h.trace + [Tick(h.clock, h.pods, ClassOf(tr), tr.outcome, polled)];
    assert OnlyUndetermined(tr.outcome);
    assert RunStart(t) == |t| - 1;
  }

  /** So are findings, one of them determined, that only the paused and the StatefulSet-update diagnoser have. */
  lemma SettleIsHeld(w: Windows, eval: Evaluator, h: History, reading: Reading, polled: bool)
    requires eval(reading).Ok? && eval(reading).value.failureFound
    requires exists r, f :: r in eval(reading).value.outcome.results && f in r.findings && !f.undetermined
    requires forall r :: r in eval(reading).value.outcome.results && r.findings != [] ==>
               r.id == "rollout-paused" || r.id == "statefulset-update"
    requires h.trace == [] || h.trace[|h.trace| - 1].kind != SettleOnly
    ensures var p := AfterTick(w, eval, h, reading, polled);
            p.end.Waiting? && p.h.trace[|p.h.trace| - 1].kind == SettleOnly
  {
    var tr := eval(reading).value;
    var r, f :| r in tr.outcome.results && f in r.findings && !f.undetermined;
    assert !EachUndetermined(r.findings);
    FindingComesFromResult(tr.outcome.results, f);
    assert ClassOf(tr) == SettleOnly;
    var t := h.trace + [Tick(h.clock, h.pods, ClassOf(tr), tr.outcome, polled)];
    assert RunStart(t) == |t| - 1;
    hide ClassOf, SettleWindow, RunStart;
  }

  /**
   A later tick of the sequence, whatever caused it, ends the run with its own outcome exactly when the
   sequence has outlasted its window; otherwise the run goes on.
   */
  lemma HeldTickDecides(w: Windows, eval: Evaluator, h: History, reading: Reading, polled: bool)
    requires eval(reading).Ok? && h.trace != []
    requires var kind := ClassOf(eval(reading).value); PollClass(kind) && kind == h.trace[|h.trace| - 1].kind
    ensures var start := h.trace[RunStart(h.trace)];
            var window := if ClassOf(eval(reading).value) == FullyUndetermined then w.grace
                          else SettleWindow(w, start.pods);
            AfterTick(w, eval, h, reading, polled).end ==
            if h.clock - start.now > window then Finished(eval(reading).value.outcome) else Waiting
  {
    var tr := eval(reading).value;
    var t := h.trace + [Tick(h.clock, h.pods, ClassOf(tr), tr.outcome, polled)];
    assert t[..|t| - 1] == h.trace;
    assert RunStart(t) == RunStart(h.trace);
    hide SettleWindow, ClassOf;
  }

  function PolledAfter(t: Trace, start: nat): set<nat> {
    set i: nat | start < i < |t| && t[i].polled
  }

  /** Polls are the ticks after the first of the sequence that a ticker caused. */
  lemma {:induction false} PollsAre(t: Trace)
    requires t != []
    ensures Polls(t) == |PolledAfter(t, RunStart(t))|
  {
    var last := |t| - 1;
    if |t| == 1 || t[|t| - 2].kind != t[|t| - 1].kind {
      assert PolledAfter(t, last) == {};
    } else {
      var init := t[..last];
      PollsAre(init);
      var before := PolledAfter(init, RunStart(init));
      assert PolledAfter(t, RunStart(t)) == if t[last].polled then before + {last} else before;
    }
  }

  /** A ticker fires every 500ms while the last tick is of its class, counted from the first of the sequence. */
  lemma PollIsDueWhen(h: History, kind: Class)
    ensures h.PollDue(kind) <==>
            && h.trace != [] && h.trace[|h.trace| - 1].kind == kind
            && h.clock - h.trace[RunStart(h.trace)].now >= 500 * (Polls(h.trace) + 1)
  {
  }

  /** Only an expired version starts another session, with what was seen and the clock carried over. */
  lemma RelistsExactly(w: Windows, eval: Evaluator, earlier: seq<Snapshot>, clock: int, s: Session,
                       rest: seq<Session>)
    ensures var p := SessionRun(w, eval, earlier, clock, s);
            WatchRun(w, eval, earlier, clock, [s] + rest) ==
            match p.end
            case Relist => WatchRun(w, eval, earlier + Snapshots(p.h.trace), p.h.clock, rest)
            case Finished(_) => p
            case Failed(_) => p
            case Waiting => p
  {
    hide SessionRun;
    SessionKeepsEarlier(w, eval, earlier, clock, s);
    assert ([s] + rest)[0] == s && ([s] + rest)[1..] == rest;
  }

  /** The settle window is the long one exactly when some container shows a restart. */
  lemma SettleWindowMeans(w: Windows, pods: Snapshot)
    ensures SettleWindow(w, pods) ==
            if exists k: Key :: CountOf(pods, k).Some? && CountOf(pods, k).value > 0 then w.restarted else w.settle
  {
  }

  /** A complete tick keeps the open window or opens one; any other closes it. */
  lemma CompleteOpensWindow(w: Windows, eval: Evaluator, h: History, reading: Reading, polled: bool)
    requires eval(reading).Ok? && !eval(reading).value.failureFound
    ensures var p := AfterTick(w, eval, h, reading, polled);
            p.end.Waiting? && (OpenedAt(p.h.trace).Some? <==> eval(reading).value.complete)
  {
    var tr := eval(reading).value;
    var t := h.trace + [Tick(h.clock, h.pods, ClassOf(tr), tr.outcome, polled)];
    OpenWindowIsQuiet(t);
  }

  // ----- Such a run -----

  /** A healthy, complete rollout with nothing to report. */
  const HEALTHY := Reading(Ok(true), Ok([]), Ok([]), map[])

  const NO_OVERRIDES := Overrides(0, 0, 0)

  function PodOf(uid: Uid, restarts: int): Pod {
    Pod(uid, uid, [ContainerStatus("c", restarts)], [])
  }

  function Arrives(delay: nat, pod: Pod): Arrival {
    Arrival(delay, PodStream(Item(Stored(pod)), HEALTHY))
  }

  /** A container appears one second after the window opens and restarts a second later; the timer fires at 5s. */
  const UNNOTICED := Session(0, Ok([]), HEALTHY, None, [
                               Arrives(1000, PodOf("u", 0)), Arrives(1000, PodOf("u", 1)), Arrival(3000, StabilityFires)
                             ])

  /**
   A restart after one second opens a long window; another pod appears a second later and restarts
   one second before that window ends.
   */
  const UNNOTICED_FOR_LONG := Session(0, Ok([PodOf("u", 0)]), HEALTHY, None, [
                                        Arrives(1000, PodOf("u", 1)), Arrives(1000, PodOf("v", 0)),
                                        Arrives(28000, PodOf("v", 1)), Arrival(1000, StabilityFires)
                                      ])

  lemma HealthyIsComplete()
    ensures Evaluate(HEALTHY) == Ok(TickResult(true, false, NOTHING))
  {
    var target := TargetOf(HEALTHY);
    NothingAnswered(REGISTERED, target);
    TickReportsEveryFinding(HEALTHY);
  }

  lemma {:induction false} NothingAnswered(ids: seq<string>, target: Target)
    requires target.sources == [] && target.answers == map[]
    ensures Diagnosed(ids, target).Ok? && AllFindings(Diagnosed(ids, target).value) == []
  {
    if ids != [] {
      NothingAnswered(ids[..|ids| - 1], target);
      var before := Diagnosed(ids[..|ids| - 1], target).value;
      var last := Answered(ids[|ids| - 1], target).value;
      assert Diagnosed(ids, target) == Ok(before + [last]);
      assert (before + [last])[..|before|] == before;
    }
  }

  function CompleteTick(now: int, pods: Snapshot): Tick {
    Tick(now, pods, Complete, NOTHING, false)
  }

  /** A healthy tick adds itself to the trace and the run goes on. */
  lemma HealthyTick(w: Windows, h: History)
    ensures AfterTick(w, Evaluate, h, HEALTHY, false) ==
            Progress(Waiting, h.(trace := h.trace + [CompleteTick(h.clock, h.pods)]))
  {
    HealthyIsComplete();
  }

  /** A pod event that finds the rollout healthy. */
  lemma HealthyArrival(w: Windows, h: History, delay: nat, pod: Pod)
    requires Indexed(h.pods)
    ensures var pods := h.pods[pod.uid := pod];
            Deliver(w, Evaluate, h, Arrives(delay, pod)) ==
            Progress(Waiting,
                     History(h.earlier, h.trace + [CompleteTick(h.clock + delay, pods)], pods, h.clock + delay))
  {
    hide AfterTick, Evaluate;
    HealthyTick(w, h.(clock := h.clock + delay, pods := h.pods[pod.uid := pod]));
  }

  /** One event more, when it does not end the run. */
  lemma DeliveredFirst(w: Windows, eval: Evaluator, h: History, ev: Arrival, rest: seq<Arrival>)
    requires Indexed(h.pods)
    ensures var p := Deliver(w, eval, h, ev);
            Deliveries(w, eval, h, [ev] + rest) == if p.end.Waiting? then Deliveries(w, eval, p.h, rest) else p
  {
    assert ([ev] + rest)[1..] == rest;
  }

  /** A session that listed some pods, found the rollout healthy and then received some events. */
  lemma HealthySession(w: Windows, s: Session)
    requires s.listing.Ok? && s.startError.None? && s.first == HEALTHY && s.delay == 0
    ensures var pods := IndexOf(s.listing.value);
            var h := History([], [CompleteTick(0, pods)], pods, 0);
            var p := Deliveries(w, Evaluate, h, s.events);
            !p.end.Relist? ==> WatchRun(w, Evaluate, [], 0, [s]) == p
  {
    hide AfterTick, Evaluate, Deliveries;
    var pods := IndexOf(s.listing.value);
    HealthyTick(w, History([], [], pods, 0));
    assert [] + [CompleteTick(0, pods)] == [CompleteTick(0, pods)];
    SessionAfterFirst(w, Evaluate, [], 0, s, Progress(Waiting, History([], [CompleteTick(0, pods)], pods, 0)));
    assert [s][0] == s;
  }

  /** Pods that came in addition show no rise. */
  lemma AddedPodsAreNoRise(before: Snapshot, after: Snapshot)
    requires forall u :: u in before ==> u in after && after[u] == before[u]
    ensures !Rose(before, after)
  {
  }

  lemma WindowStays(t: Trace, tick: Tick, i: nat)
    requires OpenedAt(t) == Some(i) && i < |t| && tick.kind == Complete
    ensures OpenedAt(t + [tick]) == if Rose(t[i].pods, tick.pods) then Some(|t|) else Some(i)
  {
    assert (t + [tick])[..|t|] == t;
  }

  lemma RiseOfPod(before: Snapshot, after: Snapshot, uid: Uid)
    requires uid in before && uid in after && before[uid] == PodOf(uid, 0) && after[uid] == PodOf(uid, 1)
    ensures RoseFor(before, after, Key(uid, uid, "c", false)) && Rose(before, after)
  {
  }

  /** The first session's run: the container's restart is observed, and success still comes at 5s. */
  lemma RestartOutsideBaselineGoesUnnoticed()
    ensures var p := WatchRun(WindowsOf(NO_OVERRIDES), Evaluate, [], 0, [UNNOTICED]);
            && p.end == Finished(Outcome(true, []))
            && IncreaseSeen(p.h.Seen())
            && p.h.clock < RESTARTED_ROLLOUT_STABILITY_WINDOW
  {
    hide AfterTick, Evaluate, Deliver, Deliveries, SessionRun, WatchRun, IncreaseSeen;
    var w := WindowsOf(NO_OVERRIDES);
    var p0, p1, p2: Snapshot := map[], map["u" := PodOf("u", 0)], map["u" := PodOf("u", 1)];
    var t0, t1, t2 := CompleteTick(0, p0), CompleteTick(1000, p1), CompleteTick(2000, p2);
    var e1, e2, e3 := Arrives(1000, PodOf("u", 0)), Arrives(1000, PodOf("u", 1)), Arrival(3000, StabilityFires);
    var h1, h2, h3 := History([], [t0], p0, 0), History([], [t0, t1], p1, 1000), History([], [t0, t1, t2], p2, 2000);
    HealthySession(w, UNNOTICED);
    HealthyArrival(w, h1, 1000, PodOf("u", 0));
    assert [t0] + [t1] == [t0, t1] && p0["u" := PodOf("u", 0)] == p1;
    HealthyArrival(w, h2, 1000, PodOf("u", 1));
    assert [t0, t1] + [t2] == [t0, t1, t2] && p1["u" := PodOf("u", 1)] == p2;
    ShortWindowIsDue(w, t0, t1, t2);
    DeliveredFirst(w, Evaluate, h1, e1, [e2, e3]);
    DeliveredFirst(w, Evaluate, h2, e2, [e3]);
    DeliveredFirst(w, Evaluate, h3, e3, []);
    assert [e1] + [e2, e3] == UNNOTICED.events && [e2] + [e3] == [e2, e3] && [e3] + [] == [e3];
  }

  lemma ShortWindowIsDue(w: Windows, t0: Tick, t1: Tick, t2: Tick)
    requires w == WindowsOf(NO_OVERRIDES)
    requires t0 == CompleteTick(0, map[])
    requires t1 == CompleteTick(1000, map["u" := PodOf("u", 0)]) && t2 == CompleteTick(2000, map["u" := PodOf("u", 1)])
    ensures var h := History([], [t0, t1, t2], t2.pods, 2000);
            && Deliver(w, Evaluate, h, Arrival(3000, StabilityFires)) ==
               Progress(Finished(Outcome(true, [])), h.(clock := 5000))
            && IncreaseSeen(h.(clock := 5000).Seen())
  {
    var h := History([], [t0, t1, t2], t2.pods, 5000);
    assert [t0][..0] == [] && OpenedAt([t0]) == Some(0);
    AddedPodsAreNoRise(t0.pods, t1.pods);
    AddedPodsAreNoRise(t0.pods, t2.pods);
    WindowStays([t0], t1, 0);
    WindowStays([t0, t1], t2, 0);
    assert [t0] + [t1] == [t0, t1] && [t0, t1] + [t2] == h.trace;
    assert !IncreaseSeen(h.SeenUpTo(0));
    RiseOfPod(h.Seen()[1], h.Seen()[2], "u");
  }

  const LATE_TRACE: Trace := [
    CompleteTick(0, map["u" := PodOf("u", 0)]),
    CompleteTick(1000, map["u" := PodOf("u", 1)]),
    CompleteTick(2000, map["u" := PodOf("u", 1), "v" := PodOf("v", 0)]),
    CompleteTick(30000, map["u" := PodOf("u", 1), "v" := PodOf("v", 1)])
  ]

  /** The state after the first n ticks of that run. */
  function Late(n: nat): History
    requires 1 <= n <= |LATE_TRACE|
  {
    History([], LATE_TRACE[..n], LATE_TRACE[n - 1].pods, LATE_TRACE[n - 1].now)
  }

  const LATE_SUCCESS := Progress(Finished(Outcome(true, [])), Late(4).(clock := 31000))

  /** The second session's run: one second after an observed restart, under a long window, success is reported. */
  lemma LateRestartGoesUnnoticed()
    ensures WatchRun(WindowsOf(NO_OVERRIDES), Evaluate, [], 0, [UNNOTICED_FOR_LONG]) == LATE_SUCCESS
    ensures OpenedAt(LATE_SUCCESS.h.trace) == Some(1)
    ensures LATE_SUCCESS.h.StabilityWindow(WindowsOf(NO_OVERRIDES), 1) == RESTARTED_ROLLOUT_STABILITY_WINDOW
    ensures RecentRise(WindowsOf(NO_OVERRIDES), LATE_SUCCESS.h, 2, 3, Key("v", "v", "c", false))
  {
    hide AfterTick, Evaluate, Deliveries, SessionRun, WatchRun, IncreaseSeen, RoseFor, OpenedAt;
    assert [PodOf("u", 0)][..0] == [] && IndexOf([PodOf("u", 0)]) == LATE_TRACE[0].pods;
    assert LATE_TRACE[..1] == [LATE_TRACE[0]];
    HealthySession(WindowsOf(NO_OVERRIDES), UNNOTICED_FOR_LONG);
    LateDeliveries();
    LongWindowIsDue();
  }

  lemma LateDeliveries()
    ensures Deliveries(WindowsOf(NO_OVERRIDES), Evaluate, Late(1), UNNOTICED_FOR_LONG.events) == LATE_SUCCESS
  {
    LateIsIndexed(1);
    LateIsIndexed(2);
    LateIsIndexed(3);
    LateIsIndexed(4);
    hide Deliver, Deliveries, Evaluate, AfterTick, OpenedAt, RoseFor, CompleteTick, PodOf, IncreaseSeen, Indexed, Late;
    var events := UNNOTICED_FOR_LONG.events;
    assert events == [events[0], events[1], events[2], events[3]];
    LateTick(1);
    LateTick(2);
    LateTick(3);
    LongWindowIsDue();
    DeliveredInTurn(WindowsOf(NO_OVERRIDES), Evaluate, Late(1), Late(2), Late(3), Late(4),
                    events[0], events[1], events[2], events[3]);
  }

  lemma DeliveredInTurn(w: Windows, eval: Evaluator, h1: History, h2: History, h3: History, h4: History,
                        e1: Arrival, e2: Arrival, e3: Arrival, e4: Arrival)
    requires Indexed(h1.pods) && Indexed(h2.pods) && Indexed(h3.pods) && Indexed(h4.pods)
    requires Deliver(w, eval, h1, e1) == Progress(Waiting, h2) && Deliver(w, eval, h2, e2) == Progress(Waiting, h3)
    requires Deliver(w, eval, h3, e3) == Progress(Waiting, h4) && !Deliver(w, eval, h4, e4).end.Waiting?
    ensures Deliveries(w, eval, h1, [e1, e2, e3, e4]) == Deliver(w, eval, h4, e4)
  {
    hide Deliver, Deliveries, Indexed;
    DeliveredFirst(w, eval, h1, e1, [e2, e3, e4]);
    DeliveredFirst(w, eval, h2, e2, [e3, e4]);
    DeliveredFirst(w, eval, h3, e3, [e4]);
    DeliveredFirst(w, eval, h4, e4, []);
    assert [e1] + [e2, e3, e4] == [e1, e2, e3, e4] && [e2] + [e3, e4] == [e2, e3, e4];
    assert [e3] + [e4] == [e3, e4] && [e4] + [] == [e4];
  }

  lemma LateIsIndexed(n: nat)
    requires 1 <= n <= 4
    ensures Indexed(Late(n).pods)
  {
  }

  lemma LateTick(n: nat)
    requires 1 <= n <= 3
    ensures Deliver(WindowsOf(NO_OVERRIDES), Evaluate, Late(n), UNNOTICED_FOR_LONG.events[n - 1]) ==
            Progress(Waiting, Late(n + 1))
  {
    hide Deliver, Evaluate, Late;
    if n == 1 {
      LateStep(1, 1000, PodOf("u", 1));
    } else if n == 2 {
      LateStep(2, 1000, PodOf("v", 0));
    } else {
      LateStep(3, 28000, PodOf("v", 1));
    }
  }

  lemma LateStep(n: nat, delay: nat, pod: Pod)
    requires 1 <= n <= 3
    requires LATE_TRACE[n] == CompleteTick(LATE_TRACE[n - 1].now + delay, LATE_TRACE[n - 1].pods[pod.uid := pod])
    ensures Deliver(WindowsOf(NO_OVERRIDES), Evaluate, Late(n), Arrives(delay, pod)) == Progress(Waiting, Late(n + 1))
  {
    LateIsIndexed(n);
    hide Deliver, Evaluate, CompleteTick, PodOf, Indexed;
    HealthyStep(WindowsOf(NO_OVERRIDES), LATE_TRACE, n, delay, pod);
  }

  lemma HealthyStep(w: Windows, t: Trace, n: nat, delay: nat, pod: Pod)
    requires 1 <= n < |t| && Indexed(t[n - 1].pods)
    requires t[n] == CompleteTick(t[n - 1].now + delay, t[n - 1].pods[pod.uid := pod])
    ensures Deliver(w, Evaluate, History([], t[..n], t[n - 1].pods, t[n - 1].now), Arrives(delay, pod)) ==
            Progress(Waiting, History([], t[..n + 1], t[n].pods, t[n].now))
  {
    hide Deliver, Evaluate, AfterTick, Indexed;
    HealthyArrival(w, History([], t[..n], t[n - 1].pods, t[n - 1].now), delay, pod);
    assert t[..n] + [t[n]] == t[..n + 1];
  }

  lemma LongWindowIsDue()
    ensures Indexed(Late(4).pods)
    ensures Deliver(WindowsOf(NO_OVERRIDES), Evaluate, Late(4), UNNOTICED_FOR_LONG.events[3]) == LATE_SUCCESS
    ensures OpenedAt(LATE_SUCCESS.h.trace) == Some(1)
    ensures LATE_SUCCESS.h.StabilityWindow(WindowsOf(NO_OVERRIDES), 1) == RESTARTED_ROLLOUT_STABILITY_WINDOW
    ensures RoseFor(LATE_SUCCESS.h.Seen()[2], LATE_TRACE[3].pods, Key("v", "v", "c", false))
  {
    LateIsIndexed(4);
    LateWindowOpens();
    assert LATE_SUCCESS.h.trace == LATE_TRACE;
    hide OpenedAt, Rose, RoseFor, IncreaseSeen, PodOf, CompleteTick;
    RiseIsSeen(LATE_SUCCESS.h, 0, 1);
  }

  lemma LateWindowOpens()
    ensures OpenedAt(LATE_TRACE) == Some(1)
    ensures Rose(LATE_TRACE[0].pods, LATE_TRACE[1].pods)
    ensures RoseFor(LATE_TRACE[2].pods, LATE_TRACE[3].pods, Key("v", "v", "c", false))
  {
    hide Rose, RoseFor;
    var t := LATE_TRACE;
    assert t[..1] == [t[0]] && t[..1][..0] == [] && OpenedAt(t[..1]) == Some(0);
    RiseOfPod(t[0].pods, t[1].pods, "u");
    RiseOfPod(t[2].pods, t[3].pods, "v");
    AddedPodsAreNoRise(t[1].pods, t[2].pods);
    AddedPodsAreNoRise(t[1].pods, t[3].pods);
    assert t[..1] + [t[1]] == t[..2] && t[..2] + [t[2]] == t[..3] && t[..3] + [t[3]] == t;
    hide OpenedAt;
    WindowStays(t[..1], t[1], 0);
    WindowStays(t[..2], t[2], 1);
    WindowStays(t[..3], t[3], 1);
  }

  // ----- A relist between a restart and the next window -----

  const BEFORE_RELIST := Session(0, Ok([PodOf("u", 0)]), HEALTHY, None, [
                                   Arrives(1000, PodOf("u", 1)), Arrival(0, PodStream(Broken(true, "410"), HEALTHY))
                                 ])

  const AFTER_RELIST := Session(0, Ok([PodOf("u", 1)]), HEALTHY, None, [Arrival(5000, StabilityFires)])

  lemma HealthySessionRun(w: Windows, earlier: seq<Snapshot>, clock: int, s: Session)
    requires s.listing.Ok? && s.startError.None? && s.first == HEALTHY && s.delay == 0
    ensures var pods := IndexOf(s.listing.value);
            SessionRun(w, Evaluate, earlier, clock, s) ==
            Deliveries(w, Evaluate, History(earlier, [CompleteTick(clock, pods)], pods, clock), s.events)
  {
    hide AfterTick, Evaluate, Deliveries;
    var pods := IndexOf(s.listing.value);
    var h := History(earlier, [], pods, clock);
    HealthyTick(w, h);
    assert [] + [CompleteTick(clock, pods)] == [CompleteTick(clock, pods)];
    SessionAfterFirst(w, Evaluate, earlier, clock, s, Progress(Waiting, h.(trace := [CompleteTick(clock, pods)])));
  }

  /** Five seconds are not enough after the relist: the restart before it is still known. */
  lemma RelistKeepsTheLongWindow()
    ensures WatchRun(WindowsOf(NO_OVERRIDES), Evaluate, [], 0, [BEFORE_RELIST, AFTER_RELIST]).end == Waiting
  {
    var w := WindowsOf(NO_OVERRIDES);
    SessionBeforeRelist();
    hide SessionRun;
    var p := SessionRun(w, Evaluate, [], 0, BEFORE_RELIST);
    SessionAfterRelist(p.h.Seen());
    assert [BEFORE_RELIST, AFTER_RELIST][1..] == [AFTER_RELIST] && [AFTER_RELIST][0] == AFTER_RELIST;
    hide IncreaseSeen;
    assert WatchRun(w, Evaluate, p.h.Seen(), p.h.clock, [AFTER_RELIST]).end == Waiting;
  }

  lemma OnePodListed(pod: Pod)
    ensures IndexOf([pod]) == map[pod.uid := pod]
  {
    assert [pod][..0] == [];
  }

  lemma SessionBeforeRelist()
    ensures var p := SessionRun(WindowsOf(NO_OVERRIDES), Evaluate, [], 0, BEFORE_RELIST);
            p.end == Relist && IncreaseSeen(p.h.Seen()) && p.h.clock == 1000
  {
    hide AfterTick, Evaluate, Deliver, Deliveries, SessionRun;
    var w := WindowsOf(NO_OVERRIDES);
    var p0, p1: Snapshot := map["u" := PodOf("u", 0)], map["u" := PodOf("u", 1)];
    var t0, t1 := CompleteTick(0, p0), CompleteTick(1000, p1);
    var e1, e2 := Arrives(1000, PodOf("u", 1)), Arrival(0, PodStream(Broken(true, "410"), HEALTHY));
    var h1, h2 := History([], [t0], p0, 0), History([], [t0, t1], p1, 1000);
    OnePodListed(PodOf("u", 0));
    HealthySessionRun(w, [], 0, BEFORE_RELIST);
    HealthyArrival(w, h1, 1000, PodOf("u", 1));
    assert [t0] + [t1] == [t0, t1] && p0["u" := PodOf("u", 1)] == p1;
    DeliveredFirst(w, Evaluate, h1, e1, [e2]);
    DeliveredFirst(w, Evaluate, h2, e2, []);
    ExpiredRelists(w, h2);
    assert [e1] + [e2] == BEFORE_RELIST.events && [e2] + [] == [e2];
    RestartIsSeen(h2);
  }

  lemma ExpiredRelists(w: Windows, h: History)
    requires Indexed(h.pods)
    ensures Deliver(w, Evaluate, h, Arrival(0, PodStream(Broken(true, "410"), HEALTHY))) == Progress(Relist, h)
  {
  }

  lemma RestartIsSeen(h: History)
    requires |h.trace| == 2 && h.earlier == []
    requires h.trace[0].pods == map["u" := PodOf("u", 0)] && h.trace[1].pods == map["u" := PodOf("u", 1)]
    ensures IncreaseSeen(h.Seen())
  {
    RiseOfPod(h.Seen()[0], h.Seen()[1], "u");
  }

  lemma SessionAfterRelist(earlier: seq<Snapshot>)
    requires IncreaseSeen(earlier)
    ensures SessionRun(WindowsOf(NO_OVERRIDES), Evaluate, earlier, 1000, AFTER_RELIST).end == Waiting
  {
    hide AfterTick, Evaluate, Deliver, Deliveries, SessionRun, IncreaseSeen, History.StabilityWindow;
    var w := WindowsOf(NO_OVERRIDES);
    var p1: Snapshot := map["u" := PodOf("u", 1)];
    var t, ev := CompleteTick(1000, p1), Arrival(5000, StabilityFires);
    var h := History(earlier, [t], p1, 1000);
    OnePodListed(PodOf("u", 1));
    HealthySessionRun(w, earlier, 1000, AFTER_RELIST);
    LongInSession(w, h.(clock := 6000));
    assert [t][..0] == [] && OpenedAt([t]) == Some(0);
    DueTimersDeliver(w, Evaluate, h, 5000, HEALTHY);
    DeliveredFirst(w, Evaluate, h, ev, []);
    assert [ev] + [] == AFTER_RELIST.events;
    NothingLeft(w, h.(clock := 6000));
  }

  lemma NothingLeft(w: Windows, h: History)
    requires Indexed(h.pods)
    ensures Deliveries(w, Evaluate, h, []) == Progress(Waiting, h)
  {
  }
}
