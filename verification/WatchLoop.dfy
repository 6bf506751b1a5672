/**
 The watch loop as internal/diagnose/watch.go runs it: three timers, two deadlines, two
 pending outcomes and two restart maps, updated in place at every tick. Each method is
 proved to do what WatchRuns.dfy reads off the full trace.
 */
module WatchLoop {
  import opened Base
  import opened Restarts
  import opened Diagnosis
  import opened WatchRuns

  /** A running ticker: when it was created and how many values it has delivered. */
  datatype Ticker = Ticker(started: int, delivered: nat) {
    function NextDue(): int {
      started + (delivered + 1) * POLL_INTERVAL
    }
  }

  /** The evaluator is the evaluation this loop performs. */
  ghost predicate Faithful(eval: Evaluator) {
    forall reading {:trigger Evaluate(reading)} :: eval(reading) == Evaluate(reading)
  }

  /** The grace ticker runs exactly while the last tick was fully undetermined. */
  ghost predicate GraceFits(w: Windows, t: Trace, extra: nat, ticker: Option<Ticker>, deadline: int, pending: Outcome) {
    if t != [] && t[|t| - 1].kind == FullyUndetermined then
      && ticker == Some(Ticker(t[RunStart(t)].now, Polls(t) + extra))
      && deadline == t[RunStart(t)].now + w.grace
      && pending == t[|t| - 1].outcome
    else ticker.None?
  }

  /** The settle ticker runs exactly while the last tick was settle-only. */
  ghost predicate SettleFits(w: Windows, t: Trace, extra: nat, ticker: Option<Ticker>,
                             deadline: int, pending: Outcome) {
    if t != [] && t[|t| - 1].kind == SettleOnly then
      && ticker == Some(Ticker(t[RunStart(t)].now, Polls(t) + extra))
      && deadline == t[RunStart(t)].now + SettleWindow(w, t[RunStart(t)].pods)
      && pending == t[|t| - 1].outcome
    else ticker.None?
  }

  /** The stability timer runs exactly while a window is open, with that window's baseline. */
  ghost predicate StabilityFits(w: Windows, h: History, timer: Option<int>, baseline: Counts) {
    match OpenedAt(h.trace)
    case None => timer.None?
    case Some(i) =>
      && i < |h.trace|
      && timer == Some(h.trace[i].now + h.StabilityWindow(w, i))
      && Reflects(baseline, h.trace[i].pods)
  }

  /** One run of watchFromCurrentState. `told` is the session so far, with full memory. */
  class Loop {
    const windows: Windows
    const restarts: RestartObservations
    var clock: int // what time.Now reads
    var pods: Snapshot
    var stability: Option<int> // when the running stability timer fires
    var stabilityRestartCounts: Counts
    var graceTicker: Option<Ticker>
    var graceDeadline: int
    var pendingUndetermined: Outcome
    var pausedTicker: Option<Ticker>
    var pausedDeadline: int
    var pendingPausedOnly: Outcome
    ghost const eval: Evaluator
    ghost var told: History

    /** `extra` is 1 between a ticker's delivery and the tick it causes. */
    ghost predicate TickersFit(extra: nat)
      reads this
    {
      && GraceFits(windows, told.trace, extra, graceTicker, graceDeadline, pendingUndetermined)
      && SettleFits(windows, told.trace, extra, pausedTicker, pausedDeadline, pendingPausedOnly)
    }

    ghost predicate ValidButFor(extra: nat)
      reads this, restarts
    {
      && Indexed(pods) && Faithful(eval)
      && told.pods == pods && told.clock == clock
      && restarts.Valid() && restarts.seen == told.Seen()
      && TickersFit(extra)
      && StabilityFits(windows, told, stability, stabilityRestartCounts)
    }

    ghost predicate Valid()
      reads this, restarts
    {
      ValidButFor(0)
    }

    constructor (windows: Windows, restarts: RestartObservations, clock: int, items: seq<Pod>, ghost eval: Evaluator)
      requires restarts.Valid() && Faithful(eval)
      ensures Valid() && this.eval == eval && this.windows == windows && this.restarts == restarts
      ensures told == History(restarts.seen, [], IndexOf(items), clock)
    {
      this.windows := windows;
      this.restarts := restarts;
      this.clock := clock;
      stability, stabilityRestartCounts := None, map[];
      graceTicker, graceDeadline, pendingUndetermined := None, 0, NOTHING;
      pausedTicker, pausedDeadline, pendingPausedOnly := None, 0, NOTHING;
      this.eval := eval;
      var indexed := IndexPods(items);
      pods := indexed;
      told := History(restarts.seen, [], indexed, clock);
    }

    method StopGrace()
      modifies this`graceTicker, this`graceDeadline
      ensures graceTicker.None?
    {
      graceTicker := None;
      graceDeadline := 0;
    }

    method StopPausedSettle()
      modifies this`pausedTicker, this`pausedDeadline
      ensures pausedTicker.None?
    {
      pausedTicker := None;
      pausedDeadline := 0;
    }

    /** The grace half of the switch. The last tick of the trace `t` is the one being handled. */
    method HoldUndetermined(outcome: Outcome, ghost t: Trace) returns (expired: bool)
      requires t != [] && t[|t| - 1].kind == FullyUndetermined
      requires t[|t| - 1].now == clock && t[|t| - 1].outcome == outcome
      requires GraceFits(windows, t[..|t| - 1], if t[|t| - 1].polled then 1 else 0,
                         graceTicker, graceDeadline, pendingUndetermined)
      modifies this`graceTicker, this`graceDeadline, this`pendingUndetermined
      ensures pendingUndetermined == outcome
      ensures expired <==> Verdict(windows, t).Some?
      ensures !expired ==> GraceFits(windows, t, 0, graceTicker, graceDeadline, pendingUndetermined)
    {
      pendingUndetermined := outcome;
      if graceTicker.None? {
        graceDeadline := clock + windows.grace;
        graceTicker := Some(Ticker(clock, 0));
        return false;
      } else if clock > graceDeadline {
        StopGrace();
        return true;
      }
      return false;
    }

    /** The settle half of the switch. */
    method HoldSettle(outcome: Outcome, ghost t: Trace) returns (expired: bool)
      requires t != [] && t[|t| - 1].kind == SettleOnly
      requires t[|t| - 1].now == clock && t[|t| - 1].outcome == outcome
      requires t[|t| - 1].pods == pods && Indexed(pods)
      requires SettleFits(windows, t[..|t| - 1], if t[|t| - 1].polled then 1 else 0,
                          pausedTicker, pausedDeadline, pendingPausedOnly)
      modifies this`pausedTicker, this`pausedDeadline, this`pendingPausedOnly
      ensures pendingPausedOnly == outcome
      ensures expired <==> Verdict(windows, t).Some?
      ensures !expired ==> SettleFits(windows, t, 0, pausedTicker, pausedDeadline, pendingPausedOnly)
    {
      pendingPausedOnly := outcome;
      if pausedTicker.None? {
        var window := windows.settle;
        var any := AnyRestartObserved(pods);
        if any {
          window := windows.restarted;
        }
        pausedDeadline := clock + window;
        pausedTicker := Some(Ticker(clock, 0));
        return false;
      } else if clock > pausedDeadline {
        StopPausedSettle();
        return true;
      }
      return false;
    }

    /** The switch on the tick's findings, for a tick already added to the trace. */
    method Hold(tr: TickResult, ghost before: Trace, ghost polled: bool) returns (verdict: Option<Outcome>)
      requires Indexed(pods)
      requires told.trace == before + [Tick(clock, pods, ClassOf(tr), tr.outcome, polled)]
      requires GraceFits(windows, before, if polled then 1 else 0, graceTicker, graceDeadline, pendingUndetermined)
      requires SettleFits(windows, before, if polled then 1 else 0, pausedTicker, pausedDeadline, pendingPausedOnly)
      modifies this`graceTicker, this`graceDeadline, this`pendingUndetermined
      modifies this`pausedTicker, this`pausedDeadline, this`pendingPausedOnly
      ensures verdict == Verdict(windows, told.trace)
      ensures verdict.None? ==> TickersFit(0)
    {
      hide Verdict, ClassOf, GraceFits, SettleFits, OnlyUndetermined, OnlySettle;
      ghost var t := told.trace;
      assert t[..|t| - 1] == before;
      TestsDecideClass(tr);
      VerdictByClass(windows, t);
      FitsByClass(windows, t);
      var allUndetermined := AllUndetermined(tr.outcome);
      var settleOnly := IsSettleWindowOnly(tr.outcome);
      if tr.failureFound && allUndetermined {
        StopPausedSettle();
        var expired := HoldUndetermined(tr.outcome, t);
        return if expired then Some(pendingUndetermined) else None;
      } else if tr.failureFound && settleOnly {
        StopGrace();
        var expired := HoldSettle(tr.outcome, t);
        return if expired then Some(pendingPausedOnly) else None;
      } else if tr.failureFound {
        StopGrace();
        StopPausedSettle();
        return Some(tr.outcome);
      } else {
        StopGrace();
        StopPausedSettle();
        return None;
      }
    }

    /** Opens a window on the pods as they are, of the length the observed restarts call for. */
    method OpenStability()
      requires Indexed(pods)
      modifies this`stability, this`stabilityRestartCounts
      ensures stability == Some(clock + if restarts.increaseObserved then windows.restarted else windows.clean)
      ensures Reflects(stabilityRestartCounts, pods)
    {
      var window := windows.clean;
      if restarts.increaseObserved {
        window := windows.restarted;
      }
      stabilityRestartCounts := Collect(pods);
      stability := Some(clock + window);
    }

    /** A restart of a container in the window's baseline closes the window. */
    method DropRestartedWindow(ghost basis: Snapshot)
      requires Indexed(pods) && (stability.Some? ==> Reflects(stabilityRestartCounts, basis))
      modifies this`stability, this`stabilityRestartCounts
      ensures old(stability.Some?) && Rose(basis, pods) ==> stability.None?
      ensures old(stability.None?) || !Rose(basis, pods) ==>
                stability == old(stability) && stabilityRestartCounts == old(stabilityRestartCounts)
    {
      var restartedDuringWindow := false;
      if stability.Some? {
        restartedDuringWindow := Increased(stabilityRestartCounts, basis, pods);
      }
      if restartedDuringWindow {
        stability, stabilityRestartCounts := None, map[];
      }
    }

    /** The stability half of a tick that does not end the run. */
    method UpdateStability(complete: bool, ghost before: History)
      requires Indexed(pods) && (restarts.increaseObserved <==> IncreaseSeen(told.Seen()))
      requires told.earlier == before.earlier && told.trace != [] && told.trace[..|told.trace| - 1] == before.trace
      requires told.trace[|told.trace| - 1].kind == Complete <==> complete
      requires told.trace[|told.trace| - 1].now == clock && told.trace[|told.trace| - 1].pods == pods
      requires StabilityFits(windows, before, stability, stabilityRestartCounts)
      modifies this`stability, this`stabilityRestartCounts
      ensures StabilityFits(windows, told, stability, stabilityRestartCounts)
    {
      hide Rose, IncreaseSeen, Reflects;
      ghost var last := |told.trace| - 1;
      NotAboveItself(pods);
      SeenAt(told, last, last);
      assert told.StabilityWindow(windows, last) ==
             if restarts.increaseObserved then windows.restarted else windows.clean;
      hide History.StabilityWindow;
      ghost var was := OpenedAt(before.trace);
      if was.Some? {
        SameWindow(before, told, windows, was.value);
      }
      DropRestartedWindow(if was.Some? then before.trace[was.value].pods else map[]);
      if complete && stability.None? {
        OpenStability();
      } else if !complete && stability.Some? {
        stability, stabilityRestartCounts := None, map[];
      }
    }

    /** One tick: observe, reevaluate, then either end the run or rearm the timers. */
    method HandleTick(reading: Reading, ghost polled: bool) returns (end: End)
      requires ValidButFor(if polled then 1 else 0)
      modifies this, restarts
      ensures Progress(end, told) == AfterTick(windows, eval, old(told), reading, polled)
      ensures told.clock == clock
      ensures end.Waiting? || end.Relist? ==> Valid()
    {
      hide ClassOf, Evaluate, Verdict, IncreaseSeen, Step, GraceFits, SettleFits, StabilityFits, History.Seen;
      hide RestartObservations.Valid;
      ghost var before := told;
      restarts.Observe(pods);
      var evaluated := EvaluateTick(reading);
      assert evaluated == eval(reading);
      StepStops(windows, before, evaluated, polled);
      if evaluated.Err? {
        return Failed(evaluated.error);
      }
      var tr := evaluated.value;
      CompleteOrNot(reading);
      ghost var tick := Tick(clock, pods, ClassOf(tr), tr.outcome, polled);
      told := before.(trace := before.trace + [tick]);
      OneTickLonger(before, tick);
      var verdict := Hold(tr, before.trace, polled);
      StepDecides(windows, before, tr, polled, told);
      if verdict.Some? {
        return Finished(verdict.value);
      }
      UpdateStability(tr.complete, before);
      return Waiting;
    }

    /** One turn of the select: what arrives, if anything can. */
    method Receive(what: Happening) returns (e: Effect)
      requires Valid()
      modifies this`pods, this`told, this`graceTicker, this`pausedTicker
      ensures e == EffectOf(windows, old(told), what)
      ensures told == if e.Evaluating? then old(told).(pods := e.pods) else old(told)
      ensures ValidButFor(if e.Evaluating? && e.polled then 1 else 0)
    {
      hide GraceFits, SettleFits, OpenedAt, IncreaseSeen, Reflects, History.PollDue, History.StabilityDue;
      match what
      case Cancelled(error) =>
        return Stop(Failed(error));
      case StabilityFires =>
        var fired := StabilityFired();
        return if fired then Stop(Finished(Outcome(true, []))) else Ignore;
      case GracePoll(reading) =>
        e := PollGrace(reading);
      case SettlePoll(reading) =>
        e := PollPausedSettle(reading);
      case PodStream(item, reading) =>
        var stop := CheckWatchEvent(item);
        if stop.Some? {
          return Stop(stop.value);
        }
        pods := AfterEvent(pods, item.value);
        told := told.(pods := pods);
        return Evaluating(pods, reading, false);
      case ControllerStream(item, reading) =>
        var stop := CheckWatchEvent(item);
        if stop.Some? {
          return Stop(stop.value);
        }
        return Evaluating(pods, reading, false);
    }

    method StabilityFired() returns (fired: bool)
      requires Valid()
      ensures fired <==> told.StabilityDue(windows)
    {
      return stability.Some? && clock >= stability.value;
    }

    method PollGrace(reading: Reading) returns (e: Effect)
      requires Valid()
      modifies this`graceTicker
      ensures e == if told.PollDue(FullyUndetermined) then Evaluating(pods, reading, true) else Ignore
      ensures ValidButFor(if e.Evaluating? then 1 else 0)
    {
      if graceTicker.None? || clock < graceTicker.value.NextDue() {
        return Ignore;
      }
      graceTicker := Some(graceTicker.value.(delivered := graceTicker.value.delivered + 1));
      return Evaluating(pods, reading, true);
    }

    method PollPausedSettle(reading: Reading) returns (e: Effect)
      requires Valid()
      modifies this`pausedTicker
      ensures e == if told.PollDue(SettleOnly) then Evaluating(pods, reading, true) else Ignore
      ensures ValidButFor(if e.Evaluating? then 1 else 0)
    {
      if pausedTicker.None? || clock < pausedTicker.value.NextDue() {
        return Ignore;
      }
      pausedTicker := Some(pausedTicker.value.(delivered := pausedTicker.value.delivered + 1));
      return Evaluating(pods, reading, true);
    }

    method Select(ev: Arrival) returns (end: End)
      requires Valid()
      modifies this, restarts
      ensures Progress(end, told) == Deliver(windows, eval, old(told), ev)
      ensures told.clock == clock
      ensures end.Waiting? || end.Relist? ==> Valid()
    {
      hide AfterTick, EffectOf;
      clock := clock + ev.delay;
      told := told.(clock := clock);
      ghost var h := told;
      var e := Receive(ev.what);
      match e
      case Stop(stop) => end := stop;
      case Ignore => end := Waiting;
      case Evaluating(_, reading, polled) => end := HandleTick(reading, polled);
      assert Progress(end, told) == Enact(windows, eval, h, e);
    }

    /** The for/select loop. */
    method Follow(events: seq<Arrival>) returns (end: End)
      requires Valid()
      modifies this, restarts
      ensures Progress(end, told) == Deliveries(windows, eval, old(told), events)
      ensures told.clock == clock
      ensures end.Waiting? || end.Relist? ==> Valid()
    {
      for i := 0 to |events|
        invariant Valid()
        invariant Deliveries(windows, eval, old(told), events) == Deliveries(windows, eval, told, events[i..])
      {
        assert events[i..][0] == events[i] && events[i..][1..] == events[i + 1..];
        end := Select(events[i]);
        if !end.Waiting? {
          return;
        }
      }
      return Waiting;
    }
  }

  /** An earlier tick's window does not depend on the ticks after it. */
  lemma SameWindow(before: History, after: History, w: Windows, i: nat)
    requires i < |before.trace| && after.earlier == before.earlier
    requires |after.trace| == |before.trace| + 1 && after.trace[..|before.trace|] == before.trace
    ensures before.StabilityWindow(w, i) == after.StabilityWindow(w, i)
  {
    assert after.trace[..i + 1] == before.trace[..i + 1];
  }

  lemma TestsDecideClass(tr: TickResult)
    ensures ClassOf(tr) == FullyUndetermined <==> tr.failureFound && OnlyUndetermined(tr.outcome)
    ensures ClassOf(tr) == SettleOnly <==> tr.failureFound && !OnlyUndetermined(tr.outcome) && OnlySettle(tr.outcome)
    ensures ClassOf(tr) == Determined <==> tr.failureFound && !OnlyUndetermined(tr.outcome) && !OnlySettle(tr.outcome)
  {
  }

  lemma VerdictByClass(w: Windows, t: Trace)
    requires t != []
    ensures Verdict(w, t).Some? ==> Verdict(w, t).value == t[|t| - 1].outcome
    ensures t[|t| - 1].kind == Determined ==> Verdict(w, t).Some?
    ensures t[|t| - 1].kind == Complete || t[|t| - 1].kind == Quiet ==> Verdict(w, t).None?
  {
  }

  lemma FitsByClass(w: Windows, t: Trace)
    requires t != []
    ensures t[|t| - 1].kind != FullyUndetermined ==>
              forall deadline, pending :: GraceFits(w, t, 0, None, deadline, pending)
    ensures t[|t| - 1].kind != SettleOnly ==>
              forall deadline, pending :: SettleFits(w, t, 0, None, deadline, pending)
  {
  }

  lemma OneTickLonger(h: History, tick: Tick)
    ensures var t := h.trace + [tick];
            && t[..|t| - 1] == h.trace && t[|t| - 1] == tick
            && h.(trace := t).Seen() == h.Seen() + [tick.pods]
  {
    var t := h.trace + [tick];
    assert t[..|t| - 1] == h.trace;
    assert h.earlier + (Snapshots(h.trace) + [tick.pods]) == h.earlier + Snapshots(h.trace) + [tick.pods];
  }

  lemma StepDecides(w: Windows, h: History, tr: TickResult, polled: bool, next: History)
    requires next == h.(trace := h.trace + [Tick(h.clock, h.pods, ClassOf(tr), tr.outcome, polled)])
    ensures Step(w, h, Ok(tr), polled) ==
            Progress(if Verdict(w, next.trace).Some? then Finished(Verdict(w, next.trace).value) else Waiting, next)
  {
  }

  lemma StepStops(w: Windows, h: History, r: Result<TickResult>, polled: bool)
    ensures r.Err? ==> Step(w, h, r, polled) == Progress(Failed(r.error), h)
  {
  }

  lemma CompleteOrNot(reading: Reading)
    requires Evaluate(reading).Ok?
    ensures ClassOf(Evaluate(reading).value) == Complete <==> Evaluate(reading).value.complete
  {
  }

  method CheckWatchEvent<T>(item: StreamItem<T>) returns (stop: Option<End>)
    ensures stop == StreamEnd(item)
  {
    if item.Closed? {
      if item.cancelled.Some? {
        return Some(Failed(item.cancelled.value));
      }
      return Some(Failed(CLOSED));
    }
    if !item.Broken? {
      return None;
    }
    if item.expired {
      return Some(Relist);
    }
    return Some(Failed(item.error));
  }

  /** After every tick that does not end the run each timer is armed exactly for its class, so at most one is. */
  lemma TimersFollowClass(loop: Loop)
    requires loop.Valid() && loop.told.trace != []
    ensures var kind := loop.told.trace[|loop.told.trace| - 1].kind;
            && (loop.graceTicker.Some? <==> kind == FullyUndetermined)
            && (loop.pausedTicker.Some? <==> kind == SettleOnly)
            && (loop.stability.Some? <==> kind == Complete)
  {
    OpenWindowIsQuiet(loop.told.trace);
  }

  lemma ObservationsFit(loop: Loop)
    requires loop.Valid()
    ensures loop.restarts.Valid() && loop.restarts.seen == loop.told.Seen()
  {
  }

  method WatchFromCurrentState(w: Windows, restarts: RestartObservations, clock: int, s: Session, ghost eval: Evaluator)
    returns (end: End, now: int, ghost p: Progress)
    requires restarts.Valid() && Faithful(eval)
    modifies restarts
    ensures p == SessionRun(w, eval, old(restarts.seen), clock, s)
    ensures end == p.end && now == p.h.clock
    ensures end.Relist? || end.Waiting? ==> restarts.Valid() && restarts.seen == p.h.Seen()
  {
    ghost var seen := restarts.seen;
    if s.listing.Err? {
      p := Progress(Failed(s.listing.error), History(seen, [], map[], clock + s.delay));
      return Failed(s.listing.error), clock + s.delay, p;
    }
    hide AfterTick, SessionRun, Deliveries, Faithful, IndexOf, History.Seen,
         RestartObservations.Valid, Loop.ValidButFor;
    var loop := new Loop(w, restarts, clock + s.delay, s.listing.value, eval);
    end := loop.HandleTick(s.first, false);
    p := Progress(end, loop.told);
    SessionAfterFirst(w, eval, seen, clock, s, p);
    if end.Waiting? || end.Relist? {
      ObservationsFit(loop);
    }
    if !end.Waiting? {
      return end, loop.clock, p;
    }
    if s.startError.Some? {
      p := Progress(Failed(s.startError.value), p.h);
      return Failed(s.startError.value), loop.clock, p;
    }
    end := loop.Follow(s.events);
    p := Progress(end, loop.told);
    if end.Waiting? || end.Relist? {
      ObservationsFit(loop);
    }
    return end, loop.clock, p;
  }

  /** The relist loop: one set of restart observations for all sessions. */
  method Watch(overrides: Overrides, sessions: seq<Session>) returns (end: End)
    ensures end == WatchRun(WindowsOf(overrides), Evaluate, [], 0, sessions).end
  {
    var w := WindowsOf(overrides);
    var restarts := new RestartObservations();
    var clock := 0;
    for i := 0 to |sessions|
      invariant restarts.Valid()
      invariant WatchRun(w, Evaluate, [], 0, sessions).end ==
                WatchRun(w, Evaluate, restarts.seen, clock, sessions[i..]).end
    {
      assert sessions[i..][0] == sessions[i] && sessions[i..][1..] == sessions[i + 1..];
      ghost var p;
      end, clock, p := WatchFromCurrentState(w, restarts, clock, sessions[i], Evaluate);
      if !end.Relist? {
        return;
      }
    }
    return Waiting;
  }
}
