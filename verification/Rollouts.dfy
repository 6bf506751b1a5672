/**
 Update strategies, absolute-or-percentage counts (internal/workload/workload.go,
 surgeCount in internal/check/quota.go), and what the Deployment controller does with
 them, as steps over old and new pods.
 */
module Rollouts {
  import opened Base

  // ----- Counts given as a number or a percentage -----

  datatype IntOrPercent = Count(n: int) | Percent(p: int) | Malformed

  function Floor(p: int, total: int): int {
    p * total / 100
  }

  function Ceil(p: int, total: int): int {
    -(-(p * total) / 100)
  }

  /** The percentage of `total` as a whole number; a plain number is taken as it is. */
  function Scaled(v: IntOrPercent, total: int, roundUp: bool): Option<int> {
    match v
    case Count(n) => Some(n)
    case Percent(p) => Some(if roundUp then Ceil(p, total) else Floor(p, total))
    case Malformed => None
  }

  /** Ceil is the least whole number not below the percentage, Floor the greatest not above it. */
  lemma RoundsToNearest(p: int, total: int, n: int)
    ensures n >= Ceil(p, total) <==> 100 * n >= p * total
    ensures n <= Floor(p, total) <==> 100 * n <= p * total
  {
    var x := p * total;
    assert x == 100 * (x / 100) + x % 100 && -x == 100 * (-x / 100) + (-x) % 100;
  }

  // ----- Strategies -----

  datatype StrategyType = RollingUpdate | Recreate | OnDelete

  datatype Strategy = Strategy(kind: StrategyType, maxUnavailable: Option<IntOrPercent>, maxSurge: Option<IntOrPercent>)

  datatype RollingUpdateSpec = RollingUpdateSpec(maxUnavailable: Option<IntOrPercent>, maxSurge: Option<IntOrPercent>)

  const DEFAULT_MAX_UNAVAILABLE := Percent(25)
  const DEFAULT_MAX_SURGE := Percent(25)
  const DEFAULT_REPLICAS := 1

  datatype DeploymentSpec = DeploymentSpec(
    replicas: Option<nat>, strategy: Option<StrategyType>, rollingUpdate: Option<RollingUpdateSpec>)

  function Replicas(d: DeploymentSpec): nat {
    if d.replicas.None? then DEFAULT_REPLICAS else d.replicas.value
  }

  /** Recreate has neither bound; every other strategy of a Deployment has both. */
  function UpdateStrategyOf(d: DeploymentSpec): (s: Strategy)
    ensures s.kind.Recreate? ==> s.maxSurge.None? && s.maxUnavailable.None?
    ensures s.kind.RollingUpdate? ==> s.maxSurge.Some? && s.maxUnavailable.Some?
  {
    if d.strategy == Some(Recreate) then Strategy(Recreate, None, None)
    else
      var ru := d.rollingUpdate;
      Strategy(RollingUpdate,
               if ru.Some? && ru.value.maxUnavailable.Some? then ru.value.maxUnavailable
               else Some(DEFAULT_MAX_UNAVAILABLE),
               if ru.Some? && ru.value.maxSurge.Some? then ru.value.maxSurge else Some(DEFAULT_MAX_SURGE))
  }

  /** Each bound a Deployment gives is taken as given, each it leaves out is 25%; without a count it has one replica. */
  lemma GivenBoundsAreTaken(d: DeploymentSpec)
    requires d.strategy != Some(Recreate)
    ensures var s := UpdateStrategyOf(d);
            var given := if d.rollingUpdate.Some? then d.rollingUpdate.value else RollingUpdateSpec(None, None);
            && s.kind == RollingUpdate
            && s.maxSurge == Some(match given.maxSurge case Some(v) => v case None => Percent(25))
            && s.maxUnavailable == Some(match given.maxUnavailable case Some(v) => v case None => Percent(25))
    ensures Replicas(d) == match d.replicas case Some(n) => n case None => 1
  {
  }

  /** Pods a rolling update may create above the desired count; None when there are none to speak of. */
  function SurgeCount(s: Strategy, replicas: nat): Option<int> {
    if !s.kind.RollingUpdate? || s.maxSurge.None? then None
    else
      var v := Scaled(s.maxSurge.value, replicas, true);
      if v.None? || v.value <= 0 then None else v
  }

  function MaxUnavailableCount(s: Strategy, replicas: nat): Option<int> {
    if s.maxUnavailable.None? then None else Scaled(s.maxUnavailable.value, replicas, false)
  }

  /** The default bounds let one to three replicas surge by one and lose none. */
  lemma DefaultsForSmallDeployments(d: DeploymentSpec)
    requires d.strategy != Some(Recreate) && d.rollingUpdate.None? && 1 <= Replicas(d) <= 3
    ensures SurgeCount(UpdateStrategyOf(d), Replicas(d)) == Some(1)
    ensures MaxUnavailableCount(UpdateStrategyOf(d), Replicas(d)) == Some(0)
  {
  }

  // ----- A rolling update, step by step -----

  /** What bounds the rollout; `capacity` is how many pods the nodes can hold at once. */
  datatype Terms = Terms(replicas: nat, surge: nat, maxUnavailable: nat, capacity: Option<nat>)

  /** Old pods (all available), and new ones: waiting for a node, placed but not ready, available. */
  datatype Pods = Pods(former: nat, waiting: nat, starting: nat, ready: nat) {
    function Placed(): nat { former + starting + ready }
    function New(): nat { waiting + starting + ready }
  }

  datatype Move = Create | Place | BecomeReady | Retire

  predicate Enabled(t: Terms, s: Pods, m: Move) {
    match m
    case Create => s.New() < t.replicas && s.former + s.New() < t.replicas + t.surge
    case Place => s.waiting > 0 && (t.capacity.Some? ==> s.Placed() < t.capacity.value)
    case BecomeReady => s.starting > 0
    case Retire => s.former > 0 && s.former + s.ready - 1 >= t.replicas - t.maxUnavailable
  }

  function Moved(t: Terms, s: Pods, m: Move): Pods
    requires Enabled(t, s, m)
  {
    match m
    case Create => s.(waiting := s.waiting + 1)
    case Place => s.(waiting := s.waiting - 1, starting := s.starting + 1)
    case BecomeReady => s.(starting := s.starting - 1, ready := s.ready + 1)
    case Retire => s.(former := s.former - 1)
  }

  function Begin(t: Terms): Pods {
    Pods(t.replicas, 0, 0, 0)
  }

  predicate Done(t: Terms, s: Pods) {
    s == Pods(0, 0, 0, t.replicas)
  }

  /** The state after some moves, if each was enabled in turn. */
  function After(t: Terms, moves: seq<Move>): Option<Pods> {
    if moves == [] then Some(Begin(t))
    else
      var s := After(t, moves[..|moves| - 1]);
      if s.Some? && Enabled(t, s.value, moves[|moves| - 1]) then Some(Moved(t, s.value, moves[|moves| - 1])) else None
  }

  ghost predicate Reachable(t: Terms, s: Pods) {
    exists moves :: After(t, moves) == Some(s)
  }

  ghost predicate CanFinish(t: Terms) {
    exists s :: Reachable(t, s) && Done(t, s)
  }

  /** The cluster holds the old version, and the strategy allows some replacement. */
  predicate Starts(t: Terms) {
    t.replicas >= 1 && t.surge + t.maxUnavailable >= 1 && (t.capacity.Some? ==> t.capacity.value >= t.replicas)
  }

  predicate Keeps(t: Terms, s: Pods) {
    && s.former <= t.replicas && s.New() <= t.replicas
    && (t.capacity.Some? ==> s.Placed() <= t.capacity.value)
    && s.former + s.ready >= t.replicas - t.maxUnavailable
  }

  /** Moves still to make; every move is one of them. */
  function Left(t: Terms, s: Pods): int {
    s.former + 3 * t.replicas - 3 * s.ready - 2 * s.starting - s.waiting
  }

  lemma {:induction false} RunKeeps(t: Terms, moves: seq<Move>)
    requires Starts(t) && After(t, moves).Some?
    ensures Keeps(t, After(t, moves).value)
    ensures Left(t, After(t, moves).value) == 4 * t.replicas - |moves|
  {
    if moves != [] {
      RunKeeps(t, moves[..|moves| - 1]);
    }
  }

  /** The one deadlock: no room beyond the desired count, and no pod may go before its successor is ready. */
  predicate Deadlocks(t: Terms) {
    t.maxUnavailable == 0 && t.capacity == Some(t.replicas)
  }

  /** In a deadlocked rollout no new pod ever runs and no old one ever goes. */
  lemma {:induction false} DeadlockPersists(t: Terms, moves: seq<Move>)
    requires Deadlocks(t) && After(t, moves).Some?
    ensures After(t, moves).value.former == t.replicas
    ensures After(t, moves).value.starting == 0 && After(t, moves).value.ready == 0
  {
    if moves != [] {
      DeadlockPersists(t, moves[..|moves| - 1]);
    }
  }

  /** Otherwise some move is always enabled until the rollout is done. */
  lemma NeverStuck(t: Terms, s: Pods)
    requires Starts(t) && !Deadlocks(t) && Keeps(t, s) && !Done(t, s)
    ensures exists m :: Enabled(t, s, m)
  {
    if s.starting > 0 {
      assert Enabled(t, s, BecomeReady);
    } else if Enabled(t, s, Place) {
    } else if Enabled(t, s, Create) {
    } else {
      assert Enabled(t, s, Retire);
    }
  }

  lemma {:induction false} Finishes(t: Terms, moves: seq<Move>) returns (all: seq<Move>)
    requires Starts(t) && !Deadlocks(t) && After(t, moves).Some?
    ensures After(t, all).Some? && Done(t, After(t, all).value)
    decreases 4 * t.replicas - |moves|
  {
    RunKeeps(t, moves);
    var s := After(t, moves).value;
    if Done(t, s) {
      return moves;
    }
    NeverStuck(t, s);
    var m :| Enabled(t, s, m);
    assert (moves + [m])[..|moves|] == moves;
    RunKeeps(t, moves + [m]);
    assert Left(t, After(t, moves + [m]).value) >= 0;
    all := Finishes(t, moves + [m]);
  }

  /**
   A rolling update can finish unless it deadlocks; and then it does finish, whatever the
   order of its moves: a run is over after four moves per replica, and it never gets stuck before.
   */
  lemma FinishesUnlessDeadlocked(t: Terms)
    requires Starts(t)
    ensures CanFinish(t) <==> !Deadlocks(t)
    ensures !Deadlocks(t) ==>
              forall moves :: After(t, moves).Some? ==>
                |moves| <= 4 * t.replicas
                && (Done(t, After(t, moves).value) || exists m :: Enabled(t, After(t, moves).value, m))
  {
    if Deadlocks(t) {
      forall moves | After(t, moves).Some?
        ensures !Done(t, After(t, moves).value)
      {
        DeadlockPersists(t, moves);
      }
    } else {
      var all := Finishes(t, []);
      assert Reachable(t, After(t, all).value);
      forall moves | After(t, moves).Some?
        ensures |moves| <= 4 * t.replicas
        ensures Done(t, After(t, moves).value) || exists m :: Enabled(t, After(t, moves).value, m)
      {
        RunKeeps(t, moves);
        if !Done(t, After(t, moves).value) {
          NeverStuck(t, After(t, moves).value);
        }
      }
    }
  }

  /** Too few places for the desired count: whatever was running before, no rollout ever finishes. */
  lemma BelowDemandNeverFinishes(t: Terms)
    requires t.capacity.Some? && t.capacity.value < t.replicas
    ensures !CanFinish(t)
  {
    forall moves | After(t, moves).Some?
      ensures !Done(t, After(t, moves).value)
    {
      NewPodsFit(t, moves);
    }
  }

  lemma {:induction false} NewPodsFit(t: Terms, moves: seq<Move>)
    requires t.capacity.Some? && After(t, moves).Some?
    ensures var s := After(t, moves).value; s.starting + s.ready > 0 ==> s.Placed() <= t.capacity.value
  {
    if moves != [] {
      NewPodsFit(t, moves[..|moves| - 1]);
    }
  }

  /** For every capacity: a rolling update can finish unless it deadlocks or lacks room for the desired count. */
  lemma CanFinishExactly(t: Terms)
    requires t.replicas >= 1 && t.surge + t.maxUnavailable >= 1
    ensures CanFinish(t) <==> !Deadlocks(t) && (t.capacity.Some? ==> t.capacity.value >= t.replicas)
  {
    if t.capacity.Some? && t.capacity.value < t.replicas {
      BelowDemandNeverFinishes(t);
    } else {
      FinishesUnlessDeadlocked(t);
    }
  }
}
