/**
 A rolling update over topology domains: the moves of Rollouts.dfy, with a new pod placed in
 a domain only when the spread or anti-affinity rule of Placement.dfy permits it there. Old and
 new pods carry the same labels, so both count.
 */
module DomainRollouts {
  import opened Base
  import Rollouts
  import Placement

  type Counts = Placement.Counts

  /** Old and placed new pods by domain, new ones still without a node, and how many new ones are available. */
  datatype Fleet = Fleet(former: Counts, started: Counts, waiting: nat, ready: nat)

  datatype Action = Create | Place(domain: nat) | BecomeReady | Retire(domain: nat)

  function Total(f: Fleet): (c: Counts)
    requires |f.former| == |f.started|
    ensures |c| == |f.former| && forall d :: 0 <= d < |c| ==> c[d] == f.former[d] + f.started[d]
  {
    seq(|f.former|, d requires 0 <= d < |f.former| && |f.former| == |f.started| => f.former[d] + f.started[d])
  }

  predicate WellFormed(topo: Placement.Topology, f: Fleet) {
    |f.former| == |f.started| == topo.domains && f.ready <= Placement.Sum(f.started)
  }

  /** The same state without the domains. */
  function PodsOf(f: Fleet): Rollouts.Pods
    requires f.ready <= Placement.Sum(f.started)
  {
    Rollouts.Pods(Placement.Sum(f.former), f.waiting, Placement.Sum(f.started) - f.ready, f.ready)
  }

  /** The terms of a rollout whose only bound on running pods is the rule. */
  function TermsOf(rule: Placement.Rule, topo: Placement.Topology, replicas: nat, surge: nat, maxUnavailable: nat):
    Rollouts.Terms
    requires Placement.Sensible(rule, topo)
  {
    var capacity := Placement.Capacity(rule, topo);
    CapacityIsNatural(rule, topo);
    Rollouts.Terms(replicas, surge, maxUnavailable, if capacity.Some? then Some(capacity.value) else None)
  }

  lemma CapacityIsNatural(rule: Placement.Rule, topo: Placement.Topology)
    requires Placement.Sensible(rule, topo)
    ensures Placement.Capacity(rule, topo).Some? ==> Placement.Capacity(rule, topo).value >= 0
  {
  }

  function MoveOf(a: Action): Rollouts.Move {
    match a
    case Create => Rollouts.Create
    case Place(_) => Rollouts.Place
    case BecomeReady => Rollouts.BecomeReady
    case Retire(_) => Rollouts.Retire
  }

  /** The rule decides where a pod may be placed; the strategy decides the rest. */
  predicate Enabled(rule: Placement.Rule, topo: Placement.Topology, t: Rollouts.Terms, f: Fleet, a: Action)
    requires WellFormed(topo, f)
  {
    match a
    case Create => Rollouts.Enabled(t, PodsOf(f), Rollouts.Create)
    case Place(d) => f.waiting > 0 && Placement.Enabled(rule, topo, Total(f), Placement.Place(d))
    case BecomeReady => f.ready < Placement.Sum(f.started)
    case Retire(d) => d < |f.former| && f.former[d] > 0 && Rollouts.Enabled(t, PodsOf(f), Rollouts.Retire)
  }

  function Acted(rule: Placement.Rule, topo: Placement.Topology, t: Rollouts.Terms, f: Fleet, a: Action): (next: Fleet)
    requires WellFormed(topo, f) && Enabled(rule, topo, t, f, a)
    ensures WellFormed(topo, next)
  {
    match a
    case Create => f.(waiting := f.waiting + 1)
    case Place(d) =>
      Placement.SumOfUpdate(f.started, d, f.started[d] + 1);
      f.(waiting := f.waiting - 1, started := f.started[d := f.started[d] + 1])
    case BecomeReady => f.(ready := f.ready + 1)
    case Retire(d) => f.(former := f.former[d := f.former[d] - 1])
  }

  function Begin(topo: Placement.Topology, start: Counts): Fleet {
    Fleet(start, Placement.Empty(topo.domains), 0, 0)
  }

  /** The state after some actions on a placed old version, if each was enabled in turn. */
  function After(rule: Placement.Rule, topo: Placement.Topology, t: Rollouts.Terms, start: Counts,
                 actions: seq<Action>):
    (f: Option<Fleet>)
    requires |start| == topo.domains
    ensures f.Some? ==> WellFormed(topo, f.value)
  {
    if actions == [] then Some(Begin(topo, start))
    else
      var f := After(rule, topo, t, start, actions[..|actions| - 1]);
      if f.Some? && Enabled(rule, topo, t, f.value, actions[|actions| - 1])
      then Some(Acted(rule, topo, t, f.value, actions[|actions| - 1]))
      else None
  }

  /** The old version as the rule lets it be placed. */
  ghost predicate Starts(rule: Placement.Rule, topo: Placement.Topology, replicas: nat, start: Counts) {
    Placement.Reachable(rule, topo, start) && Placement.Sum(start) == replicas && |start| == topo.domains
  }

  ghost predicate Finishes(rule: Placement.Rule, topo: Placement.Topology, t: Rollouts.Terms, start: Counts)
    requires |start| == topo.domains
  {
    exists actions :: After(rule, topo, t, start, actions).Some?
                      && Rollouts.Done(t, PodsOf(After(rule, topo, t, start, actions).value))
  }

  /** Whatever order the actions come in: a run is over after four per replica, and never stranded before. */
  ghost predicate AlwaysFinishes(rule: Placement.Rule, topo: Placement.Topology, t: Rollouts.Terms, start: Counts)
    requires |start| == topo.domains
  {
    forall actions :: After(rule, topo, t, start, actions).Some? ==> NotStranded(rule, topo, t, start, actions)
  }

  ghost predicate NotStranded(rule: Placement.Rule, topo: Placement.Topology, t: Rollouts.Terms, start: Counts,
                              actions: seq<Action>)
    requires |start| == topo.domains && After(rule, topo, t, start, actions).Some?
  {
    var f := After(rule, topo, t, start, actions).value;
    && |actions| <= 4 * t.replicas
    && (Rollouts.Done(t, PodsOf(f)) || exists a :: Enabled(rule, topo, t, f, a))
  }

  // ----- Each action is a move, and a step of the placement -----

  lemma {:induction false} SumOfTotal(f: Fleet)
    requires |f.former| == |f.started|
    ensures Placement.Sum(Total(f)) == Placement.Sum(f.former) + Placement.Sum(f.started)
    decreases |f.former|
  {
    if f.former != [] {
      var init := f.(former := f.former[..|f.former| - 1], started := f.started[..|f.started| - 1]);
      SumOfTotal(init);
      hide Placement.Capacity;
      assert Total(f)[..|f.former| - 1] == Total(init);
    }
  }

  lemma ActionIsMove(rule: Placement.Rule, topo: Placement.Topology, t: Rollouts.Terms, f: Fleet, a: Action)
    requires Placement.Sensible(rule, topo) && WellFormed(topo, f) && Enabled(rule, topo, t, f, a)
    requires t == TermsOf(rule, topo, t.replicas, t.surge, t.maxUnavailable)
    requires Placement.Reachable(rule, topo, Total(f))
    ensures Rollouts.Enabled(t, PodsOf(f), MoveOf(a))
    ensures Rollouts.Moved(t, PodsOf(f), MoveOf(a)) == PodsOf(Acted(rule, topo, t, f, a))
  {
    hide Placement.Sum, Placement.Capacity;
    match a
    case Create =>
    case Place(d) =>
      PlaceNeedsRoom(rule, topo, t, f, d);
      Placement.SumOfUpdate(f.started, d, f.started[d] + 1);
    case BecomeReady =>
    case Retire(d) =>
      Placement.SumOfUpdate(f.former, d, f.former[d] - 1);
  }

  lemma PlaceNeedsRoom(rule: Placement.Rule, topo: Placement.Topology, t: Rollouts.Terms, f: Fleet, d: nat)
    requires Placement.Sensible(rule, topo) && WellFormed(topo, f) && Enabled(rule, topo, t, f, Place(d))
    requires t == TermsOf(rule, topo, t.replicas, t.surge, t.maxUnavailable)
    requires Placement.Reachable(rule, topo, Total(f))
    ensures Rollouts.Enabled(t, PodsOf(f), Rollouts.Place)
  {
    hide Placement.Sum, Placement.Capacity, Placement.Permits;
    SumOfTotal(f);
    Placement.RoomUntilCapacity(rule, topo, Total(f));
    assert d < |Total(f)| && Placement.Enabled(rule, topo, Total(f), Placement.Place(d));
  }

  lemma OneStep(rule: Placement.Rule, topo: Placement.Topology, c: Counts, step: Placement.Step)
    requires Placement.Reachable(rule, topo, c) && Placement.Enabled(rule, topo, c, step)
    ensures Placement.Reachable(rule, topo, Placement.Taken(rule, topo, c, step))
  {
    var steps :| Placement.After(rule, topo, steps) == Some(c);
    Placement.OneMoreStep(rule, topo, steps, step);
  }

  lemma ActionIsStep(rule: Placement.Rule, topo: Placement.Topology, t: Rollouts.Terms, f: Fleet, a: Action)
    requires WellFormed(topo, f) && Enabled(rule, topo, t, f, a) && Placement.Reachable(rule, topo, Total(f))
    ensures Placement.Reachable(rule, topo, Total(Acted(rule, topo, t, f, a)))
  {
    hide Placement.Reachable, Placement.Sum, Placement.Permits, Placement.Capacity, Rollouts.Enabled;
    match a
    case Create =>
      SameTotal(f, Acted(rule, topo, t, f, a));
    case Place(d) =>
      OneStep(rule, topo, Total(f), Placement.Place(d));
      assert Total(Acted(rule, topo, t, f, a)) == Total(f)[d := Total(f)[d] + 1];
    case BecomeReady =>
      SameTotal(f, Acted(rule, topo, t, f, a));
    case Retire(d) =>
      OneStep(rule, topo, Total(f), Placement.Delete(d));
      assert Total(Acted(rule, topo, t, f, a)) == Total(f)[d := Total(f)[d] - 1];
  }

  lemma SameTotal(f: Fleet, g: Fleet)
    requires |f.former| == |f.started| && f.former == g.former && f.started == g.started
    ensures Total(f) == Total(g)
  {
  }

  /** A run over domains is a run of the plain rollout, through placements the rule can reach. */
  lemma {:induction false} RunIsPlainRun(rule: Placement.Rule, topo: Placement.Topology, t: Rollouts.Terms,
                                         start: Counts,
                                         actions: seq<Action>)
    returns (moves: seq<Rollouts.Move>)
    requires Placement.Sensible(rule, topo) && Starts(rule, topo, t.replicas, start)
    requires t == TermsOf(rule, topo, t.replicas, t.surge, t.maxUnavailable)
    requires After(rule, topo, t, start, actions).Some?
    ensures |moves| == |actions|
    ensures Rollouts.After(t, moves) == Some(PodsOf(After(rule, topo, t, start, actions).value))
    ensures Placement.Reachable(rule, topo, Total(After(rule, topo, t, start, actions).value))
  {
    if actions == [] {
      Placement.EmptySum(topo.domains);
      assert Total(Begin(topo, start)) == start;
      return [];
    }
    var a, f := actions[|actions| - 1], After(rule, topo, t, start, actions[..|actions| - 1]).value;
    var before := RunIsPlainRun(rule, topo, t, start, actions[..|actions| - 1]);
    ActionIsMove(rule, topo, t, f, a);
    ActionIsStep(rule, topo, t, f, a);
    moves := before + [MoveOf(a)];
    assert moves[..|before|] == before;
  }

  // ----- It finishes unless it deadlocks -----

  lemma {:induction false} SomePodSomewhere(c: Counts) returns (d: nat)
    requires Placement.Sum(c) > 0
    ensures d < |c| && c[d] > 0
  {
    if c[|c| - 1] > 0 {
      d := |c| - 1;
    } else {
      d := SomePodSomewhere(c[..|c| - 1]);
    }
  }

  lemma PlaceHasDomain(rule: Placement.Rule, topo: Placement.Topology, t: Rollouts.Terms, f: Fleet) returns (d: nat)
    requires Placement.Sensible(rule, topo) && WellFormed(topo, f)
    requires t == TermsOf(rule, topo, t.replicas, t.surge, t.maxUnavailable)
    requires Placement.Reachable(rule, topo, Total(f)) && Rollouts.Enabled(t, PodsOf(f), Rollouts.Place)
    ensures Enabled(rule, topo, t, f, Place(d))
  {
    hide Placement.Sum, Placement.Capacity, Placement.Permits, Placement.Reachable;
    SumOfTotal(f);
    Placement.RoomUntilCapacity(rule, topo, Total(f));
    d :| d < |Total(f)| && Placement.Enabled(rule, topo, Total(f), Placement.Place(d));
  }

  lemma RetireHasDomain(rule: Placement.Rule, topo: Placement.Topology, t: Rollouts.Terms, f: Fleet) returns (d: nat)
    requires WellFormed(topo, f) && Rollouts.Enabled(t, PodsOf(f), Rollouts.Retire)
    ensures Enabled(rule, topo, t, f, Retire(d))
  {
    hide Placement.Sum, Placement.Capacity, Placement.Permits, Placement.Reachable;
    d := SomePodSomewhere(f.former);
  }

  /** What the plain rollout can do next, some domain lets it do. */
  lemma MoveHasAction(rule: Placement.Rule, topo: Placement.Topology, t: Rollouts.Terms, f: Fleet, m: Rollouts.Move)
    returns (a: Action)
    requires Placement.Sensible(rule, topo) && WellFormed(topo, f)
    requires t == TermsOf(rule, topo, t.replicas, t.surge, t.maxUnavailable)
    requires Placement.Reachable(rule, topo, Total(f)) && Rollouts.Enabled(t, PodsOf(f), m)
    ensures Enabled(rule, topo, t, f, a)
  {
    hide Placement.Sum, Placement.Capacity, Placement.Permits, Placement.Reachable, TermsOf, Placement.Enabled;
    match m
    case Create => a := Create;
    case Place =>
      var d := PlaceHasDomain(rule, topo, t, f);
      a := Place(d);
    case BecomeReady => a := BecomeReady;
    case Retire =>
      var d := RetireHasDomain(rule, topo, t, f);
      a := Retire(d);
  }

  lemma OneMoreAction(rule: Placement.Rule, topo: Placement.Topology, t: Rollouts.Terms, start: Counts,
                      actions: seq<Action>, a: Action)
    requires |start| == topo.domains && After(rule, topo, t, start, actions).Some?
    requires Enabled(rule, topo, t, After(rule, topo, t, start, actions).value, a)
    ensures After(rule, topo, t, start, actions + [a]) ==
            Some(Acted(rule, topo, t, After(rule, topo, t, start, actions).value, a))
  {
    assert (actions + [a])[..|actions|] == actions;
  }

  lemma NeverStranded(rule: Placement.Rule, topo: Placement.Topology, t: Rollouts.Terms, start: Counts,
                      actions: seq<Action>)
    requires Placement.Sensible(rule, topo) && Starts(rule, topo, t.replicas, start)
    requires t == TermsOf(rule, topo, t.replicas, t.surge, t.maxUnavailable)
    requires Rollouts.Starts(t) && !Rollouts.Deadlocks(t)
    requires After(rule, topo, t, start, actions).Some?
    ensures NotStranded(rule, topo, t, start, actions)
  {
    var f := After(rule, topo, t, start, actions).value;
    var moves := RunIsPlainRun(rule, topo, t, start, actions);
    Rollouts.RunKeeps(t, moves);
    hide After, Enabled, Rollouts.After, Rollouts.Enabled, Rollouts.Deadlocks, Placement.Reachable, TermsOf, Starts;
    if !Rollouts.Done(t, PodsOf(f)) {
      Rollouts.NeverStuck(t, PodsOf(f));
      var m :| Rollouts.Enabled(t, PodsOf(f), m);
      var a := MoveHasAction(rule, topo, t, f, m);
    }
  }

  /** A rollout that is never stranded can be run to its end. */
  lemma {:induction false} Completes(rule: Placement.Rule, topo: Placement.Topology, t: Rollouts.Terms, start: Counts,
                                     actions: seq<Action>)
    requires |start| == topo.domains && AlwaysFinishes(rule, topo, t, start)
    requires After(rule, topo, t, start, actions).Some?
    ensures Finishes(rule, topo, t, start)
    decreases 4 * t.replicas - |actions|
  {
    hide After, Enabled;
    assert NotStranded(rule, topo, t, start, actions);
    var f := After(rule, topo, t, start, actions).value;
    if !Rollouts.Done(t, PodsOf(f)) {
      var a :| Enabled(rule, topo, t, f, a);
      OneMoreAction(rule, topo, t, start, actions, a);
      assert NotStranded(rule, topo, t, start, actions + [a]);
      Completes(rule, topo, t, start, actions + [a]);
    }
  }

  /**
   Under a spread or anti-affinity rule, a rolling update of a placed workload finishes, whatever the
   order of its actions, exactly unless it may lose no pod and the domains hold exactly the desired
   count; and in that deadlock no new pod is ever placed, no old one ever goes, and no order finishes.
   */
  lemma FinishesUnlessDeadlocked(rule: Placement.Rule, topo: Placement.Topology, t: Rollouts.Terms, start: Counts)
    requires Placement.Sensible(rule, topo) && Starts(rule, topo, t.replicas, start)
    requires t == TermsOf(rule, topo, t.replicas, t.surge, t.maxUnavailable)
    requires t.replicas >= 1 && t.surge + t.maxUnavailable >= 1
    ensures AlwaysFinishes(rule, topo, t, start) <==>
            !(t.maxUnavailable == 0 && Placement.Capacity(rule, topo) == Some(t.replicas))
    ensures Finishes(rule, topo, t, start) <==> AlwaysFinishes(rule, topo, t, start)
    ensures Rollouts.Deadlocks(t) ==>
              forall actions :: After(rule, topo, t, start, actions).Some? ==>
                Placement.Sum(After(rule, topo, t, start, actions).value.started) == 0
                && Placement.Sum(After(rule, topo, t, start, actions).value.former) == t.replicas
  {
    hide NotStranded;
    Placement.CapacityIsExact(rule, topo, t.replicas);
    assert Placement.Hosts(rule, topo, t.replicas);
    assert After(rule, topo, t, start, []).Some?;
    if Rollouts.Deadlocks(t) {
      forall actions | After(rule, topo, t, start, actions).Some?
        ensures Placement.Sum(After(rule, topo, t, start, actions).value.started) == 0
        ensures Placement.Sum(After(rule, topo, t, start, actions).value.former) == t.replicas
      {
        var moves := RunIsPlainRun(rule, topo, t, start, actions);
        Rollouts.DeadlockPersists(t, moves);
      }
      assert !Finishes(rule, topo, t, start);
      if AlwaysFinishes(rule, topo, t, start) {
        Completes(rule, topo, t, start, []);
      }
    } else {
      forall actions | After(rule, topo, t, start, actions).Some?
        ensures NotStranded(rule, topo, t, start, actions)
      {
        NeverStranded(rule, topo, t, start, actions);
      }
      Completes(rule, topo, t, start, []);
    }
  }
}
