/**
 Restart counts of containers, as the watch loop collects, compares and
 remembers them (internal/diagnose/watch.go). The running map and its flag are
 proved against the whole sequence of pod snapshots they were fed.
 */
module Restarts {
  import opened Base

  type Uid = string

  datatype ContainerStatus = ContainerStatus(name: string, restarts: int)

  datatype Pod = Pod(uid: Uid, name: string, containers: seq<ContainerStatus>, inits: seq<ContainerStatus>)

  datatype Key = Key(pod: Uid, podName: string, container: string, init: bool)

  type Snapshot = map<Uid, Pod>

  type Counts = map<Key, int>

  /** Every pod sits under its own UID: what indexing a List and applying events keep. */
  predicate Indexed(pods: Snapshot) {
    forall u :: u in pods ==> pods[u].uid == u
  }

  /** The count reported for a container name; a repeated name is overwritten by its last entry. */
  function Reported(statuses: seq<ContainerStatus>, name: string): Option<int> {
    if statuses == [] then None
    else
      var last := statuses[|statuses| - 1];
      if last.name == name then Some(last.restarts) else Reported(statuses[..|statuses| - 1], name)
  }

  /** The restart count a snapshot shows for a container, if it shows one. */
  function CountOf(pods: Snapshot, k: Key): Option<int> {
    if k.pod in pods && pods[k.pod].name == k.podName
    then Reported(if k.init then pods[k.pod].inits else pods[k.pod].containers, k.container)
    else None
  }

  /** A counts map that holds exactly what the snapshot shows. */
  ghost predicate Reflects(counts: Counts, pods: Snapshot) {
    forall k: Key :: Lookup(counts, k) == CountOf(pods, k)
  }

  /** Some container of the earlier snapshot shows a higher count in the later one. */
  ghost predicate Rose(earlier: Snapshot, later: Snapshot) {
    exists k: Key :: RoseFor(earlier, later, k)
  }

  ghost predicate RoseFor(earlier: Snapshot, later: Snapshot, k: Key) {
    CountOf(earlier, k).Some? && CountOf(later, k).Some? && CountOf(earlier, k).value < CountOf(later, k).value
  }

  ghost predicate AnyRestarted(pods: Snapshot) {
    exists k: Key :: CountOf(pods, k).Some? && CountOf(pods, k).value > 0
  }

  /** Some container was ever seen with a higher count than in some earlier snapshot. */
  ghost predicate IncreaseSeen(seen: seq<Snapshot>) {
    exists i, j, k: Key :: 0 <= i < j < |seen| && RoseFor(seen[i], seen[j], k)
  }

  /** The most recent count seen for a container. */
  ghost function LastCount(seen: seq<Snapshot>, k: Key): Option<int> {
    if seen == [] then None
    else if CountOf(seen[|seen| - 1], k).Some? then CountOf(seen[|seen| - 1], k)
    else LastCount(seen[..|seen| - 1], k)
  }

  // ----- Building and updating snapshots -----

  /** What one pod watch event carries: an object that is no pod, a removal, or a new version. */
  datatype PodEvent = NotAPod | Deleted(pod: Pod) | Stored(pod: Pod)

  function AfterEvent(pods: Snapshot, ev: PodEvent): (after: Snapshot)
    requires Indexed(pods)
    ensures Indexed(after)
  {
    match ev
    case NotAPod => pods
    case Deleted(pod) => pods - {pod.uid}
    case Stored(pod) => pods[pod.uid := pod]
  }

  /** The map a List becomes: each UID holds the last pod listed with it. */
  function IndexOf(items: seq<Pod>): (pods: Snapshot)
    ensures Indexed(pods)
    ensures forall p :: p in items ==> p.uid in pods
    ensures forall u :: u in pods ==> pods[u] in items
    ensures items != [] ==> pods[items[|items| - 1].uid] == items[|items| - 1]
  {
    if items == [] then map[]
    else IndexOf(items[..|items| - 1])[items[|items| - 1].uid := items[|items| - 1]]
  }

  method IndexPods(items: seq<Pod>) returns (pods: Snapshot)
    ensures pods == IndexOf(items)
  {
    pods := map[];
    for i := 0 to |items|
      invariant pods == IndexOf(items[..i])
    {
      assert items[..i + 1][..i] == items[..i];
      pods := pods[items[i].uid := items[i]];
    }
    assert items[..|items|] == items;
  }

  /** The last entry of a container's name is the one that counts. */
  lemma {:induction false} LastEntryCounts(statuses: seq<ContainerStatus>, i: nat)
    requires i < |statuses| && forall j :: i < j < |statuses| ==> statuses[j].name != statuses[i].name
    ensures Reported(statuses, statuses[i].name) == Some(statuses[i].restarts)
  {
    if i < |statuses| - 1 {
      LastEntryCounts(statuses[..|statuses| - 1], i);
    }
  }

  lemma {:induction false} NoEntryNoCount(statuses: seq<ContainerStatus>, name: string)
    requires forall s :: s in statuses ==> s.name != name
    ensures Reported(statuses, name) == None
  {
    if statuses != [] {
      NoEntryNoCount(statuses[..|statuses| - 1], name);
    }
  }

  /** A count is read off the pod of that UID, if its name is the same, among its init or its other containers. */
  lemma CountIs(pods: Snapshot, k: Key)
    ensures (k.pod in pods && pods[k.pod].name == k.podName && k.init) ==>
              CountOf(pods, k) == Reported(pods[k.pod].inits, k.container)
    ensures (k.pod in pods && pods[k.pod].name == k.podName && !k.init) ==>
              CountOf(pods, k) == Reported(pods[k.pod].containers, k.container)
    ensures CountOf(pods, k).Some? ==> k.pod in pods && pods[k.pod].name == k.podName
  {
  }

  /** An event is about one pod: removed it shows no count, stored it shows those of its new version. */
  lemma EventsConcernOnePod(pods: Snapshot, ev: PodEvent, k: Key)
    requires Indexed(pods)
    ensures ev.NotAPod? ==> CountOf(AfterEvent(pods, ev), k) == CountOf(pods, k)
    ensures ev.Deleted? && ev.pod.uid == k.pod ==> CountOf(AfterEvent(pods, ev), k) == None
    ensures ev.Stored? && ev.pod.uid == k.pod ==> CountOf(AfterEvent(pods, ev), k) == CountOf(map[k.pod := ev.pod], k)
    ensures !ev.NotAPod? && ev.pod.uid != k.pod ==> CountOf(AfterEvent(pods, ev), k) == CountOf(pods, k)
  {
  }

  /** The same of the pods themselves. */
  lemma EventsChangeOnePod(pods: Snapshot, ev: PodEvent, u: Uid)
    requires Indexed(pods)
    ensures Lookup(AfterEvent(pods, ev), u) ==
            if ev.Deleted? && ev.pod.uid == u then None
            else if ev.Stored? && ev.pod.uid == u then Some(ev.pod)
            else Lookup(pods, u)
  {
  }

  /** Of pods listed with the same UID the last one is kept. */
  lemma {:induction false} LastIsKept(items: seq<Pod>, i: nat)
    requires i < |items| && forall j :: i < j < |items| ==> items[j].uid != items[i].uid
    ensures Lookup(IndexOf(items), items[i].uid) == Some(items[i])
  {
    if i < |items| - 1 {
      LastIsKept(items[..|items| - 1], i);
    }
  }

  /** A rise is strict, for one container under one pod and name, and shown by both snapshots. */
  lemma RiseIs(earlier: Snapshot, later: Snapshot)
    ensures Rose(earlier, later) <==>
            exists k: Key, m, n :: CountOf(earlier, k) == Some(m) && CountOf(later, k) == Some(n) && m < n
  {
    hide CountOf;
    if k: Key :| RoseFor(earlier, later, k) {
      assert CountOf(earlier, k) == Some(CountOf(earlier, k).value);
      assert CountOf(later, k) == Some(CountOf(later, k).value);
    }
    if k: Key, m, n :| CountOf(earlier, k) == Some(m) && CountOf(later, k) == Some(n) && m < n {
      assert RoseFor(earlier, later, k);
    }
  }

  /** An increase is a rise from any snapshot to any later one. */
  lemma IncreaseIs(seen: seq<Snapshot>)
    ensures IncreaseSeen(seen) <==> exists i, j :: 0 <= i < j < |seen| && Rose(seen[i], seen[j])
  {
    hide RoseFor;
    if i, j :| 0 <= i < j < |seen| && Rose(seen[i], seen[j]) {
      var k: Key :| RoseFor(seen[i], seen[j], k);
    }
  }

  /** Some container restarted exactly when one shows a count of one or more. */
  lemma RestartedIs(pods: Snapshot)
    ensures AnyRestarted(pods) <==> exists k: Key, n :: CountOf(pods, k) == Some(n) && n >= 1
  {
    hide CountOf;
    if k: Key :| CountOf(pods, k).Some? && CountOf(pods, k).value > 0 {
      assert CountOf(pods, k) == Some(CountOf(pods, k).value);
    }
  }

  // ----- Collecting and comparing -----

  /** Walks the pods in whatever order the map yields them; the result does not depend on it. */
  method Collect(pods: Snapshot) returns (counts: Counts)
    requires Indexed(pods)
    ensures Reflects(counts, pods)
  {
    counts := map[];
    var rest := pods.Keys;
    while rest != {}
      invariant rest <= pods.Keys
      invariant forall k: Key :: Lookup(counts, k) == if k.pod in rest then None else CountOf(pods, k)
    {
      var u :| u in rest;
      var pod := pods[u];
      ghost var before := counts;
      for i := 0 to |pod.containers|
        invariant forall k: Key ::
                    Lookup(counts, k) ==
                    if k.pod == u && k.podName == pod.name && !k.init
                    then Reported(pod.containers[..i], k.container)
                    else Lookup(before, k)
      {
        assert pod.containers[..i + 1][..i] == pod.containers[..i];
        counts := counts[Key(pod.uid, pod.name, pod.containers[i].name, false) := pod.containers[i].restarts];
      }
      assert pod.containers[..|pod.containers|] == pod.containers;
      for i := 0 to |pod.inits|
        invariant forall k: Key ::
                    Lookup(counts, k) ==
                    if k.pod == u && k.podName == pod.name
                    then Reported(if k.init then pod.inits[..i] else pod.containers, k.container)
                    else Lookup(before, k)
      {
        assert pod.inits[..i + 1][..i] == pod.inits[..i];
        counts := counts[Key(pod.uid, pod.name, pod.inits[i].name, true) := pod.inits[i].restarts];
      }
      assert pod.inits[..|pod.inits|] == pod.inits;
      rest := rest - {u};
    }
  }

  method AnyRestartObserved(pods: Snapshot) returns (any: bool)
    requires Indexed(pods)
    ensures any <==> AnyRestarted(pods)
  {
    var counts := Collect(pods);
    any := exists k :: k in counts && counts[k] > 0;
    if any {
      var k :| k in counts && counts[k] > 0;
      assert Lookup(counts, k) == CountOf(pods, k);
    } else {
      forall k: Key | CountOf(pods, k).Some?
        ensures CountOf(pods, k).value <= 0
      {
        assert Lookup(counts, k) == CountOf(pods, k);
      }
    }
  }

  /** Only containers present in the baseline are compared. */
  method Increased(baseline: Counts, ghost basis: Snapshot, pods: Snapshot) returns (up: bool)
    requires Indexed(pods) && Reflects(baseline, basis)
    ensures up <==> Rose(basis, pods)
  {
    var current := Collect(pods);
    assert forall k: Key :: Lookup(baseline, k) == CountOf(basis, k);
    assert forall k: Key :: Lookup(current, k) == CountOf(pods, k);
    var rest := current.Keys;
    up := false;
    while rest != {}
      invariant rest <= current.Keys
      invariant !up
      invariant forall k :: k in current && k !in rest ==> !RoseFor(basis, pods, k)
    {
      var k :| k in rest;
      if k in baseline && current[k] > baseline[k] {
        assert RoseFor(basis, pods, k);
        return true;
      }
      rest := rest - {k};
    }
  }

  // ----- The running observations -----

  lemma LastCountAfter(seen: seq<Snapshot>, pods: Snapshot, k: Key)
    ensures LastCount(seen + [pods], k) == if CountOf(pods, k).Some? then CountOf(pods, k) else LastCount(seen, k)
  {
    assert (seen + [pods])[..|seen|] == seen;
  }

  lemma {:induction false} LastCountIsSeen(seen: seq<Snapshot>, k: Key) returns (i: nat)
    requires LastCount(seen, k).Some?
    ensures i < |seen| && CountOf(seen[i], k) == LastCount(seen, k)
    ensures forall j :: i < j < |seen| ==> CountOf(seen[j], k).None?
  {
    if CountOf(seen[|seen| - 1], k).Some? {
      i := |seen| - 1;
    } else {
      i := LastCountIsSeen(seen[..|seen| - 1], k);
    }
  }

  lemma {:induction false} SeenHasLastCount(seen: seq<Snapshot>, k: Key, i: nat)
    requires i < |seen| && CountOf(seen[i], k).Some?
    ensures LastCount(seen, k).Some?
  {
    if CountOf(seen[|seen| - 1], k).None? {
      SeenHasLastCount(seen[..|seen| - 1], k, i);
    }
  }

  /**
   Comparing a new snapshot with the running map alone decides whether any
   container is now above any count it was ever seen with: nothing older than
   the map is needed.
   */
  lemma RunningMapSuffices(seen: seq<Snapshot>, pods: Snapshot)
    ensures IncreaseSeen(seen + [pods]) <==>
            IncreaseSeen(seen)
            || exists k: Key :: LastCount(seen, k).Some? && CountOf(pods, k).Some?
                                && LastCount(seen, k).value < CountOf(pods, k).value
  {
    var all := seen + [pods];
    if IncreaseSeen(seen) {
      var i, j, k :| 0 <= i < j < |seen| && RoseFor(seen[i], seen[j], k);
      assert RoseFor(all[i], all[j], k);
    } else if exists k: Key :: LastCount(seen, k).Some? && CountOf(pods, k).Some?
                               && LastCount(seen, k).value < CountOf(pods, k).value {
      var k: Key :| LastCount(seen, k).Some? && CountOf(pods, k).Some?
                    && LastCount(seen, k).value < CountOf(pods, k).value;
      var i := LastCountIsSeen(seen, k);
      assert RoseFor(all[i], all[|seen|], k);
    } else {
      forall i, j, k: Key | 0 <= i < j < |all|
        ensures !RoseFor(all[i], all[j], k)
      {
        if j < |seen| {
          assert all[i] == seen[i] && all[j] == seen[j];
        } else if CountOf(seen[i], k).Some? {
          LastCountAtMost(seen, k, i);
        }
      }
    }
  }

  /** Without an increase, the latest count of a container is at most any it showed before. */
  lemma LastCountAtMost(seen: seq<Snapshot>, k: Key, i: nat)
    requires !IncreaseSeen(seen)
    requires i < |seen| && CountOf(seen[i], k).Some?
    ensures LastCount(seen, k).Some? && LastCount(seen, k).value <= CountOf(seen[i], k).value
  {
    SeenHasLastCount(seen, k, i);
    var m := LastCountIsSeen(seen, k);
    if i < m {
      assert !RoseFor(seen[i], seen[m], k);
    }
  }

  /** The flag can only go up, whatever is seen later and across any number of relists. */
  lemma IncreaseIsRemembered(seen: seq<Snapshot>, more: seq<Snapshot>)
    requires IncreaseSeen(seen)
    ensures IncreaseSeen(seen + more)
  {
    var i, j, k :| 0 <= i < j < |seen| && RoseFor(seen[i], seen[j], k);
    assert RoseFor((seen + more)[i], (seen + more)[j], k);
  }

  /** The observations that outlive a relist. `seen` is every snapshot observed so far. */
  class RestartObservations {
    var counts: Counts
    var increaseObserved: bool
    ghost var seen: seq<Snapshot>

    ghost predicate Valid()
      reads this
    {
      && (forall k: Key :: Lookup(counts, k) == LastCount(seen, k))
      && (increaseObserved <==> IncreaseSeen(seen))
    }

    constructor ()
      ensures Valid() && seen == []
    {
      counts := map[];
      increaseObserved := false;
      seen := [];
    }

    method Observe(pods: Snapshot)
      requires Valid() && Indexed(pods)
      modifies this
      ensures Valid() && seen == old(seen) + [pods]
      ensures increaseObserved <==> IncreaseSeen(seen)
    {
      hide LastCount, CountOf, Reported, IncreaseSeen, RoseFor;
      var current := Collect(pods);
      assert forall k: Key :: Lookup(current, k) == CountOf(pods, k);
      ghost var counts0, flag0 := counts, increaseObserved;
      assert forall k: Key :: Lookup(counts0, k) == LastCount(seen, k);
      var rest := current.Keys;
      while rest != {}
        invariant rest <= current.Keys
        invariant seen == old(seen)
        invariant forall k: Key ::
                    Lookup(counts, k) == if k in current && k !in rest then Some(current[k]) else Lookup(counts0, k)
        invariant increaseObserved <==>
          flag0 || exists k :: k in current && k !in rest && k in counts0 && counts0[k] < current[k]
      {
        var key :| key in rest;
        var count := current[key];
        assert Lookup(counts, key) == Lookup(counts0, key);
        if key in counts && count > counts[key] {
          increaseObserved := true;
        }
        counts := counts[key := count];
        rest := rest - {key};
      }
      RunningMapSuffices(seen, pods);
      forall k: Key
        ensures (k in current && k in counts0 && counts0[k] < current[k]) <==>
                (LastCount(seen, k).Some? && CountOf(pods, k).Some?
                 && LastCount(seen, k).value < CountOf(pods, k).value)
      {
        assert Lookup(counts0, k) == LastCount(seen, k) && Lookup(current, k) == CountOf(pods, k);
      }
      forall k: Key
        ensures Lookup(counts, k) == LastCount(seen + [pods], k)
      {
        LastCountAfter(seen, pods, k);
        assert Lookup(current, k) == CountOf(pods, k);
      }
      seen := seen + [pods];
    }
  }
}
