/**
 The node-capacity-feasibility check (internal/check/nodecapacity.go): whether any candidate
 node is large enough for one pod. The pod's aggregate requests are the library's to compute
 and come in as a map.
 */
module NodeCapacity {
  import opened Base
  import opened Scheduling

  const KEYS: seq<string> := ["cpu", "memory"]

  datatype CapacityResult = Refused(reason: string) | TooLarge(keys: seq<string>)

  predicate Reports(nodes: seq<Node>, key: string) {
    exists n :: n in nodes && key in n.allocatable
  }

  /** No node that reports the resource has room for the request; a node that does not report it proves nothing. */
  predicate FitsNowhere(nodes: seq<Node>, key: string, request: int) {
    Reports(nodes, key) && forall n :: n in nodes && key in n.allocatable ==> n.allocatable[key] < request
  }

  /** The first of the nodes with the most to allocate. */
  predicate LargestAt(nodes: seq<Node>, key: string, i: nat) {
    && i < |nodes| && key in nodes[i].allocatable
    && (forall k :: 0 <= k < |nodes| && key in nodes[k].allocatable ==>
          nodes[k].allocatable[key] <= nodes[i].allocatable[key])
    && (forall k :: 0 <= k < i && key in nodes[k].allocatable ==> nodes[k].allocatable[key] < nodes[i].allocatable[key])
  }

  method LargestAllocatable(nodes: seq<Node>, key: string) returns (best: int, nodeName: string, ok: bool)
    ensures ok <==> Reports(nodes, key)
    ensures ok ==> exists i: nat ::
               LargestAt(nodes, key, i) && nodes[i].allocatable[key] == best && nodes[i].name == nodeName
  {
    best, nodeName, ok := 0, "", false;
    ghost var at: nat := 0;
    for i := 0 to |nodes|
      invariant ok <==> Reports(nodes[..i], key)
      invariant ok ==>
                  && at < i && LargestAt(nodes[..i], key, at)
                  && nodes[at].allocatable[key] == best && nodes[at].name == nodeName
    {
      assert nodes[..i + 1] == nodes[..i] + [nodes[i]];
      if key !in nodes[i].allocatable {
        continue;
      }
      assert nodes[i] in nodes[..i + 1];
      if !ok || nodes[i].allocatable[key] > best {
        best, nodeName, ok, at := nodes[i].allocatable[key], nodes[i].name, true, i;
      }
    }
    assert nodes[..|nodes|] == nodes;
  }

  /** The largest node decides for all of them. */
  lemma LargestDecides(nodes: seq<Node>, key: string, i: nat, request: int)
    requires LargestAt(nodes, key, i)
    ensures request > nodes[i].allocatable[key] <==> FitsNowhere(nodes, key, request)
  {
    assert nodes[i] in nodes;
  }

  /** The resources the pod asks for at all. */
  function Wanted(keys: seq<string>, requests: map<string, int>): seq<string> {
    if keys == [] then []
    else
      var key := keys[|keys| - 1];
      Wanted(keys[..|keys| - 1], requests) + if key in requests && requests[key] != 0 then [key] else []
  }

  /** Of some resources the pod asks for, those for which no node is large enough. */
  ghost function Short(nodes: seq<Node>, keys: seq<string>, requests: map<string, int>): seq<string>
  {
    if keys == [] then []
    else
      var key := keys[|keys| - 1];
      Short(nodes, keys[..|keys| - 1], requests)
      + if key in requests && FitsNowhere(nodes, key, requests[key]) then [key] else []
  }

  method SelectWanted(requests: map<string, int>) returns (wanted: seq<string>)
    ensures wanted == Wanted(KEYS, requests)
    ensures forall key :: key in wanted <==> key in KEYS && key in requests && requests[key] != 0
  {
    wanted := [];
    for i := 0 to |KEYS|
      invariant wanted == Wanted(KEYS[..i], requests)
      invariant forall key :: key in wanted <==> key in KEYS[..i] && key in requests && requests[key] != 0
    {
      assert KEYS[..i + 1] == KEYS[..i] + [KEYS[i]] && KEYS[..i + 1][..i] == KEYS[..i];
      if KEYS[i] in requests && requests[KEYS[i]] != 0 {
        wanted := wanted + [KEYS[i]];
      }
    }
    assert KEYS[..|KEYS|] == KEYS;
  }

  method EvaluateWanted(nodes: seq<Node>, wanted: seq<string>, requests: map<string, int>)
    returns (short: seq<string>, evaluated: nat)
    requires forall key :: key in wanted ==> key in requests
    ensures short == Short(nodes, wanted, requests)
    ensures evaluated > 0 <==> exists key :: key in wanted && Reports(nodes, key)
  {
    short, evaluated := [], 0;
    for i := 0 to |wanted|
      invariant short == Short(nodes, wanted[..i], requests)
      invariant evaluated > 0 <==> exists key :: key in wanted[..i] && Reports(nodes, key)
    {
      hide FitsNowhere, Reports, LargestAt;
      assert wanted[..i + 1] == wanted[..i] + [wanted[i]] && wanted[..i + 1][..i] == wanted[..i];
      var best, _, ok := LargestAllocatable(nodes, wanted[i]);
      if !ok {
        NotReported(nodes, wanted[i], requests[wanted[i]]);
        continue;
      }
      ghost var at: nat :| LargestAt(nodes, wanted[i], at) && nodes[at].allocatable[wanted[i]] == best;
      LargestDecides(nodes, wanted[i], at, requests[wanted[i]]);
      assert wanted[i] in wanted[..i + 1];
      evaluated := evaluated + 1;
      if requests[wanted[i]] > best {
        short := short + [wanted[i]];
      }
    }
    assert wanted[..|wanted|] == wanted;
  }

  lemma NotReported(nodes: seq<Node>, key: string, request: int)
    requires !Reports(nodes, key)
    ensures !FitsNowhere(nodes, key, request)
  {
  }

  /** A DaemonSet's pods may land on cordoned nodes, so all matching nodes count for it. */
  method Run(nodes: Result<seq<Node>>, daemonSet: bool, foreignScheduler: bool, requests: map<string, int>)
    returns (r: CapacityResult)
    ensures r == Verdict(nodes, daemonSet, foreignScheduler, requests)
  {
    var wanted := SelectWanted(requests);
    if |wanted| == 0 {
      return TooLarge([]);
    }
    if foreignScheduler {
      return TooLarge([]);
    }
    if nodes.Err? {
      return Refused(nodes.error);
    }
    if |nodes.value| == 0 {
      return Refused("zero nodes");
    }
    var all, live, _ := CandidateNodes(nodes.value);
    hide Candidates, Short, Wanted;
    var nodeSet := if daemonSet then all else live;
    if |nodeSet| == 0 {
      return TooLarge([]);
    }
    var short, evaluated := EvaluateWanted(nodeSet, wanted, requests);
    if evaluated == 0 {
      return Refused("nothing allocatable reported");
    }
    return TooLarge(short);
  }

  ghost function Verdict(nodes: Result<seq<Node>>, daemonSet: bool, foreignScheduler: bool, requests: map<string, int>):
    CapacityResult
  {
    var wanted := Wanted(KEYS, requests);
    if wanted == [] || foreignScheduler then TooLarge([])
    else if nodes.Err? then Refused(nodes.error)
    else if nodes.value == [] then Refused("zero nodes")
    else
      var nodeSet := Candidates(nodes.value, !daemonSet);
      if nodeSet == [] then TooLarge([])
      else if forall key :: key in wanted ==> !Reports(nodeSet, key) then Refused("nothing allocatable reported")
      else TooLarge(Short(nodeSet, wanted, requests))
  }

  /** What the check reports: exactly the requested resources no candidate node has room for. */
  lemma ReportsTheShort(nodes: seq<Node>, daemonSet: bool, requests: map<string, int>, key: string)
    requires Verdict(Ok(nodes), daemonSet, false, requests).TooLarge?
    ensures key in Verdict(Ok(nodes), daemonSet, false, requests).keys <==>
            key in KEYS && key in requests && requests[key] != 0
            && FitsNowhere(Candidates(nodes, !daemonSet), key, requests[key])
  {
    WantedAre(KEYS, requests);
    ShortIsEach(Candidates(nodes, !daemonSet), Wanted(KEYS, requests), requests);
  }

  lemma {:induction false} WantedAre(keys: seq<string>, requests: map<string, int>)
    ensures forall key :: key in Wanted(keys, requests) <==> key in keys && key in requests && requests[key] != 0
  {
    if keys != [] {
      assert keys == keys[..|keys| - 1] + [keys[|keys| - 1]];
      WantedAre(keys[..|keys| - 1], requests);
    }
  }

  /**
   What does not fit on any matching node does not fit on those of them that are left, so the
   wider node set taken for a DaemonSet errs towards silence.
   */
  lemma WiderSetIsSafe(nodes: seq<Node>, key: string, request: int)
    requires FitsNowhere(Candidates(nodes, false), key, request) && Reports(Candidates(nodes, true), key)
    ensures FitsNowhere(Candidates(nodes, true), key, request)
  {
    CandidatesAre(nodes);
  }

  lemma {:induction false} ShortIsEach(nodes: seq<Node>, keys: seq<string>, requests: map<string, int>)
    requires forall key :: key in keys ==> key in requests
    ensures forall key :: key in Short(nodes, keys, requests) <==> key in keys && FitsNowhere(nodes, key, requests[key])
  {
    if keys != [] {
      assert keys == keys[..|keys| - 1] + [keys[|keys| - 1]];
      ShortIsEach(nodes, keys[..|keys| - 1], requests);
    }
  }

  // ----- Whole runs -----

  /** A node whose capacity counts: it matches, and is not cordoned unless a DaemonSet asks. */
  ghost predicate Counted(n: Node, daemonSet: bool) {
    n.affinity.Matches? && (daemonSet || !n.cordoned)
  }

  ghost predicate Asked(requests: map<string, int>, key: string) {
    (key == "cpu" || key == "memory") && key in requests && requests[key] != 0
  }

  lemma CountedAre(nodes: seq<Node>, daemonSet: bool)
    ensures forall n :: n in Candidates(nodes, !daemonSet) <==> n in nodes && Counted(n, daemonSet)
    ensures Candidates(nodes, !daemonSet) == [] <==> forall n :: n in nodes ==> !Counted(n, daemonSet)
  {
    CandidatesAre(nodes);
    var set_ := Candidates(nodes, !daemonSet);
    assert |set_| > 0 ==> set_[0] in set_;
  }

  lemma AskedAre(requests: map<string, int>)
    ensures forall key :: key in Wanted(KEYS, requests) <==> Asked(requests, key)
    ensures Wanted(KEYS, requests) == [] <==> forall key :: !Asked(requests, key)
  {
    WantedAre(KEYS, requests);
    var wanted := Wanted(KEYS, requests);
    assert |wanted| > 0 ==> wanted[0] in wanted;
    hide Wanted;
  }

  /** The check refuses to conclude without nodes, or when no node that counts reports anything asked for. */
  lemma RefusesExactly(nodes: Result<seq<Node>>, daemonSet: bool, foreignScheduler: bool, requests: map<string, int>)
    ensures Verdict(nodes, daemonSet, foreignScheduler, requests).Refused? <==>
            && !foreignScheduler && (exists key :: Asked(requests, key))
            && (nodes.Err?
                || nodes.value == []
                || ((exists n :: n in nodes.value && Counted(n, daemonSet))
                    && forall n, key :: n in nodes.value && Counted(n, daemonSet) && Asked(requests, key) ==>
                         key !in n.allocatable))
  {
    AskedAre(requests);
    hide Wanted, Short, Asked, Candidates;
    if nodes.Ok? {
      CountedAre(nodes.value, daemonSet);
    }
  }

  /** Otherwise it reports exactly what is asked for and is too much for every node that counts and says what it has. */
  lemma RunReports(nodes: seq<Node>, daemonSet: bool, requests: map<string, int>, key: string)
    requires Verdict(Ok(nodes), daemonSet, false, requests).TooLarge?
    ensures key in Verdict(Ok(nodes), daemonSet, false, requests).keys <==>
            && Asked(requests, key)
            && (exists n :: n in nodes && Counted(n, daemonSet) && key in n.allocatable)
            && forall n :: n in nodes && Counted(n, daemonSet) && key in n.allocatable ==>
                 n.allocatable[key] < requests[key]
  {
    ReportsTheShort(nodes, daemonSet, requests, key);
    CountedAre(nodes, daemonSet);
    hide Verdict, Candidates;
  }
}
