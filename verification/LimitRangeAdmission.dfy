/**
 The LimitRanger admission plugin as the comment of internal/check/limitrange.go (lines
 71-106) describes it, and what the check's verdict is worth against it: the plugin fills
 defaults object by object in list order, then holds the result against every item alone.
 */
module LimitRangeAdmission {
  import opened Base
  import opened Sorting
  import opened LimitRange

  // ----- Stage 1: requests from limits -----

  function Stage1(c: Container): (out: Container)
    ensures out.limits == c.limits
  {
    c.(requests := c.limits + c.requests)
  }

  /** A limit without a request becomes the request; what is declared stays. */
  lemma LimitsBecomeRequests(c: Container, key: Resource)
    ensures key in c.requests ==> Lookup(Stage1(c).requests, key) == Some(c.requests[key])
    ensures key !in c.requests ==> Lookup(Stage1(c).requests, key) == Lookup(c.limits, key)
    ensures Stage1(c).limits == c.limits && Stage1(c).name == c.name
  {
  }

  /** Updates the containers in place, as the node-capacity check does. */
  method ApplyStage1RequestsFromLimits(containers: array<Container>)
    modifies containers
    ensures forall i :: 0 <= i < containers.Length ==> containers[i] == Stage1(old(containers[i]))
  {
    for i := 0 to containers.Length
      invariant forall k :: 0 <= k < i ==> containers[k] == Stage1(old(containers[k]))
      invariant forall k :: i <= k < containers.Length ==> containers[k] == old(containers[k])
    {
      ghost var c := containers[i];
      var rest := containers[i].limits.Keys;
      while rest != {}
        invariant rest <= c.limits.Keys
        invariant forall k :: 0 <= k < containers.Length && k != i ==>
            containers[k] == if k < i then Stage1(old(containers[k])) else old(containers[k])
        invariant containers[i] == c.(requests := containers[i].requests)
        invariant forall k ::
            Lookup(containers[i].requests, k) ==
            if k in c.requests then Some(c.requests[k])
            else if k in c.limits && k !in rest then Some(c.limits[k])
            else None
      {
        var name :| name in rest;
        assert Lookup(containers[i].requests, name) == Lookup(c.requests, name);
        if name !in containers[i].requests {
          containers[i] := containers[i].(requests := containers[i].requests[name := containers[i].limits[name]]);
        }
        rest := rest - {name};
      }
      SameEntries(containers[i].requests, Stage1(c).requests);
    }
  }

  lemma SameEntries(a: Quantities, b: Quantities)
    requires forall k :: Lookup(a, k) == Lookup(b, k)
    ensures a == b
  {
    forall k
      ensures k in a <==> k in b
      ensures k in a ==> a[k] == b[k]
    {
      assert Lookup(a, k) == Lookup(b, k);
    }
  }

  // ----- The plugin -----

  /** An item fills only what is still absent. */
  function Filled(c: Container, item: Item): Container {
    c.(limits := item.defaults + c.limits, requests := item.defaultRequest + c.requests)
  }

  function FilledByAll(c: Container, order: seq<Item>): Container
    decreases |order|
  {
    if order == [] then c else FilledByAll(Filled(c, order[0]), order[1..])
  }

  predicate MeetsMin(item: Item, key: Resource, limit: Candidate, request: Candidate) {
    key in item.min ==>
      request.Some? && request.value >= item.min[key] && (limit.Some? ==> limit.value >= item.min[key])
  }

  predicate MeetsMax(item: Item, key: Resource, limit: Candidate, request: Candidate) {
    key in item.max ==>
      limit.Some? && limit.value <= item.max[key] && (request.Some? ==> request.value <= item.max[key])
  }

  predicate MeetsRatio(item: Item, key: Resource, limit: Candidate, request: Candidate) {
    key in item.ratio ==>
      && request.Some? && request.value > 0 && limit.Some? && limit.value > 0
      && !RatioExceeded(limit.value, request.value, item.ratio[key])
  }

  /** One item's own constraints on the final values of one key. */
  predicate Accepts(item: Item, key: Resource, limit: Candidate, request: Candidate) {
    MeetsMin(item, key, limit, request) && MeetsMax(item, key, limit, request) && MeetsRatio(item, key, limit, request)
  }

  ghost predicate KeyAccepted(order: seq<Item>, c: Container, key: Resource) {
    var final := FilledByAll(Stage1(c), order);
    forall i :: i in order ==> Accepts(i, key, Lookup(final.limits, key), Lookup(final.requests, key))
  }

  ghost predicate Admitted(order: seq<Item>, c: Container) {
    forall key :: KeyAccepted(order, c, key)
  }

  // ----- The plugin over LimitRange objects -----

  /** One object fills from its entries of type Container, in their order; the others do not concern a container. */
  function FilledByObject(c: Container, limits: seq<(Scope, Item)>): Container
    decreases |limits|
  {
    if limits == [] then c
    else
      match limits[0]
      case (OfContainer, item) => FilledByObject(Filled(c, item), limits[1..])
      case (OfPod, _) => FilledByObject(c, limits[1..])
      case (OfClaim, _) => FilledByObject(c, limits[1..])
  }

  function FilledByObjects(c: Container, objects: seq<Object>): Container
    decreases |objects|
  {
    if objects == [] then c else FilledByObjects(FilledByObject(c, objects[0].limits), objects[1..])
  }

  /** Every entry of type Container of every object accepts the container as the objects have filled it. */
  ghost predicate ObjectsAdmit(objects: seq<Object>, c: Container) {
    var final := FilledByObjects(Stage1(c), objects);
    forall o, i, key :: o in objects && (OfContainer, i) in o.limits ==>
      Accepts(i, key, Lookup(final.limits, key), Lookup(final.requests, key))
  }

  lemma {:induction false} FilledInTurn(c: Container, a: seq<Item>, b: seq<Item>)
    ensures FilledByAll(c, a + b) == FilledByAll(FilledByAll(c, a), b)
    decreases |a|
  {
    if a == [] {
      assert a + b == b;
    } else {
      assert (a + b)[1..] == a[1..] + b;
      FilledInTurn(Filled(c, a[0]), a[1..], b);
    }
  }

  lemma {:induction false} ContainerItemsConcat(a: seq<(Scope, Item)>, b: seq<(Scope, Item)>)
    ensures ContainerItemsOf(a + b) == ContainerItemsOf(a) + ContainerItemsOf(b)
  {
    if b == [] {
      assert a + b == a;
    } else {
      var ab := a + b;
      assert ab[..|ab| - 1] == a + b[..|b| - 1];
      ContainerItemsConcat(a, b[..|b| - 1]);
    }
  }

  lemma {:induction false} ObjectFillsByItems(c: Container, limits: seq<(Scope, Item)>)
    ensures FilledByObject(c, limits) == FilledByAll(c, ContainerItemsOf(limits))
    decreases |limits|
  {
    if limits != [] {
      var first, rest := limits[0], limits[1..];
      assert limits == [first] + rest && [first][..0] == [];
      ContainerItemsConcat([first], rest);
      if first.0 == OfContainer {
        ObjectFillsByItems(Filled(c, first.1), rest);
        FilledInTurn(c, [first.1], ContainerItemsOf(rest));
        assert [first.1][1..] == [];
        assert FilledByAll(c, [first.1]) == Filled(c, first.1);
      } else {
        ObjectFillsByItems(c, rest);
        assert ContainerItemsOf([first]) == [] && [] + ContainerItemsOf(rest) == ContainerItemsOf(rest);
      }
    }
  }

  lemma {:induction false} ObjectsFillByItems(c: Container, objects: seq<Object>)
    ensures FilledByObjects(c, objects) == FilledByAll(c, ItemsOf(objects))
    decreases |objects|
  {
    if objects != [] {
      var first, rest := objects[0], objects[1..];
      assert objects == [first] + rest && [first][..0] == [];
      ItemsOfConcat([first], rest);
      ObjectFillsByItems(c, first.limits);
      ObjectsFillByItems(FilledByObject(c, first.limits), rest);
      assert ItemsOf([first]) == [] + ContainerItemsOf(first.limits) == ContainerItemsOf(first.limits);
      FilledInTurn(c, ContainerItemsOf(first.limits), ItemsOf(rest));
    }
  }

  lemma {:induction false} ContainerItemsAre(limits: seq<(Scope, Item)>)
    ensures forall i :: i in ContainerItemsOf(limits) <==> (OfContainer, i) in limits
  {
    if limits != [] {
      assert limits == limits[..|limits| - 1] + [limits[|limits| - 1]];
      ContainerItemsAre(limits[..|limits| - 1]);
    }
  }

  /** The items the check works with are exactly the entries of type Container. */
  lemma {:induction false} ItemsAre(objects: seq<Object>)
    ensures forall i :: i in ItemsOf(objects) <==> exists o :: o in objects && (OfContainer, i) in o.limits
  {
    if objects != [] {
      var init, last := objects[..|objects| - 1], objects[|objects| - 1];
      assert objects == init + [last];
      ItemsAre(init);
      ContainerItemsAre(last.limits);
      assert forall o :: o in objects <==> o in init || o == last;
    }
  }

  /** The plugin over the objects is the plugin over their items. */
  lemma ObjectsAdmitByItems(objects: seq<Object>, c: Container)
    ensures ObjectsAdmit(objects, c) <==> Admitted(ItemsOf(objects), c)
  {
    var items := ItemsOf(objects);
    var final := FilledByAll(Stage1(c), items);
    ObjectsFillByItems(Stage1(c), objects);
    ItemsAre(objects);
    assert ObjectsAdmit(objects, c) <==> forall o, i, key :: o in objects && (OfContainer, i) in o.limits ==>
      Accepts(i, key, Lookup(final.limits, key), Lookup(final.requests, key));
    assert Admitted(items, c) <==> forall key :: KeyAccepted(items, c, key);
    hide ItemsOf, FilledByObjects, FilledByAll, Accepts, ObjectsAdmit, Admitted;
    if Admitted(items, c) {
      forall o, i, key | o in objects && (OfContainer, i) in o.limits
        ensures Accepts(i, key, Lookup(final.limits, key), Lookup(final.requests, key))
      {
        assert i in items && KeyAccepted(items, c, key);
      }
    }
    if ObjectsAdmit(objects, c) {
      forall key
        ensures KeyAccepted(items, c, key)
      {
        forall i | i in items
          ensures Accepts(i, key, Lookup(final.limits, key), Lookup(final.requests, key))
        {
          var o :| o in objects && (OfContainer, i) in o.limits;
        }
      }
    }
  }

  // ----- Per-item enforcement is the combined bound -----

  lemma RatioIsMonotone(limit: Quantity, request: Quantity, a: Quantity, b: Quantity)
    requires a <= b && RatioExceeded(limit, request, b)
    ensures RatioExceeded(limit, request, a)
  {
    assert a * request <= b * request;
  }

  lemma BoundOf(items: seq<Item>, key: Resource, field: Field)
    ensures match Combined(items, key, field, MostRestrictiveMin)
            case None => forall i :: i in items ==> key !in field(i)
            case Some(b) =>
              && (exists i :: i in items && key in field(i) && field(i)[key] == b)
              && (forall i :: i in items && key in field(i) ==> field(i)[key] <= b)
    ensures match Combined(items, key, field, MostRestrictiveMax)
            case None => forall i :: i in items ==> key !in field(i)
            case Some(b) =>
              && (exists i :: i in items && key in field(i) && field(i)[key] == b)
              && (forall i :: i in items && key in field(i) ==> b <= field(i)[key])
  {
    var vs := Declared(items, key, field);
    FoldedBinds(vs);
    DeclaredBySome(items, key, field);
    forall i | i in items && key in field(i)
      ensures field(i)[key] in vs
    {
      assert Lookup(field(i), key) == Some(field(i)[key]);
    }
    forall v | v in vs
      ensures exists i :: i in items && key in field(i) && field(i)[key] == v
    {
      var i :| i in items && Lookup(field(i), key) == Some(v);
    }
  }

  lemma MinBound(items: seq<Item>, key: Resource, limit: Candidate, request: Candidate)
    ensures (forall i :: i in items ==> MeetsMin(i, key, limit, request)) <==>
            !EvaluateCombo(limit, request, Combined(items, key, MinOf, MostRestrictiveMin), None, None)
  {
    BoundOf(items, key, MinOf);
    match Combined(items, key, MinOf, MostRestrictiveMin)
    case None =>
      assert forall i :: i in items ==> key !in MinOf(i);
    case Some(b) =>
      var i :| i in items && key in MinOf(i) && MinOf(i)[key] == b;
      assert forall i :: i in items && key in i.min ==> key in MinOf(i) && i.min[key] <= b;
      assert MeetsMin(i, key, limit, request) ==> !EvaluateCombo(limit, request, Some(b), None, None);
  }

  lemma MaxBound(items: seq<Item>, key: Resource, limit: Candidate, request: Candidate)
    ensures (forall i :: i in items ==> MeetsMax(i, key, limit, request)) <==>
            !EvaluateCombo(limit, request, None, Combined(items, key, MaxOf, MostRestrictiveMax), None)
  {
    BoundOf(items, key, MaxOf);
    match Combined(items, key, MaxOf, MostRestrictiveMax)
    case None =>
      assert forall i :: i in items ==> key !in MaxOf(i);
    case Some(b) =>
      var i :| i in items && key in MaxOf(i) && MaxOf(i)[key] == b;
      assert forall i :: i in items && key in i.max ==> key in MaxOf(i) && b <= i.max[key];
      assert MeetsMax(i, key, limit, request) ==> !EvaluateCombo(limit, request, None, Some(b), None);
  }

  lemma RatioBound(items: seq<Item>, key: Resource, limit: Candidate, request: Candidate)
    ensures (forall i :: i in items ==> MeetsRatio(i, key, limit, request)) <==>
            !EvaluateCombo(limit, request, None, None, Combined(items, key, RatioOf, MostRestrictiveMax))
  {
    hide RatioExceeded;
    BoundOf(items, key, RatioOf);
    match Combined(items, key, RatioOf, MostRestrictiveMax)
    case None =>
      assert forall i :: i in items ==> key !in RatioOf(i);
    case Some(b) =>
      var i :| i in items && key in RatioOf(i) && RatioOf(i)[key] == b;
      assert MeetsRatio(i, key, limit, request) ==> !EvaluateCombo(limit, request, None, None, Some(b));
      forall i | i in items && key in i.ratio && limit.Some? && request.Some?
        ensures RatioExceeded(limit.value, request.value, i.ratio[key]) ==> RatioExceeded(limit.value, request.value, b)
      {
        assert key in RatioOf(i) && b <= i.ratio[key];
        if RatioExceeded(limit.value, request.value, i.ratio[key]) {
          RatioIsMonotone(limit.value, request.value, b, i.ratio[key]);
        }
      }
  }

  /**
   Enforcing every item's own minimum, maximum and ratio is the same as enforcing the most
   restrictive combination of all of them.
   */
  lemma CombinedBoundsAreEquivalent(items: seq<Item>, key: Resource, limit: Candidate, request: Candidate)
    ensures Violates(items, key, limit, request) <==> exists i :: i in items && !Accepts(i, key, limit, request)
  {
    MinBound(items, key, limit, request);
    MaxBound(items, key, limit, request);
    RatioBound(items, key, limit, request);
    ByParts(limit, request, Combined(items, key, MinOf, MostRestrictiveMin),
            Combined(items, key, MaxOf, MostRestrictiveMax),
            Combined(items, key, RatioOf, MostRestrictiveMax));
  }

  lemma ByParts(limit: Candidate, request: Candidate, min: Option<Quantity>, max: Option<Quantity>,
                ratio: Option<Quantity>)
    ensures EvaluateCombo(limit, request, min, max, ratio) <==>
            || EvaluateCombo(limit, request, min, None, None)
            || EvaluateCombo(limit, request, None, max, None)
            || EvaluateCombo(limit, request, None, None, ratio)
  {
  }

  // ----- First wins -----

  /** The value of the first item that declares one. */
  function First(order: seq<Item>, key: Resource, field: Field): Candidate {
    if order == [] then None
    else if key in field(order[0]) then Some(field(order[0])[key])
    else First(order[1..], key, field)
  }

  /** It is the value of the first item that has one. */
  lemma {:induction false} FirstIs(order: seq<Item>, key: Resource, field: Field, i: nat)
    requires i < |order| && key in field(order[i]) && forall j :: 0 <= j < i ==> key !in field(order[j])
    ensures First(order, key, field) == Some(field(order[i])[key])
    decreases i
  {
    if i > 0 {
      assert key !in field(order[0]);
      forall j | 0 <= j < i - 1
        ensures key !in field(order[1..][j])
      {
        var next := j + 1;
        assert key !in field(order[next]);
      }
      FirstIs(order[1..], key, field, i - 1);
    }
  }

  lemma {:induction false} FirstWins(c: Container, order: seq<Item>, key: Resource)
    decreases |order|
    ensures Lookup(FilledByAll(c, order).limits, key) ==
            if key in c.limits then Some(c.limits[key]) else First(order, key, DefaultOf)
    ensures Lookup(FilledByAll(c, order).requests, key) ==
            if key in c.requests then Some(c.requests[key]) else First(order, key, DefaultRequestOf)
  {
    if order != [] {
      FirstWins(Filled(c, order[0]), order[1..], key);
    }
  }

  /** What one order leaves a container with. */
  ghost function FinalLimit(c: Container, order: seq<Item>, key: Resource): Candidate {
    Lookup(FilledByAll(Stage1(c), order).limits, key)
  }

  ghost function FinalRequest(c: Container, order: seq<Item>, key: Resource): Candidate {
    Lookup(FilledByAll(Stage1(c), order).requests, key)
  }

  ghost predicate Arranges(order: seq<Item>, items: seq<Item>) {
    multiset(order) == multiset(items)
  }

  lemma ArrangedMembers(order: seq<Item>, items: seq<Item>)
    requires Arranges(order, items)
    ensures forall i :: i in order <==> i in items
  {
    forall i
      ensures i in order <==> i in items
    {
      assert i in multiset(order) <==> i in multiset(items);
    }
  }

  lemma {:induction false} FirstIsDeclared(order: seq<Item>, key: Resource, field: Field)
    ensures match First(order, key, field)
            case None => forall i :: i in order ==> key !in field(i)
            case Some(v) => exists i :: i in order && key in field(i) && field(i)[key] == v
  {
    if order != [] {
      assert order == [order[0]] + order[1..];
      FirstIsDeclared(order[1..], key, field);
    }
  }

  lemma WinnerIsCandidate(items: seq<Item>, order: seq<Item>, key: Resource, field: Field)
    requires Arranges(order, items)
    ensures First(order, key, field) in CandidatesFromDistinct(Distinct(items, key, field))
  {
    ArrangedMembers(order, items);
    FirstIsDeclared(order, key, field);
    DistinctValues(items, key, field);
    DeclaredBySome(items, key, field);
    var distinct := Distinct(items, key, field);
    assert |distinct| > 0 ==> distinct[0] in distinct;
    match First(order, key, field)
    case None =>
      assert distinct == [];
    case Some(v) =>
      var i :| i in order && key in field(i) && field(i)[key] == v;
      assert Lookup(field(i), key) == Some(v);
      assert v in distinct;
      var n :| 0 <= n < |distinct| && distinct[n] == v;
      assert CandidatesFromDistinct(distinct)[n] == Some(v);
  }

  /** Whatever the list order, what the plugin leaves in place is one of the pairs the check evaluates. */
  lemma WinnersAreCandidates(c: Container, items: seq<Item>, order: seq<Item>, key: Resource)
    requires Arranges(order, items)
    ensures FinalLimit(c, order, key) in LimitCandidates(c, items, key)
    ensures FinalRequest(c, order, key) in RequestCandidates(c, items, key)
  {
    FirstWins(Stage1(c), order, key);
    WinnerIsCandidate(items, order, key, DefaultOf);
    WinnerIsCandidate(items, order, key, DefaultRequestOf);
  }

  /** An order rejects a key exactly when the pair it leaves violates the combined bounds. */
  lemma OrderRejects(c: Container, items: seq<Item>, order: seq<Item>, key: Resource)
    requires Arranges(order, items)
    ensures KeyAccepted(order, c, key) <==>
            !Violates(items, key, FinalLimit(c, order, key), FinalRequest(c, order, key))
  {
    ArrangedMembers(order, items);
    CombinedBoundsAreEquivalent(items, key, FinalLimit(c, order, key), FinalRequest(c, order, key));
  }

  // ----- Soundness of the verdict -----

  lemma UnconstrainedIsAccepted(items: seq<Item>, key: Resource, limit: Candidate, request: Candidate)
    requires !Constrained(items, key)
    ensures !Violates(items, key, limit, request)
  {
    BoundsExist(items, key);
  }

  /** High: rejected whatever the order. No violation: accepted whatever the order. */
  lemma VerdictIsSound(c: Container, items: seq<Item>, order: seq<Item>, key: Resource)
    requires Arranges(order, items)
    ensures Violations(c, items, key) == [Violation(key, High)] ==> !KeyAccepted(order, c, key)
    ensures Violations(c, items, key) == [] ==> KeyAccepted(order, c, key)
  {
    OrderRejects(c, items, order, key);
    WinnersAreCandidates(c, items, order, key);
    if !Constrained(items, key) {
      UnconstrainedIsAccepted(items, key, FinalLimit(c, order, key), FinalRequest(c, order, key));
    }
  }

  lemma {:induction false} ViolationsListed(c: Container, items: seq<Item>, keys: seq<Resource>)
    ensures forall key, s :: Violation(key, s) in AllViolations(c, items, keys) <==>
                             key in keys && Violations(c, items, key) == [Violation(key, s)]
    ensures forall f :: f in AllViolations(c, items, keys) ==> f.Violation?
  {
    if keys != [] {
      var init, last := keys[..|keys| - 1], keys[|keys| - 1];
      assert keys == init + [last];
      ViolationsListed(c, items, init);
      forall key, s
        ensures Violation(key, s) in Violations(c, items, last) <==>
                key == last && Violations(c, items, last) == [Violation(last, s)]
      {
      }
    }
  }

  lemma ViolationsAreFindings(c: Container, items: seq<Item>, keys: seq<Resource>)
    ensures forall key, s :: Violation(key, s) in ContainerFindings(c, items, keys) <==>
                             key in keys && Violations(c, items, key) == [Violation(key, s)]
  {
    ViolationsListed(c, items, keys);
    hide AllViolations, Violations, AllDefaulted;
  }

  lemma ViolatesOnce(c: Container, items: seq<Item>, keys: seq<Resource>, key: Resource)
    requires forall k :: k in keys <==> Mentioned(items, k)
    ensures Violations(c, items, key) == [] || exists s :: Violation(key, s) in ContainerFindings(c, items, keys)
  {
    ViolationsAreFindings(c, items, keys);
    hide SomeViolates, AllViolate, ContainerFindings;
    if Constrained(items, key) {
      var i :| i in items && (key in i.min || key in i.max || key in i.ratio);
      assert key in KeysOf(i);
    }
  }

  /**
   The container as a whole: one High finding and no order admits it; no High and no Medium
   finding and every order does. Keys no item mentions cannot matter.
   */
  lemma ContainerVerdictIsSound(c: Container, items: seq<Item>, keys: seq<Resource>, order: seq<Item>)
    requires Arranges(order, items) && forall k :: k in keys <==> Mentioned(items, k)
    ensures (exists key :: Violation(key, High) in ContainerFindings(c, items, keys)) ==> !Admitted(order, c)
    ensures (forall f :: f in ContainerFindings(c, items, keys) ==> f.Defaulted?) ==> Admitted(order, c)
  {
    ViolationsAreFindings(c, items, keys);
    hide ContainerFindings, Violations, KeyAccepted, Arranges, Mentioned;
    if key :| Violation(key, High) in ContainerFindings(c, items, keys) {
      VerdictIsSound(c, items, order, key);
    }
    if forall f :: f in ContainerFindings(c, items, keys) ==> f.Defaulted? {
      forall key
        ensures KeyAccepted(order, c, key)
      {
        ViolatesOnce(c, items, keys, key);
        VerdictIsSound(c, items, order, key);
      }
    }
  }

  /** Every finding of the pod is one of a container, and every container's finding is one of the pod's. */
  lemma {:induction false} PodFindingsListed(cs: seq<Container>, init: bool, items: seq<Item>, keys: seq<Resource>)
    ensures forall n :: n in PodFindings(cs, init, items, keys) ==>
                        exists c :: c in cs && n.finding in ContainerFindings(c, items, keys)
    ensures forall c, f :: c in cs && f in ContainerFindings(c, items, keys) ==>
                           Named(c.name, init, f) in PodFindings(cs, init, items, keys)
  {
    if cs != [] {
      hide ContainerFindings;
      var before, last := cs[..|cs| - 1], cs[|cs| - 1];
      assert forall c :: c in cs <==> c in before || c == last by {
        assert cs == before + [last];
      }
      PodFindingsListed(before, init, items, keys);
      LabelledAre(last, init, ContainerFindings(last, items, keys));
      assert PodFindings(cs, init, items, keys) ==
             PodFindings(before, init, items, keys) + Labelled(last, init, ContainerFindings(last, items, keys));
      hide PodFindings;
    }
  }

  lemma LabelledAre(c: Container, init: bool, findings: seq<LimitFinding>)
    ensures forall n :: n in Labelled(c, init, findings) ==> n.finding in findings
    ensures forall f :: f in findings ==> Named(c.name, init, f) in Labelled(c, init, findings)
  {
    var labelled := Labelled(c, init, findings);
    forall f | f in findings
      ensures Named(c.name, init, f) in labelled
    {
      var i :| 0 <= i < |findings| && findings[i] == f;
      assert labelled[i] in labelled;
    }
  }

  /**
   The containers of a pod, in every order the API may list the LimitRange objects in: a High
   finding and some container is refused in all of them; nothing but defaulted keys and every
   container passes in all of them.
   */
  lemma PodVerdictIsSound(cs: seq<Container>, init: bool, objects: seq<Object>, keys: seq<Resource>,
                          listed: seq<Object>)
    requires multiset(listed) == multiset(objects) && Lists(keys, ItemsOf(objects))
    ensures (exists n :: n in PodFindings(cs, init, ItemsOf(objects), keys) && n.finding.Violation?
                         && n.finding.severity == High)
            ==> exists c :: c in cs && !ObjectsAdmit(listed, c)
    ensures (forall n :: n in PodFindings(cs, init, ItemsOf(objects), keys) ==> n.finding.Defaulted?)
            ==> forall c :: c in cs ==> ObjectsAdmit(listed, c)
  {
    var items, order := ItemsOf(objects), ItemsOf(listed);
    ObjectsArranged(objects, listed);
    forall c
      ensures ObjectsAdmit(listed, c) <==> Admitted(order, c)
    {
      ObjectsAdmitByItems(listed, c);
    }
    hide PodFindings, Mentioned, ItemsOf, Arranges, Admitted, ObjectsAdmit;
    if n :| n in PodFindings(cs, init, items, keys) && n.finding.Violation? && n.finding.severity == High {
      HighRejectsSome(cs, init, items, keys, order, n);
    }
    if forall n :: n in PodFindings(cs, init, items, keys) ==> n.finding.Defaulted? {
      forall c | c in cs
        ensures ObjectsAdmit(listed, c)
      {
        SilenceAdmits(cs, init, items, keys, order, c);
      }
    }
  }

  /** The same for what the whole check reports of a pod, init containers included. */
  lemma RunVerdictIsSound(objects: seq<Object>, listed: seq<Object>, containers: seq<Container>, inits: seq<Container>,
                          keys: seq<Resource>, findings: seq<Named>)
    requires multiset(listed) == multiset(objects) && Lists(keys, ItemsOf(objects))
    requires findings == PodFindings(containers, false, ItemsOf(objects), keys)
                         + PodFindings(inits, true, ItemsOf(objects), keys)
    ensures (exists n :: n in findings && n.finding.Violation? && n.finding.severity == High)
            ==> exists c :: (c in containers || c in inits) && !ObjectsAdmit(listed, c)
    ensures (forall n :: n in findings ==> n.finding.Defaulted?)
            ==> forall c :: c in containers || c in inits ==> ObjectsAdmit(listed, c)
  {
    hide PodFindings, Lists, ItemsOf, ObjectsAdmit;
    PodVerdictIsSound(containers, false, objects, keys, listed);
    PodVerdictIsSound(inits, true, objects, keys, listed);
  }

  /** The keys a container's last finding lists are exactly its silently defaulted ones, in ascending order. */
  lemma DefaultedAreListed(c: Container, items: seq<Item>, keys: seq<Resource>, ks: seq<Resource>)
    requires Defaulted(ks) in ContainerFindings(c, items, keys)
    ensures forall k :: k in ks <==> k in keys && DefaultedKeys(c, items, k) == [k]
    ensures Ordered(ks, StringLess)
  {
    ViolationsListed(c, items, keys);
    AllDefaultedAre(c, items, keys);
    StringLessIsStrictWeak();
    SortPermutes(AllDefaulted(c, items, keys), StringLess);
    SortOrders(AllDefaulted(c, items, keys), StringLess);
  }

  lemma DefaultedAreReported(c: Container, items: seq<Item>, keys: seq<Resource>, key: Resource)
    requires key in keys && DefaultedKeys(c, items, key) == [key]
    ensures exists ks :: Defaulted(ks) in ContainerFindings(c, items, keys) && key in ks
  {
    AllDefaultedAre(c, items, keys);
    var ks := Sort(AllDefaulted(c, items, keys), StringLess);
    SortPermutes(AllDefaulted(c, items, keys), StringLess);
    assert Defaulted(ks) in ContainerFindings(c, items, keys);
  }

  lemma {:induction false} AllDefaultedAre(c: Container, items: seq<Item>, keys: seq<Resource>)
    ensures forall k :: k in AllDefaulted(c, items, keys) <==> k in keys && DefaultedKeys(c, items, k) == [k]
  {
    if keys != [] {
      assert keys == keys[..|keys| - 1] + [keys[|keys| - 1]];
      AllDefaultedAre(c, items, keys[..|keys| - 1]);
    }
  }

  lemma HighRejectsSome(cs: seq<Container>, init: bool, items: seq<Item>, keys: seq<Resource>, order: seq<Item>,
                        n: Named)
    requires Arranges(order, items) && forall k :: k in keys <==> Mentioned(items, k)
    requires n in PodFindings(cs, init, items, keys) && n.finding.Violation? && n.finding.severity == High
    ensures exists c :: c in cs && !Admitted(order, c)
  {
    hide ContainerFindings, Admitted, PodFindings, Mentioned, Arranges;
    PodFindingsListed(cs, init, items, keys);
    var c :| c in cs && n.finding in ContainerFindings(c, items, keys);
    assert n.finding == Violation(n.finding.key, High);
    ContainerVerdictIsSound(c, items, keys, order);
  }

  lemma SilenceAdmits(cs: seq<Container>, init: bool, items: seq<Item>, keys: seq<Resource>, order: seq<Item>,
                      c: Container)
    requires Arranges(order, items) && forall k :: k in keys <==> Mentioned(items, k)
    requires c in cs && forall n :: n in PodFindings(cs, init, items, keys) ==> n.finding.Defaulted?
    ensures Admitted(order, c)
  {
    hide ContainerFindings, Admitted, PodFindings, Mentioned, Arranges;
    PodFindingsListed(cs, init, items, keys);
    forall f | f in ContainerFindings(c, items, keys)
      ensures f.Defaulted?
    {
      assert Named(c.name, init, f) in PodFindings(cs, init, items, keys);
    }
    ContainerVerdictIsSound(c, items, keys, order);
  }

  // ----- Which pairs an order can reach -----

  /** Some list order leaves this pair. */
  ghost predicate Reached(c: Container, items: seq<Item>, key: Resource, limit: Candidate, request: Candidate) {
    exists order :: Arranges(order, items) && FinalLimit(c, order, key) == limit
                    && FinalRequest(c, order, key) == request
  }

  /** Item i can win one field while item j wins the other. */
  predicate Compatible(items: seq<Item>, key: Resource, i: nat, j: nat)
    requires i < |items| && j < |items|
  {
    i == j || key !in items[i].defaultRequest || key !in items[j].defaults
  }

  /** Two items that can supply the two defaults together. */
  ghost predicate Supplied(items: seq<Item>, key: Resource, limit: Candidate, request: Candidate) {
    exists i: nat, j: nat :: i < |items| && j < |items| && SuppliedBy(items, key, limit, request, i, j)
  }

  predicate SuppliedBy(items: seq<Item>, key: Resource, limit: Candidate, request: Candidate, i: nat, j: nat)
    requires i < |items| && j < |items|
  {
    && limit.Some? && Lookup(items[i].defaults, key) == limit
    && request.Some? && Lookup(items[j].defaultRequest, key) == request
    && Compatible(items, key, i, j)
  }

  /** Neither limit nor request declared, and both supplied by some default: the case where the two are coupled. */
  predicate Coupled(c: Container, items: seq<Item>, key: Resource) {
    && key !in c.limits && key !in c.requests
    && (exists i :: i in items && key in i.defaults)
    && (exists i :: i in items && key in i.defaultRequest)
  }

  /** `order` with the item at position i moved to the front. */
  function Fronted(items: seq<Item>, i: nat): (order: seq<Item>)
    requires i < |items|
    ensures Arranges(order, items) && order[0] == items[i]
  {
    assert items == items[..i] + [items[i]] + items[i + 1..];
    [items[i]] + items[..i] + items[i + 1..]
  }

  /** Items i, then j, then the rest. */
  lemma FrontedTwo(items: seq<Item>, i: nat, j: nat) returns (order: seq<Item>)
    requires i < |items| && j < |items| && i != j
    ensures Arranges(order, items) && |order| >= 2 && order[0] == items[i] && order[1] == items[j]
  {
    var one := Fronted(items, j);
    var k := if i < j then i + 1 else i;
    assert one[k] == items[i];
    order := Fronted(one, k);
    assert order[1] == one[0];
  }

  /** A supplied pair is reached. */
  lemma SuppliedIsReached(c: Container, items: seq<Item>, key: Resource, limit: Candidate, request: Candidate,
                          i: nat, j: nat)
    requires key !in c.limits && key !in c.requests
    requires i < |items| && j < |items| && SuppliedBy(items, key, limit, request, i, j)
    ensures Reached(c, items, key, limit, request)
  {
    var order;
    if i == j {
      order := Fronted(items, i);
    } else if key !in items[i].defaultRequest {
      order := FrontedTwo(items, i, j);
      assert First(order[1..], key, DefaultRequestOf) == request;
    } else {
      order := FrontedTwo(items, j, i);
      assert First(order[1..], key, DefaultOf) == limit;
    }
    assert First(order, key, DefaultOf) == limit && First(order, key, DefaultRequestOf) == request;
    FirstWins(Stage1(c), order, key);
  }

  /** Where the winner of a field stands. */
  lemma {:induction false} FirstAt(order: seq<Item>, key: Resource, field: Field) returns (p: nat)
    requires First(order, key, field).Some?
    ensures p < |order| && key in field(order[p]) && field(order[p])[key] == First(order, key, field).value
    ensures forall q :: 0 <= q < p ==> key !in field(order[q])
  {
    if key in field(order[0]) {
      p := 0;
    } else {
      p := FirstAt(order[1..], key, field);
      p := p + 1;
    }
  }

  /** The winners of one order are compatible items of any other arrangement. */
  lemma ReachedIsSupplied(items: seq<Item>, order: seq<Item>, key: Resource)
    requires Arranges(order, items)
    requires First(order, key, DefaultOf).Some? && First(order, key, DefaultRequestOf).Some?
    ensures Supplied(items, key, First(order, key, DefaultOf), First(order, key, DefaultRequestOf))
  {
    var limit, request := First(order, key, DefaultOf), First(order, key, DefaultRequestOf);
    var p := FirstAt(order, key, DefaultOf);
    var q := FirstAt(order, key, DefaultRequestOf);
    ArrangedMembers(order, items);
    assert order[p] in order && order[q] in order;
    var i :| 0 <= i < |items| && items[i] == order[p];
    var j :| 0 <= j < |items| && items[j] == order[q];
    if p == q {
      assert SuppliedBy(items, key, limit, request, i, i);
    } else {
      assert p < q ==> key !in DefaultRequestOf(order[p]);
      assert q < p ==> key !in DefaultOf(order[q]);
      assert SuppliedBy(items, key, limit, request, i, j);
    }
  }

  lemma NoDefault(items: seq<Item>, order: seq<Item>, key: Resource, field: Field)
    requires Arranges(order, items)
    ensures First(order, key, field).None? <==> forall i :: i in items ==> key !in field(i)
  {
    ArrangedMembers(order, items);
    FirstIsDeclared(order, key, field);
  }

  /** The pairs the plugin can leave, exactly. Outside the coupled case they are the whole cross product. */
  lemma ReachedExactly(c: Container, items: seq<Item>, key: Resource, limit: Candidate, request: Candidate)
    ensures Reached(c, items, key, limit, request) <==>
            if Coupled(c, items, key) then Supplied(items, key, limit, request)
            else limit in LimitCandidates(c, items, key) && request in RequestCandidates(c, items, key)
  {
    if Reached(c, items, key, limit, request) {
      var order :| Arranges(order, items) && FinalLimit(c, order, key) == limit
                    && FinalRequest(c, order, key) == request;
      WinnersAreCandidates(c, items, order, key);
      if Coupled(c, items, key) {
        FirstWins(Stage1(c), order, key);
        CoupledBoth(c, items, order, key);
        ReachedIsSupplied(items, order, key);
      }
    } else if Coupled(c, items, key) && Supplied(items, key, limit, request) {
      var i: nat, j: nat :| i < |items| && j < |items| && SuppliedBy(items, key, limit, request, i, j);
      SuppliedIsReached(c, items, key, limit, request, i, j);
    } else if !Coupled(c, items, key) && limit in LimitCandidates(c, items, key)
             && request in RequestCandidates(c, items, key) {
      UncoupledIsReached(c, items, key, limit, request);
    }
  }

  lemma CoupledBoth(c: Container, items: seq<Item>, order: seq<Item>, key: Resource)
    requires Arranges(order, items) && Coupled(c, items, key)
    ensures First(order, key, DefaultOf).Some? && First(order, key, DefaultRequestOf).Some?
  {
    NoDefault(items, order, key, DefaultOf);
    NoDefault(items, order, key, DefaultRequestOf);
    var i :| i in items && key in i.defaults;
    var j :| j in items && key in j.defaultRequest;
    assert key in DefaultOf(i) && key in DefaultRequestOf(j);
  }

  /** A candidate that is a value comes from some item. */
  lemma CandidateSource(items: seq<Item>, key: Resource, field: Field, v: Candidate)
    requires v in CandidatesFromDistinct(Distinct(items, key, field))
    ensures v.None? ==> forall i :: i in items ==> key !in field(i)
    ensures v.Some? ==> exists i: nat :: i < |items| && Lookup(field(items[i]), key) == v
  {
    DistinctValues(items, key, field);
    DeclaredBySome(items, key, field);
    var distinct := Distinct(items, key, field);
    forall i | i in items && key in field(i)
      ensures field(i)[key] in distinct
    {
      assert Lookup(field(i), key) == Some(field(i)[key]);
    }
    if v.Some? {
      assert v.value in distinct;
      var item :| item in items && Lookup(field(item), key) == v;
      var i :| 0 <= i < |items| && items[i] == item;
    } else {
      assert distinct == [];
    }
  }

  lemma UncoupledIsReached(c: Container, items: seq<Item>, key: Resource, limit: Candidate, request: Candidate)
    requires !Coupled(c, items, key)
    requires limit in LimitCandidates(c, items, key) && request in RequestCandidates(c, items, key)
    ensures Reached(c, items, key, limit, request)
  {
    if key in c.limits {
      FirstWins(Stage1(c), items, key);
      assert FinalLimit(c, items, key) == limit && FinalRequest(c, items, key) == request;
    } else {
      var order := CandidateWins(items, key, DefaultOf, limit);
      if key !in c.requests {
        var other := CandidateWins(items, key, DefaultRequestOf, request);
        if request.Some? && limit.None? {
          order := other;
        }
        NoDefault(items, order, key, DefaultOf);
        NoDefault(items, order, key, DefaultRequestOf);
        NoDefault(items, other, key, DefaultRequestOf);
        assert request.None? || limit.None?;
      }
      FirstWins(Stage1(c), order, key);
      assert FinalLimit(c, order, key) == limit && FinalRequest(c, order, key) == request;
    }
  }

  /** Every candidate of one field wins it under some order. */
  lemma CandidateWins(items: seq<Item>, key: Resource, field: Field, v: Candidate) returns (order: seq<Item>)
    requires v in CandidatesFromDistinct(Distinct(items, key, field))
    ensures Arranges(order, items) && First(order, key, field) == v
    ensures v.Some? ==> exists i :: i in items && key in field(i)
  {
    CandidateSource(items, key, field, v);
    if v.Some? {
      var i: nat :| i < |items| && Lookup(field(items[i]), key) == v;
      assert items[i] in items;
      order := Fronted(items, i);
    } else {
      order := items;
      NoDefault(items, order, key, field);
    }
  }

  // ----- When Medium is exact -----

  ghost predicate SomeOrderRejects(c: Container, items: seq<Item>, key: Resource) {
    exists order :: Arranges(order, items) && !KeyAccepted(order, c, key)
  }

  ghost predicate SomeOrderAccepts(c: Container, items: seq<Item>, key: Resource) {
    exists order :: Arranges(order, items) && KeyAccepted(order, c, key)
  }

  /** Some pair an order can leave violates (`bad`) or does not. */
  ghost predicate SuppliedVerdict(items: seq<Item>, key: Resource, bad: bool) {
    exists l, r :: Supplied(items, key, l, r) && Violates(items, key, l, r) == bad
  }

  lemma OrderDecides(c: Container, items: seq<Item>, key: Resource)
    ensures SomeOrderRejects(c, items, key) <==>
            exists l, r :: Reached(c, items, key, l, r) && Violates(items, key, l, r)
    ensures SomeOrderAccepts(c, items, key) <==>
            exists l, r :: Reached(c, items, key, l, r) && !Violates(items, key, l, r)
  {
    forall order | Arranges(order, items)
      ensures KeyAccepted(order, c, key) <==>
              !Violates(items, key, FinalLimit(c, order, key), FinalRequest(c, order, key))
      ensures Reached(c, items, key, FinalLimit(c, order, key), FinalRequest(c, order, key))
    {
      OrderRejects(c, items, order, key);
    }
  }

  /** Outside the coupled case the verdict is exact: Medium says precisely that the outcome depends on the order. */
  lemma UncoupledVerdictIsExact(c: Container, items: seq<Item>, key: Resource)
    requires !Coupled(c, items, key)
    ensures Violations(c, items, key) == [Violation(key, Medium)] <==>
            SomeOrderRejects(c, items, key) && SomeOrderAccepts(c, items, key)
    ensures Violations(c, items, key) == [Violation(key, High)] <==>
            SomeOrderRejects(c, items, key) && !SomeOrderAccepts(c, items, key)
  {
    hide Violates, Reached;
    OrderDecides(c, items, key);
    forall l, r
      ensures Reached(c, items, key, l, r) <==>
              l in LimitCandidates(c, items, key) && r in RequestCandidates(c, items, key)
    {
      ReachedExactly(c, items, key, l, r);
    }
    if !Constrained(items, key) {
      forall l, r
        ensures !Violates(items, key, l, r)
      {
        UnconstrainedIsAccepted(items, key, l, r);
      }
    }
  }

  /**
   In the coupled case a Medium can stand where no order, or every order, rejects. It is right
   exactly when, among the pairs that two compatible items supply, one violates and one does not.
   */
  lemma CoupledMediumIsRightWhen(c: Container, items: seq<Item>, key: Resource)
    requires Coupled(c, items, key) && Violations(c, items, key) == [Violation(key, Medium)]
    ensures SomeOrderRejects(c, items, key) <==> SuppliedVerdict(items, key, true)
    ensures SomeOrderAccepts(c, items, key) <==> SuppliedVerdict(items, key, false)
  {
    hide Violates, Reached;
    OrderDecides(c, items, key);
    forall l, r
      ensures Reached(c, items, key, l, r) <==> Supplied(items, key, l, r)
    {
      ReachedExactly(c, items, key, l, r);
    }
  }

  /** With at most one candidate on one side no two items can get in each other's way. */
  lemma OneSidedIsReached(c: Container, items: seq<Item>, key: Resource, limit: Candidate, request: Candidate)
    requires |LimitCandidates(c, items, key)| == 1 || |RequestCandidates(c, items, key)| == 1
    requires limit in LimitCandidates(c, items, key) && request in RequestCandidates(c, items, key)
    ensures Reached(c, items, key, limit, request)
  {
    hide Distinct, CandidatesFromDistinct;
    if !Coupled(c, items, key) {
      UncoupledIsReached(c, items, key, limit, request);
    } else {
      var order;
      if |LimitCandidates(c, items, key)| == 1 {
        order := CandidateWins(items, key, DefaultRequestOf, request);
      } else {
        order := CandidateWins(items, key, DefaultOf, limit);
      }
      hide Coupled;
      FirstWins(Stage1(c), order, key);
      WinnersAreCandidates(c, items, order, key);
      hide First, LimitCandidates, RequestCandidates;
      assert FinalLimit(c, order, key) == limit && FinalRequest(c, order, key) == request;
    }
  }

  /** Exactness as the source's comment promises it: one side fixed or uniform. */
  lemma OneSidedVerdictIsExact(c: Container, items: seq<Item>, key: Resource)
    requires |LimitCandidates(c, items, key)| == 1 || |RequestCandidates(c, items, key)| == 1
    ensures Violations(c, items, key) == [Violation(key, Medium)] <==>
            SomeOrderRejects(c, items, key) && SomeOrderAccepts(c, items, key)
  {
    hide Violates, Reached;
    OrderDecides(c, items, key);
    forall l, r
      ensures Reached(c, items, key, l, r) <==>
              l in LimitCandidates(c, items, key) && r in RequestCandidates(c, items, key)
    {
      if Reached(c, items, key, l, r) {
        ReachedAreCandidates(c, items, key, l, r);
      } else if l in LimitCandidates(c, items, key) && r in RequestCandidates(c, items, key) {
        OneSidedIsReached(c, items, key, l, r);
      }
    }
    if !Constrained(items, key) {
      forall l, r
        ensures !Violates(items, key, l, r)
      {
        UnconstrainedIsAccepted(items, key, l, r);
      }
    }
  }

  lemma ReachedAreCandidates(c: Container, items: seq<Item>, key: Resource, limit: Candidate, request: Candidate)
    requires Reached(c, items, key, limit, request)
    ensures limit in LimitCandidates(c, items, key) && request in RequestCandidates(c, items, key)
  {
    var order :| Arranges(order, items) && FinalLimit(c, order, key) == limit && FinalRequest(c, order, key) == request;
    WinnersAreCandidates(c, items, order, key);
  }

  /** A namespace with a single LimitRange never gets a Medium. */
  lemma SingleItemIsNeverMedium(c: Container, items: seq<Item>, key: Resource)
    requires |items| == 1
    ensures Violations(c, items, key) != [Violation(key, Medium)]
  {
    SingleCandidate(items, key, DefaultOf);
    SingleCandidate(items, key, DefaultRequestOf);
    hide Violates, CandidatesFromDistinct, Distinct, AnyPresent;
    var l, r := LimitCandidates(c, items, key), RequestCandidates(c, items, key);
    assert |l| == 1 && |r| == 1;
    hide LimitCandidates, RequestCandidates;
    OneEach(c, items, key, l[0], r[0]);
  }

  lemma OneEach(c: Container, items: seq<Item>, key: Resource, limit: Candidate, request: Candidate)
    requires LimitCandidates(c, items, key) == [limit] && RequestCandidates(c, items, key) == [request]
    ensures SomeViolates(c, items, key) ==> AllViolate(c, items, key)
  {
    hide Violates, LimitCandidates, RequestCandidates;
  }

  lemma SingleCandidate(items: seq<Item>, key: Resource, field: Field)
    requires |items| == 1
    ensures |CandidatesFromDistinct(Distinct(items, key, field))| == 1
  {
    hide Declared, Dedupe, Sort;
    NotMoreThanItems(items, key, field);
    SortPermutes(Dedupe(Declared(items, key, field)), Below);
  }

  lemma {:induction false} NotMoreThanItems(items: seq<Item>, key: Resource, field: Field)
    ensures |Dedupe(Declared(items, key, field))| <= |items|
  {
    if items != [] {
      DeclaredStep(items, |items| - 1, key, field);
      assert items[..|items|] == items;
      NotMoreThanItems(items[..|items| - 1], key, field);
      DedupeStep(items, key, field);
    }
  }

  lemma DedupeStep(items: seq<Item>, key: Resource, field: Field)
    requires items != []
    ensures |Dedupe(Declared(items, key, field))| <= |Dedupe(Declared(items[..|items| - 1], key, field))| + 1
  {
    var before, after := Declared(items[..|items| - 1], key, field), Declared(items, key, field);
    if after != before {
      assert after[..|after| - 1] == before;
    }
  }

  lemma DeclaredByTwo(a: Item, b: Item, key: Resource, field: Field)
    ensures forall v :: v in Distinct([a, b], key, field) <==>
                        Lookup(field(a), key) == Some(v) || Lookup(field(b), key) == Some(v)
  {
    DistinctValues([a, b], key, field);
    DeclaredBySome([a, b], key, field);
  }

  lemma ValueIsCandidate(distinct: seq<Quantity>, v: Quantity)
    requires v in distinct
    ensures Some(v) in CandidatesFromDistinct(distinct)
  {
    var n :| 0 <= n < |distinct| && distinct[n] == v;
    assert CandidatesFromDistinct(distinct)[n] == Some(v);
  }

  // ----- Two LimitRanges that each default both limit and request -----

  const CPU: Resource := "cpu"

  const BARE := Container("app", map[], map[])

  /** Limits 4 and 8, requests a and b, and at most one and a half times the request. */
  function Two(a: Quantity, b: Quantity): seq<Item> {
    [Item(map[], map[], map[CPU := 4000], map[CPU := a], map[CPU := 1500]),
     Item(map[], map[], map[CPU := 8000], map[CPU := b], map[])]
  }

  lemma TwoDecide(a: Quantity, b: Quantity, limit: Quantity, request: Quantity)
    requires limit > 0 && request > 0
    ensures Violates(Two(a, b), CPU, Some(limit), Some(request)) <==> RatioExceeded(limit, request, 1500)
  {
    hide Violates;
    var items := Two(a, b);
    CombinedBoundsAreEquivalent(items, CPU, Some(limit), Some(request));
    assert items[0] in items && Accepts(items[1], CPU, Some(limit), Some(request));
    assert Accepts(items[0], CPU, Some(limit), Some(request)) <==> !RatioExceeded(limit, request, 1500);
  }

  lemma TwoCandidates(a: Quantity, b: Quantity)
    ensures Some(4000) in LimitCandidates(BARE, Two(a, b), CPU) && Some(8000) in LimitCandidates(BARE, Two(a, b), CPU)
    ensures Some(a) in RequestCandidates(BARE, Two(a, b), CPU) && Some(b) in RequestCandidates(BARE, Two(a, b), CPU)
    ensures Coupled(BARE, Two(a, b), CPU) && Constrained(Two(a, b), CPU)
  {
    hide Distinct, CandidatesFromDistinct;
    var items := Two(a, b);
    assert items[0] in items;
    DeclaredByTwo(items[0], items[1], CPU, DefaultOf);
    DeclaredByTwo(items[0], items[1], CPU, DefaultRequestOf);
    ValueIsCandidate(Distinct(items, CPU, DefaultOf), 4000);
    ValueIsCandidate(Distinct(items, CPU, DefaultOf), 8000);
    ValueIsCandidate(Distinct(items, CPU, DefaultRequestOf), a);
    ValueIsCandidate(Distinct(items, CPU, DefaultRequestOf), b);
  }

  /** Whichever comes first supplies both values. */
  lemma TwoSupply(a: Quantity, b: Quantity, limit: Candidate, request: Candidate)
    ensures Supplied(Two(a, b), CPU, limit, request) <==>
            (limit == Some(4000) && request == Some(a)) || (limit == Some(8000) && request == Some(b))
  {
    var items := Two(a, b);
    if limit == Some(4000) && request == Some(a) {
      assert SuppliedBy(items, CPU, limit, request, 0, 0);
    }
    if limit == Some(8000) && request == Some(b) {
      assert SuppliedBy(items, CPU, limit, request, 1, 1);
    }
    if Supplied(items, CPU, limit, request) {
      var i: nat, j: nat :| i < |items| && j < |items| && SuppliedBy(items, CPU, limit, request, i, j);
      assert i == j;
    }
  }

  /** When one pair of the cross product violates and another does not, and what the orders then do. */
  lemma TwoVerdict(a: Quantity, b: Quantity)
    requires a > 0 && b > 0
    requires RatioExceeded(8000, a, 1500) && !RatioExceeded(4000, b, 1500)
    ensures Violations(BARE, Two(a, b), CPU) == [Violation(CPU, Medium)]
    ensures SomeOrderRejects(BARE, Two(a, b), CPU) <==> RatioExceeded(4000, a, 1500) || RatioExceeded(8000, b, 1500)
    ensures SomeOrderAccepts(BARE, Two(a, b), CPU) <==> !RatioExceeded(4000, a, 1500) || !RatioExceeded(8000, b, 1500)
  {
    hide Violates, LimitCandidates, RequestCandidates, Supplied, RatioExceeded, Coupled, Constrained;
    TwoCandidates(a, b);
    TwoDecide(a, b, 4000, a);
    TwoDecide(a, b, 8000, b);
    TwoDecide(a, b, 4000, b);
    TwoDecide(a, b, 8000, a);
    CoupledMediumIsRightWhen(BARE, Two(a, b), CPU);
    forall l, r
      ensures Supplied(Two(a, b), CPU, l, r) <==> (l == Some(4000) && r == Some(a)) || (l == Some(8000) && r == Some(b))
    {
      TwoSupply(a, b, l, r);
    }
  }

  /** The verdict is Medium although every order rejects. */
  lemma MediumAlthoughEveryOrderRejects()
    ensures Violations(BARE, Two(1000, 4000), CPU) == [Violation(CPU, Medium)]
    ensures !SomeOrderAccepts(BARE, Two(1000, 4000), CPU)
  {
    TwoVerdict(1000, 4000);
  }

  /** The verdict is Medium although every order accepts. */
  lemma MediumAlthoughEveryOrderAccepts()
    ensures Violations(BARE, Two(3000, 6000), CPU) == [Violation(CPU, Medium)]
    ensures !SomeOrderRejects(BARE, Two(3000, 6000), CPU)
  {
    TwoVerdict(3000, 6000);
  }

  // ----- The verdict does not depend on the order the API lists in -----

  lemma DeclaredIgnoresOrder(items: seq<Item>, order: seq<Item>, key: Resource, field: Field)
    requires Arranges(order, items)
    ensures forall v :: v in Declared(order, key, field) <==> v in Declared(items, key, field)
  {
    ArrangedMembers(order, items);
    DeclaredBySome(order, key, field);
    DeclaredBySome(items, key, field);
  }

  lemma DistinctIgnoresOrder(items: seq<Item>, order: seq<Item>, key: Resource, field: Field)
    requires Arranges(order, items)
    ensures Distinct(order, key, field) == Distinct(items, key, field)
  {
    DeclaredIgnoresOrder(items, order, key, field);
    var a, b := Dedupe(Declared(order, key, field)), Dedupe(Declared(items, key, field));
    SameElements(a, b);
    SortCanonical(a, b, Below);
  }

  lemma BoundIgnoresOrder(items: seq<Item>, order: seq<Item>, key: Resource, field: Field)
    requires Arranges(order, items)
    ensures Combined(order, key, field, MostRestrictiveMin) == Combined(items, key, field, MostRestrictiveMin)
    ensures Combined(order, key, field, MostRestrictiveMax) == Combined(items, key, field, MostRestrictiveMax)
  {
    DeclaredIgnoresOrder(items, order, key, field);
    var a, b := Declared(order, key, field), Declared(items, key, field);
    FoldedBinds(a);
    FoldedBinds(b);
    assert a == [] <==> b == [] by {
      assert a != [] ==> a[0] in b;
      assert b != [] ==> b[0] in a;
    }
  }

  lemma VerdictIgnoresOrder(c: Container, items: seq<Item>, order: seq<Item>, key: Resource)
    requires Arranges(order, items)
    ensures Violations(c, order, key) == Violations(c, items, key)
    ensures DefaultedKeys(c, order, key) == DefaultedKeys(c, items, key)
  {
    hide Combined, Distinct, EvaluateCombo;
    ArrangedMembers(order, items);
    DistinctIgnoresOrder(items, order, key, DefaultOf);
    DistinctIgnoresOrder(items, order, key, DefaultRequestOf);
    BoundIgnoresOrder(items, order, key, MinOf);
    BoundIgnoresOrder(items, order, key, MaxOf);
    BoundIgnoresOrder(items, order, key, RatioOf);
    assert LimitCandidates(c, order, key) == LimitCandidates(c, items, key);
    assert RequestCandidates(c, order, key) == RequestCandidates(c, items, key);
    hide LimitCandidates, RequestCandidates;
    assert forall l, r :: Violates(order, key, l, r) == Violates(items, key, l, r);
    hide Violates;
  }

  lemma {:induction false} FindingsIgnoreOrder(c: Container, items: seq<Item>, order: seq<Item>, keys: seq<Resource>)
    requires Arranges(order, items)
    ensures AllViolations(c, order, keys) == AllViolations(c, items, keys)
    ensures AllDefaulted(c, order, keys) == AllDefaulted(c, items, keys)
    ensures ContainerFindings(c, order, keys) == ContainerFindings(c, items, keys)
  {
    if keys != [] {
      FindingsIgnoreOrder(c, items, order, keys[..|keys| - 1]);
      VerdictIgnoresOrder(c, items, order, keys[|keys| - 1]);
    }
  }

  lemma {:induction false} ItemsOfConcat(a: seq<Object>, b: seq<Object>)
    ensures ItemsOf(a + b) == ItemsOf(a) + ItemsOf(b)
  {
    if b == [] {
      assert a + b == a;
    } else {
      var ab := a + b;
      assert ab[..|ab| - 1] == a + b[..|b| - 1];
      ItemsOfConcat(a, b[..|b| - 1]);
    }
  }

  /** Listing the LimitRange objects in another order arranges their items in another order. */
  lemma {:induction false} ObjectsArranged(objects: seq<Object>, listed: seq<Object>)
    requires multiset(listed) == multiset(objects)
    ensures Arranges(ItemsOf(listed), ItemsOf(objects))
    decreases |listed|
  {
    if listed == [] {
      assert |objects| == |multiset(objects)| == |multiset(listed)| == 0;
    } else {
      hide ItemsOf;
      var init, last := listed[..|listed| - 1], listed[|listed| - 1];
      assert last in multiset(listed) && last in multiset(objects);
      var p: nat :| p < |objects| && objects[p] == last;
      var a, b := objects[..p], objects[p + 1..];
      TakenOut(objects, p);
      TakenOut(listed, |listed| - 1);
      assert init + [] == init && init + listed[|listed|..] == init;
      ObjectsArranged(a + b, init);
      ItemsAround(a, last, b);
      ItemsAround(init, last, []);
    }
  }

  lemma TakenOut(objects: seq<Object>, p: nat)
    requires p < |objects|
    ensures objects == objects[..p] + [objects[p]] + objects[p + 1..]
    ensures multiset(objects[..p] + objects[p + 1..]) == multiset(objects) - multiset{objects[p]}
  {
    var a, b := objects[..p], objects[p + 1..];
    assert objects == a + [objects[p]] + b;
    assert multiset(objects) == multiset(a) + multiset{objects[p]} + multiset(b);
  }

  lemma ItemsAround(a: seq<Object>, x: Object, b: seq<Object>)
    ensures multiset(ItemsOf(a + [x] + b)) == multiset(ItemsOf(a + b)) + multiset(ItemsOf([x]))
  {
    ItemsOfConcat(a, b);
    ItemsOfConcat(a + [x], b);
    ItemsOfConcat(a, [x]);
  }

  /**
   A key is listed as silently defaulted exactly when it is constrained, no pair violates, and the
   plugin ends up with a limit or a request the manifest does not declare: in one order iff in all.
   */
  lemma DefaultedExactly(c: Container, items: seq<Item>, order: seq<Item>, key: Resource)
    requires Arranges(order, items)
    ensures SilentlyDefaulted(c, items, key) <==>
            || (key !in c.limits && FinalLimit(c, order, key).Some?)
            || (key !in c.requests && FinalRequest(c, order, key).Some?)
    ensures DefaultedKeys(c, items, key) == [key] <==>
            Constrained(items, key) && Violations(c, items, key) == [] && SilentlyDefaulted(c, items, key)
  {
    hide Violates;
    FirstWins(Stage1(c), order, key);
    PresentExactly(items, order, key, DefaultOf);
    PresentExactly(items, order, key, DefaultRequestOf);
  }

  lemma PresentExactly(items: seq<Item>, order: seq<Item>, key: Resource, field: Field)
    requires Arranges(order, items)
    ensures AnyPresent(CandidatesFromDistinct(Distinct(items, key, field))) <==> First(order, key, field).Some?
  {
    var distinct := Distinct(items, key, field);
    WinnerIsCandidate(items, order, key, field);
    NoDefault(items, order, key, field);
    if distinct != [] {
      ValueIsCandidate(distinct, distinct[0]);
      CandidateSource(items, key, field, Some(distinct[0]));
      var i: nat :| i < |items| && Lookup(field(items[i]), key) == Some(distinct[0]);
      assert items[i] in items;
    }
  }
}
