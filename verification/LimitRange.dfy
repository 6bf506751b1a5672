/**
 The limitrange-feasibility check (internal/check/limitrange.go): every container of the
 pod template against the Container items of a namespace's LimitRange objects. Quantities
 are whole milli-units. What the admission plugin itself does is in LimitRangeAdmission.dfy.
 */
module LimitRange {
  import opened Base
  import opened Sorting

  type Resource = string

  type Quantity = nat

  type Quantities = map<Resource, Quantity>

  datatype Container = Container(name: string, limits: Quantities, requests: Quantities)

  datatype Item = Item(min: Quantities, max: Quantities, defaults: Quantities,
                       defaultRequest: Quantities, ratio: Quantities)

  datatype Scope = OfContainer | OfPod | OfClaim

  datatype Object = Object(name: string, limits: seq<(Scope, Item)>)

  type Field = Item -> Quantities

  function MinOf(i: Item): Quantities { i.min }
  function MaxOf(i: Item): Quantities { i.max }
  function DefaultOf(i: Item): Quantities { i.defaults }
  function DefaultRequestOf(i: Item): Quantities { i.defaultRequest }
  function RatioOf(i: Item): Quantities { i.ratio }

  // ----- Items and keys -----

  function ContainerItemsOf(limits: seq<(Scope, Item)>): seq<Item> {
    if limits == [] then []
    else
      ContainerItemsOf(limits[..|limits| - 1])
      + if limits[|limits| - 1].0 == OfContainer then [limits[|limits| - 1].1] else []
  }

  function ItemsOf(objects: seq<Object>): seq<Item> {
    if objects == [] then [] else ItemsOf(objects[..|objects| - 1]) + ContainerItemsOf(objects[|objects| - 1].limits)
  }

  method ContainerLimitItems(objects: seq<Object>) returns (items: seq<Item>)
    ensures items == ItemsOf(objects)
  {
    items := [];
    for i := 0 to |objects|
      invariant items == ItemsOf(objects[..i])
    {
      assert objects[..i + 1][..i] == objects[..i];
      var limits := objects[i].limits;
      ghost var before := items;
      for j := 0 to |limits|
        invariant items == before + ContainerItemsOf(limits[..j])
      {
        assert limits[..j + 1][..j] == limits[..j];
        if limits[j].0 != OfContainer {
          continue;
        }
        items := items + [limits[j].1];
      }
      assert limits[..|limits|] == limits;
    }
    assert objects[..|objects|] == objects;
  }

  function KeysOf(i: Item): set<Resource> {
    i.min.Keys + i.max.Keys + i.defaults.Keys + i.defaultRequest.Keys + i.ratio.Keys
  }

  predicate Mentioned(items: seq<Item>, key: Resource) {
    exists i :: i in items && key in KeysOf(i)
  }

  /** Exactly the mentioned keys, strictly ascending. */
  ghost predicate Lists(keys: seq<Resource>, items: seq<Item>) {
    && (forall k :: k in keys <==> Mentioned(items, k))
    && (forall i, j :: 0 <= i < j < |keys| ==> StringLess(keys[i], keys[j]))
  }

  method RelevantKeys(items: seq<Item>) returns (keys: seq<Resource>)
    ensures Lists(keys, items)
  {
    var rest := {};
    for i := 0 to |items|
      invariant forall k :: k in rest <==> Mentioned(items[..i], k)
    {
      assert items[..i + 1] == items[..i] + [items[i]];
      rest := rest + KeysOf(items[i]);
    }
    assert items[..|items|] == items;
    ghost var all := rest;
    var unsorted := [];
    while rest != {}
      invariant forall k :: k in all <==> k in rest || k in unsorted
      invariant forall k :: k in unsorted ==> k !in rest
      invariant NoDuplicates(unsorted)
    {
      var k :| k in rest;
      rest := rest - {k};
      unsorted := unsorted + [k];
    }
    keys := Sort(unsorted, StringLess);
    StringLessIsStrictWeak();
    SortPermutes(unsorted, StringLess);
    SortOrders(unsorted, StringLess);
    NoDuplicatesPermuted(unsorted, keys);
  }

  lemma {:induction false} NoDuplicatesCounts<T>(xs: seq<T>)
    ensures NoDuplicates(xs) <==> forall x :: multiset(xs)[x] <= 1
  {
    if xs != [] {
      var init, last := xs[..|xs| - 1], xs[|xs| - 1];
      assert xs == init + [last];
      NoDuplicatesCounts(init);
      if NoDuplicates(xs) {
        assert last !in multiset(init);
      } else if NoDuplicates(init) {
        var i :| 0 <= i < |init| && init[i] == last;
        assert multiset(xs)[last] == multiset(init)[last] + 1;
      } else {
        var x :| multiset(init)[x] > 1;
        assert multiset(xs)[x] > 1;
      }
    }
  }

  lemma NoDuplicatesPermuted<T>(xs: seq<T>, ys: seq<T>)
    requires NoDuplicates(xs) && multiset(xs) == multiset(ys)
    ensures NoDuplicates(ys)
  {
    NoDuplicatesCounts(xs);
    NoDuplicatesCounts(ys);
  }

  lemma SameElements<T>(xs: seq<T>, ys: seq<T>)
    requires NoDuplicates(xs) && NoDuplicates(ys) && forall x :: x in xs <==> x in ys
    ensures multiset(xs) == multiset(ys)
  {
    NoDuplicatesCounts(xs);
    NoDuplicatesCounts(ys);
    forall x
      ensures multiset(xs)[x] == multiset(ys)[x]
    {
      assert x in xs <==> x in ys;
      assert x in xs <==> multiset(xs)[x] > 0;
      assert x in ys <==> multiset(ys)[x] > 0;
    }
  }

  // ----- Combined bounds -----

  /** The values the items declare for a key, in item order. */
  function Declared(items: seq<Item>, key: Resource, field: Field): seq<Quantity> {
    if items == [] then []
    else
      Declared(items[..|items| - 1], key, field)
      + if key in field(items[|items| - 1]) then [field(items[|items| - 1])[key]] else []
  }

  lemma DeclaredStep(items: seq<Item>, i: nat, key: Resource, field: Field)
    requires i < |items|
    ensures var before, after := Declared(items[..i], key, field), Declared(items[..i + 1], key, field);
            if key in field(items[i]) then after == before + [field(items[i])[key]] else after == before
  {
    assert items[..i + 1][..i] == items[..i];
  }

  lemma {:induction false} DeclaredBySome(items: seq<Item>, key: Resource, field: Field)
    ensures forall v :: v in Declared(items, key, field) <==> exists i :: i in items && Lookup(field(i), key) == Some(v)
  {
    if items != [] {
      var init := items[..|items| - 1];
      assert items == init + [items[|items| - 1]];
      DeclaredBySome(init, key, field);
    }
  }

  function Folded(vs: seq<Quantity>, pick: (Quantity, Quantity) -> Quantity): Option<Quantity> {
    if vs == [] then None
    else
      match Folded(vs[..|vs| - 1], pick)
      case None => Some(vs[|vs| - 1])
      case Some(current) => Some(pick(current, vs[|vs| - 1]))
  }

  function Combined(items: seq<Item>, key: Resource, field: Field, pick: (Quantity, Quantity) -> Quantity):
    Option<Quantity> {
    Folded(Declared(items, key, field), pick)
  }

  method CombinedBound(items: seq<Item>, key: Resource, field: Field, pick: (Quantity, Quantity) -> Quantity)
    returns (result: Quantity, found: bool)
    ensures Combined(items, key, field, pick) == if found then Some(result) else None
  {
    result, found := 0, false;
    for i := 0 to |items|
      invariant Combined(items[..i], key, field, pick) == if found then Some(result) else None
    {
      DeclaredStep(items, i, key, field);
      if key !in field(items[i]) {
        continue;
      }
      var v := field(items[i])[key];
      if !found {
        result, found := v, true;
        continue;
      }
      result := pick(result, v);
    }
    assert items[..|items|] == items;
  }

  function MostRestrictiveMin(current: Quantity, candidate: Quantity): Quantity {
    if candidate > current then candidate else current
  }

  function MostRestrictiveMax(current: Quantity, candidate: Quantity): Quantity {
    if candidate < current then candidate else current
  }

  /** Which value of a list binds a minimum, and which binds a maximum or a ratio. */
  lemma {:induction false} FoldedBinds(vs: seq<Quantity>)
    ensures match Folded(vs, MostRestrictiveMin)
            case None => vs == []
            case Some(b) => b in vs && forall v :: v in vs ==> v <= b
    ensures match Folded(vs, MostRestrictiveMax)
            case None => vs == []
            case Some(b) => b in vs && forall v :: v in vs ==> b <= v
  {
    if vs != [] {
      var init, last := vs[..|vs| - 1], vs[|vs| - 1];
      FoldedBinds(init);
      assert forall v :: v in vs <==> v in init || v == last by {
        assert vs == init + [last];
      }
    }
  }

  // ----- Candidates -----

  function Dedupe(vs: seq<Quantity>): (out: seq<Quantity>)
    ensures forall v :: v in out <==> v in vs
    ensures NoDuplicates(out)
  {
    if vs == [] then []
    else
      var last, earlier := vs[|vs| - 1], Dedupe(vs[..|vs| - 1]);
      assert vs == vs[..|vs| - 1] + [last];
      if last in earlier then earlier else earlier + [last]
  }

  predicate Below(a: Quantity, b: Quantity) {
    a < b
  }

  function Distinct(items: seq<Item>, key: Resource, field: Field): seq<Quantity> {
    Sort(Dedupe(Declared(items, key, field)), Below)
  }

  lemma DistinctValues(items: seq<Item>, key: Resource, field: Field)
    ensures forall v :: v in Distinct(items, key, field) <==> v in Declared(items, key, field)
    ensures NoDuplicates(Distinct(items, key, field))
  {
    var vs := Dedupe(Declared(items, key, field));
    SortPermutes(vs, Below);
    NoDuplicatesPermuted(vs, Distinct(items, key, field));
  }

  method DistinctLimitRangeValues(items: seq<Item>, key: Resource, field: Field) returns (out: seq<Quantity>)
    ensures out == Distinct(items, key, field)
  {
    out := [];
    for i := 0 to |items|
      invariant out == Dedupe(Declared(items[..i], key, field))
    {
      DeclaredStep(items, i, key, field);
      if key !in field(items[i]) {
        continue;
      }
      var v := field(items[i])[key];
      var dup := false;
      for j := 0 to |out|
        invariant !dup && v !in out[..j]
      {
        if out[j] == v {
          dup := true;
          break;
        }
      }
      if !dup {
        out := out + [v];
      }
    }
    assert items[..|items|] == items;
    out := Sort(out, Below);
  }

  type Candidate = Option<Quantity>

  function CandidatesFromDistinct(distinct: seq<Quantity>): seq<Candidate> {
    if |distinct| == 0 then [None] else seq(|distinct|, i requires 0 <= i < |distinct| => Some(distinct[i]))
  }

  function LimitCandidates(c: Container, items: seq<Item>, key: Resource): seq<Candidate> {
    if key in c.limits then [Some(c.limits[key])]
    else CandidatesFromDistinct(Distinct(items, key, DefaultOf))
  }

  function RequestCandidates(c: Container, items: seq<Item>, key: Resource): seq<Candidate> {
    if key in c.requests then [Some(c.requests[key])]
    else if key in c.limits then [Some(c.limits[key])]
    else CandidatesFromDistinct(Distinct(items, key, DefaultRequestOf))
  }

  method CollectLimitCandidates(c: Container, items: seq<Item>, key: Resource) returns (cands: seq<Candidate>)
    ensures cands == LimitCandidates(c, items, key)
  {
    if key in c.limits {
      return [Some(c.limits[key])];
    }
    var distinct := DistinctLimitRangeValues(items, key, DefaultOf);
    return CandidatesFromDistinct(distinct);
  }

  method CollectRequestCandidates(c: Container, items: seq<Item>, key: Resource) returns (cands: seq<Candidate>)
    ensures cands == RequestCandidates(c, items, key)
  {
    if key in c.requests {
      return [Some(c.requests[key])];
    }
    if key in c.limits {
      return [Some(c.limits[key])];
    }
    var distinct := DistinctLimitRangeValues(items, key, DefaultRequestOf);
    return CandidatesFromDistinct(distinct);
  }

  predicate AnyPresent(cands: seq<Candidate>) {
    exists c :: c in cands && c.Some?
  }

  // ----- One combination -----

  /** The ratio is a quantity too: 1500 allows one and a half times the request. */
  predicate RatioExceeded(limit: Quantity, request: Quantity, ratio: Quantity) {
    limit * 1000 > ratio * request
  }

  /** In milli-units: the limit is more than so many thousandths of the request. */
  lemma RatioIs(limit: Quantity, request: Quantity, ratio: Quantity)
    requires request > 0
    ensures RatioExceeded(limit, request, ratio) <==>
            limit as real / request as real > ratio as real / 1000.0
  {
    var x, y, z := limit as real, request as real, ratio as real;
    assert x / y > z / 1000.0 <==> x * 1000.0 > z * y by {
      var q := x / y;
      assert q * y == x;
      TimesKeepsOrder(q, z / 1000.0, y);
      assert (z / 1000.0) * y * 1000.0 == z * y;
    }
    assert (limit * 1000) as real == x * 1000.0 && (ratio * request) as real == z * y;
  }

  lemma TimesKeepsOrder(a: real, b: real, y: real)
    requires y > 0.0
    ensures a > b <==> a * y > b * y
  {
  }

  function EvaluateCombo(limit: Candidate, request: Candidate, min: Option<Quantity>, max: Option<Quantity>,
                         ratio: Option<Quantity>): bool
  {
    if min.Some? && request.None? then true
    else if min.Some? && request.value < min.value then true
    else if min.Some? && limit.Some? && limit.value < min.value then true
    else if max.Some? && limit.None? then true
    else if max.Some? && limit.value > max.value then true
    else if max.Some? && request.Some? && request.value > max.value then true
    else if ratio.Some? && (request.None? || request.value == 0) then true
    else if ratio.Some? && (limit.None? || limit.value == 0) then true
    else ratio.Some? && RatioExceeded(limit.value, request.value, ratio.value)
  }

  predicate Violates(items: seq<Item>, key: Resource, limit: Candidate, request: Candidate) {
    EvaluateCombo(limit, request, Combined(items, key, MinOf, MostRestrictiveMin),
                  Combined(items, key, MaxOf, MostRestrictiveMax), Combined(items, key, RatioOf, MostRestrictiveMax))
  }

  predicate Constrained(items: seq<Item>, key: Resource) {
    exists i :: i in items && (key in i.min || key in i.max || key in i.ratio)
  }

  /** Bounds are found exactly for the keys some item constrains. */
  lemma BoundsExist(items: seq<Item>, key: Resource)
    ensures Constrained(items, key) <==>
            Combined(items, key, MinOf, MostRestrictiveMin).Some?
            || Combined(items, key, MaxOf, MostRestrictiveMax).Some?
            || Combined(items, key, RatioOf, MostRestrictiveMax).Some?
  {
    BoundExists(items, key, MinOf, MostRestrictiveMin);
    BoundExists(items, key, MaxOf, MostRestrictiveMax);
    BoundExists(items, key, RatioOf, MostRestrictiveMax);
    forall i | i in items
      ensures key in i.min <==> key in MinOf(i)
      ensures key in i.max <==> key in MaxOf(i)
      ensures key in i.ratio <==> key in RatioOf(i)
    {
    }
  }

  lemma BoundExists(items: seq<Item>, key: Resource, field: Field, pick: (Quantity, Quantity) -> Quantity)
    ensures Combined(items, key, field, pick).Some? <==> exists i :: i in items && key in field(i)
  {
    DeclaredBySome(items, key, field);
    var vs := Declared(items, key, field);
    assert |vs| > 0 ==> vs[0] in vs;
    if i :| i in items && key in field(i) {
      assert Lookup(field(i), key) == Some(field(i)[key]);
      assert field(i)[key] in vs;
    }
  }

  // ----- One container -----

  ghost predicate SomeViolates(c: Container, items: seq<Item>, key: Resource) {
    exists l, r :: l in LimitCandidates(c, items, key) && r in RequestCandidates(c, items, key)
                   && Violates(items, key, l, r)
  }

  ghost predicate AllViolate(c: Container, items: seq<Item>, key: Resource) {
    forall l, r :: l in LimitCandidates(c, items, key) && r in RequestCandidates(c, items, key)
                   ==> Violates(items, key, l, r)
  }

  ghost predicate SilentlyDefaulted(c: Container, items: seq<Item>, key: Resource) {
    || (key !in c.limits && AnyPresent(LimitCandidates(c, items, key)))
    || (key !in c.requests && AnyPresent(RequestCandidates(c, items, key)))
  }

  datatype LimitFinding = Violation(key: Resource, severity: Severity) | Defaulted(keys: seq<Resource>)

  /** What the check says about one key: an unconstrained key is never looked at. */
  ghost function Violations(c: Container, items: seq<Item>, key: Resource): seq<LimitFinding> {
    if !Constrained(items, key) || !SomeViolates(c, items, key) then []
    else [Violation(key, if AllViolate(c, items, key) then High else Medium)]
  }

  ghost function DefaultedKeys(c: Container, items: seq<Item>, key: Resource): seq<Resource> {
    if Constrained(items, key) && !SomeViolates(c, items, key) && SilentlyDefaulted(c, items, key) then [key] else []
  }

  ghost function AllViolations(c: Container, items: seq<Item>, keys: seq<Resource>): seq<LimitFinding> {
    if keys == [] then [] else AllViolations(c, items, keys[..|keys| - 1]) + Violations(c, items, keys[|keys| - 1])
  }

  ghost function AllDefaulted(c: Container, items: seq<Item>, keys: seq<Resource>): seq<Resource> {
    if keys == [] then [] else AllDefaulted(c, items, keys[..|keys| - 1]) + DefaultedKeys(c, items, keys[|keys| - 1])
  }

  ghost function ContainerFindings(c: Container, items: seq<Item>, keys: seq<Resource>): seq<LimitFinding> {
    var defaulted := AllDefaulted(c, items, keys);
    AllViolations(c, items, keys) + if defaulted == [] then [] else [Defaulted(Sort(defaulted, StringLess))]
  }

  /** Every pair a limit forms violates (`bad`), or none does. */
  ghost predicate Row(items: seq<Item>, key: Resource, limit: Candidate, requests: seq<Candidate>, bad: bool) {
    forall r :: r in requests ==> Violates(items, key, limit, r) == bad
  }

  ghost predicate Rows(items: seq<Item>, key: Resource, limits: seq<Candidate>, requests: seq<Candidate>, bad: bool) {
    forall l :: l in limits ==> Row(items, key, l, requests, bad)
  }

  /** Evaluates the whole cross product and counts. */
  method CountViolations(items: seq<Item>, key: Resource, limits: seq<Candidate>, requests: seq<Candidate>,
                         min: Option<Quantity>, max: Option<Quantity>, ratio: Option<Quantity>)
    returns (total: nat, violating: nat)
    requires min == Combined(items, key, MinOf, MostRestrictiveMin)
    requires max == Combined(items, key, MaxOf, MostRestrictiveMax)
    requires ratio == Combined(items, key, RatioOf, MostRestrictiveMax)
    requires limits != [] && requests != []
    ensures total == |limits| * |requests| && total >= 1
    ensures violating <= total
    ensures violating == 0 <==> Rows(items, key, limits, requests, false)
    ensures violating == total <==> Rows(items, key, limits, requests, true)
  {
    hide Combined, EvaluateCombo, Row;
    total, violating := 0, 0;
    for i := 0 to |limits|
      invariant total == i * |requests| && violating <= total
      invariant violating == 0 <==> Rows(items, key, limits[..i], requests, false)
      invariant violating == total <==> Rows(items, key, limits[..i], requests, true)
    {
      assert limits[..i + 1] == limits[..i] + [limits[i]];
      var bad := CountRow(items, key, limits[i], requests, min, max, ratio);
      total := total + |requests|;
      violating := violating + bad;
      assert (i + 1) * |requests| == i * |requests| + |requests|;
    }
    assert limits[..|limits|] == limits;
  }

  method CountRow(items: seq<Item>, key: Resource, limit: Candidate, requests: seq<Candidate>,
                  min: Option<Quantity>, max: Option<Quantity>, ratio: Option<Quantity>)
    returns (bad: nat)
    requires min == Combined(items, key, MinOf, MostRestrictiveMin)
    requires max == Combined(items, key, MaxOf, MostRestrictiveMax)
    requires ratio == Combined(items, key, RatioOf, MostRestrictiveMax)
    ensures bad <= |requests|
    ensures bad == 0 <==> Row(items, key, limit, requests, false)
    ensures bad == |requests| <==> Row(items, key, limit, requests, true)
  {
    hide Combined, EvaluateCombo;
    bad := 0;
    for j := 0 to |requests|
      invariant bad <= j
      invariant bad == 0 <==> Row(items, key, limit, requests[..j], false)
      invariant bad == j <==> Row(items, key, limit, requests[..j], true)
    {
      assert requests[..j + 1] == requests[..j] + [requests[j]];
      var violates := EvaluateCombo(limit, requests[j], min, max, ratio);
      assert Violates(items, key, limit, requests[j]) == violates && requests[j] in requests[..j + 1];
      if violates {
        bad := bad + 1;
      }
    }
    assert requests[..|requests|] == requests;
  }

  method EvaluateContainer(c: Container, items: seq<Item>, keys: seq<Resource>) returns (findings: seq<LimitFinding>)
    ensures findings == ContainerFindings(c, items, keys)
  {
    findings := [];
    var defaulted := [];
    for i := 0 to |keys|
      invariant findings == AllViolations(c, items, keys[..i])
      invariant defaulted == AllDefaulted(c, items, keys[..i])
    {
      assert keys[..i + 1][..i] == keys[..i];
      var found, silent := EvaluateKey(c, items, keys[i]);
      findings := findings + found;
      if silent {
        defaulted := defaulted + [keys[i]];
      }
    }
    assert keys[..|keys|] == keys;
    if |defaulted| > 0 {
      findings := findings + [Defaulted(Sort(defaulted, StringLess))];
    }
  }

  /** The body of the loop over keys. */
  method EvaluateKey(c: Container, items: seq<Item>, key: Resource) returns (found: seq<LimitFinding>, silent: bool)
    ensures found == Violations(c, items, key)
    ensures DefaultedKeys(c, items, key) == if silent then [key] else []
  {
    hide Combined, Violates, Distinct;
    var minBound, minOk := CombinedBound(items, key, MinOf, MostRestrictiveMin);
    var maxBound, maxOk := CombinedBound(items, key, MaxOf, MostRestrictiveMax);
    var ratioBound, ratioOk := CombinedBound(items, key, RatioOf, MostRestrictiveMax);
    BoundsExist(items, key);
    if !minOk && !maxOk && !ratioOk {
      return [], false;
    }
    var limits := CollectLimitCandidates(c, items, key);
    var requests := CollectRequestCandidates(c, items, key);
    var total, violating := CountViolations(items, key, limits, requests,
                                            if minOk then Some(minBound) else None,
                                            if maxOk then Some(maxBound) else None,
                                            if ratioOk then Some(ratioBound) else None);
    if violating == 0 {
      var limitDefaulted := key !in c.limits && AnyPresent(limits);
      var requestDefaulted := key !in c.requests && AnyPresent(requests);
      return [], limitDefaulted || requestDefaulted;
    }
    var nondeterministic := total > 1 && violating < total;
    return [Violation(key, if nondeterministic then Medium else High)], false;
  }

  // ----- The whole check -----

  datatype Named = Named(container: string, init: bool, finding: LimitFinding)

  datatype CheckResult = Skipped(reason: string) | Reported(findings: seq<Named>)

  function Labelled(c: Container, init: bool, findings: seq<LimitFinding>): (out: seq<Named>)
    ensures |out| == |findings|
    ensures forall i :: 0 <= i < |out| ==> out[i] == Named(c.name, init, findings[i])
  {
    seq(|findings|, i requires 0 <= i < |findings| => Named(c.name, init, findings[i]))
  }

  ghost function PodFindings(cs: seq<Container>, init: bool, items: seq<Item>, keys: seq<Resource>): seq<Named> {
    if cs == [] then []
    else
      PodFindings(cs[..|cs| - 1], init, items, keys)
      + Labelled(cs[|cs| - 1], init, ContainerFindings(cs[|cs| - 1], items, keys))
  }

  method EvaluateAll(cs: seq<Container>, init: bool, items: seq<Item>, keys: seq<Resource>)
    returns (findings: seq<Named>)
    ensures findings == PodFindings(cs, init, items, keys)
  {
    findings := [];
    for i := 0 to |cs|
      invariant findings == PodFindings(cs[..i], init, items, keys)
    {
      assert cs[..i + 1][..i] == cs[..i];
      var found := EvaluateContainer(cs[i], items, keys);
      findings := findings + Labelled(cs[i], init, found);
    }
    assert cs[..|cs|] == cs;
  }

  method Run(list: Result<seq<Object>>, containers: seq<Container>, inits: seq<Container>) returns (r: CheckResult)
    ensures list.Err? ==> r == Skipped(list.error)
    ensures list.Ok? ==>
              exists keys :: Lists(keys, ItemsOf(list.value))
                             && r == Reported(PodFindings(containers, false, ItemsOf(list.value), keys)
                                              + PodFindings(inits, true, ItemsOf(list.value), keys))
  {
    if list.Err? {
      return Skipped(list.error);
    }
    var items := ContainerLimitItems(list.value);
    if |items| == 0 {
      NothingMentioned(containers, false);
      NothingMentioned(inits, true);
      assert Lists([], items);
      return Reported([]);
    }
    var keys := RelevantKeys(items);
    var regular := EvaluateAll(containers, false, items, keys);
    var init := EvaluateAll(inits, true, items, keys);
    return Reported(regular + init);
  }

  /** There is only one such list, so the findings are determined. */
  lemma OnlyOneList(a: seq<Resource>, b: seq<Resource>, items: seq<Item>)
    requires Lists(a, items) && Lists(b, items)
    ensures a == b
  {
    StringLessIsStrictWeak();
    SameElements(a, b);
    forall i, j | 0 <= i < j < |a|
      ensures !StringLess(a[j], a[i])
    {
      assert StringLess(a[i], a[j]) && !StringLess(a[i], a[i]);
    }
    forall i, j | 0 <= i < j < |b|
      ensures !StringLess(b[j], b[i])
    {
      assert StringLess(b[i], b[j]) && !StringLess(b[i], b[i]);
    }
    OrderedUnique(a, b, StringLess);
  }

  lemma {:induction false} NothingMentioned(cs: seq<Container>, init: bool)
    ensures PodFindings(cs, init, [], []) == []
  {
    if cs != [] { NothingMentioned(cs[..|cs| - 1], init); }
  }
}
