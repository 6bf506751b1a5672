/** Label selectors as metav1.LabelSelectorAsSelector reads them. */
module Labels {
  import opened Base

  type LabelSet = map<string, string>

  datatype Operator = In | NotIn | Exists | DoesNotExist | Unknown

  datatype Requirement = Requirement(key: string, operator: Operator, values: seq<string>)

  /** `legal`: the keys and values are syntactically valid label keys and values. */
  datatype LabelSelector = LabelSelector(matchLabels: LabelSet, matchExpressions: seq<Requirement>, legal: bool)

  predicate WellFormed(r: Requirement) {
    match r.operator
    case In => r.values != []
    case NotIn => r.values != []
    case Exists => r.values == []
    case DoesNotExist => r.values == []
    case Unknown => false
  }

  predicate Holds(r: Requirement, labels: LabelSet)
    requires WellFormed(r)
  {
    match r.operator
    case In => r.key in labels && labels[r.key] in r.values
    case NotIn => r.key !in labels || labels[r.key] !in r.values
    case Exists => r.key in labels
    case DoesNotExist => r.key !in labels
  }

  predicate Malformed(sel: LabelSelector) {
    !IsEmpty(sel) && (!sel.legal || exists r :: r in sel.matchExpressions && !WellFormed(r))
  }

  predicate IsEmpty(sel: LabelSelector) {
    sel.matchLabels == map[] && sel.matchExpressions == []
  }

  /** None for a malformed selector; no selector at all selects nothing, an empty one everything. */
  function Selects(sel: Option<LabelSelector>, labels: LabelSet): (m: Option<bool>)
    ensures sel.None? ==> m == Some(false)
    ensures sel.Some? && IsEmpty(sel.value) ==> m == Some(true)
    ensures m.None? <==> sel.Some? && Malformed(sel.value)
  {
    if sel.None? then Some(false)
    else if Malformed(sel.value) then None
    else
      Some((forall k :: k in sel.value.matchLabels ==> k in labels && labels[k] == sel.value.matchLabels[k])
           && (forall r :: r in sel.value.matchExpressions ==> Holds(r, labels)))
  }

  /** The selector is well formed and selects the labels. */
  predicate Picks(sel: Option<LabelSelector>, labels: LabelSet) {
    Selects(sel, labels) == Some(true)
  }

  // ----- What selectors mean -----

  /** In lists what the label may be, NotIn and DoesNotExist are the opposites of In and Exists. */
  lemma OperatorsMean(key: string, values: seq<string>, labels: LabelSet)
    requires values != []
    ensures Holds(Requirement(key, In, values), labels) <==> exists v :: v in values && Lookup(labels, key) == Some(v)
    ensures Holds(Requirement(key, NotIn, values), labels) <==> !Holds(Requirement(key, In, values), labels)
    ensures Holds(Requirement(key, Exists, []), labels) <==> exists v :: Lookup(labels, key) == Some(v)
    ensures Holds(Requirement(key, DoesNotExist, []), labels) <==> !Holds(Requirement(key, Exists, []), labels)
  {
    if key in labels {
      assert Lookup(labels, key) == Some(labels[key]);
    }
  }

  /** A label asked for by value is a requirement with one value. */
  lemma LabelIsRequirement(key: string, value: string, labels: LabelSet)
    ensures Selects(Some(LabelSelector(map[key := value], [], true)), labels) ==
            Selects(Some(LabelSelector(map[], [Requirement(key, In, [value])], true)), labels)
  {
    var byLabel, byValue := map[key := value], [Requirement(key, In, [value])];
    assert key in byLabel && byValue[0] in byValue;
  }

  /** A selector asks for everything it lists: together two lists select what both select. */
  lemma SelectorsConjoin(sel: LabelSelector, a: seq<Requirement>, b: seq<Requirement>, labels: LabelSet)
    requires sel.legal && sel.matchExpressions == a + b && !Malformed(sel)
    ensures Selects(Some(sel), labels) == Some(true) <==>
            && Selects(Some(sel.(matchExpressions := a)), labels) == Some(true)
            && Selects(Some(sel.(matchLabels := map[], matchExpressions := b)), labels) == Some(true)
  {
    assert forall r :: r in sel.matchExpressions <==> r in a || r in b;
  }

  /** An empty list of values, or values where none belong, makes the selector malformed. */
  lemma MalformedIs(sel: LabelSelector)
    ensures Malformed(sel) <==>
            && (sel.matchLabels != map[] || sel.matchExpressions != [])
            && (!sel.legal
                || exists r :: r in sel.matchExpressions
                               && (r.operator.Unknown?
                                   || ((r.operator.In? || r.operator.NotIn?) && |r.values| == 0)
                                   || ((r.operator.Exists? || r.operator.DoesNotExist?) && |r.values| > 0)))
  {
    forall r | r in sel.matchExpressions
      ensures WellFormed(r) <==>
              !r.operator.Unknown?
              && ((r.operator.In? || r.operator.NotIn?) ==> |r.values| > 0)
              && ((r.operator.Exists? || r.operator.DoesNotExist?) ==> |r.values| == 0)
    {
    }
    hide WellFormed;
  }
}
