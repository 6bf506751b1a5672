/**
 What a run of the config-references check reports (internal/check/configrefs.go), said of the pod
 template and the cluster alone: which fields refer to what, and what of it is not there.
 */
module ConfigRefRuns {
  import opened Base
  import opened ConfigRefs

  // ----- What a template refers to -----

  /** A field of a container names the object, or one key of it. */
  ghost predicate ContainerRefers(c: Container, ref: Ref) {
    && ref.source == c.name
    && match ref.kind
       case ConfigMap =>
         || (ref.key == "" && exists ef :: ef in c.envFrom && ef.configMap == Some(ObjectRef(ref.name, ref.optional)))
         || (exists e :: e in c.env && e.configMapKey == Some(KeyRef(ref.name, ref.key, ref.optional)))
       case Secret =>
         || (ref.key == "" && exists ef :: ef in c.envFrom && ef.secret == Some(ObjectRef(ref.name, ref.optional)))
         || (exists e :: e in c.env && e.secretKey == Some(KeyRef(ref.name, ref.key, ref.optional)))
  }

  /** Without items a volume takes the whole object, with items the keys they list. */
  ghost predicate SourceRefers(s: VolumeSource, ref: Ref) {
    ref.name == s.name && ref.optional == s.optional && if s.items == [] then ref.key == "" else ref.key in s.items
  }

  /** The Secret of a volume counts unless the volume also takes a whole ConfigMap. */
  ghost predicate VolumeRefers(v: Volume, ref: Ref) {
    && ref.source == v.name
    && match ref.kind
       case ConfigMap => v.configMap.Some? && SourceRefers(v.configMap.value, ref)
       case Secret =>
         && v.secret.Some? && SourceRefers(v.secret.value, ref)
         && (v.configMap.Some? ==> v.configMap.value.items != [])
  }

  ghost predicate Refers(containers: seq<Container>, volumes: seq<Volume>, ref: Ref) {
    (exists c :: c in containers && ContainerRefers(c, ref)) || (exists v :: v in volumes && VolumeRefers(v, ref))
  }

  lemma {:induction false} GatheredAre<T>(xs: seq<T>, of: T -> seq<Ref>, ref: Ref)
    ensures ref in Gathered(xs, of) <==> exists x :: x in xs && ref in of(x)
  {
    if xs != [] {
      assert xs == xs[..|xs| - 1] + [xs[|xs| - 1]];
      GatheredAre(xs[..|xs| - 1], of, ref);
    }
  }

  /** References are listed in the order of the template. */
  lemma {:induction false} GatheredInOrder<T>(a: seq<T>, b: seq<T>, of: T -> seq<Ref>)
    ensures Gathered(a + b, of) == Gathered(a, of) + Gathered(b, of)
  {
    if b == [] {
      assert a + b == a;
    } else {
      var ab := a + b;
      assert ab[..|ab| - 1] == a + b[..|b| - 1];
      GatheredInOrder(a, b[..|b| - 1], of);
    }
  }

  lemma ContainerRefsAre(c: Container, ref: Ref)
    ensures ref in OfContainer(c) <==> ContainerRefers(c, ref)
  {
    GatheredAre(c.envFrom, ef => OfEnvFrom(c.name, ef), ref);
    GatheredAre(c.env, e => OfEnv(c.name, e), ref);
    hide Gathered;
  }

  lemma ItemsAre(v: string, kind: Kind, s: VolumeSource, ref: Ref)
    ensures ref in OfItems(v, kind, s) <==> ref.source == v && ref.kind == kind && SourceRefers(s, ref)
  {
    var refs := OfItems(v, kind, s);
    if s.items != [] && ref.source == v && ref.kind == kind && SourceRefers(s, ref) {
      var i :| 0 <= i < |s.items| && s.items[i] == ref.key;
      assert refs[i] == ref;
    }
  }

  lemma VolumeRefsAre(v: Volume, ref: Ref)
    ensures ref in OfVolume(v) <==> VolumeRefers(v, ref)
  {
    hide OfItems, SourceRefers;
    if v.configMap.Some? {
      ItemsAre(v.name, ConfigMap, v.configMap.value, ref);
    }
    if v.secret.Some? {
      ItemsAre(v.name, Secret, v.secret.value, ref);
    }
  }

  function RefsOf(containers: seq<Container>, volumes: seq<Volume>): seq<Ref> {
    Gathered(containers, OfContainer) + Gathered(volumes, OfVolume)
  }

  /** The check collects exactly what the fields of the template refer to. */
  lemma RefsAre(containers: seq<Container>, volumes: seq<Volume>, ref: Ref)
    ensures ref in RefsOf(containers, volumes) <==> Refers(containers, volumes, ref)
  {
    GatheredAre(containers, OfContainer, ref);
    GatheredAre(volumes, OfVolume, ref);
    hide Gathered, OfContainer, OfVolume, ContainerRefers, VolumeRefers;
    forall c | c in containers
      ensures ref in OfContainer(c) <==> ContainerRefers(c, ref)
    {
      ContainerRefsAre(c, ref);
    }
    forall v | v in volumes
      ensures ref in OfVolume(v) <==> VolumeRefers(v, ref)
    {
      VolumeRefsAre(v, ref);
    }
  }

  // ----- What is reported -----

  ghost predicate Absent(cluster: Cluster, ref: Ref) {
    match ref.kind
    case ConfigMap => cluster.configMaps(ref.name) == NotFound
    case Secret => cluster.secrets(ref.name) == NotFound
  }

  ghost predicate CannotBeRead(cluster: Cluster, ref: Ref) {
    match ref.kind
    case ConfigMap => cluster.configMaps(ref.name).Unreadable?
    case Secret => cluster.secrets(ref.name).Unreadable?
  }

  /** The object is there and does not have the key, under data or, in a ConfigMap, binaryData. */
  ghost predicate LacksKey(cluster: Cluster, ref: Ref) {
    && ref.key != ""
    && match ref.kind
       case ConfigMap =>
         && cluster.configMaps(ref.name).Found?
         && ref.key !in cluster.configMaps(ref.name).value.data
         && ref.key !in cluster.configMaps(ref.name).value.binaryData
       case Secret => cluster.secrets(ref.name).Found? && ref.key !in cluster.secrets(ref.name).value
  }

  lemma {:induction false} FailsExactly(cluster: Cluster, refs: seq<Ref>)
    ensures FindingsOf(cluster, refs).Err? <==> exists r :: r in refs && CannotBeRead(cluster, r)
  {
    hide RefFindings;
    if refs != [] {
      var last := refs[|refs| - 1];
      assert refs == refs[..|refs| - 1] + [last];
      FailsExactly(cluster, refs[..|refs| - 1]);
      assert CannotBeRead(cluster, last) <==> Direct(cluster, last).Err?;
    }
  }

  /** Some finding reports the object of the reference missing. */
  ghost predicate Reported(fs: seq<Finding>, ref: Ref) {
    exists s :: MissingObject(s) in fs && s.kind == ref.kind && s.name == ref.name
  }

  lemma {:induction false} FindingsOfRefs(cluster: Cluster, refs: seq<Ref>)
    requires FindingsOf(cluster, refs).Ok?
    ensures var fs := FindingsOf(cluster, refs).value;
            && (forall r :: MissingKey(r) in fs <==> r in refs && !r.optional && LacksKey(cluster, r))
            && (forall r :: MissingObject(r) in fs ==> r in refs && !r.optional && Absent(cluster, r))
            && (forall r :: r in refs && !r.optional && Absent(cluster, r) ==> Reported(fs, r))
  {
    if refs == [] {
      assert FindingsOf(cluster, refs).value == [];
    } else {
      var before, ref := refs[..|refs| - 1], refs[|refs| - 1];
      assert refs == before + [ref];
      FindingsOfRefs(cluster, before);
      FindingsStep(cluster, before, ref);
      hide RefFindings, Direct, LacksKey, Absent, FindingsOf, Reported;
      OneRef(cluster, before, ref);
      var fs, more := FindingsOf(cluster, before).value, RefFindings(cluster, before, ref);
      forall r | r in refs && !r.optional && Absent(cluster, r)
        ensures Reported(fs + more, r)
      {
        if r in before {
          StillReported(fs, more, r, r);
        } else if Needed(before, ref.kind, ref.name) {
          var n :| n in before && Needs(n, ref.kind, ref.name);
          SameObject(cluster, n, ref);
          StillReported(fs, more, n, ref);
        } else {
          assert MissingObject(ref) in fs + more;
          NowReported(fs + more, ref);
        }
      }
    }
  }

  lemma NowReported(fs: seq<Finding>, ref: Ref)
    requires MissingObject(ref) in fs
    ensures Reported(fs, ref)
  {
  }

  lemma StillReported(fs: seq<Finding>, more: seq<Finding>, ref: Ref, other: Ref)
    requires Reported(fs, ref) && ref.kind == other.kind && ref.name == other.name
    ensures Reported(fs + more, other)
  {
    var s :| MissingObject(s) in fs && s.kind == ref.kind && s.name == ref.name;
    assert MissingObject(s) in fs + more;
  }

  lemma SameObject(cluster: Cluster, a: Ref, b: Ref)
    requires a.kind == b.kind && a.name == b.name
    ensures Absent(cluster, a) <==> Absent(cluster, b)
  {
  }

  lemma OneRef(cluster: Cluster, before: seq<Ref>, ref: Ref)
    requires Direct(cluster, ref).Ok?
    ensures forall f :: f in RefFindings(cluster, before, ref) <==>
              !ref.optional
              && ((f == MissingKey(ref) && LacksKey(cluster, ref))
                  || (f == MissingObject(ref) && Absent(cluster, ref) && !Needed(before, ref.kind, ref.name)))
  {
    hide Needed;
  }

  lemma RefsAreAll(containers: seq<Container>, volumes: seq<Volume>)
    ensures forall r :: r in RefsOf(containers, volumes) <==> Refers(containers, volumes, r)
  {
    forall r: Ref
      ensures r in RefsOf(containers, volumes) <==> Refers(containers, volumes, r)
    {
      RefsAre(containers, volumes, r);
    }
  }

  /** A run skips exactly when some object the template refers to, optionally or not, cannot be read. */
  lemma RunSkips(cluster: Cluster, containers: seq<Container>, volumes: seq<Volume>)
    ensures FindingsOf(cluster, RefsOf(containers, volumes)).Err? <==>
            exists r :: Refers(containers, volumes, r) && CannotBeRead(cluster, r)
  {
    hide FindingsOf, RefsOf, Refers, CannotBeRead;
    FailsExactly(cluster, RefsOf(containers, volumes));
    RefsAreAll(containers, volumes);
  }

  /**
   A run reports a missing key exactly for the references that are not optional and whose object
   lacks it, and a missing object exactly when a reference that is not optional names one that is
   not there.
   */
  lemma RunReports(cluster: Cluster, containers: seq<Container>, volumes: seq<Volume>, ref: Ref)
    requires FindingsOf(cluster, RefsOf(containers, volumes)).Ok?
    ensures var found := FindingsOf(cluster, RefsOf(containers, volumes)).value;
            var required := Refers(containers, volumes, ref) && !ref.optional;
            && (MissingKey(ref) in found <==> required && LacksKey(cluster, ref))
            && (MissingObject(ref) in found ==> required && Absent(cluster, ref))
            && (required && Absent(cluster, ref) ==> Reported(found, ref))
  {
    hide FindingsOf, RefsOf, Refers, LacksKey, Absent, Reported;
    RefsAreAll(containers, volumes);
    FindingsOfRefs(cluster, RefsOf(containers, volumes));
  }
}
