/**
 The config-references check (internal/check/configrefs.go): which ConfigMaps, Secrets and
 keys a pod template refers to, a resolver that remembers what it read, and the findings.
 */
module ConfigRefs {
  import opened Base

  datatype Kind = ConfigMap | Secret

  /** An empty key refers to the whole object. */
  datatype Ref = Ref(kind: Kind, name: string, key: string, optional: bool, source: string)

  // ----- Collecting the references -----

  datatype ObjectRef = ObjectRef(name: string, optional: bool)

  datatype KeyRef = KeyRef(name: string, key: string, optional: bool)

  datatype EnvFrom = EnvFrom(configMap: Option<ObjectRef>, secret: Option<ObjectRef>)

  datatype Env = Env(name: string, configMapKey: Option<KeyRef>, secretKey: Option<KeyRef>)

  datatype Container = Container(name: string, envFrom: seq<EnvFrom>, env: seq<Env>)

  datatype VolumeSource = VolumeSource(name: string, optional: bool, items: seq<string>)

  datatype Volume = Volume(name: string, configMap: Option<VolumeSource>, secret: Option<VolumeSource>)

  function OfEnvFrom(c: string, ef: EnvFrom): seq<Ref> {
    (if ef.configMap.Some? then [Ref(ConfigMap, ef.configMap.value.name, "", ef.configMap.value.optional, c)] else [])
    + (if ef.secret.Some? then [Ref(Secret, ef.secret.value.name, "", ef.secret.value.optional, c)] else [])
  }

  function OfEnv(c: string, e: Env): seq<Ref> {
    (if e.configMapKey.Some? then
       [Ref(ConfigMap, e.configMapKey.value.name, e.configMapKey.value.key, e.configMapKey.value.optional, c)]
     else [])
    + (if e.secretKey.Some? then
         [Ref(Secret, e.secretKey.value.name, e.secretKey.value.key, e.secretKey.value.optional, c)]
       else [])
  }

  function OfItems(v: string, kind: Kind, s: VolumeSource): seq<Ref> {
    if s.items == [] then [Ref(kind, s.name, "", s.optional, v)]
    else seq(|s.items|, i requires 0 <= i < |s.items| => Ref(kind, s.name, s.items[i], s.optional, v))
  }

  /** A volume that projects a whole ConfigMap is not looked at for a Secret. */
  function OfVolume(v: Volume): seq<Ref> {
    if v.configMap.Some? && v.configMap.value.items == [] then OfItems(v.name, ConfigMap, v.configMap.value)
    else
      (if v.configMap.Some? then OfItems(v.name, ConfigMap, v.configMap.value) else [])
      + (if v.secret.Some? then OfItems(v.name, Secret, v.secret.value) else [])
  }

  /** What `of` yields for each element, in order. */
  function Gathered<T>(xs: seq<T>, of: T -> seq<Ref>): seq<Ref> {
    if xs == [] then [] else Gathered(xs[..|xs| - 1], of) + of(xs[|xs| - 1])
  }

  function OfContainer(c: Container): seq<Ref> {
    Gathered(c.envFrom, ef => OfEnvFrom(c.name, ef)) + Gathered(c.env, e => OfEnv(c.name, e))
  }

  method Gather<T>(xs: seq<T>, of: T -> seq<Ref>) returns (refs: seq<Ref>)
    ensures refs == Gathered(xs, of)
  {
    refs := [];
    for i := 0 to |xs|
      invariant refs == Gathered(xs[..i], of)
    {
      assert xs[..i + 1][..i] == xs[..i];
      refs := refs + of(xs[i]);
    }
    assert xs[..|xs|] == xs;
  }

  method CollectRefs(containers: seq<Container>, volumes: seq<Volume>) returns (refs: seq<Ref>)
    ensures refs == Gathered(containers, OfContainer) + Gathered(volumes, OfVolume)
  {
    var fromContainers := Gather(containers, OfContainer);
    var fromVolumes := Gather(volumes, OfVolume);
    return fromContainers + fromVolumes;
  }

  // ----- The cluster, and reading it directly -----

  datatype Got<T> = Found(value: T) | NotFound | Unreadable(error: string)

  datatype ConfigMapObject = ConfigMapObject(data: set<string>, binaryData: set<string>)

  /** Does not change while the check runs. */
  datatype Cluster = Cluster(configMaps: string -> Got<ConfigMapObject>, secrets: string -> Got<set<string>>)

  datatype Answer = Answer(present: bool, hasKey: bool)

  /** What a fresh Get for every reference would answer. */
  function Direct(cluster: Cluster, ref: Ref): Result<Answer> {
    match ref.kind
    case ConfigMap =>
      (match cluster.configMaps(ref.name)
       case NotFound => Ok(Answer(false, false))
       case Unreadable(e) => Err(e)
       case Found(cm) => Ok(Answer(true, ref.key != "" && (ref.key in cm.data || ref.key in cm.binaryData))))
    case Secret =>
      (match cluster.secrets(ref.name)
       case NotFound => Ok(Answer(false, false))
       case Unreadable(e) => Err(e)
       case Found(s) => Ok(Answer(true, ref.key != "" && ref.key in s)))
  }

  predicate IsMissing(cluster: Cluster, kind: Kind, name: string) {
    if kind.ConfigMap? then cluster.configMaps(name).NotFound? else cluster.secrets(name).NotFound?
  }

  // ----- The resolver -----

  function KindName(kind: Kind): string {
    match kind case ConfigMap => "ConfigMap" case Secret => "Secret"
  }

  function CacheKey(kind: Kind, name: string): string {
    KindName(kind) + "/" + name
  }

  /** One string stands for one object: a ConfigMap and a Secret of the same name never share it. */
  lemma CacheKeyIsInjective(kind: Kind, name: string, other: Kind, otherName: string)
    requires CacheKey(kind, name) == CacheKey(other, otherName)
    ensures kind == other && name == otherName
  {
    assert CacheKey(kind, name)[0] == KindName(kind)[0] && CacheKey(other, otherName)[0] == KindName(other)[0];
    assert CacheKey(kind, name)[|KindName(kind)| + 1..] == name;
    assert CacheKey(other, otherName)[|KindName(other)| + 1..] == otherName;
  }

  /** `gets` is every Get issued so far. */
  class Resolver {
    const cluster: Cluster
    var configMaps: map<string, ConfigMapObject>
    var secrets: map<string, set<string>>
    var missing: set<string>
    ghost var gets: seq<(Kind, string)>

    ghost predicate Cached(kind: Kind, name: string)
      reads this
    {
      || CacheKey(kind, name) in missing
      || (if kind.ConfigMap? then name in configMaps else name in secrets)
    }

    ghost predicate Valid()
      reads this
    {
      && (forall n :: n in configMaps ==> cluster.configMaps(n) == Found(configMaps[n]))
      && (forall n :: n in secrets ==> cluster.secrets(n) == Found(secrets[n]))
      && (forall kind, n :: CacheKey(kind, n) in missing ==> IsMissing(cluster, kind, n))
      && (forall kind, n :: (kind, n) in gets <==> Cached(kind, n))
      && NoDuplicates(gets)
    }

    constructor (cluster: Cluster)
      ensures Valid() && this.cluster == cluster && gets == []
    {
      this.cluster := cluster;
      configMaps, secrets, missing, gets := map[], map[], {}, [];
    }

    /** The same answer as a direct read, with at most one Get, and never a second one for the same object. */
    method Resolve(ref: Ref) returns (r: Result<Answer>)
      requires Valid()
      modifies this
      ensures r == Direct(cluster, ref)
      ensures r.Ok? ==> Valid()
      ensures NoDuplicates(gets)
      ensures gets == old(gets) || gets == old(gets) + [(ref.kind, ref.name)]
    {
      var cacheKey := CacheKey(ref.kind, ref.name);
      if cacheKey in missing {
        return Ok(Answer(false, false));
      }
      match ref.kind
      case ConfigMap =>
        if ref.name !in configMaps {
          r := FetchConfigMap(ref);
          if r != Ok(Answer(true, false)) {
            return;
          }
        }
        if ref.key == "" {
          return Ok(Answer(true, false));
        }
        var cm := configMaps[ref.name];
        return Ok(Answer(true, ref.key in cm.data || ref.key in cm.binaryData));
      case Secret =>
        if ref.name !in secrets {
          r := FetchSecret(ref);
          if r != Ok(Answer(true, false)) {
            return;
          }
        }
        if ref.key == "" {
          return Ok(Answer(true, false));
        }
        return Ok(Answer(true, ref.key in secrets[ref.name]));
    }

    method FetchConfigMap(ref: Ref) returns (r: Result<Answer>)
      requires Valid() && ref.kind.ConfigMap? && !Cached(ref.kind, ref.name)
      modifies this
      ensures gets == old(gets) + [(ref.kind, ref.name)] && NoDuplicates(gets)
      ensures r == match cluster.configMaps(ref.name)
                   case NotFound => Ok(Answer(false, false))
                   case Unreadable(e) => Err(e)
                   case Found(_) => Ok(Answer(true, false))
      ensures r.Ok? ==> Valid()
      ensures r == Ok(Answer(true, false)) ==> ref.name in configMaps
    {
      gets := gets + [(ref.kind, ref.name)];
      match cluster.configMaps(ref.name)
      case Found(cm) =>
        configMaps := configMaps[ref.name := cm];
        return Ok(Answer(true, false));
      case NotFound =>
        missing := missing + {CacheKey(ref.kind, ref.name)};
        OnlyItself(ref);
        return Ok(Answer(false, false));
      case Unreadable(e) =>
        return Err(e);
    }

    method FetchSecret(ref: Ref) returns (r: Result<Answer>)
      requires Valid() && ref.kind.Secret? && !Cached(ref.kind, ref.name)
      modifies this
      ensures gets == old(gets) + [(ref.kind, ref.name)] && NoDuplicates(gets)
      ensures r == match cluster.secrets(ref.name)
                   case NotFound => Ok(Answer(false, false))
                   case Unreadable(e) => Err(e)
                   case Found(_) => Ok(Answer(true, false))
      ensures r.Ok? ==> Valid()
      ensures r == Ok(Answer(true, false)) ==> ref.name in secrets
    {
      gets := gets + [(ref.kind, ref.name)];
      match cluster.secrets(ref.name)
      case Found(s) =>
        secrets := secrets[ref.name := s];
        return Ok(Answer(true, false));
      case NotFound =>
        missing := missing + {CacheKey(ref.kind, ref.name)};
        OnlyItself(ref);
        return Ok(Answer(false, false));
      case Unreadable(e) =>
        return Err(e);
    }
  }

  lemma OnlyItself(ref: Ref)
    ensures forall kind, n :: CacheKey(kind, n) == CacheKey(ref.kind, ref.name) ==> kind == ref.kind && n == ref.name
  {
    forall kind, n | CacheKey(kind, n) == CacheKey(ref.kind, ref.name)
      ensures kind == ref.kind && n == ref.name
    {
      CacheKeyIsInjective(kind, n, ref.kind, ref.name);
    }
  }

  // ----- The findings -----

  datatype Finding = MissingObject(ref: Ref) | MissingKey(ref: Ref)

  predicate Needs(ref: Ref, kind: Kind, name: string) {
    !ref.optional && ref.kind == kind && ref.name == name
  }

  /** Some reference that is not optional needs the object. */
  predicate Needed(refs: seq<Ref>, kind: Kind, name: string) {
    exists r :: r in refs && Needs(r, kind, name)
  }

  lemma NeededStep(refs: seq<Ref>, ref: Ref, kind: Kind, name: string)
    ensures Needed(refs + [ref], kind, name) <==> Needed(refs, kind, name) || Needs(ref, kind, name)
  {
    if Needs(ref, kind, name) {
      assert ref in refs + [ref];
    }
    if r :| r in refs && Needs(r, kind, name) {
      assert r in refs + [ref];
    }
  }

  function RefFindings(cluster: Cluster, before: seq<Ref>, ref: Ref): seq<Finding>
    requires Direct(cluster, ref).Ok?
  {
    var a := Direct(cluster, ref).value;
    if ref.optional then []
    else if !a.present then (if Needed(before, ref.kind, ref.name) then [] else [MissingObject(ref)])
    else if ref.key != "" && !a.hasKey then [MissingKey(ref)]
    else []
  }

  /** The findings of all references, or the first read error. */
  function FindingsOf(cluster: Cluster, refs: seq<Ref>): Result<seq<Finding>> {
    if refs == [] then Ok([])
    else
      var before, ref := refs[..|refs| - 1], refs[|refs| - 1];
      match FindingsOf(cluster, before)
      case Err(e) => Err(e)
      case Ok(fs) =>
        if Direct(cluster, ref).Err? then Err(Direct(cluster, ref).error)
        else Ok(fs + RefFindings(cluster, before, ref))
  }

  datatype CheckResult = Skipped(reason: string) | Reported(findings: seq<Finding>)

  lemma {:induction false} ErrorStops(cluster: Cluster, refs: seq<Ref>, i: nat)
    requires i <= |refs| && FindingsOf(cluster, refs[..i]).Err?
    ensures FindingsOf(cluster, refs) == FindingsOf(cluster, refs[..i])
    decreases |refs|
  {
    if i == |refs| {
      assert refs[..i] == refs;
    } else {
      assert refs[..|refs| - 1][..i] == refs[..i];
      ErrorStops(cluster, refs[..|refs| - 1], i);
    }
  }

  lemma FindingsStep(cluster: Cluster, before: seq<Ref>, ref: Ref)
    requires FindingsOf(cluster, before).Ok?
    ensures FindingsOf(cluster, before + [ref]) ==
            match Direct(cluster, ref)
            case Err(e) => Err(e)
            case Ok(_) => Ok(FindingsOf(cluster, before).value + RefFindings(cluster, before, ref))
  {
    assert (before + [ref])[..|before|] == before;
  }

  method Run(cluster: Cluster, containers: seq<Container>, volumes: seq<Volume>)
    returns (r: CheckResult, ghost gets: seq<(Kind, string)>)
    ensures r == match FindingsOf(cluster, Gathered(containers, OfContainer) + Gathered(volumes, OfVolume))
                 case Err(e) => Skipped(e)
                 case Ok(fs) => Reported(fs)
    ensures NoDuplicates(gets) && OnlyNamed(gets, Gathered(containers, OfContainer) + Gathered(volumes, OfVolume))
  {
    var refs := CollectRefs(containers, volumes);
    r, gets := Check(cluster, refs);
  }

  /** The cache keys already reported stand for the missing objects some reference so far needs. */
  ghost predicate Tracks(cluster: Cluster, refs: seq<Ref>, reported: set<string>) {
    forall kind, n :: CacheKey(kind, n) in reported <==> IsMissing(cluster, kind, n) && Needed(refs, kind, n)
  }

  lemma TrackOneMore(cluster: Cluster, before: seq<Ref>, ref: Ref, reported: set<string>)
    requires Tracks(cluster, before, reported)
    ensures var key := CacheKey(ref.kind, ref.name);
            var missing := !ref.optional && IsMissing(cluster, ref.kind, ref.name);
            && (missing ==> (key in reported <==> Needed(before, ref.kind, ref.name)))
            && Tracks(cluster, before + [ref], if missing then reported + {key} else reported)
  {
    hide CacheKey, IsMissing, Needed;
    OnlyItself(ref);
    forall kind, n
      ensures Needed(before + [ref], kind, n) <==> Needed(before, kind, n) || Needs(ref, kind, n)
    {
      NeededStep(before, ref, kind, n);
    }
  }

  /** The Gets are all of objects some reference names. */
  ghost predicate OnlyNamed(gets: seq<(Kind, string)>, refs: seq<Ref>) {
    forall get :: get in gets ==> exists ref :: ref in refs && get == (ref.kind, ref.name)
  }

  lemma OneMoreNamed(gets: seq<(Kind, string)>, refs: seq<Ref>, ref: Ref)
    requires OnlyNamed(gets, refs)
    ensures OnlyNamed(gets, refs + [ref]) && OnlyNamed(gets + [(ref.kind, ref.name)], refs + [ref])
  {
    assert ref in refs + [ref];
    forall get | get in gets
      ensures exists r :: r in refs + [ref] && get == (r.kind, r.name)
    {
      var r :| r in refs && get == (r.kind, r.name);
      assert r in refs + [ref];
    }
  }

  lemma NamedInPrefix(gets: seq<(Kind, string)>, refs: seq<Ref>, i: nat)
    requires i <= |refs| && OnlyNamed(gets, refs[..i])
    ensures OnlyNamed(gets, refs)
  {
  }

  method Check(cluster: Cluster, refs: seq<Ref>) returns (r: CheckResult, ghost gets: seq<(Kind, string)>)
    ensures r == match FindingsOf(cluster, refs) case Err(e) => Skipped(e) case Ok(fs) => Reported(fs)
    ensures NoDuplicates(gets) && OnlyNamed(gets, refs)
  {
    assert Tracks(cluster, refs[..0], {}) && FindingsOf(cluster, refs[..0]) == Ok([]);
    hide Tracks, FindingsOf, RefFindings, Direct, OnlyNamed;
    assert OnlyNamed([], refs[..0]) by { NothingNamed(refs[..0]); }
    var resolver := new Resolver(cluster);
    var reportedMissing: set<string> := {};
    var findings := [];
    for i := 0 to |refs|
      invariant resolver.Valid() && resolver.cluster == cluster && fresh(resolver)
      invariant FindingsOf(cluster, refs[..i]) == Ok(findings)
      invariant Tracks(cluster, refs[..i], reportedMissing)
      invariant NoDuplicates(resolver.gets) && OnlyNamed(resolver.gets, refs[..i])
    {
      hide *;
      assert refs[..i + 1] == refs[..i] + [refs[i]];
      FindingsStep(cluster, refs[..i], refs[i]);
      OneMoreNamed(resolver.gets, refs[..i], refs[i]);
      var resolved := resolver.Resolve(refs[i]);
      if resolved.Err? {
        ErrorStops(cluster, refs, i + 1);
        NamedInPrefix(resolver.gets, refs, i + 1);
        return Skipped(resolved.error), resolver.gets;
      }
      var found;
      found, reportedMissing := Judge(cluster, refs[..i], refs[i], resolved.value, reportedMissing);
      findings := findings + found;
    }
    assert refs[..|refs|] == refs;
    return Reported(findings), resolver.gets;
  }

  lemma NothingNamed(refs: seq<Ref>)
    ensures OnlyNamed([], refs)
  {
  }

  /** What one resolved reference adds to the findings and to the reported objects. */
  method Judge(ghost cluster: Cluster, ghost before: seq<Ref>, ref: Ref, a: Answer, reported: set<string>)
    returns (found: seq<Finding>, reportedMissing: set<string>)
    requires Direct(cluster, ref) == Ok(a) && Tracks(cluster, before, reported)
    ensures found == RefFindings(cluster, before, ref)
    ensures Tracks(cluster, before + [ref], reportedMissing)
  {
    hide Tracks, Needed;
    TrackOneMore(cluster, before, ref, reported);
    MissingMeansAbsent(cluster, ref);
    if ref.optional {
      return [], reported;
    }
    if !a.present {
      var cacheKey := CacheKey(ref.kind, ref.name);
      if cacheKey in reported {
        assert reported + {cacheKey} == reported;
        return [], reported;
      }
      return [MissingObject(ref)], reported + {cacheKey};
    }
    if ref.key != "" && !a.hasKey {
      return [MissingKey(ref)], reported;
    }
    return [], reported;
  }

  lemma MissingMeansAbsent(cluster: Cluster, ref: Ref)
    ensures Direct(cluster, ref).Ok? ==>
            (Direct(cluster, ref).value.present <==> !IsMissing(cluster, ref.kind, ref.name))
  {
  }

  // ----- What the findings amount to -----

  /** The kubelet can start the container as far as this reference goes. */
  predicate Satisfied(cluster: Cluster, ref: Ref) {
    Direct(cluster, ref).Ok? && Direct(cluster, ref).value.present
    && (ref.key != "" ==> Direct(cluster, ref).value.hasKey)
  }

  function CountMissing(fs: seq<Finding>, kind: Kind, name: string): nat {
    if fs == [] then 0
    else
      CountMissing(fs[..|fs| - 1], kind, name)
      + match fs[|fs| - 1]
        case MissingObject(ref) => (if ref.kind == kind && ref.name == name then 1 else 0) case MissingKey(_) => 0
  }

  /** Every missing object some reference needs is reported exactly once, however many references touch it. */
  lemma {:induction false} EachMissingObjectOnce(cluster: Cluster, refs: seq<Ref>, kind: Kind, name: string)
    requires FindingsOf(cluster, refs).Ok?
    ensures CountMissing(FindingsOf(cluster, refs).value, kind, name) ==
            if IsMissing(cluster, kind, name) && Needed(refs, kind, name) then 1 else 0
  {
    if refs != [] {
      var before, ref := refs[..|refs| - 1], refs[|refs| - 1];
      assert refs == before + [ref];
      EachMissingObjectOnce(cluster, before, kind, name);
      MissingMeansAbsent(cluster, ref);
      var fs := FindingsOf(cluster, before).value;
      var more := RefFindings(cluster, before, ref);
      NeededStep(before, ref, kind, name);
      if more != [] {
        assert (fs + more)[..|fs + more| - 1] == fs;
      } else {
        assert fs + more == fs;
      }
    }
  }

  /**
   Findings come from unsatisfied references that are not optional, and there are none exactly
   when every reference that is not optional is satisfied.
   */
  lemma {:induction false} FindingsAreUnsatisfied(cluster: Cluster, refs: seq<Ref>)
    requires FindingsOf(cluster, refs).Ok?
    ensures forall f :: f in FindingsOf(cluster, refs).value ==>
      f.ref in refs && !f.ref.optional && !Satisfied(cluster, f.ref)
    ensures FindingsOf(cluster, refs).value == [] <==> forall r :: r in refs ==> r.optional || Satisfied(cluster, r)
    ensures forall r :: r in refs && !r.optional && r.key != "" && !IsMissing(cluster, r.kind, r.name) ==>
      (MissingKey(r) in FindingsOf(cluster, refs).value <==> !Satisfied(cluster, r))
  {
    if refs != [] {
      var before, ref := refs[..|refs| - 1], refs[|refs| - 1];
      assert refs == before + [ref];
      FindingsAreUnsatisfied(cluster, before);
      MissingMeansAbsent(cluster, ref);
      if Needed(before, ref.kind, ref.name) && IsMissing(cluster, ref.kind, ref.name) && !ref.optional {
        var r :| r in before && Needs(r, ref.kind, ref.name);
        DirectOfEach(cluster, before, r);
        MissingMeansAbsent(cluster, r);
        assert !Satisfied(cluster, r);
      }
    }
  }

  lemma {:induction false} DirectOfEach(cluster: Cluster, refs: seq<Ref>, r: Ref)
    requires FindingsOf(cluster, refs).Ok? && r in refs
    ensures Direct(cluster, r).Ok?
  {
    if r != refs[|refs| - 1] {
      assert refs == refs[..|refs| - 1] + [refs[|refs| - 1]];
      DirectOfEach(cluster, refs[..|refs| - 1], r);
    }
  }

  /** A finding about a missing object names the first reference that needs it. */
  lemma {:induction false} FirstSeenOrder(cluster: Cluster, refs: seq<Ref>, f: Finding)
    requires FindingsOf(cluster, refs).Ok? && f in FindingsOf(cluster, refs).value && f.MissingObject?
    ensures exists i :: 0 <= i < |refs| && refs[i] == f.ref && !Needed(refs[..i], f.ref.kind, f.ref.name)
  {
    var before, ref := refs[..|refs| - 1], refs[|refs| - 1];
    if f in FindingsOf(cluster, before).value {
      FirstSeenOrder(cluster, before, f);
      var i :| 0 <= i < |before| && before[i] == f.ref && !Needed(before[..i], f.ref.kind, f.ref.name);
      assert refs[..i] == before[..i];
    } else {
      assert refs[|refs| - 1] == f.ref;
    }
  }
}
