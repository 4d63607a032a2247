/** Per-workload config hashes (controllers/configmap_controller.go). */
module WorkloadHash {
  // hashForWorkload: only the sources a pod spec refers to can move its hash.

  import opened Wrappers
  import opened Sorting
  import opened Yaml
  import opened ConfigHash
  import opened Rollout

  // ---- what a pod spec refers to --------------------------------------------------------

  /** A place that may name a ConfigMap and a Secret. */
  datatype Ref = Ref(configMap: Option<string>, secret: Option<string>)

  /** projected: the sources of a projected volume. */
  datatype Volume = Volume(ref: Ref, projected: seq<Ref>)

  /** env: None is a variable without valueFrom. */
  datatype Container = Container(envFrom: seq<Ref>, env: seq<Option<Ref>>)

  datatype PodSpec = PodSpec(volumes: seq<Volume>, initContainers: seq<Container>, containers: seq<Container>)

  datatype Names = Names(cms: set<string>, secrets: set<string>)

  function EnvRefs(env: seq<Option<Ref>>): seq<Ref> {
    if env == [] then []
    else
      var init, e := EnvRefs(env[..|env| - 1]), env[|env| - 1];
      if e.Some? then init + [e.value] else init
  }

  function VolumeRefs(vs: seq<Volume>): seq<Ref> {
    if vs == [] then [] else VolumeRefs(vs[..|vs| - 1]) + [vs[|vs| - 1].ref] + vs[|vs| - 1].projected
  }

  function ContainerRefs(cs: seq<Container>): seq<Ref> {
    if cs == [] then [] else ContainerRefs(cs[..|cs| - 1]) + cs[|cs| - 1].envFrom + EnvRefs(cs[|cs| - 1].env)
  }

  /** Every place of the spec: volumes, projected volumes, envFrom and env. */
  function AllRefs(spec: PodSpec): seq<Ref> {
    VolumeRefs(spec.volumes) + ContainerRefs(spec.initContainers + spec.containers)
  }

  /** The names the places give. */
  function NamesOf(refs: seq<Ref>): Names {
    Names(set r | r in refs && r.configMap.Some? :: r.configMap.value,
          set r | r in refs && r.secret.Some? :: r.secret.value)
  }

  method Note(names: Names, r: Ref, ghost before: seq<Ref>) returns (more: Names)
    requires names == NamesOf(before)
    ensures more == NamesOf(before + [r])
  {
    var cms, secrets := names.cms, names.secrets;
    if r.configMap.Some? {
      cms := cms + {r.configMap.value};
    }
    if r.secret.Some? {
      secrets := secrets + {r.secret.value};
    }
    more := Names(cms, secrets);
    ghost var after := before + [r];
    assert forall x :: x in after <==> x in before || x == r;
    assert more.cms == NamesOf(after).cms && more.secrets == NamesOf(after).secrets;
  }

  method NoteAll(names: Names, refs: seq<Ref>, ghost before: seq<Ref>) returns (more: Names)
    requires names == NamesOf(before)
    ensures more == NamesOf(before + refs)
  {
    hide NamesOf;
    more := names;
    assert before + refs[..0] == before;
    for i := 0 to |refs|
      invariant more == NamesOf(before + refs[..i])
    {
      assert before + refs[..i] + [refs[i]] == before + refs[..i + 1];
      more := Note(more, refs[i], before + refs[..i]);
    }
    assert refs[..|refs|] == refs;
  }

  method NoteVolumes(volumes: seq<Volume>) returns (names: Names)
    ensures names == NamesOf(VolumeRefs(volumes))
  {
    names := Names({}, {});
    assert names == NamesOf([]);
    hide NamesOf;
    for i := 0 to |volumes|
      invariant names == NamesOf(VolumeRefs(volumes[..i]))
    {
      ghost var before := VolumeRefs(volumes[..i]);
      assert volumes[..i + 1][..i] == volumes[..i];
      names := Note(names, volumes[i].ref, before);
      names := NoteAll(names, volumes[i].projected, before + [volumes[i].ref]);
    }
    assert volumes[..|volumes|] == volumes;
  }

  method NoteEnv(names: Names, env: seq<Option<Ref>>, ghost before: seq<Ref>) returns (more: Names)
    requires names == NamesOf(before)
    ensures more == NamesOf(before + EnvRefs(env))
  {
    hide NamesOf;
    more := names;
    assert before + EnvRefs(env[..0]) == before;
    for j := 0 to |env|
      invariant more == NamesOf(before + EnvRefs(env[..j]))
    {
      assert env[..j + 1][..j] == env[..j];
      if env[j].None? {
        continue;
      }
      ghost var sofar := before + EnvRefs(env[..j]);
      assert sofar + [env[j].value] == before + EnvRefs(env[..j + 1]);
      more := Note(more, env[j].value, sofar);
    }
    assert env[..|env|] == env;
  }

  /** referencedSources. */
  method ReferencedSources(spec: PodSpec) returns (names: Names)
    ensures names == NamesOf(AllRefs(spec))
  {
    hide NamesOf, VolumeRefs, EnvRefs;
    names := NoteVolumes(spec.volumes);
    ghost var vs := VolumeRefs(spec.volumes);
    var containers := spec.initContainers + spec.containers;
    assert vs + ContainerRefs(containers[..0]) == vs;
    for i := 0 to |containers|
      invariant names == NamesOf(vs + ContainerRefs(containers[..i]))
    {
      ghost var before, c := vs + ContainerRefs(containers[..i]), containers[i];
      assert containers[..i + 1][..i] == containers[..i];
      assert before + c.envFrom + EnvRefs(c.env) == vs + ContainerRefs(containers[..i + 1]);
      names := NoteAll(names, containers[i].envFrom, before);
      names := NoteEnv(names, containers[i].env, before + c.envFrom);
    }
    assert containers[..|containers|] == containers;
  }

  predicate Gives(r: Ref, s: Source) {
    if s.ConfigMap? then r.configMap == Some(s.name) else r.secret == Some(s.name)
  }

  ghost predicate SomeGives(refs: seq<Ref>, s: Source) { exists r :: r in refs && Gives(r, s) }

  /** A volume or one source of a projected volume. */
  ghost predicate VolumeGives(v: Volume, s: Source) { Gives(v.ref, s) || SomeGives(v.projected, s) }

  /** A whole source taken into the environment, or a variable from one of its keys. */
  ghost predicate ContainerGives(c: Container, s: Source) {
    SomeGives(c.envFrom, s) || exists e :: e in c.env && e.Some? && Gives(e.value, s)
  }

  /** A volume, an init container or a container of the pod names the source. */
  ghost predicate Mentions(spec: PodSpec, s: Source) {
    || (exists v :: v in spec.volumes && VolumeGives(v, s))
    || (exists c :: (c in spec.initContainers || c in spec.containers) && ContainerGives(c, s))
  }

  lemma EitherGives(a: seq<Ref>, b: seq<Ref>, s: Source)
    ensures SomeGives(a + b, s) <==> SomeGives(a, s) || SomeGives(b, s)
  {
    hide Gives;
  }

  lemma OneGives(r: Ref, s: Source)
    ensures SomeGives([r], s) <==> Gives(r, s)
    ensures !SomeGives([], s)
  {
    hide Gives;
    assert r in [r];
  }

  lemma {:induction false} EnvGives(env: seq<Option<Ref>>, s: Source)
    ensures SomeGives(EnvRefs(env), s) <==> exists e :: e in env && e.Some? && Gives(e.value, s)
  {
    hide Gives, SomeGives;
    if env == [] {
      OneGives(Ref(None, None), s);
    } else {
      var init, e := env[..|env| - 1], env[|env| - 1];
      EnvGives(init, s);
      if e.Some? {
        EitherGives(EnvRefs(init), [e.value], s);
        OneGives(e.value, s);
      }
      assert forall x :: x in env <==> x in init || x == e;
    }
  }

  lemma {:induction false} VolumesGive(vs: seq<Volume>, s: Source)
    ensures SomeGives(VolumeRefs(vs), s) <==> exists v :: v in vs && VolumeGives(v, s)
  {
    hide Gives, SomeGives;
    if vs == [] {
      OneGives(Ref(None, None), s);
    } else {
      var init, v := vs[..|vs| - 1], vs[|vs| - 1];
      VolumesGive(init, s);
      EitherGives(VolumeRefs(init) + [v.ref], v.projected, s);
      EitherGives(VolumeRefs(init), [v.ref], s);
      OneGives(v.ref, s);
      assert SomeGives(VolumeRefs(vs), s) <==> SomeGives(VolumeRefs(init), s) || VolumeGives(v, s);
      hide VolumeGives, VolumeRefs;
      assert forall x :: x in vs <==> x in init || x == v;
    }
  }

  lemma {:induction false} ContainersGive(cs: seq<Container>, s: Source)
    ensures SomeGives(ContainerRefs(cs), s) <==> exists c :: c in cs && ContainerGives(c, s)
  {
    hide Gives, SomeGives, EnvRefs;
    if cs == [] {
      OneGives(Ref(None, None), s);
    } else {
      var init, c := cs[..|cs| - 1], cs[|cs| - 1];
      ContainersGive(init, s);
      EnvGives(c.env, s);
      EitherGives(ContainerRefs(init) + c.envFrom, EnvRefs(c.env), s);
      EitherGives(ContainerRefs(init), c.envFrom, s);
      assert SomeGives(ContainerRefs(cs), s) <==> SomeGives(ContainerRefs(init), s) || ContainerGives(c, s);
      hide ContainerGives, ContainerRefs;
      assert forall x :: x in cs <==> x in init || x == c;
    }
  }

  /** The sources that count for a workload are exactly those its pod spec names, in a volume, in a
      projected volume, as an environment or in a variable. */
  lemma MentionsExactly(spec: PodSpec, s: Source)
    ensures RefersTo(NamesOf(AllRefs(spec)), s) <==> Mentions(spec, s)
  {
    hide VolumeRefs, ContainerRefs, VolumeGives, ContainerGives, SomeGives;
    var containers := spec.initContainers + spec.containers;
    VolumesGive(spec.volumes, s);
    ContainersGive(containers, s);
    EitherGives(VolumeRefs(spec.volumes), ContainerRefs(containers), s);
    RefersIs(AllRefs(spec), s);
  }

  lemma RefersIs(refs: seq<Ref>, s: Source)
    ensures RefersTo(NamesOf(refs), s) <==> SomeGives(refs, s)
  {}

  predicate RefersTo(names: Names, s: Source) {
    if s.ConfigMap? then s.name in names.cms else s.name in names.secrets
  }

  function Filter(ss: seq<Source>, names: Names): seq<Source> {
    if ss == [] then []
    else
      var init, s := Filter(ss[..|ss| - 1], names), ss[|ss| - 1];
      if RefersTo(names, s) then init + [s] else init
  }

  /** filterConfigMaps and filterSecrets. */
  method FilterSources(ss: seq<Source>, names: Names) returns (out: seq<Source>)
    ensures out == Filter(ss, names)
  {
    out := [];
    for i := 0 to |ss|
      invariant out == Filter(ss[..i], names)
    {
      assert ss[..i + 1][..i] == ss[..i];
      if RefersTo(names, ss[i]) {
        out := out + [ss[i]];
      }
    }
    assert ss[..|ss|] == ss;
  }

  lemma {:induction false} FilteredMembers(ss: seq<Source>, names: Names)
    ensures forall s :: s in Filter(ss, names) <==> s in ss && RefersTo(names, s)
  {
    hide RefersTo;
    if ss == [] {
    } else {
      FilteredMembers(ss[..|ss| - 1], names);
      assert ss == ss[..|ss| - 1] + [ss[|ss| - 1]];
    }
  }

  lemma OthersDiffer(ss: seq<Source>)
    requires UniqueSources(ss) && ss != []
    ensures UniqueSources(ss[..|ss| - 1])
    ensures forall t :: t in ss[..|ss| - 1] ==> EntryKey(t) != EntryKey(ss[|ss| - 1])
  {
    hide EntryKey;
    var init := ss[..|ss| - 1];
    forall t | t in init ensures EntryKey(t) != EntryKey(ss[|ss| - 1]) {
      var i :| 0 <= i < |init| && init[i] == t;
      assert ss[i] == t;
    }
  }

  lemma UniqueSnoc(ss: seq<Source>, s: Source)
    requires UniqueSources(ss) && forall t :: t in ss ==> EntryKey(t) != EntryKey(s)
    ensures UniqueSources(ss + [s])
  {
    hide EntryKey;
  }

  lemma {:induction false} Filtered(ss: seq<Source>, names: Names)
    ensures forall s :: s in Filter(ss, names) <==> s in ss && RefersTo(names, s)
    ensures UniqueSources(ss) ==> UniqueSources(Filter(ss, names))
  {
    hide EntryKey, RefersTo, UniqueSources;
    FilteredMembers(ss, names);
    if ss == [] {
    } else if UniqueSources(ss) {
      var init, s := ss[..|ss| - 1], ss[|ss| - 1];
      Filtered(init, names);
      OthersDiffer(ss);
      UniqueSnoc(Filter(init, names), s);
    }
  }

  lemma {:induction false} FilterAppend(a: seq<Source>, b: seq<Source>, names: Names)
    ensures Filter(a + b, names) == Filter(a, names) + Filter(b, names)
  {
    if b == [] {
      assert a + b == a;
    } else {
      assert (a + b)[..|a + b| - 1] == a + b[..|b| - 1];
      FilterAppend(a, b[..|b| - 1], names);
    }
  }

  /** The hash stamped on a workload in per-workload mode. */
  ghost function WorkloadHash(h: string -> string, c: Codec, o: Options, spec: PodSpec, ss: seq<Source>): string {
    HashOf(h, Counted(c, o, Filter(ss, NamesOf(AllRefs(spec)))))
  }

  /** hashForWorkload: combined is the hash over all sources. */
  method HashForWorkload(h: string -> string, c: Codec, o: Options, perWorkload: bool, spec: PodSpec,
                         cms: seq<Source>, secrets: seq<Source>, combined: string)
    returns (hash: string)
    requires UniqueSources(cms + secrets) && (forall a :: h(a) != "")
    ensures hash == if perWorkload then WorkloadHash(h, c, o, spec, cms + secrets) else combined
  {
    hide Counted, Filter, NamesOf, AllRefs, UniqueSources;
    if !perWorkload {
      return combined;
    }
    var names := ReferencedSources(spec);
    var fcms := FilterSources(cms, names);
    var fsecrets := FilterSources(secrets, names);
    FilterAppend(cms, secrets, names);
    Filtered(cms + secrets, names);
    hash := HashConfigSources(h, c, o, fcms, fsecrets);
  }

  /** a and b hold the same sources among those the pod spec refers to. */
  ghost predicate SameReferenced(names: Names, a: seq<Source>, b: seq<Source>) {
    forall s :: RefersTo(names, s) ==> (s in a <==> s in b)
  }

  /** Sources the pod spec does not refer to never move the workload's hash: whatever is
      added, removed or edited there. */
  lemma OthersDoNotRoll(h: string -> string, c: Codec, o: Options, spec: PodSpec, a: seq<Source>, b: seq<Source>)
    requires UniqueSources(a) && UniqueSources(b) && SameReferenced(NamesOf(AllRefs(spec)), a, b)
    ensures WorkloadHash(h, c, o, spec, a) == WorkloadHash(h, c, o, spec, b)
  {
    hide Counted, Filter, NamesOf, AllRefs, UniqueSources, RefersTo;
    var names := NamesOf(AllRefs(spec));
    Filtered(a, names);
    Filtered(b, names);
    CountedPermuted(c, o, Filter(a, names), Filter(b, names));
  }

  /** The sources a pod spec refers to. */
  function Referenced(spec: PodSpec, ss: seq<Source>): seq<Source> { Filter(ss, NamesOf(AllRefs(spec))) }

  /** A workload is hashed over exactly the sources its pod spec names. */
  lemma ReferencedExactly(spec: PodSpec, ss: seq<Source>, s: Source)
    ensures s in Referenced(spec, ss) <==> s in ss && Mentions(spec, s)
  {
    hide RefersTo, Mentions, NamesOf, AllRefs;
    FilteredMembers(ss, NamesOf(AllRefs(spec)));
    MentionsExactly(spec, s);
  }

  /** Reconciling again stamps the same hash whatever order the sources are listed in. */
  lemma ListingOrderIrrelevant(h: string -> string, c: Codec, o: Options, a: seq<Source>, b: seq<Source>)
    requires UniqueSources(a) && UniqueSources(b) && multiset(a) == multiset(b)
    ensures HashOf(h, Counted(c, o, a)) == HashOf(h, Counted(c, o, b))
  {
    hide Counted, UniqueSources;
    PermutedMembers(a, b);
    CountedPermuted(c, o, a, b);
  }

  /** And those it refers to always do, NULs in values or not: the workload's hash is the
      same exactly when the ConfigMaps and Secrets its pod spec names are, up to where NULs
      cut them. */
  lemma RollsExactly(h: string -> string, c: Codec, o: Options, spec: PodSpec, a: seq<Source>, b: seq<Source>)
    requires GoodHash(h) && UniqueSources(a) && UniqueSources(b) && NamesClean(a) && NamesClean(b)
    ensures WorkloadHash(h, c, o, spec, a) == WorkloadHash(h, c, o, spec, b) <==>
      SameSourceParts(c, o, Referenced(spec, a), Referenced(spec, b))
  {
    hide Counted, Filter, NamesOf, AllRefs, GoodHash, SameSourceParts, UniqueSources, HashOf, RefersTo;
    Filtered(a, NamesOf(AllRefs(spec)));
    Filtered(b, NamesOf(AllRefs(spec)));
    HashExact(h, c, o, Referenced(spec, a), Referenced(spec, b));
  }

  /** Without NULs: exactly when they are the same, config.yaml compared outside the hot
      fields. */
  lemma RollsExactlyWithoutNul(h: string -> string, c: Codec, o: Options, spec: PodSpec, a: seq<Source>, b: seq<Source>)
    requires GoodHash(h) && RoundTrips(c) && CleanPrint(c) && UniqueSources(a) && UniqueSources(b)
    requires AllClean(o, Referenced(spec, a)) && AllClean(o, Referenced(spec, b))
    ensures WorkloadHash(h, c, o, spec, a) == WorkloadHash(h, c, o, spec, b) <==>
      SameSources(c, o, Referenced(spec, a), Referenced(spec, b))
  {
    hide Counted, Filter, NamesOf, AllRefs, GoodHash, AllClean, RoundTrips, CleanPrint, SameSources,
         UniqueSources, HashOf;
    Filtered(a, NamesOf(AllRefs(spec)));
    Filtered(b, NamesOf(AllRefs(spec)));
    HashExactWithoutNul(h, c, o, Referenced(spec, a), Referenced(spec, b));
  }
}
