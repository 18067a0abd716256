/** The pods a package generates: `toPodTemplateSpec` of pkg/apis/kubepkg/v1alpha1/deploy.go. */
module PodTemplate {
  import opened Wrappers
  import opened Text
  import opened KubeUtil
  import opened Metadata
  import opened EnvRef
  import opened Package

  datatype PodVolume = PodVolume(name: string, kind: SourceKind, options: string)
  datatype VolumeMount = VolumeMount(name: string, mountPath: string, subPath: string, readOnly: bool)
  datatype EnvFrom = EnvFrom(kind: SourceKind, name: string, prefix: string, optional: Option<bool>)
  datatype EnvEntry = EnvEntry(name: string, variable: EnvVar)
  datatype PodContainer = PodContainer(
    name: string, env: seq<EnvEntry>, envFrom: seq<EnvFrom>, volumeMounts: seq<VolumeMount>)

  datatype MountResult = MountResult(reload: string, resourceName: string, volume: Option<PodVolume>,
                                     envFrom: Option<EnvFrom>, volumeMount: Option<VolumeMount>)

  const NOTHING := MountResult("", "", None, None, None)

  // --------------------------------------------------------------------- volumes

  function ReloadKey(kind: SourceKind): string {
    match kind
    case ConfigMapVolume => RELOAD_CONFIG_MAP
    case SecretVolume => RELOAD_SECRET
    case _ => ""
  }

  /** `Mount` of the five volume sources. */
  function Mount(v: Volume, name: string): MountResult {
    if v.mountPath == "export" then
      var envFrom := if v.kind.ConfigMapVolume? || v.kind.SecretVolume?
                     then Some(EnvFrom(v.kind, name, v.prefix, v.optional)) else None;
      MountResult(ReloadKey(v.kind), name, None, envFrom, None)
    else
      MountResult(ReloadKey(v.kind), name, Some(PodVolume(name, v.kind, v.options)), None,
                  Some(VolumeMount(name, v.mountPath, v.subPath, v.readOnly)))
  }

  /** What mounting the volume `n` of the package asks for. */
  function MountOf(pkg: KubePkg, n: string): MountResult {
    if n in Volumes(pkg) && Volumes(pkg)[n].Some?
    then Mount(Volumes(pkg)[n].value, SubResourceName(pkg.name, n)) else NOTHING
  }

  /** The order in which a run visited the volumes. */
  ghost predicate IsOrder(order: seq<string>, pkg: KubePkg) { Enumerates(order, Volumes(pkg).Keys) }

  predicate HasVolume(volumes: seq<PodVolume>, name: string) { exists v | v in volumes :: v.name == name }

  function Added(volumes: seq<PodVolume>, volume: Option<PodVolume>): seq<PodVolume> {
    if volume.None? || HasVolume(volumes, volume.value.name) then volumes else volumes + [volume.value]
  }

  function ReloadAppended(annotations: Annotations, r: MountResult): Annotations {
    if r.reload == "" then annotations else Appended(annotations, r.reload, r.resourceName)
  }

  function Listed<T>(o: Option<T>): seq<T> { if o.Some? then [o.value] else [] }

  // What the first `i` volumes of a visit contribute to the pod template and to the container.

  function VolumesUpto(start: seq<PodVolume>, pkg: KubePkg, order: seq<string>, i: nat): seq<PodVolume>
    requires i <= |order|
  {
    if i == 0 then start else Added(VolumesUpto(start, pkg, order, i - 1), MountOf(pkg, order[i - 1]).volume)
  }

  function AnnotationsUpto(start: Annotations, pkg: KubePkg, order: seq<string>, i: nat): Annotations
    requires i <= |order|
  {
    if i == 0 then start else ReloadAppended(AnnotationsUpto(start, pkg, order, i - 1), MountOf(pkg, order[i - 1]))
  }

  function MountsUpto(pkg: KubePkg, order: seq<string>, i: nat): seq<VolumeMount>
    requires i <= |order|
  {
    if i == 0 then [] else MountsUpto(pkg, order, i - 1) + Listed(MountOf(pkg, order[i - 1]).volumeMount)
  }

  function EnvFromUpto(pkg: KubePkg, order: seq<string>, i: nat): seq<EnvFrom>
    requires i <= |order|
  {
    if i == 0 then [] else EnvFromUpto(pkg, order, i - 1) + Listed(MountOf(pkg, order[i - 1]).envFrom)
  }

  /** What the volumes visited so far have made of the template and the container. */
  predicate IsMounted(pkg: KubePkg, order: seq<string>, volumes0: seq<PodVolume>, annotations0: Annotations,
                      volumes: seq<PodVolume>, annotations: Annotations, mounts: seq<VolumeMount>, envFrom: seq<EnvFrom>)
  {
    volumes == VolumesUpto(volumes0, pkg, order, |order|) && annotations == AnnotationsUpto(annotations0, pkg, order, |order|) &&
    mounts == MountsUpto(pkg, order, |order|) && envFrom == EnvFromUpto(pkg, order, |order|)
  }

  lemma MountedOneMore(pkg: KubePkg, order: seq<string>, volumes0: seq<PodVolume>, annotations0: Annotations,
                       volumes: seq<PodVolume>, annotations: Annotations, mounts: seq<VolumeMount>, envFrom: seq<EnvFrom>, n: string)
    requires IsMounted(pkg, order, volumes0, annotations0, volumes, annotations, mounts, envFrom)
    ensures var r := MountOf(pkg, n);
      IsMounted(pkg, order + [n], volumes0, annotations0, Added(volumes, r.volume), ReloadAppended(annotations, r),
                mounts + Listed(r.volumeMount), envFrom + Listed(r.envFrom))
  {
    UptoKeepsPrefix(volumes0, annotations0, pkg, order, n, |order|);
  }

  // ------------------------------------------------------------------ environment

  /** The package's references, overridden by the container's own variables. */
  function Variables(pkg: KubePkg, c: Container): map<string, EnvVar> {
    (map k | k in pkg.config && pkg.config[k].valueFrom.Some? :: pkg.config[k]) + c.env
  }

  /** A reference hides the value. */
  function Effective(v: EnvVar): EnvVar { if v.valueFrom.Some? then v.(value := "") else v }

  function EntryNames(env: seq<EnvEntry>): seq<string> {
    seq(|env|, i requires 0 <= i < |env| => env[i].name)
  }

  /** Each variable once, in order of their names. */
  ghost predicate IsEnvironment(env: seq<EnvEntry>, variables: map<string, EnvVar>) {
    SortedNames(EntryNames(env), variables.Keys) &&
    forall i | 0 <= i < |env| :: env[i].name in variables && env[i].variable == Effective(variables[env[i].name])
  }

  method Environment(pkg: KubePkg, c: Container) returns (env: seq<EnvEntry>)
    ensures IsEnvironment(env, Variables(pkg, c))
  {
    var envs: map<string, EnvVar> := map[];
    var todo := pkg.config.Keys;
    while todo != {}
      invariant todo <= pkg.config.Keys
      invariant envs == map k | k in pkg.config && k !in todo && pkg.config[k].valueFrom.Some? :: pkg.config[k]
      decreases todo
    {
      var k :| k in todo;
      todo := todo - {k};
      if pkg.config[k].valueFrom.Some? { envs := envs[k := pkg.config[k]]; }
    }
    envs := envs + c.env;
    assert envs == Variables(pkg, c);
    var names := SortedKeys(envs.Keys);
    env := [];
    for i := 0 to |names|
      invariant |env| == i
      invariant forall j | 0 <= j < i :: env[j] == EnvEntry(names[j], Effective(envs[names[j]]))
    {
      assert names[i] in names;
      var v := envs[names[i]];
      if v.valueFrom.Some? {
        env := env + [EnvEntry(names[i], EnvVar("", v.valueFrom))];
      } else {
        env := env + [EnvEntry(names[i], EnvVar(v.value, None))];
      }
    }
    assert EntryNames(env) == names;
  }

  // ------------------------------------------------------------------- platforms

  const ARCHITECTURES := ["amd64", "arm64"]

  function Platform(arch: string): string { "linux" + "/" + arch }

  const PLATFORMS := [Platform("amd64"), Platform("arm64")]

  /** No platforms means any platform. */
  predicate Allows(c: Container, platform: string) { c.platforms == [] || platform in c.platforms }

  ghost predicate AllAllow(pkg: KubePkg, platform: string) {
    forall n | n in pkg.containers :: Allows(pkg.containers[n], platform)
  }

  predicate IsInit(name: string) { "init-" <= name }

  /** The containers that are, or are not, init containers. */
  function ContainerNames(pkg: KubePkg, init: bool): set<string> { set n | n in pkg.containers && IsInit(n) == init }

  ghost predicate ArePlatforms(pkg: KubePkg, platforms: seq<string>) {
    forall p :: p in platforms <==> p in PLATFORMS && AllAllow(pkg, p)
  }

  /** Exactly the architectures that every container allows; no restriction when there is none. */
  ghost predicate IsArch(pkg: KubePkg, arch: Option<seq<string>>) {
    (arch.None? ==> forall a | a in ARCHITECTURES :: !AllAllow(pkg, Platform(a))) &&
    (arch.Some? ==> arch.value != [] && forall a :: a in arch.value <==> a in ARCHITECTURES && AllAllow(pkg, Platform(a)))
  }

  method Architectures(platforms: seq<string>) returns (arch: seq<string>)
    requires forall i | 0 <= i < |platforms| :: platforms[i] in PLATFORMS
    ensures |arch| == |platforms| && forall i | 0 <= i < |arch| :: platforms[i] == Platform(arch[i])
  {
    arch := [];
    for i := 0 to |platforms|
      invariant |arch| == i && forall j | 0 <= j < i :: platforms[j] == Platform(arch[j])
    {
      PlatformParts(platforms[i]);
      var parts := Split(platforms[i], '/');
      if |parts| >= 2 { arch := arch + [parts[1]]; }
    }
  }

  lemma PlatformParts(platform: string)
    requires platform in PLATFORMS
    ensures |Split(platform, '/')| == 2 && platform == Platform(Split(platform, '/')[1])
  {
    var arch :| arch in ARCHITECTURES && platform == Platform(arch);
    assert Free("linux", '/') && Free(arch, '/');
    SplitFirst("linux", '/', arch);
    SplitWhole(arch, '/');
    assert Split(platform, '/') == ["linux"] + [arch];
  }

  /** The allowed platforms, as architectures. */
  lemma ArchitecturesAreAllowed(pkg: KubePkg, platforms: seq<string>, arch: seq<string>)
    requires ArePlatforms(pkg, platforms)
    requires |arch| == |platforms| && forall i | 0 <= i < |arch| :: platforms[i] == Platform(arch[i])
    ensures IsArch(pkg, if platforms == [] then None else Some(arch))
  {
    forall a ensures a in arch <==> Platform(a) in platforms {
      if a in arch {
        var i :| 0 <= i < |arch| && arch[i] == a;
        assert platforms[i] in platforms;
      }
      if Platform(a) in platforms {
        var i :| 0 <= i < |platforms| && platforms[i] == Platform(a);
        PlatformInjective(a, arch[i]);
      }
    }
    forall a ensures Platform(a) in PLATFORMS <==> a in ARCHITECTURES {
      PlatformInjective(a, "amd64");
      PlatformInjective(a, "arm64");
    }
  }

  /** The restriction of the node selector. */
  method Restriction(pkg: KubePkg, platforms: seq<string>) returns (arch: Option<seq<string>>)
    requires ArePlatforms(pkg, platforms)
    ensures IsArch(pkg, arch)
  {
    arch := None;
    if |platforms| > 0 {
      assert forall i | 0 <= i < |platforms| :: platforms[i] in platforms;
      var archs := Architectures(platforms);
      ArchitecturesAreAllowed(pkg, platforms, archs);
      arch := Some(archs);
    } else {
      ArchitecturesAreAllowed(pkg, platforms, []);
    }
  }

  lemma PlatformInjective(a: string, b: string)
    ensures Platform(a) == Platform(b) <==> a == b
  {
    assert Platform(a)[6..] == a && Platform(b)[6..] == b;
  }

  // -------------------------------------------------------------------- the template

  /** A container as generated from the one with this name, visiting the volumes in `order`. */
  ghost predicate IsContainer(pkg: KubePkg, c: PodContainer, name: string, order: seq<string>) {
    IsOrder(order, pkg) && c.name == name && name in pkg.containers &&
    IsEnvironment(c.env, Variables(pkg, pkg.containers[name])) &&
    c.volumeMounts == MountsUpto(pkg, order, |order|) &&
    c.envFrom == EnvFromUpto(pkg, order, |order|)
  }

  /** The volumes of the template after its first `k` containers. */
  function TemplateVolumes(pkg: KubePkg, orders: seq<seq<string>>, k: nat): seq<PodVolume>
    requires k <= |orders|
  {
    if k == 0 then [] else VolumesUpto(TemplateVolumes(pkg, orders, k - 1), pkg, orders[k - 1], |orders[k - 1]|)
  }

  function TemplateAnnotations(pkg: KubePkg, orders: seq<seq<string>>, k: nat): Annotations
    requires k <= |orders|
  {
    if k == 0 then map[]
    else AnnotationsUpto(TemplateAnnotations(pkg, orders, k - 1), pkg, orders[k - 1], |orders[k - 1]|)
  }

  ghost predicate AreContainers(pkg: KubePkg, cs: seq<PodContainer>, names: seq<string>, orders: seq<seq<string>>) {
    |cs| == |orders| == |names| &&
    forall i {:trigger IsContainer(pkg, cs[i], names[i], orders[i])} | 0 <= i < |cs| ::
      IsContainer(pkg, cs[i], names[i], orders[i])
  }

  class PodTemplateSpec {
    var labels: map<string, string>
    var annotations: Annotations
    var volumes: seq<PodVolume>
    var initContainers: seq<PodContainer>
    var containers: seq<PodContainer>
    var serviceAccountName: string
    /** the architectures the pod may be scheduled on, when restricted */
    var arch: Option<seq<string>>

    constructor ()
      ensures labels == map[] && annotations == map[] && volumes == [] && initContainers == [] && containers == []
      ensures serviceAccountName == "" && arch == None
    {
      labels, annotations, volumes, initContainers, containers := map[], map[], [], [], [];
      serviceAccountName, arch := "", None;
    }

    method AddToSpecVolume(volume: PodVolume)
      modifies this`volumes
      ensures volumes == Added(old(volumes), Some(volume))
    {
      var added := false;
      for i := 0 to |volumes|
        invariant volumes == old(volumes) && !added
        invariant forall j | 0 <= j < i :: volumes[j].name != volume.name
      {
        if volumes[i].name == volume.name {
          added := true;
          assert volumes[i] in volumes;
          break;
        }
      }
      if !added { volumes := volumes + [volume]; }
    }

    /** Mount one volume into a container with these mounts. */
    method MountVolume(pkg: KubePkg, n: string, v: Option<Volume>, mounts: seq<VolumeMount>, envFrom: seq<EnvFrom>)
      returns (mounts': seq<VolumeMount>, envFrom': seq<EnvFrom>)
      requires n in Volumes(pkg) && Volumes(pkg)[n] == v
      modifies this`volumes, this`annotations
      ensures mounts' == mounts + Listed(MountOf(pkg, n).volumeMount)
      ensures envFrom' == envFrom + Listed(MountOf(pkg, n).envFrom)
      ensures volumes == Added(old(volumes), MountOf(pkg, n).volume)
      ensures annotations == ReloadAppended(old(annotations), MountOf(pkg, n))
    {
      mounts', envFrom' := mounts, envFrom;
      if v.Some? {
        var ret := Mount(v.value, SubResourceName(pkg.name, n));
        if ret.volumeMount.Some? { mounts' := mounts' + [ret.volumeMount.value]; }
        if ret.envFrom.Some? { envFrom' := envFrom' + [ret.envFrom.value]; }
        if ret.reload != "" { annotations := AppendAnnotate(annotations, ret.reload, ret.resourceName); }
        if ret.volume.Some? { AddToSpecVolume(ret.volume.value); }
      }
    }

    /** One container, with what it adds to the template. */
    method ToContainer(c: Container, name: string, pkg: KubePkg) returns (container: PodContainer, ghost order: seq<string>)
      requires name in pkg.containers && pkg.containers[name] == c
      modifies this`volumes, this`annotations
      ensures IsContainer(pkg, container, name, order)
      ensures volumes == VolumesUpto(old(volumes), pkg, order, |order|)
      ensures annotations == AnnotationsUpto(old(annotations), pkg, order, |order|)
    {
      var env := Environment(pkg, c);
      var mounts, envFrom := [], [];
      var sources := VolumesFrom(pkg);
      var todo := sources.Keys;
      order := [];
      while todo != {}
        invariant todo <= sources.Keys && NoRepeats(order)
        invariant forall n :: n in order <==> n in sources && n !in todo
        invariant IsMounted(pkg, order, old(volumes), old(annotations), volumes, annotations, mounts, envFrom)
        decreases todo
      {
        var n :| n in todo;
        todo := todo - {n};
        MountedOneMore(pkg, order, old(volumes), old(annotations), volumes, annotations, mounts, envFrom, n);
        order := order + [n];
        mounts, envFrom := MountVolume(pkg, n, sources[n], mounts, envFrom);
      }
      container := PodContainer(name, env, envFrom, mounts);
    }

    /** The containers with these names, appended by the caller. */
    method ToContainers(names: seq<string>, pkg: KubePkg, ghost init: bool, ghost before: seq<seq<string>>)
      returns (cs: seq<PodContainer>, ghost orders: seq<seq<string>>)
      requires SortedNames(names, ContainerNames(pkg, init))
      requires volumes == TemplateVolumes(pkg, before, |before|)
      requires annotations == TemplateAnnotations(pkg, before, |before|)
      modifies this`volumes, this`annotations
      ensures AreContainers(pkg, cs, names, orders)
      ensures volumes == TemplateVolumes(pkg, before + orders, |before + orders|)
      ensures annotations == TemplateAnnotations(pkg, before + orders, |before + orders|)
    {
      cs, orders := [], [];
      ghost var all := before;
      for i := 0 to |names|
        invariant |cs| == |orders| == i && all == before + orders
        invariant forall j {:trigger IsContainer(pkg, cs[j], names[j], orders[j])} | 0 <= j < i ::
          IsContainer(pkg, cs[j], names[j], orders[j])
        invariant volumes == TemplateVolumes(pkg, all, |all|)
        invariant annotations == TemplateAnnotations(pkg, all, |all|)
      {
        assert names[i] in names;
        var c, order := ToContainer(pkg.containers[names[i]], names[i], pkg);
        TemplateStep(pkg, all, order);
        ghost var cs', orders' := cs, orders;
        cs, orders, all := cs + [c], orders + [order], all + [order];
        forall j | 0 <= j <= i ensures IsContainer(pkg, cs[j], names[j], orders[j]) {
          assert j < i ==> IsContainer(pkg, cs'[j], names[j], orders'[j]);
        }
      }
    }

    /** Init containers first, then the others. */
    method Fill(pkg: KubePkg, init: seq<string>, others: seq<string>) returns (ghost filled: Filling)
      requires volumes == [] && annotations == map[]
      requires SortedNames(init, ContainerNames(pkg, true)) && SortedNames(others, ContainerNames(pkg, false))
      modifies this`volumes, this`annotations, this`initContainers, this`containers
      ensures filled.init == init && filled.others == others
      ensures AreContainers(pkg, initContainers, init, filled.initOrders)
      ensures AreContainers(pkg, containers, others, filled.otherOrders)
      ensures volumes == TemplateVolumes(pkg, filled.Orders(), |filled.Orders()|)
      ensures annotations == TemplateAnnotations(pkg, filled.Orders(), |filled.Orders()|)
    {
      ghost var initOrders, otherOrders;
      initContainers, initOrders := ToContainers(init, pkg, true, []);
      assert [] + initOrders == initOrders;
      containers, otherOrders := ToContainers(others, pkg, false, initOrders);
      filled := Filling(init, others, initOrders, otherOrders);
    }
  }

  /** The choices of a run: the names in order, and for each the order of its visit to the volumes. */
  datatype Filling = Filling(init: seq<string>, others: seq<string>, initOrders: seq<seq<string>>, otherOrders: seq<seq<string>>)
  {
    function Orders(): seq<seq<string>> { initOrders + otherOrders }
  }

  ghost predicate IsFilling(pkg: KubePkg, f: Filling, initContainers: seq<PodContainer>, containers: seq<PodContainer>) {
    SortedNames(f.init, ContainerNames(pkg, true)) &&
    SortedNames(f.others, ContainerNames(pkg, false)) &&
    AreContainers(pkg, initContainers, f.init, f.initOrders) &&
    AreContainers(pkg, containers, f.others, f.otherOrders)
  }

  lemma {:induction false} UptoKeepsPrefix(
    volumes: seq<PodVolume>, annotations: Annotations, pkg: KubePkg, order: seq<string>, n: string, i: nat)
    requires i <= |order|
    ensures VolumesUpto(volumes, pkg, order + [n], i) == VolumesUpto(volumes, pkg, order, i)
    ensures AnnotationsUpto(annotations, pkg, order + [n], i) == AnnotationsUpto(annotations, pkg, order, i)
    ensures MountsUpto(pkg, order + [n], i) == MountsUpto(pkg, order, i)
    ensures EnvFromUpto(pkg, order + [n], i) == EnvFromUpto(pkg, order, i)
  {
    if i == 0 {
    } else {
      UptoKeepsPrefix(volumes, annotations, pkg, order, n, i - 1);
    }
  }

  lemma {:induction false} TemplateKeepsPrefix(pkg: KubePkg, orders: seq<seq<string>>, order: seq<string>, k: nat)
    requires k <= |orders|
    ensures TemplateVolumes(pkg, orders + [order], k) == TemplateVolumes(pkg, orders, k)
    ensures TemplateAnnotations(pkg, orders + [order], k) == TemplateAnnotations(pkg, orders, k)
  {
    if k == 0 {
    } else {
      TemplateKeepsPrefix(pkg, orders, order, k - 1);
    }
  }

  lemma TemplateStep(pkg: KubePkg, orders: seq<seq<string>>, order: seq<string>)
    ensures TemplateVolumes(pkg, orders + [order], |orders + [order]|)
      == VolumesUpto(TemplateVolumes(pkg, orders, |orders|), pkg, order, |order|)
    ensures TemplateAnnotations(pkg, orders + [order], |orders + [order]|)
      == AnnotationsUpto(TemplateAnnotations(pkg, orders, |orders|), pkg, order, |order|)
  {
    TemplateKeepsPrefix(pkg, orders, order, |orders|);
  }

  /** What the object lists under `k` once the keys `done` of its template have been looked at. */
  function ListedAt(annotations: Annotations, template: Annotations, done: set<string>, k: string): string {
    if k in done && k in template && (k == RELOAD_CONFIG_MAP || k == RELOAD_SECRET)
    then Get(Appended(annotations, k, template[k]), k) else Get(annotations, k)
  }

  ghost predicate IsListed(annotations: Annotations, template: Annotations, done: set<string>, after: Annotations) {
    forall k :: Get(after, k) == ListedAt(annotations, template, done, k) &&
      (k in done || (k in after <==> k in annotations))
  }

  lemma AppendedHere(m: Annotations, other: Annotations, k: string, value: string)
    requires (k in m <==> k in other) && Get(m, k) == Get(other, k)
    ensures Get(Appended(m, k, value), k) == Get(Appended(other, k, value), k)
    ensures forall j | j != k :: Get(Appended(m, k, value), j) == Get(m, j) && (j in Appended(m, k, value) <==> j in m)
  {
  }

  lemma ListedStep(annotations: Annotations, template: Annotations, done: set<string>, after: Annotations, k: string)
    requires IsListed(annotations, template, done, after) && k in template && k !in done
    ensures IsListed(annotations, template, done + {k},
      if k == RELOAD_CONFIG_MAP || k == RELOAD_SECRET then Appended(after, k, template[k]) else after)
  {
    AppendedHere(after, annotations, k, template[k]);
  }

  /** `patchReloadAnnotation`: the object that gets the template lists what its pods reload on. */
  method PatchReloadAnnotation(annotations: Annotations, template: Annotations) returns (after: Annotations)
    ensures IsListed(annotations, template, template.Keys, after)
  {
    after := annotations;
    var todo := template.Keys;
    while todo != {}
      invariant todo <= template.Keys && IsListed(annotations, template, template.Keys - todo, after)
      decreases todo
    {
      var k :| k in todo;
      ListedStep(annotations, template, template.Keys - todo, after, k);
      assert template.Keys - todo + {k} == template.Keys - (todo - {k});
      todo := todo - {k};
      if k == RELOAD_CONFIG_MAP {
        after := AppendAnnotate(after, k, template[k]);
      } else if k == RELOAD_SECRET {
        after := AppendAnnotate(after, k, template[k]);
      }
    }
    assert template.Keys - todo == template.Keys;
  }

  /** The names of the init containers and of the others, and the platforms all containers allow. */
  method Partition(pkg: KubePkg) returns (init: seq<string>, others: seq<string>, platforms: seq<string>)
    ensures SortedNames(init, ContainerNames(pkg, true))
    ensures SortedNames(others, ContainerNames(pkg, false))
    ensures ArePlatforms(pkg, platforms)
  {
    var initNames, otherNames := {}, {};
    platforms := PLATFORMS;
    var todo := pkg.containers.Keys;
    while todo != {}
      invariant todo <= pkg.containers.Keys
      invariant initNames == set n | n in pkg.containers && n !in todo && IsInit(n)
      invariant otherNames == set n | n in pkg.containers && n !in todo && !IsInit(n)
      invariant forall p :: p in platforms <==>
        p in PLATFORMS && forall n | n in pkg.containers && n !in todo :: Allows(pkg.containers[n], p)
      decreases todo
    {
      var name :| name in todo;
      todo := todo - {name};
      var c := pkg.containers[name];
      if |c.platforms| > 0 {
        KeptMeaning(platforms, c.platforms);
        platforms := Intersection(platforms, c.platforms);
      }
      if IsInit(name) { initNames := initNames + {name}; } else { otherNames := otherNames + {name}; }
    }
    init := SortedKeys(initNames);
    others := SortedKeys(otherNames);
  }

  /** The template, or nothing when there are no containers. */
  method ToPodTemplateSpec(pkg: KubePkg) returns (template: PodTemplateSpec?, ghost filled: Filling)
    ensures template == null <==> pkg.containers == map[]
    ensures template != null ==> fresh(template)
    ensures template != null ==> IsFilling(pkg, filled, template.initContainers, template.containers)
    ensures template != null ==> template.volumes == TemplateVolumes(pkg, filled.Orders(), |filled.Orders()|)
    ensures template != null ==> template.annotations == TemplateAnnotations(pkg, filled.Orders(), |filled.Orders()|)
    ensures template != null ==> IsArch(pkg, template.arch)
    ensures template != null ==> template.labels == map["app" := pkg.name]
    ensures template != null ==> template.serviceAccountName == if pkg.serviceAccount.Some? then pkg.name else ""
  {
    filled := Filling([], [], [], []);
    if |pkg.containers| == 0 { return null, filled; }
    template := new PodTemplateSpec();
    template.labels := template.labels["app" := pkg.name];
    var init, others, platforms := Partition(pkg);
    filled := template.Fill(pkg, init, others);
    if pkg.serviceAccount.Some? { template.serviceAccountName := pkg.name; }
    template.arch := Restriction(pkg, platforms);
  }
}
