/** What generated pods hold, read off the fields of the package: pkg/apis/kubepkg/v1alpha1/deploy.go. */
module PodMeaning {
  import opened Wrappers
  import Text
  import opened KubeUtil
  import opened EnvRef
  import opened Package
  import opened PodTemplate
  import opened PodProofs

  // --------------------------------------------------------------------- volumes

  /** The volume `n` of the package, and whether it is mounted or exported to the environment. */
  ghost predicate IsVolume(pkg: KubePkg, n: string, v: Volume, exported: bool) {
    n in Volumes(pkg) && Volumes(pkg)[n] == Some(v) && (v.mountPath == "export" <==> exported)
  }

  ghost predicate IsMountOf(pkg: KubePkg, n: string, m: VolumeMount) {
    exists v :: IsVolume(pkg, n, v, false) &&
      m == VolumeMount(SubResourceName(pkg.name, n), v.mountPath, v.subPath, v.readOnly)
  }

  ghost predicate IsEnvFromOf(pkg: KubePkg, n: string, e: EnvFrom) {
    exists v :: IsVolume(pkg, n, v, true) && v.kind in {ConfigMapVolume, SecretVolume} &&
      e == EnvFrom(v.kind, SubResourceName(pkg.name, n), v.prefix, v.optional)
  }

  lemma OneVolume(pkg: KubePkg, n: string)
    ensures forall m :: n in Volumes(pkg) && MountedAs(pkg, n, m) <==> IsMountOf(pkg, n, m)
    ensures forall e :: n in Volumes(pkg) && ReadAs(pkg, n, e) <==> IsEnvFromOf(pkg, n, e)
    ensures forall p :: Asks(pkg, n, p) <==>
      exists v :: IsVolume(pkg, n, v, false) && p == PodVolume(SubResourceName(pkg.name, n), v.kind, v.options)
  {
    if n in Volumes(pkg) && Volumes(pkg)[n].Some? {
      var v := Volumes(pkg)[n].value;
      assert IsVolume(pkg, n, v, v.mountPath == "export");
    }
  }

  /** A container mounts each volume that is not exported, as the volume says, and takes its environment
      from each exported ConfigMap and Secret. */
  lemma ContainerMeaning(pkg: KubePkg, c: PodContainer, name: string, order: seq<string>)
    requires IsContainer(pkg, c, name, order)
    ensures forall m :: m in c.volumeMounts <==> exists n :: IsMountOf(pkg, n, m)
    ensures forall e :: e in c.envFrom <==> exists n :: IsEnvFromOf(pkg, n, e)
  {
    ContainerMounts(pkg, c, name, order);
    forall n
      ensures forall m :: n in Volumes(pkg) && MountedAs(pkg, n, m) <==> IsMountOf(pkg, n, m)
      ensures forall e :: n in Volumes(pkg) && ReadAs(pkg, n, e) <==> IsEnvFromOf(pkg, n, e)
    {
      OneVolume(pkg, n);
    }
  }

  /** Volumes that are mounted, or, if exported, taken into the environment. */
  predicate Counts(pkg: KubePkg, n: string, exported: bool) {
    n in Volumes(pkg) && Volumes(pkg)[n].Some? &&
    var v := Volumes(pkg)[n].value;
    if exported then v.mountPath == "export" && v.kind in {ConfigMapVolume, SecretVolume} else v.mountPath != "export"
  }

  /** The names of those among the first `i` visited. */
  ghost function Counted(pkg: KubePkg, order: seq<string>, i: nat, exported: bool): set<string>
    requires i <= |order|
  {
    if i == 0 then {}
    else if Counts(pkg, order[i - 1], exported) then Counted(pkg, order, i - 1, exported) + {order[i - 1]}
    else Counted(pkg, order, i - 1, exported)
  }

  lemma {:induction false} CountedMeaning(pkg: KubePkg, order: seq<string>, i: nat, exported: bool)
    requires i <= |order|
    ensures forall n :: n in Counted(pkg, order, i, exported) <==> Counts(pkg, n, exported) && exists j | 0 <= j < i :: order[j] == n
  {
    if i == 0 {
    } else {
      CountedMeaning(pkg, order, i - 1, exported);
    }
  }

  function CountUpto(pkg: KubePkg, order: seq<string>, i: nat, exported: bool): nat
    requires i <= |order|
  {
    if i == 0 then 0 else CountUpto(pkg, order, i - 1, exported) + if Counts(pkg, order[i - 1], exported) then 1 else 0
  }

  lemma {:induction false} CountIsSize(pkg: KubePkg, order: seq<string>, i: nat, exported: bool)
    requires i <= |order| && NoRepeats(order)
    ensures |Counted(pkg, order, i, exported)| == CountUpto(pkg, order, i, exported)
  {
    if i == 0 {
    } else {
      CountIsSize(pkg, order, i - 1, exported);
      CountedMeaning(pkg, order, i - 1, exported);
      assert order[i - 1] !in Counted(pkg, order, i - 1, exported);
    }
  }

  lemma {:induction false} VisitCounts(pkg: KubePkg, order: seq<string>, i: nat)
    requires i <= |order|
    ensures |MountsUpto(pkg, order, i)| == CountUpto(pkg, order, i, false)
    ensures |EnvFromUpto(pkg, order, i)| == CountUpto(pkg, order, i, true)
  {
    if i == 0 {
    } else {
      VisitCounts(pkg, order, i - 1);
    }
  }

  /** Each volume is mounted, or taken into the environment, once. */
  lemma ContainerCounts(pkg: KubePkg, c: PodContainer, name: string, order: seq<string>)
    requires IsContainer(pkg, c, name, order)
    ensures |c.volumeMounts| == |set n | n in Volumes(pkg) && Counts(pkg, n, false)|
    ensures |c.envFrom| == |set n | n in Volumes(pkg) && Counts(pkg, n, true)|
  {
    VisitCounts(pkg, order, |order|);
    CountIsSize(pkg, order, |order|, false);
    CountIsSize(pkg, order, |order|, true);
    AllCounted(pkg, order, false);
    AllCounted(pkg, order, true);
  }

  lemma AllCounted(pkg: KubePkg, order: seq<string>, exported: bool)
    requires IsOrder(order, pkg)
    ensures Counted(pkg, order, |order|, exported) == set n | n in Volumes(pkg) && Counts(pkg, n, exported)
  {
    CountedMeaning(pkg, order, |order|, exported);
    forall n | n in Volumes(pkg) ensures exists j | 0 <= j < |order| :: order[j] == n { assert n in order; }
  }

  /** Every volume of a pod is one of the package's that is not exported, under its own name. */
  lemma PodVolumeMeaning(pkg: KubePkg, orders: seq<seq<string>>, p: PodVolume)
    requires orders != [] && AreOrders(pkg, orders) && p in TemplateVolumes(pkg, orders, |orders|)
    ensures exists n, v | IsVolume(pkg, n, v, false) :: p == PodVolume(SubResourceName(pkg.name, n), v.kind, v.options)
  {
    PodVolumesWellFormed(pkg, orders, |orders|);
    var n :| Asks(pkg, n, p);
    OneVolume(pkg, n);
  }

  // ------------------------------------------------------------------ environment

  /** The container's own variable, or a reference among the settings. */
  predicate IsEntry(pkg: KubePkg, c: Container, x: EnvEntry) {
    if x.name in c.env then
      x.variable == if c.env[x.name].valueFrom.Some? then EnvVar("", c.env[x.name].valueFrom) else EnvVar(c.env[x.name].value, None)
    else
      x.name in pkg.config && pkg.config[x.name].valueFrom.Some? && x.variable == EnvVar("", pkg.config[x.name].valueFrom)
  }

  lemma EnvironmentMeaning(pkg: KubePkg, c: Container, env: seq<EnvEntry>)
    requires IsEnvironment(env, Variables(pkg, c))
    ensures forall x :: x in env <==> IsEntry(pkg, c, x)
    ensures forall i, j | 0 <= i < j < |env| :: Text.Before(env[i].name, env[j].name)
  {
    var names := EntryNames(env);
    forall x | IsEntry(pkg, c, x) ensures x in env {
      assert x.name in names;
      var i :| 0 <= i < |names| && names[i] == x.name;
      assert env[i] == x;
    }
    forall i, j | 0 <= i < j < |env| ensures Text.Before(env[i].name, env[j].name) {
      assert names[i] == env[i].name && names[j] == env[j].name;
    }
  }

  // ------------------------------------------------------------------- platforms

  predicate Supports(pkg: KubePkg, arch: string) {
    forall n | n in pkg.containers :: pkg.containers[n].platforms == [] || "linux/" + arch in pkg.containers[n].platforms
  }

  /** Pods are restricted to those of amd64 and arm64 that all containers support, if to any. */
  lemma RestrictionMeaning(pkg: KubePkg, arch: Option<seq<string>>)
    requires IsArch(pkg, arch)
    ensures arch.None? ==> !Supports(pkg, "amd64") && !Supports(pkg, "arm64")
    ensures arch.Some? ==> forall a :: a in arch.value <==> (a == "amd64" || a == "arm64") && Supports(pkg, a)
  {
    forall a: string ensures AllAllow(pkg, Platform(a)) <==> Supports(pkg, a) {
      assert Platform(a) == "linux/" + a;
    }
    assert "amd64" in ARCHITECTURES && "arm64" in ARCHITECTURES;
  }
}
