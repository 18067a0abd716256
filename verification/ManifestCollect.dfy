/**
 Which manifests a package produces: `ManifestsFromSpec` of pkg/kubepkg/manifest/spec.go.  They are
 registered in four phases, and a later manifest replaces an earlier one of the same kind and name.
 */
module ManifestCollect {
  import opened Wrappers
  import opened Json
  import opened Text
  import opened KubeUtil
  import opened Package
  import opened Tables
  import opened InstallOrder

  // ------------------------------------------------------------------ what is registered

  /** `ToResource` of a volume source; host paths and empty directories make none. */
  function VolumeManifests(source: Option<Volume>, name: string): seq<Manifest> {
    match source
    case None => []
    case Some(v) =>
      match v.kind
      case SecretVolume => [Manifest(Object("Secret", name), Data(v.data))]
      case ConfigMapVolume => [Manifest(Object("ConfigMap", name), Data(v.data))]
      case ClaimVolume => [Manifest(Object("PersistentVolumeClaim", name), Spec(v.claim))]
      case _ => []
  }

  /** What the service `n` registers; the ingress gateway only concerns the service `#`. */
  function ServiceManifests(n: string, s: Service, name: string): seq<Manifest> {
    (if n == "#" && !s.nodePort && s.rules.Some? then [Manifest(Object("Ingress", name), Spec(s.rules.value))] else [])
    + [Manifest(Object("Service", name), Spec(s.spec))]
    + (if s.nodePort then [] else [Manifest(Object("ConfigMap", "endpoint-" + name), Data(Endpoints(n, s, name)))])
  }

  function Endpoints(n: string, s: Service, name: string): map<string, string> {
    map["default" := "http://" + name] + if n == "#" then s.endpoints else map[]
  }

  /** The account, its rules and their binding, which is determined by its name. */
  function AccountManifests(pkg: KubePkg): seq<Manifest> {
    match pkg.serviceAccount
    case None => []
    case Some(Account(ClusterScope, rules)) => [
      Manifest(Object("ServiceAccount", pkg.name), Spec(Null)),
      Manifest(Object("ClusterRole", pkg.name), Spec(rules)),
      Manifest(Object("ClusterRoleBinding", pkg.name), Spec(Null))]
    case Some(Account(NamespaceScope, rules)) => [
      Manifest(Object("ServiceAccount", pkg.name), Spec(Null)),
      Manifest(Object("Role", pkg.name), Spec(rules)),
      Manifest(Object("RoleBinding", pkg.name), Spec(Null))]
  }

  /** What the deployer makes of the package; `body` is what its `ToResource` returned. */
  function Deployed(pkg: KubePkg, body: Body): Manifest
    requires pkg.deployer.Some?
  {
    Manifest(Object(pkg.deployer.value, pkg.name), body)
  }

  /** The two phases that range over a map. */
  datatype Phase = OfVolumes | OfServices

  function Names(pkg: KubePkg, phase: Phase): set<string> {
    match phase
    case OfVolumes => Volumes(pkg).Keys
    case OfServices => pkg.services.Keys
  }

  function Made(pkg: KubePkg, phase: Phase, n: string): seq<Manifest> {
    match phase
    case OfVolumes => if n in Volumes(pkg) then VolumeManifests(Volumes(pkg)[n], SubResourceName(pkg.name, n)) else []
    case OfServices => if n in pkg.services then ServiceManifests(n, pkg.services[n], SubResourceName(pkg.name, n)) else []
  }

  function PhaseLog(pkg: KubePkg, phase: Phase, order: seq<string>, i: nat): seq<Manifest>
    requires i <= |order|
  {
    if i == 0 then [] else PhaseLog(pkg, phase, order, i - 1) + Made(pkg, phase, order[i - 1])
  }

  /** The orders in which a run visited volumes and services. */
  datatype Run = Run(volumes: seq<string>, services: seq<string>)

  ghost predicate IsRun(pkg: KubePkg, run: Run) {
    Enumerates(run.volumes, Volumes(pkg).Keys) && Enumerates(run.services, pkg.services.Keys)
  }

  /** Everything registered, in order. */
  ghost function Log(pkg: KubePkg, body: Body, run: Run): seq<Manifest>
    requires pkg.deployer.Some? && IsRun(pkg, run)
  {
    [Deployed(pkg, body)]
    + PhaseLog(pkg, OfVolumes, run.volumes, |run.volumes|)
    + PhaseLog(pkg, OfServices, run.services, |run.services|)
    + AccountManifests(pkg)
  }

  // ------------------------------------------------------------------------ object ids

  function ToLower(s: string): string {
    seq(|s|, i requires 0 <= i < |s| => if 'A' <= s[i] <= 'Z' then ((s[i] as int) + 32) as char else s[i])
  }

  /** `objectID`. */
  function ObjectId(o: Object): string { ToLower(o.kind) + "." + o.name }

  function IdOf(m: Manifest): string { ObjectId(m.id) }
  function Itself(m: Manifest): Manifest { m }

  const VOLUME_KINDS := {"Secret", "ConfigMap", "PersistentVolumeClaim"}
  const SERVICE_KINDS := {"Service", "Ingress", "ConfigMap"}
  const ACCOUNT_KINDS := {"ServiceAccount", "ClusterRole", "ClusterRoleBinding", "Role", "RoleBinding"}
  const SPEC_KINDS := {
    "Secret", "ConfigMap", "Deployment", "DaemonSet", "StatefulSet", "Job", "CronJob", "PersistentVolumeClaim",
    "Service", "Ingress", "ServiceAccount", "ClusterRole", "ClusterRoleBinding", "Role", "RoleBinding"}

  lemma SpecKindsAreAll()
    ensures SPEC_KINDS == DEPLOYERS + VOLUME_KINDS + SERVICE_KINDS + ACCOUNT_KINDS
  {
  }

  /** The kind a package produces, from the length and the first letter of its lower-case form. */
  function KindFrom(length: nat, first: char): string {
    match length
    case 3 => "Job"
    case 4 => "Role"
    case 6 => "Secret"
    case 7 => if first == 'c' then "CronJob" else if first == 's' then "Service" else "Ingress"
    case 9 => if first == 'c' then "ConfigMap" else "DaemonSet"
    case 10 => "Deployment"
    case 11 => if first == 's' then "StatefulSet" else if first == 'c' then "ClusterRole" else "RoleBinding"
    case 14 => "ServiceAccount"
    case 18 => "ClusterRoleBinding"
    case _ => "PersistentVolumeClaim"
  }

  /** No two of the kinds a package produces agree up to case. */
  lemma KindsApart(k: string)
    requires k in SPEC_KINDS
    ensures k != "" && k == KindFrom(|k|, ToLower(k)[0]) && Free(ToLower(k), '.')
  {
    assert 'A' <= k[0] <= 'Z' && ToLower(k)[0] == ((k[0] as int) + 32) as char;
    assert Free(k, '.');
    forall i | 0 <= i < |k| ensures ToLower(k)[i] != '.' { assert k[i] in k; }
  }

  /** Of the kinds a package produces, only manifests of the same kind and name share an id. */
  lemma ObjectIdsApart(a: Object, b: Object)
    requires a.kind in SPEC_KINDS && b.kind in SPEC_KINDS
    ensures ObjectId(a) == ObjectId(b) <==> a == b
  {
    KindsApart(a.kind);
    KindsApart(b.kind);
    if ObjectId(a) == ObjectId(b) {
      SplitFirst(ToLower(a.kind), '.', a.name);
      SplitFirst(ToLower(b.kind), '.', b.name);
      assert ([ToLower(a.kind)] + Split(a.name, '.'))[0] == ([ToLower(b.kind)] + Split(b.name, '.'))[0];
      assert |ToLower(a.kind)| == |a.kind| && |ToLower(b.kind)| == |b.kind|;
      assert ObjectId(a)[|a.kind| + 1..] == a.name && ObjectId(b)[|b.kind| + 1..] == b.name;
    }
  }

  function PhaseKinds(phase: Phase): set<string> { if phase.OfVolumes? then VOLUME_KINDS else SERVICE_KINDS }

  /** The kinds of a phase; one name registers at most one manifest of each. */
  lemma MadeKinds(pkg: KubePkg, phase: Phase, n: string)
    ensures forall m | m in Made(pkg, phase, n) :: m.id.kind in PhaseKinds(phase)
    ensures forall i, j | 0 <= i < j < |Made(pkg, phase, n)| :: Made(pkg, phase, n)[i].id != Made(pkg, phase, n)[j].id
  {
  }

  lemma AccountKinds(pkg: KubePkg)
    ensures forall m | m in AccountManifests(pkg) :: m.id.kind in ACCOUNT_KINDS
    ensures forall i, j | 0 <= i < j < |AccountManifests(pkg)| :: AccountManifests(pkg)[i].id != AccountManifests(pkg)[j].id
  {
  }

  lemma AccountKindsAreOwn()
    ensures ACCOUNT_KINDS !! VOLUME_KINDS && ACCOUNT_KINDS !! SERVICE_KINDS && ACCOUNT_KINDS !! DEPLOYERS
  {
  }

  // ---------------------------------------------------------------------- collecting

  class Collector {
    var manifests: map<string, Manifest>
    /** every registration, in order */
    ghost var log: seq<Manifest>

    /** The table is the one the log writes. */
    ghost predicate Valid()
      reads this
    {
      forall n {:trigger Upto(IdOf, Itself, log, n)} | n == |log| :: manifests == Upto(IdOf, Itself, log, n)
    }

    constructor ()
      ensures Valid() && log == []
    {
      manifests, log := map[], [];
    }

    method Register(o: Manifest)
      requires Valid()
      modifies this
      ensures Valid() && log == old(log) + [o]
      ensures manifests == old(manifests)[ObjectId(o.id) := o]
    {
      manifests := manifests[ObjectId(o.id) := o];
      UptoOfPrefix(IdOf, Itself, log, [o], |log|);
      log := log + [o];
    }

    method RegisterAll(objects: seq<Manifest>)
      requires Valid()
      modifies this
      ensures Valid() && log == old(log) + objects
    {
      for i := 0 to |objects|
        invariant Valid() && log == old(log) + objects[..i]
      {
        Register(objects[i]);
      }
      assert objects[..|objects|] == objects;
    }

    /** `walkVolumes` and `walkNetworks`: every name in some order; services stop at a gateway
        that does not parse. */
    method WalkPhase(pkg: KubePkg, phase: Phase) returns (ok: bool, ghost order: seq<string>)
      requires Valid()
      modifies this
      ensures Valid()
      ensures ok <==> !(phase.OfServices? && pkg.badGateway && "#" in pkg.services)
      ensures ok ==> Enumerates(order, Names(pkg, phase))
      ensures ok ==> log == old(log) + PhaseLog(pkg, phase, order, |order|)
    {
      order := [];
      var todo := Names(pkg, phase);
      while todo != {}
        invariant todo <= Names(pkg, phase) && Valid() && Enumerates(order, Names(pkg, phase) - todo)
        invariant phase.OfServices? && pkg.badGateway && "#" in pkg.services ==> "#" in todo
        invariant log == old(log) + PhaseLog(pkg, phase, order, |order|)
        decreases todo
      {
        var n :| n in todo;
        todo := todo - {n};
        if phase.OfServices? && n == "#" && pkg.badGateway { return false, order; }
        PhaseLogStep(pkg, phase, order, n);
        Associative(old(log), PhaseLog(pkg, phase, order, |order|), Made(pkg, phase, n));
        RegisterAll(Made(pkg, phase, n));
        order := order + [n];
      }
      ok := true;
    }

    /** `walk`, after the deployer's `ToResource`. */
    method Walk(pkg: KubePkg, body: Body) returns (ok: bool, ghost run: Run)
      requires Valid() && log == [] && pkg.deployer.Some?
      modifies this
      ensures ok <==> !(pkg.badGateway && "#" in pkg.services)
      ensures ok ==> IsRun(pkg, run) && manifests == Collected(pkg, body, run)
    {
      Register(Deployed(pkg, body));
      ghost var volumes, services;
      ok, volumes := WalkPhase(pkg, OfVolumes);
      ghost var first := log;
      assert first == [Deployed(pkg, body)] + PhaseLog(pkg, OfVolumes, volumes, |volumes|);
      ok, services := WalkPhase(pkg, OfServices);
      run := Run(volumes, services);
      if !ok { return; }
      ghost var second := log;
      RegisterAll(AccountManifests(pkg));
      assert log == second + AccountManifests(pkg) == Log(pkg, body, run);
      assert manifests == Upto(IdOf, Itself, log, |log|);
    }
  }

  lemma {:induction false} PhaseLogOfPrefix(pkg: KubePkg, phase: Phase, order: seq<string>, n: string, i: nat)
    requires i <= |order|
    ensures PhaseLog(pkg, phase, order + [n], i) == PhaseLog(pkg, phase, order, i)
  {
    if i == 0 {
    } else {
      PhaseLogOfPrefix(pkg, phase, order, n, i - 1);
    }
  }

  lemma PhaseLogStep(pkg: KubePkg, phase: Phase, order: seq<string>, n: string)
    ensures PhaseLog(pkg, phase, order + [n], |order + [n]|) == PhaseLog(pkg, phase, order, |order|) + Made(pkg, phase, n)
  {
    PhaseLogOfPrefix(pkg, phase, order, n, |order|);
  }

  /** The table that a run leaves. */
  ghost function Collected(pkg: KubePkg, body: Body, run: Run): map<string, Manifest>
    requires pkg.deployer.Some? && IsRun(pkg, run)
  {
    Upto(IdOf, Itself, Log(pkg, body, run), |Log(pkg, body, run)|)
  }

  /** `ManifestsFromSpec`; `deployed` is what the deployer's `ToResource` returned, or its error. */
  method ManifestsFromSpec(pkg: KubePkg, deployed: Option<Body>) returns (manifests: Option<map<string, Manifest>>, ghost run: Run)
    ensures pkg.deployer.None? ==> manifests == Some(map[])
    ensures pkg.deployer.Some? ==> (manifests.None? <==> deployed.None? || (pkg.badGateway && "#" in pkg.services))
    ensures pkg.deployer.Some? && manifests.Some? ==>
      IsRun(pkg, run) && manifests.value == Collected(pkg, deployed.value, run)
  {
    run := Run([], []);
    if pkg.deployer.None? { return Some(map[]), run; }
    if deployed.None? { return None, run; }
    var c := new Collector();
    var ok;
    ok, run := c.Walk(pkg, deployed.value);
    if !ok { return None, run; }
    return Some(c.manifests), run;
  }
}
