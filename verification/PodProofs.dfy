/** Generated pods are well formed, whatever order the maps were visited in. */
module PodProofs {
  import opened Wrappers
  import opened Json
  import opened Text
  import opened KubeUtil
  import opened Metadata
  import opened PodTemplate
  import opened Package
  import opened Tables
  import opened InstallOrder
  import opened ManifestCollect
  import opened ManifestTable

  // --------------------------------------------------------------------- volumes

  predicate UniqueNames(volumes: seq<PodVolume>) {
    forall i, j | 0 <= i < j < |volumes| :: volumes[i].name != volumes[j].name
  }

  predicate Asks(pkg: KubePkg, n: string, v: PodVolume) { MountOf(pkg, n).volume == Some(v) }

  /** Some volume of the package asks for `v`. */
  ghost predicate AskedFor(pkg: KubePkg, v: PodVolume) { exists n | n in Volumes(pkg) :: Asks(pkg, n, v) }

  /** Visiting volumes adds those asked for whose names are new. */
  lemma VisitAddsVolumes(start: seq<PodVolume>, pkg: KubePkg, order: seq<string>, i: nat)
    requires i <= |order| && UniqueNames(start)
    ensures var after := VolumesUpto(start, pkg, order, i);
      start <= after && UniqueNames(after) &&
      (forall v | v in after :: v in start || exists j | 0 <= j < i :: Asks(pkg, order[j], v)) &&
      forall j, v | 0 <= j < i && Asks(pkg, order[j], v) :: HasVolume(after, v.name)
  {
    VisitAddsOnlyAsked(start, pkg, order, i);
    VisitAddsAllAsked(start, pkg, order, i);
  }

  lemma {:induction false} VisitAddsOnlyAsked(start: seq<PodVolume>, pkg: KubePkg, order: seq<string>, i: nat)
    requires i <= |order| && UniqueNames(start)
    ensures var after := VolumesUpto(start, pkg, order, i);
      start <= after && UniqueNames(after) &&
      forall v | v in after :: v in start || exists j | 0 <= j < i :: Asks(pkg, order[j], v)
  {
    if i == 0 {
    } else {
      VisitAddsOnlyAsked(start, pkg, order, i - 1);
      var before := VolumesUpto(start, pkg, order, i - 1);
      AddedFacts(before, MountOf(pkg, order[i - 1]).volume);
      forall v | v in VolumesUpto(start, pkg, order, i) && v !in start ensures exists j | 0 <= j < i :: Asks(pkg, order[j], v) {
        assert v !in before ==> Asks(pkg, order[i - 1], v);
      }
    }
  }

  lemma {:induction false} VisitAddsAllAsked(start: seq<PodVolume>, pkg: KubePkg, order: seq<string>, i: nat)
    requires i <= |order| && UniqueNames(start)
    ensures forall j, v | 0 <= j < i && Asks(pkg, order[j], v) :: HasVolume(VolumesUpto(start, pkg, order, i), v.name)
  {
    if i == 0 {
    } else {
      var before := VolumesUpto(start, pkg, order, i - 1);
      VisitAddsOnlyAsked(start, pkg, order, i - 1);
      VisitAddsAllAsked(start, pkg, order, i - 1);
      AddedFacts(before, MountOf(pkg, order[i - 1]).volume);
      forall j, v | 0 <= j < i && Asks(pkg, order[j], v) ensures HasVolume(VolumesUpto(start, pkg, order, i), v.name) {
        if j < i - 1 { assert HasVolume(before, v.name); }
      }
    }
  }

  lemma AddedFacts(volumes: seq<PodVolume>, o: Option<PodVolume>)
    requires UniqueNames(volumes)
    ensures volumes <= Added(volumes, o) && UniqueNames(Added(volumes, o))
    ensures forall v | v in Added(volumes, o) :: v in volumes || o == Some(v)
    ensures o.Some? ==> HasVolume(Added(volumes, o), o.value.name)
    ensures forall name | HasVolume(volumes, name) :: HasVolume(Added(volumes, o), name)
  {
    if o.Some? && !HasVolume(volumes, o.value.name) {
      var after := Added(volumes, o);
      forall i | 0 <= i < |volumes| ensures volumes[i].name != o.value.name { assert volumes[i] in volumes; }
      assert o.value in after;
      forall name | HasVolume(volumes, name) ensures HasVolume(after, name) {
        var v :| v in volumes && v.name == name;
        assert v in after;
      }
    }
  }

  /** A second visit to the same volumes adds nothing. */
  lemma {:induction false} NothingNew(start: seq<PodVolume>, pkg: KubePkg, order: seq<string>, i: nat)
    requires i <= |order| && forall j, v | 0 <= j < i && Asks(pkg, order[j], v) :: HasVolume(start, v.name)
    ensures VolumesUpto(start, pkg, order, i) == start
  {
    if i == 0 {
    } else {
      NothingNew(start, pkg, order, i - 1);
      var o := MountOf(pkg, order[i - 1]).volume;
      assert o.Some? ==> Asks(pkg, order[i - 1], o.value);
    }
  }

  ghost predicate AreOrders(pkg: KubePkg, orders: seq<seq<string>>) {
    forall i | 0 <= i < |orders| :: IsOrder(orders[i], pkg)
  }

  /** The pod's volumes are those its first container asked for: their names are distinct, they are
      the names asked for, and each is a volume of the package. */
  lemma {:induction false} PodVolumesWellFormed(pkg: KubePkg, orders: seq<seq<string>>, k: nat)
    requires 1 <= k <= |orders| && AreOrders(pkg, orders)
    ensures var volumes := TemplateVolumes(pkg, orders, k);
      volumes == VolumesUpto([], pkg, orders[0], |orders[0]|) && UniqueNames(volumes) &&
      (forall v | v in volumes :: AskedFor(pkg, v)) &&
      forall v | AskedFor(pkg, v) :: HasVolume(volumes, v.name)
  {
    var order := orders[k - 1];
    if k == 1 {
      VisitAddsVolumes([], pkg, order, |order|);
      var volumes := TemplateVolumes(pkg, orders, 1);
      assert TemplateVolumes(pkg, orders, 0) == [];
      forall v | AskedFor(pkg, v) ensures HasVolume(volumes, v.name) {
        var n :| n in Volumes(pkg) && Asks(pkg, n, v);
        var j :| 0 <= j < |order| && order[j] == n;
      }
      forall v | v in volumes ensures AskedFor(pkg, v) {
        var j :| 0 <= j < |order| && Asks(pkg, order[j], v);
        assert order[j] in order;
      }
    } else {
      PodVolumesWellFormed(pkg, orders, k - 1);
      forall j, v | 0 <= j < |order| && Asks(pkg, order[j], v)
        ensures HasVolume(TemplateVolumes(pkg, orders, k - 1), v.name)
      {
        assert order[j] in order && AskedFor(pkg, v);
      }
      NothingNew(TemplateVolumes(pkg, orders, k - 1), pkg, order, |order|);
    }
  }

  predicate MountedAs(pkg: KubePkg, n: string, m: VolumeMount) { MountOf(pkg, n).volumeMount == Some(m) }
  predicate ReadAs(pkg: KubePkg, n: string, e: EnvFrom) { MountOf(pkg, n).envFrom == Some(e) }

  lemma {:induction false} MountsMeaning(pkg: KubePkg, order: seq<string>, i: nat)
    requires i <= |order|
    ensures forall m :: m in MountsUpto(pkg, order, i) <==> exists j | 0 <= j < i :: MountedAs(pkg, order[j], m)
  {
    if i == 0 {
    } else {
      MountsMeaning(pkg, order, i - 1);
    }
  }

  lemma {:induction false} EnvFromMeaning(pkg: KubePkg, order: seq<string>, i: nat)
    requires i <= |order|
    ensures forall e :: e in EnvFromUpto(pkg, order, i) <==> exists j | 0 <= j < i :: ReadAs(pkg, order[j], e)
  {
    if i == 0 {
    } else {
      EnvFromMeaning(pkg, order, i - 1);
    }
  }

  /** A container mounts and reads what the volumes of the package ask for. */
  lemma ContainerMounts(pkg: KubePkg, c: PodContainer, name: string, order: seq<string>)
    requires IsContainer(pkg, c, name, order)
    ensures forall m :: m in c.volumeMounts <==> exists n | n in Volumes(pkg) :: MountedAs(pkg, n, m)
    ensures forall e :: e in c.envFrom <==> exists n | n in Volumes(pkg) :: ReadAs(pkg, n, e)
  {
    MountsMeaning(pkg, order, |order|);
    EnvFromMeaning(pkg, order, |order|);
    assert forall j | 0 <= j < |order| :: order[j] in order && order[j] in Volumes(pkg);
    forall n | n in Volumes(pkg) ensures exists j | 0 <= j < |order| :: order[j] == n { assert n in order; }
  }

  /** Every mount of a container names a volume of the pod, and every volume of the pod is mounted. */
  lemma MountsNameVolumes(pkg: KubePkg, orders: seq<seq<string>>, c: PodContainer, name: string, order: seq<string>)
    requires orders != [] && AreOrders(pkg, orders) && IsContainer(pkg, c, name, order)
    ensures forall m | m in c.volumeMounts :: HasVolume(TemplateVolumes(pkg, orders, |orders|), m.name)
    ensures forall v | v in TemplateVolumes(pkg, orders, |orders|) :: HasMount(c.volumeMounts, v.name)
  {
    PodVolumesWellFormed(pkg, orders, |orders|);
    ContainerMounts(pkg, c, name, order);
    forall m | m in c.volumeMounts ensures HasVolume(TemplateVolumes(pkg, orders, |orders|), m.name) {
      MountIsAskedFor(pkg, m);
    }
    forall v | v in TemplateVolumes(pkg, orders, |orders|) ensures HasMount(c.volumeMounts, v.name) {
      VolumeIsMounted(pkg, v, c.volumeMounts);
    }
  }

  lemma MountIsAskedFor(pkg: KubePkg, m: VolumeMount)
    requires exists n | n in Volumes(pkg) :: MountedAs(pkg, n, m)
    ensures exists v: PodVolume :: AskedFor(pkg, v) && v.name == m.name
  {
    var n :| n in Volumes(pkg) && MountedAs(pkg, n, m);
    assert Asks(pkg, n, MountOf(pkg, n).volume.value);
  }

  lemma VolumeIsMounted(pkg: KubePkg, v: PodVolume, mounts: seq<VolumeMount>)
    requires AskedFor(pkg, v) && forall n, m | n in Volumes(pkg) && MountedAs(pkg, n, m) :: m in mounts
    ensures HasMount(mounts, v.name)
  {
    var n :| n in Volumes(pkg) && Asks(pkg, n, v);
    assert MountedAs(pkg, n, MountOf(pkg, n).volumeMount.value);
  }

  predicate HasMount(mounts: seq<VolumeMount>, name: string) { exists m | m in mounts :: m.name == name }

  // -------------------------------------------------- when the volumes are determined

  /** Volumes that end up with one name are one volume. */
  ghost predicate NamesAgree(pkg: KubePkg) {
    forall v, w | AskedFor(pkg, v) && AskedFor(pkg, w) && v.name == w.name :: v == w
  }

  function Visited(pkg: KubePkg, order: seq<string>): set<PodVolume> {
    set v | v in VolumesUpto([], pkg, order, |order|)
  }

  /** The pod's volumes do not depend on the order of the visit exactly when no two volumes of the
      package that differ end up with the same name. */
  lemma VolumesDeterminedExactly(pkg: KubePkg)
    ensures NamesAgree(pkg) <==>
      forall p, q | IsOrder(p, pkg) && IsOrder(q, pkg) :: Visited(pkg, p) == Visited(pkg, q)
  {
    if NamesAgree(pkg) {
      forall p, q | IsOrder(p, pkg) && IsOrder(q, pkg) ensures Visited(pkg, p) == Visited(pkg, q) {
        AgreedVolumes(pkg, p);
        AgreedVolumes(pkg, q);
        assert forall v :: v in Visited(pkg, p) <==> v in Visited(pkg, q);
      }
    } else {
      var v, w :| AskedFor(pkg, v) && AskedFor(pkg, w) && v.name == w.name && v != w;
      var p := FirstVolumeStays(pkg, v);
      var q := FirstVolumeStays(pkg, w);
      assert v in Visited(pkg, p) && v !in Visited(pkg, q);
    }
  }

  const COLLIDING := KubePkg(
    "app", "", Some("Deployment"), map[],
    map["data" := Some(Volume(EmptyDir, "", map[], Null, "/data", "", false, "", None)),
        "~app-data" := Some(Volume(HostPath, "", map[], Null, "/host", "", false, "", None))],
    map[], map[], false, None)

  /** An empty directory `data` and a host path `~app-data` of a package `app` are one volume of its pods,
      and which one depends on the order. */
  lemma VolumesOfAppCollide()
    ensures !NamesAgree(COLLIDING)
  {
    var v, w := PodVolume("app-data", EmptyDir, ""), PodVolume("app-data", HostPath, "");
    assert "app" + "-" + "data" == "app-data" && "~app-data"[1..] == "app-data";
    assert "data"[0] == 'd' && "/data" != "export" && "/host" != "export";
    assert Asks(COLLIDING, "data", v) && Asks(COLLIDING, "~app-data", w);
    assert "data" in Volumes(COLLIDING) && "~app-data" in Volumes(COLLIDING);
  }

  lemma AgreedVolumes(pkg: KubePkg, order: seq<string>)
    requires NamesAgree(pkg) && IsOrder(order, pkg)
    ensures forall v :: v in Visited(pkg, order) <==> AskedFor(pkg, v)
  {
    PodVolumesWellFormed(pkg, [order], 1);
    var volumes := VolumesUpto([], pkg, order, |order|);
    forall v | AskedFor(pkg, v) ensures v in volumes {
      var w :| w in volumes && w.name == v.name;
    }
  }

  /** Any volume can be visited first; then it is in the pod, and no other with its name. */
  lemma FirstVolumeStays(pkg: KubePkg, v: PodVolume) returns (order: seq<string>)
    requires AskedFor(pkg, v)
    ensures IsOrder(order, pkg) && v in Visited(pkg, order)
    ensures forall w | w in Visited(pkg, order) && w.name == v.name :: w == v
  {
    var n :| n in Volumes(pkg) && Asks(pkg, n, v);
    var rest := Enumerate(Volumes(pkg).Keys - {n});
    order := [n] + rest;
    VisitAddsVolumes([], pkg, order, |order|);
    FirstIsKept(pkg, order, v, |order|);
    UniqueByName(VolumesUpto([], pkg, order, |order|), v);
  }

  lemma UniqueByName(volumes: seq<PodVolume>, v: PodVolume)
    requires UniqueNames(volumes) && v in volumes
    ensures forall w | w in volumes && w.name == v.name :: w == v
  {
  }

  lemma {:induction false} FirstIsKept(pkg: KubePkg, order: seq<string>, v: PodVolume, i: nat)
    requires 1 <= i <= |order| && Asks(pkg, order[0], v)
    ensures v in VolumesUpto([], pkg, order, i)
  {
    if i == 1 {
      assert VolumesUpto([], pkg, order, 0) == [];
    } else {
      FirstIsKept(pkg, order, v, i - 1);
    }
  }

  // --------------------------------------------------------- what the pod reloads on

  predicate Reloads(pkg: KubePkg, n: string, key: string, name: string) {
    MountOf(pkg, n).reload == key && MountOf(pkg, n).resourceName == name
  }

  /** The pod uses the ConfigMap or Secret `name`. */
  ghost predicate Uses(pkg: KubePkg, key: string, name: string) {
    exists n | n in Volumes(pkg) :: Reloads(pkg, n, key, name)
  }

  predicate PlainName(name: string) { name != "" && Free(name, ',') }

  /** The names of the ConfigMaps, or of the Secrets, are neither empty nor have commas. */
  ghost predicate PlainNames(pkg: KubePkg, key: string) {
    forall n | n in Volumes(pkg) && MountOf(pkg, n).reload == key :: PlainName(MountOf(pkg, n).resourceName)
  }

  /** What a reload annotation lists after part of a visit. */
  lemma {:induction false} VisitLists(start: Annotations, pkg: KubePkg, order: seq<string>, i: nat, key: string, name: string)
    requires i <= |order| && key != ""
    requires forall j | 0 <= j < i && MountOf(pkg, order[j]).reload == key :: PlainName(MountOf(pkg, order[j]).resourceName)
    ensures IsReloadMatch(AnnotationsUpto(start, pkg, order, i), key, name) <==>
      IsReloadMatch(start, key, name) || exists j | 0 <= j < i :: Reloads(pkg, order[j], key, name)
  {
    if i == 0 {
    } else {
      VisitLists(start, pkg, order, i - 1, key, name);
      StepLists(AnnotationsUpto(start, pkg, order, i - 1), MountOf(pkg, order[i - 1]), key, name);
      assert IsReloadMatch(AnnotationsUpto(start, pkg, order, i), key, name) <==>
        IsReloadMatch(AnnotationsUpto(start, pkg, order, i - 1), key, name) || Reloads(pkg, order[i - 1], key, name);
    }
  }

  lemma StepLists(before: Annotations, r: MountResult, key: string, name: string)
    requires key != "" && (r.reload == key ==> PlainName(r.resourceName))
    ensures IsReloadMatch(ReloadAppended(before, r), key, name) <==>
      IsReloadMatch(before, key, name) || (r.reload == key && r.resourceName == name)
  {
    if r.reload == key {
      AppendedNames(before, key, r.resourceName, name);
      SplitWhole(r.resourceName, ',');
    }
  }

  /** An annotation lists exactly the ConfigMaps, or the Secrets, the pod uses, when their names are plain. */
  lemma {:induction false} PlainNamesAreListed(pkg: KubePkg, orders: seq<seq<string>>, k: nat, key: string, name: string)
    requires 1 <= k <= |orders| && AreOrders(pkg, orders) && PlainNames(pkg, key) && key != ""
    ensures IsReloadMatch(TemplateAnnotations(pkg, orders, k), key, name) <==> Uses(pkg, key, name)
  {
    var order := orders[k - 1];
    var start := TemplateAnnotations(pkg, orders, k - 1);
    if k == 1 {
    } else {
      PlainNamesAreListed(pkg, orders, k - 1, key, name);
    }
    forall j | 0 <= j < |order| && MountOf(pkg, order[j]).reload == key
      ensures PlainName(MountOf(pkg, order[j]).resourceName)
    {
      assert order[j] in order;
    }
    VisitLists(start, pkg, order, |order|, key, name);
    UsedIsVisited(pkg, order, key, name);
  }

  lemma UsedIsVisited(pkg: KubePkg, order: seq<string>, key: string, name: string)
    requires IsOrder(order, pkg)
    ensures Uses(pkg, key, name) <==> exists j | 0 <= j < |order| :: Reloads(pkg, order[j], key, name)
  {
    if Uses(pkg, key, name) {
      var n :| n in Volumes(pkg) && Reloads(pkg, n, key, name);
      var j :| 0 <= j < |order| && order[j] == n;
    }
    assert forall j | 0 <= j < |order| :: order[j] in order;
  }

  /** Every ConfigMap, or every Secret, has the empty name. */
  ghost predicate OnlyEmptyNames(pkg: KubePkg, key: string) {
    forall n | n in Volumes(pkg) && MountOf(pkg, n).reload == key :: MountOf(pkg, n).resourceName == ""
  }

  lemma {:induction false} EmptyNamesListNothing(start: Annotations, pkg: KubePkg, order: seq<string>, i: nat, key: string)
    requires i <= |order| && key != "" && key !in start
    requires forall j | 0 <= j < i && MountOf(pkg, order[j]).reload == key :: MountOf(pkg, order[j]).resourceName == ""
    ensures key !in AnnotationsUpto(start, pkg, order, i)
  {
    if i == 0 {
    } else {
      EmptyNamesListNothing(start, pkg, order, i - 1, key);
    }
  }

  lemma {:induction false} OnlyEmptyNamesListNothing(pkg: KubePkg, orders: seq<seq<string>>, k: nat, key: string)
    requires k <= |orders| && AreOrders(pkg, orders) && OnlyEmptyNames(pkg, key) && key != ""
    ensures key !in TemplateAnnotations(pkg, orders, k)
  {
    if k == 0 {
    } else {
      OnlyEmptyNamesListNothing(pkg, orders, k - 1, key);
      var order := orders[k - 1];
      assert forall j | 0 <= j < |order| :: order[j] in order;
      EmptyNamesListNothing(TemplateAnnotations(pkg, orders, k - 1), pkg, order, |order|, key);
    }
  }

  /** A volume of the empty name, visited last in the last container, erases the whole list. */
  lemma LastEmptyNameErases(pkg: KubePkg, orders: seq<seq<string>>, order: seq<string>, n: string)
    requires orders != [] && orders[|orders| - 1] == order && order != [] && order[|order| - 1] == n
    requires MountOf(pkg, n).reload != "" && MountOf(pkg, n).resourceName == ""
    ensures MountOf(pkg, n).reload !in TemplateAnnotations(pkg, orders, |orders|)
  {
  }

  /** No name has a comma, and no ConfigMap, and no Secret, with the empty name meets one with another. */
  ghost predicate NamesSurvive(pkg: KubePkg) {
    (forall n | n in Volumes(pkg) && MountOf(pkg, n).reload != "" :: Free(MountOf(pkg, n).resourceName, ',')) &&
    forall n, m | n in Volumes(pkg) && m in Volumes(pkg) && MountOf(pkg, n).reload == MountOf(pkg, m).reload != "" ::
      MountOf(pkg, n).resourceName == "" ==> MountOf(pkg, m).resourceName == ""
  }

  /** The annotation `key` lists `name` exactly when the pod uses it. */
  ghost predicate ListsRightly(pkg: KubePkg, orders: seq<seq<string>>, key: string, name: string) {
    IsReloadMatch(TemplateAnnotations(pkg, orders, |orders|), key, name) <==> Uses(pkg, key, name)
  }

  /** For a pod of `k` containers: in every order of visit the annotations that the reload controllers go by
      list exactly the named ConfigMaps and Secrets the pod uses, precisely when no name has a comma and
      none of them shares its kind with one of the empty name. */
  lemma ReloadListsExactly(pkg: KubePkg, k: nat)
    requires k >= 1
    ensures NamesSurvive(pkg) <==>
      forall orders, key, name | |orders| == k && AreOrders(pkg, orders) && key != "" && name != "" ::
        ListsRightly(pkg, orders, key, name)
  {
    if NamesSurvive(pkg) {
      forall orders, key, name | |orders| == k && AreOrders(pkg, orders) && key != "" && name != ""
        ensures ListsRightly(pkg, orders, key, name)
      {
        SurvivingNamesAreListed(pkg, orders, key, name);
      }
    } else {
      var orders, key, name := SomeNameIsLost(pkg, k);
      assert !ListsRightly(pkg, orders, key, name);
    }
  }

  lemma SurvivingNamesAreListed(pkg: KubePkg, orders: seq<seq<string>>, key: string, name: string)
    requires NamesSurvive(pkg) && orders != [] && AreOrders(pkg, orders) && key != "" && name != ""
    ensures ListsRightly(pkg, orders, key, name)
  {
    if n :| n in Volumes(pkg) && MountOf(pkg, n).reload == key && MountOf(pkg, n).resourceName == "" {
      assert OnlyEmptyNames(pkg, key);
      OnlyEmptyNamesListNothing(pkg, orders, |orders|, key);
    } else {
      PlainNamesAreListed(pkg, orders, |orders|, key, name);
    }
  }

  lemma SomeNameIsLost(pkg: KubePkg, k: nat) returns (orders: seq<seq<string>>, key: string, name: string)
    requires k >= 1 && !NamesSurvive(pkg)
    ensures |orders| == k && AreOrders(pkg, orders) && key != "" && name != ""
    ensures Uses(pkg, key, name) && !IsReloadMatch(TemplateAnnotations(pkg, orders, k), key, name)
  {
    if n :| n in Volumes(pkg) && MountOf(pkg, n).reload != "" && !Free(MountOf(pkg, n).resourceName, ',') {
      key, name := MountOf(pkg, n).reload, MountOf(pkg, n).resourceName;
      var order := Enumerate(Volumes(pkg).Keys);
      orders := seq(k, i => order);
      assert Reloads(pkg, n, key, name);
      var lists := TemplateAnnotations(pkg, orders, k);
      if IsReloadMatch(lists, key, name) { JoinOfSplit(lists[key], ','); }
    } else {
      var n, m :| n in Volumes(pkg) && m in Volumes(pkg) && MountOf(pkg, n).reload == MountOf(pkg, m).reload != "" &&
        MountOf(pkg, n).resourceName == "" && MountOf(pkg, m).resourceName != "";
      key, name := MountOf(pkg, m).reload, MountOf(pkg, m).resourceName;
      var order := EnumerateWithLast(Volumes(pkg).Keys, n);
      orders := seq(k, i => order);
      assert Reloads(pkg, m, key, name);
      LastEmptyNameErases(pkg, orders, order, n);
    }
  }

  const TILDE := KubePkg(
    "app", "", Some("Deployment"), map[],
    map["~" := Some(Volume(ConfigMapVolume, "", map[], Null, "/etc/app", "", false, "", None))], map[], map[], false, None)

  /** A ConfigMap volume `~` visited after the settings of a package `app`: the pod reads the ConfigMap `app`,
      but would not be reloaded for it. */
  lemma TildeErasesSettings()
    ensures AreOrders(TILDE, [["#", "~"]]) && Uses(TILDE, RELOAD_CONFIG_MAP, "app")
    ensures !IsReloadMatch(TemplateAnnotations(TILDE, [["#", "~"]], 1), RELOAD_CONFIG_MAP, "app")
  {
    assert Volumes(TILDE).Keys == {"#", "~"};
    assert "~"[0] == '~' && "~"[1..] == "" && "#"[0] == '#' && "~"[0] != "#"[0];
    assert "/etc/app"[0] != "export"[0];
    assert Enumerates(["#", "~"], Volumes(TILDE).Keys);
    assert "#" in Volumes(TILDE) && Reloads(TILDE, "#", RELOAD_CONFIG_MAP, "app");
    LastEmptyNameErases(TILDE, [["#", "~"]], ["#", "~"], "~");
  }

  // ---------------------------------------------------------- references and settings

  /** The manifest that a volume or an environment of this kind needs, if any. */
  function Needed(kind: SourceKind, name: string): Option<Object> {
    match kind
    case SecretVolume => Some(Object("Secret", name))
    case ConfigMapVolume => Some(Object("ConfigMap", name))
    case ClaimVolume => Some(Object("PersistentVolumeClaim", name))
    case _ => None
  }

  ghost predicate IsThere(table: map<string, Manifest>, kind: SourceKind, name: string) {
    Needed(kind, name).Some? ==> ObjectId(Needed(kind, name).value) in table
  }

  /** Every ConfigMap, Secret and claim that a pod's volume or environment refers to is in the table of
      manifests that any run of the collector leaves. */
  lemma ReferencesAreManifests(pkg: KubePkg, body: Body, run: Run, orders: seq<seq<string>>,
                               c: PodContainer, name: string, order: seq<string>)
    requires Deploys(pkg) && IsRun(pkg, run)
    requires orders != [] && AreOrders(pkg, orders) && IsContainer(pkg, c, name, order)
    ensures forall v | v in TemplateVolumes(pkg, orders, |orders|) :: IsThere(Collected(pkg, body, run), v.kind, v.name)
    ensures forall e | e in c.envFrom :: IsThere(Collected(pkg, body, run), e.kind, e.name)
  {
    PodVolumesWellFormed(pkg, orders, |orders|);
    ContainerMounts(pkg, c, name, order);
    forall v | v in TemplateVolumes(pkg, orders, |orders|) ensures IsThere(Collected(pkg, body, run), v.kind, v.name) {
      VolumeIsThere(pkg, body, run, v);
    }
    forall e | e in c.envFrom ensures IsThere(Collected(pkg, body, run), e.kind, e.name) {
      EnvFromIsThere(pkg, body, run, e);
    }
  }

  lemma VolumeIsThere(pkg: KubePkg, body: Body, run: Run, v: PodVolume)
    requires Deploys(pkg) && IsRun(pkg, run) && AskedFor(pkg, v)
    ensures IsThere(Collected(pkg, body, run), v.kind, v.name)
  {
    var n :| n in Volumes(pkg) && Asks(pkg, n, v);
    NeededIsThere(pkg, body, run, n);
  }

  lemma EnvFromIsThere(pkg: KubePkg, body: Body, run: Run, e: EnvFrom)
    requires Deploys(pkg) && IsRun(pkg, run) && exists n | n in Volumes(pkg) :: ReadAs(pkg, n, e)
    ensures IsThere(Collected(pkg, body, run), e.kind, e.name)
  {
    var n :| n in Volumes(pkg) && ReadAs(pkg, n, e);
    NeededIsThere(pkg, body, run, n);
  }

  lemma NeededIsThere(pkg: KubePkg, body: Body, run: Run, n: string)
    requires Deploys(pkg) && IsRun(pkg, run) && n in Volumes(pkg) && Volumes(pkg)[n].Some?
    ensures IsThere(Collected(pkg, body, run), Volumes(pkg)[n].value.kind, SubResourceName(pkg.name, n))
  {
    var made := Made(pkg, OfVolumes, n);
    if made != [] {
      assert made[0] in made && n in Names(pkg, OfVolumes);
      EveryIdIsThere(pkg, body, run, made[0]);
    }
  }

  /** A reference among the settings is a variable of each container, unless that has one of its own by
      the name; and each container reads the ConfigMap of the package. */
  lemma SettingsReachContainers(pkg: KubePkg, c: PodContainer, name: string, order: seq<string>, k: string)
    requires IsContainer(pkg, c, name, order) && k in pkg.config && !DeploysData(pkg)
    ensures pkg.config[k].valueFrom.Some? && k !in pkg.containers[name].env ==>
      EnvEntry(k, Effective(pkg.config[k])) in c.env
    ensures EnvFrom(ConfigMapVolume, pkg.name, "", None) in c.envFrom
  {
    var variables := Variables(pkg, pkg.containers[name]);
    if pkg.config[k].valueFrom.Some? && k !in pkg.containers[name].env {
      assert k in variables && k in EntryNames(c.env);
      var i :| 0 <= i < |c.env| && EntryNames(c.env)[i] == k;
      assert c.env[i] == EnvEntry(k, Effective(pkg.config[k]));
    }
    ContainerMounts(pkg, c, name, order);
    assert "#" in Volumes(pkg) && ReadAs(pkg, "#", EnvFrom(ConfigMapVolume, pkg.name, "", None));
  }

  /** The ConfigMap manifest that the containers read has the value. */
  ghost predicate ReadsValue(pkg: KubePkg, table: map<string, Manifest>, k: string, value: string) {
    var key := ObjectId(Object("ConfigMap", pkg.name));
    key in table && table[key].body.Data? && k in table[key].body.data && table[key].body.data[k] == value
  }

  /** Every value among the settings is in the ConfigMap manifest that each container reads, in every run,
      when nothing else ends up in that manifest; `SettingsKeptExactly` says that this is needed. */
  lemma SettingsReachManifest(pkg: KubePkg, body: Body, run: Run, c: PodContainer, name: string, order: seq<string>, k: string)
    requires Deploys(pkg) && !DeploysData(pkg) && IsRun(pkg, run) && SettingsKept(pkg)
    requires IsContainer(pkg, c, name, order) && k in pkg.config && pkg.config[k].valueFrom.None?
    ensures EnvFrom(ConfigMapVolume, pkg.name, "", None) in c.envFrom
    ensures ReadsValue(pkg, Collected(pkg, body, run), k, pkg.config[k].value)
  {
    SettingsReachContainers(pkg, c, name, order, k);
    SettingsKeptExactly(pkg, body);
    assert Holds(Collected(pkg, body, run), IdOf(SettingsManifest(pkg)), SettingsManifest(pkg));
  }

  // ------------------------------------------------------------------- containers

  /** Two runs give the same names in the same places, and each container of the package is generated
      once, among the init containers exactly when its name begins with `init-`. */
  lemma ContainersPartition(pkg: KubePkg, f: Filling, init: seq<PodContainer>, others: seq<PodContainer>,
                            g: Filling, init': seq<PodContainer>, others': seq<PodContainer>)
    requires IsFilling(pkg, f, init, others) && IsFilling(pkg, g, init', others')
    ensures f.init == g.init && f.others == g.others
    ensures NoRepeats(f.init + f.others) && forall n :: n in f.init + f.others <==> n in pkg.containers
    ensures forall n | n in pkg.containers :: n in f.init <==> |n| >= 5 && n[..5] == "init-"
  {
    SortedNamesUnique(f.init, g.init, ContainerNames(pkg, true));
    SortedNamesUnique(f.others, g.others, ContainerNames(pkg, false));
    AscendingNoRepeats(f.init);
    AscendingNoRepeats(f.others);
    forall i, j | 0 <= i < |f.init| && 0 <= j < |f.others| ensures f.init[i] != f.others[j] {
      assert f.init[i] in f.init && f.others[j] in f.others;
    }
  }

  lemma AscendingNoRepeats(names: seq<string>)
    requires Ascending(names)
    ensures NoRepeats(names)
  {
    forall i, j | 0 <= i < j < |names| ensures names[i] != names[j] {
      assert Before(names[i], names[j]);
      BeforeTotal(names[i], names[j]);
    }
  }
}
