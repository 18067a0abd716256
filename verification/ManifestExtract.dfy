/** The manifests of a package in install order: `ExtractSorted` of pkg/kubepkg/manifest/kubepkg.go. */
module ManifestExtract {
  import opened Wrappers
  import opened Json
  import opened Text
  import opened KubeUtil
  import opened Package
  import opened Tables
  import opened InstallOrder
  import opened ManifestCollect
  import opened ManifestTable

  // -------------------------------------------------------------------- the sorted list

  /** Each manifest is under its id, and of a kind that packages produce. */
  ghost predicate WellFiled(table: map<string, Manifest>) {
    forall key | key in table :: IdOf(table[key]) == key && table[key].id.kind in SPEC_KINDS
  }

  lemma CollectedIsWellFiled(pkg: KubePkg, body: Body, run: Run)
    requires Deploys(pkg) && IsRun(pkg, run)
    ensures WellFiled(Collected(pkg, body, run))
  {
    forall key | key in Collected(pkg, body, run)
      ensures IdOf(Collected(pkg, body, run)[key]) == key && Collected(pkg, body, run)[key].id.kind in SPEC_KINDS
    {
      OnlySurvivors(pkg, body, run, key);
      LogKinds(pkg, body, Collected(pkg, body, run)[key]);
    }
  }

  function NamespaceManifests(namespace: string): seq<Manifest> {
    if namespace == "" then [] else [Manifest(Object("Namespace", namespace), Spec(Null))]
  }

  /** What is installed: the table, and the namespace if there is one. */
  ghost predicate Installs(namespace: string, table: map<string, Manifest>, m: Manifest) {
    m in NamespaceManifests(namespace) || Holds(table, IdOf(m), m)
  }

  /** All manifests of the table, contents and all, in install order. */
  ghost predicate IsInstallList(namespace: string, table: map<string, Manifest>, list: seq<Manifest>) {
    NoRepeats(INSTALL_ORDER) && Sorted(OrderingOf(INSTALL_ORDER), Objects(list)) &&
    forall m :: m in list <==> Installs(namespace, table, m)
  }

  /** The place of a kind in the install order, from its length and first letter. */
  function PlaceFrom(length: nat, first: char): nat {
    match length
    case 3 => if first == 'P' then 17 else 22
    case 4 => 13
    case 6 => 4
    case 7 => if first == 'S' then 15 else if first == 'C' then 23 else 24
    case 9 => if first == 'N' then 0 else if first == 'C' then 5 else 16
    case 10 => if first == 'L' then 2 else if first == 'R' then 19 else if first == 'D' then 20 else 25
    case 11 => if first == 'C' then 11 else if first == 'R' then 14 else 21
    case 12 => 6
    case 13 => 1
    case 14 => 9
    case 16 => 7
    case 17 => 3
    case 18 => 12
    case 21 => if first == 'P' then 8 else 18
    case _ => 10
  }

  lemma PlaceInOrder(i: nat)
    requires i < |INSTALL_ORDER|
    ensures INSTALL_ORDER[i] != "" && PlaceFrom(|INSTALL_ORDER[i]|, INSTALL_ORDER[i][0]) == i
  {
  }

  lemma InstallOrderIsDistinct()
    ensures NoRepeats(INSTALL_ORDER)
  {
    forall i, j | 0 <= i < j < |INSTALL_ORDER| ensures INSTALL_ORDER[i] != INSTALL_ORDER[j] {
      PlaceInOrder(i);
      PlaceInOrder(j);
    }
  }

  lemma SpecKindIsListed(kind: string)
    requires kind in SPEC_KINDS || kind == "Namespace"
    ensures kind in INSTALL_ORDER
  {
  }

  /** The position of a listed kind. */
  lemma PositionOfListed(kind: string)
    requires NoRepeats(INSTALL_ORDER) && kind in INSTALL_ORDER
    ensures kind != "" && kind in OrderingOf(INSTALL_ORDER)
    ensures Position(OrderingOf(INSTALL_ORDER), kind) == PlaceFrom(|kind|, kind[0])
  {
    var i :| 0 <= i < |INSTALL_ORDER| && INSTALL_ORDER[i] == kind;
    PlaceInOrder(i);
  }

  lemma InstalledIsListed(namespace: string, table: map<string, Manifest>, m: Manifest)
    requires WellFiled(table) && Installs(namespace, table, m)
    ensures m.id.kind in INSTALL_ORDER
    ensures m.id.kind == "Namespace" <==> m in NamespaceManifests(namespace)
  {
    SpecKindIsListed(m.id.kind);
    NamespaceIsNoSpecKind();
  }

  lemma NamespaceIsNoSpecKind()
    ensures "Namespace" !in SPEC_KINDS
  {
  }

  /** What is installed differs in kind or name. */
  lemma InstalledIdsApart(namespace: string, table: map<string, Manifest>, a: Manifest, b: Manifest)
    requires WellFiled(table) && Installs(namespace, table, a) && Installs(namespace, table, b)
    ensures a.id == b.id <==> a == b
  {
    InstalledIsListed(namespace, table, a);
    InstalledIsListed(namespace, table, b);
  }

  lemma InstalledGetsAlong(namespace: string, table: map<string, Manifest>, objects: set<Object>)
    requires NoRepeats(INSTALL_ORDER) && WellFiled(table)
    requires forall o | o in objects :: exists m :: Installs(namespace, table, m) && m.id == o
    ensures NamespacesGetAlong(OrderingOf(INSTALL_ORDER), objects)
  {
    forall o | o in objects ensures o.kind in OrderingOf(INSTALL_ORDER) {
      var m :| Installs(namespace, table, m) && m.id == o;
      InstalledIsListed(namespace, table, m);
      PositionOfListed(o.kind);
    }
  }

  /** The manifests of a package, when it deploys anything. */
  ghost function TableOf(pkg: KubePkg, body: Body, run: Run): map<string, Manifest>
    requires pkg.deployer.Some? ==> IsRun(pkg, run)
  {
    if pkg.deployer.None? then map[] else Collected(pkg, body, run)
  }

  /** `ExtractSorted`: the manifests in any order, after the namespace, then sorted. */
  method ExtractSorted(pkg: KubePkg, deployed: Option<Body>) returns (list: Option<seq<Manifest>>, ghost run: Run, ghost body: Body)
    requires pkg.deployer.Some? ==> Deploys(pkg)
    ensures list.None? <==> pkg.deployer.Some? && (deployed.None? || (pkg.badGateway && "#" in pkg.services))
    ensures list.Some? && pkg.deployer.Some? ==> IsRun(pkg, run) && deployed == Some(body)
    ensures list.Some? ==> IsInstallList(pkg.namespace, TableOf(pkg, body, run), list.value)
  {
    var manifests;
    manifests, run := ManifestsFromSpec(pkg, deployed);
    body := if deployed.Some? then deployed.value else Spec(Null);
    if manifests.None? { return None, run, body; }
    if pkg.deployer.Some? { CollectedIsWellFiled(pkg, body, run); }
    var sorted := InInstallOrder(pkg.namespace, manifests.value);
    return Some(sorted), run, body;
  }

  method InInstallOrder(namespace: string, manifests: map<string, Manifest>) returns (list: seq<Manifest>)
    requires WellFiled(manifests)
    ensures IsInstallList(namespace, manifests, list)
  {
    list := AppendTable(namespace, manifests);
    InstallOrderIsDistinct();
    forall o | o in Elements(Objects(list)) ensures exists m :: Installs(namespace, manifests, m) && m.id == o {
      var i :| 0 <= i < |list| && Objects(list)[i] == o;
      assert list[i] in list;
    }
    InstalledGetsAlong(namespace, manifests, Elements(Objects(list)));
    var ordering := NewOrdering(INSTALL_ORDER);
    var a := new Manifest[|list|](i requires 0 <= i < |list| => list[i]);
    assert a[..] == list;
    SortByKind(a, ordering);
    forall m ensures m in list <==> m in a[..] { assert m in multiset(list) <==> m in multiset(a[..]); }
    return a[..];
  }

  /** The loop over the table. */
  method AppendTable(namespace: string, manifests: map<string, Manifest>) returns (list: seq<Manifest>)
    requires WellFiled(manifests)
    ensures NoRepeats(Objects(list)) && forall m :: m in list <==> Installs(namespace, manifests, m)
  {
    list := NamespaceManifests(namespace);
    var todo := manifests.Keys;
    while todo != {}
      invariant todo <= manifests.Keys && NoRepeats(Objects(list))
      invariant forall m :: m in list <==> Installs(namespace, manifests, m) && (m in NamespaceManifests(namespace) || IdOf(m) !in todo)
      decreases todo
    {
      var k :| k in todo;
      var m := manifests[k];
      forall i | 0 <= i < |list| ensures list[i].id != m.id {
        assert list[i] in list;
        InstalledIdsApart(namespace, manifests, list[i], m);
        NamespaceIsNoSpecKind();
      }
      assert Objects(list + [m]) == Objects(list) + [m.id];
      todo := todo - {k};
      list := list + [m];
    }
  }

  // ---------------------------------------------------------------------- one list

  /** A list is determined by its table, and shows what is in it. */
  lemma InstallListIsUnique(namespace: string, s: map<string, Manifest>, a: seq<Manifest>, t: map<string, Manifest>, b: seq<Manifest>)
    requires WellFiled(s) && WellFiled(t) && IsInstallList(namespace, s, a) && IsInstallList(namespace, t, b)
    ensures a == b <==> s == t
  {
    if s == t {
      SameObjects(namespace, s, a, b);
      SortedIsUnique(OrderingOf(INSTALL_ORDER), Objects(a), Objects(b));
      assert |Objects(a)| == |a| && |Objects(b)| == |b|;
      forall i | 0 <= i < |a| ensures a[i] == b[i] {
        assert a[i].id == Objects(a)[i] == Objects(b)[i] == b[i].id;
        assert a[i] in a && b[i] in b;
        InstalledIdsApart(namespace, s, a[i], b[i]);
      }
    }
    if a == b {
      ListShowsTable(namespace, s, a, t);
      ListShowsTable(namespace, t, a, s);
    }
  }

  lemma ListShowsTable(namespace: string, s: map<string, Manifest>, a: seq<Manifest>, t: map<string, Manifest>)
    requires WellFiled(s) && WellFiled(t) && IsInstallList(namespace, s, a) && IsInstallList(namespace, t, a)
    ensures forall key | key in s :: Holds(t, key, s[key])
  {
    forall key | key in s ensures Holds(t, key, s[key]) {
      assert Installs(namespace, s, s[key]) && s[key] in a;
      InstalledIsListed(namespace, s, s[key]);
      NamespaceIsNoSpecKind();
    }
  }

  lemma SameObjects(namespace: string, table: map<string, Manifest>, a: seq<Manifest>, b: seq<Manifest>)
    requires IsInstallList(namespace, table, a) && IsInstallList(namespace, table, b)
    ensures Elements(Objects(a)) == Elements(Objects(b))
  {
    forall o ensures o in Objects(a) <==> o in Objects(b) {
      ObjectsOf(a, o);
      ObjectsOf(b, o);
    }
  }

  lemma ObjectsOf(s: seq<Manifest>, o: Object)
    ensures o in Objects(s) <==> exists m | m in s :: m.id == o
  {
    if o in Objects(s) {
      var i :| 0 <= i < |s| && Objects(s)[i] == o;
      assert s[i] in s;
    }
    if m :| m in s && m.id == o {
      var i :| 0 <= i < |s| && s[i] == m;
      assert Objects(s)[i] == o;
    }
  }

  /** Some arrangement of the table is in install order. */
  lemma SomeInstallList(namespace: string, table: map<string, Manifest>) returns (list: seq<Manifest>)
    requires WellFiled(table)
    ensures IsInstallList(namespace, table, list)
  {
    var manifests := table.Values + set m | m in NamespaceManifests(namespace);
    assert forall m :: m in manifests <==> Installs(namespace, table, m);
    var objects := set m | m in manifests :: m.id;
    InstallOrderIsDistinct();
    InstalledGetsAlong(namespace, table, objects);
    StrictTotalExactly(OrderingOf(INSTALL_ORDER), objects);
    var order := Arrange(OrderingOf(INSTALL_ORDER), objects);
    assert forall m | Installs(namespace, table, m) :: m in manifests && m.id in objects && m.id in Elements(order);
    assert forall i | 0 <= i < |order| :: order[i] in Elements(order);
    list := Arranged(namespace, table, order);
  }

  /** The installed manifests, in the order of their kinds and names. */
  lemma Arranged(namespace: string, table: map<string, Manifest>, order: seq<Object>) returns (list: seq<Manifest>)
    requires WellFiled(table)
    requires forall i | 0 <= i < |order| :: exists m :: Installs(namespace, table, m) && m.id == order[i]
    requires forall m | Installs(namespace, table, m) :: m.id in order
    ensures Objects(list) == order && forall m :: m in list <==> Installs(namespace, table, m)
  {
    list := seq(|order|, i requires 0 <= i < |order| => Under(namespace, table, order[i]));
    forall m | Installs(namespace, table, m) ensures m in list {
      var i :| 0 <= i < |order| && order[i] == m.id;
      InstalledIdsApart(namespace, table, list[i], m);
    }
  }

  /** The installed manifest of this kind and name. */
  ghost function Under(namespace: string, table: map<string, Manifest>, o: Object): (m: Manifest)
    requires exists m :: Installs(namespace, table, m) && m.id == o
    ensures Installs(namespace, table, m) && m.id == o
  {
    var m :| Installs(namespace, table, m) && m.id == o;
    m
  }

  /** Every run gives the same list, contents and all, exactly when the manifests of one phase that
      share kind and name agree. */
  lemma InstallListDeterminedExactly(pkg: KubePkg, body: Body)
    requires Deploys(pkg)
    ensures PhasesAgree(pkg) <==>
      forall p, q, a, b | IsRun(pkg, p) && IsRun(pkg, q) && IsInstallList(pkg.namespace, Collected(pkg, body, p), a) &&
        IsInstallList(pkg.namespace, Collected(pkg, body, q), b) :: a == b
  {
    TableDeterminedExactly(pkg, body);
    forall p | IsRun(pkg, p) ensures WellFiled(Collected(pkg, body, p)) { CollectedIsWellFiled(pkg, body, p); }
    if PhasesAgree(pkg) {
      forall p, q, a, b | IsRun(pkg, p) && IsRun(pkg, q) && IsInstallList(pkg.namespace, Collected(pkg, body, p), a) &&
        IsInstallList(pkg.namespace, Collected(pkg, body, q), b)
        ensures a == b
      {
        InstallListIsUnique(pkg.namespace, Collected(pkg, body, p), a, Collected(pkg, body, q), b);
      }
    } else {
      var p, q :| IsRun(pkg, p) && IsRun(pkg, q) && Collected(pkg, body, p) != Collected(pkg, body, q);
      var a := SomeInstallList(pkg.namespace, Collected(pkg, body, p));
      var b := SomeInstallList(pkg.namespace, Collected(pkg, body, q));
      InstallListIsUnique(pkg.namespace, Collected(pkg, body, p), a, Collected(pkg, body, q), b);
    }
  }

  // ---------------------------------------------------------------- dependencies first

  const WORKLOADS := {"DaemonSet", "Deployment", "StatefulSet", "Job", "CronJob"}
  const DEPENDENCIES := {"Secret", "ConfigMap", "PersistentVolumeClaim", "ServiceAccount", "ClusterRole",
                         "ClusterRoleBinding", "Role", "RoleBinding"}

  /** The namespace comes first, and configuration, secrets, claims, accounts and roles come
      before every workload. */
  lemma DependenciesFirst(namespace: string, table: map<string, Manifest>, list: seq<Manifest>)
    requires WellFiled(table) && IsInstallList(namespace, table, list)
    ensures namespace != "" ==>
      NamespaceManifests(namespace) <= list && list != [] && list[0].id == Object("Namespace", namespace)
    ensures forall i, j | 0 <= i < |list| && 0 <= j < |list| &&
      list[i].id.kind in DEPENDENCIES && list[j].id.kind in WORKLOADS :: i < j
  {
    if namespace != "" { NamespaceFirst(namespace, table, list); }
    forall i, j | 0 <= i < |list| && 0 <= j < |list| && list[i].id.kind in DEPENDENCIES && list[j].id.kind in WORKLOADS
      ensures i < j
    {
      assert j < i ==> Less(OrderingOf(INSTALL_ORDER), Objects(list)[j], Objects(list)[i]);
      DependencyBefore(list[i].id, list[j].id);
    }
  }

  lemma NamespaceFirst(namespace: string, table: map<string, Manifest>, list: seq<Manifest>)
    requires WellFiled(table) && IsInstallList(namespace, table, list) && namespace != ""
    ensures NamespaceManifests(namespace) <= list
  {
    var ns := NamespaceManifests(namespace)[0];
    assert ns in NamespaceManifests(namespace);
    assert Installs(namespace, table, ns) && ns in list;
    var k :| 0 <= k < |list| && list[k] == ns;
    assert list[0] in list;
    assert k > 0 ==> Less(OrderingOf(INSTALL_ORDER), Objects(list)[0], Objects(list)[k]);
    if list[0] != ns { OnlyNamespaceIsFirst(namespace, table, list[0]); }
  }

  lemma OnlyNamespaceIsFirst(namespace: string, table: map<string, Manifest>, m: Manifest)
    requires NoRepeats(INSTALL_ORDER) && WellFiled(table) && Installs(namespace, table, m) && namespace != ""
    ensures m !in NamespaceManifests(namespace) ==> !Less(OrderingOf(INSTALL_ORDER), m.id, Object("Namespace", namespace))
  {
    if m !in NamespaceManifests(namespace) {
      PlaceOfSpecKind(m.id.kind);
      LaterIsNotLess(m.id, Object("Namespace", namespace));
    }
  }

  lemma LaterIsNotLess(a: Object, b: Object)
    requires NoRepeats(INSTALL_ORDER) && a.kind in INSTALL_ORDER && b.kind in INSTALL_ORDER && a.kind != "" && b.kind != ""
    requires PlaceFrom(|a.kind|, a.kind[0]) > PlaceFrom(|b.kind|, b.kind[0])
    ensures a != b && !Less(OrderingOf(INSTALL_ORDER), a, b)
  {
    PositionOfListed(a.kind);
    PositionOfListed(b.kind);
  }

  lemma PlaceOfSpecKind(kind: string)
    requires kind in SPEC_KINDS
    ensures kind in INSTALL_ORDER && "Namespace" in INSTALL_ORDER
    ensures kind != "" && PlaceFrom(|kind|, kind[0]) > PlaceFrom(|"Namespace"|, 'N')
  {
    SpecKindIsListed(kind);
    NamespaceIsNoSpecKind();
    PlaceOfListed(kind);
  }

  lemma PlaceOfListed(kind: string)
    requires kind in INSTALL_ORDER && kind != "Namespace"
    ensures "Namespace" in INSTALL_ORDER
    ensures kind != "" && PlaceFrom(|kind|, kind[0]) > PlaceFrom(|"Namespace"|, 'N')
  {
    PlaceInOrder(0);
    var i :| 0 <= i < |INSTALL_ORDER| && INSTALL_ORDER[i] == kind;
    PlaceInOrder(i);
    assert INSTALL_ORDER[0] == "Namespace";
  }

  lemma PlaceOfDependency(kind: string)
    requires kind in DEPENDENCIES
    ensures kind in SPEC_KINDS && kind != "" && PlaceFrom(|kind|, kind[0]) <= 14
  {
  }

  lemma PlaceOfWorkload(kind: string)
    requires kind in WORKLOADS
    ensures kind in SPEC_KINDS && kind != "" && PlaceFrom(|kind|, kind[0]) >= 16
  {
  }

  lemma DependencyBefore(d: Object, w: Object)
    requires NoRepeats(INSTALL_ORDER) && d.kind in DEPENDENCIES && w.kind in WORKLOADS
    ensures d != w && !Less(OrderingOf(INSTALL_ORDER), w, d)
  {
    PlaceOfDependency(d.kind);
    PlaceOfWorkload(w.kind);
    SpecKindIsListed(d.kind);
    SpecKindIsListed(w.kind);
    LaterIsNotLess(w, d);
  }

  /** The kinds a package installs, in the order of installation. */
  const INSTALLED := [
    "Namespace", "Secret", "ConfigMap", "PersistentVolumeClaim", "ServiceAccount", "ClusterRole", "ClusterRoleBinding",
    "Role", "RoleBinding", "Service", "DaemonSet", "Deployment", "StatefulSet", "Job", "CronJob", "Ingress"]

  lemma PlaceOfInstalled(a: nat, b: nat)
    requires a < b < |INSTALLED|
    ensures INSTALLED[a] != "" && INSTALLED[b] != ""
    ensures PlaceFrom(|INSTALLED[a]|, INSTALLED[a][0]) < PlaceFrom(|INSTALLED[b]|, INSTALLED[b][0])
    ensures INSTALLED[a] in INSTALL_ORDER && INSTALLED[b] in INSTALL_ORDER
  {
  }

  /** Manifests are installed kind after kind, and those of a kind by name. */
  lemma KindAfterKind(namespace: string, table: map<string, Manifest>, list: seq<Manifest>, i: nat, j: nat)
    requires WellFiled(table) && IsInstallList(namespace, table, list) && i < |list| && j < |list|
    ensures forall a, b | 0 <= a < b < |INSTALLED| && list[i].id.kind == INSTALLED[a] && list[j].id.kind == INSTALLED[b] :: i < j
    ensures list[i].id.kind == list[j].id.kind && Before(list[i].id.name, list[j].id.name) ==> i < j
  {
    var ordering := OrderingOf(INSTALL_ORDER);
    var x, y := Objects(list)[i], Objects(list)[j];
    assert j < i ==> Less(ordering, y, x);
    forall a, b | 0 <= a < b < |INSTALLED| && list[i].id.kind == INSTALLED[a] && list[j].id.kind == INSTALLED[b] ensures i < j {
      PlaceOfInstalled(a, b);
      LaterIsNotLess(y, x);
    }
    if x.kind == y.kind && Before(x.name, y.name) {
      BeforeTotal(x.name, y.name);
    }
  }

  /** Manifests of the first kind refer to, or rely on, those of the second. */
  predicate ReliesOn(kind: string, other: string) {
    (kind == "ClusterRoleBinding" && other in ["ServiceAccount", "ClusterRole"]) ||
    (kind == "RoleBinding" && other in ["ServiceAccount", "Role"]) ||
    (kind in WORKLOADS && (other in DEPENDENCIES || other == "Service")) ||
    (kind == "Ingress" && (other in WORKLOADS || other == "Service"))
  }

  lemma RelianceInOrder(kind: string, other: string)
    requires ReliesOn(kind, other)
    ensures kind in INSTALL_ORDER && other in INSTALL_ORDER && kind != "" && other != ""
    ensures PlaceFrom(|other|, other[0]) < PlaceFrom(|kind|, kind[0])
  {
    RelianceIsProduced(kind, other);
    SpecKindIsListed(kind);
    SpecKindIsListed(other);
  }

  lemma RelianceIsProduced(kind: string, other: string)
    requires ReliesOn(kind, other)
    ensures kind in SPEC_KINDS && other in SPEC_KINDS && kind != "" && other != ""
    ensures PlaceFrom(|other|, other[0]) < PlaceFrom(|kind|, kind[0])
  {
  }

  lemma SortedPlaces(ordering: Ordering, s: seq<Object>, i: nat, j: nat)
    requires Sorted(ordering, s) && i < |s| && j < |s| && s[i] != s[j] && !Less(ordering, s[i], s[j])
    ensures j < i
  {
  }

  /** What a manifest relies on is installed before it: accounts and roles before their bindings,
      configuration, accounts and services before workloads, and those before the ingress. */
  lemma ReliedOnFirst(namespace: string, table: map<string, Manifest>, list: seq<Manifest>, i: nat, j: nat)
    requires WellFiled(table) && IsInstallList(namespace, table, list) && i < |list| && j < |list|
    requires ReliesOn(list[i].id.kind, list[j].id.kind)
    ensures j < i
  {
    RelianceInOrder(list[i].id.kind, list[j].id.kind);
    LaterIsNotLess(list[i].id, list[j].id);
    SortedPlaces(OrderingOf(INSTALL_ORDER), Objects(list), i, j);
  }
}
