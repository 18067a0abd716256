/**
 What a package registers, read off its fields: `walkVolumes`, `walkNetworks` and `walkRbac` of
 pkg/kubepkg/manifest/spec.go.
 */
module ManifestMeaning {
  import opened Wrappers
  import opened Json
  import opened Package
  import opened Tables
  import opened InstallOrder
  import opened ManifestCollect
  import opened ManifestTable

  /** The name of what belongs to a package: `#` and the empty name are the package's own, `~` or `/` in
      front makes a name absolute, and others have the package's in front. */
  lemma NamesMeaning(pkgName: string, name: string)
    ensures SubResourceName(pkgName, "#") == SubResourceName(pkgName, "") == pkgName
    ensures SubResourceName(pkgName, "~" + name) == SubResourceName(pkgName, "/" + name) == name
    ensures name != "" && name != "#" && name[0] != '~' && name[0] != '/' ==>
      SubResourceName(pkgName, name) == pkgName + "-" + name
  {
    assert ("~" + name)[1..] == name && ("/" + name)[1..] == name;
  }

  /** The volumes of a package are its own, and, unless it deploys data itself, the values among its
      settings as an exported ConfigMap under `#`. */
  lemma VolumesMeaning(pkg: KubePkg, n: string)
    ensures n != "#" || pkg.deployer == Some("Secret") || pkg.deployer == Some("ConfigMap") ==>
      (n in Volumes(pkg) <==> n in pkg.volumes) && (n in pkg.volumes ==> Volumes(pkg)[n] == pkg.volumes[n])
    ensures n == "#" && pkg.deployer != Some("Secret") && pkg.deployer != Some("ConfigMap") ==>
      n in Volumes(pkg) && Volumes(pkg)[n].Some? &&
      var v := Volumes(pkg)[n].value;
      v.kind == ConfigMapVolume && v.mountPath == "export" &&
      (forall k :: k in v.data <==> k in pkg.config && pkg.config[k].valueFrom.None?) &&
      forall k | k in v.data :: v.data[k] == pkg.config[k].value
  {
  }

  ghost predicate IsVolumeManifest(pkg: KubePkg, n: string, m: Manifest) {
    n in Volumes(pkg) && Volumes(pkg)[n].Some? && m.id.name == SubResourceName(pkg.name, n) &&
    var v := Volumes(pkg)[n].value;
    (v.kind == SecretVolume && m.id.kind == "Secret" && m.body == Data(v.data)) ||
    (v.kind == ConfigMapVolume && m.id.kind == "ConfigMap" && m.body == Data(v.data)) ||
    (v.kind == ClaimVolume && m.id.kind == "PersistentVolumeClaim" && m.body == Spec(v.claim))
  }

  /** Secrets and ConfigMaps are registered with their data, claims with their specification, and other
      volumes not at all. */
  lemma VolumesRegisterExactly(pkg: KubePkg, m: Manifest)
    ensures InPhase(pkg, OfVolumes, m) <==> exists n :: IsVolumeManifest(pkg, n, m)
  {
    forall n ensures n in Volumes(pkg) && m in Made(pkg, OfVolumes, n) <==> IsVolumeManifest(pkg, n, m) {
      var made := Made(pkg, OfVolumes, n);
      assert |made| <= 1;
      assert made != [] ==> (m in made <==> m == made[0]);
    }
  }

  /** The endpoints of a service: its own address, and for the service `#` those of the gateway, which win. */
  ghost predicate AreEndpoints(data: map<string, string>, n: string, s: Service, name: string) {
    (forall k :: k in data <==> k == "default" || (n == "#" && k in s.endpoints)) &&
    forall k | k in data :: data[k] == if n == "#" && k in s.endpoints then s.endpoints[k] else "http://" + name
  }

  ghost predicate IsServiceManifest(pkg: KubePkg, n: string, m: Manifest) {
    n in pkg.services &&
    var s, name := pkg.services[n], SubResourceName(pkg.name, n);
    (m.id == Object("Service", name) && m.body == Spec(s.spec)) ||
    (!s.nodePort && m.id == Object("ConfigMap", "endpoint-" + name) && m.body.Data? && AreEndpoints(m.body.data, n, s, name)) ||
    (n == "#" && !s.nodePort && s.rules.Some? && m.id == Object("Ingress", name) && m.body == Spec(s.rules.value))
  }

  /** A service is registered with its endpoints, unless it is exposed on nodes, and the service `#` with
      an ingress when the gateway has rules for it. */
  lemma ServicesRegisterExactly(pkg: KubePkg, m: Manifest)
    ensures InPhase(pkg, OfServices, m) <==> exists n :: IsServiceManifest(pkg, n, m)
  {
    forall n ensures n in pkg.services && m in Made(pkg, OfServices, n) <==> IsServiceManifest(pkg, n, m) {
      if n in pkg.services { ServiceMakes(pkg, n, m); }
    }
  }

  lemma ServiceMakes(pkg: KubePkg, n: string, m: Manifest)
    requires n in pkg.services
    ensures m in Made(pkg, OfServices, n) <==> IsServiceManifest(pkg, n, m)
  {
    var s, name := pkg.services[n], SubResourceName(pkg.name, n);
    var own := Endpoints(n, s, name);
    assert forall data | AreEndpoints(data, n, s, name) :: data == own;
    assert AreEndpoints(own, n, s, name);
  }

  /** What is under the id has this kind, name and content, in every run. */
  ghost predicate IsThere(pkg: KubePkg, body: Body, id: string, m: Manifest)
    requires pkg.deployer.Some?
  {
    forall run | IsRun(pkg, run) :: Holds(Collected(pkg, body, run), id, m)
  }

  /** A cluster-scoped account comes with a ClusterRole of its rules and a ClusterRoleBinding, any other with
      a Role of its rules and a RoleBinding; all are in the table in the end. */
  lemma AccountIsThere(pkg: KubePkg, body: Body, account: Account)
    requires Deploys(pkg) && pkg.serviceAccount == Some(account)
    ensures IsThere(pkg, body, "serviceaccount." + pkg.name, Manifest(Object("ServiceAccount", pkg.name), Spec(Null)))
    ensures account.scope == ClusterScope ==>
      IsThere(pkg, body, "clusterrole." + pkg.name, Manifest(Object("ClusterRole", pkg.name), Spec(account.rules))) &&
      IsThere(pkg, body, "clusterrolebinding." + pkg.name, Manifest(Object("ClusterRoleBinding", pkg.name), Spec(Null)))
    ensures account.scope == NamespaceScope ==>
      IsThere(pkg, body, "role." + pkg.name, Manifest(Object("Role", pkg.name), Spec(account.rules))) &&
      IsThere(pkg, body, "rolebinding." + pkg.name, Manifest(Object("RoleBinding", pkg.name), Spec(Null)))
  {
    AccountIds(pkg.name);
    var made := AccountManifests(pkg);
    assert |made| == 3 && made[0] in made && made[1] in made && made[2] in made;
    AccountManifestIsThere(pkg, body, made[0]);
    AccountManifestIsThere(pkg, body, made[1]);
    AccountManifestIsThere(pkg, body, made[2]);
  }

  lemma AccountIds(name: string)
    ensures ObjectId(Object("ServiceAccount", name)) == "serviceaccount." + name
    ensures ObjectId(Object("ClusterRole", name)) == "clusterrole." + name
    ensures ObjectId(Object("ClusterRoleBinding", name)) == "clusterrolebinding." + name
    ensures ObjectId(Object("Role", name)) == "role." + name
    ensures ObjectId(Object("RoleBinding", name)) == "rolebinding." + name
  {
    assert ToLower("ServiceAccount") == "serviceaccount";
    assert ToLower("ClusterRole") == "clusterrole";
    assert ToLower("ClusterRoleBinding") == "clusterrolebinding";
    assert ToLower("Role") == "role";
    assert ToLower("RoleBinding") == "rolebinding";
  }

  lemma AccountManifestIsThere(pkg: KubePkg, body: Body, m: Manifest)
    requires Deploys(pkg) && m in AccountManifests(pkg)
    ensures IsThere(pkg, body, IdOf(m), m)
  {
    forall run | IsRun(pkg, run) ensures Holds(Collected(pkg, body, run), IdOf(m), m) {
      EveryIdIsThere(pkg, body, run, m);
      OnlySurvivors(pkg, body, run, IdOf(m));
      var held := Collected(pkg, body, run)[IdOf(m)];
      SameIdSameObject(pkg, body, held, m);
      AccountIsOwn(pkg, body, m, held);
    }
  }
}
