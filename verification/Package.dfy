/**
 A package as its author writes it, as far as manifests and pods are generated from it:
 pkg/apis/kubepkg/v1alpha1.
 */
module Package {
  import opened Wrappers
  import opened Json
  import opened EnvRef

  datatype SourceKind = EmptyDir | HostPath | SecretVolume | ConfigMapVolume | ClaimVolume

  /** A volume: what it is, and where it is mounted; `claim` is the specification of a claim. */
  datatype Volume = Volume(kind: SourceKind, options: string, data: map<string, string>, claim: Json,
                           mountPath: string, subPath: string, readOnly: bool, prefix: string, optional: Option<bool>)

  datatype Container = Container(platforms: seq<string>, env: map<string, EnvVar>)

  /** A service and the specification it gets; `rules` and `endpoints` are what the ingress gateway
      makes of it, if it is exposed through one. */
  datatype Service = Service(nodePort: bool, spec: Json, rules: Option<Json>, endpoints: map<string, string>)

  datatype Scope = ClusterScope | NamespaceScope
  datatype Account = Account(scope: Scope, rules: Json)

  /** `badGateway` when the annotation naming the ingress gateway does not parse. */
  datatype KubePkg = KubePkg(
    name: string, namespace: string, deployer: Option<string>, containers: map<string, Container>,
    volumes: map<string, Option<Volume>>, config: map<string, EnvVar>, services: map<string, Service>,
    badGateway: bool, serviceAccount: Option<Account>)

  /** The kinds a `Deployer` can have. */
  const DEPLOYERS := {"Secret", "ConfigMap", "Deployment", "DaemonSet", "StatefulSet", "Job", "CronJob"}

  /** `SubResourceName`. */
  function SubResourceName(pkgName: string, name: string): string {
    if name == "#" || name == "" then pkgName
    else if name[0] == '~' || name[0] == '/' then name[1..]
    else pkgName + "-" + name
  }

  /** The configuration values that are not references. */
  function ConfigData(config: map<string, EnvVar>): map<string, string> {
    map k | k in config && config[k].valueFrom.None? :: config[k].value
  }

  function DataVolume(data: map<string, string>): Volume {
    Volume(ConfigMapVolume, "", data, Null, "export", "", false, "", None)
  }

  predicate DeploysData(pkg: KubePkg) { pkg.deployer == Some("Secret") || pkg.deployer == Some("ConfigMap") }

  /** The volumes of a package; its configuration becomes `#`, unless it is what is deployed. */
  function Volumes(pkg: KubePkg): map<string, Option<Volume>> {
    if DeploysData(pkg) then pkg.volumes else pkg.volumes["#" := Some(DataVolume(ConfigData(pkg.config)))]
  }

  method VolumesFrom(pkg: KubePkg) returns (volumes: map<string, Option<Volume>>)
    ensures volumes == Volumes(pkg)
  {
    volumes := pkg.volumes;
    var data := map[];
    var todo := pkg.config.Keys;
    while todo != {}
      invariant todo <= pkg.config.Keys
      invariant data == map k | k in pkg.config && k !in todo && pkg.config[k].valueFrom.None? :: pkg.config[k].value
      decreases todo
    {
      var k :| k in todo;
      todo := todo - {k};
      if pkg.config[k].valueFrom.None? { data := data[k := pkg.config[k].value]; }
    }
    assert data == ConfigData(pkg.config);
    if pkg.deployer != Some("Secret") && pkg.deployer != Some("ConfigMap") {
      volumes := volumes["#" := Some(DataVolume(data))];
    }
  }
}
