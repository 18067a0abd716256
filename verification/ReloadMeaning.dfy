/**
 What reloading means for a package and its pods: the protocol of `ReloadProtocol`, read off the
 volumes of the package and the literal keys of pkg/annotation/reload.go.
 */
module ReloadMeaning {
  import opened Wrappers
  import opened Text
  import opened Metadata
  import opened Package
  import opened PodTemplate
  import opened PodProofs
  import P = ReloadProtocol
  import PassOutcome

  // ------------------------------------------------------------------ the literal keys

  /** The annotation that lists the ConfigMaps, or the Secrets, a workload is reloaded for. */
  function ListOf(kind: P.Kind): string {
    match kind
    case ConfigMap => "reload.octohelm.tech/configmap"
    case Secret => "reload.octohelm.tech/secret"
  }

  function HashOf(kind: P.Kind): string {
    match kind
    case ConfigMap => "hash.configmap.octohelm.tech/"
    case Secret => "hash.secret.octohelm.tech/"
  }

  /** The workload's list of this kind has the name. */
  predicate Lists(w: P.Workload, key: P.Key) {
    ListOf(key.kind) in w.annotations && key.name in Split(w.annotations[ListOf(key.kind)], ',')
  }

  /** The hash of the object's data on the workload's pod template. */
  predicate HasHash(w: P.Workload, key: P.Key, hash: string) {
    HashOf(key.kind) + key.name in w.template && w.template[HashOf(key.kind) + key.name] == hash
  }

  /** Being in sync, spelled out. */
  lemma SyncedMeaning(h: P.Hasher, s: P.State, key: P.Key)
    requires P.IsHasher(h) && key in s.objects
    ensures var o := s.objects[key]; var hash := h(key.kind, o.data);
      P.Synced(h, s, key) <==>
        (("reload.octohelm.tech/hash" in o.annotations && o.annotations["reload.octohelm.tech/hash"] == hash) &&
         forall id | id in s.workloads && Lists(s.workloads[id], key) :: HasHash(s.workloads[id], key, hash))
  {
    forall id | id in s.workloads
      ensures P.Matches(s.workloads[id], key) <==> Lists(s.workloads[id], key)
      ensures Get(s.workloads[id].template, P.HashKey(key)) == h(key.kind, s.objects[key].data)
        <==> HasHash(s.workloads[id], key, h(key.kind, s.objects[key].data))
    {
    }
  }

  /** A pass that ends with fresh listings behind it, over a managed object that is not queued again: the
      object and every workload whose list has its name carry the hash of its data.  Without fresh listings
      some workload does not. */
  lemma PassReloadsExactly(h: P.Hasher, s: P.State, before: seq<P.Step>, during: seq<P.Step>, key: P.Key)
    requires P.IsHasher(h) && P.Started(s) && P.IsRun(h, s, before)
    requires P.Enabled(h, P.After(h, s, before), P.PatchObject(key))
    requires var mid := P.Do(h, P.After(h, s, before), P.PatchObject(key));
      P.IsRun(h, mid, during) && PassOutcome.IsInsideRun(key, during) &&
      var t := P.After(h, mid, during);
      P.Enabled(h, t, P.Finish(key)) && key in t.objects && P.Managed(h, key, t.objects[key]) && key !in t.queue
    ensures var mid := P.Do(h, P.After(h, s, before), P.PatchObject(key));
      var t := P.Do(h, P.After(h, mid, during), P.Finish(key));
      key in t.objects &&
      var o := t.objects[key]; var hash := h(key.kind, o.data);
      PassOutcome.RunListsFresh(h, mid, key, during) <==>
        (("reload.octohelm.tech/hash" in o.annotations && o.annotations["reload.octohelm.tech/hash"] == hash) &&
         forall id | id in t.workloads && Lists(t.workloads[id], key) :: HasHash(t.workloads[id], key, hash))
  {
    var mid := P.Do(h, P.After(h, s, before), P.PatchObject(key));
    PassOutcome.PassSyncsExactly(h, s, before, during, key);
    SyncedMeaning(h, P.Do(h, P.After(h, mid, during), P.Finish(key)), key);
  }

  // --------------------------------------------------------------- objects and their updates

  predicate Reads(m: Annotations, key: string, value: string) { key in m && m[key] == value }

  /** An object takes part when it has a name and an app label, asks to be reloaded, and does not carry
      its own hash under its own hash key. */
  lemma ManagedMeaning(h: P.Hasher, key: P.Key, o: P.Object)
    requires P.IsHasher(h)
    ensures P.Managed(h, key, o) <==>
      (key.name != "" && Reads(o.annotations, "reload.octohelm.tech", "enabled") &&
       ("app.octohelm.tech/name" in o.labels && o.labels["app.octohelm.tech/name"] != "") &&
       !Reads(o.annotations, HashOf(key.kind) + key.name, h(key.kind, o.data)))
  {
  }

  /** An update queues its object exactly when the new one asks to be reloaded and its reload hash is not
      that of its data. */
  lemma EditQueuesExactly(h: P.Hasher, s: P.State, key: P.Key, o: P.Object)
    requires P.IsHasher(h) && P.Enabled(h, s, P.Edit(key, o))
    ensures key in P.Do(h, s, P.Edit(key, o)).queue <==>
      key in s.queue ||
      (Reads(o.annotations, "reload.octohelm.tech", "enabled") &&
       !Reads(o.annotations, "reload.octohelm.tech/hash", h(key.kind, o.data)))
  {
  }

  /** What the controller's patch leaves of an object it patches: the reload hash is that of the data, a
      ConfigMap has its own name as its app label, and all else is as it was. */
  lemma PatchedObject(h: P.Hasher, s: P.State, key: P.Key)
    requires P.IsHasher(h) && P.Enabled(h, s, P.PatchObject(key)) && s.objects[key] == s.passes[key].read
    ensures var o, o' := s.objects[key], P.Do(h, s, P.PatchObject(key)).objects[key];
      o'.data == o.data &&
      Reads(o'.annotations, "reload.octohelm.tech/hash", h(key.kind, o.data)) &&
      (forall k | k != "reload.octohelm.tech/hash" :: Get(o'.annotations, k) == Get(o.annotations, k)) &&
      (key.kind.Secret? ==> o'.labels == o.labels) &&
      (key.kind.ConfigMap? ==> Get(o'.labels, "app.octohelm.tech/name") == key.name) &&
      forall k | k != "app.octohelm.tech/name" :: Get(o'.labels, k) == Get(o.labels, k)
  {
    AnnotateEffect(s.objects[key].annotations, RELOAD_HASH, h(key.kind, s.objects[key].data));
    AnnotateEffect(s.objects[key].labels, LABEL_APP_NAME, key.name);
  }

  // ------------------------------------------------------------------- generated workloads

  function VolumeKind(kind: P.Kind): SourceKind {
    match kind
    case ConfigMap => ConfigMapVolume
    case Secret => SecretVolume
  }

  /** The volume `n` of the package is of this kind. */
  predicate IsSource(pkg: KubePkg, n: string, kind: P.Kind) {
    n in Volumes(pkg) && Volumes(pkg)[n].Some? && Volumes(pkg)[n].value.kind == VolumeKind(kind)
  }

  /** Some ConfigMap, or Secret, of the package has the name of the key. */
  ghost predicate UsesSource(pkg: KubePkg, key: P.Key) {
    exists n | IsSource(pkg, n, key.kind) :: SubResourceName(pkg.name, n) == key.name
  }

  /** No ConfigMap or Secret has a comma in its name, or the empty name beside others of its kind. */
  ghost predicate NamesKept(pkg: KubePkg) {
    forall kind, n | IsSource(pkg, n, kind) ::
      Free(SubResourceName(pkg.name, n), ',') &&
      (SubResourceName(pkg.name, n) == "" ==> forall m | IsSource(pkg, m, kind) :: SubResourceName(pkg.name, m) == "")
  }

  lemma SourcesReload(pkg: KubePkg, n: string, kind: P.Kind)
    requires n in Volumes(pkg)
    ensures MountOf(pkg, n).reload == ListOf(kind) <==> IsSource(pkg, n, kind)
    ensures IsSource(pkg, n, kind) ==> MountOf(pkg, n).resourceName == SubResourceName(pkg.name, n)
    ensures MountOf(pkg, n).reload != "" ==> exists k: P.Kind :: IsSource(pkg, n, k)
  {
    assert RELOAD_SECRET[21] == 's' && RELOAD_CONFIG_MAP[21] == 'c';
    if MountOf(pkg, n).reload != "" {
      assert IsSource(pkg, n, if Volumes(pkg)[n].value.kind.ConfigMapVolume? then P.ConfigMap else P.Secret);
    }
  }

  lemma KeptNamesSurvive(pkg: KubePkg)
    requires NamesKept(pkg)
    ensures NamesSurvive(pkg)
  {
    forall n | n in Volumes(pkg) && MountOf(pkg, n).reload != ""
      ensures Free(MountOf(pkg, n).resourceName, ',')
    {
      SourcesReload(pkg, n, P.ConfigMap);
      var k: P.Kind :| IsSource(pkg, n, k);
    }
    forall n, m | n in Volumes(pkg) && m in Volumes(pkg) && MountOf(pkg, n).reload == MountOf(pkg, m).reload != ""
      ensures MountOf(pkg, n).resourceName == "" ==> MountOf(pkg, m).resourceName == ""
    {
      SourcesReload(pkg, n, P.ConfigMap);
      var k: P.Kind :| IsSource(pkg, n, k);
      SourcesReload(pkg, n, k);
      SourcesReload(pkg, m, k);
    }
  }

  /** An object without annotations gets the two lists of the template as they are, and nothing else. */
  lemma ListsAreCopied(template: Annotations, after: Annotations)
    requires PodTemplate.IsListed(map[], template, template.Keys, after)
    ensures forall kind: P.Kind :: Get(after, ListOf(kind)) == Get(template, ListOf(kind))
    ensures forall k | k != ListOf(P.ConfigMap) && k != ListOf(P.Secret) :: Get(after, k) == ""
  {
  }

  /** The workload has the reload annotations of the template that the package generates. */
  ghost predicate IsGenerated(w: P.Workload, pkg: KubePkg, orders: seq<seq<string>>) {
    orders != [] && AreOrders(pkg, orders) &&
    forall kind: P.Kind :: Get(w.annotations, ListOf(kind)) == Get(TemplateAnnotations(pkg, orders, |orders|), ListOf(kind))
  }

  /** A workload generated from a package lists exactly the ConfigMaps and Secrets of the package. */
  lemma GeneratedLists(w: P.Workload, pkg: KubePkg, orders: seq<seq<string>>, key: P.Key)
    requires NamesKept(pkg) && IsGenerated(w, pkg, orders) && key.name != ""
    ensures P.Matches(w, key) <==> UsesSource(pkg, key)
    ensures Lists(w, key) <==> UsesSource(pkg, key)
  {
    var list := ListOf(key.kind);
    KeptNamesSurvive(pkg);
    SurvivingNamesAreListed(pkg, orders, list, key.name);
    if Uses(pkg, list, key.name) {
      var n :| n in Volumes(pkg) && Reloads(pkg, n, list, key.name);
      SourcesReload(pkg, n, key.kind);
    }
    if n :| IsSource(pkg, n, key.kind) && SubResourceName(pkg.name, n) == key.name {
      SourcesReload(pkg, n, key.kind);
      assert Reloads(pkg, n, list, key.name);
    }
    assert Split("", ',') == [""];
  }

  /** Visiting a generated workload patches it exactly when a ConfigMap, or Secret, of the package has the
      name of the key and the copy does not carry the hash: the hash then reads under the hash key of the
      object, and nothing else on the template has changed. */
  lemma VisitReloadsExactly(h: P.Hasher, s: P.State, pkg: KubePkg, orders: seq<seq<string>>, key: P.Key)
    requires NamesKept(pkg) && key.name != "" && P.Enabled(h, s, P.Visit(key)) && s.passes[key].hash != ""
    requires IsGenerated(s.passes[key].items[0].1, pkg, orders)
    ensures var (id, w) := s.passes[key].items[0]; var hash := s.passes[key].hash;
      var s' := P.Do(h, s, P.Visit(key));
      if UsesSource(pkg, key) && !HasHash(w, key, hash) then
        id in s'.workloads && s'.workloads == s.workloads[id := s'.workloads[id]] &&
        s'.workloads[id].annotations == w.annotations &&
        HasHash(s'.workloads[id], key, hash) &&
        forall k | k != HashOf(key.kind) + key.name :: Get(s'.workloads[id].template, k) == Get(w.template, k)
      else s'.workloads == s.workloads
  {
    var (id, w) := s.passes[key].items[0];
    GeneratedLists(w, pkg, orders, key);
    AnnotateEffect(w.template, P.HashKey(key), s.passes[key].hash);
  }
}
