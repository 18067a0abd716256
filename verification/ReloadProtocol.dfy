/**
 The configuration reload protocol of pkg/kubepkg/controller/reload_configmap.go and
 reload_secret.go, for one namespace.

 A state holds the cluster's objects and workloads, the reconcilers' work queue, and the passes
 in progress (the work queue never hands one key to two workers, and a key that arrives while
 its pass runs is queued again).  Each call to the cluster is one step, so everything else may
 happen between two of them.  A patch carries the whole object as it was read, resource version
 included, and is refused when the version has moved on.  Objects are read from the cluster itself;
 workloads are listed from a cache, so a listed copy may be any version the workload has had.
 */
module ReloadProtocol {
  import opened Metadata

  datatype Kind = ConfigMap | Secret
  datatype Key = Key(kind: Kind, name: string)
  datatype Object = Object(version: nat, data: map<string, string>, labels: Annotations, annotations: Annotations)

  datatype WorkloadKind = Deployment | StatefulSet | DaemonSet
  datatype WorkloadId = WorkloadId(kind: WorkloadKind, name: string)
  datatype Workload = Workload(version: nat, annotations: Annotations, template: Annotations)

  /** `StringDataHash` and `DataHash`: any function with non-empty results. */
  type Hasher = (Kind, map<string, string>) -> string

  ghost predicate IsHasher(h: Hasher) { forall k, d :: h(k, d) != "" }

  /** `ConfigMapHashKey` and `SecretHashKey`. */
  function HashKey(key: Key): string {
    match key.kind
    case ConfigMap => "hash.configmap.octohelm.tech/" + key.name
    case Secret => "hash.secret.octohelm.tech/" + key.name
  }

  /** No two objects share a hash key, and none is the reload hash annotation. */
  lemma HashKeysApart(a: Key, b: Key)
    ensures HashKey(a) == HashKey(b) <==> a == b
    ensures HashKey(a) !in [RELOAD, RELOAD_HASH, RELOAD_SECRET, RELOAD_CONFIG_MAP]
  {
    var x, y := HashKey(a), HashKey(b);
    assert x[0] == 'h' && RELOAD_HASH[0] == 'r' && RELOAD[0] == 'r' && RELOAD_SECRET[0] == 'r' && RELOAD_CONFIG_MAP[0] == 'r';
    if a.kind != b.kind {
      assert x[5] != y[5];
    } else if x == y {
      var n := if a.kind.ConfigMap? then 29 else 26;
      assert x[n..] == a.name && y[n..] == b.name;
    }
  }

  predicate Matches(w: Workload, key: Key) {
    IsReloadMatch(w.annotations, if key.kind.ConfigMap? then RELOAD_CONFIG_MAP else RELOAD_SECRET, key.name)
  }

  /** The update predicate of both controllers, asked of the new object. */
  predicate Triggers(h: Hasher, key: Key, o: Object) {
    Get(o.annotations, RELOAD) == "enabled" && h(key.kind, o.data) != Get(o.annotations, RELOAD_HASH)
  }

  // ------------------------------------------------------------------ the machine

  type Snapshot = seq<(WorkloadId, Workload)>

  datatype Pass =
    | Reading
    | Patching(read: Object)
    | Ranging(hash: string, lists: seq<WorkloadKind>, items: Snapshot)

  /** `past` has every version of every workload, the present one included. */
  datatype State = State(
    clock: nat,
    objects: map<Key, Object>,
    workloads: map<WorkloadId, Workload>,
    past: set<(WorkloadId, Workload)>,
    queue: set<Key>,
    passes: map<Key, Pass>)

  datatype Step =
    // by others
    | Create(key: Key, object: Object)
    | Edit(key: Key, object: Object)
    | Delete(key: Key)
    | Touch(id: WorkloadId, workload: Workload)
    | Restart
    // by the pass for a key
    | Start(key: Key)
    | Read(key: Key)
    | PatchObject(key: Key)
    | List(key: Key, items: Snapshot)
    | Visit(key: Key)
    | Finish(key: Key)
    | Fail(key: Key)

  /** Labelled and reload-enabled, and not itself carrying its hash key with the current hash
      (`Reconcile` takes that as already done). */
  predicate Managed(h: Hasher, key: Key, o: Object) {
    key.name != "" &&
    Get(o.labels, LABEL_APP_NAME) != "" &&
    Get(o.annotations, RELOAD) == "enabled" &&
    Get(o.annotations, HashKey(key)) != h(key.kind, o.data)
  }

  /** When the new reload hash fits the new data, the object was managed before and the edit did
      not write that hash. */
  predicate HonestEdit(h: Hasher, key: Key, before: Object, after: Object) {
    Get(after.annotations, RELOAD_HASH) == h(key.kind, after.data) ==>
      Managed(h, key, before) &&
      Get(before.annotations, RELOAD_HASH) == Get(after.annotations, RELOAD_HASH)
  }

  /** Others may change a workload but leave its reload lists and hash annotations alone. */
  ghost predicate SameReloadView(a: Workload, b: Workload) {
    forall key :: (Matches(a, key) <==> Matches(b, key)) &&
      Get(a.template, HashKey(key)) == Get(b.template, HashKey(key))
  }

  /** `items` is a listing of one kind of workload: all of them, in any versions. */
  ghost predicate IsListing(s: State, kind: WorkloadKind, items: Snapshot) {
    (forall i | 0 <= i < |items| :: items[i].0.kind == kind && items[i] in s.past) &&
    (forall id | id in s.workloads && id.kind == kind :: exists i | 0 <= i < |items| :: items[i].0 == id)
  }

  ghost predicate Enabled(h: Hasher, s: State, step: Step) {
    match step
    case Create(key, o) => key !in s.objects
    case Edit(key, o) => key in s.objects && (Managed(h, key, o) ==> HonestEdit(h, key, s.objects[key], o))
    case Delete(key) => key in s.objects
    case Touch(id, w) => id in s.workloads && SameReloadView(s.workloads[id], w)
    case Restart => true
    case Start(key) => key in s.queue && key !in s.passes
    case Read(key) => key in s.passes && s.passes[key].Reading?
    case PatchObject(key) =>
      key in s.passes && s.passes[key].Patching? &&
      key in s.objects && s.objects[key].version == s.passes[key].read.version
    case List(key, items) =>
      key in s.passes && s.passes[key].Ranging? && s.passes[key].items == [] &&
      s.passes[key].lists != [] && IsListing(s, s.passes[key].lists[0], items)
    case Visit(key) =>
      key in s.passes && s.passes[key].Ranging? && s.passes[key].items != [] &&
      var (id, w) := s.passes[key].items[0];
      Matches(w, key) && AnnotateChanges(w.template, HashKey(key), s.passes[key].hash) ==>
        id in s.workloads && s.workloads[id].version == w.version
    case Finish(key) =>
      key in s.passes && s.passes[key].Ranging? && s.passes[key].items == [] && s.passes[key].lists == []
    case Fail(key) => key in s.passes
  }

  /** A new version of an object, and the update event that goes with it. */
  function Updated(h: Hasher, s: State, key: Key, o: Object): State {
    s.(clock := s.clock + 1,
       objects := s.objects[key := o.(version := s.clock + 1)],
       queue := if Triggers(h, key, o) then s.queue + {key} else s.queue)
  }

  /** `Reconcile` up to its first patch: what it does with the object it read. */
  function AfterRead(h: Hasher, s: State, key: Key): State {
    if key in s.objects &&
       Get(s.objects[key].labels, LABEL_APP_NAME) != "" &&
       h(key.kind, s.objects[key].data) != Get(s.objects[key].annotations, HashKey(key))
    then s.(passes := s.passes[key := Patching(s.objects[key])])
    else s.(passes := s.passes - {key})
  }

  /** The object `Reconcile` sends: a ConfigMap also gets its own name as the app label. */
  function Annotating(h: Hasher, key: Key, o: Object): Object {
    o.(labels := if key.kind.ConfigMap? then Annotated(o.labels, LABEL_APP_NAME, key.name) else o.labels,
       annotations := Annotated(o.annotations, RELOAD_HASH, h(key.kind, o.data)))
  }

  const WORKLOAD_LISTS := [Deployment, StatefulSet, DaemonSet]

  function AfterPatchObject(h: Hasher, s: State, key: Key): State
    requires key in s.passes && s.passes[key].Patching?
  {
    var o := s.passes[key].read;
    var sent := Annotating(h, key, o);
    var s' := if sent != o then Updated(h, s, key, sent) else s;
    s'.(passes := s.passes[key := Ranging(h(key.kind, o.data), WORKLOAD_LISTS, [])])
  }

  function AfterVisit(s: State, key: Key): State
    requires key in s.passes && s.passes[key].Ranging? && s.passes[key].items != []
  {
    var p := s.passes[key];
    var (id, w) := p.items[0];
    var rest := s.passes[key := p.(items := p.items[1..])];
    if Matches(w, key) && AnnotateChanges(w.template, HashKey(key), p.hash) then
      var w' := w.(version := s.clock + 1, template := Annotated(w.template, HashKey(key), p.hash));
      s.(clock := s.clock + 1, workloads := s.workloads[id := w'], past := s.past + {(id, w')}, passes := rest)
    else
      s.(passes := rest)
  }

  ghost function Do(h: Hasher, s: State, step: Step): State
    requires Enabled(h, s, step)
  {
    match step
    case Create(key, o) =>
      s.(clock := s.clock + 1, objects := s.objects[key := o.(version := s.clock + 1)], queue := s.queue + {key})
    case Edit(key, o) => Updated(h, s, key, o)
    case Delete(key) => s.(objects := s.objects - {key}, queue := s.queue + {key})
    case Touch(id, w) =>
      var w' := w.(version := s.clock + 1);
      s.(clock := s.clock + 1, workloads := s.workloads[id := w'], past := s.past + {(id, w')})
    case Restart => s.(queue := s.objects.Keys, passes := map[])
    case Start(key) => s.(queue := s.queue - {key}, passes := s.passes[key := Reading])
    case Read(key) => AfterRead(h, s, key)
    case PatchObject(key) => AfterPatchObject(h, s, key)
    case List(key, items) =>
      s.(passes := s.passes[key := s.passes[key].(lists := s.passes[key].lists[1..], items := items)])
    case Visit(key) => AfterVisit(s, key)
    case Finish(key) => s.(passes := s.passes - {key})
    case Fail(key) => s.(queue := s.queue + {key}, passes := s.passes - {key})
  }

  // ---------------------------------------------------------------- the invariant

  /** A workload the pass has yet to deal with. */
  ghost predicate Pending(p: Pass, id: WorkloadId)
    requires p.Ranging?
  {
    id.kind in p.lists || exists i | 0 <= i < |p.items| :: p.items[i].0 == id
  }

  /** Every listed workload `except` still pending ones carries the hash. */
  ghost predicate Carried(s: State, key: Key, hash: string, p: Pass) {
    forall id | id in s.workloads && Matches(s.workloads[id], key) && !(p.Ranging? && Pending(p, id)) ::
      Get(s.workloads[id].template, HashKey(key)) == hash
  }

  /** The object's reload hash is the hash of its data, and every workload that lists it carries
      that hash on its pod template. */
  ghost predicate Synced(h: Hasher, s: State, key: Key)
    requires key in s.objects
  {
    var o := s.objects[key];
    Get(o.annotations, RELOAD_HASH) == h(key.kind, o.data) && Carried(s, key, h(key.kind, o.data), Reading)
  }

  predicate Carries(w: Workload, key: Key, hash: string) { Matches(w, key) && Get(w.template, HashKey(key)) == hash }

  /** A copy that carries the hash, and so would be skipped, is of a workload that still carries it. */
  predicate Fresh(s: State, key: Key, hash: string, item: (WorkloadId, Workload)) {
    Carries(item.1, key, hash) ==> item.0 in s.workloads && Get(s.workloads[item.0].template, HashKey(key)) == hash
  }

  ghost predicate AllFresh(s: State, key: Key, hash: string, items: Snapshot) {
    forall i | 0 <= i < |items| :: Fresh(s, key, hash, items[i])
  }

  ghost predicate KeyInv(h: Hasher, s: State, key: Key)
    requires key in s.objects
  {
    var o := s.objects[key];
    o.version <= s.clock &&
    (!Managed(h, key, o) || key in s.queue ||
     if key !in s.passes then Synced(h, s, key)
     else s.passes[key].Ranging? ==>
       s.passes[key].hash == h(key.kind, o.data) == Get(o.annotations, RELOAD_HASH) &&
       Carried(s, key, s.passes[key].hash, s.passes[key]) && AllFresh(s, key, s.passes[key].hash, s.passes[key].items))
  }

  /** A copy is the workload itself unless the version has moved on; its reload lists are the same. */
  ghost predicate PastInv(s: State, id: WorkloadId, w: Workload) {
    id in s.workloads && w.version <= s.workloads[id].version &&
    (w.version == s.workloads[id].version ==> w == s.workloads[id]) &&
    forall key :: Matches(w, key) <==> Matches(s.workloads[id], key)
  }

  ghost predicate PassInv(s: State, key: Key)
    requires key in s.passes
  {
    var p := s.passes[key];
    match p
    case Reading => true
    case Patching(read) =>
      Get(read.labels, LABEL_APP_NAME) != "" &&
      (key in s.objects && s.objects[key].version == read.version ==> s.objects[key] == read)
    case Ranging(hash, lists, items) =>
      hash != "" && forall i: nat | i < |items| :: items[i] in s.past
  }

  ghost predicate Inv(h: Hasher, s: State) {
    (forall key | key in s.objects :: KeyInv(h, s, key)) &&
    (forall key | key in s.passes :: PassInv(s, key)) &&
    (forall key | key in s.passes && s.passes[key].Patching? :: s.passes[key].read.version <= s.clock) &&
    (forall id | id in s.workloads :: s.workloads[id].version <= s.clock && (id, s.workloads[id]) in s.past) &&
    (forall id, w | (id, w) in s.past :: PastInv(s, id, w))
  }

  // --------------------------------------------- every step keeps the invariant

  /** The controller's own patch of the object never queues it again. */
  lemma OwnPatchIsFiltered(h: Hasher, s: State, key: Key)
    requires IsHasher(h) && Enabled(h, s, PatchObject(key))
    ensures Do(h, s, PatchObject(key)).queue == s.queue
  {
    var o := s.passes[key].read;
    AnnotateEffect(o.annotations, RELOAD_HASH, h(key.kind, o.data));
  }

  /** The patched object is managed if it was before, and now records the hash of its data. */
  lemma AnnotatingKeepsManaged(h: Hasher, key: Key, o: Object)
    requires IsHasher(h) && Get(o.labels, LABEL_APP_NAME) != ""
    ensures Managed(h, key, Annotating(h, key, o)) <==> Managed(h, key, o)
    ensures Get(Annotating(h, key, o).annotations, RELOAD_HASH) == h(key.kind, o.data)
    ensures !Triggers(h, key, Annotating(h, key, o))
  {
    AnnotateEffect(o.annotations, RELOAD_HASH, h(key.kind, o.data));
    AnnotateEffect(o.labels, LABEL_APP_NAME, key.name);
    HashKeysApart(key, key);
    assert RELOAD != RELOAD_HASH by { assert |RELOAD| != |RELOAD_HASH|; }
  }

  /** Only the object of `key` and its queue entry changed. */
  lemma ObjectChange(h: Hasher, s: State, s': State, key: Key)
    requires Inv(h, s) && s.clock <= s'.clock
    requires s'.workloads == s.workloads && s'.past == s.past && s'.passes == s.passes && s.queue <= s'.queue + {key}
    requires forall k | k != key :: k in s'.objects <==> k in s.objects
    requires forall k | k != key && k in s.objects :: s'.objects[k] == s.objects[k]
    requires key in s'.objects ==> KeyInv(h, s', key)
    requires key in s'.objects ==>
      (s'.objects[key].version > s.clock || (key in s.passes && s.passes[key].Ranging?))
    ensures Inv(h, s')
  {
    forall k | k in s'.objects ensures KeyInv(h, s', k) {
      if k != key { assert KeyInv(h, s, k); }
    }
    forall k | k in s'.passes ensures PassInv(s', k) { assert PassInv(s, k); }
    forall id, w | (id, w) in s'.past ensures PastInv(s', id, w) { assert PastInv(s, id, w); }
  }

  lemma EditKeepsInv(h: Hasher, s: State, key: Key, o: Object)
    requires Inv(h, s) && Enabled(h, s, Edit(key, o))
    ensures Inv(h, Do(h, s, Edit(key, o)))
  {
    var s' := Do(h, s, Edit(key, o));
    assert KeyInv(h, s, key);
    ObjectChange(h, s, s', key);
  }

  lemma CreateOrDeleteKeepsInv(h: Hasher, s: State, step: Step)
    requires Inv(h, s) && Enabled(h, s, step) && (step.Create? || step.Delete?)
    ensures Inv(h, Do(h, s, step))
  {
    ObjectChange(h, s, Do(h, s, step), step.key);
  }

  /** Only the pass and queue entry of `key` changed. */
  lemma PassChange(h: Hasher, s: State, s': State, key: Key)
    requires Inv(h, s) && s'.clock == s.clock
    requires s'.workloads == s.workloads && s'.past == s.past && s'.objects == s.objects
    requires forall k | k != key :: (k in s'.passes <==> k in s.passes) && (k in s'.queue <==> k in s.queue)
    requires forall k | k != key && k in s.passes :: s'.passes[k] == s.passes[k]
    requires key in s'.passes ==> PassInv(s', key)
    requires key in s'.passes && s'.passes[key].Patching? ==> s'.passes[key].read.version <= s.clock
    requires key in s'.objects ==> KeyInv(h, s', key)
    ensures Inv(h, s')
  {
    forall k | k in s'.objects ensures KeyInv(h, s', k) {
      if k != key { assert KeyInv(h, s, k); }
    }
    forall k | k in s'.passes ensures PassInv(s', k) {
      if k != key { assert PassInv(s, k); }
    }
    forall id, w | (id, w) in s'.past ensures PastInv(s', id, w) { assert PastInv(s, id, w); }
  }

  lemma BookkeepingKeepsInv(h: Hasher, s: State, step: Step)
    requires IsHasher(h) && Inv(h, s) && Enabled(h, s, step)
    requires step.Start? || step.Read? || step.Finish? || step.Fail?
    ensures Inv(h, Do(h, s, step))
  {
    if step.key in s.objects { assert KeyInv(h, s, step.key); }
    PassChange(h, s, Do(h, s, step), step.key);
  }

  /** A listing has no stale copies that matter: when the pass is what keeps the object in sync, none of
      them carries its hash without the workload itself doing so. */
  ghost predicate IsCareful(h: Hasher, s: State, key: Key, items: Snapshot)
    requires key in s.passes && s.passes[key].Ranging?
  {
    key in s.objects && Managed(h, key, s.objects[key]) && key !in s.queue ==> AllFresh(s, key, s.passes[key].hash, items)
  }

  lemma ListKeepsInv(h: Hasher, s: State, key: Key, items: Snapshot)
    requires Inv(h, s) && Enabled(h, s, List(key, items)) && IsCareful(h, s, key, items)
    ensures Inv(h, Do(h, s, List(key, items)))
  {
    var s' := Do(h, s, List(key, items));
    var p, p' := s.passes[key], s'.passes[key];
    assert PassInv(s, key);
    if key in s.objects {
      assert KeyInv(h, s, key);
      forall id | id in s.workloads && Pending(p, id) ensures Pending(p', id) {
        if id.kind == p.lists[0] {
          var i :| 0 <= i < |items| && items[i].0 == id;
          assert p'.items[i].0 == id;
        }
      }
    }
    PassChange(h, s, s', key);
  }

  lemma PatchObjectKeepsInv(h: Hasher, s: State, key: Key)
    requires IsHasher(h) && Inv(h, s) && Enabled(h, s, PatchObject(key))
    ensures Inv(h, Do(h, s, PatchObject(key)))
  {
    var o := s.passes[key].read;
    assert PassInv(s, key) && KeyInv(h, s, key);
    assert s.objects[key] == o;
    AnnotatingKeepsManaged(h, key, o);
    var sent := Annotating(h, key, o);
    var ranging := Ranging(h(key.kind, o.data), WORKLOAD_LISTS, []);
    var mid := s.(passes := s.passes[key := ranging], queue := s.queue + {key});
    PassChange(h, s, mid, key);
    var s' := Do(h, s, PatchObject(key));
    forall id: WorkloadId ensures Pending(ranging, id) {
      assert WORKLOAD_LISTS[if id.kind.Deployment? then 0 else if id.kind.StatefulSet? then 1 else 2] == id.kind;
    }
    assert KeyInv(h, s', key);
    ObjectChange(h, mid, s', key);
  }

  /** One workload got a new version whose hash annotations are untouched, except possibly the
      one of `key`, which now reads as that pass's hash. */
  lemma WorkloadChange(h: Hasher, s: State, s': State, id: WorkloadId, owner: Key)
    requires Inv(h, s) && id in s.workloads && id in s'.workloads && s'.clock == s.clock + 1
    requires s' == s.(clock := s'.clock, workloads := s'.workloads, past := s.past + {(id, s'.workloads[id])})
    requires s'.workloads == s.workloads[id := s'.workloads[id]]
    requires s'.workloads[id].version == s'.clock
    requires forall k :: Matches(s'.workloads[id], k) <==> Matches(s.workloads[id], k)
    requires forall k ::
      Get(s'.workloads[id].template, HashKey(k)) == Get(s.workloads[id].template, HashKey(k)) ||
      (k == owner && owner in s.passes && s.passes[owner].Ranging? &&
       Get(s'.workloads[id].template, HashKey(k)) == s.passes[owner].hash)
    ensures Inv(h, s')
  {
    forall k | k in s'.objects ensures KeyInv(h, s', k) {
      assert KeyInv(h, s, k);
      if k !in s.queue && Managed(h, k, s.objects[k]) {
        var hash := h(k.kind, s.objects[k].data);
        var p := if k in s.passes then s.passes[k] else Reading;
        if k !in s.passes || s.passes[k].Ranging? {
          forall j | j in s'.workloads && Matches(s'.workloads[j], k) && !(p.Ranging? && Pending(p, j))
            ensures Get(s'.workloads[j].template, HashKey(k)) == hash
          {
            assert Matches(s.workloads[j], k);
          }
        }
        if p.Ranging? {
          forall i | 0 <= i < |p.items| ensures Fresh(s', k, p.hash, p.items[i]) { assert Fresh(s, k, p.hash, p.items[i]); }
        }
      }
    }
    forall k | k in s'.passes ensures PassInv(s', k) { assert PassInv(s, k); }
    forall j, w | (j, w) in s'.past ensures PastInv(s', j, w) {
      if (j, w) in s.past { assert PastInv(s, j, w); }
    }
  }

  lemma TouchKeepsInv(h: Hasher, s: State, id: WorkloadId, w: Workload)
    requires Inv(h, s) && Enabled(h, s, Touch(id, w))
    ensures Inv(h, Do(h, s, Touch(id, w)))
  {
    var s' := Do(h, s, Touch(id, w));
    forall k
      ensures Matches(s'.workloads[id], k) <==> Matches(s.workloads[id], k)
      ensures Get(s'.workloads[id].template, HashKey(k)) == Get(s.workloads[id].template, HashKey(k))
    {
      assert Matches(w, k) <==> Matches(s.workloads[id], k);
    }
    WorkloadChange(h, s, s', id, Key(ConfigMap, ""));
  }

  /** Annotating one hash key leaves the annotations of all the others alone. */
  lemma VisitTouchesOwnHashKeyOnly(w: Workload, key: Key, hash: string, other: Key)
    ensures Get(Annotated(w.template, HashKey(key), hash), HashKey(other)) ==
      if other == key then hash else Get(w.template, HashKey(other))
  {
    HashKeysApart(key, other);
    AnnotateEffect(w.template, HashKey(key), hash);
  }

  lemma VisitKeepsInv(h: Hasher, s: State, key: Key)
    requires IsHasher(h) && Inv(h, s) && Enabled(h, s, Visit(key))
    ensures Inv(h, Do(h, s, Visit(key)))
  {
    var s' := Do(h, s, Visit(key));
    var p := s.passes[key];
    var id, w := p.items[0].0, p.items[0].1;
    assert PassInv(s, key) && p.items[0] in s.past && PastInv(s, id, w);
    AnnotateEffect(w.template, HashKey(key), p.hash);
    if key in s.objects { assert KeyInv(h, s, key); }
    assert p.items != [] && (AllFresh(s, key, p.hash, p.items) ==> Fresh(s, key, p.hash, p.items[0]));
    var mid := s;
    if Matches(w, key) && AnnotateChanges(w.template, HashKey(key), p.hash) {
      mid := s.(clock := s.clock + 1, workloads := s'.workloads, past := s'.past);
      forall k
        ensures Matches(mid.workloads[id], k) <==> Matches(s.workloads[id], k)
        ensures Get(mid.workloads[id].template, HashKey(k)) ==
          if k == key then p.hash else Get(s.workloads[id].template, HashKey(k))
      {
        VisitTouchesOwnHashKeyOnly(w, key, p.hash, k);
      }
      WorkloadChange(h, s, mid, id, key);
    }
    assert s' == mid.(passes := s'.passes);
    FirstItemIsDone(h, mid, s', key);
  }

  /** A pass may forget its first workload once that carries the hash or does not list the object. */
  lemma FirstItemIsDone(h: Hasher, s: State, s': State, key: Key)
    requires Inv(h, s) && key in s.passes && s.passes[key].Ranging? && s.passes[key].items != []
    requires var p := s.passes[key];
      var id := p.items[0].0;
      s' == s.(passes := s.passes[key := p.(items := p.items[1..])]) &&
      id in s.workloads &&
      (key in s.objects && Managed(h, key, s.objects[key]) && key !in s.queue ==>
        (Matches(s.workloads[id], key) ==> Get(s.workloads[id].template, HashKey(key)) == p.hash))
    ensures Inv(h, s')
  {
    var p, p' := s.passes[key], s'.passes[key];
    assert PassInv(s, key);
    assert forall i: nat | i < |p'.items| :: p'.items[i] == p.items[i + 1];
    if key in s.objects {
      assert KeyInv(h, s, key);
      assert AllFresh(s, key, p.hash, p.items) ==> AllFresh(s', key, p'.hash, p'.items);
      forall j | j in s.workloads && j != p.items[0].0 && Pending(p, j) ensures Pending(p', j) {
        if i :| 0 <= i < |p.items| && p.items[i].0 == j {
          assert p'.items[i - 1].0 == j;
        }
      }
    }
    PassChange(h, s, s', key);
  }

  lemma StepKeepsInv(h: Hasher, s: State, step: Step)
    requires IsHasher(h) && Inv(h, s) && Enabled(h, s, step) && (step.List? ==> IsCareful(h, s, step.key, step.items))
    ensures Inv(h, Do(h, s, step))
  {
    match step
    case Create(_, _) => CreateOrDeleteKeepsInv(h, s, step);
    case Edit(key, o) => EditKeepsInv(h, s, key, o);
    case Delete(_) => CreateOrDeleteKeepsInv(h, s, step);
    case Touch(id, w) => TouchKeepsInv(h, s, id, w);
    case Restart =>
      forall key | key in s.objects ensures KeyInv(h, Do(h, s, step), key) { assert KeyInv(h, s, key); }
      forall id, w | (id, w) in s.past ensures PastInv(Do(h, s, step), id, w) { assert PastInv(s, id, w); }
    case PatchObject(key) => PatchObjectKeepsInv(h, s, key);
    case List(key, items) => ListKeepsInv(h, s, key, items);
    case Visit(key) => VisitKeepsInv(h, s, key);
    case _ => BookkeepingKeepsInv(h, s, step);
  }

  // ----------------------------------------------------------------- whole runs

  ghost predicate IsRun(h: Hasher, s: State, steps: seq<Step>)
    decreases |steps|
  {
    steps == [] || (Enabled(h, s, steps[0]) && IsRun(h, Do(h, s, steps[0]), steps[1..]))
  }

  ghost function After(h: Hasher, s: State, steps: seq<Step>): State
    requires IsRun(h, s, steps)
    decreases |steps|
  {
    if steps == [] then s else After(h, Do(h, s, steps[0]), steps[1..])
  }

  /** A started controller: every object is queued, nothing is in progress, and nothing is remembered. */
  ghost predicate Started(s: State) {
    s.queue == s.objects.Keys && s.passes == map[] &&
    (forall key | key in s.objects :: s.objects[key].version <= s.clock) &&
    (forall id | id in s.workloads :: s.workloads[id].version <= s.clock) &&
    s.past == set id | id in s.workloads :: (id, s.workloads[id])
  }

  /** What a run may be asked to promise: that listings are careful, that they are of the workloads as
      they are, or that no edit brings back a hash some workload has lost. */
  datatype Promise = CarefulLists | LiveLists | NewHashes

  ghost predicate Keeps(promise: Promise, h: Hasher, s: State, step: Step)
    requires Enabled(h, s, step)
  {
    match promise
    case CarefulLists => step.List? ==> IsCareful(h, s, step.key, step.items)
    case LiveLists => step.List? ==> forall i | 0 <= i < |step.items| ::
      step.items[i].0 in s.workloads && step.items[i].1 == s.workloads[step.items[i].0]
    case NewHashes => step.Create? || step.Edit? ==> Unlost(h, Do(h, s, step), step.key)
  }

  /** Each version of a workload that ever carried the hash of the object's data still carries it, and
      no pass for another hash is about to change that. */
  ghost predicate Unlost(h: Hasher, s: State, key: Key) {
    key in s.objects ==>
      var hash := h(key.kind, s.objects[key].data);
      forall id, w | (id, w) in s.past && Carries(w, key, hash) ::
        id in s.workloads && Carries(s.workloads[id], key, hash) &&
        (key in s.passes && s.passes[key].Ranging? ==> s.passes[key].hash == hash)
  }

  ghost predicate RunKeeps(promise: Promise, h: Hasher, s: State, steps: seq<Step>)
    requires IsRun(h, s, steps)
    decreases |steps|
  {
    steps == [] || (Keeps(promise, h, s, steps[0]) && RunKeeps(promise, h, Do(h, s, steps[0]), steps[1..]))
  }

  lemma {:induction false} RunKeepsInv(h: Hasher, s: State, steps: seq<Step>)
    requires IsHasher(h) && Inv(h, s) && IsRun(h, s, steps) && RunKeeps(CarefulLists, h, s, steps)
    ensures Inv(h, After(h, s, steps))
    decreases |steps|
  {
    if steps == [] {
    } else {
      StepKeepsInv(h, s, steps[0]);
      RunKeepsInv(h, Do(h, s, steps[0]), steps[1..]);
    }
  }

  lemma StartedIsFine(h: Hasher, s: State)
    requires Started(s)
    ensures Inv(h, s) && forall key :: Unlost(h, s, key)
  {
    forall id, w | (id, w) in s.past ensures PastInv(s, id, w) {}
  }

  /** After any interleaving of edits, failures, retries and restarts with careful listings, every managed
      object is queued, in progress or in sync; so a controller with nothing left to do has reloaded
      everything. */
  lemma NothingIsMissed(h: Hasher, s: State, steps: seq<Step>, key: Key)
    requires IsHasher(h) && Started(s) && IsRun(h, s, steps) && RunKeeps(CarefulLists, h, s, steps)
    requires key in After(h, s, steps).objects && Managed(h, key, After(h, s, steps).objects[key])
    ensures var t := After(h, s, steps); key in t.queue || key in t.passes || Synced(h, t, key)
  {
    StartedIsFine(h, s);
    RunKeepsInv(h, s, steps);
    assert KeyInv(h, After(h, s, steps), key);
  }

  // ------------------------------------------------------- what the protocol relies on

  /** For an idle object that some workload lists, an edit is noticed exactly when it does not
      bring a fitting reload hash along: re-applying an exported older version, its
      `reload.octohelm.tech/hash` included, is never reloaded. */
  lemma EditNoticedIffHonest(h: Hasher, s: State, key: Key, o: Object, id: WorkloadId)
    requires IsHasher(h) && Inv(h, s)
    requires key in s.objects && key !in s.queue && key !in s.passes && Managed(h, key, s.objects[key])
    requires id in s.workloads && Matches(s.workloads[id], key)
    requires Managed(h, key, o)
    ensures var t := Updated(h, s, key, o);
      (key in t.queue || Synced(h, t, key)) <==> HonestEdit(h, key, s.objects[key], o)
  {
    assert KeyInv(h, s, key);
    var t := Updated(h, s, key, o);
    assert Get(t.workloads[id].template, HashKey(key)) == h(key.kind, s.objects[key].data);
    if key !in t.queue && HonestEdit(h, key, s.objects[key], o) {
      assert h(key.kind, o.data) == h(key.kind, s.objects[key].data);
      assert Carried(t, key, h(key.kind, o.data), Reading);
    }
  }

  /** `Reconcile` ends at once, without syncing anything, exactly on objects outside the
      protocol: without the app label, or already carrying their own hash key and hash. */
  lemma ReadSkipsExactlyUnmanaged(h: Hasher, s: State, key: Key)
    requires Enabled(h, s, Read(key)) && key in s.objects && key.name != ""
    requires Get(s.objects[key].annotations, RELOAD) == "enabled"
    ensures key !in Do(h, s, Read(key)).passes <==> !Managed(h, key, s.objects[key])
  {
  }

  lemma {:induction false} RunAppend(h: Hasher, s: State, steps: seq<Step>, step: Step)
    requires IsRun(h, s, steps) && Enabled(h, After(h, s, steps), step)
    ensures IsRun(h, s, steps + [step])
    ensures After(h, s, steps + [step]) == Do(h, After(h, s, steps), step)
    decreases |steps|
  {
    var all := steps + [step];
    if steps == [] {
      assert all[1..] == [];
    } else {
      assert all[1..] == steps[1..] + [step];
      RunAppend(h, Do(h, s, steps[0]), steps[1..], step);
    }
  }

  lemma {:induction false} RunConcat(h: Hasher, s: State, first: seq<Step>, second: seq<Step>)
    requires IsRun(h, s, first) && IsRun(h, After(h, s, first), second)
    ensures IsRun(h, s, first + second)
    ensures After(h, s, first + second) == After(h, After(h, s, first), second)
    decreases |first|
  {
    var all := first + second;
    if first == [] {
      assert all == second;
    } else {
      assert all[1..] == first[1..] + second;
      RunConcat(h, Do(h, s, first[0]), first[1..], second);
    }
  }
}
