/**
 When listing workloads from a cache does no harm, and what it can do: the reload controllers read
 objects from the cluster, but workloads through the manager's client.
 */
module StaleLists {
  import opened Metadata
  import opened ReloadProtocol

  // ------------------------------------------------------------ harmless listings

  /** Listings of the workloads as they are can never mislead. */
  lemma {:induction false} LiveListsAreCareful(h: Hasher, s: State, steps: seq<Step>)
    requires IsRun(h, s, steps) && RunKeeps(LiveLists, h, s, steps)
    ensures RunKeeps(CarefulLists, h, s, steps)
    decreases |steps|
  {
    if steps == [] {
    } else {
      LiveListsAreCareful(h, Do(h, s, steps[0]), steps[1..]);
    }
  }

  /** Nor can any listing, while no workload has lost the hash of the object's data. */
  lemma UnlostIsCareful(h: Hasher, s: State, key: Key, items: Snapshot)
    requires Inv(h, s) && Unlost(h, s, key) && Enabled(h, s, List(key, items))
    ensures IsCareful(h, s, key, items)
  {
    if key in s.objects && Managed(h, key, s.objects[key]) && key !in s.queue {
      assert KeyInv(h, s, key);
      var hash := s.passes[key].hash;
      forall i | 0 <= i < |items| ensures Fresh(s, key, hash, items[i]) {
        assert items[i] in s.past;
      }
    }
  }

  ghost predicate AllUnlost(h: Hasher, s: State) { forall key :: Unlost(h, s, key) }

  /** A workload changed, all hashes but the one of `owner` as they were; that one is now its pass's. */
  lemma WorkloadKeepsUnlost(h: Hasher, s: State, s': State, id: WorkloadId, owner: Key, k: Key)
    requires Inv(h, s) && Unlost(h, s, k) && id in s.workloads && id in s'.workloads
    requires s'.objects == s.objects && s'.workloads == s.workloads[id := s'.workloads[id]]
    requires s'.past == s.past + {(id, s'.workloads[id])}
    requires k in s'.passes && s'.passes[k].Ranging? ==> k in s.passes && s.passes[k].Ranging? && s.passes[k].hash == s'.passes[k].hash
    requires Matches(s'.workloads[id], k) <==> Matches(s.workloads[id], k)
    requires Get(s'.workloads[id].template, HashKey(k)) == Get(s.workloads[id].template, HashKey(k)) ||
      (k == owner && owner in s.passes && s.passes[owner].Ranging? &&
       Get(s'.workloads[id].template, HashKey(k)) == s.passes[owner].hash)
    ensures Unlost(h, s', k)
  {
    if k in s'.objects {
      var hash := h(k.kind, s'.objects[k].data);
      assert (id, s.workloads[id]) in s.past;
      forall j, w | (j, w) in s'.past && Carries(w, k, hash)
        ensures j in s'.workloads && Carries(s'.workloads[j], k, hash)
        ensures k in s'.passes && s'.passes[k].Ranging? ==> s'.passes[k].hash == hash
      {
        if (j, w) in s.past {
          assert Carries(s.workloads[j], k, hash);
        }
      }
    }
  }

  lemma TouchKeepsUnlost(h: Hasher, s: State, id: WorkloadId, w: Workload, k: Key)
    requires Inv(h, s) && Unlost(h, s, k) && Enabled(h, s, Touch(id, w))
    ensures Unlost(h, Do(h, s, Touch(id, w)), k)
  {
    assert Matches(w, k) <==> Matches(s.workloads[id], k);
    WorkloadKeepsUnlost(h, s, Do(h, s, Touch(id, w)), id, k, k);
  }

  lemma VisitKeepsUnlost(h: Hasher, s: State, key: Key, k: Key)
    requires Inv(h, s) && Unlost(h, s, k) && Enabled(h, s, Visit(key))
    ensures Unlost(h, Do(h, s, Visit(key)), k)
  {
    var p := s.passes[key];
    var id, w := p.items[0].0, p.items[0].1;
    assert PassInv(s, key) && p.items[0] in s.past && PastInv(s, id, w);
    if Matches(w, key) && AnnotateChanges(w.template, HashKey(key), p.hash) {
      VisitTouchesOwnHashKeyOnly(w, key, p.hash, k);
      WorkloadKeepsUnlost(h, s, Do(h, s, Visit(key)), id, key, k);
    }
  }

  lemma PatchKeepsUnlost(h: Hasher, s: State, key: Key, k: Key)
    requires Inv(h, s) && Unlost(h, s, k) && Enabled(h, s, PatchObject(key))
    ensures Unlost(h, Do(h, s, PatchObject(key)), k)
  {
    assert PassInv(s, key);
    SameWorkloads(h, s, Do(h, s, PatchObject(key)), k);
  }

  /** Neither the workloads nor the data changed, and a pass that ranges did so before or is for that data. */
  lemma SameWorkloads(h: Hasher, s: State, s': State, k: Key)
    requires Unlost(h, s, k) && s'.workloads == s.workloads && s'.past == s.past
    requires k in s'.objects ==> k in s.objects && s'.objects[k].data == s.objects[k].data
    requires k in s'.objects && k in s'.passes && s'.passes[k].Ranging? ==>
      s'.passes[k].hash == h(k.kind, s'.objects[k].data) ||
      (k in s.passes && s.passes[k].Ranging? && s.passes[k].hash == s'.passes[k].hash)
    ensures Unlost(h, s', k)
  {
  }

  lemma StepKeepsUnlost(h: Hasher, s: State, step: Step)
    requires Inv(h, s) && AllUnlost(h, s) && Enabled(h, s, step) && Keeps(NewHashes, h, s, step)
    ensures AllUnlost(h, Do(h, s, step))
  {
    forall k ensures Unlost(h, Do(h, s, step), k) {
      assert Unlost(h, s, k);
      match step
      case Touch(id, w) => TouchKeepsUnlost(h, s, id, w, k);
      case Visit(key) => VisitKeepsUnlost(h, s, key, k);
      case PatchObject(key) => PatchKeepsUnlost(h, s, key, k);
      case Create(key, _) => if k != key { SameWorkloads(h, s, Do(h, s, step), k); }
      case Edit(key, _) => if k != key { SameWorkloads(h, s, Do(h, s, step), k); }
      case _ => SameWorkloads(h, s, Do(h, s, step), k);
    }
  }

  /** As long as no edit brings back a hash that some workload has lost, or is about to lose, every
      listing is careful, however stale. */
  lemma {:induction false} NewHashesAreCareful(h: Hasher, s: State, steps: seq<Step>)
    requires IsHasher(h) && Inv(h, s) && AllUnlost(h, s) && IsRun(h, s, steps) && RunKeeps(NewHashes, h, s, steps)
    ensures RunKeeps(CarefulLists, h, s, steps)
    decreases |steps|
  {
    if steps == [] {
    } else {
      var step := steps[0];
      if step.List? { UnlostIsCareful(h, s, step.key, step.items); }
      StepKeepsInv(h, s, step);
      StepKeepsUnlost(h, s, step);
      NewHashesAreCareful(h, Do(h, s, step), steps[1..]);
    }
  }

  lemma {:induction false} RunKeepsUnlost(h: Hasher, s: State, steps: seq<Step>)
    requires IsHasher(h) && Inv(h, s) && AllUnlost(h, s) && IsRun(h, s, steps) && RunKeeps(NewHashes, h, s, steps)
    ensures AllUnlost(h, After(h, s, steps))
    decreases |steps|
  {
    if steps == [] {
    } else {
      var step := steps[0];
      if step.List? { UnlostIsCareful(h, s, step.key, step.items); }
      StepKeepsInv(h, s, step);
      StepKeepsUnlost(h, s, step);
      RunKeepsUnlost(h, Do(h, s, step), steps[1..]);
    }
  }

  /** Steps that the controllers take themselves. */
  predicate OwnSteps(steps: seq<Step>) { forall i | 0 <= i < |steps| :: !steps[i].Create? && !steps[i].Edit? }

  lemma {:induction false} OwnStepsBringNoHash(h: Hasher, s: State, steps: seq<Step>)
    requires IsRun(h, s, steps) && OwnSteps(steps)
    ensures RunKeeps(NewHashes, h, s, steps)
    decreases |steps|
  {
    if steps == [] {
    } else {
      OwnStepsBringNoHash(h, Do(h, s, steps[0]), steps[1..]);
    }
  }

  /** With live listings, or with whatever listings but only new hashes, nothing is missed. */
  lemma NothingIsMissedByPromise(promise: Promise, h: Hasher, s: State, steps: seq<Step>, key: Key)
    requires IsHasher(h) && Started(s) && IsRun(h, s, steps) && RunKeeps(promise, h, s, steps)
    requires key in After(h, s, steps).objects && Managed(h, key, After(h, s, steps).objects[key])
    ensures var t := After(h, s, steps); key in t.queue || key in t.passes || Synced(h, t, key)
  {
    StartedIsFine(h, s);
    if promise.LiveLists? { LiveListsAreCareful(h, s, steps); }
    if promise.NewHashes? { NewHashesAreCareful(h, s, steps); }
    NothingIsMissed(h, s, steps, key);
  }

  // ------------------------------------------------------------- harmful listings

  /** A cluster of one managed object and one Deployment that lists it, with nothing in progress. */
  ghost predicate IsSmall(h: Hasher, s: State, key: Key, id: WorkloadId) {
    s.objects.Keys == {key} && s.workloads.Keys == {id} && id.kind == Deployment && s.passes == map[] &&
    Managed(h, key, s.objects[key]) && Matches(s.workloads[id], key)
  }

  /** The steps of one undisturbed pass over its Deployment, listed as `copy`. */
  function PassSteps(key: Key, id: WorkloadId, copy: Workload): seq<Step> {
    [Start(key), Read(key), PatchObject(key), List(key, [(id, copy)])] +
    [Visit(key), List(key, []), List(key, []), Finish(key)]
  }

  /** Queued, read and patched, listed. */
  lemma PassBegins(h: Hasher, s: State, key: Key, id: WorkloadId, copy: Workload) returns (t: State)
    requires IsHasher(h) && IsSmall(h, s, key, id) && s.queue == {key} && (id, copy) in s.past
    ensures var steps := PassSteps(key, id, copy)[..4]; IsRun(h, s, steps) && t == After(h, s, steps)
    ensures t.workloads == s.workloads && t.past == s.past && t.queue == {} && t.objects.Keys == {key}
    ensures t.objects[key] == Annotating(h, key, s.objects[key]).(version := t.objects[key].version)
    ensures t.passes == map[key := Ranging(h(key.kind, s.objects[key].data), [StatefulSet, DaemonSet], [(id, copy)])]
  {
    var s1 := Do(h, s, Start(key));
    var s2 := Do(h, s1, Read(key));
    assert s2.passes[key] == Patching(s.objects[key]);
    OwnPatchIsFiltered(h, s2, key);
    var s3 := Do(h, s2, PatchObject(key));
    assert s3.passes[key].lists == WORKLOAD_LISTS && WORKLOAD_LISTS[1..] == [StatefulSet, DaemonSet];
    assert [(id, copy)][0].0 == id;
    t := Do(h, s3, List(key, [(id, copy)]));
    FourSteps(h, s, Start(key), s1, Read(key), s2, PatchObject(key), s3, List(key, [(id, copy)]));
    assert PassSteps(key, id, copy)[..4] == [Start(key), Read(key), PatchObject(key), List(key, [(id, copy)])];
  }

  lemma FourSteps(h: Hasher, s: State, a: Step, s1: State, b: Step, s2: State, c: Step, s3: State, d: Step)
    requires Enabled(h, s, a) && s1 == Do(h, s, a) && Enabled(h, s1, b) && s2 == Do(h, s1, b)
    requires Enabled(h, s2, c) && s3 == Do(h, s2, c) && Enabled(h, s3, d)
    ensures IsRun(h, s, [a, b, c, d]) && After(h, s, [a, b, c, d]) == Do(h, s3, d)
  {
    RunAppend(h, s, [], a);
    RunAppend(h, s, [a], b);
    RunAppend(h, s, [a, b], c);
    RunAppend(h, s, [a, b, c], d);
    assert [] + [a] == [a] && [a] + [b] == [a, b] && [a, b] + [c] == [a, b, c] && [a, b, c] + [d] == [a, b, c, d];
  }

  lemma NothingElseListed(h: Hasher, s: State, key: Key, id: WorkloadId, hash: string) returns (s2: State, s3: State)
    requires s.workloads.Keys == {id} && id.kind == Deployment
    requires s.passes == map[key := Ranging(hash, [StatefulSet, DaemonSet], [])]
    ensures Enabled(h, s, List(key, [])) && s2 == Do(h, s, List(key, []))
    ensures Enabled(h, s2, List(key, [])) && s3 == Do(h, s2, List(key, []))
    ensures Enabled(h, s3, Finish(key)) && Do(h, s3, Finish(key)) == s.(passes := map[])
  {
    assert [StatefulSet, DaemonSet][1..] == [DaemonSet] && [DaemonSet][1..] == [];
    s2 := Do(h, s, List(key, []));
    s3 := Do(h, s2, List(key, []));
    assert Do(h, s3, Finish(key)).passes == map[];
  }

  /** Visited, and nothing else to list. */
  lemma PassEnds(h: Hasher, s: State, key: Key, id: WorkloadId, copy: Workload, hash: string) returns (t: State)
    requires s.workloads.Keys == {id} && s.passes == map[key := Ranging(hash, [StatefulSet, DaemonSet], [(id, copy)])]
    requires hash != "" && id.kind == Deployment && Matches(copy, key) && Matches(s.workloads[id], key)
    requires Carries(copy, key, hash) || copy == s.workloads[id]
    ensures var steps := PassSteps(key, id, copy)[4..]; IsRun(h, s, steps) && t == After(h, s, steps)
    ensures t.objects == s.objects && t.queue == s.queue && t.passes == map[] && s.past <= t.past
    ensures t.workloads.Keys == {id} && Matches(t.workloads[id], key)
    ensures if Carries(copy, key, hash) then t.workloads == s.workloads else Carries(t.workloads[id], key, hash)
  {
    AnnotateEffect(copy.template, HashKey(key), hash);
    var s1 := Do(h, s, Visit(key));
    assert [(id, copy)][1..] == [];
    assert s1.passes == map[key := Ranging(hash, [StatefulSet, DaemonSet], [])];
    var s2, s3 := NothingElseListed(h, s1, key, id, hash);
    t := Do(h, s3, Finish(key));
    FourSteps(h, s, Visit(key), s1, List(key, []), s2, List(key, []), s3, Finish(key));
    assert PassSteps(key, id, copy)[4..] == [Visit(key), List(key, []), List(key, []), Finish(key)];
  }

  /** A pass over a copy that is current, or that is skipped, goes through. */
  lemma OnePass(h: Hasher, s: State, key: Key, id: WorkloadId, copy: Workload) returns (t: State)
    requires IsHasher(h) && IsSmall(h, s, key, id) && s.queue == {key}
    requires (id, copy) in s.past && Matches(copy, key)
    requires Carries(copy, key, h(key.kind, s.objects[key].data)) || copy == s.workloads[id]
    ensures IsRun(h, s, PassSteps(key, id, copy)) && t == After(h, s, PassSteps(key, id, copy))
    ensures IsSmall(h, t, key, id) && t.queue == {} && s.past <= t.past
    ensures t.objects[key] == Annotating(h, key, s.objects[key]).(version := t.objects[key].version)
    ensures if Carries(copy, key, h(key.kind, s.objects[key].data)) then t.workloads == s.workloads
            else Carries(t.workloads[id], key, h(key.kind, s.objects[key].data))
  {
    var mid := PassBegins(h, s, key, id, copy);
    t := PassEnds(h, mid, key, id, copy, h(key.kind, s.objects[key].data));
    var steps := PassSteps(key, id, copy);
    assert steps == steps[..4] + steps[4..];
    RunConcat(h, s, steps[..4], steps[4..]);
    AnnotatingKeepsManaged(h, key, s.objects[key]);
  }

  /** A run from a fresh start that misses a reload.  The Deployment carries the hash of `a`, of which the
      object was edited away while no controller ran.  The first pass makes it carry the present hash, an
      edit goes back to `a`, and the second pass is shown the Deployment as it was at first.  In the end
      nothing is queued or in progress, and the Deployment carries the wrong hash. */
  lemma StaleListMisses(h: Hasher, s: State, key: Key, id: WorkloadId, a: map<string, string>) returns (steps: seq<Step>)
    requires IsHasher(h) && Started(s) && IsSmall(h, s, key, id) && Get(s.objects[key].annotations, HashKey(key)) == ""
    requires h(key.kind, a) != h(key.kind, s.objects[key].data)
    requires Carries(s.workloads[id], key, h(key.kind, a))
    ensures IsRun(h, s, steps)
    ensures var t := After(h, s, steps);
      t.queue == {} && t.passes == map[] && key in t.objects && Managed(h, key, t.objects[key]) && !Synced(h, t, key)
  {
    var copy := s.workloads[id];
    var t := OnePass(h, s, key, id, copy);
    var o := t.objects[key].(data := a);
    HashKeysApart(key, key);
    AnnotatingKeepsManaged(h, key, s.objects[key]);
    AnnotateEffect(s.objects[key].annotations, RELOAD_HASH, h(key.kind, s.objects[key].data));
    var edit := Edit(key, o);
    RunAppend(h, s, PassSteps(key, id, copy), edit);
    var u := Do(h, t, edit);
    var v := OnePass(h, u, key, id, copy);
    steps := PassSteps(key, id, copy) + [edit];
    RunConcat(h, s, steps, PassSteps(key, id, copy));
    steps := steps + PassSteps(key, id, copy);
    assert Get(v.workloads[id].template, HashKey(key)) == h(key.kind, s.objects[key].data);
  }

  // ------------------------------------------------------------- writes by others

  /** A run from a fresh start, up to an edit that is never noticed: it brings new data along with the
      reload hash of that data, as re-applying an exported version does. */
  lemma DishonestEditMisses(h: Hasher, s: State, key: Key, id: WorkloadId, b: map<string, string>)
    returns (steps: seq<Step>, o: Object)
    requires IsHasher(h) && Started(s) && IsSmall(h, s, key, id) && Get(s.objects[key].annotations, HashKey(key)) == ""
    requires h(key.kind, b) != h(key.kind, s.objects[key].data)
    ensures IsRun(h, s, steps)
    ensures var t := After(h, s, steps);
      key in t.objects && o.data == b && !HonestEdit(h, key, t.objects[key], o) &&
      var u := Updated(h, t, key, o);
      u.queue == {} && u.passes == map[] && Managed(h, key, u.objects[key]) && !Synced(h, u, key)
  {
    steps := PassSteps(key, id, s.workloads[id]);
    var t := OnePass(h, s, key, id, s.workloads[id]);
    o := t.objects[key].(data := b, annotations := Annotated(t.objects[key].annotations, RELOAD_HASH, h(key.kind, b)));
    HashKeysApart(key, key);
    AnnotatingKeepsManaged(h, key, s.objects[key]);
    AnnotateEffect(s.objects[key].annotations, RELOAD_HASH, h(key.kind, s.objects[key].data));
    AnnotateEffect(t.objects[key].annotations, RELOAD_HASH, h(key.kind, b));
    ReloadIsNoHash();
    assert Get(t.workloads[id].template, HashKey(key)) == h(key.kind, s.objects[key].data);
  }

  lemma ReloadIsNoHash()
    ensures RELOAD != RELOAD_HASH
  {
    assert |RELOAD| != |RELOAD_HASH|;
  }

  /** The apply controller writes the hash of some data it has read onto a workload, whatever its version. */
  function Forced(s: State, id: WorkloadId, key: Key, hash: string): State
    requires id in s.workloads
  {
    var w := s.workloads[id].(version := s.clock + 1, template := Annotated(s.workloads[id].template, HashKey(key), hash));
    s.(clock := s.clock + 1, workloads := s.workloads[id := w], past := s.past + {(id, w)})
  }

  /** For an idle object in sync, such a write goes unnoticed, and leaves it in sync exactly when the data
      written about has the present hash; all other objects are as they were. */
  lemma ForcedHashKeepsSyncExactly(h: Hasher, s: State, key: Key, id: WorkloadId, data: map<string, string>)
    requires IsHasher(h) && Inv(h, s) && id in s.workloads && Matches(s.workloads[id], key)
    requires key in s.objects && Managed(h, key, s.objects[key]) && key !in s.queue && key !in s.passes
    ensures var t := Forced(s, id, key, h(key.kind, data));
      t.queue == s.queue && t.passes == s.passes &&
      (Synced(h, t, key) <==> h(key.kind, data) == h(key.kind, s.objects[key].data)) &&
      forall k | k != key && k in s.objects :: Synced(h, t, k) <==> Synced(h, s, k)
  {
    var hash := h(key.kind, data);
    assert KeyInv(h, s, key);
    ForcedCarries(s, id, key, hash, key);
    forall k | k != key && k in s.objects ensures Synced(h, Forced(s, id, key, hash), k) <==> Synced(h, s, k) {
      ForcedCarries(s, id, key, hash, k);
    }
  }

  lemma ForcedCarries(s: State, id: WorkloadId, key: Key, hash: string, k: Key)
    requires id in s.workloads
    ensures var t := Forced(s, id, key, hash);
      forall j | j in s.workloads :: (Matches(t.workloads[j], k) <==> Matches(s.workloads[j], k)) &&
        Get(t.workloads[j].template, HashKey(k)) ==
          if j == id && k == key then hash else Get(s.workloads[j].template, HashKey(k))
  {
    VisitTouchesOwnHashKeyOnly(s.workloads[id], key, hash, k);
  }
}
