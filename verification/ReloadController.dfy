/**
 One pass of `Reconcile`, of both reload controllers, over a cluster that changes in place.
 Every call to the cluster may fail; each is one step of the protocol.
 */
module ReloadController {
  import opened Metadata
  import opened P = ReloadProtocol
  import opened StaleLists

  class Cluster {
    var clock: nat
    var objects: map<Key, Object>
    var workloads: map<WorkloadId, Workload>
    /** every version of the workloads, any of which the cache may still have */
    var past: set<(WorkloadId, Workload)>
    var queue: set<Key>
    ghost var passes: map<Key, Pass>

    const hash: Hasher

    ghost function View(): State
      reads this
    {
      State(clock, objects, workloads, past, queue, passes)
    }

    ghost predicate Remembers()
      reads this
    {
      forall id | id in workloads :: (id, workloads[id]) in past
    }

    constructor (h: Hasher, clock: nat, objects: map<Key, Object>, workloads: map<WorkloadId, Workload>)
      ensures hash == h
      ensures View() == State(clock, objects, workloads, set id | id in workloads :: (id, workloads[id]), objects.Keys, map[])
    {
      hash := h;
      this.clock, this.objects, this.workloads := clock, objects, workloads;
      past := set id | id in workloads :: (id, workloads[id]);
      queue, passes := objects.Keys, map[];
    }

    /** The work queue takes a failed pass back; any error ends `Reconcile` this way. */
    method Requeue(key: Key)
      requires key in passes
      modifies this
      ensures View() == Do(hash, old(View()), P.Fail(key))
    {
      queue := queue + {key};
      passes := passes - {key};
    }

    /** Merge-patch the object as it was read; refused when its version has moved on. */
    method PatchObject(key: Key, read: Object, sent: Object) returns (ok: bool)
      requires key in passes && passes[key] == P.Patching(read)
      requires key in objects && objects[key].version == read.version ==> objects[key] == read
      requires sent == Annotating(hash, key, read)
      modifies this
      ensures !ok ==> View() == old(View())
      ensures ok ==> Enabled(hash, old(View()), P.PatchObject(key))
      ensures ok ==> View() == Do(hash, old(View()), P.PatchObject(key))
    {
      ok := *;
      if !ok || key !in objects || objects[key].version != sent.version { return false; }
      if sent != objects[key] {
        clock := clock + 1;
        objects := objects[key := sent.(version := clock)];
        queue := if Triggers(hash, key, sent) then queue + {key} else queue;
      }
      passes := passes[key := Ranging(hash(key.kind, read.data), WORKLOAD_LISTS, [])];
    }

    /** All workloads of one kind, in any order, each as it is or once was. */
    method List(kind: WorkloadKind) returns (ok: bool, items: Snapshot)
      requires Remembers()
      ensures ok ==> IsListing(View(), kind, items)
    {
      ok, items := *, [];
      if !ok { return; }
      var todo := set id | id in workloads && id.kind == kind;
      while todo != {}
        invariant forall id | id in todo :: id in workloads && id.kind == kind
        invariant forall i | 0 <= i < |items| :: items[i].0.kind == kind && items[i] in past
        invariant forall id | id in workloads && id.kind == kind && id !in todo ::
          exists i | 0 <= i < |items| :: items[i].0 == id
        decreases todo
      {
        var id :| id in todo;
        ghost var before := items;
        assert (id, workloads[id]) in past;
        var item :| item in past && item.0 == id;
        items := items + [item];
        todo := todo - {id};
        forall j | j in workloads && j.kind == kind && j !in todo
          ensures exists i | 0 <= i < |items| :: items[i].0 == j
        {
          if j == id {
            assert items[|before|].0 == j;
          } else {
            var i :| 0 <= i < |before| && before[i].0 == j;
            assert items[i].0 == j;
          }
        }
      }
    }

    /** Merge-patch a workload as it was listed. */
    method PatchWorkload(id: WorkloadId, listed: Workload, template: Annotations) returns (ok: bool)
      modifies this
      ensures !ok ==> View() == old(View())
      ensures ok ==> id in old(workloads) && old(workloads)[id].version == listed.version
      ensures ok ==>
        var w := listed.(version := old(clock) + 1, template := template);
        View() == old(View()).(clock := old(clock) + 1, workloads := old(workloads)[id := w], past := old(past) + {(id, w)})
    {
      ok := *;
      if !ok || id !in workloads || workloads[id].version != listed.version { return false; }
      clock := clock + 1;
      workloads := workloads[id := listed.(version := clock, template := template)];
      past := past + {(id, workloads[id])};
    }

    /** The body of `RangeWorkload`'s callback for the next listed workload. */
    method Visit(key: Key, id: WorkloadId, w: Workload, newHash: string) returns (ok: bool)
      requires key in passes && passes[key].Ranging?
      requires passes[key].items != [] && passes[key].items[0] == (id, w) && passes[key].hash == newHash
      modifies this
      ensures !ok ==> View() == old(View())
      ensures ok ==> Enabled(hash, old(View()), P.Visit(key))
      ensures ok ==> View() == Do(hash, old(View()), P.Visit(key))
    {
      ok := true;
      if Matches(w, key) && AnnotateChanges(w.template, HashKey(key), newHash) {
        ok := PatchWorkload(id, w, Annotated(w.template, HashKey(key), newHash));
        if !ok { return; }
      }
      passes := passes[key := passes[key].(items := passes[key].items[1..])];
    }

    /** `Reconcile`, from the moment the work queue handed over `key`.  What it does is a run of the
        protocol; when it succeeds on a managed object, that object is in sync, however stale the
        listings, if no workload has lost the hash of the data. */
    method Reconcile(key: Key) returns (ok: bool, ghost steps: seq<Step>)
      requires IsHasher(hash) && Inv(hash, View()) && AllUnlost(hash, View())
      requires key in passes && passes[key].Reading? && key !in queue
      modifies this
      ensures Inv(hash, View()) && AllUnlost(hash, View()) && key !in passes
      ensures IsRun(hash, old(View()), steps) && View() == After(hash, old(View()), steps)
      ensures queue == if ok then old(queue) else old(queue) + {key}
      ensures ok && key in objects && Managed(hash, key, objects[key]) ==> Synced(hash, View(), key)
    {
      ghost var start := View();
      ok, steps := ReconcileRun(key);
      OwnStepsBringNoHash(hash, start, steps);
      NewHashesAreCareful(hash, start, steps);
      RunKeepsInv(hash, start, steps);
      RunKeepsUnlost(hash, start, steps);
      if key in objects { assert KeyInv(hash, View(), key); }
    }

    method ReconcileRun(key: Key) returns (ok: bool, ghost steps: seq<Step>)
      requires IsHasher(hash) && Remembers() && key in passes && passes[key].Reading?
      modifies this
      ensures key !in passes && OwnSteps(steps)
      ensures IsRun(hash, old(View()), steps) && View() == After(hash, old(View()), steps)
      ensures queue == if ok then old(queue) else old(queue) + {key}
    {
      ghost var start := View();
      steps := [];
      ok := *;
      if !ok {
        RunAppend(hash, start, steps, P.Fail(key));
        steps := steps + [P.Fail(key)];
        Requeue(key);
        return;
      }
      RunAppend(hash, start, steps, P.Read(key));
      steps := steps + [P.Read(key)];
      if key !in objects {
        passes := passes - {key};
        return;
      }
      var o := objects[key];
      var newHash := hash(key.kind, o.data);
      if Get(o.labels, LABEL_APP_NAME) == "" || newHash == Get(o.annotations, HashKey(key)) {
        passes := passes - {key};
        return;
      }
      passes := passes[key := P.Patching(o)];
      ghost var rest: seq<Step>;
      ok, rest := PatchAndRange(key, o, newHash);
      RunConcat(hash, start, steps, rest);
      steps := steps + rest;
    }

    /** The patch of the object it read, then of the workloads. */
    method PatchAndRange(key: Key, o: Object, newHash: string) returns (ok: bool, ghost steps: seq<Step>)
      requires IsHasher(hash) && Remembers() && key in passes && passes[key] == P.Patching(o)
      requires key in objects && objects[key] == o && newHash == hash(key.kind, o.data)
      modifies this
      ensures key !in passes && OwnSteps(steps)
      ensures IsRun(hash, old(View()), steps) && View() == After(hash, old(View()), steps)
      ensures queue == if ok then old(queue) else old(queue) + {key}
    {
      ghost var start := View();
      steps := [];
      ok := PatchObject(key, o, Annotating(hash, key, o));
      ghost var rest: seq<Step> := [];
      if ok {
        OwnPatchIsFiltered(hash, start, key);
        RunAppend(hash, start, steps, P.PatchObject(key));
        steps := steps + [P.PatchObject(key)];
        ok, rest := RangeWorkloads(key, newHash);
        RunConcat(hash, start, steps, rest);
        steps := steps + rest;
      }
      if ok {
        RunAppend(hash, start, steps, P.Finish(key));
        steps := steps + [P.Finish(key)];
        passes := passes - {key};
      } else {
        RunAppend(hash, start, steps, P.Fail(key));
        steps := steps + [P.Fail(key)];
        Requeue(key);
      }
    }

    /** The items of one list in turn; the first error stops it. */
    method VisitAll(key: Key, newHash: string, items: Snapshot) returns (ok: bool, ghost steps: seq<Step>)
      requires Remembers() && key in passes && passes[key].Ranging?
      requires passes[key].hash == newHash && passes[key].items == items
      modifies this
      ensures Remembers() && key in passes && queue == old(queue) && OwnSteps(steps)
      ensures IsRun(hash, old(View()), steps) && View() == After(hash, old(View()), steps)
      ensures ok ==> passes[key] == old(passes)[key].(items := [])
    {
      ghost var start, pass := View(), passes[key];
      steps, ok := [], true;
      for i := 0 to |items|
        invariant Remembers() && key in passes && queue == old(queue) && OwnSteps(steps)
        invariant passes[key] == pass.(items := items[i..])
        invariant IsRun(hash, start, steps) && View() == After(hash, start, steps)
      {
        ok := Visit(key, items[i].0, items[i].1, newHash);
        if !ok { return; }
        RunAppend(hash, start, steps, P.Visit(key));
        steps := steps + [P.Visit(key)];
      }
    }

    /** One list and its items. */
    method RangeList(key: Key, newHash: string, lists: seq<WorkloadKind>) returns (ok: bool, ghost steps: seq<Step>)
      requires Remembers() && lists != [] && key in passes && passes[key] == Ranging(newHash, lists, [])
      modifies this
      ensures Remembers() && key in passes && queue == old(queue) && OwnSteps(steps)
      ensures IsRun(hash, old(View()), steps) && View() == After(hash, old(View()), steps)
      ensures ok ==> passes[key] == Ranging(newHash, lists[1..], [])
    {
      ghost var start := View();
      var items;
      ok, items := List(lists[0]);
      steps := [];
      if !ok { return; }
      RunAppend(hash, start, [], P.List(key, items));
      steps := [] + [P.List(key, items)];
      passes := passes[key := Ranging(newHash, lists[1..], items)];
      ghost var visits: seq<Step>;
      ok, visits := VisitAll(key, newHash, items);
      RunConcat(hash, start, steps, visits);
      steps := steps + visits;
    }

    /** `RangeWorkload`: the three lists in turn. */
    method RangeWorkloads(key: Key, newHash: string) returns (ok: bool, ghost steps: seq<Step>)
      requires Remembers() && key in passes && passes[key] == Ranging(newHash, WORKLOAD_LISTS, [])
      modifies this
      ensures Remembers() && key in passes && queue == old(queue) && OwnSteps(steps)
      ensures IsRun(hash, old(View()), steps) && View() == After(hash, old(View()), steps)
      ensures ok ==> Enabled(hash, View(), P.Finish(key))
    {
      ghost var start := View();
      steps := [];
      for n := 0 to |WORKLOAD_LISTS|
        invariant Remembers() && key in passes && queue == old(queue) && OwnSteps(steps)
        invariant passes[key] == Ranging(newHash, WORKLOAD_LISTS[n..], [])
        invariant IsRun(hash, start, steps) && View() == After(hash, start, steps)
      {
        ghost var more: seq<Step>;
        ok, more := RangeList(key, newHash, WORKLOAD_LISTS[n..]);
        RunConcat(hash, start, steps, more);
        steps := steps + more;
        if !ok { return; }
      }
      ok := true;
    }
  }
}
