/** What one pass of a reload controller comes to, with everything else happening in between. */
module PassOutcome {
  import opened KubeUtil
  import opened Metadata
  import opened ReloadProtocol

  // ----------------------------------------------- what holds however stale the listings

  /** A pass that ranges, over an object that has not been queued again, does so for its data. */
  ghost predicate HashInv(h: Hasher, s: State, key: Key) {
    key in s.objects && Managed(h, key, s.objects[key]) && key !in s.queue && key in s.passes && s.passes[key].Ranging? ==>
      s.passes[key].hash == h(key.kind, s.objects[key].data) == Get(s.objects[key].annotations, RELOAD_HASH)
  }

  ghost predicate Versions(s: State) {
    (forall key | key in s.objects :: s.objects[key].version <= s.clock) &&
    (forall key | key in s.passes && s.passes[key].Patching? :: s.passes[key].read.version <= s.clock) &&
    (forall id | id in s.workloads :: s.workloads[id].version <= s.clock && (id, s.workloads[id]) in s.past)
  }

  ghost predicate AllPast(s: State) { forall id, w | (id, w) in s.past :: PastInv(s, id, w) }
  ghost predicate AllPasses(s: State) { forall key | key in s.passes :: PassInv(s, key) }
  ghost predicate AllHashes(h: Hasher, s: State) { forall key :: HashInv(h, s, key) }

  ghost predicate Base(h: Hasher, s: State) { Versions(s) && AllPast(s) && AllPasses(s) && AllHashes(h, s) }

  lemma StartedHasBase(h: Hasher, s: State)
    requires Started(s)
    ensures Base(h, s)
  {
  }

  /** A workload changed, to a new version with the same reload lists. */
  lemma WorkloadKeepsPast(s: State, s': State, id: WorkloadId)
    requires Versions(s) && AllPast(s) && id in s.workloads && id in s'.workloads && s'.clock == s.clock + 1
    requires s'.workloads == s.workloads[id := s'.workloads[id]] && s'.past == s.past + {(id, s'.workloads[id])}
    requires s'.workloads[id].version == s'.clock
    requires forall k :: Matches(s'.workloads[id], k) <==> Matches(s.workloads[id], k)
    ensures AllPast(s')
  {
    forall j, w | (j, w) in s'.past ensures PastInv(s', j, w) {
      if (j, w) in s.past { assert PastInv(s, j, w); }
    }
  }

  lemma StepKeepsPast(h: Hasher, s: State, step: Step)
    requires Base(h, s) && Enabled(h, s, step)
    ensures AllPast(Do(h, s, step))
  {
    match step {
      case Touch(id, w) => TouchKeepsPast(h, s, id, w);
      case Visit(key) => VisitKeepsPast(h, s, key);
      case _ =>
        var s' := Do(h, s, step);
        assert s'.past == s.past && s'.workloads == s.workloads;
        forall id, w | (id, w) in s.past ensures PastInv(s', id, w) { assert PastInv(s, id, w); }
    }
  }

  lemma TouchKeepsPast(h: Hasher, s: State, id: WorkloadId, w: Workload)
    requires Base(h, s) && Enabled(h, s, Touch(id, w))
    ensures AllPast(Do(h, s, Touch(id, w)))
  {
    var s' := Do(h, s, Touch(id, w));
    forall k ensures Matches(s'.workloads[id], k) <==> Matches(s.workloads[id], k) {
      assert Matches(w, k) <==> Matches(s.workloads[id], k);
    }
    WorkloadKeepsPast(s, s', id);
  }

  lemma VisitKeepsPast(h: Hasher, s: State, key: Key)
    requires Base(h, s) && Enabled(h, s, Visit(key))
    ensures AllPast(Do(h, s, Visit(key)))
  {
    var p, s' := s.passes[key], Do(h, s, Visit(key));
    var (id, w) := p.items[0];
    assert PassInv(s, key) && p.items[0] in s.past && PastInv(s, id, w);
    if Matches(w, key) && AnnotateChanges(w.template, HashKey(key), p.hash) {
      WorkloadKeepsPast(s, s', id);
    } else {
      forall j, v | (j, v) in s.past ensures PastInv(s', j, v) { assert PastInv(s, j, v); }
    }
  }

  lemma StepKeepsPasses(h: Hasher, s: State, step: Step)
    requires IsHasher(h) && Base(h, s) && Enabled(h, s, step)
    ensures AllPasses(Do(h, s, step)) && Versions(Do(h, s, step))
  {
    StepKeepsVersions(h, s, step);
    var s' := Do(h, s, step);
    assert s.past <= s'.past;
    forall k | k in s'.passes ensures PassInv(s', k) {
      if k in s.passes { assert PassInv(s, k); }
    }
  }

  lemma StepKeepsVersions(h: Hasher, s: State, step: Step)
    requires IsHasher(h) && Base(h, s) && Enabled(h, s, step)
    ensures Versions(Do(h, s, step))
  {
  }

  lemma PatchKeepsHashes(h: Hasher, s: State, key: Key)
    requires IsHasher(h) && Base(h, s) && Enabled(h, s, PatchObject(key))
    ensures AllHashes(h, Do(h, s, PatchObject(key)))
  {
    assert PassInv(s, key);
    AnnotatingKeepsManaged(h, key, s.objects[key]);
    OwnPatchIsFiltered(h, s, key);
    forall k ensures HashInv(h, Do(h, s, PatchObject(key)), k) { assert HashInv(h, s, k); }
  }

  lemma StepKeepsHashes(h: Hasher, s: State, step: Step)
    requires IsHasher(h) && Base(h, s) && Enabled(h, s, step)
    ensures AllHashes(h, Do(h, s, step))
  {
    if step.PatchObject? {
      PatchKeepsHashes(h, s, step.key);
    } else {
      forall k ensures HashInv(h, Do(h, s, step), k) { assert HashInv(h, s, k); }
    }
  }

  lemma {:induction false} RunKeepsBase(h: Hasher, s: State, steps: seq<Step>)
    requires IsHasher(h) && Base(h, s) && IsRun(h, s, steps)
    ensures Base(h, After(h, s, steps))
    decreases |steps|
  {
    if steps == [] {
    } else {
      StepKeepsPast(h, s, steps[0]);
      StepKeepsPasses(h, s, steps[0]);
      StepKeepsHashes(h, s, steps[0]);
      RunKeepsBase(h, Do(h, s, steps[0]), steps[1..]);
    }
  }

  // ---------------------------------------------------------------------- inside a pass

  ghost predicate IsRanging(s: State, key: Key) { key in s.passes && s.passes[key].Ranging? }

  /** The step does not end the pass. */
  predicate IsInside(key: Key, step: Step) {
    !step.Restart? && !(step.Finish? && step.key == key) && !(step.Fail? && step.key == key)
  }

  /** The listings of the pass name no workload twice. */
  predicate IsPlain(key: Key, step: Step) {
    step.List? && step.key == key ==> forall i, j | 0 <= i < j < |step.items| :: step.items[i].0 != step.items[j].0
  }

  ghost predicate IsInsideRun(key: Key, steps: seq<Step>) {
    forall i | 0 <= i < |steps| :: IsInside(key, steps[i]) && IsPlain(key, steps[i])
  }

  ghost predicate ListsFresh(s: State, key: Key, step: Step) {
    step.List? && step.key == key && IsRanging(s, key) ==> AllFresh(s, key, s.passes[key].hash, step.items)
  }

  /** Each listing of the pass was fresh at the time: no copy carried the hash of a workload that had lost it. */
  ghost predicate RunListsFresh(h: Hasher, s: State, key: Key, steps: seq<Step>)
    requires IsRun(h, s, steps)
    decreases |steps|
  {
    steps == [] || (ListsFresh(s, key, steps[0]) && RunListsFresh(h, Do(h, s, steps[0]), key, steps[1..]))
  }

  /** All that the pass has dealt with carries the hash, and what it has yet to visit is fresh. */
  ghost predicate OnTrack(s: State, key: Key)
    requires IsRanging(s, key)
  {
    var p := s.passes[key];
    Carried(s, key, p.hash, p) && AllFresh(s, key, p.hash, p.items)
  }

  /** The pass will leave this workload without the hash: it is in no list to come, and any copy yet to be
      visited carries the hash. */
  ghost predicate IsLost(s: State, key: Key, id: WorkloadId)
    requires IsRanging(s, key)
  {
    var p := s.passes[key];
    id in s.workloads && Matches(s.workloads[id], key) && Get(s.workloads[id].template, HashKey(key)) != p.hash &&
    id.kind !in p.lists && forall i | 0 <= i < |p.items| && p.items[i].0 == id :: Carries(p.items[i].1, key, p.hash)
  }

  /** A step of others leaves the pass and the hashes of its key alone. */
  lemma OthersLeaveAlone(h: Hasher, s: State, step: Step, key: Key)
    requires Base(h, s) && Enabled(h, s, step) && IsRanging(s, key) && IsInside(key, step)
    requires !(step.List? && step.key == key) && !(step.Visit? && step.key == key)
    ensures var s' := Do(h, s, step);
      s'.passes.Keys >= {key} && s'.passes[key] == s.passes[key] && s'.workloads.Keys == s.workloads.Keys &&
      forall id | id in s.workloads :: SameFor(s.workloads[id], s'.workloads[id], key)
  {
    var s' := Do(h, s, step);
    match step {
      case Touch(id, w) =>
        assert Matches(w, key) <==> Matches(s.workloads[id], key);
        assert SameFor(s.workloads[id], s'.workloads[id], key);
      case Visit(other) =>
        var p := s.passes[other];
        var (id, w) := p.items[0];
        assert PassInv(s, other) && p.items[0] in s.past && PastInv(s, id, w);
        if Matches(w, other) && AnnotateChanges(w.template, HashKey(other), p.hash) {
          VisitTouchesOwnHashKeyOnly(w, other, p.hash, key);
          assert SameFor(s.workloads[id], s'.workloads[id], key);
        }
      case _ =>
    }
  }

  predicate SameFor(a: Workload, b: Workload, key: Key) {
    (Matches(a, key) <==> Matches(b, key)) && Get(a.template, HashKey(key)) == Get(b.template, HashKey(key))
  }

  lemma SameForKeepsTrack(s: State, s': State, key: Key)
    requires IsRanging(s, key) && key in s'.passes && s'.passes[key] == s.passes[key] && s'.workloads.Keys == s.workloads.Keys
    requires forall id | id in s.workloads :: SameFor(s.workloads[id], s'.workloads[id], key)
    ensures OnTrack(s, key) ==> OnTrack(s', key)
    ensures forall id | IsLost(s, key, id) :: IsLost(s', key, id)
  {
    var p := s.passes[key];
    if OnTrack(s, key) {
      forall i | 0 <= i < |p.items| ensures Fresh(s', key, p.hash, p.items[i]) { assert Fresh(s, key, p.hash, p.items[i]); }
    }
  }

  /** What a visit does to the pass and the workloads, as far as this key is concerned. */
  lemma VisitEffect(h: Hasher, s: State, key: Key)
    requires Base(h, s) && Enabled(h, s, Visit(key))
    ensures var (id, w) := s.passes[key].items[0];
      var s' := Do(h, s, Visit(key));
      var hash := s.passes[key].hash;
      s'.workloads.Keys == s.workloads.Keys && id in s.workloads && (Matches(w, key) <==> Matches(s.workloads[id], key)) &&
      (forall j | j in s.workloads && (j != id || !Matches(w, key) || Carries(w, key, hash)) :: s'.workloads[j] == s.workloads[j]) &&
      (Matches(w, key) && !Carries(w, key, hash) ==> Carries(s'.workloads[id], key, hash))
  {
    var p := s.passes[key];
    var (id, w) := p.items[0];
    assert PassInv(s, key) && p.items[0] in s.past && PastInv(s, id, w);
    AnnotateEffect(w.template, HashKey(key), p.hash);
  }

  /** A visit deals with its workload, or passes over a copy that carries the hash. */
  lemma VisitKeepsTrack(h: Hasher, s: State, key: Key)
    requires Base(h, s) && Enabled(h, s, Visit(key))
    ensures OnTrack(s, key) ==> OnTrack(Do(h, s, Visit(key)), key)
    ensures forall id | IsLost(s, key, id) :: IsLost(Do(h, s, Visit(key)), key, id)
  {
    var p, p' := s.passes[key], Do(h, s, Visit(key)).passes[key];
    VisitEffect(h, s, key);
    assert forall i | 0 <= i < |p'.items| :: p'.items[i] == p.items[i + 1];
    if OnTrack(s, key) { TrackAfterVisit(h, s, key); }
  }

  lemma TrackAfterVisit(h: Hasher, s: State, key: Key)
    requires Base(h, s) && Enabled(h, s, Visit(key)) && OnTrack(s, key)
    ensures OnTrack(Do(h, s, Visit(key)), key)
  {
    var p, s' := s.passes[key], Do(h, s, Visit(key));
    var p' := s'.passes[key];
    VisitEffect(h, s, key);
    assert forall i | 0 <= i < |p'.items| :: p'.items[i] == p.items[i + 1];
    assert Fresh(s, key, p.hash, p.items[0]);
    forall i | 0 <= i < |p'.items| ensures Fresh(s', key, p.hash, p'.items[i]) { assert Fresh(s, key, p.hash, p.items[i + 1]); }
    forall j | j in s'.workloads && j != p.items[0].0 && Pending(p, j) ensures Pending(p', j) {
      if i :| 0 <= i < |p.items| && p.items[i].0 == j { assert p'.items[i - 1].0 == j; }
    }
  }

  /** A fresh listing keeps the pass on track. */
  lemma FreshListKeepsTrack(h: Hasher, s: State, key: Key, items: Snapshot)
    requires Enabled(h, s, List(key, items)) && OnTrack(s, key) && AllFresh(s, key, s.passes[key].hash, items)
    ensures OnTrack(Do(h, s, List(key, items)), key)
  {
    var p, p' := s.passes[key], Do(h, s, List(key, items)).passes[key];
    assert forall i | 0 <= i < |p'.lists| :: p'.lists[i] == p.lists[i + 1];
    forall id | id in s.workloads && Pending(p, id) ensures Pending(p', id) {
      if id.kind == p.lists[0] {
        var i :| 0 <= i < |items| && items[i].0 == id;
        assert p'.items[i].0 == id;
      }
    }
  }

  /** A listing that is not fresh loses a workload. */
  lemma StaleListLoses(h: Hasher, s: State, key: Key, items: Snapshot)
    requires Base(h, s) && Enabled(h, s, List(key, items)) && IsPlain(key, List(key, items)) && NoRepeats(s.passes[key].lists)
    requires !AllFresh(s, key, s.passes[key].hash, items)
    ensures exists id :: IsLost(Do(h, s, List(key, items)), key, id)
  {
    var s' := Do(h, s, List(key, items));
    var p, p' := s.passes[key], s'.passes[key];
    assert forall i | 0 <= i < |p'.lists| :: p'.lists[i] == p.lists[i + 1];
    assert p.lists[0] !in p'.lists;
    var i :| 0 <= i < |items| && !Fresh(s, key, p.hash, items[i]);
    var (id, w) := items[i];
    assert items[i] in s.past && PastInv(s, id, w);
    assert forall j | 0 <= j < |items| && items[j].0 == id :: j == i;
    assert IsLost(s', key, id);
  }

  lemma ListKeepsTrack(h: Hasher, s: State, key: Key, items: Snapshot)
    requires Base(h, s) && Enabled(h, s, List(key, items)) && IsPlain(key, List(key, items)) && NoRepeats(s.passes[key].lists)
    ensures var s' := Do(h, s, List(key, items));
      (OnTrack(s, key) && AllFresh(s, key, s.passes[key].hash, items) ==> OnTrack(s', key)) &&
      (!AllFresh(s, key, s.passes[key].hash, items) ==> exists id :: IsLost(s', key, id)) &&
      (forall id | IsLost(s, key, id) :: IsLost(s', key, id)) && NoRepeats(s'.passes[key].lists)
  {
    var p, p' := s.passes[key], Do(h, s, List(key, items)).passes[key];
    assert forall i | 0 <= i < |p'.lists| :: p'.lists[i] == p.lists[i + 1];
    if !AllFresh(s, key, p.hash, items) {
      StaleListLoses(h, s, key, items);
    } else if OnTrack(s, key) {
      FreshListKeepsTrack(h, s, key, items);
    }
  }

  lemma InsideKeepsTrack(h: Hasher, s: State, step: Step, key: Key)
    requires Base(h, s) && Enabled(h, s, step) && IsRanging(s, key) && IsInside(key, step) && IsPlain(key, step)
    requires NoRepeats(s.passes[key].lists)
    ensures var s' := Do(h, s, step);
      IsRanging(s', key) && s'.passes[key].hash == s.passes[key].hash && NoRepeats(s'.passes[key].lists) &&
      (OnTrack(s, key) && ListsFresh(s, key, step) ==> OnTrack(s', key)) &&
      (!ListsFresh(s, key, step) ==> exists id :: IsLost(s', key, id)) &&
      (forall id | IsLost(s, key, id) :: IsLost(s', key, id))
  {
    if step.List? && step.key == key {
      ListKeepsTrack(h, s, key, step.items);
    } else if step.Visit? && step.key == key {
      VisitKeepsTrack(h, s, key);
    } else {
      OthersLeaveAlone(h, s, step, key);
      SameForKeepsTrack(s, Do(h, s, step), key);
    }
  }

  /** A pass on track stays so while its listings are fresh, and a lost workload stays lost. */
  lemma {:induction false} InsideRun(h: Hasher, s: State, steps: seq<Step>, key: Key)
    requires IsHasher(h) && Base(h, s) && IsRun(h, s, steps) && IsRanging(s, key) && IsInsideRun(key, steps)
    requires NoRepeats(s.passes[key].lists)
    ensures var t := After(h, s, steps);
      IsRanging(t, key) && t.passes[key].hash == s.passes[key].hash &&
      (OnTrack(s, key) && RunListsFresh(h, s, key, steps) ==> OnTrack(t, key)) &&
      (!RunListsFresh(h, s, key, steps) ==> exists id :: IsLost(t, key, id)) &&
      (forall id | IsLost(s, key, id) :: IsLost(t, key, id))
    decreases |steps|
  {
    if steps == [] {
    } else {
      var s' := Do(h, s, steps[0]);
      InsideKeepsTrack(h, s, steps[0], key);
      StepKeepsPast(h, s, steps[0]);
      StepKeepsPasses(h, s, steps[0]);
      StepKeepsHashes(h, s, steps[0]);
      assert forall i | 0 <= i < |steps[1..]| :: steps[1..][i] == steps[i + 1];
      InsideRun(h, s', steps[1..], key);
    }
  }

  // -------------------------------------------------------------------------- the outcome

  /** In any run from a started controller, take a pass that patched its object and came to its end, whatever
      happened in between, over a managed object that was not queued again.  It leaves that object in sync
      exactly when each of its listings was fresh at the time. */
  lemma PassSyncsExactly(h: Hasher, s: State, before: seq<Step>, during: seq<Step>, key: Key)
    requires IsHasher(h) && Started(s) && IsRun(h, s, before) && Enabled(h, After(h, s, before), PatchObject(key))
    requires var mid := Do(h, After(h, s, before), PatchObject(key));
      IsRun(h, mid, during) && IsInsideRun(key, during) &&
      var t := After(h, mid, during);
      Enabled(h, t, Finish(key)) && key in t.objects && Managed(h, key, t.objects[key]) && key !in t.queue
    ensures var mid := Do(h, After(h, s, before), PatchObject(key));
      Synced(h, Do(h, After(h, mid, during), Finish(key)), key) <==> RunListsFresh(h, mid, key, during)
  {
    var a := After(h, s, before);
    var mid := Do(h, a, PatchObject(key));
    StartedHasBase(h, s);
    RunKeepsBase(h, s, before);
    StepKeepsPast(h, a, PatchObject(key));
    StepKeepsPasses(h, a, PatchObject(key));
    StepKeepsHashes(h, a, PatchObject(key));
    PassStartsOnTrack(mid, key);
    InsideRun(h, mid, during, key);
    RunKeepsBase(h, mid, during);
    FinishShows(h, After(h, mid, during), key);
  }

  lemma PassStartsOnTrack(s: State, key: Key)
    requires IsRanging(s, key) && s.passes[key].lists == WORKLOAD_LISTS && s.passes[key].items == []
    ensures OnTrack(s, key) && NoRepeats(s.passes[key].lists)
  {
    forall id: WorkloadId ensures Pending(s.passes[key], id) {
      assert WORKLOAD_LISTS[if id.kind.Deployment? then 0 else if id.kind.StatefulSet? then 1 else 2] == id.kind;
    }
  }

  /** At the end of a pass, on track means in sync, and a lost workload means not. */
  lemma FinishShows(h: Hasher, s: State, key: Key)
    requires Base(h, s) && Enabled(h, s, Finish(key))
    requires key in s.objects && Managed(h, key, s.objects[key]) && key !in s.queue
    ensures OnTrack(s, key) ==> Synced(h, Do(h, s, Finish(key)), key)
    ensures (exists id :: IsLost(s, key, id)) ==> !Synced(h, Do(h, s, Finish(key)), key)
  {
    assert HashInv(h, s, key);
  }
}
