/**
 What is in the table of manifests in the end: which registrations survive in some run, when the table
 does not depend on the order the maps were visited in, and when nothing is lost.
 */
module ManifestTable {
  import opened Wrappers
  import opened EnvRef
  import opened KubeUtil
  import opened Package
  import opened Tables
  import opened InstallOrder
  import opened ManifestCollect

  /** A package that deploys something. */
  predicate Deploys(pkg: KubePkg) { pkg.deployer.Some? && pkg.deployer.value in DEPLOYERS }

  ghost predicate InPhase(pkg: KubePkg, phase: Phase, m: Manifest) {
    exists n | n in Names(pkg, phase) :: m in Made(pkg, phase, n)
  }

  /** The phase registers some manifest of this kind and name. */
  ghost predicate Claims(pkg: KubePkg, phase: Phase, id: Object) {
    exists m :: InPhase(pkg, phase, m) && m.id == id
  }

  ghost predicate Registered(pkg: KubePkg, body: Body, m: Manifest)
    requires pkg.deployer.Some?
  {
    m == Deployed(pkg, body) || InPhase(pkg, OfVolumes, m) || InPhase(pkg, OfServices, m) || m in AccountManifests(pkg)
  }

  /** No later phase registers a manifest of the same kind and name. */
  ghost predicate Survives(pkg: KubePkg, body: Body, m: Manifest)
    requires pkg.deployer.Some?
  {
    m in AccountManifests(pkg) || InPhase(pkg, OfServices, m) ||
    (InPhase(pkg, OfVolumes, m) && !Claims(pkg, OfServices, m.id)) ||
    (m == Deployed(pkg, body) && !Claims(pkg, OfVolumes, m.id) && !Claims(pkg, OfServices, m.id))
  }

  // ---------------------------------------------------------------------- the log

  lemma {:induction false} PhaseLogMembers(pkg: KubePkg, phase: Phase, order: seq<string>, i: nat)
    requires i <= |order|
    ensures forall m :: m in PhaseLog(pkg, phase, order, i) <==> exists k | 0 <= k < i :: m in Made(pkg, phase, order[k])
  {
    if i == 0 {
    } else {
      PhaseLogMembers(pkg, phase, order, i - 1);
    }
  }

  lemma PhaseIsLogged(pkg: KubePkg, phase: Phase, order: seq<string>)
    requires Enumerates(order, Names(pkg, phase))
    ensures forall m :: m in PhaseLog(pkg, phase, order, |order|) <==> InPhase(pkg, phase, m)
  {
    PhaseLogMembers(pkg, phase, order, |order|);
    forall m | InPhase(pkg, phase, m) ensures exists k | 0 <= k < |order| :: m in Made(pkg, phase, order[k]) {
      var n :| n in Names(pkg, phase) && m in Made(pkg, phase, n);
      var k :| 0 <= k < |order| && order[k] == n;
    }
    assert forall k | 0 <= k < |order| :: order[k] in order;
  }

  function OfPhase(pkg: KubePkg, phase: Phase, run: Run): seq<Manifest> {
    var order := if phase.OfVolumes? then run.volumes else run.services;
    PhaseLog(pkg, phase, order, |order|)
  }

  /** The parts of a log, in order. */
  predicate HasParts(log: seq<Manifest>, d: Manifest, v: seq<Manifest>, s: seq<Manifest>, a: seq<Manifest>) {
    |log| == 1 + |v| + |s| + |a| && log[0] == d &&
    (forall j | 0 < j <= |v| :: log[j] == v[j - 1]) &&
    (forall j | |v| < j <= |v| + |s| :: log[j] == s[j - 1 - |v|]) &&
    (forall j | |v| + |s| < j < |log| :: log[j] == a[j - 1 - |v| - |s|])
  }

  /** The place in the log of an entry of a phase. */
  lemma PartAt(log: seq<Manifest>, d: Manifest, v: seq<Manifest>, s: seq<Manifest>, a: seq<Manifest>, phase: Phase, k: nat)
    returns (j: nat)
    requires HasParts(log, d, v, s, a) && k < if phase.OfVolumes? then |v| else |s|
    ensures j < |log| && log[j] == (if phase.OfVolumes? then v[k] else s[k])
    ensures j > if phase.OfVolumes? then 0 else |v|
  {
    j := 1 + k + if phase.OfVolumes? then 0 else |v|;
  }

  /** The manifest is at `i`, and none after it has its kind and name. */
  predicate IsLastAt(log: seq<Manifest>, m: Manifest, i: nat) {
    i < |log| && log[i] == m && forall j | i < j < |log| :: log[j].id != m.id
  }

  predicate Misses(s: seq<Manifest>, id: Object) { forall j | 0 <= j < |s| :: s[j].id != id }

  /** What is last in its part, and missing from the later ones, is last in the log. */
  lemma LastInParts(log: seq<Manifest>, d: Manifest, v: seq<Manifest>, s: seq<Manifest>, a: seq<Manifest>, m: Manifest, k: nat)
    returns (i: nat)
    requires HasParts(log, d, v, s, a)
    requires IsLastAt(a, m, k) || (IsLastAt(s, m, k) && Misses(a, m.id)) ||
      (IsLastAt(v, m, k) && Misses(s, m.id) && Misses(a, m.id)) ||
      (m == d && Misses(v, m.id) && Misses(s, m.id) && Misses(a, m.id))
    ensures IsLastAt(log, m, i)
  {
    i := if IsLastAt(a, m, k) then 1 + |v| + |s| + k
         else if IsLastAt(s, m, k) && Misses(a, m.id) then 1 + |v| + k
         else if IsLastAt(v, m, k) && Misses(s, m.id) && Misses(a, m.id) then 1 + k
         else 0;
    forall j | i < j < |log| ensures log[j].id != m.id {
      if j <= |v| {
        assert log[j] == v[j - 1];
      } else if j <= |v| + |s| {
        assert log[j] == s[j - 1 - |v|];
      } else {
        assert log[j] == a[j - 1 - |v| - |s|];
      }
    }
  }

  lemma PartsOfConcat(d: Manifest, v: seq<Manifest>, s: seq<Manifest>, a: seq<Manifest>)
    ensures HasParts([d] + v + s + a, d, v, s, a)
  {
  }

  lemma LogParts(pkg: KubePkg, body: Body, run: Run)
    requires pkg.deployer.Some? && IsRun(pkg, run)
    ensures HasParts(Log(pkg, body, run), Deployed(pkg, body), OfPhase(pkg, OfVolumes, run), OfPhase(pkg, OfServices, run),
                     AccountManifests(pkg))
  {
    PartsOfConcat(Deployed(pkg, body), OfPhase(pkg, OfVolumes, run), OfPhase(pkg, OfServices, run), AccountManifests(pkg));
  }

  lemma LogKinds(pkg: KubePkg, body: Body, m: Manifest)
    requires Deploys(pkg) && Registered(pkg, body, m)
    ensures m.id.kind in SPEC_KINDS
    ensures InPhase(pkg, OfVolumes, m) ==> m.id.kind in VOLUME_KINDS
    ensures InPhase(pkg, OfServices, m) ==> m.id.kind in SERVICE_KINDS
  {
    AccountKinds(pkg);
    SpecKindsAreAll();
    forall phase | InPhase(pkg, phase, m) ensures m.id.kind in PhaseKinds(phase) {
      var n :| n in Names(pkg, phase) && m in Made(pkg, phase, n);
      MadeKinds(pkg, phase, n);
    }
  }

  lemma LoggedIsRegistered(pkg: KubePkg, body: Body, run: Run)
    requires pkg.deployer.Some? && IsRun(pkg, run)
    ensures forall m :: m in Log(pkg, body, run) <==> Registered(pkg, body, m)
  {
    PhaseIsLogged(pkg, OfVolumes, run.volumes);
    PhaseIsLogged(pkg, OfServices, run.services);
  }

  /** Only registrations of the same kind and name share an id. */
  lemma SameIdSameObject(pkg: KubePkg, body: Body, a: Manifest, b: Manifest)
    requires Deploys(pkg) && Registered(pkg, body, a) && Registered(pkg, body, b)
    ensures IdOf(a) == IdOf(b) <==> a.id == b.id
  {
    LogKinds(pkg, body, a);
    LogKinds(pkg, body, b);
    ObjectIdsApart(a.id, b.id);
  }

  /** What no later registration replaces is in the table. */
  lemma HeldInRun(pkg: KubePkg, body: Body, run: Run, i: nat)
    requires Deploys(pkg) && IsRun(pkg, run) && i < |Log(pkg, body, run)|
    requires var log := Log(pkg, body, run); forall j | i < j < |log| :: log[j].id != log[i].id
    ensures Holds(Collected(pkg, body, run), IdOf(Log(pkg, body, run)[i]), Log(pkg, body, run)[i])
  {
    var log := Log(pkg, body, run);
    LoggedIsRegistered(pkg, body, run);
    forall j | i < j < |log| ensures IdOf(log[j]) != IdOf(log[i]) {
      assert log[i] in log && log[j] in log;
      SameIdSameObject(pkg, body, log[i], log[j]);
    }
    LastIsHeld(IdOf, Itself, log, |log|, i);
  }

  /** Everything registered leaves its id in the table. */
  lemma EveryIdIsThere(pkg: KubePkg, body: Body, run: Run, m: Manifest)
    requires pkg.deployer.Some? && IsRun(pkg, run) && Registered(pkg, body, m)
    ensures IdOf(m) in Collected(pkg, body, run)
  {
    var log := Log(pkg, body, run);
    LoggedIsRegistered(pkg, body, run);
    var i :| 0 <= i < |log| && log[i] == m;
    EveryKeyIsThere(IdOf, Itself, log, |log|, i);
  }

  // ------------------------------------------------------------------ who survives

  lemma ClaimInPhase(pkg: KubePkg, run: Run, phase: Phase, id: Object) returns (k: nat)
    requires IsRun(pkg, run) && Claims(pkg, phase, id)
    ensures k < |OfPhase(pkg, phase, run)| && OfPhase(pkg, phase, run)[k].id == id
  {
    var m :| InPhase(pkg, phase, m) && m.id == id;
    PhaseIsLogged(pkg, phase, if phase.OfVolumes? then run.volumes else run.services);
    assert m in OfPhase(pkg, phase, run);
    k :| 0 <= k < |OfPhase(pkg, phase, run)| && OfPhase(pkg, phase, run)[k] == m;
  }

  /** Where a claim of a phase stands in the log. */
  lemma ClaimIsLogged(pkg: KubePkg, body: Body, run: Run, phase: Phase, id: Object) returns (j: nat)
    requires pkg.deployer.Some? && IsRun(pkg, run) && Claims(pkg, phase, id)
    ensures j < |Log(pkg, body, run)| && Log(pkg, body, run)[j].id == id
    ensures j > if phase.OfVolumes? then 0 else |OfPhase(pkg, OfVolumes, run)|
  {
    var k := ClaimInPhase(pkg, run, phase, id);
    LogParts(pkg, body, run);
    j := PartAt(Log(pkg, body, run), Deployed(pkg, body), OfPhase(pkg, OfVolumes, run), OfPhase(pkg, OfServices, run),
                AccountManifests(pkg), phase, k);
  }

  /** Only survivors are ever in the table. */
  lemma OnlySurvivors(pkg: KubePkg, body: Body, run: Run, key: string)
    requires Deploys(pkg) && IsRun(pkg, run) && key in Collected(pkg, body, run)
    ensures IdOf(Collected(pkg, body, run)[key]) == key && Survives(pkg, body, Collected(pkg, body, run)[key])
  {
    var log := Log(pkg, body, run);
    var i := LastWriter(IdOf, Itself, log, |log|, key);
    var m := log[i];
    var volumes := |OfPhase(pkg, OfVolumes, run)|;
    LogParts(pkg, body, run);
    PhaseIsLogged(pkg, OfVolumes, run.volumes);
    PhaseIsLogged(pkg, OfServices, run.services);
    forall phase | Claims(pkg, phase, m.id) ensures i > if phase.OfVolumes? then 0 else volumes {
      var j := ClaimIsLogged(pkg, body, run, phase, m.id);
      assert IdOf(log[j]) == IdOf(m);
    }
  }

  lemma LastMadeIsLast(pkg: KubePkg, phase: Phase, order: seq<string>)
    requires order != []
    ensures PhaseLog(pkg, phase, order, |order|) ==
      PhaseLog(pkg, phase, order, |order| - 1) + Made(pkg, phase, order[|order| - 1])
  {
  }

  /** A visit that ends with the manifest, as far as its kind and name go. */
  lemma PhaseEndingWith(pkg: KubePkg, phase: Phase, m: Manifest) returns (order: seq<string>, i: nat)
    requires InPhase(pkg, phase, m)
    ensures Enumerates(order, Names(pkg, phase))
    ensures IsLastAt(PhaseLog(pkg, phase, order, |order|), m, i)
  {
    var n :| n in Names(pkg, phase) && m in Made(pkg, phase, n);
    order := EnumerateWithLast(Names(pkg, phase), n);
    var made := Made(pkg, phase, n);
    var k :| 0 <= k < |made| && made[k] == m;
    MadeKinds(pkg, phase, n);
    LastMadeIsLast(pkg, phase, order);
    i := LastOfLastPart(PhaseLog(pkg, phase, order, |order| - 1), made, m, k);
  }

  lemma LastOfLastPart(before: seq<Manifest>, made: seq<Manifest>, m: Manifest, k: nat) returns (i: nat)
    requires k < |made| && made[k] == m && forall p, q | 0 <= p < q < |made| :: made[p].id != made[q].id
    ensures IsLastAt(before + made, m, i)
  {
    i := |before| + k;
    forall j | i < j < |before + made| ensures (before + made)[j].id != m.id {
      assert (before + made)[j] == made[j - |before|];
    }
  }

  /** Every survivor is in the table of some run. */
  lemma EverySurvivorIsSeen(pkg: KubePkg, body: Body, m: Manifest) returns (run: Run)
    requires Deploys(pkg) && Survives(pkg, body, m)
    ensures IsRun(pkg, run) && Holds(Collected(pkg, body, run), IdOf(m), m)
  {
    var volumes := Enumerate(Names(pkg, OfVolumes));
    var services := Enumerate(Names(pkg, OfServices));
    var k: nat := 0;
    if m in AccountManifests(pkg) {
      k :| 0 <= k < |AccountManifests(pkg)| && AccountManifests(pkg)[k] == m;
    } else if InPhase(pkg, OfServices, m) {
      services, k := PhaseEndingWith(pkg, OfServices, m);
    } else if InPhase(pkg, OfVolumes, m) {
      volumes, k := PhaseEndingWith(pkg, OfVolumes, m);
    }
    run := Run(volumes, services);
    var i := SurvivorIsLast(pkg, body, run, m, k);
    HeldInRun(pkg, body, run, i);
  }

  /** No entry after this one has the kind and name of the survivor. */
  lemma SurvivorIsLast(pkg: KubePkg, body: Body, run: Run, m: Manifest, k: nat) returns (i: nat)
    requires Deploys(pkg) && Survives(pkg, body, m) && IsRun(pkg, run)
    requires if m in AccountManifests(pkg) then k < |AccountManifests(pkg)| && AccountManifests(pkg)[k] == m
             else if InPhase(pkg, OfServices, m) then IsLastAt(OfPhase(pkg, OfServices, run), m, k)
             else if InPhase(pkg, OfVolumes, m) then IsLastAt(OfPhase(pkg, OfVolumes, run), m, k)
             else true
    ensures IsLastAt(Log(pkg, body, run), m, i)
  {
    var a := AccountManifests(pkg);
    AccountKinds(pkg);
    if m !in a {
      forall j | 0 <= j < |a| ensures a[j].id != m.id { AccountIsOwn(pkg, body, a[j], m); }
      forall phase | !Claims(pkg, phase, m.id) ensures Misses(OfPhase(pkg, phase, run), m.id) {
        UnclaimedIsMissed(pkg, phase, run, m.id);
      }
    }
    LogParts(pkg, body, run);
    i := LastInParts(Log(pkg, body, run), Deployed(pkg, body), OfPhase(pkg, OfVolumes, run), OfPhase(pkg, OfServices, run), a, m, k);
  }

  lemma UnclaimedIsMissed(pkg: KubePkg, phase: Phase, run: Run, id: Object)
    requires IsRun(pkg, run) && !Claims(pkg, phase, id)
    ensures Misses(OfPhase(pkg, phase, run), id)
  {
    PhaseIsLogged(pkg, phase, if phase.OfVolumes? then run.volumes else run.services);
    var log := OfPhase(pkg, phase, run);
    forall j | 0 <= j < |log| ensures log[j].id != id {
      assert log[j] in log && InPhase(pkg, phase, log[j]);
    }
  }

  /** An account manifest shares its kind with no other manifest. */
  lemma AccountIsOwn(pkg: KubePkg, body: Body, a: Manifest, m: Manifest)
    requires Deploys(pkg) && Registered(pkg, body, m) && a in AccountManifests(pkg)
    ensures a.id == m.id ==> a == m
  {
    LogKinds(pkg, body, m);
    AccountKinds(pkg);
    AccountKindsAreOwn();
  }

  // --------------------------------------------------------------- the main results

  /** Exactly the survivors can be in the table. */
  lemma TableExactly(pkg: KubePkg, body: Body, m: Manifest)
    requires Deploys(pkg)
    ensures Survives(pkg, body, m) <==> exists run :: IsRun(pkg, run) && Holds(Collected(pkg, body, run), IdOf(m), m)
  {
    if Survives(pkg, body, m) {
      var run := EverySurvivorIsSeen(pkg, body, m);
    }
    forall run | IsRun(pkg, run) && Holds(Collected(pkg, body, run), IdOf(m), m) ensures Survives(pkg, body, m) {
      OnlySurvivors(pkg, body, run, IdOf(m));
    }
  }

  /** Services of one name agree, and so do volumes, unless a service replaces them anyway. */
  ghost predicate PhasesAgree(pkg: KubePkg) {
    (forall a, b | InPhase(pkg, OfServices, a) && InPhase(pkg, OfServices, b) && a.id == b.id :: a == b) &&
    (forall a, b | InPhase(pkg, OfVolumes, a) && InPhase(pkg, OfVolumes, b) && a.id == b.id :: a == b || Claims(pkg, OfServices, a.id))
  }

  /** The table, contents and all, is the same for every order of the maps exactly when the manifests
      of one phase that share kind and name agree. */
  lemma TableDeterminedExactly(pkg: KubePkg, body: Body)
    requires Deploys(pkg)
    ensures PhasesAgree(pkg) <==>
      forall p, q | IsRun(pkg, p) && IsRun(pkg, q) :: Collected(pkg, body, p) == Collected(pkg, body, q)
  {
    if PhasesAgree(pkg) {
      forall p, q | IsRun(pkg, p) && IsRun(pkg, q) ensures Collected(pkg, body, p) == Collected(pkg, body, q) {
        AgreedTable(pkg, body, p, q);
        AgreedTable(pkg, body, q, p);
      }
    } else {
      var a, b := Disagreeing(pkg, body);
      var p := EverySurvivorIsSeen(pkg, body, a);
      var q := EverySurvivorIsSeen(pkg, body, b);
      assert IdOf(a) == IdOf(b) && Collected(pkg, body, p) != Collected(pkg, body, q);
    }
  }

  lemma Disagreeing(pkg: KubePkg, body: Body) returns (a: Manifest, b: Manifest)
    requires Deploys(pkg) && !PhasesAgree(pkg)
    ensures Survives(pkg, body, a) && Survives(pkg, body, b) && a.id == b.id && a != b
  {
    if !(forall a, b | InPhase(pkg, OfServices, a) && InPhase(pkg, OfServices, b) && a.id == b.id :: a == b) {
      a, b :| InPhase(pkg, OfServices, a) && InPhase(pkg, OfServices, b) && a.id == b.id && a != b;
    } else {
      a, b :| InPhase(pkg, OfVolumes, a) && InPhase(pkg, OfVolumes, b) && a.id == b.id && a != b && !Claims(pkg, OfServices, a.id);
    }
  }

  lemma AgreedTable(pkg: KubePkg, body: Body, p: Run, q: Run)
    requires Deploys(pkg) && PhasesAgree(pkg) && IsRun(pkg, p) && IsRun(pkg, q)
    ensures forall key | key in Collected(pkg, body, p) :: Holds(Collected(pkg, body, q), key, Collected(pkg, body, p)[key])
  {
    forall key | key in Collected(pkg, body, p)
      ensures Holds(Collected(pkg, body, q), key, Collected(pkg, body, p)[key])
    {
      OnlySurvivors(pkg, body, p, key);
      var a := Collected(pkg, body, p)[key];
      EveryIdIsThere(pkg, body, q, a);
      OnlySurvivors(pkg, body, q, key);
      OneSurvivor(pkg, body, a, Collected(pkg, body, q)[key]);
    }
  }

  lemma OneSurvivor(pkg: KubePkg, body: Body, a: Manifest, b: Manifest)
    requires Deploys(pkg) && PhasesAgree(pkg) && Survives(pkg, body, a) && Survives(pkg, body, b) && IdOf(a) == IdOf(b)
    ensures a == b
  {
    SameIdSameObject(pkg, body, a, b);
    LogKinds(pkg, body, a);
    LogKinds(pkg, body, b);
    AccountKinds(pkg);
    AccountKindsAreOwn();
    assert InPhase(pkg, OfServices, a) ==> Claims(pkg, OfServices, a.id);
    assert InPhase(pkg, OfServices, b) ==> Claims(pkg, OfServices, b.id);
    assert InPhase(pkg, OfVolumes, a) ==> Claims(pkg, OfVolumes, a.id);
    assert InPhase(pkg, OfVolumes, b) ==> Claims(pkg, OfVolumes, b.id);
  }

  /** No two registrations of the same kind and name differ. */
  ghost predicate NoClash(pkg: KubePkg, body: Body)
    requires pkg.deployer.Some?
  {
    forall a, b | Registered(pkg, body, a) && Registered(pkg, body, b) && a.id == b.id :: a == b
  }

  /** Every registration is still in the table at the end exactly when no two of them clash. */
  lemma NothingIsLostExactly(pkg: KubePkg, body: Body, run: Run)
    requires Deploys(pkg) && IsRun(pkg, run)
    ensures NoClash(pkg, body) <==> forall m | Registered(pkg, body, m) :: Holds(Collected(pkg, body, run), IdOf(m), m)
  {
    if NoClash(pkg, body) {
      forall m | Registered(pkg, body, m) ensures Holds(Collected(pkg, body, run), IdOf(m), m) {
        EveryIdIsThere(pkg, body, run, m);
        OnlySurvivors(pkg, body, run, IdOf(m));
        SameIdSameObject(pkg, body, m, Collected(pkg, body, run)[IdOf(m)]);
      }
    } else {
      var a, b :| Registered(pkg, body, a) && Registered(pkg, body, b) && a.id == b.id && a != b;
      assert IdOf(a) == IdOf(b);
    }
  }

  // ------------------------------------------------------------------- collisions

  function SettingsManifest(pkg: KubePkg): Manifest {
    Manifest(Object("ConfigMap", pkg.name), Data(ConfigData(pkg.config)))
  }

  lemma SettingsAreRegistered(pkg: KubePkg)
    requires !DeploysData(pkg)
    ensures InPhase(pkg, OfVolumes, SettingsManifest(pkg))
  {
    assert "#" in Names(pkg, OfVolumes) && SettingsManifest(pkg) in Made(pkg, OfVolumes, "#");
  }

  /** The settings of a package and a volume `~` with its name, of other data, collide: either can end
      up in the ConfigMap. */
  lemma SettingsMeetVolume(pkg: KubePkg, body: Body, data: map<string, string>) returns (p: Run, q: Run)
    requires Deploys(pkg) && !DeploysData(pkg) && pkg.services == map[]
    requires "~" + pkg.name in pkg.volumes && pkg.volumes["~" + pkg.name] == Some(DataVolume(data))
    requires data != ConfigData(pkg.config)
    ensures IsRun(pkg, p) && Holds(Collected(pkg, body, p), IdOf(SettingsManifest(pkg)), SettingsManifest(pkg))
    ensures IsRun(pkg, q) && Holds(Collected(pkg, body, q), IdOf(SettingsManifest(pkg)), SettingsManifest(pkg).(body := Data(data)))
  {
    SettingsAreRegistered(pkg);
    var n, m := "~" + pkg.name, SettingsManifest(pkg).(body := Data(data));
    assert n[0] == '~' && n[1..] == pkg.name;
    assert n in Names(pkg, OfVolumes) && m in Made(pkg, OfVolumes, n);
    assert !Claims(pkg, OfServices, m.id);
    p := EverySurvivorIsSeen(pkg, body, SettingsManifest(pkg));
    q := EverySurvivorIsSeen(pkg, body, m);
  }

  const COLLIDING := KubePkg("p", "", Some("Deployment"), map[], map["~p" := Some(DataVolume(map["B" := "2"]))],
    map["A" := EnvVar("1", None)], map[], false, None)

  /** For instance settings `A` and a volume `~p` of a package `p`. */
  lemma SettingsOfPMeetVolume(body: Body)
    ensures !PhasesAgree(COLLIDING)
    ensures exists p, q | IsRun(COLLIDING, p) && IsRun(COLLIDING, q) ::
      Collected(COLLIDING, body, p) != Collected(COLLIDING, body, q)
  {
    assert "~" + "p" == "~p" && "A" in ConfigData(COLLIDING.config) && "A" !in map["B" := "2"];
    var p, q := SettingsMeetVolume(COLLIDING, body, map["B" := "2"]);
    assert Collected(COLLIDING, body, p) != Collected(COLLIDING, body, q);
    TableDeterminedExactly(COLLIDING, body);
  }

  /** A ConfigMap volume with the name of a service's endpoints is lost in every run. */
  lemma EndpointsReplaceVolume(pkg: KubePkg, body: Body, run: Run, n: string)
    requires Deploys(pkg) && IsRun(pkg, run) && n in pkg.services && !pkg.services[n].nodePort
    ensures var id := Object("ConfigMap", "endpoint-" + SubResourceName(pkg.name, n));
      ObjectId(id) in Collected(pkg, body, run) && InPhase(pkg, OfServices, Collected(pkg, body, run)[ObjectId(id)])
  {
    var name := SubResourceName(pkg.name, n);
    var m := Manifest(Object("ConfigMap", "endpoint-" + name), Data(Endpoints(n, pkg.services[n], name)));
    assert m in Made(pkg, OfServices, n) && n in Names(pkg, OfServices);
    assert InPhase(pkg, OfServices, m) && Claims(pkg, OfServices, m.id);
    EveryIdIsThere(pkg, body, run, m);
    OnlySurvivors(pkg, body, run, IdOf(m));
    var held := Collected(pkg, body, run)[IdOf(m)];
    SameIdSameObject(pkg, body, m, held);
    AccountKinds(pkg);
    AccountKindsAreOwn();
    assert m.id.kind in SERVICE_KINDS;
  }

  /** Nothing else ends up in the ConfigMap of the settings. */
  ghost predicate SettingsKept(pkg: KubePkg) {
    var id := SettingsManifest(pkg).id;
    (forall m | InPhase(pkg, OfServices, m) && m.id == id :: m == SettingsManifest(pkg)) &&
    (forall m | InPhase(pkg, OfVolumes, m) && m.id == id :: m == SettingsManifest(pkg) || Claims(pkg, OfServices, id))
  }

  /** The ConfigMap of a package holds its settings, in every run, exactly when no other volume or
      service ends up in it. */
  lemma SettingsKeptExactly(pkg: KubePkg, body: Body)
    requires Deploys(pkg) && !DeploysData(pkg)
    ensures SettingsKept(pkg) <==>
      forall run | IsRun(pkg, run) :: Holds(Collected(pkg, body, run), IdOf(SettingsManifest(pkg)), SettingsManifest(pkg))
  {
    var settings := SettingsManifest(pkg);
    SettingsAreRegistered(pkg);
    if SettingsKept(pkg) {
      forall run | IsRun(pkg, run) ensures Holds(Collected(pkg, body, run), IdOf(settings), settings) {
        EveryIdIsThere(pkg, body, run, settings);
        OnlySurvivors(pkg, body, run, IdOf(settings));
        OnlySettingsSurvive(pkg, body, Collected(pkg, body, run)[IdOf(settings)]);
      }
    } else {
      var m: Manifest :| m.id == settings.id && m != settings && Survives(pkg, body, m);
      var run := EverySurvivorIsSeen(pkg, body, m);
      assert IdOf(m) == IdOf(settings);
    }
  }

  lemma OnlySettingsSurvive(pkg: KubePkg, body: Body, m: Manifest)
    requires Deploys(pkg) && !DeploysData(pkg) && SettingsKept(pkg)
    requires Survives(pkg, body, m) && IdOf(m) == IdOf(SettingsManifest(pkg))
    ensures m == SettingsManifest(pkg)
  {
    var settings := SettingsManifest(pkg);
    SettingsAreRegistered(pkg);
    SameIdSameObject(pkg, body, m, settings);
    AccountKinds(pkg);
    AccountKindsAreOwn();
    assert settings.id.kind in VOLUME_KINDS;
    assert Claims(pkg, OfVolumes, settings.id);
  }
}
