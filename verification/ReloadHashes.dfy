/**
 The hashes that `Extract` of pkg/kubepkg/manifest/kubepkg.go puts on workloads, and what the reload
 controllers make of them later.
 */
module ReloadHashes {
  import opened Wrappers
  import opened Text
  import opened Metadata
  import opened InstallOrder
  import opened ManifestCollect
  import opened ManifestExtract
  import P = ReloadProtocol

  function KindName(kind: P.Kind): string { if kind.ConfigMap? then "ConfigMap" else "Secret" }

  function ListKey(kind: P.Kind): string { if kind.ConfigMap? then RELOAD_CONFIG_MAP else RELOAD_SECRET }

  /** The manifest that a listed name is looked up as: under its lower-case form. */
  function Target(table: map<string, Manifest>, kind: P.Kind, name: string): Option<Manifest> {
    var id := ToLower(KindName(kind) + "." + name);
    if id in table && table[id].id.kind == KindName(kind) then Some(table[id]) else None
  }

  /** The hash that is written.  A Secret keeps its data in `StringData`, and `Data` is hashed; Go hashes an
      empty map that is not nil differently from a nil one, and `blank` is what becomes of empty data. */
  function HashOf(h: P.Hasher, blank: string, kind: P.Kind, body: Body): string {
    if kind.Secret? then h(kind, map[])
    else if body.Data? && body.data != map[] then h(kind, body.data)
    else blank
  }

  function HashedUpto(h: P.Hasher, blank: string, table: map<string, Manifest>, kind: P.Kind, names: seq<string>,
                      template: Annotations, i: nat): Annotations
    requires i <= |names|
  {
    if i == 0 then template
    else
      var before := HashedUpto(h, blank, table, kind, names, template, i - 1);
      var m := Target(table, kind, names[i - 1]);
      if m.None? then before
      else Annotated(before, P.HashKey(P.Key(kind, m.value.id.name)), HashOf(h, blank, kind, m.value.body))
  }

  /** The pod template after the names of one kind. */
  function Hashed(h: P.Hasher, blank: string, table: map<string, Manifest>, kind: P.Kind, annotations: Annotations,
                  template: Annotations): Annotations
  {
    var v := Get(annotations, ListKey(kind));
    if v == "" then template else HashedUpto(h, blank, table, kind, Split(v, ','), template, |Split(v, ',')|)
  }

  /** A workload as `Extract` leaves it. */
  function Extracted(h: P.Hasher, blank: string, table: map<string, Manifest>, w: P.Workload): P.Workload {
    var first := Hashed(h, blank, table, P.ConfigMap, w.annotations, w.template);
    w.(template := Hashed(h, blank, table, P.Secret, w.annotations, first))
  }

  method HashWorkload(h: P.Hasher, blank: string, table: map<string, Manifest>, w: P.Workload) returns (after: P.Workload)
    ensures after == Extracted(h, blank, table, w)
  {
    var template := HashKind(h, blank, table, P.ConfigMap, w.annotations, w.template);
    template := HashKind(h, blank, table, P.Secret, w.annotations, template);
    after := w.(template := template);
  }

  /** What becomes of the names of one kind. */
  method HashKind(h: P.Hasher, blank: string, table: map<string, Manifest>, kind: P.Kind, annotations: Annotations, template: Annotations)
    returns (after: Annotations)
    ensures after == Hashed(h, blank, table, kind, annotations, template)
  {
    after := template;
    var v := Get(annotations, ListKey(kind));
    if v != "" { after := HashNames(h, blank, table, kind, Split(v, ','), template); }
  }

  method HashNames(h: P.Hasher, blank: string, table: map<string, Manifest>, kind: P.Kind, names: seq<string>, template: Annotations)
    returns (after: Annotations)
    ensures after == HashedUpto(h, blank, table, kind, names, template, |names|)
  {
    after := template;
    for i := 0 to |names|
      invariant after == HashedUpto(h, blank, table, kind, names, template, i)
    {
      var m := Target(table, kind, names[i]);
      if m.Some? {
        after := Annotated(after, P.HashKey(P.Key(kind, m.value.id.name)), HashOf(h, blank, kind, m.value.body));
      }
    }
  }

  // ------------------------------------------------------------- what the hashes are

  function FileId(key: P.Key): string { ObjectId(Object(KindName(key.kind), key.name)) }

  lemma FileIds(name: string)
    ensures FileId(P.Key(P.ConfigMap, name)) == "configmap." + name
    ensures FileId(P.Key(P.Secret, name)) == "secret." + name
  {
    assert ToLower("ConfigMap") == "configmap" && ToLower("Secret") == "secret";
  }

  /** A name is looked up as the manifest with its lower-case name, if there is one. */
  lemma TargetExactly(table: map<string, Manifest>, kind: P.Kind, name: string)
    requires WellFiled(table)
    ensures var key := P.Key(kind, ToLower(name));
      if FileId(key) in table
      then Target(table, kind, name) == Some(table[FileId(key)]) && table[FileId(key)].id == Object(KindName(kind), ToLower(name))
      else Target(table, kind, name).None?
  {
    var o := Object(KindName(kind), ToLower(name));
    assert ToLower(KindName(kind) + "." + name) == ObjectId(o);
    if ObjectId(o) in table {
      assert IdOf(table[ObjectId(o)]) == ObjectId(o);
      ObjectIdsApart(table[ObjectId(o)].id, o);
    }
  }

  predicate LooksUp(names: seq<string>, i: nat, name: string)
    requires i <= |names|
  {
    exists j | 0 <= j < i :: ToLower(names[j]) == name
  }

  /** Each hash annotation is that of the manifest looked up under its name, or as it was. */
  lemma {:induction false} HashedExactly(h: P.Hasher, blank: string, table: map<string, Manifest>, kind: P.Kind, names: seq<string>,
                                         template: Annotations, i: nat, key: P.Key)
    requires WellFiled(table) && i <= |names|
    ensures Get(HashedUpto(h, blank, table, kind, names, template, i), P.HashKey(key)) ==
      if key.kind == kind && FileId(key) in table && LooksUp(names, i, key.name)
      then HashOf(h, blank, kind, table[FileId(key)].body) else Get(template, P.HashKey(key))
  {
    if i == 0 {
    } else {
      HashedExactly(h, blank, table, kind, names, template, i - 1, key);
      TargetExactly(table, kind, names[i - 1]);
      assert LooksUp(names, i, key.name) <==> LooksUp(names, i - 1, key.name) || ToLower(names[i - 1]) == key.name;
      var written := P.Key(kind, ToLower(names[i - 1]));
      var before := HashedUpto(h, blank, table, kind, names, template, i - 1);
      if FileId(written) in table {
        P.HashKeysApart(written, key);
        AnnotateEffect(before, P.HashKey(written), HashOf(h, blank, kind, table[FileId(written)].body));
      }
    }
  }

  /** The workload lists a name that is looked up as this one. */
  predicate Lists(w: P.Workload, key: P.Key) {
    var v := Get(w.annotations, ListKey(key.kind));
    v != "" && LooksUp(Split(v, ','), |Split(v, ',')|, key.name)
  }

  /** After `Extract`, the hash annotations are those of the listed manifests in the table, and else as before. */
  lemma ExtractedExactly(h: P.Hasher, blank: string, table: map<string, Manifest>, w: P.Workload, key: P.Key)
    requires WellFiled(table)
    ensures Get(Extracted(h, blank, table, w).template, P.HashKey(key)) ==
      if FileId(key) in table && Lists(w, key)
      then HashOf(h, blank, key.kind, table[FileId(key)].body) else Get(w.template, P.HashKey(key))
  {
    var first := Hashed(h, blank, table, P.ConfigMap, w.annotations, w.template);
    var a, b := Split(Get(w.annotations, ListKey(P.ConfigMap)), ','), Split(Get(w.annotations, ListKey(P.Secret)), ',');
    HashedExactly(h, blank, table, P.ConfigMap, a, w.template, |a|, key);
    HashedExactly(h, blank, table, P.Secret, b, first, |b|, key);
  }

  // ------------------------------------------------------------ what the controllers do

  lemma MatchedIsListed(w: P.Workload, key: P.Key)
    requires P.Matches(w, key) && key.name != "" && ToLower(key.name) == key.name
    ensures Lists(w, key)
  {
    var names := Split(Get(w.annotations, ListKey(key.kind)), ',');
    assert key.name in names;
    var j :| 0 <= j < |names| && names[j] == key.name;
    assert ToLower(names[j]) == key.name;
  }

  /** A reload controller that visits a workload as `Extract` left it, for a listed object in the table with
      this data and a lower-case name, changes it exactly when `Extract` hashed something else.  So it leaves
      the workload alone for a ConfigMap with data, and for a Secret restarts its pods, unless the data has
      the hash of no data. */
  lemma ControllerChangesExactly(h: P.Hasher, blank: string, table: map<string, Manifest>, w: P.Workload, key: P.Key,
                                 data: map<string, string>)
    requires P.IsHasher(h) && WellFiled(table) && P.Matches(w, key) && key.name != "" && ToLower(key.name) == key.name
    requires FileId(key) in table && table[FileId(key)].body == Data(data)
    ensures var after := Extracted(h, blank, table, w);
      AnnotateChanges(after.template, P.HashKey(key), h(key.kind, data)) <==>
        if key.kind.Secret? then h(key.kind, data) != h(key.kind, map[])
        else data == map[] && h(key.kind, data) != blank
    ensures P.Matches(Extracted(h, blank, table, w), key)
  {
    MatchedIsListed(w, key);
    ExtractedExactly(h, blank, table, w, key);
    AnnotateEffect(Extracted(h, blank, table, w).template, P.HashKey(key), h(key.kind, data));
  }

  /** A listed name with an upper-case letter is looked up as another, so its own hash is not written. */
  lemma UpperCaseIsNotHashed(h: P.Hasher, blank: string, table: map<string, Manifest>, w: P.Workload, key: P.Key)
    requires WellFiled(table) && ToLower(key.name) != key.name
    ensures Get(Extracted(h, blank, table, w).template, P.HashKey(key)) == Get(w.template, P.HashKey(key))
  {
    ExtractedExactly(h, blank, table, w, key);
    if Lists(w, key) {
      var names := Split(Get(w.annotations, ListKey(key.kind)), ',');
      var j :| 0 <= j < |names| && ToLower(names[j]) == key.name;
      LowerIsLower(names[j]);
      assert false;
    }
  }

  lemma LowerIsLower(s: string)
    ensures ToLower(ToLower(s)) == ToLower(s)
  {
    assert forall i | 0 <= i < |s| :: ToLower(ToLower(s))[i] == ToLower(s)[i];
  }
}
