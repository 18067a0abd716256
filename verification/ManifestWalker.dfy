/**
 The manifest walker of pkg/kubepkg/manifest/extract.go.

 It descends through objects and lists, carrying its path in a slice whose backing array sibling
 paths share, and registers each outermost Kubernetes manifest under the text of its path.
 */
module ManifestWalker {
  import opened Wrappers
  import opened Json
  import opened ManifestPath
  import opened Tables

  predicate NonEmptyString(m: Fields, key: string) { key in m && m[key].Str? && m[key].s != "" }

  /** `isKubernetesManifest`. */
  predicate IsManifest(m: Fields) { NonEmptyString(m, "apiVersion") && NonEmptyString(m, "kind") }

  /** The chain of `ObjectProcess` functions; `None` is an error. */
  type Process = Json -> Option<Json>

  /** No unsupported value on the way, and no error in processing.  Null object members are
      skipped; null list items are not supported. */
  predicate Walkable(process: Process, v: Json)
    decreases v
  {
    match v
    case Obj(m) =>
      if IsManifest(m) then process(v).Some?
      else forall k | k in m :: m[k].Null? || Walkable(process, m[k])
    case Arr(items) => forall i | 0 <= i < |items| :: Walkable(process, items[i])
    case _ => false
  }

  /** The child a path element leads to. */
  function Child(v: Json, e: Elem): Option<Json> {
    match v
    case Obj(m) => if !IsManifest(m) && e.Key? && e.key in m && !m[e.key].Null? then Some(m[e.key]) else None
    case Arr(items) => if e.Index? && e.idx < |items| then Some(items[e.idx]) else None
    case _ => None
  }

  /** The processed manifest at a path, when one is there and none is on the way. */
  function ManifestAt(process: Process, v: Json, p: Path): Option<Json>
    decreases |p|
  {
    if p == [] then (if v.Obj? && IsManifest(v.fields) then process(v) else None)
    else
      var child := Child(v, p[0]);
      if child.None? then None else ManifestAt(process, child.value, p[1..])
  }

  /** Registered manifests are the outermost ones. */
  lemma {:induction false} Outermost(process: Process, v: Json, p: Path, q: Path)
    requires ManifestAt(process, v, p).Some? && ManifestAt(process, v, q).Some? && p <= q
    ensures p == q
    decreases |p|
  {
    if p == [] {
    } else {
      Outermost(process, Child(v, p[0]).value, p[1..], q[1..]);
    }
  }

  type Found = (Path, Json)

  ghost predicate IsFoundBelow(e: Found, base: Path, process: Process, v: Json) {
    base <= e.0 && ManifestAt(process, v, e.0[|base|..]) == Some(e.1)
  }

  ghost predicate IsReported(p: Path, found: seq<Found>, base: Path, process: Process, v: Json) {
    ManifestAt(process, v, p).Some? ==> (base + p, ManifestAt(process, v, p).value) in found
  }

  /** `found` lists once every manifest of `v`, with its path below `base`. */
  ghost predicate Reports(found: seq<Found>, base: Path, process: Process, v: Json) {
    (forall i {:trigger IsFoundBelow(found[i], base, process, v)} | 0 <= i < |found| ::
      IsFoundBelow(found[i], base, process, v)) &&
    (forall p {:trigger IsReported(p, found, base, process, v)} :: IsReported(p, found, base, process, v)) &&
    DistinctFirsts(found)
  }

  /** The children visited so far: some keys of an object, or the first items of a list. */
  datatype Scope = Keys(keys: set<string>) | Items(n: nat)

  predicate InScope(e: Elem, scope: Scope) {
    match scope
    case Keys(keys) => e.Key? && e.key in keys
    case Items(n) => e.Index? && e.idx < n
  }

  ghost predicate Widens(scope: Scope, e: Elem, wider: Scope) {
    forall x :: InScope(x, wider) <==> InScope(x, scope) || x == e
  }

  lemma WidenKeys(keys: set<string>, key: string)
    ensures Widens(Keys(keys), Key(key), Keys(keys + {key}))
  {
  }

  lemma WidenItems(n: nat)
    ensures Widens(Items(n), Index(n), Items(n + 1))
  {
  }

  /** The same for the manifests below the elements visited so far. */
  ghost predicate ReportsBelow(found: seq<Found>, base: Path, process: Process, v: Json, scope: Scope) {
    (forall i {:trigger IsFoundBelow(found[i], base, process, v)} | 0 <= i < |found| ::
      IsFoundBelow(found[i], base, process, v) && |found[i].0| > |base| && InScope(found[i].0[|base|], scope)) &&
    (forall p {:trigger IsReported(p, found, base, process, v)} | p != [] && InScope(p[0], scope) ::
      IsReported(p, found, base, process, v)) &&
    DistinctFirsts(found)
  }

  lemma DistinctConcat(a: seq<Found>, b: seq<Found>)
    requires DistinctFirsts(a) && DistinctFirsts(b)
    requires forall i, j | 0 <= i < |a| && 0 <= j < |b| :: a[i].0 != b[j].0
    ensures DistinctFirsts(a + b)
  {
  }

  lemma ReportsChild(first: seq<Found>, second: seq<Found>, base: Path, process: Process, v: Json,
                     scope: Scope, e: Elem, wider: Scope)
    requires ReportsBelow(first, base, process, v, scope) && !InScope(e, scope)
    requires Widens(scope, e, wider)
    requires if Child(v, e).Some? then Reports(second, base + [e], process, Child(v, e).value) else second == []
    ensures ReportsBelow(first + second, base, process, v, wider)
  {
    var all := first + second;
    forall i | 0 <= i < |all|
      ensures IsFoundBelow(all[i], base, process, v) && |all[i].0| > |base|
      ensures i < |first| ==> InScope(all[i].0[|base|], scope)
      ensures i >= |first| ==> all[i].0[|base|] == e
    {
      if i < |first| {
        assert IsFoundBelow(first[i], base, process, v);
      } else {
        assert IsFoundBelow(second[i - |first|], base + [e], process, Child(v, e).value);
        var full := all[i].0;
        assert full == (base + [e]) + full[|base| + 1..];
        assert full[|base|..][1..] == full[|base| + 1..];
      }
    }
    forall i, j | 0 <= i < |first| && 0 <= j < |second| ensures first[i].0 != second[j].0 {
      assert all[i] == first[i] && all[|first| + j] == second[j];
    }
    forall p | p != [] && InScope(p[0], wider) ensures IsReported(p, all, base, process, v) {
      if p[0] == e {
        if Child(v, e).Some? {
          assert IsReported(p[1..], second, base + [e], process, Child(v, e).value);
          assert (base + [e]) + p[1..] == base + p;
        }
      } else {
        assert IsReported(p, first, base, process, v);
      }
    }
    DistinctConcat(first, second);
  }

  /** Everything in scope is walkable and reported. */
  ghost predicate Progress(found: seq<Found>, base: Path, process: Process, v: Json, scope: Scope) {
    ReportsBelow(found, base, process, v, scope) &&
    forall e | InScope(e, scope) && Child(v, e).Some? :: Walkable(process, Child(v, e).value)
  }

  lemma ProgressStart(base: Path, process: Process, v: Json)
    ensures Progress([], base, process, v, Items(0)) && Progress([], base, process, v, Keys({}))
  {
  }

  lemma ProgressChild(first: seq<Found>, second: seq<Found>, base: Path, process: Process, v: Json,
                      scope: Scope, e: Elem, wider: Scope)
    requires Progress(first, base, process, v, scope) && !InScope(e, scope) && Widens(scope, e, wider)
    requires if Child(v, e).Some? then Reports(second, base + [e], process, Child(v, e).value) else second == []
    requires Child(v, e).Some? ==> Walkable(process, Child(v, e).value)
    ensures Progress(first + second, base, process, v, wider)
  {
    ReportsChild(first, second, base, process, v, scope, e, wider);
  }

  lemma UnwalkableChild(process: Process, v: Json, e: Elem)
    requires Child(v, e).Some? && !Walkable(process, Child(v, e).value)
    ensures !Walkable(process, v)
  {
  }

  /** With all children in scope the whole value is dealt with. */
  lemma ReportsAll(found: seq<Found>, base: Path, process: Process, v: Json, scope: Scope)
    requires Progress(found, base, process, v, scope)
    requires match v case Obj(m) => !IsManifest(m) && scope == Keys(m.Keys) case Arr(s) => scope == Items(|s|) case _ => false
    ensures Walkable(process, v) && Reports(found, base, process, v)
  {
    match v {
      case Obj(m) =>
        forall k | k in m ensures m[k].Null? || Walkable(process, m[k]) {
          if !m[k].Null? { assert InScope(Key(k), scope) && Child(v, Key(k)) == Some(m[k]); }
        }
      case Arr(s) =>
        forall i | 0 <= i < |s| ensures Walkable(process, s[i]) {
          assert InScope(Index(i), scope) && Child(v, Index(i)) == Some(s[i]);
        }
    }
    forall i | 0 <= i < |found| ensures IsFoundBelow(found[i], base, process, v) {
      assert IsFoundBelow(found[i], base, process, v);
    }
    forall p ensures IsReported(p, found, base, process, v) {
      if p != [] && Child(v, p[0]).Some? { assert InScope(p[0], scope); }
    }
  }

  lemma ReportsHere(base: Path, process: Process, v: Json)
    requires v.Obj? && IsManifest(v.fields) && process(v).Some?
    ensures Reports([(base, process(v).value)], base, process, v)
  {
    assert base[|base|..] == [] && base + [] == base;
    forall p ensures IsReported(p, [(base, process(v).value)], base, process, v) {}
  }

  // ------------------------------------------------------------------ class walker

  function TextOf(e: Found): string { FullText(e.0) }
  function FoundObject(e: Found): Json { e.1 }

  /** The table a list of registrations leaves behind. */
  function Table(log: seq<Found>): map<string, Json> { Upto(TextOf, FoundObject, log, |log|) }

  class Walker {
    var manifests: map<string, Json>
    /** every registration, in order */
    ghost var log: seq<Found>
    const process: Process

    /** The table is the one the log writes. */
    ghost predicate Valid()
      reads this
    {
      forall n {:trigger Upto(TextOf, FoundObject, log, n)} | n == |log| :: manifests == Upto(TextOf, FoundObject, log, n)
    }

    constructor (process: Process)
      ensures Valid() && log == [] && this.process == process
    {
      this.process, manifests, log := process, map[], [];
    }

    /** `walk`: everything below `v` is registered under its own path, although the path slices
        of siblings overwrite each other's last element; the caller's path is left alone. */
    method Walk(v: Json, p: Slice) returns (ok: bool, ghost found: seq<Found>)
      requires Valid() && ValidSlice(p)
      modifies this, p.arr
      ensures Valid() && Contents(p) == old(Contents(p))
      ensures ok == Walkable(process, v)
      ensures log == old(log) + found && (ok ==> Reports(found, old(Contents(p)), process, v))
      decreases v, 3
    {
      found := [];
      match v
      case Obj(m) => ok, found := WalkObj(v, p);
      case Arr(items) => ok, found := WalkList(v, p);
      case _ => ok := false;
    }

    method Register(path: Path, o: Json)
      requires Valid()
      modifies this
      ensures Valid() && log == old(log) + [(path, o)]
    {
      var text := Full(path);
      manifests := manifests[text := o];
      UptoOfPrefix(TextOf, FoundObject, log, [(path, o)], |log|);
      log := log + [(path, o)];
    }

    method WalkObj(v: Json, p: Slice) returns (ok: bool, ghost found: seq<Found>)
      requires v.Obj? && Valid() && ValidSlice(p)
      modifies this, p.arr
      ensures Valid() && Contents(p) == old(Contents(p))
      ensures ok == Walkable(process, v)
      ensures log == old(log) + found && (ok ==> Reports(found, old(Contents(p)), process, v))
      decreases v, 2
    {
      if IsManifest(v.fields) {
        var co := process(v);
        if co.None? { return false, []; }
        ReportsHere(Contents(p), process, v);
        Register(p.arr[..p.len], co.value);
        return true, [(Contents(p), co.value)];
      }
      ok, found := WalkMembers(v, p);
    }

    /** The loop over the members of an object. */
    method WalkMembers(v: Json, p: Slice) returns (ok: bool, ghost found: seq<Found>)
      requires v.Obj? && !IsManifest(v.fields) && Valid() && ValidSlice(p)
      modifies this, p.arr
      ensures Valid() && Contents(p) == old(Contents(p))
      ensures ok == Walkable(process, v)
      ensures log == old(log) + found && (ok ==> Reports(found, old(Contents(p)), process, v))
      decreases v, 1
    {
      found := [];
      ghost var base := Contents(p);
      ghost var done: set<string> := {};
      ProgressStart(base, process, v);
      var todo := v.fields.Keys;
      while todo != {}
        invariant todo <= v.fields.Keys && done == v.fields.Keys - todo
        invariant Valid() && Contents(p) == base && log == old(log) + found
        invariant Progress(found, base, process, v, Keys(done))
        decreases todo
      {
        var key :| key in todo;
        todo := todo - {key};
        ghost var below: seq<Found>;
        WidenKeys(done, key);
        ok, below := Descend(v, p, Key(key), if v.fields[key] == Null then None else Some(v.fields[key]),
          found, Keys(done), Keys(done + {key}));
        found, done := found + below, done + {key};
        if !ok { return; }
      }
      ReportsAll(found, base, process, v, Keys(done));
      ok := true;
    }

    method WalkList(v: Json, p: Slice) returns (ok: bool, ghost found: seq<Found>)
      requires v.Arr? && Valid() && ValidSlice(p)
      modifies this, p.arr
      ensures Valid() && Contents(p) == old(Contents(p))
      ensures ok == Walkable(process, v)
      ensures log == old(log) + found && (ok ==> Reports(found, old(Contents(p)), process, v))
      decreases v, 1
    {
      found := [];
      ok := true;
      ghost var base := Contents(p);
      ProgressStart(base, process, v);
      var idx := 0;
      while idx < |v.items|
        invariant 0 <= idx <= |v.items|
        invariant Valid() && Contents(p) == base && log == old(log) + found
        invariant Progress(found, base, process, v, Items(idx))
      {
        ghost var below: seq<Found>;
        WidenItems(idx);
        ok, below := Descend(v, p, Index(idx), Some(v.items[idx]), found, Items(idx), Items(idx + 1));
        found := found + below;
        if !ok { return; }
        idx := idx + 1;
      }
      ReportsAll(found, base, process, v, Items(idx));
    }

    /** One turn of either loop: append the element to the path and walk the child, unless it is
        skipped. */
    method Descend(v: Json, p: Slice, e: Elem, child: Option<Json>, ghost found: seq<Found>, ghost scope: Scope, ghost wider: Scope)
      returns (ok: bool, ghost below: seq<Found>)
      requires Valid() && ValidSlice(p) && child == Child(v, e) && (child.Some? ==> child.value < v)
      requires Progress(found, Contents(p), process, v, scope) && !InScope(e, scope) && Widens(scope, e, wider)
      modifies this, p.arr
      ensures Valid() && Contents(p) == old(Contents(p)) && log == old(log) + below
      ensures ok ==> Progress(found + below, old(Contents(p)), process, v, wider)
      ensures !ok ==> !Walkable(process, v)
      decreases v, 0
    {
      var nextP := Append(p, e);
      ok, below := true, [];
      if child.Some? {
        ok, below := Walk(child.value, nextP);
        assert Contents(p) == (if nextP.arr == p.arr then Contents(nextP)[..p.len] else Contents(p));
      }
      if ok { ProgressChild(found, below, old(Contents(p)), process, v, scope, e, wider); }
      else { UnwalkableChild(process, v, e); }
    }
  }

  // ------------------------------------------------------------------- nothing is lost

  predicate PlainPaths(log: seq<Found>) {
    forall i {:trigger PlainPath(log[i].0)} | 0 <= i < |log| :: PlainPath(log[i].0)
  }

  /** With plain keys, every registration keeps its own entry. */
  lemma NothingIsLost(log: seq<Found>)
    requires DistinctFirsts(log) && PlainPaths(log)
    ensures |Table(log)| == |log|
    ensures forall i | 0 <= i < |log| :: Holds(Table(log), FullText(log[i].0), log[i].1)
  {
    forall i, j | 0 <= i < j < |log| ensures TextOf(log[i]) != TextOf(log[j]) {
      assert PlainPath(log[i].0) && PlainPath(log[j].0);
      FullTextInjective(log[i].0, log[j].0);
    }
    NothingOverwritten(TextOf, FoundObject, log, |log|);
    forall i | 0 <= i < |log| ensures Holds(Table(log), FullText(log[i].0), log[i].1) {
      assert Holds(Table(log), TextOf(log[i]), FoundObject(log[i]));
    }
  }

  predicate PlainKeys(v: Json) {
    match v
    case Obj(m) => forall k | k in m :: PlainPath([Key(k)]) && PlainKeys(m[k])
    case Arr(items) => forall i | 0 <= i < |items| :: PlainKeys(items[i])
    case _ => true
  }

  lemma {:induction false} FoundPathsArePlain(process: Process, v: Json, p: Path)
    requires PlainKeys(v) && ManifestAt(process, v, p).Some?
    ensures PlainPath(p)
    decreases |p|
  {
    if p == [] {
    } else {
      FoundPathsArePlain(process, Child(v, p[0]).value, p[1..]);
      if p[0].Key? { assert [Key(p[0].key)][0].key == p[0].key; }
      assert p == [p[0]] + p[1..];
    }
  }

  /** `ExtractWith`: `None` is the error.  When every key is plain, the result has one entry for
      each outermost manifest, under the text of its path, and no other. */
  method ExtractWith(v: Json, process: Process) returns (r: Option<map<string, Json>>)
    ensures r.Some? <==> Walkable(process, v)
    ensures r.Some? && PlainKeys(v) ==> forall p | ManifestAt(process, v, p).Some? ::
      FullText(p) in r.value && Some(r.value[FullText(p)]) == ManifestAt(process, v, p)
    ensures r.Some? ==> forall text | text in r.value ::
      exists p: Path :: FullText(p) == text && ManifestAt(process, v, p).Some?
  {
    var w := new Walker(process);
    var nil := new Elem[0];
    var ok;
    ghost var found: seq<Found>;
    ok, found := w.Walk(v, Slice(nil, 0));
    if !ok { return None; }
    r := Some(w.manifests);
    assert w.log == found && w.manifests == Upto(TextOf, FoundObject, found, |found|) == Table(found);
    TableIsExact(process, v, found);
  }

  lemma TableIsExact(process: Process, v: Json, found: seq<Found>)
    requires Reports(found, [], process, v)
    ensures PlainKeys(v) ==> forall p | ManifestAt(process, v, p).Some? ::
      FullText(p) in Table(found) && Some(Table(found)[FullText(p)]) == ManifestAt(process, v, p)
    ensures forall text | text in Table(found) ::
      exists p: Path :: FullText(p) == text && ManifestAt(process, v, p).Some?
  {
    var root: Path := [];
    forall i | 0 <= i < |found| ensures ManifestAt(process, v, found[i].0) == Some(found[i].1) {
      assert IsFoundBelow(found[i], root, process, v);
      assert found[i].0[|root|..] == found[i].0;
    }
    forall text | text in Table(found)
      ensures exists p: Path :: FullText(p) == text && ManifestAt(process, v, p).Some?
    {
      var i := LastWriter(TextOf, FoundObject, found, |found|, text);
      assert FullText(found[i].0) == text;
    }
    if PlainKeys(v) {
      forall i | 0 <= i < |found| ensures PlainPath(found[i].0) { FoundPathsArePlain(process, v, found[i].0); }
      NothingIsLost(found);
      forall p | ManifestAt(process, v, p).Some?
        ensures FullText(p) in Table(found) && Some(Table(found)[FullText(p)]) == ManifestAt(process, v, p)
      {
        assert IsReported(p, found, root, process, v) && root + p == p;
        var i :| 0 <= i < |found| && found[i] == (p, ManifestAt(process, v, p).value);
      }
    }
  }

  // ------------------------------------------------------------------ path by path

  /** The value at a path, whatever is on the way. */
  function ValueAt(v: Json, p: Path): Option<Json>
    decreases |p|
  {
    if p == [] then Some(v)
    else
      match p[0]
      case Key(k) => if v.Obj? && k in v.fields then ValueAt(v.fields[k], p[1..]) else None
      case Index(i) => if v.Arr? && i < |v.items| then ValueAt(v.items[i], p[1..]) else None
  }

  /** An object that says its API version and its kind. */
  predicate IsKubernetes(v: Option<Json>) {
    v.Some? && v.value.Obj? &&
    var m := v.value.fields;
    "apiVersion" in m && m["apiVersion"].Str? && m["apiVersion"].s != "" &&
    "kind" in m && m["kind"].Str? && m["kind"].s != ""
  }

  /** No object on the way to the path is a manifest. */
  ghost predicate IsOutside(v: Json, p: Path) { forall n | 0 <= n < |p| :: !IsKubernetes(ValueAt(v, p[..n])) }

  lemma FirstStep(v: Json, p: Path)
    requires p != []
    ensures ValueAt(v, p) == if ValueAt(v, p[..1]).Some? then ValueAt(ValueAt(v, p[..1]).value, p[1..]) else None
  {
    var one := p[..1];
    assert one[0] == p[0] && one[1..] == [];
    match p[0]
    case Key(k) =>
      if v.Obj? && k in v.fields { assert ValueAt(v, one) == ValueAt(v.fields[k], one[1..]); }
    case Index(i) =>
      if v.Arr? && i < |v.items| { assert ValueAt(v, one) == ValueAt(v.items[i], one[1..]); }
  }

  lemma OutsideBelow(v: Json, p: Path)
    requires p != [] && ValueAt(v, p).Some?
    ensures ValueAt(v, p[..1]).Some? && ValueAt(v, p) == ValueAt(ValueAt(v, p[..1]).value, p[1..])
    ensures IsOutside(v, p) <==> !IsKubernetes(Some(v)) && IsOutside(ValueAt(v, p[..1]).value, p[1..])
  {
    FirstStep(v, p);
    assert p[..0] == [];
    var c, q := ValueAt(v, p[..1]).value, p[1..];
    forall n | 0 <= n < |q| ensures ValueAt(v, p[..n + 1]) == ValueAt(c, q[..n]) {
      assert p[..n + 1][1..] == q[..n] && p[..n + 1][..1] == p[..1];
      FirstStep(v, p[..n + 1]);
    }
    if IsOutside(v, p) {
      assert !IsKubernetes(ValueAt(v, p[..0]));
      forall n | 0 <= n < |q| ensures !IsKubernetes(ValueAt(c, q[..n])) {
        assert !IsKubernetes(ValueAt(v, p[..n + 1]));
      }
    }
    if !IsKubernetes(Some(v)) && IsOutside(c, q) {
      forall n | 0 <= n < |p| ensures !IsKubernetes(ValueAt(v, p[..n])) {
        if n > 0 { assert !IsKubernetes(ValueAt(c, q[..n - 1])); }
      }
    }
  }

  /** What is registered: the processed object at every path, if it says its API version and kind and none
      on the way to it does. */
  lemma {:induction false} ManifestAtMeaning(process: Process, v: Json, p: Path)
    ensures ManifestAt(process, v, p) ==
      if IsKubernetes(ValueAt(v, p)) && IsOutside(v, p) then process(ValueAt(v, p).value) else None
    decreases |p|
  {
    if p != [] {
      if ValueAt(v, p).Some? {
        OutsideBelow(v, p);
        assert p[..1][0] == p[0] && p[..1][1..] == [];
        if Child(v, p[0]).Some? { ManifestAtMeaning(process, Child(v, p[0]).value, p[1..]); }
      } else if Child(v, p[0]).Some? {
        ManifestAtMeaning(process, Child(v, p[0]).value, p[1..]);
      }
    }
  }

  /** A manifest that is processed without error, an object, a list, or a null member of an object. */
  predicate IsSupported(process: Process, v: Json, p: Path) {
    match ValueAt(v, p)
    case None => true
    case Some(x) =>
      if IsKubernetes(Some(x)) then process(x).Some?
      else x.Obj? || x.Arr? || (x.Null? && p != [] && p[|p| - 1].Key?)
  }

  /** A document can be walked exactly when all that it has outside of manifests is supported. */
  lemma WalkableMeaning(process: Process, v: Json)
    ensures Walkable(process, v) <==> forall p | IsOutside(v, p) :: IsSupported(process, v, p)
  {
    if Walkable(process, v) {
      forall p | IsOutside(v, p) ensures IsSupported(process, v, p) { WalkableIsSupported(process, v, p); }
    } else {
      var p := UnsupportedIn(process, v);
    }
  }

  lemma {:induction false} WalkableIsSupported(process: Process, v: Json, p: Path)
    requires Walkable(process, v) && IsOutside(v, p)
    ensures IsSupported(process, v, p)
    decreases |p|
  {
    if p != [] && ValueAt(v, p).Some? {
      OutsideBelow(v, p);
      assert p[..1][1..] == [];
      var c := ValueAt(v, p[..1]).value;
      if c.Null? {
        assert |p| == 1;
      } else {
        WalkableIsSupported(process, c, p[1..]);
      }
    }
  }

  lemma {:induction false} UnsupportedIn(process: Process, v: Json) returns (p: Path)
    requires !Walkable(process, v)
    ensures IsOutside(v, p) && !IsSupported(process, v, p)
    decreases v
  {
    p := [];
    match v
    case Obj(m) =>
      if !IsManifest(m) {
        var k :| k in m && !m[k].Null? && !Walkable(process, m[k]);
        var q := UnsupportedIn(process, m[k]);
        p := UnsupportedBelow(process, v, Key(k), q);
      }
    case Arr(items) =>
      var i :| 0 <= i < |items| && !Walkable(process, items[i]);
      var q := UnsupportedIn(process, items[i]);
      p := UnsupportedBelow(process, v, Index(i), q);
    case _ =>
  }

  lemma UnsupportedBelow(process: Process, v: Json, e: Elem, q: Path) returns (p: Path)
    requires ValueAt(v, [e]).Some? && !IsKubernetes(Some(v))
    requires IsOutside(ValueAt(v, [e]).value, q) && !IsSupported(process, ValueAt(v, [e]).value, q)
    requires e.Key? ==> !ValueAt(v, [e]).value.Null?
    ensures IsOutside(v, p) && !IsSupported(process, v, p)
  {
    p := [e] + q;
    assert p[..1] == [e] && p[1..] == q && [e][1..] == [];
    OutsideBelow(v, p);
    assert q != [] ==> p[|p| - 1] == q[|q| - 1];
  }
}
