/**
 The structural diff of nodepkg/codemirror/src/json/JSONDiff.ts (class `JSONDiff`).

 An absent value (`undefined`) is `None`; `for (const p in o)` visits the own keys in any order.
 `MarkAt` says which mark, if any, a path receives; the class is proved against it.
 */
module JsonDiff {
  import opened Wrappers
  import opened Json
  import opened JsonPointer
  import opened KubeUtil
  import opened Tables

  /** The entries `["m", right, left]`, `["d", undefined, left]` and `["a", right, undefined]`. */
  datatype Mark = Modified(right: Json, left: Json) | Deleted(left: Json) | Added(right: Json)

  type Edit = (Path, Mark)

  predicate BothObjects(r: Json, l: Option<Json>) { r.Obj? && l.Some? && l.value.Obj? }

  /** The mark a comparison of `r` with `l` leaves at path `p` below them. */
  function MarkAt(r: Json, l: Option<Json>, p: Path): Option<Mark>
    decreases |p|
  {
    if BothObjects(r, l) then
      if p == [] then None
      else if p[0] in r.fields then
        MarkAt(r.fields[p[0]], Field(l.value.fields, p[0]), p[1..])
      else if |p| == 1 && p[0] in l.value.fields then Some(Deleted(l.value.fields[p[0]]))
      else None
    else if p != [] then None
    else if l.None? then Some(Added(r))
    else if l.value != r then Some(Modified(r, l.value))
    else None
  }

  // ------------------------------------------------------------ what marks mean

  /** A path is marked exactly when both documents have objects all the way to it, and there
      they differ without both being objects; "a" is absence in the old one, "d" in the new one. */
  lemma {:induction false} MarkMeaning(r: Json, l: Option<Json>, p: Path)
    ensures var x, y := Lookup(Some(r), p), Lookup(l, p);
      MarkAt(r, l, p) ==
        if !SharedParents(Some(r), l, p) || x == y || (IsObject(x) && IsObject(y)) then None
        else if y.None? then Some(Added(x.value))
        else if x.None? then Some(Deleted(y.value))
        else Some(Modified(x.value, y.value))
    decreases |p|
  {
    if p != [] {
      SharedParentsBelow(Some(r), l, p);
      if BothObjects(r, l) {
        if p[0] in r.fields {
          MarkMeaning(r.fields[p[0]], Field(l.value.fields, p[0]), p[1..]);
        } else if |p| > 1 {
          assert p[1..][..0] == [];
          assert !IsObject(Lookup(Field(r.fields, p[0]), p[1..][..0]));
        }
      }
    }
  }

  lemma {:induction false} MarksArePrefixFree(r: Json, l: Option<Json>, p: Path, q: Path)
    requires MarkAt(r, l, p).Some? && MarkAt(r, l, q).Some? && p <= q
    ensures p == q
    decreases |p|
  {
    if p != [] && p[0] in r.fields {
      MarksArePrefixFree(r.fields[p[0]], Field(l.value.fields, p[0]), p[1..], q[1..]);
    }
  }

  lemma {:induction false} EqualHasNoMark(r: Json, p: Path)
    ensures MarkAt(r, Some(r), p) == None
    decreases |p|
  {
    if p != [] && r.Obj? && p[0] in r.fields { EqualHasNoMark(r.fields[p[0]], p[1..]); }
  }

  lemma {:induction false} DifferenceIsMarked(r: Json, l: Option<Json>) returns (p: Path)
    requires l != Some(r)
    ensures MarkAt(r, l, p).Some?
    decreases r
  {
    p := [];
    if BothObjects(r, l) {
      var m, n := l.value.fields, r.fields;
      if k :| k in r.fields && Field(m, k) != Some(r.fields[k]) {
        p := DifferenceIsMarked(r.fields[k], Field(m, k));
        assert ([k] + p)[1..] == p;
        p := [k] + p;
      } else {
        assert forall k | k in r.fields :: Field(m, k) == Some(r.fields[k]);
        assert m.Keys <= n.Keys ==> m == n;
        var k :| k in m && k !in r.fields;
        p := [k];
      }
    }
  }

  /** Nothing is marked exactly when the two documents are equal. */
  lemma UnmarkedMeansEqual(r: Json, l: Option<Json>)
    ensures (forall p :: MarkAt(r, l, p).None?) <==> l == Some(r)
  {
    if l == Some(r) {
      forall p ensures MarkAt(r, l, p).None? { EqualHasNoMark(r, p); }
    } else {
      var p := DifferenceIsMarked(r, l);
    }
  }

  // --------------------------------------------------------------- replaying marks

  /** Carry out one mark on a document. */
  function Apply(doc: Option<Json>, p: Path, m: Mark): Option<Json>
    decreases |p|
  {
    if p == [] then (if m.Deleted? then None else Some(m.right))
    else if doc.Some? && doc.value.Obj? then
      var fields := doc.value.fields;
      var sub := Apply(Field(fields, p[0]), p[1..], m);
      Some(Obj(if sub.Some? then fields[p[0] := sub.value] else fields - {p[0]}))
    else doc
  }

  function ApplyAll(doc: Option<Json>, edits: seq<Edit>): Option<Json>
    decreases |edits|
  {
    if edits == [] then doc else ApplyAll(Apply(doc, edits[0].0, edits[0].1), edits[1..])
  }

  /** Carrying out a mark removes it and disturbs no other. */
  lemma {:induction false} ApplyRemovesOneMark(r: Json, l: Option<Json>, p: Path, q: Path)
    requires MarkAt(r, l, p).Some?
    ensures MarkAt(r, Apply(l, p, MarkAt(r, l, p).value), q) == if q == p then None else MarkAt(r, l, q)
    decreases |p|
  {
    var m := MarkAt(r, l, p).value;
    var after := Apply(l, p, m);
    if p == [] {
      EqualHasNoMark(r, q);
    } else if q != [] {
      var k, fields := p[0], l.value.fields;
      assert after.value.Obj? && forall j | j != k :: Field(after.value.fields, j) == Field(fields, j);
      if k in r.fields && q[0] == k {
        ApplyRemovesOneMark(r.fields[k], Field(fields, k), p[1..], q[1..]);
        assert q == p <==> q[1..] == p[1..];
        assert after == Some(Obj(
          var sub := Apply(Field(fields, k), p[1..], m);
          if sub.Some? then fields[k := sub.value] else fields - {k}));
      }
    }
  }

  /** `edits` lists every mark once, in any order. */
  ghost predicate ListsAllMarks(edits: seq<Edit>, r: Json, l: Option<Json>) {
    (forall i | 0 <= i < |edits| :: MarkAt(r, l, edits[i].0) == Some(edits[i].1)) &&
    (forall p | MarkAt(r, l, p).Some? :: (p, MarkAt(r, l, p).value) in edits) &&
    (forall i, j | 0 <= i < j < |edits| :: edits[i].0 != edits[j].0)
  }

  /** Carrying out the marks on the old document, in whatever order, gives the new one. */
  lemma {:induction false} MarksLeadToNew(r: Json, l: Option<Json>, edits: seq<Edit>)
    requires ListsAllMarks(edits, r, l)
    ensures ApplyAll(l, edits) == Some(r)
    decreases |edits|
  {
    if edits == [] {
      assert forall e: Edit :: e !in edits;
      UnmarkedMeansEqual(r, l);
    } else {
      var p, m, rest := edits[0].0, edits[0].1, edits[1..];
      var next := Apply(l, p, m);
      forall q ensures MarkAt(r, next, q) == if q == p then None else MarkAt(r, l, q) {
        ApplyRemovesOneMark(r, l, p, q);
      }
      MarksLeadToNew(r, next, rest);
    }
  }

  // ----------------------------------------------------------------- class JSONDiff

  /** A path relative to `base` whose first key is in `scope`, when a scope is given. */
  predicate InScope(p: Path, scope: Option<set<string>>) {
    scope.Some? ==> p != [] && p[0] in scope.value
  }

  ghost predicate IsMarkBelow(e: Edit, base: Path, r: Json, l: Option<Json>, scope: Option<set<string>>) {
    base <= e.0 && InScope(e.0[|base|..], scope) && MarkAt(r, l, e.0[|base|..]) == Some(e.1)
  }

  ghost predicate IsListed(p: Path, edits: seq<Edit>, base: Path, r: Json, l: Option<Json>) {
    MarkAt(r, l, p).Some? ==> (base + p, MarkAt(r, l, p).value) in edits
  }

  /** `edits` lists once, below `base`, every mark in scope. */
  ghost predicate Lists(edits: seq<Edit>, base: Path, r: Json, l: Option<Json>, scope: Option<set<string>>) {
    (forall i {:trigger IsMarkBelow(edits[i], base, r, l, scope)} | 0 <= i < |edits| ::
      IsMarkBelow(edits[i], base, r, l, scope)) &&
    (forall p {:trigger IsListed(p, edits, base, r, l)} | InScope(p, scope) :: IsListed(p, edits, base, r, l)) &&
    DistinctFirsts(edits)
  }

  lemma ListsBelowKey(first: seq<Edit>, second: seq<Edit>, base: Path, r: Json, l: Option<Json>,
                      scope: set<string>, k: string)
    requires BothObjects(r, l) && k !in scope && k in r.fields
    requires Lists(first, base, r, l, Some(scope))
    requires Lists(second, base + [k], r.fields[k], Field(l.value.fields, k), None)
    ensures Lists(first + second, base, r, l, Some(scope + {k}))
  {
    var all, wider := first + second, Some(scope + {k});
    var rk, lk := r.fields[k], Field(l.value.fields, k);
    forall i | 0 <= i < |all|
      ensures IsMarkBelow(all[i], base, r, l, wider)
      ensures i >= |first| <==> all[i].0[|base|..][0] == k
    {
      if i < |first| {
        assert IsMarkBelow(first[i], base, r, l, Some(scope));
      } else {
        assert IsMarkBelow(second[i - |first|], base + [k], rk, lk, None);
        var full := all[i].0;
        assert full == (base + [k]) + full[|base| + 1..];
        assert full[|base|..][1..] == full[|base| + 1..];
      }
    }
    forall p | InScope(p, wider) ensures IsListed(p, all, base, r, l) {
      if p[0] == k {
        assert IsListed(p[1..], second, base + [k], rk, lk);
        assert (base + [k]) + p[1..] == base + p;
      } else {
        assert IsListed(p, first, base, r, l);
      }
    }
  }

  lemma ListsDeletedKey(first: seq<Edit>, base: Path, r: Json, l: Option<Json>, scope: set<string>, k: string)
    requires BothObjects(r, l) && k !in scope && k in l.value.fields && k !in r.fields
    requires Lists(first, base, r, l, Some(scope))
    ensures Lists(first + [(base + [k], Deleted(l.value.fields[k]))], base, r, l, Some(scope + {k}))
  {
    var edit: Edit := (base + [k], Deleted(l.value.fields[k]));
    var all, wider := first + [edit], Some(scope + {k});
    assert edit.0[|base|..] == [k];
    forall i | 0 <= i < |all|
      ensures IsMarkBelow(all[i], base, r, l, wider)
      ensures i == |first| <==> all[i].0[|base|..][0] == k
    {
      if i < |first| { assert IsMarkBelow(first[i], base, r, l, Some(scope)); }
    }
    forall p | InScope(p, wider) ensures IsListed(p, all, base, r, l) {
      if p[0] == k {
        assert all[|first|] == edit;
        assert |p| == 1 ==> p == [k];
      } else {
        assert IsListed(p, first, base, r, l);
      }
    }
  }

  lemma ListsWhole(edits: seq<Edit>, base: Path, r: Json, l: Option<Json>, scope: set<string>)
    requires BothObjects(r, l) && scope == r.fields.Keys + l.value.fields.Keys
    requires Lists(edits, base, r, l, Some(scope))
    ensures Lists(edits, base, r, l, None)
  {
    forall i | 0 <= i < |edits| ensures IsMarkBelow(edits[i], base, r, l, None) {
      assert IsMarkBelow(edits[i], base, r, l, Some(scope));
    }
    forall p ensures IsListed(p, edits, base, r, l) {
      if p != [] && p[0] in scope {
        assert InScope(p, Some(scope));
      }
    }
  }

  lemma ListsHere(base: Path, r: Json, l: Option<Json>, edits: seq<Edit>)
    requires !BothObjects(r, l)
    requires edits == if MarkAt(r, l, []).Some? then [(base, MarkAt(r, l, []).value)] else []
    ensures Lists(edits, base, r, l, None)
  {
    assert base[|base|..] == [] && base + [] == base;
    forall p: Path ensures IsListed(p, edits, base, r, l) {}
  }

  function PointerOf(e: Edit): string { Compile(e.0) }
  function MarkOf(e: Edit): Mark { e.1 }

  /** The map a list of `mark` calls leaves behind. */
  function Written(log: seq<Edit>): map<string, Mark> { Upto(PointerOf, MarkOf, log, |log|) }

  /** With distinct paths no call overwrites another, since pointers are injective. */
  lemma NothingOverwritten(log: seq<Edit>)
    requires DistinctFirsts(log)
    ensures |Written(log)| == |log|
    ensures forall i | 0 <= i < |log| :: Holds(Written(log), Compile(log[i].0), log[i].1)
  {
    forall i, j | 0 <= i < j < |log| ensures PointerOf(log[i]) != PointerOf(log[j]) {
      CompileInjective(log[i].0, log[j].0);
    }
    Tables.NothingOverwritten(PointerOf, MarkOf, log, |log|);
    forall i | 0 <= i < |log| ensures Holds(Written(log), Compile(log[i].0), log[i].1) {
      assert Holds(Written(log), PointerOf(log[i]), MarkOf(log[i]));
    }
  }

  class JSONDiff {
    var ret: map<string, Mark>
    /** every call of `mark`, in order */
    ghost var log: seq<Edit>

    /** The map is the one the log writes. */
    ghost predicate Valid()
      reads this
    {
      forall n {:trigger Upto(PointerOf, MarkOf, log, n)} | n == |log| :: ret == Upto(PointerOf, MarkOf, log, n)
    }

    constructor ()
      ensures Valid() && ret == map[] && log == []
    {
      ret, log := map[], [];
    }

    method Mark(path: Path, m: Mark)
      requires Valid()
      modifies this
      ensures Valid()
      ensures ret == old(ret)[Compile(path) := m]
      ensures log == old(log) + [(path, m)]
    {
      ret := ret[Compile(path) := m];
      UptoOfPrefix(PointerOf, MarkOf, log, [(path, m)], |log|);
      log := log + [(path, m)];
    }

    /** The calls of `mark` made by one comparison list its marks, each once. */
    method Diff(r: Json, l: Option<Json>, path: Path) returns (ghost made: seq<Edit>)
      requires Valid()
      modifies this
      ensures Valid() && log == old(log) + made && Lists(made, path, r, l, None)
      decreases r
    {
      made := [];
      if BothObjects(r, l) {
        var visited: set<string> := {};
        var todo := r.fields.Keys;
        while todo != {}
          invariant todo <= r.fields.Keys && visited == r.fields.Keys - todo
          invariant Valid() && log == old(log) + made && Lists(made, path, r, l, Some(visited))
          decreases todo
        {
          var p :| p in todo;
          ghost var below := Diff(r.fields[p], Field(l.value.fields, p), path + [p]);
          ListsBelowKey(made, below, path, r, l, visited, p);
          made := made + below;
          todo, visited := todo - {p}, visited + {p};
        }
        todo := l.value.fields.Keys;
        ghost var done := visited;
        while todo != {}
          invariant todo <= l.value.fields.Keys
          invariant done == visited + (l.value.fields.Keys - todo)
          invariant Valid() && log == old(log) + made && Lists(made, path, r, l, Some(done))
          decreases todo
        {
          var p :| p in todo;
          if p !in visited {
            ListsDeletedKey(made, path, r, l, done, p);
            Mark(path + [p], Deleted(l.value.fields[p]));
            made := made + [(path + [p], Deleted(l.value.fields[p]))];
            done := done + {p};
          }
          todo := todo - {p};
        }
        ListsWhole(made, path, r, l, done);
        return;
      }
      if l.None? {
        Mark(path, Added(r));
        made := [(path, Added(r))];
      } else if l.value != r {
        Mark(path, Modified(r, l.value));
        made := [(path, Modified(r, l.value))];
      }
      ListsHere(path, r, l, made);
    }
  }

  /** `ret` maps the pointer of each marked path, and nothing else, to its mark. */
  ghost predicate IsDiff(ret: map<string, Mark>, r: Json, l: Option<Json>) {
    (forall s | s in ret ::
      ValidPointer(s) && Parse(s).Some? && MarkAt(r, l, Parse(s).value) == Some(ret[s])) &&
    (forall p {:trigger Compile(p)} | MarkAt(r, l, p).Some? :: Compile(p) in ret)
  }

  method Diff(newValue: Json, oldValue: Option<Json>) returns (ret: map<string, Mark>)
    ensures IsDiff(ret, newValue, oldValue)
  {
    var d := new JSONDiff();
    ghost var edits := d.Diff(newValue, oldValue, []);
    ret := d.ret;
    assert edits == d.log && ret == Upto(PointerOf, MarkOf, edits, |edits|) == Written(edits);
    ListedMarksAreTheDiff(edits, newValue, oldValue);
  }

  lemma ListedMarksAreTheDiff(edits: seq<Edit>, r: Json, l: Option<Json>)
    requires Lists(edits, [], r, l, None)
    ensures IsDiff(Written(edits), r, l)
  {
    var root: Path := [];
    var ret := Written(edits);
    NothingOverwritten(edits);
    forall s | s in ret
      ensures ValidPointer(s) && Parse(s).Some? && MarkAt(r, l, Parse(s).value) == Some(ret[s])
    {
      var i := LastWriter(PointerOf, MarkOf, edits, |edits|, s);
      assert IsMarkBelow(edits[i], root, r, l, None);
      ParseOfCompile(edits[i].0);
      CompileOfParse(s);
      assert edits[i].0[|root|..] == edits[i].0;
    }
    forall p | MarkAt(r, l, p).Some? ensures Compile(p) in ret {
      assert root + p == p && IsListed(p, edits, root, r, l);
      assert (p, MarkAt(r, l, p).value) in edits;
    }
  }

  /** The entries of `ret` under the given keys, with their pointers parsed. */
  function Decoded(ret: map<string, Mark>, keys: seq<string>): seq<Edit>
    requires forall i | 0 <= i < |keys| :: keys[i] in ret && Parse(keys[i]).Some?
  {
    seq(|keys|, i requires 0 <= i < |keys| => (Parse(keys[i]).value, ret[keys[i]]))
  }

  /** Reading back the stored pointers and carrying out their marks on the old document, in any
      order, yields the new one. */
  lemma StoredDiffLeadsToNew(ret: map<string, Mark>, r: Json, l: Option<Json>, keys: seq<string>)
    requires IsDiff(ret, r, l)
    requires forall s :: s in keys <==> s in ret
    requires NoRepeats(keys)
    ensures ApplyAll(l, Decoded(ret, keys)) == Some(r)
  {
    var edits := Decoded(ret, keys);
    forall p | MarkAt(r, l, p).Some? ensures (p, MarkAt(r, l, p).value) in edits {
      assert Compile(p) in keys;
      var i :| 0 <= i < |keys| && keys[i] == Compile(p);
      ParseOfCompile(p);
      assert edits[i] == (p, MarkAt(r, l, p).value);
    }
    forall i, j | 0 <= i < j < |edits| ensures edits[i].0 != edits[j].0 {
      CompileOfParse(keys[i]);
      CompileOfParse(keys[j]);
    }
    MarksLeadToNew(r, l, edits);
  }

  /** The stored diff is empty exactly when the documents are equal. */
  lemma EmptyDiffMeansEqual(ret: map<string, Mark>, r: Json, l: Option<Json>)
    requires IsDiff(ret, r, l)
    ensures ret == map[] <==> l == Some(r)
  {
    if l != Some(r) {
      var p := DifferenceIsMarked(r, l);
      assert Compile(p) in ret;
    } else if s :| s in ret {
      EqualHasNoMark(r, Parse(s).value);
      assert false;
    }
  }
}
