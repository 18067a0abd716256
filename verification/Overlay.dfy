/**
 The JSON overlay algebra of pkg/util/obj.go: `MergeObj` lays a patch over an
 object, `DiffObj` computes the patch that leads from one object to another.

 A nil Go map is `None`.  Go visits map keys in no particular order, so the loops
 below take any remaining key at each turn.
 */
module Overlay {
  import opened Wrappers
  import opened Json

  // ---------------------------------------------------------------- equality

  /** `equal`, as written: in the object case the second assertion is made on `left`
      again, so an object is compared with itself and `right` is never looked at. */
  predicate GoEqual(left: Json, right: Json)
    decreases left
  {
    match left
    case Arr(ls) =>
      right.Arr? && |ls| == |right.items| &&
      forall i | 0 <= i < |ls| :: GoEqual(ls[i], right.items[i])
    case Obj(m) => forall k | k in m :: GoEqual(m[k], m[k])
    case _ => left == right
  }

  /** Two documents agree wherever the first one is not an object. */
  predicate AgreeOutsideObjects(a: Json, b: Json)
    decreases a
  {
    a.Obj? || a == b ||
    (a.Arr? && b.Arr? && |a.items| == |b.items| &&
     forall i | 0 <= i < |a.items| :: AgreeOutsideObjects(a.items[i], b.items[i]))
  }

  lemma {:induction false} GoEqualReflexive(a: Json)
    ensures GoEqual(a, a)
    decreases a
  {
    match a
    case Arr(s) => forall i | 0 <= i < |s| { GoEqualReflexive(s[i]); }
    case Obj(m) => forall k | k in m { GoEqualReflexive(m[k]); }
    case _ =>
  }

  /** What `equal` decides: an object on the left matches anything at all. */
  lemma {:induction false} GoEqualMeaning(a: Json, b: Json)
    ensures GoEqual(a, b) <==> AgreeOutsideObjects(a, b)
    decreases a
  {
    if a == b { GoEqualReflexive(a); }
    match a
    case Arr(s) =>
      if b.Arr? && |s| == |b.items| {
        forall i | 0 <= i < |s| { GoEqualMeaning(s[i], b.items[i]); }
      }
    case Obj(m) => GoEqualReflexive(a);
    case _ =>
  }

  predicate ObjectFree(a: Json) {
    match a
    case Obj(_) => false
    case Arr(s) => forall i | 0 <= i < |s| :: ObjectFree(s[i])
    case _ => true
  }

  /** On a left operand without objects `equal` is structural equality. */
  lemma {:induction false} GoEqualObjectFree(a: Json, b: Json)
    requires ObjectFree(a)
    ensures GoEqual(a, b) <==> a == b
    decreases a
  {
    match a
    case Arr(s) =>
      if b.Arr? && |s| == |b.items| {
        forall i | 0 <= i < |s| { GoEqualObjectFree(s[i], b.items[i]); }
        assert GoEqual(a, b) ==> s == b.items;
      }
    case _ =>
  }

  // ------------------------------------------------------------------- merge

  function MergeValue(cur: Json, patch: Json): Json
    decreases patch
  {
    if cur.Obj? && patch.Obj? then
      Obj(map k | k in cur.fields.Keys + patch.fields.Keys ::
        if k !in patch.fields then cur.fields[k]
        else if k !in cur.fields then patch.fields[k]
        else MergeValue(cur.fields[k], patch.fields[k]))
    else if patch.Null? then cur
    else patch
  }

  /** The object `MergeObj` returns for two non-nil maps. */
  function Merged(from: Fields, patch: Fields): Fields {
    MergeValue(Obj(from), Obj(patch)).fields
  }

  function OrEmpty(m: Option<Fields>): Fields {
    if m.Some? then m.value else map[]
  }

  /** `MergeObj`: a nil patch returns `from` as it is, a nil `from` counts as empty. */
  function MergeSpec(from: Option<Fields>, patch: Option<Fields>): Option<Fields> {
    if patch.None? then from else Some(Merged(OrEmpty(from), patch.value))
  }

  method MergeObj(from: Option<Fields>, patch: Option<Fields>) returns (r: Option<Fields>)
    ensures r == MergeSpec(from, patch)
    decreases if patch.Some? then Obj(patch.value) else Null
  {
    if patch.None? { return from; }
    var src, p := OrEmpty(from), patch.value;
    ghost var want := Merged(src, p);
    var mergedKeys: set<string> := {};
    var merged: Fields := map[];
    var todo := src.Keys;
    while todo != {}
      invariant todo <= src.Keys && mergedKeys == src.Keys - todo
      invariant merged.Keys == mergedKeys
      invariant forall k | k in merged :: merged[k] == want[k]
      decreases todo
    {
      var key :| key in todo;
      todo, mergedKeys := todo - {key}, mergedKeys + {key};
      var value := src[key];
      if key in p {
        assert want[key] == MergeValue(src[key], p[key]);
        if p[key].Obj? && value.Obj? {
          assert Obj(p[key].fields) == p[key] && Obj(value.fields) == value;
          var sub := MergeObj(Some(value.fields), Some(p[key].fields));
          value := Obj(sub.value);
        } else if p[key] != Null {
          value := p[key];
        }
      }
      merged := merged[key := value];
    }
    todo := p.Keys;
    while todo != {}
      invariant todo <= p.Keys
      invariant merged.Keys == src.Keys + (p.Keys - todo)
      invariant forall k | k in merged :: merged[k] == want[k]
      decreases todo
    {
      var key :| key in todo;
      todo := todo - {key};
      if key !in mergedKeys {
        merged := merged[key := p[key]];
      }
    }
    assert merged == want;
    return Some(merged);
  }

  // -------------------------------------------------------------------- diff

  predicate BothObjects(a: Json, b: Json) { a.Obj? && b.Obj? }

  /** Key `k` of `right` gets an entry in the difference. */
  predicate Differs(left: Json, right: Json, k: string)
    requires BothObjects(left, right) && k in right.fields
    decreases right, 0
  {
    k !in left.fields ||
    if BothObjects(left.fields[k], right.fields[k])
    then DiffFields(left.fields[k], right.fields[k]) != map[]
    else !GoEqual(right.fields[k], left.fields[k])
  }

  function DiffFields(left: Json, right: Json): Fields
    requires BothObjects(left, right)
    decreases right, 1
  {
    map k | k in right.fields && Differs(left, right, k) ::
      if k in left.fields && BothObjects(left.fields[k], right.fields[k])
      then Obj(DiffFields(left.fields[k], right.fields[k]))
      else right.fields[k]
  }

  /** `DiffObj`: nil when `right` is nil and when nothing differs. */
  function DiffSpec(left: Option<Fields>, right: Option<Fields>): Option<Fields> {
    if right.None? then None
    else
      var d := DiffFields(Obj(OrEmpty(left)), Obj(right.value));
      if d == map[] then None else Some(d)
  }

  method DiffObj(left: Option<Fields>, right: Option<Fields>) returns (r: Option<Fields>)
    ensures r == DiffSpec(left, right)
    decreases if right.Some? then Obj(right.value) else Null
  {
    if right.None? { return None; }
    var src, dst := OrEmpty(left), right.value;
    ghost var want := DiffFields(Obj(src), Obj(dst));
    var visited: set<string> := {};
    var diffed: Fields := map[];
    var todo := src.Keys;
    while todo != {}
      invariant todo <= src.Keys && visited == src.Keys - todo
      invariant diffed.Keys == want.Keys * visited
      invariant forall k | k in diffed :: diffed[k] == want[k]
      decreases todo
    {
      var key :| key in todo;
      todo, visited := todo - {key}, visited + {key};
      assert key in want <==> key in dst && Differs(Obj(src), Obj(dst), key);
      if key in dst {
        if dst[key].Obj? && src[key].Obj? {
          assert Obj(dst[key].fields) == dst[key] && Obj(src[key].fields) == src[key];
          var ret := DiffObj(Some(src[key].fields), Some(dst[key].fields));
          if ret.Some? { diffed := diffed[key := Obj(ret.value)]; }
        } else if !GoEqual(dst[key], src[key]) {
          diffed := diffed[key := dst[key]];
        }
      }
    }
    todo := dst.Keys;
    while todo != {}
      invariant todo <= dst.Keys
      invariant diffed.Keys == want.Keys * (visited + (dst.Keys - todo))
      invariant forall k | k in diffed :: diffed[k] == want[k]
      decreases todo
    {
      var key :| key in todo;
      todo := todo - {key};
      assert key !in visited ==> Differs(Obj(src), Obj(dst), key);
      if key !in visited {
        diffed := diffed[key := dst[key]];
      }
    }
    assert diffed == want;
    return if diffed == map[] then None else Some(diffed);
  }

  // ------------------------------------------- the difference against the whole

  /** No shared key hides a change: where the two values are not both objects, `equal`
      answering yes means they are the same value. */
  predicate NothingMasked(l: Json, r: Json)
    decreases r
  {
    BothObjects(l, r) ==>
      forall k | k in l.fields && k in r.fields ::
        if BothObjects(l.fields[k], r.fields[k])
        then NothingMasked(l.fields[k], r.fields[k])
        else AgreeOutsideObjects(r.fields[k], l.fields[k]) ==> r.fields[k] == l.fields[k]
  }

  lemma MergeNothing(x: Json)
    requires x.Obj?
    ensures MergeValue(x, Obj(map[])) == x
  {
    assert MergeValue(x, Obj(map[])).fields == x.fields;
  }

  /** The patch `DiffObj` computes does the work of all of `r`, exactly when nothing is masked. */
  lemma {:induction false} DiffIsAsGoodAsTheWhole(l: Json, r: Json)
    requires BothObjects(l, r)
    ensures MergeValue(l, Obj(DiffFields(l, r))) == MergeValue(l, r) <==> NothingMasked(l, r)
    decreases r
  {
    var d := DiffFields(l, r);
    var some, all := MergeValue(l, Obj(d)).fields, MergeValue(l, r).fields;
    assert d.Keys <= r.fields.Keys;
    forall k | k in r.fields && k !in l.fields ensures k in d { assert Differs(l, r, k); }
    assert some.Keys == all.Keys;
    forall k | k in all
      ensures some[k] == all[k] <==>
        (k in l.fields && k in r.fields ==>
          if BothObjects(l.fields[k], r.fields[k]) then NothingMasked(l.fields[k], r.fields[k])
          else AgreeOutsideObjects(r.fields[k], l.fields[k]) ==> r.fields[k] == l.fields[k])
    {
      if k in l.fields && k in r.fields {
        assert k in d <==> Differs(l, r, k);
        assert all[k] == MergeValue(l.fields[k], r.fields[k]);
        assert some[k] == if k in d then MergeValue(l.fields[k], d[k]) else l.fields[k];
        if BothObjects(l.fields[k], r.fields[k]) {
          DiffIsAsGoodAsTheWhole(l.fields[k], r.fields[k]);
          MergeNothing(l.fields[k]);
        } else {
          GoEqualMeaning(r.fields[k], l.fields[k]);
        }
      }
    }
    if NothingMasked(l, r) { assert some == all; }
  }

  /** `DiffIsAsGoodAsTheWhole` for the functions a caller sees, nil maps included. */
  lemma MergeOfDiff(l: Option<Fields>, r: Option<Fields>)
    ensures OrEmpty(MergeSpec(l, DiffSpec(l, r))) == OrEmpty(MergeSpec(l, r))
       <==> (r.Some? ==> NothingMasked(Obj(OrEmpty(l)), Obj(r.value)))
  {
    if r.Some? {
      DiffIsAsGoodAsTheWhole(Obj(OrEmpty(l)), Obj(r.value));
      MergeNothing(Obj(OrEmpty(l)));
    }
  }

  /** A guard that can be read off the two inputs: wherever a shared key does not hold two
      objects, the new value has no object in it. */
  predicate ObjectsOnlyMeetObjects(l: Json, r: Json)
    decreases r
  {
    BothObjects(l, r) ==>
      forall k | k in l.fields && k in r.fields ::
        if BothObjects(l.fields[k], r.fields[k])
        then ObjectsOnlyMeetObjects(l.fields[k], r.fields[k])
        else ObjectFree(r.fields[k])
  }

  lemma {:induction false} ObjectsOnlyMeetObjectsSuffices(l: Json, r: Json)
    requires ObjectsOnlyMeetObjects(l, r)
    ensures NothingMasked(l, r)
    decreases r
  {
    if BothObjects(l, r) {
      forall k | k in l.fields && k in r.fields
        ensures if BothObjects(l.fields[k], r.fields[k])
          then NothingMasked(l.fields[k], r.fields[k])
          else AgreeOutsideObjects(r.fields[k], l.fields[k]) ==> r.fields[k] == l.fields[k]
      {
        if BothObjects(l.fields[k], r.fields[k]) {
          ObjectsOnlyMeetObjectsSuffices(l.fields[k], r.fields[k]);
        } else {
          GoEqualMeaning(r.fields[k], l.fields[k]);
          GoEqualObjectFree(r.fields[k], l.fields[k]);
        }
      }
    }
  }

  /** Replacing a number by an object is lost: `{"a": 1}` and `{"a": {}}` have no difference. */
  lemma MaskedChange()
    ensures var l, r := map["a" := Num(1.0)], map["a" := Obj(map[])];
      DiffSpec(Some(l), Some(r)) == None && MergeSpec(Some(l), Some(r)) == Some(r) && l != r
  {
    var l: Fields, r: Fields := map["a" := Num(1.0)], map["a" := Obj(map[])];
    assert GoEqual(r["a"], l["a"]);
    assert DiffFields(Obj(l), Obj(r)) == map[];
    assert Merged(l, r) == r;
    assert l["a"] != r["a"];
  }

  /** At some shared path the patch holds null and the object something else. */
  predicate NullMeetsValue(l: Json, r: Json)
    decreases r
  {
    BothObjects(l, r) &&
    exists k | k in l.fields && k in r.fields ::
      if BothObjects(l.fields[k], r.fields[k])
      then NullMeetsValue(l.fields[k], r.fields[k])
      else r.fields[k].Null? && !l.fields[k].Null?
  }

  /** A patch that changes nothing has no difference, except that a null laid over a value is
      reported although merging ignores it; and when there is no difference, the patch changes
      nothing exactly when no change is masked. */
  lemma {:induction false} DiffNilMeansNoChange(l: Json, r: Json)
    requires BothObjects(l, r)
    ensures MergeValue(l, r) == l && !NullMeetsValue(l, r) ==> DiffFields(l, r) == map[]
    ensures DiffFields(l, r) == map[] ==> !NullMeetsValue(l, r) && (MergeValue(l, r) == l <==> NothingMasked(l, r))
    decreases r
  {
    var d, all := DiffFields(l, r), MergeValue(l, r).fields;
    forall k | k in r.fields && k in l.fields
      ensures all[k] == l.fields[k] && !NullMeetsAt(l, r, k) ==> k !in d
      ensures k !in d ==> !NullMeetsAt(l, r, k) && (all[k] == l.fields[k] <==> NothingMaskedAt(l, r, k))
    {
      assert k in d <==> Differs(l, r, k);
      assert all[k] == MergeValue(l.fields[k], r.fields[k]);
      if BothObjects(l.fields[k], r.fields[k]) {
        DiffNilMeansNoChange(l.fields[k], r.fields[k]);
      } else {
        GoEqualMeaning(r.fields[k], l.fields[k]);
        GoEqualReflexive(r.fields[k]);
      }
    }
    forall k | k in r.fields && k !in l.fields ensures k in d && k in all { assert Differs(l, r, k); }
    if d == map[] {
      assert forall k | k in r.fields :: k in l.fields && k !in d;
      assert all.Keys == l.fields.Keys;
      assert all == l.fields <==> forall k | k in r.fields :: all[k] == l.fields[k];
    }
  }

  predicate NullMeetsAt(l: Json, r: Json, k: string)
    requires BothObjects(l, r) && k in l.fields && k in r.fields
  {
    if BothObjects(l.fields[k], r.fields[k]) then NullMeetsValue(l.fields[k], r.fields[k])
    else r.fields[k].Null? && !l.fields[k].Null?
  }

  predicate NothingMaskedAt(l: Json, r: Json, k: string)
    requires BothObjects(l, r) && k in l.fields && k in r.fields
  {
    if BothObjects(l.fields[k], r.fields[k]) then NothingMasked(l.fields[k], r.fields[k])
    else AgreeOutsideObjects(r.fields[k], l.fields[k]) ==> r.fields[k] == l.fields[k]
  }

  predicate NullFree(a: Json) {
    match a
    case Null => false
    case Obj(m) => forall k | k in m :: NullFree(m[k])
    case Arr(s) => forall i | 0 <= i < |s| :: NullFree(s[i])
    case _ => true
  }

  lemma {:induction false} NullFreePatchLosesNothing(l: Json, r: Json)
    requires NullFree(r)
    ensures !NullMeetsValue(l, r)
    decreases r
  {
    if BothObjects(l, r) {
      forall k | k in l.fields && k in r.fields && BothObjects(l.fields[k], r.fields[k])
        ensures !NullMeetsValue(l.fields[k], r.fields[k])
      {
        NullFreePatchLosesNothing(l.fields[k], r.fields[k]);
      }
    }
  }

  // ------------------------------------------------------------- laws of merge

  lemma {:induction false} MergeSelf(x: Json)
    ensures MergeValue(x, x) == x
    decreases x
  {
    if x.Obj? {
      forall k | k in x.fields { MergeSelf(x.fields[k]); }
      assert MergeValue(x, x).fields == x.fields;
    }
  }

  /** Laying the same patch twice is laying it once, for all inputs. */
  lemma {:induction false} MergeIdempotent(x: Json, p: Json)
    ensures MergeValue(MergeValue(x, p), p) == MergeValue(x, p)
    decreases p
  {
    if BothObjects(x, p) {
      var once := MergeValue(x, p).fields;
      forall k | k in once
        ensures MergeValue(Obj(once), p).fields[k] == once[k]
      {
        if k in p.fields && k in x.fields {
          MergeIdempotent(x.fields[k], p.fields[k]);
        } else if k in p.fields {
          MergeSelf(p.fields[k]);
        }
      }
      assert MergeValue(Obj(once), p).fields == once;
    } else if p.Null? {
    } else {
      MergeSelf(p);
    }
  }

  lemma MergeKeys(from: Option<Fields>, patch: Option<Fields>)
    ensures OrEmpty(MergeSpec(from, patch)).Keys == OrEmpty(from).Keys + OrEmpty(patch).Keys
    ensures forall k | k in OrEmpty(from) ::
      (k in OrEmpty(patch) ==> OrEmpty(patch)[k].Null?) ==>
        OrEmpty(MergeSpec(from, patch))[k] == OrEmpty(from)[k]
  {
    var f, p := OrEmpty(from), OrEmpty(patch);
    if patch.Some? {
      assert Merged(f, p).Keys == f.Keys + p.Keys;
      forall k | k in f && k in p && p[k].Null? ensures Merged(f, p)[k] == f[k] {
        assert MergeValue(f[k], p[k]) == f[k];
      }
    }
  }

  /** `c` says everything `x` says: laid over `x` it leaves nothing of `x` visible. */
  predicate Covers(c: Json, x: Json)
    decreases c
  {
    if BothObjects(x, c) then
      forall k | k in x.fields :: k in c.fields && Covers(c.fields[k], x.fields[k])
    else c.Null? ==> x.Null?
  }

  /** A patch alone reproduces the merged document exactly when it covers the base; so
      `DiffObj` cannot express a removed key. */
  lemma {:induction false} CoversExactly(c: Json, x: Json)
    ensures MergeValue(x, c) == c <==> Covers(c, x)
    decreases c
  {
    if BothObjects(x, c) {
      var m := MergeValue(x, c).fields;
      forall k | k in x.fields && k in c.fields { CoversExactly(c.fields[k], x.fields[k]); }
      if Covers(c, x) { assert m == c.fields; }
      if m == c.fields {
        forall k | k in x.fields ensures k in c.fields && Covers(c.fields[k], x.fields[k]) {
          assert k in m;
        }
      }
    }
  }

  /** The patch leads all the way to `r` exactly when nothing is masked and `r` covers `l`: it
      must keep every key, since removals are neither diffed nor merged. */
  lemma {:induction false} DiffReachesTarget(l: Json, r: Json)
    requires BothObjects(l, r)
    ensures MergeValue(l, Obj(DiffFields(l, r))) == r <==> NothingMasked(l, r) && Covers(r, l)
    decreases r
  {
    var d := DiffFields(l, r);
    DiffIsAsGoodAsTheWhole(l, r);
    CoversExactly(r, l);
    if MergeValue(l, Obj(d)) == r {
      forall k | k in l.fields && k in r.fields
        ensures if BothObjects(l.fields[k], r.fields[k])
          then NothingMasked(l.fields[k], r.fields[k])
          else AgreeOutsideObjects(r.fields[k], l.fields[k]) ==> r.fields[k] == l.fields[k]
      {
        assert k in d <==> Differs(l, r, k);
        assert r.fields[k] == if k in d then MergeValue(l.fields[k], d[k]) else l.fields[k];
        if BothObjects(l.fields[k], r.fields[k]) {
          MergeNothing(l.fields[k]);
          DiffReachesTarget(l.fields[k], r.fields[k]);
        } else {
          GoEqualMeaning(r.fields[k], l.fields[k]);
        }
      }
    }
  }

  /** Along paths where all three are objects, no key holds an object, then a scalar or array,
      then an object that fails to cover the first. */
  predicate NoCollision(a: Json, b: Json, c: Json)
    decreases c
  {
    if BothObjects(a, c) && b.Obj? then
      forall k | k in a.fields && k in b.fields && k in c.fields ::
        NoCollision(a.fields[k], b.fields[k], c.fields[k])
    else BothObjects(a, c) && !b.Null? ==> Covers(c, a)
  }

  /** Merging is associative exactly when no collision occurs. */
  lemma {:induction false} MergeAssociative(a: Json, b: Json, c: Json)
    ensures MergeValue(MergeValue(a, b), c) == MergeValue(a, MergeValue(b, c)) <==> NoCollision(a, b, c)
    decreases c
  {
    if BothObjects(a, c) {
      if b.Obj? {
        var left := MergeValue(MergeValue(a, b), c).fields;
        var right := MergeValue(a, MergeValue(b, c)).fields;
        assert left.Keys == right.Keys;
        forall k | k in left
          ensures left[k] == right[k] <==>
            (k in a.fields && k in b.fields && k in c.fields ==>
              NoCollision(a.fields[k], b.fields[k], c.fields[k]))
        {
          if k in a.fields && k in b.fields && k in c.fields {
            MergeAssociative(a.fields[k], b.fields[k], c.fields[k]);
          }
        }
        if NoCollision(a, b, c) { assert left == right; }
      } else {
        CoversExactly(c, a);
      }
    }
  }

  /** A number laid between two objects that do not cover each other: `{"x": {"p": 1}}`, `{"x": 1}` and
      `{"x": {"q": 2}}`. */
  lemma CollidingShapes()
    ensures var a, b, c := Obj(map["x" := Obj(map["p" := Num(1.0)])]), Obj(map["x" := Num(1.0)]), Obj(map["x" := Obj(map["q" := Num(2.0)])]);
      MergeValue(MergeValue(a, b), c) != MergeValue(a, MergeValue(b, c))
  {
    var p, q := Obj(map["p" := Num(1.0)]), Obj(map["q" := Num(2.0)]);
    var a, b, c := Obj(map["x" := p]), Obj(map["x" := Num(1.0)]), Obj(map["x" := q]);
    assert "p" in p.fields && "p" !in q.fields;
    assert !Covers(q, p) && !NoCollision(p, Num(1.0), q);
    assert "x" in a.fields && "x" in b.fields && "x" in c.fields;
    MergeAssociative(a, b, c);
  }

  /** The condition of the design: at every common path the non-null values are all objects or
      all something else. */
  predicate SameShape(a: Json, b: Json, c: Json)
    decreases c
  {
    (BothObjects(a, c) && !b.Null? ==> b.Obj?) &&
    (BothObjects(a, c) && b.Obj? ==>
      forall k | k in a.fields && k in b.fields && k in c.fields ::
        SameShape(a.fields[k], b.fields[k], c.fields[k]))
  }

  lemma {:induction false} SameShapeIsAssociative(a: Json, b: Json, c: Json)
    requires SameShape(a, b, c)
    ensures NoCollision(a, b, c)
    decreases c
  {
    if BothObjects(a, c) && b.Obj? {
      forall k | k in a.fields && k in b.fields && k in c.fields {
        SameShapeIsAssociative(a.fields[k], b.fields[k], c.fields[k]);
      }
    }
  }
}
