/**
 What a difference and a merge of pkg/util/obj.go hold at each path, read off the documents
 with `Json.Lookup` alone.
 */
module OverlayMeaning {
  import opened Wrappers
  import opened Json
  import opened Overlay

  /** Objects lead to `p` in both documents; there `r` has a value and `l` has none, or one that
      is not an object opposite an object and does not agree with it as far as `equal` looks. */
  ghost predicate Changed(l: Json, r: Json, p: seq<string>) {
    SharedParents(Some(r), Some(l), p) &&
    var x, y := Lookup(Some(r), p), Lookup(Some(l), p);
    x.Some? &&
    (y.None? || (!(x.value.Obj? && y.value.Obj?) && !AgreeOutsideObjects(x.value, y.value)))
  }

  lemma ChangedBelow(l: Json, r: Json, p: seq<string>)
    requires l.Obj? && r.Obj? && p != []
    ensures Changed(l, r, p) <==>
      (p[0] in r.fields &&
       if p[0] in l.fields && l.fields[p[0]].Obj? && r.fields[p[0]].Obj?
       then Changed(l.fields[p[0]], r.fields[p[0]], p[1..])
       else |p| == 1 && (p[0] in l.fields ==> !AgreeOutsideObjects(r.fields[p[0]], l.fields[p[0]])))
  {
    var k, q := p[0], p[1..];
    SharedParentsBelow(Some(r), Some(l), p);
    assert Lookup(Some(r), p) == Lookup(Field(r.fields, k), q);
    assert Lookup(Some(l), p) == Lookup(Field(l.fields, k), q);
    if q != [] { SharedParentsBelow(Field(r.fields, k), Field(l.fields, k), q); }
  }

  /** No changed path lies inside another. */
  lemma {:induction false} ChangesApart(l: Json, r: Json, p: seq<string>, q: seq<string>)
    requires l.Obj? && r.Obj? && Changed(l, r, p) && Changed(l, r, q) && p <= q
    ensures p == q
    decreases |p|
  {
    if p != [] {
      ChangedBelow(l, r, p);
      ChangedBelow(l, r, q);
      if p[1..] != q[1..] {
        ChangesApart(l.fields[p[0]], r.fields[p[0]], p[1..], q[1..]);
      }
    }
  }

  /** A difference that holds anything holds it for a change. */
  lemma {:induction false} ChangeOf(l: Json, r: Json) returns (p: seq<string>)
    requires l.Obj? && r.Obj? && DiffFields(l, r) != map[]
    ensures Changed(l, r, p)
    decreases r
  {
    var k :| k in DiffFields(l, r);
    assert Differs(l, r, k);
    p := [];
    if k in l.fields && l.fields[k].Obj? && r.fields[k].Obj? {
      p := ChangeOf(l.fields[k], r.fields[k]);
    } else if k in l.fields {
      GoEqualMeaning(r.fields[k], l.fields[k]);
    }
    p := [k] + p;
    assert p[1..] == [] || l.fields[k].Obj?;
    ChangedBelow(l, r, p);
  }

  /** At a change, and inside it, the difference has exactly the new value. */
  lemma {:induction false} DiffAtChange(l: Json, r: Json, p: seq<string>, q: seq<string>)
    requires l.Obj? && r.Obj? && Changed(l, r, p)
    ensures Lookup(Some(Obj(DiffFields(l, r))), p + q) == Lookup(Some(r), p + q)
    decreases |p|
  {
    if p != [] {
      var k, d := p[0], DiffFields(l, r);
      assert (p + q)[1..] == p[1..] + q;
      ChangedBelow(l, r, p);
      if k in l.fields && l.fields[k].Obj? && r.fields[k].Obj? {
        DiffAtChange(l.fields[k], r.fields[k], p[1..], q);
        DiffAtChange(l.fields[k], r.fields[k], p[1..], []);
        assert p[1..] + [] == p[1..];
        assert Differs(l, r, k);
      } else {
        if k in l.fields { GoEqualMeaning(r.fields[k], l.fields[k]); }
        assert Differs(l, r, k);
      }
    }
  }

  /** Whatever else the difference has at a path is an object with a change inside. */
  lemma {:induction false} ChangeAt(l: Json, r: Json, p: seq<string>) returns (q: seq<string>)
    requires l.Obj? && r.Obj? && p != []
    requires Lookup(Some(Obj(DiffFields(l, r))), p).Some?
    ensures Changed(l, r, q)
    ensures q <= p || p <= q
    ensures var d := Lookup(Some(Obj(DiffFields(l, r))), p).value;
      q <= p || (d.Obj? && d.fields != map[])
    decreases |p|
  {
    var k, rest := p[0], p[1..];
    assert Differs(l, r, k);
    q := [];
    if k in l.fields && l.fields[k].Obj? && r.fields[k].Obj? {
      if rest == [] {
        q := ChangeOf(l.fields[k], r.fields[k]);
      } else {
        q := ChangeAt(l.fields[k], r.fields[k], rest);
      }
    } else if k in l.fields {
      GoEqualMeaning(r.fields[k], l.fields[k]);
    }
    assert p == [k] + rest;
    q := [k] + q;
    ChangedBelow(l, r, q);
  }

  /** The difference has the new value at every change and inside it, an object that is not empty
      on the way to a change, and nothing anywhere else. */
  lemma DiffMeaning(l: Json, r: Json, p: seq<string>)
    requires l.Obj? && r.Obj? && p != []
    ensures var d := Lookup(Some(Obj(DiffFields(l, r))), p);
      if exists q | Changed(l, r, q) :: q <= p then d == Lookup(Some(r), p)
      else if exists q | Changed(l, r, q) :: p <= q then d.Some? && d.value.Obj? && d.value.fields != map[]
      else d.None?
  {
    var d := Lookup(Some(Obj(DiffFields(l, r))), p);
    if q :| Changed(l, r, q) && q <= p {
      DiffAtChange(l, r, q, p[|q|..]);
      assert q + p[|q|..] == p;
    } else if q :| Changed(l, r, q) && p <= q {
      DiffAtChange(l, r, q, []);
      assert q + [] == q == p + q[|p|..];
      LookupConcat(Some(Obj(DiffFields(l, r))), p, q[|p|..]);
      var c := ChangeAt(l, r, p);
    } else if d.Some? {
      var c := ChangeAt(l, r, p);
    }
  }

  /** `DiffObj` returns nil exactly when nothing has changed, and otherwise a difference as above. */
  lemma DiffNilExactly(l: Option<Fields>, r: Option<Fields>)
    ensures DiffSpec(l, r).None? <==>
      (r.None? || forall p :: !Changed(Obj(OrEmpty(l)), Obj(r.value), p))
    ensures DiffSpec(l, r).Some? ==> DiffSpec(l, r).value == DiffFields(Obj(OrEmpty(l)), Obj(r.value))
  {
    if r.Some? {
      var a, b := Obj(OrEmpty(l)), Obj(r.value);
      if DiffFields(a, b) != map[] {
        var p := ChangeOf(a, b);
      } else if p :| Changed(a, b, p) {
        assert p + [] == p;
        DiffAtChange(a, b, p, []);
      }
    }
  }

  // ------------------------------------------------------------------- merge

  /** Where objects lead to `q` in both documents, merging merges the two when both are objects;
      otherwise it has all of the patch there, or, where the patch has nothing or a null over
      a value, all of the old value. */
  lemma {:induction false} MergeMeaning(cur: Json, patch: Json, q: seq<string>, rest: seq<string>)
    requires SharedParents(Some(patch), Some(cur), q)
    ensures var x, y := Lookup(Some(patch), q), Lookup(Some(cur), q);
      if IsObject(x) && IsObject(y) then
        var z := Lookup(Some(MergeValue(cur, patch)), q);
        IsObject(z) && z.value.fields.Keys == x.value.fields.Keys + y.value.fields.Keys
      else
        Lookup(Some(MergeValue(cur, patch)), q + rest) ==
          Lookup(Some(if x.None? || (x.value.Null? && y.Some?) then cur else patch), q + rest)
    decreases |q|
  {
    if q != [] {
      var k := q[0];
      SharedParentsBelow(Some(patch), Some(cur), q);
      assert (q + rest)[1..] == q[1..] + rest;
      var z := MergeValue(cur, patch);
      if k in cur.fields && k in patch.fields {
        assert z.fields[k] == MergeValue(cur.fields[k], patch.fields[k]);
        MergeMeaning(cur.fields[k], patch.fields[k], q[1..], rest);
      } else if q[1..] != [] {
        SharedParentsBelow(Field(patch.fields, k), Field(cur.fields, k), q[1..]);
      }
    }
  }
}
