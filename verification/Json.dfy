/** JSON documents, as both the Go overlay code and the TypeScript editor see them. */
module Json {
  import opened Wrappers

  type Fields = map<string, Json>

  /** A JSON document; an object is its own-key map, so field order is not represented. */
  datatype Json =
    | Null
    | Bool(b: bool)
    | Num(n: real)
    | Str(s: string)
    | Arr(items: seq<Json>)
    | Obj(fields: Fields)

  function Field(m: Fields, key: string): Option<Json> {
    if key in m then Some(m[key]) else None
  }
  // ------------------------------------------------------------------- paths

  predicate IsObject(v: Option<Json>) { v.Some? && v.value.Obj? }

  /** The value at a path; only objects have anything below them. */
  function Lookup(doc: Option<Json>, p: seq<string>): Option<Json>
    decreases |p|
  {
    if p == [] then doc
    else if IsObject(doc) then Lookup(Field(doc.value.fields, p[0]), p[1..])
    else None
  }

  /** `p` is reached through objects in both documents. */
  ghost predicate SharedParents(a: Option<Json>, b: Option<Json>, p: seq<string>) {
    forall n | 0 <= n < |p| :: IsObject(Lookup(a, p[..n])) && IsObject(Lookup(b, p[..n]))
  }

  lemma SharedParentsBelow(a: Option<Json>, b: Option<Json>, p: seq<string>)
    requires p != []
    ensures SharedParents(a, b, p) <==>
      (IsObject(a) && IsObject(b) &&
       SharedParents(Field(a.value.fields, p[0]), Field(b.value.fields, p[0]), p[1..]))
  {
    var q := p[1..];
    if IsObject(a) && IsObject(b) {
      var x, y := Field(a.value.fields, p[0]), Field(b.value.fields, p[0]);
      forall n | 0 <= n < |q|
        ensures Lookup(a, p[..n + 1]) == Lookup(x, q[..n]) && Lookup(b, p[..n + 1]) == Lookup(y, q[..n])
      {
        assert p[..n + 1][1..] == q[..n];
      }
      forall n | 0 <= n < |p| && SharedParents(x, y, q)
        ensures IsObject(Lookup(a, p[..n])) && IsObject(Lookup(b, p[..n]))
      {
        if n > 0 { assert IsObject(Lookup(x, q[..n - 1])); }
      }
      forall n | 0 <= n < |q| && SharedParents(a, b, p)
        ensures IsObject(Lookup(x, q[..n])) && IsObject(Lookup(y, q[..n]))
      {
        assert IsObject(Lookup(a, p[..n + 1]));
      }
    } else {
      assert p[..0] == [];
    }
  }

  lemma {:induction false} LookupConcat(doc: Option<Json>, p: seq<string>, q: seq<string>)
    ensures Lookup(doc, p + q) == Lookup(Lookup(doc, p), q)
    decreases |p|
  {
    if p == [] {
      assert p + q == q;
    } else {
      assert (p + q)[1..] == p[1..] + q;
      if IsObject(doc) { LookupConcat(Field(doc.value.fields, p[0]), p[1..], q); }
    }
  }
}
