/** The paths of pkg/kubepkg/manifest/extract.go: their text form, and the Go slices that hold them. */
module ManifestPath {
  import opened Text

  datatype Elem = Key(key: string) | Index(idx: nat)
  type Path = seq<Elem>

  // -------------------------------------------------------------------- decimal

  function Digit(d: nat): char
    requires d < 10
  {
    ('0' as int + d) as char
  }

  function Decimal(n: nat): string {
    if n < 10 then [Digit(n)] else Decimal(n / 10) + [Digit(n % 10)]
  }

  function Value(s: string): int {
    if s == "" then 0 else 10 * Value(s[..|s| - 1]) + (s[|s| - 1] as int - '0' as int)
  }

  lemma {:induction false} DecimalReadsBack(n: nat)
    ensures Decimal(n) != "" && Value(Decimal(n)) == n && Free(Decimal(n), ']')
  {
    if n < 10 {
      assert Decimal(n)[..0] == "";
    } else {
      DecimalReadsBack(n / 10);
      assert Decimal(n)[..|Decimal(n)| - 1] == Decimal(n / 10);
    }
  }

  // ------------------------------------------------------------------- text form

  function Render(e: Elem, first: bool): string {
    match e
    case Key(k) => if first then k else "." + k
    case Index(i) => "[" + Decimal(i) + "]"
  }

  function RenderAll(p: Path, first: bool): string {
    if p == [] then "" else Render(p[0], first) + RenderAll(p[1..], false)
  }

  function FullText(p: Path): string { RenderAll(p, true) }

  /** `path.Full`. */
  method Full(p: Path) returns (text: string)
    ensures text == FullText(p)
  {
    text := "";
    assert p[0..] == p;
    for i := 0 to |p|
      invariant text + RenderAll(p[i..], i == 0) == FullText(p)
    {
      RenderStep(text, p, i);
      match p[i]
      case Key(key) => text := text + (if i == 0 then key else "." + key);
      case Index(idx) => text := text + ("[" + Decimal(idx) + "]");
    }
    assert p[|p|..] == [] && text + "" == text;
  }

  lemma RenderStep(text: string, p: Path, i: nat)
    requires i < |p|
    ensures (text + Render(p[i], i == 0)) + RenderAll(p[i + 1..], false) == text + RenderAll(p[i..], i == 0)
  {
    assert p[i..][1..] == p[i + 1..];
    Associative(text, Render(p[i], i == 0), RenderAll(p[i + 1..], false));
  }

  /** The text of a longer path: keys after a dot, unless they come first, and indices in brackets. */
  lemma FullTextMeaning(p: Path, e: Elem)
    ensures FullText([]) == ""
    ensures FullText(p + [e]) == FullText(p) +
      match e
      case Key(k) => if p == [] then k else "." + k
      case Index(i) => "[" + Decimal(i) + "]"
  {
    RenderLast(p, e, true);
  }

  lemma {:induction false} RenderLast(p: Path, e: Elem, first: bool)
    ensures RenderAll(p + [e], first) == RenderAll(p, first) + Render(e, first && p == [])
  {
    if p == [] {
      assert ([] + [e])[1..] == [];
      assert Render(e, first) + "" == "" + Render(e, first);
    } else {
      assert (p + [e])[1..] == p[1..] + [e];
      RenderLast(p[1..], e, false);
      Associative(Render(p[0], first), RenderAll(p[1..], false), Render(e, false));
    }
  }

  /** Keys whose text cannot be mistaken for path punctuation. */
  predicate PlainPath(p: Path) {
    forall i | 0 <= i < |p| && p[i].Key? :: p[i].key != "" && Free(p[i].key, '.') && Free(p[i].key, '[')
  }

  /** Where a plain key ends: at the end of the text, or before punctuation. */
  lemma {:induction false} KeyEnds(a: string, s: string, b: string, t: string)
    requires a + s == b + t && Free(a, '.') && Free(a, '[') && Free(b, '.') && Free(b, '[')
    requires (s == "" || s[0] in ".[") && (t == "" || t[0] in ".[")
    ensures a == b && s == t
  {
    assert forall i | 0 <= i < |a| :: a[i] in a;
    assert forall i | 0 <= i < |b| :: b[i] in b;
    if a != "" && b != "" {
      assert (a + s)[0] == a[0] && (b + t)[0] == b[0];
      assert (a + s)[1..] == a[1..] + s && (b + t)[1..] == b[1..] + t;
      KeyEnds(a[1..], s, b[1..], t);
      assert a == [a[0]] + a[1..] && b == [b[0]] + b[1..];
    } else {
      assert a + s == (if a == "" then s else a + s) && b + t == (if b == "" then t else b + t);
    }
  }

  lemma RestStartsWithPunctuation(p: Path)
    requires PlainPath(p)
    ensures RenderAll(p, false) == "" <==> p == []
    ensures p != [] ==> RenderAll(p, false)[0] == (if p[0].Key? then '.' else '[')
  {
  }

  lemma TextIsNotEmpty(p: Path, first: bool)
    requires PlainPath(p)
    ensures RenderAll(p, first) == "" <==> p == []
  {
    if p != [] { assert Render(p[0], first) != ""; }
  }

  /** The text determines the path, for paths of plain keys. */
  lemma {:induction false} TextDeterminesPath(p: Path, q: Path, first: bool)
    requires PlainPath(p) && PlainPath(q)
    ensures RenderAll(p, first) == RenderAll(q, first) <==> p == q
    decreases |p|
  {
    TextIsNotEmpty(p, first);
    TextIsNotEmpty(q, first);
    if RenderAll(p, first) == RenderAll(q, first) {
      if p != [] {
        assert PlainPath(p[1..]) && PlainPath(q[1..]);
        var s, t := RenderAll(p[1..], false), RenderAll(q[1..], false);
        RestStartsWithPunctuation(p[1..]);
        RestStartsWithPunctuation(q[1..]);
        SameHead(p[0], s, q[0], t, first);
        TextDeterminesPath(p[1..], q[1..], false);
        assert p == [p[0]] + p[1..] && q == [q[0]] + q[1..];
      }
    }
  }

  lemma SameHead(a: Elem, s: string, b: Elem, t: string, first: bool)
    requires PlainPath([a]) && PlainPath([b])
    requires Render(a, first) + s == Render(b, first) + t
    requires (s == "" || s[0] in ".[") && (t == "" || t[0] in ".[")
    ensures a == b && s == t
  {
    assert [a][0] == a && [b][0] == b;
    FirstChar(a, s, first);
    FirstChar(b, t, first);
    if a.Key? {
      var skip := if first then 0 else 1;
      assert b.Key?;
      AfterDot(a.key, s, first);
      AfterDot(b.key, t, first);
      KeyEnds(a.key, s, b.key, t);
    } else {
      SameIndex(a.idx, s, b.idx, t);
    }
  }

  lemma FirstChar(e: Elem, s: string, first: bool)
    requires e.Key? ==> e.key != "" && Free(e.key, '[')
    ensures Render(e, first) + s != "" && ((Render(e, first) + s)[0] == '[' <==> e.Index?)
  {
    assert (Render(e, first) + s)[0] == Render(e, first)[0];
    if e.Key? { assert e.key[0] in e.key; }
  }

  lemma AfterDot(key: string, s: string, first: bool)
    ensures (Render(Key(key), first) + s)[if first then 0 else 1..] == key + s
  {
    if !first { Associative(".", key, s); }
  }

  lemma SameIndex(m: nat, s: string, n: nat, t: string)
    requires "[" + Decimal(m) + "]" + s == "[" + Decimal(n) + "]" + t
    ensures m == n && s == t
  {
    DecimalReadsBack(m);
    DecimalReadsBack(n);
    AfterBracket(Decimal(m), s);
    AfterBracket(Decimal(n), t);
    IndexEnds(Decimal(m), s, Decimal(n), t);
  }

  lemma AfterBracket(a: string, s: string)
    ensures ("[" + a + "]" + s)[1..] == a + ("]" + s)
  {
    Associative("[" + a, "]", s);
    Associative("[", a, "]" + s);
  }

  /** Where an index ends: at the first closing bracket. */
  lemma {:induction false} IndexEnds(a: string, s: string, b: string, t: string)
    requires a + ("]" + s) == b + ("]" + t) && Free(a, ']') && Free(b, ']')
    ensures a == b && s == t
  {
    assert forall i | 0 <= i < |a| :: a[i] in a;
    assert forall i | 0 <= i < |b| :: b[i] in b;
    var x, y := a + ("]" + s), b + ("]" + t);
    assert a == "" ==> x[1..] == s;
    assert b == "" ==> y[1..] == t;
    assert x[0] == (if a == "" then ']' else a[0]);
    assert y[0] == (if b == "" then ']' else b[0]);
    if a != "" && b != "" {
      assert x[1..] == a[1..] + ("]" + s) && y[1..] == b[1..] + ("]" + t);
      IndexEnds(a[1..], s, b[1..], t);
      assert a == [a[0]] + a[1..] && b == [b[0]] + b[1..];
    }
  }

  lemma FullTextInjective(p: Path, q: Path)
    requires PlainPath(p) && PlainPath(q)
    ensures FullText(p) == FullText(q) <==> p == q
  {
    TextDeterminesPath(p, q, true);
  }

  /** A dotted key reads like two keys. */
  lemma DottedKeysCollide(a: string, b: string)
    ensures FullText([Key(a + "." + b)]) == FullText([Key(a), Key(b)])
  {
    var p := [Key(a), Key(b)];
    assert p[1..] == [Key(b)] && p[1..][1..] == [];
    assert [Key(a + "." + b)][1..] == [];
    assert RenderAll([Key(b)], false) == "." + b + "";
    assert a + ("." + b) == a + "." + b;
  }

  // -------------------------------------------------------------------- Go slices

  /** A slice: a stretch from the start of a backing array, which `append` writes into while
      there is room, and copies when there is none. */
  datatype Slice = Slice(arr: array<Elem>, len: nat)

  ghost predicate ValidSlice(p: Slice) { p.len <= p.arr.Length }

  function Contents(p: Slice): Path
    requires ValidSlice(p)
    reads p.arr
  {
    p.arr[..p.len]
  }

  method Append(p: Slice, e: Elem) returns (q: Slice)
    requires ValidSlice(p)
    modifies p.arr
    ensures ValidSlice(q) && (q.arr == p.arr || fresh(q.arr))
    ensures Contents(q) == old(Contents(p)) + [e]
    ensures Contents(p) == old(Contents(p))
  {
    if p.len < p.arr.Length {
      p.arr[p.len] := e;
      q := Slice(p.arr, p.len + 1);
    } else {
      var arr := new Elem[2 * p.len + 1](_ => e);
      for i := 0 to p.len
        invariant p.arr[..] == old(p.arr[..])
        invariant arr[..i] == p.arr[..i]
        invariant forall k | i <= k < arr.Length :: arr[k] == e
      {
        arr[i] := p.arr[i];
      }
      q := Slice(arr, p.len + 1);
      assert arr[..p.len + 1] == arr[..p.len] + [e];
    }
  }
}
