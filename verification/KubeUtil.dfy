/** Lists as sets: pkg/kubeutil/util.go, and names in order. */
module KubeUtil {
  import opened Text

  predicate NoRepeats<E(==)>(s: seq<E>) { forall i, j | 0 <= i < j < |s| :: s[i] != s[j] }

  /** A list of a set, in some order. */
  ghost predicate Enumerates<E(!new)>(order: seq<E>, elements: set<E>) {
    NoRepeats(order) && forall x :: x in order <==> x in elements
  }

  lemma {:induction false} Enumerate<E(!new)>(elements: set<E>) returns (order: seq<E>)
    ensures Enumerates(order, elements)
    decreases elements
  {
    if elements == {} {
      order := [];
    } else {
      var x :| x in elements;
      var rest := Enumerate(elements - {x});
      order := [x] + rest;
    }
  }

  /** Any element can come last. */
  lemma EnumerateWithLast<E(!new)>(elements: set<E>, last: E) returns (order: seq<E>)
    requires last in elements
    ensures Enumerates(order, elements) && order[|order| - 1] == last
  {
    var rest := Enumerate(elements - {last});
    order := rest + [last];
  }

  function Kept<E(==)>(a: seq<E>, b: seq<E>): seq<E> {
    if b == [] then []
    else
      var n := |b| - 1;
      Kept(a, b[..n]) + if b[n] in a then [b[n]] else []
  }

  function Deduplicated<E(==)>(s: seq<E>): seq<E> {
    if s == [] then []
    else
      var n := |s| - 1;
      var rest := Deduplicated(s[..n]);
      rest + if s[n] in rest then [] else [s[n]]
  }

  /** Keeping elements respects the order of the list, each occurrence by itself. */
  lemma {:induction false} KeptInOrder<E>(a: seq<E>, b: seq<E>, c: seq<E>)
    ensures Kept(a, b + c) == Kept(a, b) + Kept(a, c)
  {
    if c == [] {
      assert b + c == b;
    } else {
      var n := |c| - 1;
      assert (b + c)[..|b + c| - 1] == b + c[..n];
      KeptInOrder(a, b, c[..n]);
      Associative(Kept(a, b), Kept(a, c[..n]), if c[n] in a then [c[n]] else []);
    }
  }

  lemma KeptOne<E>(a: seq<E>, x: E)
    ensures Kept(a, [x]) == if x in a then [x] else []
  {
    assert [x][..0] == [];
  }

  /** Of repeated elements the first stays where it is. */
  lemma FirstsInOrder<E>(s: seq<E>, x: E)
    ensures Deduplicated(s + [x]) == Deduplicated(s) + if x in s then [] else [x]
  {
    assert (s + [x])[..|s|] == s;
    DeduplicatedMeaning(s);
  }

  lemma {:induction false} KeptMeaning<E>(a: seq<E>, b: seq<E>)
    ensures forall x :: x in Kept(a, b) <==> x in a && x in b
  {
    if b == [] {
    } else {
      KeptMeaning(a, b[..|b| - 1]);
    }
  }

  lemma {:induction false} DeduplicatedMeaning<E>(s: seq<E>)
    ensures NoRepeats(Deduplicated(s)) && forall x :: x in Deduplicated(s) <==> x in s
  {
    if s == [] {
    } else {
      DeduplicatedMeaning(s[..|s| - 1]);
    }
  }

  method Intersection<E(==)>(a: seq<E>, b: seq<E>) returns (c: seq<E>)
    ensures c == Kept(a, b)
  {
    var includes := set x | x in a;
    c := [];
    for i := 0 to |b|
      invariant c == Kept(a, b[..i])
    {
      assert b[..i + 1][..i] == b[..i];
      if b[i] in includes { c := c + [b[i]]; }
    }
    assert b[..|b|] == b;
  }

  method Union<E(==)>(a: seq<E>, b: seq<E>) returns (c: seq<E>)
    ensures c == Deduplicated(a + b)
  {
    var all := a + b;
    var added := {};
    c := [];
    for i := 0 to |all|
      invariant c == Deduplicated(all[..i]) && added == set x | x in c
    {
      assert all[..i + 1][..i] == all[..i];
      if all[i] !in added { c, added := c + [all[i]], added + {all[i]}; }
    }
    assert all[..|all|] == all;
  }

  // ------------------------------------------------------------------ names in order

  predicate Ascending(names: seq<string>) {
    forall i, j {:trigger Before(names[i], names[j])} | 0 <= i < j < |names| :: Before(names[i], names[j])
  }

  ghost predicate SortedNames(names: seq<string>, keys: set<string>) {
    Ascending(names) && forall k :: k in names <==> k in keys
  }

  /** The keys of a map put in order, whatever order they were visited in. */
  method SortedKeys(keys: set<string>) returns (names: seq<string>)
    ensures SortedNames(names, keys)
  {
    names := [];
    var todo := keys;
    while todo != {}
      invariant todo <= keys && SortedNames(names, keys - todo)
      decreases todo
    {
      var k :| k in todo;
      todo := todo - {k};
      InsertedMeaning(names, k);
      names := Inserted(names, k);
    }
  }

  function Inserted(names: seq<string>, k: string): seq<string> {
    if names == [] || Before(k, names[0]) then [k] + names else [names[0]] + Inserted(names[1..], k)
  }

  lemma {:induction false} InsertedMeaning(names: seq<string>, k: string)
    requires Ascending(names) && k !in names
    ensures Ascending(Inserted(names, k)) && forall x :: x in Inserted(names, k) <==> x == k || x in names
  {
    if names == [] {
    } else {
      BeforeTotal(k, names[0]);
      if Before(k, names[0]) {
        forall j | 0 < j < |names| ensures Before(k, names[j]) { BeforeTransitive(k, names[0], names[j]); }
      } else {
        InsertedMeaning(names[1..], k);
        var rest := Inserted(names[1..], k);
        forall j | 0 <= j < |rest| ensures Before(names[0], rest[j]) { assert rest[j] in rest; }
      }
    }
  }

  /** There is one way to put names in order. */
  lemma {:induction false} SortedNamesUnique(a: seq<string>, b: seq<string>, keys: set<string>)
    requires SortedNames(a, keys) && SortedNames(b, keys)
    ensures a == b
  {
    assert a == [] || a[0] in keys;
    assert b == [] || b[0] in keys;
    if a != [] && b != [] {
      HeadIsLeast(a, b[0]);
      HeadIsLeast(b, a[0]);
      BeforeTotal(a[0], b[0]);
      TailNames(a, keys);
      TailNames(b, keys);
      SortedNamesUnique(a[1..], b[1..], keys - {a[0]});
    }
  }

  lemma HeadIsLeast(names: seq<string>, k: string)
    requires Ascending(names) && k in names
    ensures k == names[0] || Before(names[0], k)
  {
  }

  lemma TailNames(names: seq<string>, keys: set<string>)
    requires SortedNames(names, keys) && names != []
    ensures SortedNames(names[1..], keys - {names[0]})
  {
    BeforeTotal(names[0], names[0]);
    forall k ensures k in names[1..] <==> k in keys - {names[0]} {
      if k in names[1..] { BeforeTotal(names[0], k); }
    }
  }
}
