/** Which images a package needs resolved: `collectImages` of pkg/kubepkg/digestresolver.go. */
module ImageCollector {
  import opened Wrappers
  import opened Text
  import opened KubeUtil

  /** The digest noted for each image name; empty when none is known. */
  type Images = map<string, string>

  /** A manifest, as far as images go: one with pods, a package with manifests of its own, or anything else. */
  datatype Found = Pods(kind: string, init: seq<string>, containers: seq<string>) | Nested(manifests: set<Found>) | Other

  function NameOf(image: string): string { Split(image, '@')[0] }

  /** The digest that an image reference is pinned to. */
  function PinOf(image: string): Option<string> {
    var parts := Split(image, '@');
    if |parts| > 1 then Some(parts[1]) else None
  }

  function Noted(images: Images, image: string): Images {
    var name := NameOf(image);
    images[name := if PinOf(image).Some? then PinOf(image).value else if name in images then images[name] else ""]
  }

  function NotedAll(images: Images, refs: seq<string>): Images {
    if refs == [] then images else Noted(NotedAll(images, refs[..|refs| - 1]), refs[|refs| - 1])
  }

  /** The references of a manifest with pods that are collected: not those of init containers, nor of jobs. */
  function Refs(pods: Found): seq<string> {
    if pods.Pods? && pods.kind in ["Deployment", "DaemonSet", "StatefulSet"] then pods.containers else []
  }

  /** `refs` are the references in the order of some run, which takes the manifests of a package in any
      order and finishes each before the next. */
  ghost predicate IsVisit(found: Found, refs: seq<string>)
    decreases found, 1
  {
    if found.Nested? then exists order: seq<Found> | Enumerates(order, found.manifests) :: IsVisitInTurn(found, order, refs)
    else refs == Refs(found)
  }

  ghost predicate IsVisitInTurn(found: Found, order: seq<Found>, refs: seq<string>)
    requires found.Nested?
    decreases found, 0, |order|
  {
    if order == [] then refs == []
    else
      var n := |order| - 1;
      order[n] in found.manifests &&
      exists cut: nat | cut <= |refs| :: IsVisitInTurn(found, order[..n], refs[..cut]) && IsVisit(order[n], refs[cut..])
  }

  method FromContainers(images: Images, containers: seq<string>) returns (after: Images)
    ensures after == NotedAll(images, containers)
  {
    after := images;
    for i := 0 to |containers|
      invariant after == NotedAll(images, containers[..i])
    {
      assert containers[..i + 1][..i] == containers[..i];
      var parts := Split(containers[i], '@');
      var d := "";
      if parts[0] in after { d := after[parts[0]]; }
      if |parts| > 1 { d := parts[1]; }
      after := after[parts[0] := d];
    }
    assert containers[..|containers|] == containers;
  }

  method CollectImages(images: Images, pkg: Found) returns (after: Images, ghost refs: seq<string>)
    requires pkg.Nested?
    ensures IsVisit(pkg, refs) && after == NotedAll(images, refs)
    ensures forall name :: name in after <==> name in images || IsNamed(pkg, name)
    decreases pkg, 0
  {
    after, refs := images, [];
    var todo := pkg.manifests;
    NothingVisited(pkg);
    while todo != {}
      invariant todo <= pkg.manifests && Visited(pkg, pkg.manifests - todo, refs) && after == NotedAll(images, refs)
      decreases todo
    {
      var o :| o in todo;
      ghost var more;
      after, more := CollectOne(after, o);
      NotedConcat(images, refs, more);
      VisitedOneMore(pkg, pkg.manifests - todo, refs, o, more);
      todo := todo - {o};
      assert pkg.manifests - todo == pkg.manifests - (todo + {o}) + {o};
      refs := refs + more;
    }
    assert pkg.manifests - todo == pkg.manifests;
    forall name ensures name in after <==> name in images || IsNamed(pkg, name) {
      CollectedExactly(images, pkg, refs, name);
    }
  }

  /** These manifests have been visited, in some order. */
  ghost predicate Visited(found: Found, done: set<Found>, refs: seq<string>)
    requires found.Nested?
  {
    exists order: seq<Found> | Enumerates(order, done) :: IsVisitInTurn(found, order, refs)
  }

  lemma NothingVisited(found: Found)
    requires found.Nested?
    ensures Visited(found, {}, [])
  {
    var none: seq<Found> := [];
    assert Enumerates(none, {}) && IsVisitInTurn(found, none, []);
  }

  lemma VisitedOneMore(found: Found, done: set<Found>, refs: seq<string>, o: Found, more: seq<string>)
    requires found.Nested? && Visited(found, done, refs) && o in found.manifests && o !in done && IsVisit(o, more)
    ensures Visited(found, done + {o}, refs + more)
  {
    var order: seq<Found> :| Enumerates(order, done) && IsVisitInTurn(found, order, refs);
    OneMoreVisited(found, order, refs, o, more);
    assert Enumerates(order + [o], done + {o});
  }

  /** One manifest, by its kind. */
  method CollectOne(images: Images, o: Found) returns (after: Images, ghost refs: seq<string>)
    ensures IsVisit(o, refs) && after == NotedAll(images, refs)
    decreases o, 1
  {
    after, refs := images, [];
    match o
    case Pods(kind, _, containers) =>
      if kind in ["Deployment", "DaemonSet", "StatefulSet"] {
        after := FromContainers(after, containers);
        refs := containers;
      }
    case Nested(_) => after, refs := CollectImages(after, o);
    case Other =>
  }

  lemma OneMoreVisited(found: Found, order: seq<Found>, refs: seq<string>, o: Found, more: seq<string>)
    requires found.Nested? && o in found.manifests && IsVisitInTurn(found, order, refs) && IsVisit(o, more)
    ensures IsVisitInTurn(found, order + [o], refs + more)
  {
    var all, order' := refs + more, order + [o];
    var cut: nat := |refs|;
    assert all[..cut] == refs && all[cut..] == more && order'[..|order'| - 1] == order;
  }

  lemma {:induction false} NotedConcat(images: Images, a: seq<string>, b: seq<string>)
    ensures NotedAll(images, a + b) == NotedAll(NotedAll(images, a), b)
  {
    if b == [] {
      assert a + b == a;
    } else {
      assert (a + b)[..|a + b| - 1] == a + b[..|b| - 1];
      NotedConcat(images, a, b[..|b| - 1]);
    }
  }

  // ------------------------------------------------------------------ what is noted

  /** The last digest that a list pins the name to. */
  function LastPin(refs: seq<string>, name: string): Option<string> {
    if refs == [] then None
    else
      var last := refs[|refs| - 1];
      if NameOf(last) == name && PinOf(last).Some? then PinOf(last) else LastPin(refs[..|refs| - 1], name)
  }

  predicate Names(refs: seq<string>, name: string) { exists i | 0 <= i < |refs| :: NameOf(refs[i]) == name }

  function Known(images: Images, name: string): string { if name in images then images[name] else "" }

  /** Exactly the names that occur are noted, each with its last pin, or else with what was known. */
  lemma {:induction false} NotedExactly(images: Images, refs: seq<string>, name: string)
    ensures name in NotedAll(images, refs) <==> name in images || Names(refs, name)
    ensures Known(NotedAll(images, refs), name) ==
      if LastPin(refs, name).Some? then LastPin(refs, name).value else Known(images, name)
  {
    if refs == [] {
    } else {
      var n := |refs| - 1;
      NotedExactly(images, refs[..n], name);
      assert Names(refs, name) <==> Names(refs[..n], name) || NameOf(refs[n]) == name by {
        assert forall i | 0 <= i < n :: refs[..n][i] == refs[i];
      }
    }
  }

  lemma {:induction false} LastPinConcat(a: seq<string>, b: seq<string>, name: string)
    ensures LastPin(a + b, name) == if LastPin(b, name).Some? then LastPin(b, name) else LastPin(a, name)
    ensures Names(a + b, name) <==> Names(a, name) || Names(b, name)
  {
    assert forall i | 0 <= i < |a| :: (a + b)[i] == a[i];
    assert forall i | 0 <= i < |b| :: (a + b)[|a| + i] == b[i];
    if b == [] {
      assert a + b == a;
    } else {
      assert (a + b)[..|a + b| - 1] == a + b[..|b| - 1];
      LastPinConcat(a, b[..|b| - 1], name);
    }
  }

  /** Some manifest with pods, at whatever depth, has a collected reference with this name. */
  ghost predicate IsNamed(found: Found, name: string) {
    if found.Nested? then exists m | m in found.manifests :: IsNamed(m, name) else Names(Refs(found), name)
  }

  /** Some manifest with pods, at whatever depth, pins the name to `pin` last. */
  ghost predicate IsPinned(found: Found, name: string, pin: string) {
    if found.Nested? then exists m | m in found.manifests :: IsPinned(m, name, pin)
    else LastPin(Refs(found), name) == Some(pin)
  }

  /** What a visit comes to: the names of its manifests, and one of their pins if there are any. */
  ghost predicate VisitShows(found: Found, refs: seq<string>, name: string) {
    (Names(refs, name) <==> IsNamed(found, name)) &&
    (LastPin(refs, name).Some? ==> IsPinned(found, name, LastPin(refs, name).value)) &&
    (LastPin(refs, name).None? ==> forall pin :: !IsPinned(found, name, pin))
  }

  lemma {:induction false} VisitsShow(found: Found, refs: seq<string>, name: string)
    requires IsVisit(found, refs)
    ensures VisitShows(found, refs, name)
    decreases found, 1
  {
    if found.Nested? {
      var order: seq<Found> :| Enumerates(order, found.manifests) && IsVisitInTurn(found, order, refs);
      VisitsInTurnShow(found, order, refs, name);
      ManifestsInTurn(found, order, name);
    }
  }

  ghost predicate SomeNamed(order: seq<Found>, name: string) { exists i | 0 <= i < |order| :: IsNamed(order[i], name) }
  ghost predicate SomePinned(order: seq<Found>, name: string, pin: string) {
    exists i | 0 <= i < |order| :: IsPinned(order[i], name, pin)
  }

  lemma ManifestsInTurn(found: Found, order: seq<Found>, name: string)
    requires found.Nested? && Enumerates(order, found.manifests)
    ensures SomeNamed(order, name) <==> IsNamed(found, name)
    ensures forall pin :: SomePinned(order, name, pin) <==> IsPinned(found, name, pin)
  {
    assert forall i | 0 <= i < |order| :: order[i] in order && order[i] in found.manifests;
    forall m | m in found.manifests ensures exists i | 0 <= i < |order| :: order[i] == m { assert m in order; }
  }

  ghost predicate ShowsInTurn(order: seq<Found>, refs: seq<string>, name: string) {
    (Names(refs, name) <==> SomeNamed(order, name)) &&
    (LastPin(refs, name).Some? ==> SomePinned(order, name, LastPin(refs, name).value)) &&
    (LastPin(refs, name).None? ==> forall pin :: !SomePinned(order, name, pin))
  }

  lemma OneMoreShown(order: seq<Found>, refs: seq<string>, o: Found, more: seq<string>, name: string)
    requires ShowsInTurn(order, refs, name) && VisitShows(o, more, name)
    ensures ShowsInTurn(order + [o], refs + more, name)
  {
    LastPinConcat(refs, more, name);
    var all := order + [o];
    assert forall i | 0 <= i < |order| :: all[i] == order[i];
    assert all[|order|] == o;
    assert SomeNamed(all, name) <==> SomeNamed(order, name) || IsNamed(o, name);
    forall pin ensures SomePinned(all, name, pin) <==> SomePinned(order, name, pin) || IsPinned(o, name, pin) {}
  }

  lemma {:induction false} VisitsInTurnShow(found: Found, order: seq<Found>, refs: seq<string>, name: string)
    requires found.Nested? && IsVisitInTurn(found, order, refs)
    ensures ShowsInTurn(order, refs, name)
    decreases found, 0, |order|
  {
    if order == [] {
    } else {
      var n := |order| - 1;
      var cut: nat :| cut <= |refs| && IsVisitInTurn(found, order[..n], refs[..cut]) && IsVisit(order[n], refs[cut..]);
      var before, last := refs[..cut], refs[cut..];
      assert refs == before + last && order == order[..n] + [order[n]];
      VisitsInTurnShow(found, order[..n], before, name);
      VisitsShow(order[n], last, name);
      OneMoreShown(order[..n], before, order[n], last, name);
    }
  }

  /** Exactly the names among the collected references are noted, in every run. */
  lemma CollectedExactly(images: Images, found: Found, refs: seq<string>, name: string)
    requires IsVisit(found, refs)
    ensures name in NotedAll(images, refs) <==> name in images || IsNamed(found, name)
  {
    VisitsShow(found, refs, name);
    NotedExactly(images, refs, name);
  }

  /** An image that, at any depth, only init containers or other kinds of manifests name is not noted. */
  lemma InitImageIsMissed(images: Images, manifests: set<Found>, refs: seq<string>, name: string)
    requires IsVisit(Nested(manifests), refs) && name !in images
    requires forall m | m in manifests :: OnlyElsewhere(m, name)
    ensures name !in NotedAll(images, refs)
  {
    forall m | m in manifests ensures !IsNamed(m, name) { ElsewhereIsNotNamed(m, name); }
    CollectedExactly(images, Nested(manifests), refs, name);
  }

  /** No container proper of a deployment, daemon set or stateful set has the image. */
  ghost predicate OnlyElsewhere(found: Found, name: string) {
    match found
    case Pods(kind, _, containers) => kind in ["Deployment", "DaemonSet", "StatefulSet"] ==> !Names(containers, name)
    case Nested(manifests) => forall m | m in manifests :: OnlyElsewhere(m, name)
    case Other => true
  }

  lemma {:induction false} ElsewhereIsNotNamed(found: Found, name: string)
    ensures OnlyElsewhere(found, name) <==> !IsNamed(found, name)
  {
    if found.Nested? {
      forall m | m in found.manifests { ElsewhereIsNotNamed(m, name); }
    }
  }

  /** A reference is a name, or a name and the digest it is pinned to around `@`. */
  lemma ReferenceMeaning(name: string, pin: string)
    requires Free(name, '@') && Free(pin, '@')
    ensures NameOf(name) == name && PinOf(name) == None
    ensures NameOf(name + "@" + pin) == name && PinOf(name + "@" + pin) == Some(pin)
  {
    SplitWhole(name, '@');
    SplitFirst(name, '@', pin);
    SplitWhole(pin, '@');
  }

  // --------------------------------------------------------------- any order of visit

  /** No name is pinned to different digests. */
  ghost predicate PinsAgree(found: Found) {
    forall name, p, q | IsPinned(found, name, p) && IsPinned(found, name, q) :: p == q
  }

  /** What is noted is the same for every order, at every depth, exactly when no two manifests pin one
      name to different digests. */
  lemma NotedDeterminedExactly(images: Images, found: Found)
    ensures PinsAgree(found) <==>
      forall p, q | IsVisit(found, p) && IsVisit(found, q) :: NotedAll(images, p) == NotedAll(images, q)
  {
    if PinsAgree(found) {
      forall p, q | IsVisit(found, p) && IsVisit(found, q) ensures NotedAll(images, p) == NotedAll(images, q) {
        AgreedNotes(images, found, p, q);
      }
    } else {
      var name, a, b :| IsPinned(found, name, a) && IsPinned(found, name, b) && a != b;
      var p := VisitEndingWith(found, name, a);
      var q := VisitEndingWith(found, name, b);
      NotedExactly(images, p, name);
      NotedExactly(images, q, name);
    }
  }

  lemma AgreedNotes(images: Images, found: Found, p: seq<string>, q: seq<string>)
    requires PinsAgree(found) && IsVisit(found, p) && IsVisit(found, q)
    ensures NotedAll(images, p) == NotedAll(images, q)
  {
    var a, b := NotedAll(images, p), NotedAll(images, q);
    forall name
      ensures name in a <==> name in b
      ensures Known(a, name) == Known(b, name)
    {
      VisitsShow(found, p, name);
      VisitsShow(found, q, name);
      NotedExactly(images, p, name);
      NotedExactly(images, q, name);
    }
    assert forall name | name in a :: a[name] == Known(a, name) == Known(b, name) == b[name];
  }

  /** Some visit, whatever it is. */
  lemma {:induction false} SomeVisit(found: Found) returns (refs: seq<string>)
    ensures IsVisit(found, refs)
    decreases found, 1
  {
    if found.Nested? {
      var order := Enumerate(found.manifests);
      assert forall i | 0 <= i < |order| :: order[i] in order;
      refs := SomeVisitInTurn(found, order);
    } else {
      refs := Refs(found);
    }
  }

  lemma {:induction false} SomeVisitInTurn(found: Found, order: seq<Found>) returns (refs: seq<string>)
    requires found.Nested? && forall i | 0 <= i < |order| :: order[i] in found.manifests
    ensures IsVisitInTurn(found, order, refs)
    decreases found, 0, |order|
  {
    if order == [] {
      refs := [];
    } else {
      var n := |order| - 1;
      var before := SomeVisitInTurn(found, order[..n]);
      var last := SomeVisit(order[n]);
      OneMoreVisited(found, order[..n], before, order[n], last);
      assert order[..n] + [order[n]] == order;
      refs := before + last;
    }
  }

  /** Any manifest can have the last word. */
  lemma {:induction false} VisitEndingWith(found: Found, name: string, pin: string) returns (refs: seq<string>)
    requires IsPinned(found, name, pin)
    ensures IsVisit(found, refs) && LastPin(refs, name) == Some(pin)
  {
    if found.Nested? {
      var m :| m in found.manifests && IsPinned(m, name, pin);
      var order := EnumerateWithLast(found.manifests, m);
      assert forall i | 0 <= i < |order| :: order[i] in order;
      var before := SomeVisitInTurn(found, order[..|order| - 1]);
      var last := VisitEndingWith(m, name, pin);
      LastWord(found, order, before, m, last);
      LastPinConcat(before, last, name);
      refs := before + last;
    } else {
      refs := Refs(found);
    }
  }

  lemma LastWord(found: Found, order: seq<Found>, before: seq<string>, m: Found, last: seq<string>)
    requires found.Nested? && Enumerates(order, found.manifests) && order != [] && order[|order| - 1] == m
    requires IsVisitInTurn(found, order[..|order| - 1], before) && m in found.manifests && IsVisit(m, last)
    ensures IsVisit(found, before + last)
  {
    OneMoreVisited(found, order[..|order| - 1], before, m, last);
    assert order[..|order| - 1] + [m] == order;
  }
}
