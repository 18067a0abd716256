/** The order manifests are installed in: pkg/kubepkg/manifest/kind_order.go. */
module InstallOrder {
  import opened Json
  import opened Text
  import opened KubeUtil

  /** What sorting looks at, and what a manifest is filed under. */
  datatype Object = Object(kind: string, name: string)

  /** The rest of a manifest: the data of a ConfigMap or Secret, or some other specification. */
  datatype Body = Data(data: map<string, string>) | Spec(spec: Json)

  datatype Manifest = Manifest(id: Object, body: Body)

  const INSTALL_ORDER := [
    "Namespace", "ResourceQuota", "LimitRange", "PodSecurityPolicy", "Secret", "ConfigMap", "StorageClass",
    "PersistentVolume", "PersistentVolumeClaim", "ServiceAccount", "CustomResourceDefinition", "ClusterRole",
    "ClusterRoleBinding", "Role", "RoleBinding", "Service", "DaemonSet", "Pod", "ReplicationController",
    "ReplicaSet", "Deployment", "StatefulSet", "Job", "CronJob", "Ingress", "APIService"]

  /** The `ordering` map of `newKindSorter`. */
  type Ordering = map<string, nat>

  /** The two values of `k.ordering[kind]`: a missing kind reads as 0. */
  function Position(ordering: Ordering, kind: string): nat {
    if kind in ordering then ordering[kind] else 0
  }

  /** `kindSorter.Less`. */
  predicate Less(ordering: Ordering, a: Object, b: Object) {
    var first, second := Position(ordering, a.kind), Position(ordering, b.kind);
    if first == second then
      if a.kind !in ordering && b.kind !in ordering && a.kind != b.kind then Before(a.kind, b.kind)
      else Before(a.name, b.name)
    else if a.kind !in ordering then false
    else if b.kind !in ordering then true
    else first < second
  }

  /** Positions are those of a list without repetitions. */
  ghost predicate IsOrdering(ordering: Ordering) {
    forall k, l | k in ordering && l in ordering && ordering[k] == ordering[l] :: k == l
  }

  ghost function OrderingOf(order: seq<string>): (ordering: Ordering)
    requires NoRepeats(order)
    ensures IsOrdering(ordering)
  {
    map i | 0 <= i < |order| :: order[i] := i
  }

  /** `newKindSorter`'s loop. */
  method NewOrdering(order: seq<string>) returns (ordering: Ordering)
    requires NoRepeats(order)
    ensures ordering == OrderingOf(order)
  {
    ordering := map[];
    for v := 0 to |order|
      invariant forall i | 0 <= i < v :: order[i] in ordering && ordering[order[i]] == i
      invariant forall k | k in ordering :: ordering[k] < v && order[ordering[k]] == k
    {
      ordering := ordering[order[v] := v];
    }
  }

  // ------------------------------------------------------------ when it is an order

  ghost predicate StrictTotalOrder(ordering: Ordering, objects: set<Object>) {
    (forall a | a in objects :: !Less(ordering, a, a)) &&
    (forall a, b | a in objects && b in objects && a != b :: Less(ordering, a, b) || Less(ordering, b, a)) &&
    (forall a, b, c | a in objects && b in objects && c in objects && Less(ordering, a, b) && Less(ordering, b, c) ::
      Less(ordering, a, c))
  }

  predicate First(ordering: Ordering, o: Object) { o.kind in ordering && ordering[o.kind] == 0 }
  predicate Unlisted(ordering: Ordering, o: Object) { o.kind !in ordering }
  predicate Later(ordering: Ordering, o: Object) { o.kind in ordering && ordering[o.kind] > 0 }

  /** Kinds missing from the order share position 0 with the first kind, "Namespace".  They get
      along when every such pair is told apart by name, the namespace comes before each of them
      whenever a later kind occurs, and no namespace falls between two of them the wrong way. */
  ghost predicate NamespacesGetAlong(ordering: Ordering, objects: set<Object>) {
    forall n, u | n in objects && u in objects && First(ordering, n) && Unlisted(ordering, u) ::
      n.name != u.name &&
      (forall l | l in objects && Later(ordering, l) :: Before(n.name, u.name)) &&
      (forall v | v in objects && Unlisted(ordering, v) && Less(ordering, u, v) ::
        !(Before(n.name, u.name) && Before(v.name, n.name)))
  }

  lemma LessFacts(ordering: Ordering, a: Object, b: Object)
    requires IsOrdering(ordering)
    ensures !(Less(ordering, a, b) && Less(ordering, b, a))
    ensures !Less(ordering, a, b) && !Less(ordering, b, a) <==>
      a == b || (a.name == b.name && Position(ordering, a.kind) == Position(ordering, b.kind) == 0 &&
                 (Unlisted(ordering, a) <==> !Unlisted(ordering, b)))
  {
    BeforeTotal(a.name, b.name);
    BeforeTotal(a.kind, b.kind);
  }

  lemma LessTransitive(ordering: Ordering, a: Object, b: Object, c: Object)
    requires IsOrdering(ordering) && NamespacesGetAlong(ordering, {a, b, c})
    requires Less(ordering, a, b) && Less(ordering, b, c)
    ensures Less(ordering, a, c)
  {
    if Before(a.name, b.name) && Before(b.name, c.name) { BeforeTransitive(a.name, b.name, c.name); }
    if Before(a.kind, b.kind) && Before(b.kind, c.kind) { BeforeTransitive(a.kind, b.kind, c.kind); }
    LessFacts(ordering, a, c);
    LessFacts(ordering, a, b);
    LessFacts(ordering, b, c);
    BeforeTotal(a.name, b.name);
    BeforeTotal(b.name, c.name);
    BeforeTotal(a.name, c.name);
    if Less(ordering, c, a) && Before(c.name, a.name) && Before(a.name, b.name) { BeforeTransitive(c.name, a.name, b.name); }
    if Before(b.name, c.name) && Before(c.name, a.name) { BeforeTransitive(b.name, c.name, a.name); }
  }

  lemma SubsetGetsAlong(ordering: Ordering, objects: set<Object>, some: set<Object>)
    requires NamespacesGetAlong(ordering, objects) && some <= objects
    ensures NamespacesGetAlong(ordering, some)
  {
  }

  lemma GettingAlongIsStrictTotal(ordering: Ordering, objects: set<Object>)
    requires IsOrdering(ordering) && NamespacesGetAlong(ordering, objects)
    ensures StrictTotalOrder(ordering, objects)
  {
    forall a, b | a in objects && b in objects ensures a != b ==> Less(ordering, a, b) || Less(ordering, b, a) {
      LessFacts(ordering, a, b);
    }
    forall a | a in objects ensures !Less(ordering, a, a) { LessFacts(ordering, a, a); }
    forall a, b, c | a in objects && b in objects && c in objects && Less(ordering, a, b) && Less(ordering, b, c)
      ensures Less(ordering, a, c)
    {
      SubsetGetsAlong(ordering, objects, {a, b, c});
      LessTransitive(ordering, a, b, c);
    }
  }

  lemma StrictTotalIsGettingAlong(ordering: Ordering, objects: set<Object>)
    requires IsOrdering(ordering) && StrictTotalOrder(ordering, objects)
    ensures NamespacesGetAlong(ordering, objects)
  {
    forall n, u | n in objects && u in objects && First(ordering, n) && Unlisted(ordering, u)
      ensures n.name != u.name
      ensures forall l | l in objects && Later(ordering, l) :: Before(n.name, u.name)
      ensures forall v | v in objects && Unlisted(ordering, v) && Less(ordering, u, v) ::
        !(Before(n.name, u.name) && Before(v.name, n.name))
    {
      LessFacts(ordering, n, u);
      BeforeTotal(n.name, u.name);
      forall l | l in objects && Later(ordering, l) ensures Before(n.name, u.name) {
        assert Less(ordering, n, l) && Less(ordering, l, u);
      }
      forall v | v in objects && Unlisted(ordering, v) && Less(ordering, u, v)
        ensures !(Before(n.name, u.name) && Before(v.name, n.name))
      {
        LessFacts(ordering, n, v);
        LessFacts(ordering, u, v);
      }
    }
  }

  /** `Less` is a strict total order on a set of manifests exactly when namespaces get along. */
  lemma StrictTotalExactly(ordering: Ordering, objects: set<Object>)
    requires IsOrdering(ordering)
    ensures StrictTotalOrder(ordering, objects) <==> NamespacesGetAlong(ordering, objects)
  {
    if NamespacesGetAlong(ordering, objects) { GettingAlongIsStrictTotal(ordering, objects); }
    if StrictTotalOrder(ordering, objects) { StrictTotalIsGettingAlong(ordering, objects); }
  }

  /** With only listed kinds, or without namespaces, the order is total. */
  lemma ListedKindsSuffice(ordering: Ordering, objects: set<Object>)
    requires IsOrdering(ordering)
    requires (forall o | o in objects :: !Unlisted(ordering, o)) || (forall o | o in objects :: !First(ordering, o))
    ensures StrictTotalOrder(ordering, objects)
  {
    StrictTotalExactly(ordering, objects);
  }

  /** A custom resource next to a namespace and a secret closes a cycle. */
  lemma CustomKindCycle(ordering: Ordering, custom: Object, namespace: Object, secret: Object)
    requires First(ordering, namespace) && Later(ordering, secret) && Unlisted(ordering, custom)
    requires Before(custom.name, namespace.name)
    ensures Less(ordering, custom, namespace) && Less(ordering, namespace, secret) && Less(ordering, secret, custom)
  {
  }

  // --------------------------------------------------------------------- sorting

  function Elements(s: seq<Object>): set<Object> { set o | o in s }

  predicate Sorted(ordering: Ordering, s: seq<Object>) { forall i, j | 0 <= i < j < |s| :: Less(ordering, s[i], s[j]) }

  /** Sorting has one result: two sorted arrangements of the same manifests are the same. */
  lemma {:induction false} SortedIsUnique(ordering: Ordering, a: seq<Object>, b: seq<Object>)
    requires IsOrdering(ordering) && Sorted(ordering, a) && Sorted(ordering, b) && Elements(a) == Elements(b)
    ensures a == b
    decreases |a|
  {
    if a == [] {
      assert forall i | 0 <= i < |b| :: b[i] in Elements(b);
    } else {
      assert a[0] in Elements(b) && |b| > 0;
      assert b[0] in Elements(a);
      var i :| 0 <= i < |b| && b[i] == a[0];
      var j :| 0 <= j < |a| && a[j] == b[0];
      if i > 0 && j > 0 { LessFacts(ordering, a[0], b[0]); }
      assert a[0] == b[0];
      forall o ensures o in Elements(a[1..]) <==> o in Elements(b[1..]) {
        TailElements(ordering, a, o);
        TailElements(ordering, b, o);
      }
      SortedIsUnique(ordering, a[1..], b[1..]);
      assert a == [a[0]] + a[1..] && b == [b[0]] + b[1..];
    }
  }

  lemma TailElements(ordering: Ordering, s: seq<Object>, o: Object)
    requires IsOrdering(ordering) && s != [] && Sorted(ordering, s)
    ensures o in Elements(s[1..]) <==> o in Elements(s) && o != s[0]
  {
    LessFacts(ordering, s[0], s[0]);
    if o in s && o != s[0] {
      var i :| 0 <= i < |s| && s[i] == o;
      assert s[1..][i - 1] == o;
    }
    if o in s[1..] {
      var i :| 0 <= i < |s| - 1 && s[1..][i] == o;
      assert s[i + 1] == o;
    }
  }

  /** A set on which `Less` is a strict total order can be arranged. */
  lemma {:induction false} Arrange(ordering: Ordering, objects: set<Object>) returns (order: seq<Object>)
    requires StrictTotalOrder(ordering, objects)
    ensures Sorted(ordering, order) && Elements(order) == objects
    decreases objects
  {
    if objects == {} {
      order := [];
    } else {
      var first := Least(ordering, objects);
      var rest := Arrange(ordering, objects - {first});
      assert forall i | 0 <= i < |rest| :: rest[i] in Elements(rest);
      order := [first] + rest;
      assert forall o :: o in order <==> o == first || o in rest;
      assert Elements(order) == {first} + Elements(rest);
    }
  }

  lemma {:induction false} Least(ordering: Ordering, objects: set<Object>) returns (least: Object)
    requires StrictTotalOrder(ordering, objects) && objects != {}
    ensures least in objects && forall o | o in objects && o != least :: Less(ordering, least, o)
    decreases objects
  {
    var o :| o in objects;
    if objects == {o} {
      least := o;
    } else {
      var other := Least(ordering, objects - {o});
      least := if Less(ordering, o, other) then o else other;
    }
  }

  function Objects(s: seq<Manifest>): seq<Object> { seq(|s|, i requires 0 <= i < |s| => s[i].id) }

  /** `kindSorter.Swap`. */
  method Swap(a: array<Manifest>, i: nat, j: nat)
    requires i < a.Length && j < a.Length
    modifies a
    ensures a[..] == old(a[..])[i := old(a[j])][j := old(a[i])]
    ensures multiset(a[..]) == multiset(old(a[..]))
  {
    a[i], a[j] := a[j], a[i];
  }

  lemma ObjectsSwapped(s: seq<Manifest>, i: nat, j: nat)
    requires i < |s| && j < |s|
    ensures Objects(s[i := s[j]][j := s[i]]) == Objects(s)[i := Objects(s)[j]][j := Objects(s)[i]]
    ensures multiset(Objects(s[i := s[j]][j := s[i]])) == multiset(Objects(s))
  {
    SwappedIsSame(Objects(s), i, j);
  }

  lemma SwappedIsSame(s: seq<Object>, i: nat, j: nat)
    requires i < |s| && j < |s|
    ensures multiset(s[i := s[j]][j := s[i]]) == multiset(s)
  {
  }

  /** Sorted but for the element at `j`, which still has to move left. */
  ghost predicate SortedBut(ordering: Ordering, s: seq<Object>, end: nat, j: nat)
    requires j < end <= |s|
  {
    forall p, q {:trigger Less(ordering, s[p], s[q])} | 0 <= p < q < end && q != j :: Less(ordering, s[p], s[q])
  }

  /** `sort.Sort`, by insertion with `Less` and `Swap`.  The manifests stay the same; they end up
      in order when `Less` orders them. */
  method SortByKind(a: array<Manifest>, ordering: Ordering)
    requires IsOrdering(ordering)
    modifies a
    ensures multiset(a[..]) == multiset(old(a[..]))
    ensures NoRepeats(Objects(old(a[..]))) && NamespacesGetAlong(ordering, Elements(Objects(old(a[..])))) ==>
      Sorted(ordering, Objects(a[..]))
  {
    ghost var start := Objects(a[..]);
    ghost var good := NoRepeats(start) && StrictTotalOrder(ordering, Elements(start));
    StrictTotalExactly(ordering, Elements(start));
    for i := 0 to a.Length
      invariant multiset(a[..]) == multiset(old(a[..]))
      invariant multiset(Objects(a[..])) == multiset(start)
      invariant good ==> Sorted(ordering, Objects(a[..])[..i])
    {
      if good {
        SameElements(start, Objects(a[..]));
        SameMultisetNoRepeats(start, Objects(a[..]));
      }
      Insert(a, ordering, i, good);
    }
    assert Objects(a[..]) == Objects(a[..])[..a.Length];
  }

  /** One step to the left. */
  method SwapBack(a: array<Manifest>, ordering: Ordering, end: nat, j: nat, ghost good: bool, ghost start: seq<Object>)
    requires 0 < j < end <= a.Length && Less(ordering, a[j].id, a[j - 1].id)
    requires multiset(Objects(a[..])) == multiset(start)
    requires good ==> StrictTotalOrder(ordering, Elements(start)) && SortedBut(ordering, Objects(a[..]), end, j)
    modifies a
    ensures multiset(a[..]) == multiset(old(a[..]))
    ensures multiset(Objects(a[..])) == multiset(start)
    ensures good ==> SortedBut(ordering, Objects(a[..]), end, j - 1)
  {
    ghost var before := a[..];
    ObjectsSwapped(before, j, j - 1);
    if good { SwapKeepsSortedBut(ordering, start, Objects(before), end, j); }
    Swap(a, j, j - 1);
    assert a[..] == before[j := before[j - 1]][j - 1 := before[j]];
  }

  /** Move the element at `i` left to its place among those before it. */
  method Insert(a: array<Manifest>, ordering: Ordering, i: nat, ghost good: bool)
    requires i < a.Length
    requires good ==> NoRepeats(Objects(a[..])) && StrictTotalOrder(ordering, Elements(Objects(a[..])))
    requires good ==> Sorted(ordering, Objects(a[..])[..i])
    modifies a
    ensures multiset(a[..]) == multiset(old(a[..]))
    ensures multiset(Objects(a[..])) == multiset(Objects(old(a[..])))
    ensures good ==> Sorted(ordering, Objects(a[..])[..i + 1])
  {
    var j := i;
    ghost var start := Objects(a[..]);
    if good { SortedButLast(ordering, start, i); }
    while j > 0 && Less(ordering, a[j].id, a[j - 1].id)
      invariant 0 <= j <= i
      invariant multiset(a[..]) == multiset(old(a[..]))
      invariant multiset(Objects(a[..])) == multiset(start)
      invariant good ==> SortedBut(ordering, Objects(a[..]), i + 1, j)
    {
      SwapBack(a, ordering, i + 1, j, good, start);
      j := j - 1;
    }
    if good { SortedButDone(ordering, start, Objects(a[..]), i + 1, j); }
  }

  lemma SameElements(s: seq<Object>, t: seq<Object>)
    requires multiset(s) == multiset(t)
    ensures Elements(s) == Elements(t)
  {
    forall o ensures o in s <==> o in t { assert o in multiset(s) <==> o in multiset(t); }
  }

  lemma SameMultisetNoRepeats(s: seq<Object>, t: seq<Object>)
    requires multiset(s) == multiset(t) && NoRepeats(s)
    ensures NoRepeats(t)
  {
    forall i, j | 0 <= i < j < |t| ensures t[i] != t[j] {
      AtMostOnce(s, t[i]);
      TwoPlaces(t, i, j);
    }
  }

  lemma TwoPlaces(t: seq<Object>, i: nat, j: nat)
    requires i < j < |t|
    ensures t[i] == t[j] ==> multiset(t)[t[i]] >= 2
  {
    assert t == t[..j] + t[j..];
    assert t[i] in t[..j] && t[j] in t[j..];
  }

  lemma {:induction false} AtMostOnce(s: seq<Object>, o: Object)
    requires NoRepeats(s)
    ensures multiset(s)[o] <= 1
  {
    if s == [] {
    } else {
      var n := |s| - 1;
      assert s == s[..n] + [s[n]];
      AtMostOnce(s[..n], o);
      if s[n] == o { assert o !in s[..n]; }
    }
  }

  lemma SortedButLast(ordering: Ordering, s: seq<Object>, j: nat)
    requires j < |s| && Sorted(ordering, s[..j])
    ensures SortedBut(ordering, s, j + 1, j)
  {
    forall p, q | 0 <= p < q < j ensures Less(ordering, s[p], s[q]) { assert s[..j][p] == s[p] && s[..j][q] == s[q]; }
  }

  lemma SwapKeepsSortedBut(ordering: Ordering, start: seq<Object>, s: seq<Object>, end: nat, j: nat)
    requires StrictTotalOrder(ordering, Elements(start)) && multiset(s) == multiset(start)
    requires 0 < j < end <= |s| && SortedBut(ordering, s, end, j) && Less(ordering, s[j], s[j - 1])
    ensures SortedBut(ordering, s[j := s[j - 1]][j - 1 := s[j]], end, j - 1)
  {
    var t := s[j := s[j - 1]][j - 1 := s[j]];
    forall p, q | 0 <= p < q < end && q != j - 1 ensures Less(ordering, t[p], t[q]) {
      if q == j {
        assert p < j - 1 ==> Less(ordering, s[p], s[j - 1]);
      } else {
        assert Less(ordering, s[if p == j then j - 1 else if p == j - 1 then j else p], s[q]);
      }
    }
  }

  lemma SortedButDone(ordering: Ordering, start: seq<Object>, s: seq<Object>, end: nat, j: nat)
    requires StrictTotalOrder(ordering, Elements(start)) && NoRepeats(start) && multiset(s) == multiset(start)
    requires j < end <= |s| && SortedBut(ordering, s, end, j) && (j > 0 ==> !Less(ordering, s[j], s[j - 1]))
    ensures Sorted(ordering, s[..end])
  {
    SameElements(start, s);
    SameMultisetNoRepeats(start, s);
    var all := Elements(start);
    forall p | 0 <= p < j ensures Less(ordering, s[p], s[j]) {
      assert s[p] in all && s[j - 1] in all && s[j] in all && s[j] != s[j - 1];
    }
  }

  /** What the order is on listed and on other kinds. */
  lemma OrderMeaning(order: seq<string>, a: Object, b: Object)
    requires NoRepeats(order)
    ensures var ordering := OrderingOf(order);
      (forall i, j | 0 <= i < |order| && 0 <= j < |order| && a.kind == order[i] && b.kind == order[j] ::
        Less(ordering, a, b) <==> i < j || (i == j && Before(a.name, b.name))) &&
      (a.kind !in order && b.kind !in order ==>
        (Less(ordering, a, b) <==> if a.kind == b.kind then Before(a.name, b.name) else Before(a.kind, b.kind))) &&
      (a.kind in order && b.kind !in order ==>
        (Less(ordering, a, b) <==> a.kind != order[0] || Before(a.name, b.name)) &&
        (Less(ordering, b, a) <==> a.kind == order[0] && Before(b.name, a.name)))
  {
    var ordering := OrderingOf(order);
    forall i | 0 <= i < |order| ensures order[i] in ordering && ordering[order[i]] == i {
    }
  }
}
