/** `DigestResolver.Resolve`: all the images of a package. */
module PackageResolver {
  import opened Wrappers
  import opened Text
  import opened Registry
  import opened DigestResolver
  import opened ResolverProofs
  import opened ImageCollector

  /** `parseImageCtx`: library parsing of image names. */
  type ImageParser = string -> Option<ImageCtx>

  function NeededPlatforms(pkg: KubePkg): seq<string> {
    if pkg.platforms != "" then Split(pkg.platforms, ',') else []
  }

  /** The context `Resolve` starts from for one image: a recorded digest wins over the tag. */
  function ImageRoot(parse: ImageParser, pkg: KubePkg, name: string): Option<ImageCtx>
    requires name in pkg.images
  {
    if parse(name).None? then None
    else
      var ctx := parse(name).value.(neededPlatforms := NeededPlatforms(pkg));
      if pkg.images[name] != "" && ParseDigest(pkg.images[name]).Some?
      then Some(ctx.WithDigest(pkg.images[name])) else Some(ctx)
  }

  /** The image was resolved: its root is pinned, and all its digests are recorded. */
  ghost predicate ImageResolved(c: Content, rank: Rank, parse: ImageParser, pkg: KubePkg, name: string,
                                images: map<string, string>, digests: seq<DigestMeta>)
    requires Acyclic(c, rank) && name in pkg.images
  {
    ImageRoot(parse, pkg, name).Some? &&
    var ctx := ImageRoot(parse, pkg, name).value;
    WalkRoot(c, rank, ctx).ok &&
    name in images && images[name] == Rooted(c, ctx).value.digest.value &&
    forall meta | meta in WalkRoot(c, rank, ctx).metas :: meta in digests
  }

  /** Where resolving an image of the package starts: a recorded digest wins over one in the name of the
      image, and that over its tag. */
  ghost predicate StartsAt(c: Content, parse: ImageParser, pkg: KubePkg, name: string, d: Digest) {
    name in pkg.images && parse(name).Some? &&
    var image := parse(name).value;
    if ParseDigest(pkg.images[name]).Some? then d == pkg.images[name]
    else if image.digest.Some? then d == image.digest.value
    else (image.name, image.tag) in c.tags && d == c.tags[(image.name, image.tag)]
  }

  /** Resolving the image `name` of the package from the digest `start` leads to `to`: the platforms
      wanted are those its annotation lists around commas. */
  ghost predicate ImageFinds(c: Content, parse: ImageParser, pkg: KubePkg, name: string, to: Spot) {
    exists start | StartsAt(c, parse, pkg, name, start) ::
      IsFound(c, if pkg.platforms == "" then [] else Split(pkg.platforms, ','), Spot(start, parse(name).value.platform), to)
  }

  lemma RootMeaning(c: Content, parse: ImageParser, pkg: KubePkg, name: string)
    requires name in pkg.images
    ensures (ImageRoot(parse, pkg, name).Some? && Rooted(c, ImageRoot(parse, pkg, name).value).Some?) <==>
      exists d :: StartsAt(c, parse, pkg, name, d)
    ensures forall d | StartsAt(c, parse, pkg, name, d) ::
      Rooted(c, ImageRoot(parse, pkg, name).value) ==
        Some(parse(name).value.(digest := Some(d), neededPlatforms := if pkg.platforms == "" then [] else Split(pkg.platforms, ',')))
  {
    if ImageRoot(parse, pkg, name).Some? && Rooted(c, ImageRoot(parse, pkg, name).value).Some? {
      assert StartsAt(c, parse, pkg, name, Rooted(c, ImageRoot(parse, pkg, name).value).value.digest.value);
    }
  }

  /** A package has been resolved when each image is pinned to where its resolution starts, all that
      this leads to are manifests, and the records are those it had before and those of what its images lead to. */
  lemma ResolvedMeaning(c: Content, rank: Rank, parse: ImageParser, pkg: KubePkg, r: KubePkg)
    requires Acyclic(c, rank) && IsResolved(c, rank, parse, pkg, r)
    ensures forall name | name in pkg.images :: StartsAt(c, parse, pkg, name, r.images[name])
    ensures forall name, to | ImageFinds(c, parse, pkg, name, to) :: to.digest in c.manifests
    ensures forall m :: m in r.digests <==>
      m in pkg.digests || exists name, to | ImageFinds(c, parse, pkg, name, to) ::
        Records(c, to, parse(name).value.name, parse(name).value.tag, m)
  {
    forall name | name in pkg.images ensures StartsAt(c, parse, pkg, name, r.images[name]) {
      assert ImageResolved(c, rank, parse, pkg, name, r.images, r.digests);
      RootMeaning(c, parse, pkg, name);
    }
    forall name, to | ImageFinds(c, parse, pkg, name, to)
      ensures to.digest in c.manifests
      ensures forall m | Records(c, to, parse(name).value.name, parse(name).value.tag, m) :: m in r.digests
    {
      FoundIsRecorded(c, rank, parse, pkg, r, name, to);
    }
    forall m | m in r.digests && m !in pkg.digests
      ensures exists name, to | ImageFinds(c, parse, pkg, name, to) ::
        Records(c, to, parse(name).value.name, parse(name).value.tag, m)
    {
      var name, to := RecordedIsFound(c, rank, parse, pkg, m);
    }
  }

  lemma FoundIsRecorded(c: Content, rank: Rank, parse: ImageParser, pkg: KubePkg, r: KubePkg, name: string, to: Spot)
    requires Acyclic(c, rank) && IsResolved(c, rank, parse, pkg, r) && ImageFinds(c, parse, pkg, name, to)
    ensures to.digest in c.manifests
    ensures forall m | Records(c, to, parse(name).value.name, parse(name).value.tag, m) :: m in r.digests
  {
    assert ImageResolved(c, rank, parse, pkg, name, r.images, r.digests);
    RootMeaning(c, parse, pkg, name);
    var root := Rooted(c, ImageRoot(parse, pkg, name).value).value;
    var path :| Leads(c, root.neededPlatforms, Here(root), path, to);
    WalkIsComplete(c, rank, root, path, to);
  }

  lemma RecordedIsFound(c: Content, rank: Rank, parse: ImageParser, pkg: KubePkg, m: DigestMeta)
    returns (name: string, to: Spot)
    requires Acyclic(c, rank) && FromImage(c, rank, parse, pkg, m)
    ensures ImageFinds(c, parse, pkg, name, to)
    ensures Records(c, to, parse(name).value.name, parse(name).value.tag, m)
  {
    name :| name in pkg.images && ImageRoot(parse, pkg, name).Some? &&
      m in WalkRoot(c, rank, ImageRoot(parse, pkg, name).value).metas;
    RootMeaning(c, parse, pkg, name);
    var root := Rooted(c, ImageRoot(parse, pkg, name).value).value;
    var path;
    path, to := WalkIsSound(c, rank, root, m);
    assert StartsAt(c, parse, pkg, name, root.digest.value);
    assert IsFound(c, root.neededPlatforms, Here(root), to);
  }

  /** An image resolves exactly when its resolution has a start, and leads to nothing but manifests. */
  lemma ResolvesExactly(c: Content, rank: Rank, parse: ImageParser, pkg: KubePkg, name: string)
    requires Acyclic(c, rank) && name in pkg.images
    ensures (ImageRoot(parse, pkg, name).Some? && WalkRoot(c, rank, ImageRoot(parse, pkg, name).value).ok) <==>
      ((exists d :: StartsAt(c, parse, pkg, name, d)) &&
       forall to | ImageFinds(c, parse, pkg, name, to) :: to.digest in c.manifests)
  {
    RootMeaning(c, parse, pkg, name);
    if d :| StartsAt(c, parse, pkg, name, d) {
      var root := Rooted(c, ImageRoot(parse, pkg, name).value).value;
      WalkSucceedsExactly(c, rank, root);
      forall to ensures ImageFinds(c, parse, pkg, name, to) <==> IsFound(c, root.neededPlatforms, Here(root), to) {
        if IsFound(c, root.neededPlatforms, Here(root), to) { assert ImageFinds(c, parse, pkg, name, to); }
      }
    }
  }

  /** Resolving some image of the package records `m`. */
  ghost predicate FromImage(c: Content, rank: Rank, parse: ImageParser, pkg: KubePkg, m: DigestMeta)
    requires Acyclic(c, rank)
  {
    exists name | name in pkg.images ::
      ImageRoot(parse, pkg, name).Some? && m in WalkRoot(c, rank, ImageRoot(parse, pkg, name).value).metas
  }

  /** The package with every image resolved, all their digests recorded after those it had, and no
      others. */
  ghost predicate IsResolved(c: Content, rank: Rank, parse: ImageParser, pkg: KubePkg, r: KubePkg)
    requires Acyclic(c, rank)
  {
    r == pkg.(images := r.images, digests := r.digests) &&
    r.images.Keys == pkg.images.Keys && pkg.digests <= r.digests &&
    (forall name | name in pkg.images :: ImageResolved(c, rank, parse, pkg, name, r.images, r.digests)) &&
    (forall m | m in r.digests :: m in pkg.digests || FromImage(c, rank, parse, pkg, m))
  }

  lemma WalkKeepsPostOrder(c: Content, rank: Rank, root: ImageCtx, before: seq<DigestMeta>)
    requires Acyclic(c, rank) && PlainImages(c) && Rooted(c, root).Some? && PostOrdered(c, root.neededPlatforms, before)
    ensures PostOrdered(c, root.neededPlatforms, before + WalkRoot(c, rank, root).metas)
  {
    WalkIsPostOrdered(c, rank, Rooted(c, root).value);
    PostOrderedConcat(c, root.neededPlatforms, before, WalkRoot(c, rank, root).metas);
  }

  /** What has been resolved when the images in `todo` are left. */
  ghost predicate Progress(c: Content, rank: Rank, parse: ImageParser, pkg: KubePkg, images: map<string, string>,
                           digests: seq<DigestMeta>, todo: set<string>)
    requires Acyclic(c, rank)
  {
    todo <= pkg.images.Keys == images.Keys && pkg.digests <= digests &&
    (forall name | name in pkg.images && name !in todo :: ImageResolved(c, rank, parse, pkg, name, images, digests)) &&
    (forall m | m in digests :: m in pkg.digests || FromImage(c, rank, parse, pkg, m)) &&
    (PlainImages(c) && PostOrdered(c, NeededPlatforms(pkg), pkg.digests) ==> PostOrdered(c, NeededPlatforms(pkg), digests))
  }

  /** Resolving one more image. */
  lemma ImageDone(c: Content, rank: Rank, parse: ImageParser, pkg: KubePkg, images: map<string, string>,
                  digests: seq<DigestMeta>, todo: set<string>, name: string)
    requires Acyclic(c, rank) && Progress(c, rank, parse, pkg, images, digests, todo) && name in todo
    requires ImageRoot(parse, pkg, name).Some? && WalkRoot(c, rank, ImageRoot(parse, pkg, name).value).ok
    ensures var root := ImageRoot(parse, pkg, name).value;
      Progress(c, rank, parse, pkg, images[name := Rooted(c, root).value.digest.value],
               digests + WalkRoot(c, rank, root).metas, todo - {name})
  {
    var root := ImageRoot(parse, pkg, name).value;
    var images', digests' := images[name := Rooted(c, root).value.digest.value], digests + WalkRoot(c, rank, root).metas;
    forall other | other in pkg.images && other !in todo - {name}
      ensures ImageResolved(c, rank, parse, pkg, other, images', digests')
    {
      if other != name { assert ImageResolved(c, rank, parse, pkg, other, images, digests); }
    }
    assert forall m | m in WalkRoot(c, rank, root).metas :: FromImage(c, rank, parse, pkg, m);
    if PlainImages(c) && PostOrdered(c, NeededPlatforms(pkg), pkg.digests) {
      WalkKeepsPostOrder(c, rank, root, digests);
    }
  }

  /** `Resolve`, after `collectImages`, taking the images in any order. */
  method ResolvePackage(c: Content, ghost rank: Rank, parse: ImageParser, pkg: KubePkg) returns (r: Option<KubePkg>)
    requires Acyclic(c, rank)
    ensures r.Some? ==> IsResolved(c, rank, parse, pkg, r.value)
    ensures r.Some? && PlainImages(c) && PostOrdered(c, NeededPlatforms(pkg), pkg.digests) ==>
      PostOrdered(c, NeededPlatforms(pkg), r.value.digests)
    ensures r.None? ==> exists name | name in pkg.images ::
      (forall d :: !StartsAt(c, parse, pkg, name, d)) ||
      exists to | ImageFinds(c, parse, pkg, name, to) :: to.digest !in c.manifests
  {
    var status := new Status(pkg.images, pkg.digests);
    var todo := pkg.images.Keys;
    while todo != {}
      invariant Progress(c, rank, parse, pkg, status.images, status.digests, todo)
      decreases todo
    {
      var name :| name in todo;
      todo := todo - {name};
      var root := ImageRoot(parse, pkg, name);
      ResolvesExactly(c, rank, parse, pkg, name);
      if root.None? { return None; }
      ghost var before := status.digests;
      var d := Resolve(c, rank, root.value, status);
      if d.None? { return None; }
      ImageDone(c, rank, parse, pkg, status.images, before, todo + {name}, name);
      assert todo + {name} - {name} == todo;
      status.images := status.images[name := d.value.digest];
    }
    return Some(pkg.(images := status.images, digests := status.digests));
  }

  /** `Resolve`: the images among the manifests of the package are noted, then all are resolved. */
  method ResolveWithManifests(c: Content, ghost rank: Rank, parse: ImageParser, pkg: KubePkg, manifests: set<Found>)
    returns (r: Option<KubePkg>, ghost refs: seq<string>)
    requires Acyclic(c, rank)
    ensures IsVisit(Nested(manifests), refs)
    ensures r.Some? ==> IsResolved(c, rank, parse, pkg.(images := NotedAll(pkg.images, refs)), r.value)
    ensures r.Some? ==> forall name :: name in r.value.images <==> name in pkg.images || IsNamed(Nested(manifests), name)
  {
    var images;
    images, refs := CollectImages(pkg.images, Nested(manifests));
    r := ResolvePackage(c, rank, parse, pkg.(images := images));
  }
}
