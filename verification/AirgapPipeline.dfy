/** Resolve, pack, range and import together: what a package's images need arrives. */
module AirgapPipeline {
  import opened Wrappers
  import opened Registry
  import opened DigestResolver
  import opened ResolverProofs
  import opened PackageResolver
  import opened KubeTar
  import opened KubeTarRange
  import opened Airgap
  import opened AirgapImport

  /** A registry's own content: manifests are blobs too, and image manifests describe their
      config and layers truthfully. */
  ghost predicate HonestContent(c: Content) {
    PlainImages(c) &&
    (forall d | d in c.manifests :: d in c.blobs && c.blobs[d] == c.manifests[d].payload) &&
    forall d, i | d in c.manifests && c.manifests[d].Image? && 0 <= i < |c.manifests[d].References()| ::
      var ref := c.manifests[d].References()[i];
      ref.digest in c.blobs && ref.size == |c.blobs[ref.digest]|
  }

  /** A record of content the registry has, with its real size. */
  predicate HonestRecord(c: Content, m: DigestMeta) {
    !m.typ.NoMeta? && (m.typ.ManifestMeta? ==> m.digest in c.manifests) &&
    m.digest in c.blobs && m.size == |c.blobs[m.digest]|
  }

  /** Resolving an honest registry only records what can be packed. */
  lemma WalkRecordsHonestly(c: Content, rank: Rank, ctx: ImageCtx, m: DigestMeta)
    requires HonestContent(c) && Acyclic(c, rank) && ctx.digest.Some? && m in Walk(c, rank, ctx).metas
    ensures HonestRecord(c, m)
  {
    var path, at := WalkIsSound(c, rank, ctx, m);
    var manifest := c.manifests[at.digest];
    if m.digest != at.digest || m.size != |manifest.payload| {
      var ref :| ref in [manifest.config] + manifest.layers && m.digest == ref.digest && m.size == ref.size &&
        m.typ == if ref.mediaType.OtherType? then BlobMeta else ManifestMeta;
      var i :| 0 <= i < |manifest.References()| && manifest.References()[i] == ref;
    }
  }

  lemma HonestRecordsAreHonestMetas(c: Content, metas: seq<DigestMeta>)
    requires HonestContent(c) && forall m | m in metas :: HonestRecord(c, m)
    ensures HonestMetas(c, metas)
  {
    forall a, b | a in metas && b in metas && a.digest == b.digest ensures HonestSize(c, a, b) {
      assert HonestRecord(c, a) && HonestRecord(c, b);
    }
  }

  predicate Packable(c: Content, metas: seq<DigestMeta>) {
    forall m | m in metas :: HonestRecord(c, m) && ParseDigest(m.digest).Some?
  }

  lemma {:induction false} HonestRecordsPack(c: Content, filter: BlobFilter, metas: seq<DigestMeta>)
    requires Packable(c, metas)
    ensures PackMetas(c, filter, metas).1
  {
    if metas == [] {
    } else {
      assert metas[0] in metas;
      HonestRecordsPack(c, filter, metas[1..]);
    }
  }

  /** Packages of honest records with parseable digests pack exactly when each names an image manifest. */
  lemma {:induction false} HonestPackagesPack(c: Content, filter: BlobFilter, pkgs: seq<KubePkg>)
    requires forall i | 0 <= i < |pkgs| :: Packable(c, pkgs[i].digests)
    ensures PackPackages(c, filter, pkgs).1 <==> forall i | 0 <= i < |pkgs| :: NamesImage(c, pkgs[i].digests)
  {
    if pkgs == [] {
    } else {
      HonestRecordsPack(c, filter, pkgs[0].digests);
      HonestPackagesPack(c, filter, pkgs[1..]);
      ImagesCounted(c, pkgs[0].digests);
      assert PackPackage(c, filter, pkgs[0]).1 <==> NamesImage(c, pkgs[0].digests);
      assert forall i | 0 < i < |pkgs| :: pkgs[i] == pkgs[1..][i - 1];
    }
  }

  /** Packages resolved against an honest registry; what was recorded before was honest too. */
  ghost predicate HonestExport(c: Content, hash: Hash, rank: Rank, parse: ImageParser, given: seq<KubePkg>, pkgs: seq<KubePkg>)
    requires Acyclic(c, rank)
  {
    HonestContent(c) && ContentAddressed(c, hash) && IsHash(hash) && |given| == |pkgs| &&
    forall i | 0 <= i < |pkgs| :: IsResolved(c, rank, parse, given[i], pkgs[i]) && OnlyHonest(c, given[i].digests)
  }

  predicate OnlyHonest(c: Content, metas: seq<DigestMeta>) { forall m | m in metas :: HonestRecord(c, m) }

  lemma ImageRecordsHonestly(c: Content, rank: Rank, parse: ImageParser, pkg: KubePkg, m: DigestMeta)
    requires HonestContent(c) && Acyclic(c, rank) && FromImage(c, rank, parse, pkg, m)
    ensures HonestRecord(c, m)
  {
    var name :| name in pkg.images && ImageRoot(parse, pkg, name).Some? &&
      m in WalkRoot(c, rank, ImageRoot(parse, pkg, name).value).metas;
    WalkRecordsHonestly(c, rank, Rooted(c, ImageRoot(parse, pkg, name).value).value, m);
  }

  lemma ResolvedIsHonest(c: Content, hash: Hash, rank: Rank, parse: ImageParser, pkg: KubePkg, r: KubePkg)
    requires HonestContent(c) && ContentAddressed(c, hash) && IsHash(hash) && Acyclic(c, rank)
    requires IsResolved(c, rank, parse, pkg, r) && OnlyHonest(c, pkg.digests)
    ensures Packable(c, r.digests)
  {
    forall m | m in r.digests ensures HonestRecord(c, m) && ParseDigest(m.digest).Some? {
      if m !in pkg.digests { ImageRecordsHonestly(c, rank, parse, pkg, m); }
      assert HonestRecord(c, m) && hash(c.blobs[m.digest]) == m.digest;
    }
  }

  /** What was resolved against an honest registry can be transferred exactly when the packages are
      loadable and each names an image manifest, Docker or OCI. */
  lemma ExportTransfersExactly(c: Content, hash: Hash, rank: Rank, parse: ImageParser, filter: BlobFilter,
                               given: seq<KubePkg>, pkgs: seq<KubePkg>)
    requires Acyclic(c, rank) && HonestExport(c, hash, rank, parse, given, pkgs)
    ensures Transfer(c, hash, filter, pkgs) <==>
      Loadable(pkgs) && forall i | 0 <= i < |pkgs| :: NamesImage(c, pkgs[i].digests)
  {
    forall i | 0 <= i < |pkgs| ensures Packable(c, pkgs[i].digests) {
      ResolvedIsHonest(c, hash, rank, parse, given[i], pkgs[i]);
    }
    HonestPackagesPack(c, filter, pkgs);
    forall m | m in AllMetas(pkgs) ensures HonestRecord(c, m) {
      var pkg := PackageOfMeta(pkgs, m);
      var i :| 0 <= i < |pkgs| && pkgs[i] == pkg;
      assert Packable(c, pkgs[i].digests);
    }
    HonestRecordsAreHonestMetas(c, AllMetas(pkgs));
  }

  /** `meta` is of content that resolving an image of the package leads to. */
  ghost predicate IsReachable(c: Content, parse: ImageParser, pkg: KubePkg, name: string, at: Spot, meta: DigestMeta) {
    ImageFinds(c, parse, pkg, name, at) && Records(c, at, parse(name).value.name, parse(name).value.tag, meta)
  }

  /** The whole pipeline: everything reachable from an image of a package is in the target after resolving,
      packing and importing the (incremental) archive. */
  lemma ReachableContentArrives(c: Content, hash: Hash, rank: Rank, parse: ImageParser, given: seq<KubePkg>,
                                filter: BlobFilter, pkgs: seq<KubePkg>, previous: seq<KubePkg>, target: Store,
                                i: nat, name: string, at: Spot, meta: DigestMeta)
    requires Acyclic(c, rank) && HonestExport(c, hash, rank, parse, given, pkgs) && Loadable(pkgs)
    requires forall j | 0 <= j < |pkgs| :: NamesImage(c, pkgs[j].digests)
    requires IsSinceFilter(filter, previous) && BlobsOf(previous) <= target.Keys
    requires i < |given| && IsReachable(c, parse, given[i], name, at, meta)
    ensures meta.digest in ImportCalls(target, hash, Range(Pack(c, filter, pkgs).0, None, None, 0).1).0
  {
    ExportTransfersExactly(c, hash, rank, parse, filter, given, pkgs);
    FoundIsRecorded(c, rank, parse, given[i], pkgs[i], name, at);
    MetaOfPackage(pkgs, pkgs[i], meta);
    IncrementalImportIsComplete(c, hash, filter, pkgs, previous, target);
    assert meta.digest in DigestsOf(AllMetas(pkgs));
  }

  /** Packages resolved for the same platforms stay in post-order when listed together, which is
      what makes an interrupted import safe. */
  lemma {:induction false} AllMetasPostOrdered(c: Content, needed: seq<string>, pkgs: seq<KubePkg>)
    requires forall i | 0 <= i < |pkgs| :: PostOrdered(c, needed, pkgs[i].digests)
    ensures PostOrdered(c, needed, AllMetas(pkgs))
  {
    if pkgs == [] {
    } else {
      AllMetasPostOrdered(c, needed, pkgs[1..]);
      PostOrderedConcat(c, needed, pkgs[0].digests, AllMetas(pkgs[1..]));
    }
  }
}
