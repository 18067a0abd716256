/** What importing an archive leaves in the target: complete, additive, and safe to interrupt. */
module AirgapImport {
  import opened Wrappers
  import opened Registry
  import opened ResolverProofs
  import opened KubeTar
  import opened KubeTarRange
  import opened Airgap

  // ------------------------------------------------------------------- the since filter

  /** The blob digests of the previous packages: `blobsExists` of cmd/kubepkg/export.go. */
  ghost function BlobsOf(pkgs: seq<KubePkg>): set<Digest> {
    set m | m in AllMetas(pkgs) && m.typ.BlobMeta? :: m.digest
  }

  method BlobsExist(previous: seq<KubePkg>) returns (exists': map<Digest, bool>)
    ensures exists'.Keys == BlobsOf(previous) && forall d | d in exists' :: exists'[d]
  {
    exists' := map[];
    ghost var seen: seq<DigestMeta> := [];
    assert previous[0..] == previous;
    for i := 0 to |previous|
      invariant seen + AllMetas(previous[i..]) == AllMetas(previous)
      invariant exists'.Keys == set m | m in seen && m.typ.BlobMeta? :: m.digest
      invariant forall d | d in exists' :: exists'[d]
    {
      ghost var before := seen;
      var metas := previous[i].digests;
      assert previous[i..][1..] == previous[i + 1..];
      for j := 0 to |metas|
        invariant seen == before + metas[..j]
        invariant exists'.Keys == set m | m in seen && m.typ.BlobMeta? :: m.digest
        invariant forall d | d in exists' :: exists'[d]
      {
        var d := metas[j];
        if d.typ.BlobMeta? { exists' := exists'[d.digest := true]; }
        seen := seen + [d];
      }
      assert metas[..|metas|] == metas;
      assert (before + metas) + AllMetas(previous[i + 1..]) == before + (metas + AllMetas(previous[i + 1..]));
    }
    assert seen == AllMetas(previous) by { assert AllMetas(previous[|previous|..]) == []; }
  }

  /** The filter handed to the packer: blobs the previous packages do not have. */
  ghost predicate IsSinceFilter(filter: BlobFilter, previous: seq<KubePkg>) {
    forall d :: filter(d) <==> d !in BlobsOf(previous)
  }

  /** It lets through exactly the digests that no previous package records as a blob. */
  lemma SinceMeaning(filter: BlobFilter, previous: seq<KubePkg>)
    ensures IsSinceFilter(filter, previous) <==>
      forall d :: filter(d) <==>
        forall p, m | p in previous && m in p.digests && m.digest == d :: m.typ != BlobMeta
  {
    forall d
      ensures d in BlobsOf(previous) <==> exists p, m | p in previous && m in p.digests && m.digest == d :: m.typ == BlobMeta
    {
      if m :| m in AllMetas(previous) && m.typ.BlobMeta? && m.digest == d {
        var p := PackageOfMeta(previous, m);
      }
      if p, m :| p in previous && m in p.digests && m.digest == d && m.typ == BlobMeta {
        MetaOfPackage(previous, p, m);
      }
    }
  }

  lemma {:induction false} PackageOfMeta(pkgs: seq<KubePkg>, m: DigestMeta) returns (p: KubePkg)
    requires m in AllMetas(pkgs)
    ensures p in pkgs && m in p.digests
  {
    if m in pkgs[0].digests {
      p := pkgs[0];
    } else {
      p := PackageOfMeta(pkgs[1..], m);
    }
  }

  lemma {:induction false} MetaOfPackage(pkgs: seq<KubePkg>, p: KubePkg, m: DigestMeta)
    requires p in pkgs && m in p.digests
    ensures m in AllMetas(pkgs)
  {
    if p != pkgs[0] { MetaOfPackage(pkgs[1..], p, m); }
  }

  /** The archive holds no entry for a blob the previous packages already have. */
  lemma ArchiveIsMinimal(c: Content, filter: BlobFilter, pkgs: seq<KubePkg>, previous: seq<KubePkg>, d: Digest)
    requires IsSinceFilter(filter, previous) && d in BlobsOf(previous) && ParseDigest(d).Some?
    requires forall m | m in AllMetas(pkgs) && m.digest == d :: !m.typ.ManifestMeta?
    ensures forall e | e in Pack(c, filter, pkgs).0 :: e.name != BlobPath(d)
  {
    BlobPathReadsBack(d);
    forall e | e in PackPackages(c, filter, pkgs).0 && "blobs/" <= e.name ensures e.name != BlobPath(d) {
      var m := EntryHasMeta(c, filter, pkgs, e);
      BlobPathReadsBack(m.digest);
    }
  }

  /** Every blob entry was written for a packed digest. */
  lemma {:induction false} EntryHasMeta(c: Content, filter: BlobFilter, pkgs: seq<KubePkg>, e: Entry) returns (m: DigestMeta)
    requires e in PackPackages(c, filter, pkgs).0 && "blobs/" <= e.name
    ensures m in AllMetas(pkgs) && IsPacked(filter, m) && ParseDigest(m.digest).Some?
    ensures e == Entry(BlobPath(m.digest), Blob(ContentAt(c, m)))
  {
    if e in PackPackage(c, filter, pkgs[0]).0 {
      assert e.name[0] == 'b';
      assert e in PackMetas(c, filter, pkgs[0].digests).0;
      m := MetaEntryHasMeta(c, filter, pkgs[0].digests, e);
    } else {
      m := EntryHasMeta(c, filter, pkgs[1..], e);
    }
  }

  lemma {:induction false} MetaEntryHasMeta(c: Content, filter: BlobFilter, metas: seq<DigestMeta>, e: Entry) returns (m: DigestMeta)
    requires e in PackMetas(c, filter, metas).0
    ensures m in metas && IsPacked(filter, m) && ParseDigest(m.digest).Some?
    ensures e == Entry(BlobPath(m.digest), Blob(ContentAt(c, m)))
  {
    if e in PackMeta(c, filter, metas[0]).value {
      m := metas[0];
    } else {
      m := MetaEntryHasMeta(c, filter, metas[1..], e);
    }
  }

  // ------------------------------------------------------------------------- importing

  /** Every record has a type, and a positive size is the size of the content. */
  ghost predicate HonestMetas(c: Content, metas: seq<DigestMeta>) {
    (forall a | a in metas :: !a.typ.NoMeta?) &&
    forall a, b {:trigger HonestSize(c, a, b)} | a in metas && b in metas && a.digest == b.digest :: HonestSize(c, a, b)
  }

  predicate HonestSize(c: Content, a: DigestMeta, b: DigestMeta) {
    a.size > 0 ==> a.size == |ContentAt(c, b)|
  }

  /** The content a packed digest names is there, under its own hash. */
  ghost predicate Available(c: Content, hash: Hash, meta: DigestMeta) {
    hash(ContentAt(c, meta)) == meta.digest
  }

  lemma {:induction false} PackedAreAvailable(c: Content, hash: Hash, filter: BlobFilter, metas: seq<DigestMeta>)
    requires ContentAddressed(c, hash) && PackMetas(c, filter, metas).1
    ensures forall m | m in Packed(filter, metas) :: Available(c, hash, m)
  {
    if metas == [] {
    } else {
      PackedAreAvailable(c, hash, filter, metas[1..]);
    }
  }

  lemma {:induction false} AllPackedAreAvailable(c: Content, hash: Hash, filter: BlobFilter, pkgs: seq<KubePkg>)
    requires ContentAddressed(c, hash) && PackPackages(c, filter, pkgs).1
    ensures forall m | m in Packed(filter, AllMetas(pkgs)) :: Available(c, hash, m)
  {
    if pkgs == [] {
    } else {
      PackedAreAvailable(c, hash, filter, pkgs[0].digests);
      AllPackedAreAvailable(c, hash, filter, pkgs[1..]);
      PackedConcat(filter, pkgs[0].digests, AllMetas(pkgs[1..]));
    }
  }

  ghost function DigestsOf(metas: seq<DigestMeta>): set<Digest> {
    set m | m in metas :: m.digest
  }

  /** `after` is `before` plus content for these digests, each piece under its own hash. */
  ghost predicate Added(hash: Hash, before: Store, after: Store, digests: set<Digest>) {
    after.Keys == before.Keys + digests &&
    (forall d | d in before :: after[d] == before[d]) &&
    (forall d | d in after && d !in before :: hash(after[d]) == d)
  }

  /** A call whose content is what its record says. */
  ghost predicate Importable(hash: Hash, call: Call) {
    !call.meta.typ.NoMeta? && hash(call.content) == call.meta.digest &&
    (call.meta.size > 0 ==> call.meta.size == |call.content|)
  }

  ghost function CallDigests(calls: seq<Call>): set<Digest> {
    set call | call in calls :: call.meta.digest
  }

  /** Importing such calls accepts them all and adds exactly their content. */
  lemma {:induction false} ImportAddsCalls(hash: Hash, calls: seq<Call>, store: Store)
    requires forall j | 0 <= j < |calls| :: Importable(hash, calls[j])
    ensures var (after, n) := ImportCalls(store, hash, calls);
      n == |calls| && Added(hash, store, after, CallDigests(calls))
    decreases |calls|
  {
    if calls == [] {
    } else {
      var call := calls[0];
      assert Importable(hash, call);
      var next := ImportDigest(store, hash, call.meta, call.content).value;
      assert Added(hash, store, next, {call.meta.digest});
      ImportAddsCalls(hash, calls[1..], next);
      assert calls == [call] + calls[1..];
      assert CallDigests(calls) == {call.meta.digest} + CallDigests(calls[1..]);
    }
  }

  lemma CallIsImportable(c: Content, hash: Hash, metas: seq<DigestMeta>, m: DigestMeta, call: Call)
    requires HonestMetas(c, metas) && m in metas && Available(c, hash, m)
    requires m.digest in LastOf(metas) ==> call.meta == LastOf(metas)[m.digest] && call.content == ContentAt(c, m)
    ensures call.meta.digest == m.digest && Importable(hash, call)
  {
    LastOfMeaning(metas, m.digest);
    assert call.meta in metas && HonestSize(c, call.meta, m);
  }

  lemma SameDigests(calls: seq<Call>, packed: seq<DigestMeta>)
    requires |calls| == |packed| && forall j | 0 <= j < |calls| :: calls[j].meta.digest == packed[j].digest
    ensures CallDigests(calls) == DigestsOf(packed)
  {
    forall j | 0 <= j < |calls| ensures calls[j].meta.digest in DigestsOf(packed) && packed[j].digest in CallDigests(calls) {
      assert packed[j] in packed && calls[j] in calls;
    }
  }

  /** Importing the calls for these digests accepts them all and adds exactly their content. */
  lemma ImportAddsPacked(c: Content, hash: Hash, metas: seq<DigestMeta>, packed: seq<DigestMeta>, store: Store)
    requires HonestMetas(c, metas)
    requires forall m | m in packed :: m in metas && Available(c, hash, m)
    ensures var (after, n) := ImportCalls(store, hash, CallsFor(c, LastOf(metas), packed, 0));
      n == |packed| && Added(hash, store, after, DigestsOf(packed))
  {
    var calls := CallsFor(c, LastOf(metas), packed, 0);
    forall j | 0 <= j < |calls|
      ensures calls[j].meta.digest == packed[j].digest && Importable(hash, calls[j])
    {
      assert packed[j] in packed;
      CallIsImportable(c, hash, metas, packed[j], calls[j]);
    }
    SameDigests(calls, packed);
    ImportAddsCalls(hash, calls, store);
  }

  /** The store after the first `n` calls of importing an archive. */
  function StoreAfter(store: Store, hash: Hash, archive: Archive, n: nat): Store {
    var calls := Range(archive, None, None, 0).1;
    ImportCalls(store, hash, if n <= |calls| then calls[..n] else calls).0
  }

  /** The circumstances of an export and the import of what it wrote. */
  ghost predicate Transfer(c: Content, hash: Hash, filter: BlobFilter, pkgs: seq<KubePkg>) {
    Pack(c, filter, pkgs).1 && Loadable(pkgs) && ContentAddressed(c, hash) && HonestMetas(c, AllMetas(pkgs))
  }

  /** Whenever the import stops, the target holds what it held before plus the digests of the
      calls made so far. */
  lemma ImportSoFar(c: Content, hash: Hash, filter: BlobFilter, pkgs: seq<KubePkg>, target: Store, n: nat)
    requires Transfer(c, hash, filter, pkgs) && n <= |Packed(filter, AllMetas(pkgs))|
    ensures var after := StoreAfter(target, hash, Pack(c, filter, pkgs).0, n);
      Added(hash, target, after, DigestsOf(Packed(filter, AllMetas(pkgs))[..n]))
  {
    var metas := AllMetas(pkgs);
    var packed := Packed(filter, metas);
    RangeOfPack(c, filter, pkgs);
    AllPackedAreAvailable(c, hash, filter, pkgs);
    forall m | m in packed[..n] ensures m in metas && Available(c, hash, m) {
      assert m in packed;
      PackedMembers(filter, metas, m);
    }
    assert CallsFor(c, LastOf(metas), packed, 0)[..n] == CallsFor(c, LastOf(metas), packed[..n], 0);
    ImportAddsPacked(c, hash, metas, packed[..n], target);
  }

  /** What the since filter leaves out, the target already has. */
  lemma PackedCovers(filter: BlobFilter, metas: seq<DigestMeta>, previous: seq<KubePkg>, have: set<Digest>)
    requires IsSinceFilter(filter, previous) && BlobsOf(previous) <= have
    requires forall m | m in metas :: !m.typ.NoMeta?
    ensures have + DigestsOf(Packed(filter, metas)) == have + DigestsOf(metas)
  {
    var packed := Packed(filter, metas);
    forall m | m in metas ensures m.digest in have + DigestsOf(packed) {
      PackedMembers(filter, metas, m);
    }
    forall m | m in packed ensures m in metas { PackedMembers(filter, metas, m); }
  }

  /** Importing an incremental archive into a target that has the previous packages' blobs
      succeeds, keeps all that was there, and leaves exactly the digests of the new packages
      added to it, the same digests as the full archive would leave. */
  lemma IncrementalImportIsComplete(c: Content, hash: Hash, filter: BlobFilter, pkgs: seq<KubePkg>,
                                    previous: seq<KubePkg>, target: Store)
    requires Transfer(c, hash, filter, pkgs)
    requires IsSinceFilter(filter, previous) && BlobsOf(previous) <= target.Keys
    ensures var (result, calls) := Range(Pack(c, filter, pkgs).0, None, None, 0);
      var (after, n) := ImportCalls(target, hash, calls);
      result == Done(Some(pkgs)) && n == |calls| &&
      Added(hash, target, after, DigestsOf(AllMetas(pkgs)))
  {
    var metas := AllMetas(pkgs);
    var packed := Packed(filter, metas);
    RangeOfPack(c, filter, pkgs);
    AllPackedAreAvailable(c, hash, filter, pkgs);
    forall m | m in packed ensures m in metas && Available(c, hash, m) { PackedMembers(filter, metas, m); }
    ImportAddsPacked(c, hash, metas, packed, target);
    PackedCovers(filter, metas, previous, target.Keys);
  }

  // ---------------------------------------------------------------- interrupted imports

  /** The place in the full list of the `j`-th packed digest. */
  lemma {:induction false} PackedPosition(filter: BlobFilter, metas: seq<DigestMeta>, j: nat) returns (p: nat)
    requires j < |Packed(filter, metas)|
    ensures p < |metas| && metas[p] == Packed(filter, metas)[j]
    ensures Packed(filter, metas[..p]) == Packed(filter, metas)[..j]
  {
    var own := if IsPacked(filter, metas[0]) then 1 else 0;
    if j < own {
      p := 0;
    } else {
      p := PackedPosition(filter, metas[1..], j - own);
      assert metas[..p + 1][1..] == metas[1..][..p];
      p := p + 1;
    }
  }

  /** An import cut off after any number of calls leaves no imported manifest without the
      content it needs: post-order and the since filter together see to that. */
  lemma InterruptedImportIsClosed(c: Content, hash: Hash, filter: BlobFilter, pkgs: seq<KubePkg>,
                                  previous: seq<KubePkg>, target: Store, needed: seq<string>, n: nat, j: nat, k: nat)
    requires Transfer(c, hash, filter, pkgs)
    requires IsSinceFilter(filter, previous) && BlobsOf(previous) <= target.Keys
    requires PostOrdered(c, needed, AllMetas(pkgs))
    requires j < n <= |Packed(filter, AllMetas(pkgs))|
    requires var m := Packed(filter, AllMetas(pkgs))[j];
      m.typ.ManifestMeta? && m.digest in c.manifests && k < |c.manifests[m.digest].References()| &&
      Needs(needed, c.manifests[m.digest], m.platform, c.manifests[m.digest].References()[k])
    ensures var m := Packed(filter, AllMetas(pkgs))[j];
      c.manifests[m.digest].References()[k].digest in StoreAfter(target, hash, Pack(c, filter, pkgs).0, n)
  {
    var metas := AllMetas(pkgs);
    var packed := Packed(filter, metas);
    var p := PackedPosition(filter, metas, j);
    var d := c.manifests[packed[j].digest].References()[k].digest;
    assert Settled(c, needed, metas[..p], metas[p]);
    var i :| 0 <= i < p && metas[..p][i].digest == d;
    var ref := metas[i];
    assert ref in metas && ref in metas[..p];
    ImportSoFar(c, hash, filter, pkgs, target, n);
    PackedMembers(filter, metas[..p], ref);
    if IsPacked(filter, ref) {
      assert ref in packed[..j];
      assert ref in packed[..n];
    } else {
      assert ref.typ.BlobMeta? && ref.digest in BlobsOf(previous);
    }
  }
}
