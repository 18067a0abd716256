/**
 The airgap archive: pkg/kubepkg/packer.go writes it, `KubeTarRange` of pkg/kubepkg/kubepkg.go
 reads it back.  An archive is the sequence of its tar entries.
 */
module KubeTar {
  import opened Wrappers
  import opened Registry

  /** What an entry holds: one package, a list of packages, a blob, or other JSON. */
  datatype Body = Single(pkg: KubePkg) | PackageList(items: seq<KubePkg>) | Blob(bytes: Bytes) | OtherJson

  datatype Entry = Entry(name: string, body: Body)
  type Archive = seq<Entry>

  // ------------------------------------------------------------------------ packing

  /** The options of `WithFilterBlob`. */
  type BlobFilter = Digest -> bool

  function BlobPath(d: Digest): string
    requires ParseDigest(d).Some?
  {
    "blobs/" + ParseDigest(d).value.0 + "/" + ParseDigest(d).value.1
  }

  /** What one recorded digest puts into the archive; `None` is an error. */
  function PackMeta(c: Content, filter: BlobFilter, meta: DigestMeta): Option<Archive> {
    if ParseDigest(meta.digest).None? then None
    else match meta.typ
      case BlobMeta =>
        if !filter(meta.digest) then Some([])
        else if meta.digest !in c.blobs then None
        else Some([Entry(BlobPath(meta.digest), Blob(c.blobs[meta.digest]))])
      case ManifestMeta =>
        if meta.digest !in c.manifests then None
        else Some([Entry(BlobPath(meta.digest), Blob(c.manifests[meta.digest].payload))])
      case NoMeta => Some([])
  }

  /** The entries for a list of recorded digests, up to the first error. */
  function PackMetas(c: Content, filter: BlobFilter, metas: seq<DigestMeta>): (Archive, bool) {
    if metas == [] then ([], true)
    else
      var first := PackMeta(c, filter, metas[0]);
      if first.None? then ([], false)
      else
        var rest := PackMetas(c, filter, metas[1..]);
        (first.value + rest.0, rest.1)
  }

  /** Image manifests among the digests: without one the archive is refused. */
  function ImageCount(c: Content, metas: seq<DigestMeta>): nat {
    if metas == [] then 0
    else
      (if metas[0].typ.ManifestMeta? && metas[0].digest in c.manifests && c.manifests[metas[0].digest].Image? then 1 else 0)
      + ImageCount(c, metas[1..])
  }

  function DockerImageCount(c: Content, metas: seq<DigestMeta>): nat {
    if metas == [] then 0
    else
      (if metas[0].typ.ManifestMeta? && metas[0].digest in c.manifests &&
          c.manifests[metas[0].digest].Image? && !c.manifests[metas[0].digest].oci then 1 else 0)
      + DockerImageCount(c, metas[1..])
  }

  /** `writeToKubeTar`: the digests, then the OCI index, the docker manifest and the layout file. */
  function PackPackage(c: Content, filter: BlobFilter, pkg: KubePkg): (Archive, bool) {
    var (blobs, ok) := PackMetas(c, filter, pkg.digests);
    if !ok || ImageCount(c, pkg.digests) == 0 then (blobs, false)
    else
      (blobs + [Entry("index.json", OtherJson)]
        + (if DockerImageCount(c, pkg.digests) > 0 then [Entry("manifest.json", OtherJson)] else [])
        + [Entry("oci-layout", OtherJson)], true)
  }

  function PackPackages(c: Content, filter: BlobFilter, pkgs: seq<KubePkg>): (Archive, bool) {
    if pkgs == [] then ([], true)
    else
      var (first, ok) := PackPackage(c, filter, pkgs[0]);
      if !ok then (first, false)
      else
        var (rest, allOk) := PackPackages(c, filter, pkgs[1..]);
        (first + rest, allOk)
  }

  /** `kubepkg.json`: a single package bare, any other number as a list. */
  function Header(pkgs: seq<KubePkg>): Entry {
    Entry("kubepkg.json", if |pkgs| == 1 then Single(pkgs[0]) else PackageList(pkgs))
  }

  /** `KubeTarTo`. */
  function Pack(c: Content, filter: BlobFilter, pkgs: seq<KubePkg>): (Archive, bool) {
    var (rest, ok) := PackPackages(c, filter, pkgs);
    ([Header(pkgs)] + rest, ok)
  }

  class TarWriter {
    var entries: Archive

    constructor ()
      ensures entries == []
    {
      entries := [];
    }

    method Write(e: Entry)
      modifies this
      ensures entries == old(entries) + [e]
    {
      entries := entries + [e];
    }

    /** The loop over the recorded digests, counting the image manifests on the way. */
    method WriteBlobs(c: Content, filter: BlobFilter, metas: seq<DigestMeta>)
      returns (ok: bool, images: nat, dockerImages: nat)
      modifies this
      ensures entries == old(entries) + PackMetas(c, filter, metas).0 && ok == PackMetas(c, filter, metas).1
      ensures ok ==> images == ImageCount(c, metas) && dockerImages == DockerImageCount(c, metas)
    {
      images, dockerImages := 0, 0;
      ghost var start, all := entries, PackMetas(c, filter, metas);
      ghost var rest := all;
      assert metas[0..] == metas;
      for i := 0 to |metas|
        invariant rest == PackMetas(c, filter, metas[i..])
        invariant entries + rest.0 == start + all.0 && rest.1 == all.1
        invariant images + ImageCount(c, metas[i..]) == ImageCount(c, metas)
        invariant dockerImages + DockerImageCount(c, metas[i..]) == DockerImageCount(c, metas)
      {
        var dm := metas[i];
        PackMetasStep(c, filter, metas, i, entries);
        ok := WriteMeta(c, filter, dm);
        if !ok { return; }
        if dm.typ.ManifestMeta? && c.manifests[dm.digest].Image? {
          if !c.manifests[dm.digest].oci { dockerImages := dockerImages + 1; }
          images := images + 1;
        }
        rest := PackMetas(c, filter, metas[i + 1..]);
      }
      ok := true;
    }

    /** One recorded digest; `copyBlobTo` writes its content under its blob path. */
    method WriteMeta(c: Content, filter: BlobFilter, dm: DigestMeta) returns (ok: bool)
      modifies this
      ensures ok == PackMeta(c, filter, dm).Some?
      ensures entries == old(entries) + (if ok then PackMeta(c, filter, dm).value else [])
    {
      if ParseDigest(dm.digest).None? { return false; }
      if dm.typ.BlobMeta? {
        if filter(dm.digest) {
          if dm.digest !in c.blobs { return false; }
          Write(Entry(BlobPath(dm.digest), Blob(c.blobs[dm.digest])));
        }
      } else if dm.typ.ManifestMeta? {
        if dm.digest !in c.manifests { return false; }
        Write(Entry(BlobPath(dm.digest), Blob(c.manifests[dm.digest].payload)));
      }
      return true;
    }

    method WriteToKubeTar(c: Content, filter: BlobFilter, pkg: KubePkg) returns (ok: bool)
      modifies this
      ensures entries == old(entries) + PackPackage(c, filter, pkg).0
      ensures ok == PackPackage(c, filter, pkg).1
    {
      var images, dockerImages;
      ok, images, dockerImages := WriteBlobs(c, filter, pkg.digests);
      if !ok || images == 0 { return false; }
      ghost var blobs := entries;
      Write(Entry("index.json", OtherJson));
      if dockerImages > 0 { Write(Entry("manifest.json", OtherJson)); }
      Write(Entry("oci-layout", OtherJson));
      ghost var packed := PackMetas(c, filter, pkg.digests).0;
      ghost var tail := PackPackage(c, filter, pkg).0[|packed|..];
      assert entries == blobs + tail && PackPackage(c, filter, pkg).0 == packed + tail;
    }

    method KubeTarTo(c: Content, filter: BlobFilter, pkgs: seq<KubePkg>) returns (ok: bool)
      modifies this
      ensures entries == old(entries) + Pack(c, filter, pkgs).0
      ensures ok == Pack(c, filter, pkgs).1
    {
      Write(Header(pkgs));
      ok := WriteAll(c, filter, pkgs);
    }

    method WriteAll(c: Content, filter: BlobFilter, pkgs: seq<KubePkg>) returns (ok: bool)
      modifies this
      ensures entries == old(entries) + PackPackages(c, filter, pkgs).0
      ensures ok == PackPackages(c, filter, pkgs).1
    {
      ghost var start, all := entries, PackPackages(c, filter, pkgs);
      ghost var rest := all;
      assert pkgs[0..] == pkgs;
      for i := 0 to |pkgs|
        invariant rest == PackPackages(c, filter, pkgs[i..])
        invariant entries + rest.0 == start + all.0 && rest.1 == all.1
      {
        PackPackagesStep(c, filter, pkgs, i, entries);
        ok := WriteToKubeTar(c, filter, pkgs[i]);
        if !ok { return; }
        rest := PackPackages(c, filter, pkgs[i + 1..]);
      }
      ok := true;
    }
  }

  /** One step of the loop over the digests, after the entries `done`. */
  lemma PackMetasStep(c: Content, filter: BlobFilter, metas: seq<DigestMeta>, i: nat, done: Archive)
    requires i < |metas|
    ensures ImageCount(c, metas[i..]) == ImageCount(c, [metas[i]]) + ImageCount(c, metas[i + 1..])
    ensures DockerImageCount(c, metas[i..]) == DockerImageCount(c, [metas[i]]) + DockerImageCount(c, metas[i + 1..])
    ensures PackMeta(c, filter, metas[i]).None? ==> PackMetas(c, filter, metas[i..]) == ([], false)
    ensures PackMeta(c, filter, metas[i]).Some? ==>
      PackMetas(c, filter, metas[i..]).1 == PackMetas(c, filter, metas[i + 1..]).1 &&
      (done + PackMeta(c, filter, metas[i]).value) + PackMetas(c, filter, metas[i + 1..]).0
        == done + PackMetas(c, filter, metas[i..]).0
  {
    assert metas[i..][1..] == metas[i + 1..];
    assert [metas[i]][1..] == [];
  }

  lemma PackPackagesStep(c: Content, filter: BlobFilter, pkgs: seq<KubePkg>, i: nat, done: Archive)
    requires i < |pkgs|
    ensures !PackPackage(c, filter, pkgs[i]).1 ==>
      PackPackages(c, filter, pkgs[i..]) == PackPackage(c, filter, pkgs[i])
    ensures PackPackage(c, filter, pkgs[i]).1 ==>
      PackPackages(c, filter, pkgs[i..]).1 == PackPackages(c, filter, pkgs[i + 1..]).1 &&
      (done + PackPackage(c, filter, pkgs[i]).0) + PackPackages(c, filter, pkgs[i + 1..]).0
        == done + PackPackages(c, filter, pkgs[i..]).0
  {
    assert pkgs[i..][1..] == pkgs[i + 1..];
  }

  // ------------------------------------------------------------- what gets packed

  predicate NamesType(c: Content, m: DigestMeta, mediaType: MediaType) {
    m.typ.ManifestMeta? && m.digest in c.manifests && c.manifests[m.digest].MediaType() == mediaType
  }

  /** Some record of type manifest is of an image manifest, Docker or OCI. */
  ghost predicate NamesImage(c: Content, metas: seq<DigestMeta>) {
    exists m | m in metas :: NamesType(c, m, DockerManifest) || NamesType(c, m, OciImageManifest)
  }

  ghost predicate NamesDockerImage(c: Content, metas: seq<DigestMeta>) {
    exists m | m in metas :: NamesType(c, m, DockerManifest)
  }

  lemma {:induction false} ImagesCounted(c: Content, metas: seq<DigestMeta>)
    ensures ImageCount(c, metas) > 0 <==> NamesImage(c, metas)
    ensures DockerImageCount(c, metas) > 0 <==> NamesDockerImage(c, metas)
  {
    if metas == [] {
    } else {
      var first, rest := metas[0], metas[1..];
      ImagesCounted(c, rest);
      assert forall m :: m in metas <==> m == first || m in rest;
      assert NamesDockerImage(c, metas) <==> NamesType(c, first, DockerManifest) || NamesDockerImage(c, rest);
      assert NamesImage(c, metas) <==>
        NamesType(c, first, DockerManifest) || NamesType(c, first, OciImageManifest) || NamesImage(c, rest);
    }
  }

  /** The digest parses, and what it names is there, unless it is a blob that is left out or is of no type. */
  predicate CanPack(c: Content, filter: BlobFilter, m: DigestMeta) {
    ParseDigest(m.digest).Some? &&
    (m.typ.ManifestMeta? ==> m.digest in c.manifests) &&
    (m.typ.BlobMeta? && filter(m.digest) ==> m.digest in c.blobs)
  }

  /** The entry a record leads to. */
  predicate IsEntryOf(c: Content, filter: BlobFilter, m: DigestMeta, e: Entry) {
    CanPack(c, filter, m) &&
    var (alg, hex) := ParseDigest(m.digest).value;
    e.name == "blobs/" + alg + "/" + hex &&
    ((m.typ.ManifestMeta? && e.body == Blob(c.manifests[m.digest].payload)) ||
     (m.typ.BlobMeta? && filter(m.digest) && e.body == Blob(c.blobs[m.digest])))
  }

  lemma {:induction false} MetasPackExactly(c: Content, filter: BlobFilter, metas: seq<DigestMeta>)
    ensures PackMetas(c, filter, metas).1 <==> forall m | m in metas :: CanPack(c, filter, m)
    ensures PackMetas(c, filter, metas).1 ==>
      forall e :: e in PackMetas(c, filter, metas).0 <==> exists m | m in metas :: IsEntryOf(c, filter, m, e)
  {
    if metas == [] {
    } else {
      var first, rest := metas[0], metas[1..];
      MetasPackExactly(c, filter, rest);
      assert forall m :: m in metas <==> m == first || m in rest;
      assert PackMeta(c, filter, first).Some? <==> CanPack(c, filter, first);
      if PackMetas(c, filter, metas).1 {
        forall e ensures e in PackMeta(c, filter, first).value <==> IsEntryOf(c, filter, first, e) {
        }
      }
    }
  }

  /** A package packs exactly when all its records can be and one names an image manifest; its archive then
      is the entries of the records, the index, the docker manifest exactly when an image is Docker's, and
      the layout file. */
  lemma PackageMeaning(c: Content, filter: BlobFilter, pkg: KubePkg)
    ensures PackPackage(c, filter, pkg).1 <==>
      NamesImage(c, pkg.digests) && forall m | m in pkg.digests :: CanPack(c, filter, m)
    ensures var docker := if NamesDockerImage(c, pkg.digests) then [Entry("manifest.json", OtherJson)] else [];
      var tail := [Entry("index.json", OtherJson)] + docker + [Entry("oci-layout", OtherJson)];
      PackPackage(c, filter, pkg).1 ==> PackPackage(c, filter, pkg).0 == PackMetas(c, filter, pkg.digests).0 + tail
  {
    ImagesCounted(c, pkg.digests);
    MetasPackExactly(c, filter, pkg.digests);
    var blobs := PackMetas(c, filter, pkg.digests).0;
    var docker := if NamesDockerImage(c, pkg.digests) then [Entry("manifest.json", OtherJson)] else [];
    assert blobs + [Entry("index.json", OtherJson)] + docker + [Entry("oci-layout", OtherJson)]
      == blobs + ([Entry("index.json", OtherJson)] + docker + [Entry("oci-layout", OtherJson)]);
  }
}
