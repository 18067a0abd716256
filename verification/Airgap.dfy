/**
 The airgap pipeline end to end: packing and ranging undo each other, and importing an
 incremental archive over the content of the previous one delivers everything.
 */
module Airgap {
  import opened Wrappers
  import opened Text
  import opened Registry
  import opened KubeTar
  import opened KubeTarRange

  // ------------------------------------------------------------- pack, then range

  lemma JoinTwo(a: string, b: string, sep: string)
    ensures Join([a, b], sep) == a + sep + b
  {
    assert [a, b][1..] == [b];
  }

  /** The digest can be read back from the entry name. */
  lemma BlobPathReadsBack(d: Digest)
    requires ParseDigest(d).Some?
    ensures "blobs/" <= BlobPath(d) && BlobPath(d) != "kubepkg.json"
    ensures |Split(BlobPath(d), '/')| == 3 && Join(Split(BlobPath(d), '/')[1..3], ":") == d
  {
    ParsedDigest(d);
    var alg, hex := ParseDigest(d).value.0, ParseDigest(d).value.1;
    var parts := ["blobs", alg, hex];
    assert Free("blobs", '/');
    SplitOfJoin(parts, '/');
    JoinTwo(alg, hex, "/");
    JoinTwo(alg, hex, ":");
    assert parts[1..] == [alg, hex] && parts[1..3] == [alg, hex];
    assert Join(parts, "/") == "blobs" + "/" + (alg + "/" + hex);
    assert BlobPath(d) == Join(parts, "/");
    assert BlobPath(d)[0] == 'b';
  }

  /** A recorded digest that gets an entry. */
  predicate IsPacked(filter: BlobFilter, meta: DigestMeta) {
    meta.typ.ManifestMeta? || (meta.typ.BlobMeta? && filter(meta.digest))
  }

  function Packed(filter: BlobFilter, metas: seq<DigestMeta>): seq<DigestMeta> {
    if metas == [] then []
    else (if IsPacked(filter, metas[0]) then [metas[0]] else []) + Packed(filter, metas[1..])
  }

  lemma {:induction false} PackedConcat(filter: BlobFilter, a: seq<DigestMeta>, b: seq<DigestMeta>)
    ensures Packed(filter, a + b) == Packed(filter, a) + Packed(filter, b)
  {
    if a == [] {
      assert a + b == b;
    } else {
      assert (a + b)[1..] == a[1..] + b;
      PackedConcat(filter, a[1..], b);
    }
  }

  lemma {:induction false} PackedMembers(filter: BlobFilter, metas: seq<DigestMeta>, meta: DigestMeta)
    ensures meta in Packed(filter, metas) <==> meta in metas && IsPacked(filter, meta)
  {
    if metas == [] {
    } else {
      PackedMembers(filter, metas[1..], meta);
      assert meta in metas <==> meta == metas[0] || meta in metas[1..];
    }
  }

  function ContentAt(c: Content, meta: DigestMeta): Bytes {
    if meta.typ.BlobMeta? then (if meta.digest in c.blobs then c.blobs[meta.digest] else [])
    else if meta.digest in c.manifests then c.manifests[meta.digest].payload else []
  }

  /** One call per packed digest, in order, numbered from `i`, each with the last record of its
      digest and the number of distinct digests. */
  function CallsFor(c: Content, ds: map<Digest, DigestMeta>, packed: seq<DigestMeta>, i: nat): seq<Call> {
    seq(|packed|, k requires 0 <= k < |packed| =>
      Call(if packed[k].digest in ds then ds[packed[k].digest] else ZERO_META, ContentAt(c, packed[k]), i + k, |ds|))
  }

  lemma CallsForConcat(c: Content, ds: map<Digest, DigestMeta>, a: seq<DigestMeta>, b: seq<DigestMeta>, i: nat)
    ensures CallsFor(c, ds, a + b, i) == CallsFor(c, ds, a, i) + CallsFor(c, ds, b, i + |a|)
  {
  }

  /** The result of a range, with calls made before it. */
  function After(calls: seq<Call>, rest: (Result, seq<Call>)): (Result, seq<Call>) {
    (rest.0, calls + rest.1)
  }

  /** Reading `entries` makes the calls for `packed`, numbered from `i`, and goes on with `tail`. */
  predicate Reads(c: Content, entries: Archive, packed: seq<DigestMeta>, tail: Archive,
                  pkgs: seq<KubePkg>, ds: map<Digest, DigestMeta>, i: nat)
  {
    Range(entries, Some(pkgs), Some(ds), i) ==
      After(CallsFor(c, ds, packed, i), Range(tail, Some(pkgs), Some(ds), i + |packed|))
  }

  lemma ReadsNothing(c: Content, entries: Archive, pkgs: seq<KubePkg>, ds: map<Digest, DigestMeta>, i: nat)
    ensures Reads(c, entries, [], entries, pkgs, ds, i)
  {
    var rest := Range(entries, Some(pkgs), Some(ds), i).1;
    assert CallsFor(c, ds, [], i) + rest == rest;
  }

  lemma ReadsInTurn(c: Content, entries: Archive, a: seq<DigestMeta>, middle: Archive, b: seq<DigestMeta>, tail: Archive,
                    pkgs: seq<KubePkg>, ds: map<Digest, DigestMeta>, i: nat)
    requires Reads(c, entries, a, middle, pkgs, ds, i) && Reads(c, middle, b, tail, pkgs, ds, i + |a|)
    ensures Reads(c, entries, a + b, tail, pkgs, ds, i)
  {
    CallsForConcat(c, ds, a, b, i);
    Associative(CallsFor(c, ds, a, i), CallsFor(c, ds, b, i + |a|),
                Range(tail, Some(pkgs), Some(ds), i + |a| + |b|).1);
    assert i + |a| + |b| == i + |a + b|;
  }

  lemma ReadsEntry(c: Content, meta: DigestMeta, later: Archive, pkgs: seq<KubePkg>, ds: map<Digest, DigestMeta>, i: nat)
    requires ParseDigest(meta.digest).Some?
    ensures Reads(c, [EntryOf(c, meta)] + later, [meta], later, pkgs, ds, i)
  {
    BlobPathReadsBack(meta.digest);
    assert ([EntryOf(c, meta)] + later)[1..] == later;
    assert CallsFor(c, ds, [meta], i) == [CallFor(EntryOf(c, meta), meta.digest, ds, i)];
  }

  function EntryOf(c: Content, meta: DigestMeta): Entry
    requires ParseDigest(meta.digest).Some?
  {
    Entry(BlobPath(meta.digest), Blob(ContentAt(c, meta)))
  }

  /** What the first recorded digest adds to the archive. */
  lemma FirstMeta(c: Content, filter: BlobFilter, metas: seq<DigestMeta>, tail: Archive)
    requires metas != [] && PackMetas(c, filter, metas).1
    ensures ParseDigest(metas[0].digest).Some? && PackMetas(c, filter, metas[1..]).1
    ensures Packed(filter, metas) == (if IsPacked(filter, metas[0]) then [metas[0]] else []) + Packed(filter, metas[1..])
    ensures PackMetas(c, filter, metas).0 + tail ==
      (if IsPacked(filter, metas[0]) then [EntryOf(c, metas[0])] else []) + (PackMetas(c, filter, metas[1..]).0 + tail)
  {
    Associative(PackMeta(c, filter, metas[0]).value, PackMetas(c, filter, metas[1..]).0, tail);
  }

  lemma {:induction false} ReadsMetas(c: Content, filter: BlobFilter, metas: seq<DigestMeta>, tail: Archive,
                                      pkgs: seq<KubePkg>, ds: map<Digest, DigestMeta>, i: nat)
    requires PackMetas(c, filter, metas).1
    ensures Reads(c, PackMetas(c, filter, metas).0 + tail, Packed(filter, metas), tail, pkgs, ds, i)
  {
    if metas == [] {
      assert PackMetas(c, filter, metas).0 + tail == tail;
      ReadsNothing(c, tail, pkgs, ds, i);
    } else {
      FirstMeta(c, filter, metas, tail);
      var later := PackMetas(c, filter, metas[1..]).0 + tail;
      var first := if IsPacked(filter, metas[0]) then [metas[0]] else [];
      ReadsMetas(c, filter, metas[1..], tail, pkgs, ds, i + |first|);
      if IsPacked(filter, metas[0]) {
        ReadsEntry(c, metas[0], later, pkgs, ds, i);
      } else {
        ReadsNothing(c, later, pkgs, ds, i);
        assert [] + later == later;
      }
      ReadsInTurn(c, PackMetas(c, filter, metas).0 + tail, first, later, Packed(filter, metas[1..]), tail, pkgs, ds, i);
    }
  }

  /** The entries of a package: its blobs, then the index, docker and layout files. */
  lemma PackageShape(c: Content, filter: BlobFilter, pkg: KubePkg) returns (files: Archive)
    requires PackPackage(c, filter, pkg).1
    ensures PackPackage(c, filter, pkg).0 == PackMetas(c, filter, pkg.digests).0 + files
    ensures PackMetas(c, filter, pkg.digests).1
    ensures forall k | 0 <= k < |files| :: files[k].name in ["index.json", "manifest.json", "oci-layout"]
  {
    files := [Entry("index.json", OtherJson)]
      + (if DockerImageCount(c, pkg.digests) > 0 then [Entry("manifest.json", OtherJson)] else [])
      + [Entry("oci-layout", OtherJson)];
  }

  lemma ReadsPackage(c: Content, filter: BlobFilter, pkg: KubePkg, later: Archive,
                     pkgs: seq<KubePkg>, ds: map<Digest, DigestMeta>, i: nat)
    requires PackPackage(c, filter, pkg).1
    ensures Reads(c, PackPackage(c, filter, pkg).0 + later, Packed(filter, pkg.digests), later, pkgs, ds, i)
  {
    var files := PackageShape(c, filter, pkg);
    var blobs, packed := PackMetas(c, filter, pkg.digests).0, Packed(filter, pkg.digests);
    Associative(blobs, files, later);
    assert packed + [] == packed;
    var rest := files + later;
    assert PackPackage(c, filter, pkg).0 + later == blobs + rest;
    ReadsMetas(c, filter, pkg.digests, rest, pkgs, ds, i);
    ReadsFiles(c, files, later, pkgs, ds, i + |packed|);
    ReadsInTurn(c, blobs + rest, packed, rest, [], later, pkgs, ds, i);
  }

  lemma {:induction false} ReadsPackages(c: Content, filter: BlobFilter, todo: seq<KubePkg>, tail: Archive,
                                         pkgs: seq<KubePkg>, ds: map<Digest, DigestMeta>, i: nat)
    requires PackPackages(c, filter, todo).1
    ensures Reads(c, PackPackages(c, filter, todo).0 + tail, Packed(filter, AllMetas(todo)), tail, pkgs, ds, i)
  {
    if todo == [] {
      assert PackPackages(c, filter, todo).0 + tail == tail;
      ReadsNothing(c, tail, pkgs, ds, i);
    } else {
      var packed, more := Packed(filter, todo[0].digests), Packed(filter, AllMetas(todo[1..]));
      var later := PackPackages(c, filter, todo[1..]).0;
      PackedConcat(filter, todo[0].digests, AllMetas(todo[1..]));
      Associative(PackPackage(c, filter, todo[0]).0, later, tail);
      ReadsPackage(c, filter, todo[0], later + tail, pkgs, ds, i);
      ReadsPackages(c, filter, todo[1..], tail, pkgs, ds, i + |packed|);
      ReadsInTurn(c, PackPackages(c, filter, todo).0 + tail, packed, later + tail, more, tail, pkgs, ds, i);
    }
  }

  /** The index, docker and layout files are skipped. */
  lemma {:induction false} RangeFiles(files: Archive, later: Archive, pkgs: seq<KubePkg>, ds: map<Digest, DigestMeta>, i: nat)
    requires forall k | 0 <= k < |files| :: files[k].name in ["index.json", "manifest.json", "oci-layout"]
    ensures Range(files + later, Some(pkgs), Some(ds), i) == Range(later, Some(pkgs), Some(ds), i)
  {
    if files == [] {
      assert files + later == later;
    } else {
      assert (files + later)[1..] == files[1..] + later;
      assert files[0].name[0] != 'b' && files[0].name[0] != 'k';
      RangeFiles(files[1..], later, pkgs, ds, i);
    }
  }

  lemma ReadsFiles(c: Content, files: Archive, later: Archive, pkgs: seq<KubePkg>, ds: map<Digest, DigestMeta>, i: nat)
    requires forall k | 0 <= k < |files| :: files[k].name in ["index.json", "manifest.json", "oci-layout"]
    ensures Reads(c, files + later, [], later, pkgs, ds, i)
  {
    RangeFiles(files, later, pkgs, ds, i);
    ReadsNothing(c, later, pkgs, ds, i);
  }

  /** The digest map may be filled early: it is filled at the first blob, and packages only change at
      `kubepkg.json`. */
  lemma {:induction false} RangeFillsOnce(entries: Archive, pkgs: seq<KubePkg>, i: nat)
    requires forall k | 0 <= k < |entries| && IsHeader(entries[k]) :: exists j | 0 <= j < k :: IsBlob(entries[j])
    ensures Range(entries, Some(pkgs), None, i) == Range(entries, Some(pkgs), Some(LastOf(AllMetas(pkgs))), i)
  {
    if entries == [] {
    } else if !IsBlob(entries[0]) {
      assert !IsHeader(entries[0]);
      forall k | 0 <= k < |entries[1..]| && IsHeader(entries[1..][k]) ensures exists j | 0 <= j < k :: IsBlob(entries[1..][j]) {
        assert IsHeader(entries[k + 1]);
        var j :| 0 <= j < k + 1 && IsBlob(entries[j]);
        assert IsBlob(entries[1..][j - 1]);
      }
      RangeFillsOnce(entries[1..], pkgs, i);
    }
  }

  predicate IsHeader(e: Entry) { e.name == "kubepkg.json" }
  predicate IsBlob(e: Entry) { "blobs/" <= e.name && !IsHeader(e) }

  lemma {:induction false} OnlyOneHeader(c: Content, filter: BlobFilter, metas: seq<DigestMeta>)
    ensures forall e | e in PackMetas(c, filter, metas).0 :: !IsHeader(e)
  {
    if metas != [] && PackMeta(c, filter, metas[0]).Some? {
      BlobPathReadsBack(metas[0].digest);
      OnlyOneHeader(c, filter, metas[1..]);
    }
  }

  lemma {:induction false} OnlyOneHeaderInAll(c: Content, filter: BlobFilter, pkgs: seq<KubePkg>)
    ensures forall e | e in PackPackages(c, filter, pkgs).0 :: !IsHeader(e)
  {
    if pkgs == [] {
    } else {
      OnlyOneHeader(c, filter, pkgs[0].digests);
      assert forall e | e in PackPackage(c, filter, pkgs[0]).0 :: !IsHeader(e);
      OnlyOneHeaderInAll(c, filter, pkgs[1..]);
    }
  }

  /** Packages the archive can carry: all named, and a single one with its kind set. */
  predicate Loadable(pkgs: seq<KubePkg>) {
    (forall i | 0 <= i < |pkgs| :: pkgs[i].name != "") && (|pkgs| == 1 ==> pkgs[0].kind == "KubePkg")
  }

  lemma LoadableExactly(pkgs: seq<KubePkg>)
    ensures Loadable(pkgs) <==> LoadKubePkgs(Header(pkgs).body) == Some(pkgs)
  {
    if |pkgs| == 1 { assert pkgs == [pkgs[0]]; }
  }

  /** Whatever follows the packages, unless it brings another header before its first blob, is read after
      one call for every packed digest. */
  lemma RangeOfPackThen(c: Content, filter: BlobFilter, pkgs: seq<KubePkg>, tail: Archive)
    requires Pack(c, filter, pkgs).1 && Loadable(pkgs)
    requires forall k | 0 <= k < |tail| && IsHeader(tail[k]) :: exists j | 0 <= j < k :: IsBlob(tail[j])
    ensures var ds := LastOf(AllMetas(pkgs));
      var packed := Packed(filter, AllMetas(pkgs));
      Range(Pack(c, filter, pkgs).0 + tail, None, None, 0) ==
        After(CallsFor(c, ds, packed, 0), Range(tail, Some(pkgs), Some(ds), |packed|))
  {
    var entries, later := Pack(c, filter, pkgs).0 + tail, PackPackages(c, filter, pkgs).0 + tail;
    assert entries[0] == Header(pkgs) && entries[1..] == later;
    LoadableExactly(pkgs);
    OnlyOneHeaderInAll(c, filter, pkgs);
    HeadersAfterBlobs(PackPackages(c, filter, pkgs).0, tail);
    RangeFillsOnce(later, pkgs, 0);
    ReadsPackages(c, filter, pkgs, tail, pkgs, LastOf(AllMetas(pkgs)), 0);
  }

  lemma HeadersAfterBlobs(entries: Archive, tail: Archive)
    requires forall e | e in entries :: !IsHeader(e)
    requires forall k | 0 <= k < |tail| && IsHeader(tail[k]) :: exists j | 0 <= j < k :: IsBlob(tail[j])
    ensures forall k | 0 <= k < |entries + tail| && IsHeader((entries + tail)[k]) ::
      exists j | 0 <= j < k :: IsBlob((entries + tail)[j])
  {
    var all := entries + tail;
    assert forall k | 0 <= k < |entries| :: all[k] == entries[k] && entries[k] in entries;
    forall k | 0 <= k < |all| && IsHeader(all[k]) ensures exists j | 0 <= j < k :: IsBlob(all[j]) {
      var j :| 0 <= j < k - |entries| && IsBlob(tail[j]);
      assert IsBlob(all[|entries| + j]);
    }
  }

  /** Ranging over a packed archive gives back the packages exactly when they are loadable, and
      then calls back once for every packed digest in order. */
  lemma RangeOfPack(c: Content, filter: BlobFilter, pkgs: seq<KubePkg>)
    requires Pack(c, filter, pkgs).1
    ensures Range(Pack(c, filter, pkgs).0, None, None, 0).0 == Done(Some(pkgs)) <==> Loadable(pkgs)
    ensures Loadable(pkgs) ==>
      Range(Pack(c, filter, pkgs).0, None, None, 0).1 ==
        CallsFor(c, LastOf(AllMetas(pkgs)), Packed(filter, AllMetas(pkgs)), 0)
  {
    var entries := Pack(c, filter, pkgs).0;
    LoadableExactly(pkgs);
    if Loadable(pkgs) {
      RangeOfPackThen(c, filter, pkgs, []);
      var calls := CallsFor(c, LastOf(AllMetas(pkgs)), Packed(filter, AllMetas(pkgs)), 0);
      assert entries + [] == entries && calls + [] == calls;
    } else {
      UnloadableFails(c, filter, pkgs);
    }
  }

  lemma UnloadableFails(c: Content, filter: BlobFilter, pkgs: seq<KubePkg>)
    requires Pack(c, filter, pkgs).1 && !Loadable(pkgs)
    ensures Range(Pack(c, filter, pkgs).0, None, None, 0).0 != Done(Some(pkgs))
  {
    var entries, later := Pack(c, filter, pkgs).0, PackPackages(c, filter, pkgs).0;
    assert entries[0] == Header(pkgs) && entries[1..] == later;
    LoadableExactly(pkgs);
    var list := LoadKubePkgs(Header(pkgs).body);
    if list.Some? {
      OnlyOneHeaderInAll(c, filter, pkgs);
      KeepsPackages(later, list.value, None, 0);
    }
  }

  /** Without another header, the packages read are the ones returned, if any are. */
  lemma {:induction false} KeepsPackages(entries: Archive, pkgs: seq<KubePkg>, ds: Option<map<Digest, DigestMeta>>, i: nat)
    requires forall e | e in entries :: !IsHeader(e)
    ensures Range(entries, Some(pkgs), ds, i).0 in [Done(Some(pkgs)), Done(None), Failed]
  {
    if entries == [] {
    } else {
      assert entries[0] in entries;
      match OnEntry(entries[0], Some(pkgs), ds, i)
      case Stop(_) =>
      case Go(_) => KeepsPackages(entries[1..], pkgs, ds, i);
      case CallBack(_, all) => KeepsPackages(entries[1..], pkgs, Some(all), i + 1);
    }
  }
}
