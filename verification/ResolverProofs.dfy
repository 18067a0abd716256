/** What resolving an image promises: the closure of what the needed platforms refer to, and
    nothing else, with every reference before the manifest that makes it. */
module ResolverProofs {
  import opened Wrappers
  import opened Text
  import opened Registry
  import opened DigestResolver

  // ------------------------------------------------------------- what documents ask for

  /** The text of a platform: its OS, architecture and variant, as far as it has them, around
      slashes; the variant `v8` of `arm64` goes without saying. */
  function PlatformText(p: Platform): string {
    if p.os == "" then "unknown"
    else
      Join([p.os] + (if p.architecture == "" then [] else [p.architecture])
        + (if p.variant == "" || (p.architecture == "arm64" && p.variant == "v8") then [] else [p.variant]), "/")
  }

  /** The platform an index entry is for; one that does not say is for that of the index. */
  function EntryPlatform(entry: Reference, inherited: string): string {
    match entry.platform
    case Some(p) => PlatformText(p)
    case None => inherited
  }

  predicate IsWanted(needed: seq<string>, platform: string) {
    if |needed| == 0 then platform == "linux/amd64" || platform == "linux/arm64" else platform in needed
  }

  /** A digest, and the platform it is resolved for. */
  datatype Spot = Spot(digest: Digest, platform: string)

  /** The index entries at the positions in `path`, each for a wanted platform, lead from one to the other. */
  ghost predicate Leads(c: Content, needed: seq<string>, from: Spot, path: seq<nat>, to: Spot)
    decreases |path|
  {
    if path == [] then from == to
    else
      from.digest in c.manifests && c.manifests[from.digest].Index? &&
      path[0] < |c.manifests[from.digest].references| &&
      var entry := c.manifests[from.digest].references[path[0]];
      var platform := EntryPlatform(entry, from.platform);
      IsWanted(needed, platform) && Leads(c, needed, Spot(entry.digest, platform), path[1..], to)
  }

  ghost predicate IsFound(c: Content, needed: seq<string>, from: Spot, to: Spot) {
    exists path :: Leads(c, needed, from, path, to)
  }

  /** An image says itself what it is for, if its config can be read and names an OS. */
  function RecordedPlatform(c: Content, m: Manifest, platform: string): string {
    if m.Image? && m.config.digest in c.configs && c.configs[m.config.digest].os != ""
    then PlatformText(c.configs[m.config.digest]) else platform
  }

  /** `meta` is the record of the manifest at `at`, or of the config or a layer of the image there. */
  ghost predicate Records(c: Content, at: Spot, name: string, tag: string, meta: DigestMeta) {
    at.digest in c.manifests &&
    var m := c.manifests[at.digest];
    meta.name == name && meta.tag == tag && meta.platform == RecordedPlatform(c, m, at.platform) &&
    ((meta.digest == at.digest && meta.size == |m.payload| &&
      meta.typ == if m.OtherManifest? then BlobMeta else ManifestMeta) ||
     (m.Image? && exists ref | ref in [m.config] + m.layers ::
       meta.digest == ref.digest && meta.size == ref.size &&
       meta.typ == if ref.mediaType.OtherType? then BlobMeta else ManifestMeta))
  }

  function Here(ctx: ImageCtx): Spot
    requires ctx.digest.Some?
  {
    Spot(ctx.digest.value, ctx.platform)
  }

  lemma JoinTwo(a: string, b: string)
    ensures Join([a] + [] + [b], "/") == Join([a] + [b] + [], "/") == a + "/" + b
  {
    assert [a] + [] + [b] == [a] + [b] + [] == [a, b];
    assert [a, b][1..] == [b];
  }

  lemma JoinThree(a: string, b: string, c: string)
    ensures Join([a] + [b] + [c], "/") == a + ("/" + b) + ("/" + c)
  {
    assert [a] + [b] + [c] == [a, b, c];
    assert [a, b, c][1..] == [b, c] && [b, c][1..] == [c];
    assert Join([b, c], "/") == b + "/" + c;
  }

  lemma WithPlatformMeaning(ctx: ImageCtx, p: Platform)
    ensures ctx.WithPlatform(p) == ctx.(platform := PlatformText(p))
  {
    JoinTwo(p.os, p.architecture);
    JoinTwo(p.os, p.variant);
    JoinThree(p.os, p.architecture, p.variant);
  }

  /** An index entry is resolved for its own platform, and exactly when that is wanted. */
  lemma EntryMeaning(ctx: ImageCtx, entry: Reference)
    ensures var sub := Sub(ctx, entry);
      sub == ctx.(digest := Some(entry.digest), platform := EntryPlatform(entry, ctx.platform)) &&
      (sub.IsNeededPlatform(sub.platform) <==> IsWanted(ctx.neededPlatforms, EntryPlatform(entry, ctx.platform)))
  {
    if entry.platform.Some? { WithPlatformMeaning(ctx.WithDigest(entry.digest), entry.platform.value); }
  }

  /** Unless other platforms are asked for, the usual entry for 64-bit ARM is resolved. */
  lemma ArmIsWantedByDefault(entry: Reference, inherited: string)
    requires entry.platform == Some(Platform("linux", "arm64", "v8"))
    ensures IsWanted([], EntryPlatform(entry, inherited))
  {
    var parts := ["linux"] + ["arm64"] + [];
    assert parts[1..] == ["arm64"];
    assert Join(parts, "/") == "linux" + "/" + "arm64" == "linux/arm64";
  }

  lemma AtManifestMeaning(c: Content, ctx: ImageCtx, m: Manifest)
    ensures AtManifest(c, ctx, m) == ctx.(platform := RecordedPlatform(c, m, ctx.platform))
  {
    if m.Image? && m.config.digest in c.configs { WithPlatformMeaning(ctx, c.configs[m.config.digest]); }
  }

  // ----------------------------------------------------------------------- closure

  lemma {:induction false} EntriesInclude(c: Content, rank: Rank, ctx: ImageCtx, refs: seq<Reference>, bound: nat, k: nat)
    requires Acyclic(c, rank) && forall i | 0 <= i < |refs| :: rank(refs[i].digest) < bound
    requires k < |refs| && Sub(ctx, refs[k]).IsNeededPlatform(Sub(ctx, refs[k]).platform)
    requires WalkEntries(c, rank, ctx, refs, bound).ok
    ensures Walk(c, rank, Sub(ctx, refs[k])).ok
    ensures forall x | x in Walk(c, rank, Sub(ctx, refs[k])).metas :: x in WalkEntries(c, rank, ctx, refs, bound).metas
    decreases |refs|
  {
    if k == 0 {
    } else {
      assert refs[1..][k - 1] == refs[k];
      EntriesInclude(c, rank, ctx, refs[1..], bound, k - 1);
    }
  }

  /** A successful resolution found every reachable manifest and recorded it, its config and
      its layers. */
  lemma {:induction false} WalkIsComplete(c: Content, rank: Rank, ctx: ImageCtx, path: seq<nat>, to: Spot)
    requires Acyclic(c, rank) && ctx.digest.Some? && Walk(c, rank, ctx).ok
    requires Leads(c, ctx.neededPlatforms, Here(ctx), path, to)
    ensures to.digest in c.manifests
    ensures forall meta | Records(c, to, ctx.name, ctx.tag, meta) :: meta in Walk(c, rank, ctx).metas
    decreases |path|
  {
    var m := c.manifests[ctx.digest.value];
    if path == [] {
      forall meta | Records(c, to, ctx.name, ctx.tag, meta) ensures meta in Walk(c, rank, ctx).metas {
        RecordIsMade(c, rank, ctx, meta);
      }
    } else {
      EntryMeaning(ctx, m.references[path[0]]);
      EntriesInclude(c, rank, ctx, m.references, rank(ctx.digest.value), path[0]);
      WalkIsComplete(c, rank, Sub(ctx, m.references[path[0]]), path[1..], to);
    }
  }

  lemma RecordIsMade(c: Content, rank: Rank, ctx: ImageCtx, meta: DigestMeta)
    requires Acyclic(c, rank) && ctx.digest.Some? && Walk(c, rank, ctx).ok
    requires Records(c, Here(ctx), ctx.name, ctx.tag, meta)
    ensures meta in Walk(c, rank, ctx).metas
  {
    var m := c.manifests[ctx.digest.value];
    var at := AtManifest(c, ctx, m);
    AtManifestMeaning(c, ctx, m);
    if meta != at.ToDigestMeta(m.MediaType(), |m.payload|) {
      var ref :| ref in [m.config] + m.layers && meta.digest == ref.digest && meta.size == ref.size &&
        meta.typ == if ref.mediaType.OtherType? then BlobMeta else ManifestMeta;
      var i :| 0 <= i < |m.References()| && m.References()[i] == ref;
      assert RefMetas(at, m.References())[i] == meta;
    }
  }

  /** A resolution succeeds exactly when every digest it is led to is that of a manifest. */
  lemma WalkSucceedsExactly(c: Content, rank: Rank, ctx: ImageCtx)
    requires Acyclic(c, rank) && ctx.digest.Some?
    ensures Walk(c, rank, ctx).ok <==>
      forall to | IsFound(c, ctx.neededPlatforms, Here(ctx), to) :: to.digest in c.manifests
  {
    if Walk(c, rank, ctx).ok {
      forall to | IsFound(c, ctx.neededPlatforms, Here(ctx), to) ensures to.digest in c.manifests {
        var path :| Leads(c, ctx.neededPlatforms, Here(ctx), path, to);
        WalkIsComplete(c, rank, ctx, path, to);
      }
    } else {
      var path, to := FailureIsMissing(c, rank, ctx);
      assert IsFound(c, ctx.neededPlatforms, Here(ctx), to);
    }
  }

  lemma {:induction false} FailureIsMissing(c: Content, rank: Rank, ctx: ImageCtx) returns (path: seq<nat>, to: Spot)
    requires Acyclic(c, rank) && ctx.digest.Some? && !Walk(c, rank, ctx).ok
    ensures Leads(c, ctx.neededPlatforms, Here(ctx), path, to) && to.digest !in c.manifests
    decreases rank(ctx.digest.value), 1, 0
  {
    path, to := [], Here(ctx);
    if to.digest in c.manifests {
      var refs := c.manifests[to.digest].references;
      var k;
      k, path, to := EntryIsMissing(c, rank, ctx, refs, rank(to.digest));
      EntryMeaning(ctx, refs[k]);
      assert ([k] + path)[1..] == path;
      path := [k] + path;
    }
  }

  lemma {:induction false} EntryIsMissing(c: Content, rank: Rank, ctx: ImageCtx, refs: seq<Reference>, bound: nat)
    returns (k: nat, path: seq<nat>, to: Spot)
    requires Acyclic(c, rank) && forall i | 0 <= i < |refs| :: rank(refs[i].digest) < bound
    requires !WalkEntries(c, rank, ctx, refs, bound).ok
    ensures k < |refs| && Sub(ctx, refs[k]).IsNeededPlatform(Sub(ctx, refs[k]).platform)
    ensures Leads(c, ctx.neededPlatforms, Here(Sub(ctx, refs[k])), path, to) && to.digest !in c.manifests
    decreases bound, 0, |refs|
  {
    var sub := Sub(ctx, refs[0]);
    if sub.IsNeededPlatform(sub.platform) && !Walk(c, rank, sub).ok {
      k := 0;
      path, to := FailureIsMissing(c, rank, sub);
    } else {
      k, path, to := EntryIsMissing(c, rank, ctx, refs[1..], bound);
      assert refs[1..][k] == refs[k + 1];
      k := k + 1;
    }
  }

  /** A successful resolution records exactly what belongs to the manifests it is led to. */
  lemma WalkRecordsExactly(c: Content, rank: Rank, ctx: ImageCtx, meta: DigestMeta)
    requires Acyclic(c, rank) && ctx.digest.Some? && Walk(c, rank, ctx).ok
    ensures meta in Walk(c, rank, ctx).metas <==>
      exists to | IsFound(c, ctx.neededPlatforms, Here(ctx), to) :: Records(c, to, ctx.name, ctx.tag, meta)
  {
    if meta in Walk(c, rank, ctx).metas {
      var path, to := WalkIsSound(c, rank, ctx, meta);
      assert IsFound(c, ctx.neededPlatforms, Here(ctx), to);
    }
    if to :| IsFound(c, ctx.neededPlatforms, Here(ctx), to) && Records(c, to, ctx.name, ctx.tag, meta) {
      var path :| Leads(c, ctx.neededPlatforms, Here(ctx), path, to);
      WalkIsComplete(c, rank, ctx, path, to);
    }
  }

  /** Nothing else is recorded, even by a resolution that fails half-way. */
  lemma {:induction false} WalkIsSound(c: Content, rank: Rank, ctx: ImageCtx, meta: DigestMeta)
    returns (path: seq<nat>, to: Spot)
    requires Acyclic(c, rank) && ctx.digest.Some? && meta in Walk(c, rank, ctx).metas
    ensures Leads(c, ctx.neededPlatforms, Here(ctx), path, to) && Records(c, to, ctx.name, ctx.tag, meta)
    decreases rank(ctx.digest.value), 1, 0
  {
    var d := ctx.digest.value;
    var m := c.manifests[d];
    var at := AtManifest(c, ctx, m);
    path, to := [], Here(ctx);
    AtManifestMeaning(c, ctx, m);
    if m.Index? {
      if meta in WalkEntries(c, rank, ctx, m.references, rank(d)).metas {
        var k;
        k, path, to := EntriesAreSound(c, rank, ctx, m.references, rank(d), meta);
        EntryMeaning(ctx, m.references[k]);
        assert ([k] + path)[1..] == path;
        path := [k] + path;
      }
    } else if meta in RefMetas(at, m.References()) {
      var i :| 0 <= i < |m.References()| && RefMetas(at, m.References())[i] == meta;
      assert m.Image?;
      assert m.References()[i] in [m.config] + m.layers;
    }
  }

  lemma {:induction false} EntriesAreSound(c: Content, rank: Rank, ctx: ImageCtx, refs: seq<Reference>, bound: nat, meta: DigestMeta)
    returns (k: nat, path: seq<nat>, to: Spot)
    requires Acyclic(c, rank) && forall i | 0 <= i < |refs| :: rank(refs[i].digest) < bound
    requires meta in WalkEntries(c, rank, ctx, refs, bound).metas
    ensures k < |refs| && Sub(ctx, refs[k]).IsNeededPlatform(Sub(ctx, refs[k]).platform)
    ensures Leads(c, ctx.neededPlatforms, Here(Sub(ctx, refs[k])), path, to) && Records(c, to, ctx.name, ctx.tag, meta)
    decreases bound, 0, |refs|
  {
    var sub := Sub(ctx, refs[0]);
    EntryMeaning(ctx, refs[0]);
    if sub.IsNeededPlatform(sub.platform) && meta in Walk(c, rank, sub).metas {
      k := 0;
      path, to := WalkIsSound(c, rank, sub, meta);
    } else {
      k, path, to := EntriesAreSound(c, rank, ctx, refs[1..], bound, meta);
      assert refs[1..][k] == refs[k + 1];
      k := k + 1;
    }
  }

  // -------------------------------------------------------------------------- order

  /** Configs and layers are not of a manifest media type, so `DigestMeta.Type` tells them apart. */
  ghost predicate PlainImages(c: Content) {
    forall d | d in c.manifests && c.manifests[d].Image? ::
      forall i | 0 <= i < |c.manifests[d].References()| :: c.manifests[d].References()[i].mediaType.OtherType?
  }

  predicate DigestIn(d: Digest, metas: seq<DigestMeta>) {
    exists i | 0 <= i < |metas| :: metas[i].digest == d
  }

  /** A manifest recorded under `platform` needs this reference of its. */
  predicate Needs(needed: seq<string>, m: Manifest, platform: string, ref: Reference) {
    m.Index? ==> IsWanted(needed, EntryPlatform(ref, platform))
  }

  /** Every needed reference of this manifest is among `before`. */
  ghost predicate Settled(c: Content, needed: seq<string>, before: seq<DigestMeta>, meta: DigestMeta) {
    meta.typ.ManifestMeta? ==>
      meta.digest in c.manifests &&
      forall k | 0 <= k < |c.manifests[meta.digest].References()| ::
        Needs(needed, c.manifests[meta.digest], meta.platform, c.manifests[meta.digest].References()[k]) ==>
          DigestIn(c.manifests[meta.digest].References()[k].digest, before)
  }

  /** Every reference comes before the manifest that makes it. */
  ghost predicate PostOrdered(c: Content, needed: seq<string>, metas: seq<DigestMeta>) {
    forall j | 0 <= j < |metas| :: Settled(c, needed, metas[..j], metas[j])
  }

  lemma DigestInPrefix(d: Digest, a: seq<DigestMeta>, b: seq<DigestMeta>)
    ensures DigestIn(d, a + b) <==> DigestIn(d, a) || DigestIn(d, b)
  {
    if i :| 0 <= i < |a| && a[i].digest == d { assert (a + b)[i].digest == d; }
    if i :| 0 <= i < |b| && b[i].digest == d { assert (a + b)[|a| + i].digest == d; }
  }

  lemma SettledWithMore(c: Content, needed: seq<string>, a: seq<DigestMeta>, b: seq<DigestMeta>, meta: DigestMeta)
    requires Settled(c, needed, a, meta) || Settled(c, needed, b, meta)
    ensures Settled(c, needed, a + b, meta)
  {
    if meta.digest in c.manifests {
      forall k | 0 <= k < |c.manifests[meta.digest].References()| {
        DigestInPrefix(c.manifests[meta.digest].References()[k].digest, a, b);
      }
    }
  }

  lemma PostOrderedConcat(c: Content, needed: seq<string>, a: seq<DigestMeta>, b: seq<DigestMeta>)
    requires PostOrdered(c, needed, a) && PostOrdered(c, needed, b)
    ensures PostOrdered(c, needed, a + b)
  {
    var all := a + b;
    forall j | 0 <= j < |all| ensures Settled(c, needed, all[..j], all[j]) {
      if j < |a| {
        assert all[..j] == a[..j];
      } else {
        assert all[..j] == a + b[..j - |a|];
        SettledWithMore(c, needed, a, b[..j - |a|], all[j]);
      }
    }
  }

  lemma {:induction false} WalkIsPostOrdered(c: Content, rank: Rank, ctx: ImageCtx)
    requires Acyclic(c, rank) && PlainImages(c) && ctx.digest.Some?
    ensures PostOrdered(c, ctx.neededPlatforms, Walk(c, rank, ctx).metas)
    ensures Walk(c, rank, ctx).ok ==> DigestIn(ctx.digest.value, Walk(c, rank, ctx).metas)
    decreases rank(ctx.digest.value), 1, 0
  {
    var d, needed := ctx.digest.value, ctx.neededPlatforms;
    if d in c.manifests {
      var m := c.manifests[d];
      var at := AtManifest(c, ctx, m);
      var own := at.ToDigestMeta(m.MediaType(), |m.payload|);
      var below: Outcome;
      if m.Index? {
        below := WalkEntries(c, rank, ctx, m.references, rank(d));
        EntriesArePostOrdered(c, rank, ctx, m.references, rank(d));
        forall k | 0 <= k < |m.references| && below.ok && Needs(needed, m, own.platform, m.references[k])
          ensures DigestIn(m.references[k].digest, below.metas)
        {
          var sub := Sub(ctx, m.references[k]);
          EntryMeaning(ctx, m.references[k]);
          EntriesInclude(c, rank, ctx, m.references, rank(d), k);
          WalkIsPostOrdered(c, rank, sub);
          var i :| 0 <= i < |Walk(c, rank, sub).metas| && Walk(c, rank, sub).metas[i].digest == sub.digest.value;
          assert Walk(c, rank, sub).metas[i] in below.metas;
        }
      } else {
        below := Outcome(RefMetas(at, m.References()), true);
        forall k | 0 <= k < |m.References()| ensures DigestIn(m.References()[k].digest, below.metas) {
          assert below.metas[k].digest == m.References()[k].digest;
        }
      }
      if below.ok {
        var all := Walk(c, rank, ctx).metas;
        assert all == below.metas + [own] && all[|below.metas|] == own;
        assert Settled(c, needed, below.metas, own);
        forall j | 0 <= j < |all| ensures Settled(c, needed, all[..j], all[j]) {
          assert all[..j] == if j < |below.metas| then below.metas[..j] else below.metas;
        }
      }
    }
  }

  lemma {:induction false} EntriesArePostOrdered(c: Content, rank: Rank, ctx: ImageCtx, refs: seq<Reference>, bound: nat)
    requires Acyclic(c, rank) && PlainImages(c) && forall i | 0 <= i < |refs| :: rank(refs[i].digest) < bound
    ensures PostOrdered(c, ctx.neededPlatforms, WalkEntries(c, rank, ctx, refs, bound).metas)
    decreases bound, 0, |refs|
  {
    if refs == [] {
    } else {
      var sub := Sub(ctx, refs[0]);
      EntryMeaning(ctx, refs[0]);
      EntriesArePostOrdered(c, rank, ctx, refs[1..], bound);
      if sub.IsNeededPlatform(sub.platform) {
        WalkIsPostOrdered(c, rank, sub);
        PostOrderedConcat(c, ctx.neededPlatforms, Walk(c, rank, sub).metas, WalkEntries(c, rank, ctx, refs[1..], bound).metas);
      } else {
        var rest := WalkEntries(c, rank, ctx, refs[1..], bound).metas;
        assert WalkEntries(c, rank, ctx, refs, bound).metas == rest;
      }
    }
  }
}
