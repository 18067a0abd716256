/** pkg/kubepkg/digestresolver.go: from an image reference to the list of digests behind it. */
module DigestResolver {
  import opened Wrappers
  import opened Text
  import opened Registry

  datatype ImageCtx = ImageCtx(
    name: string, digest: Option<Digest>, tag: string, platform: string, neededPlatforms: seq<string>)
  {
    function WithDigest(d: Digest): ImageCtx { this.(digest := Some(d)) }

    function WithPlatform(p: Platform): ImageCtx {
      this.(platform := Format(if p.architecture == "arm64" && p.variant == "v8" then p.(variant := "") else p))
    }

    predicate IsNeededPlatform(p: string) {
      if neededPlatforms == [] then p in ["linux/amd64", "linux/arm64"] else p in neededPlatforms
    }

    function ToDigestMeta(mediaType: MediaType, size: int): DigestMeta
      requires digest.Some?
    {
      DigestMeta(if mediaType.OtherType? then BlobMeta else ManifestMeta, digest.value, name, size, tag, platform)
    }
  }

  /** `platforms.Format`: the non-empty parts joined by slashes. */
  function Format(p: Platform): string {
    if p.os == "" then "unknown"
    else p.os + (if p.architecture == "" then "" else "/" + p.architecture)
              + (if p.variant == "" then "" else "/" + p.variant)
  }

  /** The context in which an index entry is resolved. */
  function Sub(ctx: ImageCtx, ref: Reference): ImageCtx {
    var sub := ctx.WithDigest(ref.digest);
    if ref.platform.Some? then sub.WithPlatform(ref.platform.value) else sub
  }

  /** For an image manifest the platform is read from its config, when that names an OS. */
  function AtManifest(c: Content, ctx: ImageCtx, m: Manifest): ImageCtx {
    if m.Image? && m.config.digest in c.configs && c.configs[m.config.digest].os != ""
    then ctx.WithPlatform(c.configs[m.config.digest])
    else ctx
  }

  function RefMetas(ctx: ImageCtx, refs: seq<Reference>): seq<DigestMeta> {
    seq(|refs|, i requires 0 <= i < |refs| => ctx.WithDigest(refs[i].digest).ToDigestMeta(refs[i].mediaType, refs[i].size))
  }

  /** A rank witnesses that no chain of index entries comes back to where it started. */
  type Rank = Digest -> nat

  ghost predicate Acyclic(c: Content, rank: Rank) {
    forall d, i | d in c.manifests && c.manifests[d].Index? && 0 <= i < |c.manifests[d].references| ::
      rank(c.manifests[d].references[i].digest) < rank(d)
  }

  /** What `resolve` appends, and whether it returns without error. */
  datatype Outcome = Outcome(metas: seq<DigestMeta>, ok: bool)

  ghost function Walk(c: Content, rank: Rank, ctx: ImageCtx): Outcome
    requires Acyclic(c, rank) && ctx.digest.Some?
    decreases rank(ctx.digest.value), 1, 0
  {
    var d := ctx.digest.value;
    if d !in c.manifests then Outcome([], false)
    else
      var m := c.manifests[d];
      var at := AtManifest(c, ctx, m);
      var below := if m.Index? then WalkEntries(c, rank, ctx, m.references, rank(d))
                   else Outcome(RefMetas(at, m.References()), true);
      if below.ok then Outcome(below.metas + [at.ToDigestMeta(m.MediaType(), |m.payload|)], true) else below
  }

  ghost function WalkEntries(c: Content, rank: Rank, ctx: ImageCtx, refs: seq<Reference>, bound: nat): Outcome
    requires Acyclic(c, rank) && forall i | 0 <= i < |refs| :: rank(refs[i].digest) < bound
    decreases bound, 0, |refs|
  {
    if refs == [] then Outcome([], true)
    else
      var sub := Sub(ctx, refs[0]);
      var first := if sub.IsNeededPlatform(sub.platform) then Walk(c, rank, sub) else Outcome([], true);
      if !first.ok then first
      else
        var rest := WalkEntries(c, rank, ctx, refs[1..], bound);
        Outcome(first.metas + rest.metas, rest.ok)
  }

  /** A context without a digest is resolved by tag first. */
  function Rooted(c: Content, ctx: ImageCtx): Option<ImageCtx> {
    if ctx.digest.Some? then Some(ctx)
    else if (ctx.name, ctx.tag) in c.tags then Some(ctx.WithDigest(c.tags[(ctx.name, ctx.tag)]))
    else None
  }

  ghost function WalkRoot(c: Content, rank: Rank, ctx: ImageCtx): Outcome
    requires Acyclic(c, rank)
  {
    if Rooted(c, ctx).Some? then Walk(c, rank, Rooted(c, ctx).value) else Outcome([], false)
  }

  class Status {
    var images: map<string, Digest>
    var digests: seq<DigestMeta>

    constructor (images: map<string, Digest>, digests: seq<DigestMeta>)
      ensures this.images == images && this.digests == digests
    {
      this.images, this.digests := images, digests;
    }
  }

  datatype Descriptor = Descriptor(mediaType: MediaType, digest: Digest, size: int)

  method Resolve(c: Content, ghost rank: Rank, ctx: ImageCtx, status: Status) returns (r: Option<Descriptor>)
    requires Acyclic(c, rank)
    modifies status`digests
    ensures status.digests == old(status.digests) + WalkRoot(c, rank, ctx).metas
    ensures r.Some? <==> WalkRoot(c, rank, ctx).ok
    ensures r.Some? ==> r.value.digest == Rooted(c, ctx).value.digest.value
    ensures r.Some? ==> r.value.digest in c.manifests
    ensures r.Some? ==> r.value.mediaType == c.manifests[r.value.digest].MediaType()
    ensures r.Some? ==> r.value.size == |c.manifests[r.value.digest].payload|
    decreases ctx.digest.None?, if ctx.digest.Some? then rank(ctx.digest.value) else 0, 1
  {
    if ctx.digest.None? {
      if (ctx.name, ctx.tag) !in c.tags { return None; }
      r := Resolve(c, rank, ctx.WithDigest(c.tags[(ctx.name, ctx.tag)]), status);
      return;
    }
    var d := ctx.digest.value;
    if d !in c.manifests { return None; }
    var m := c.manifests[d];
    var at := AtManifest(c, ctx, m);
    if m.Index? {
      var ok := ResolveEntries(c, rank, ctx, m.references, rank(d), status);
      if !ok { return None; }
    } else {
      AppendReferences(at, m.References(), status);
    }
    status.digests := status.digests + [at.ToDigestMeta(m.MediaType(), |m.payload|)];
    return Some(Descriptor(m.MediaType(), d, |m.payload|));
  }

  /** The loop over the entries of an index. */
  method ResolveEntries(c: Content, ghost rank: Rank, ctx: ImageCtx, refs: seq<Reference>, ghost bound: nat, status: Status)
    returns (ok: bool)
    requires Acyclic(c, rank) && forall i | 0 <= i < |refs| :: rank(refs[i].digest) < bound
    modifies status`digests
    ensures status.digests == old(status.digests) + WalkEntries(c, rank, ctx, refs, bound).metas
    ensures ok == WalkEntries(c, rank, ctx, refs, bound).ok
    decreases false, bound, 0
  {
    ghost var before, all := status.digests, WalkEntries(c, rank, ctx, refs, bound);
    ghost var rest := all;
    assert refs[0..] == refs;
    for i := 0 to |refs|
      invariant rest == WalkEntries(c, rank, ctx, refs[i..], bound)
      invariant status.digests + rest.metas == before + all.metas && rest.ok == all.ok
    {
      WalkEntriesStep(c, rank, ctx, refs, i, bound);
      ghost var next := WalkEntries(c, rank, ctx, refs[i + 1..], bound);
      var sub := Sub(ctx, refs[i]);
      if sub.IsNeededPlatform(sub.platform) {
        ghost var first := Walk(c, rank, sub);
        Associative(status.digests, first.metas, next.metas);
        var ret := Resolve(c, rank, sub, status);
        if ret.None? { return false; }
      }
      rest := next;
    }
    return true;
  }

  lemma WalkEntriesStep(c: Content, rank: Rank, ctx: ImageCtx, refs: seq<Reference>, i: nat, bound: nat)
    requires Acyclic(c, rank) && i < |refs| && forall j | 0 <= j < |refs| :: rank(refs[j].digest) < bound
    ensures var sub, rest, next := Sub(ctx, refs[i]),
      WalkEntries(c, rank, ctx, refs[i..], bound), WalkEntries(c, rank, ctx, refs[i + 1..], bound);
      rest == if !sub.IsNeededPlatform(sub.platform) then next
              else if Walk(c, rank, sub).ok then Outcome(Walk(c, rank, sub).metas + next.metas, next.ok)
              else Walk(c, rank, sub)
  {
    assert refs[i..][1..] == refs[i + 1..];
    var next := WalkEntries(c, rank, ctx, refs[i + 1..], bound);
    assert [] + next.metas == next.metas;
  }

  /** The loop over the config and layers of an image manifest. */
  method AppendReferences(at: ImageCtx, refs: seq<Reference>, status: Status)
    modifies status`digests
    ensures status.digests == old(status.digests) + RefMetas(at, refs)
  {
    for i := 0 to |refs|
      invariant status.digests == old(status.digests) + RefMetas(at, refs[..i])
    {
      assert RefMetas(at, refs[..i + 1]) == RefMetas(at, refs[..i]) + RefMetas(at, [refs[i]]);
      var meta := at.WithDigest(refs[i].digest).ToDigestMeta(refs[i].mediaType, refs[i].size);
      assert RefMetas(at, [refs[i]]) == [meta];
      status.digests := status.digests + [meta];
    }
    assert refs[..|refs|] == refs;
  }
}
