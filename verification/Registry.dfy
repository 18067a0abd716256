/**
 The registry content the airgap pipeline works on, at content level: one store of manifests and
 blobs by digest, and tags per repository name.
 */
module Registry {
  import opened Wrappers
  import opened Text

  type Byte = x: int | 0 <= x < 256
  type Bytes = seq<Byte>
  type Digest = string

  /** The hash behind every digest; any function will do. */
  type Hash = Bytes -> Digest

  datatype MediaType = DockerManifestList | OciImageIndex | DockerManifest | OciImageManifest | OtherType(name: string)

  datatype Platform = Platform(os: string, architecture: string, variant: string)

  /** A descriptor inside a manifest. */
  datatype Reference = Reference(digest: Digest, mediaType: MediaType, size: int, platform: Option<Platform>)

  datatype Manifest =
    | Index(oci: bool, references: seq<Reference>, payload: Bytes)
    | Image(oci: bool, config: Reference, layers: seq<Reference>, payload: Bytes)
    | OtherManifest(name: string, payload: Bytes)
  {
    function MediaType(): MediaType {
      match this
      case Index(oci, _, _) => if oci then OciImageIndex else DockerManifestList
      case Image(oci, _, _, _) => if oci then OciImageManifest else DockerManifest
      case OtherManifest(name, _) => OtherType(name)
    }

    /** `References()`: an image manifest lists its config before its layers. */
    function References(): seq<Reference> {
      match this
      case Index(_, references, _) => references
      case Image(_, config, layers, _) => [config] + layers
      case OtherManifest(_, _) => []
    }
  }

  /** `configs` holds the platform each config blob decodes to. */
  datatype Content = Content(
    manifests: map<Digest, Manifest>,
    blobs: map<Digest, Bytes>,
    configs: map<Digest, Platform>,
    tags: map<(string, string), Digest>)

  /** Everything is stored under its own hash. */
  ghost predicate ContentAddressed(c: Content, hash: Hash) {
    (forall d | d in c.manifests :: hash(c.manifests[d].payload) == d) &&
    (forall d | d in c.blobs :: hash(c.blobs[d]) == d)
  }

  datatype MetaType = ManifestMeta | BlobMeta | NoMeta

  /** v1alpha1.DigestMeta; `NoMeta` is the zero value's empty type. */
  datatype DigestMeta = DigestMeta(
    typ: MetaType, digest: Digest, name: string, size: int, tag: string, platform: string)

  /** The part of v1alpha1.KubePkg the airgap pipeline reads and writes. */
  datatype KubePkg = KubePkg(
    kind: string, name: string, platforms: string, images: map<string, string>, digests: seq<DigestMeta>)

  predicate AlgorithmChar(ch: char) { 'a' <= ch <= 'z' || '0' <= ch <= '9' || ch in ".+_-" }
  predicate EncodedChar(ch: char) { 'a' <= ch <= 'z' || 'A' <= ch <= 'Z' || '0' <= ch <= '9' || ch in "=_-" }

  /** `digest.Parse`: an algorithm and an encoded hash around the first colon.  Which algorithms
      and lengths the library knows is not modelled, so this accepts a few more. */
  function ParseDigest(s: Digest): Option<(string, string)> {
    var parts := Split(s, ':');
    if |parts| == 2 && parts[0] != "" && parts[1] != "" &&
       (forall i | 0 <= i < |parts[0]| :: AlgorithmChar(parts[0][i])) &&
       (forall i | 0 <= i < |parts[1]| :: EncodedChar(parts[1][i]))
    then Some((parts[0], parts[1]))
    else None
  }

  lemma ParsedDigest(s: Digest)
    requires ParseDigest(s).Some?
    ensures var (alg, hex) := ParseDigest(s).value;
      s == alg + ":" + hex && Free(alg, '/') && Free(hex, '/') && Free(alg, ':') && Free(hex, ':')
  {
    JoinOfSplit(s, ':');
    var parts := Split(s, ':');
    assert Join(parts[1..], ":") == parts[1];
  }

  /** Hash functions give digests that parse. */
  ghost predicate IsHash(hash: Hash) { forall b :: ParseDigest(hash(b)).Some? }
}
