/** Reading an archive and importing it: `KubeTarRange` and `ImportDigest` of pkg/kubepkg/kubepkg.go. */
module KubeTarRange {
  import opened Wrappers
  import opened Text
  import opened Registry
  import opened KubeTar

  // ------------------------------------------------------------------- the packages

  /** `LoadKubePkgs` of pkg/kubepkg/load.go; a single document is told by its kind. */
  function LoadKubePkgs(body: Body): Option<seq<KubePkg>> {
    match body
    case Single(p) =>
      if p.kind == "KubePkg" then (if p.name == "" then None else Some([p]))
      else if p.kind == "KubePkgList" then Some([])
      else None
    case PackageList(items) =>
      if exists i | 0 <= i < |items| :: items[i].name == "" then None else Some(items)
    case _ => None
  }

  function AllMetas(pkgs: seq<KubePkg>): seq<DigestMeta> {
    if pkgs == [] then [] else pkgs[0].digests + AllMetas(pkgs[1..])
  }

  /** The map the loop over all digests leaves: the last record of each digest. */
  function LastOf(metas: seq<DigestMeta>): map<Digest, DigestMeta> {
    if metas == [] then map[]
    else LastOf(metas[..|metas| - 1])[metas[|metas| - 1].digest := metas[|metas| - 1]]
  }

  lemma {:induction false} LastOfMeaning(metas: seq<DigestMeta>, d: Digest)
    ensures d in LastOf(metas) <==> exists j | 0 <= j < |metas| :: metas[j].digest == d
    ensures d in LastOf(metas) ==> exists j | 0 <= j < |metas| ::
      LastOf(metas)[d] == metas[j] && metas[j].digest == d && forall k | j < k < |metas| :: metas[k].digest != d
  {
    if metas == [] {
    } else {
      var n := |metas| - 1;
      LastOfMeaning(metas[..n], d);
      if metas[n].digest != d && d in LastOf(metas) {
        var j :| 0 <= j < n && LastOf(metas[..n])[d] == metas[..n][j] && metas[..n][j].digest == d &&
          forall k | j < k < n :: metas[..n][k].digest != d;
        assert metas[j].digest == d;
        assert forall k | j < k < n :: metas[k] == metas[..n][k];
      }
    }
  }

  /** The lazily filled `digests` map. */
  method FillDigests(pkgs: seq<KubePkg>) returns (digests: map<Digest, DigestMeta>)
    ensures digests == LastOf(AllMetas(pkgs))
  {
    digests := map[];
    ghost var seen: seq<DigestMeta> := [];
    assert pkgs[0..] == pkgs;
    for n := 0 to |pkgs|
      invariant digests == LastOf(seen) && seen + AllMetas(pkgs[n..]) == AllMetas(pkgs)
    {
      assert pkgs[n..][1..] == pkgs[n + 1..];
      var metas := pkgs[n].digests;
      digests := AddDigests(digests, metas, seen);
      assert (seen + metas) + AllMetas(pkgs[n + 1..]) == seen + (metas + AllMetas(pkgs[n + 1..]));
      seen := seen + metas;
    }
    assert pkgs[|pkgs|..] == [] && seen + [] == seen;
  }

  lemma LastOfAppend(metas: seq<DigestMeta>, dm: DigestMeta)
    ensures LastOf(metas + [dm]) == LastOf(metas)[dm.digest := dm]
  {
    assert (metas + [dm])[..|metas|] == metas;
  }

  method AddDigests(before: map<Digest, DigestMeta>, metas: seq<DigestMeta>, ghost seen: seq<DigestMeta>)
    returns (digests: map<Digest, DigestMeta>)
    requires before == LastOf(seen)
    ensures digests == LastOf(seen + metas)
  {
    digests := before;
    assert seen + metas[..0] == seen;
    for i := 0 to |metas|
      invariant digests == LastOf(seen + metas[..i])
    {
      var dm := metas[i];
      digests := digests[dm.digest := dm];
      LastOfAppend(seen + metas[..i], dm);
      assert seen + metas[..i + 1] == (seen + metas[..i]) + [dm];
    }
    assert metas[..|metas|] == metas;
  }

  // ---------------------------------------------------------------------- the range

  /** One call of `eachBlob`. */
  datatype Call = Call(meta: DigestMeta, content: Bytes, i: nat, total: nat)

  /** The packages returned (`None` is nil) or an error. */
  datatype Result = Done(pkgs: Option<seq<KubePkg>>) | Failed

  const ZERO_META := DigestMeta(NoMeta, "", "", 0, "", "")

  function ContentOf(body: Body): Bytes { if body.Blob? then body.bytes else [] }

  /** What one entry does: end the reading, read the packages, or call back. */
  datatype Turn = Stop(result: Result) | Go(kpkgs: Option<seq<KubePkg>>) | CallBack(call: Call, digests: map<Digest, DigestMeta>)

  /** A blob path without exactly three parts ends the reading with a nil error and nil packages: the
      error it wraps is nil. */
  function OnEntry(e: Entry, kpkgs: Option<seq<KubePkg>>, digests: Option<map<Digest, DigestMeta>>, next: nat): Turn {
    if e.name == "kubepkg.json" then
      var list := LoadKubePkgs(e.body);
      if list.None? then Stop(Failed) else Go(list)
    else if !("blobs/" <= e.name) then Go(kpkgs)
    else if kpkgs.None? then Stop(Failed)
    else
      var parts := Split(e.name, '/');
      if |parts| != 3 then Stop(Done(None))
      else
        var ds := if digests.None? then LastOf(AllMetas(kpkgs.value)) else digests.value;
        CallBack(CallFor(e, Join(parts[1..3], ":"), ds, next), ds)
  }

  /** The outcome of `KubeTarRange` and its calls, when every call is accepted. */
  function Range(entries: Archive, kpkgs: Option<seq<KubePkg>>, digests: Option<map<Digest, DigestMeta>>, next: nat)
    : (Result, seq<Call>)
    decreases |entries|
  {
    if entries == [] then (Done(kpkgs), [])
    else
      match OnEntry(entries[0], kpkgs, digests, next)
      case Stop(result) => (result, [])
      case Go(list) => Range(entries[1..], list, digests, next)
      case CallBack(call, ds) =>
        var (result, calls) := Range(entries[1..], kpkgs, Some(ds), next + 1);
        (result, [call] + calls)
  }

  function CallFor(e: Entry, d: string, ds: map<Digest, DigestMeta>, i: nat): Call {
    Call(if d in ds then ds[d] else ZERO_META, ContentOf(e.body), i, |ds|)
  }

  // ---------------------------------------------------------------------- importing

  type Store = map<Digest, Bytes>

  /** `ImportBlob`: present content is left alone; new content must have the digest, and the size
      unless that is not positive. */
  function ImportBlob(store: Store, hash: Hash, dm: DigestMeta, content: Bytes): Option<Store> {
    if dm.digest in store then Some(store)
    else if hash(content) != dm.digest || (dm.size > 0 && dm.size != |content|) then None
    else Some(store[dm.digest := content])
  }

  /** `ImportDigest`, for blobs and manifests; once the manifest's content is stored
      `ImportManifest` finds it there. */
  function ImportDigest(store: Store, hash: Hash, dm: DigestMeta, content: Bytes): Option<Store> {
    if dm.typ.NoMeta? then Some(store) else ImportBlob(store, hash, dm, content)
  }

  /** Import call after call until one fails: the store, and how many were accepted. */
  function ImportCalls(store: Store, hash: Hash, calls: seq<Call>): (Store, nat)
    decreases |calls|
  {
    if calls == [] then (store, 0)
    else
      var next := ImportDigest(store, hash, calls[0].meta, calls[0].content);
      if next.None? then (store, 0)
      else
        var (last, n) := ImportCalls(next.value, hash, calls[1..]);
        (last, n + 1)
  }

  lemma {:induction false} ImportCount(store: Store, hash: Hash, calls: seq<Call>)
    ensures ImportCalls(store, hash, calls).1 <= |calls|
    decreases |calls|
  {
    if calls == [] {
    } else {
      var next := ImportDigest(store, hash, calls[0].meta, calls[0].content);
      if next.Some? { ImportCount(next.value, hash, calls[1..]); }
    }
  }

  /** The digests there once the first `n` of the calls have been imported: those there before, and those of
      records with a type. */
  ghost function HaveAfter(have: set<Digest>, calls: seq<Call>, n: nat): set<Digest>
    requires n <= |calls|
  {
    have + set j | 0 <= j < n && !calls[j].meta.typ.NoMeta? :: calls[j].meta.digest
  }

  /** A call is refused when its content is wanted and is not what its record says. */
  predicate Refuses(hash: Hash, have: set<Digest>, call: Call) {
    !call.meta.typ.NoMeta? && call.meta.digest !in have &&
    (hash(call.content) != call.meta.digest || (call.meta.size > 0 && |call.content| != call.meta.size))
  }

  ghost predicate NoneRefused(hash: Hash, have: set<Digest>, calls: seq<Call>, n: nat)
    requires n <= |calls|
  {
    forall i {:trigger calls[i]} | 0 <= i < n :: !Refuses(hash, HaveAfter(have, calls, i), calls[i])
  }

  /** Content is added, never changed, and what is added hashes to its digest. */
  ghost predicate Extends(hash: Hash, before: Store, after: Store) {
    (forall d | d in before :: d in after && after[d] == before[d]) &&
    (forall d | d in after && d !in before :: hash(after[d]) == d)
  }

  lemma HaveAfterOne(have: set<Digest>, calls: seq<Call>, n: nat)
    requires 1 <= n <= |calls|
    ensures HaveAfter(have, calls, n) == HaveAfter(HaveAfter(have, calls, 1), calls[1..], n - 1)
  {
    var rest := calls[1..];
    forall j | 0 <= j < n && !calls[j].meta.typ.NoMeta?
      ensures calls[j].meta.digest in HaveAfter(HaveAfter(have, calls, 1), rest, n - 1)
    {
      if j > 0 { assert rest[j - 1] == calls[j]; }
    }
    forall j | 0 <= j < n - 1 && !rest[j].meta.typ.NoMeta? ensures rest[j].meta.digest in HaveAfter(have, calls, n) {
      assert calls[j + 1] == rest[j];
    }
  }

  lemma ImportOne(store: Store, hash: Hash, call: Call)
    ensures ImportDigest(store, hash, call.meta, call.content).None? <==> Refuses(hash, store.Keys, call)
    ensures var next := ImportDigest(store, hash, call.meta, call.content);
      next.Some? ==> Extends(hash, store, next.value) && next.value.Keys == HaveAfter(store.Keys, [call], 1)
  {
    var next := ImportDigest(store, hash, call.meta, call.content);
    var s := [call];
    assert s[0] == call;
    assert HaveAfter(store.Keys, s, 1) == if call.meta.typ.NoMeta? then store.Keys else store.Keys + {call.meta.digest};
  }

  /** Importing any calls, whatever their content: what was there stays, what is added hashes to its digest,
      the digests are those of the records accepted, and the first call not accepted is the first refused. */
  lemma {:induction false} ImportMeaning(store: Store, hash: Hash, calls: seq<Call>)
    ensures var (after, n) := ImportCalls(store, hash, calls);
      n <= |calls| && Extends(hash, store, after) && after.Keys == HaveAfter(store.Keys, calls, n) &&
      NoneRefused(hash, store.Keys, calls, n) &&
      (n < |calls| ==> Refuses(hash, HaveAfter(store.Keys, calls, n), calls[n]))
    decreases |calls|
  {
    if calls == [] {
    } else {
      var rest := calls[1..];
      ImportOne(store, hash, calls[0]);
      assert calls == [calls[0]] + rest;
      assert HaveAfter(store.Keys, calls, 0) == store.Keys;
      var next := ImportDigest(store, hash, calls[0].meta, calls[0].content);
      if next.Some? {
        ImportMeaning(next.value, hash, rest);
        var n := ImportCalls(store, hash, calls).1;
        assert HaveAfter(store.Keys, calls, 1) == HaveAfter(store.Keys, [calls[0]], 1);
        HaveAfterOne(store.Keys, calls, n);
        forall i | 0 <= i < n ensures !Refuses(hash, HaveAfter(store.Keys, calls, i), calls[i]) {
          if i > 0 {
            HaveAfterOne(store.Keys, calls, i);
            assert calls[i] == rest[i - 1];
          }
        }
      }
    }
  }

  /** The registry and the result after importing these calls, up to the first that fails. */
  ghost predicate IsOutcome(all: (Result, seq<Call>), hash: Hash, start: Store, accepted: seq<Call>,
                            blobs: Store, accepted': seq<Call>, r: Result)
  {
    var (store, n) := ImportCalls(start, hash, all.1);
    n <= |all.1| && blobs == store && accepted' == accepted + all.1[..n] &&
    r == if n == |all.1| then all.0 else Failed
  }

  /** What an import did: it returned packages exactly when reading does and no call is refused. */
  lemma OutcomeMeaning(all: (Result, seq<Call>), hash: Hash, start: Store, accepted: seq<Call>, blobs: Store,
                       accepted': seq<Call>, r: Result)
    requires IsOutcome(all, hash, start, accepted, blobs, accepted', r)
    ensures Extends(hash, start, blobs)
    ensures |accepted| <= |accepted'| <= |accepted| + |all.1| && accepted' == accepted + all.1[..|accepted'| - |accepted|]
    ensures blobs.Keys == HaveAfter(start.Keys, all.1, |accepted'| - |accepted|)
    ensures forall pkgs :: r == Done(pkgs) <==> all.0 == Done(pkgs) && NoneRefused(hash, start.Keys, all.1, |all.1|)
  {
    ImportMeaning(start, hash, all.1);
  }

  class LocalRegistry {
    var blobs: Store
    /** the calls of `eachBlob` accepted so far */
    ghost var accepted: seq<Call>
    const hash: Hash

    constructor (hash: Hash, blobs: Store)
      ensures this.hash == hash && this.blobs == blobs && accepted == []
    {
      this.hash, this.blobs, accepted := hash, blobs, [];
    }

    /** The callback of `ImportFromKubeTgzReader`. */
    method EachBlob(call: Call) returns (ok: bool)
      modifies this
      ensures ok == ImportDigest(old(blobs), hash, call.meta, call.content).Some?
      ensures blobs == if ok then ImportDigest(old(blobs), hash, call.meta, call.content).value else old(blobs)
      ensures accepted == if ok then old(accepted) + [call] else old(accepted)
      ensures ok <==> !Refuses(hash, old(blobs.Keys), call)
    {
      if !call.meta.typ.NoMeta? && call.meta.digest !in blobs {
        if hash(call.content) != call.meta.digest || (call.meta.size > 0 && call.meta.size != |call.content|) {
          return false;
        }
        blobs := blobs[call.meta.digest := call.content];
      }
      accepted := accepted + [call];
      return true;
    }
  }

  /** What the loop has yet to do, seen from the registry's current content. */
  ghost predicate Remaining(hash: Hash, start: Store, all: (Result, seq<Call>), done: seq<Call>, blobs: Store,
                            rest: (Result, seq<Call>))
  {
    all.0 == rest.0 && all.1 == done + rest.1 && GoesOn(hash, start, all.1, |done|, blobs, rest.1)
  }

  /** Importing `calls` comes, after `n` of them, down to importing `rest`. */
  ghost predicate GoesOn(hash: Hash, start: Store, calls: seq<Call>, n: nat, blobs: Store, rest: seq<Call>) {
    forall r {:trigger ImportCalls(blobs, hash, r)} | r == rest ::
      ImportCalls(start, hash, calls) == (ImportCalls(blobs, hash, r).0, n + ImportCalls(blobs, hash, r).1)
  }

  /** What is left after one accepted call. */
  lemma RemainingStep(hash: Hash, start: Store, all: (Result, seq<Call>), done: seq<Call>, blobs: Store,
                      rest: (Result, seq<Call>), call: Call)
    requires Remaining(hash, start, all, done, blobs, (rest.0, [call] + rest.1))
    requires ImportDigest(blobs, hash, call.meta, call.content).Some?
    ensures Remaining(hash, start, all, done + [call], ImportDigest(blobs, hash, call.meta, call.content).value, rest)
  {
    assert ([call] + rest.1)[1..] == rest.1;
    assert ImportCalls(blobs, hash, [call] + rest.1).1 ==
      1 + ImportCalls(ImportDigest(blobs, hash, call.meta, call.content).value, hash, rest.1).1;
    assert (done + [call]) + rest.1 == done + ([call] + rest.1);
  }

  /** Reading ended; or it stopped at a call that failed. */
  lemma RemainingEnd(hash: Hash, start: Store, accepted: seq<Call>, all: (Result, seq<Call>), done: seq<Call>,
                     blobs: Store, rest: (Result, seq<Call>))
    requires Remaining(hash, start, all, done, blobs, rest)
    requires rest.1 == [] || ImportDigest(blobs, hash, rest.1[0].meta, rest.1[0].content).None?
    ensures IsOutcome(all, hash, start, accepted, blobs, accepted + done, if rest.1 == [] then rest.0 else Failed)
    ensures Extends(hash, start, blobs)
  {
    ImportMeaning(start, hash, all.1);
    assert all.1[..|done|] == done;
    assert ImportCalls(blobs, hash, rest.1) == (blobs, 0);
  }

  method Visit(e: Entry, kpkgs: Option<seq<KubePkg>>, digests: Option<map<Digest, DigestMeta>>, next: nat)
    returns (turn: Turn)
    ensures turn == OnEntry(e, kpkgs, digests, next)
  {
    if e.name == "kubepkg.json" {
      var list := LoadKubePkgs(e.body);
      return if list.None? then Stop(Failed) else Go(list);
    }
    if !("blobs/" <= e.name) { return Go(kpkgs); }
    if kpkgs.None? { return Stop(Failed); }
    var parts := Split(e.name, '/');
    if |parts| != 3 { return Stop(Done(None)); }
    var ds;
    if digests.None? {
      ds := FillDigests(kpkgs.value);
    } else {
      ds := digests.value;
    }
    var d := Join(parts[1..3], ":");
    var meta := if d in ds then ds[d] else ZERO_META;
    return CallBack(Call(meta, ContentOf(e.body), next, |ds|), ds);
  }

  /** `KubeTarRange` with a callback that imports: the calls, in order, up to the first failure. */
  method KubeTarRange(entries: Archive, each: LocalRegistry) returns (r: Result)
    modifies each
    ensures IsOutcome(Range(entries, None, None, 0), each.hash, old(each.blobs), old(each.accepted),
                      each.blobs, each.accepted, r)
    ensures Extends(each.hash, old(each.blobs), each.blobs)
  {
    var kpkgs: Option<seq<KubePkg>> := None;
    var digests: Option<map<Digest, DigestMeta>> := None;
    var i := -1;
    ghost var all, done := Range(entries, None, None, 0), [];
    ghost var rest := all;
    assert entries[0..] == entries && all.1 == done + all.1;
    for k := 0 to |entries|
      invariant i >= -1 && rest == Range(entries[k..], kpkgs, digests, i + 1)
      invariant each.accepted == old(each.accepted) + done
      invariant Remaining(each.hash, old(each.blobs), all, done, each.blobs, rest)
    {
      assert entries[k..][1..] == entries[k + 1..];
      var turn := Visit(entries[k], kpkgs, digests, i + 1);
      match turn
      case Stop(result) =>
        RemainingEnd(each.hash, old(each.blobs), old(each.accepted), all, done, each.blobs, rest);
        return result;
      case Go(list) =>
        kpkgs := list;
        rest := Range(entries[k + 1..], kpkgs, digests, i + 1);
      case CallBack(call, ds) =>
        i, digests := i + 1, Some(ds);
        ghost var before := each.blobs;
        ghost var next := Range(entries[k + 1..], kpkgs, digests, i + 1);
        var ok := each.EachBlob(call);
        if !ok {
          RemainingEnd(each.hash, old(each.blobs), old(each.accepted), all, done, before, rest);
          return Failed;
        }
        RemainingStep(each.hash, old(each.blobs), all, done, before, next, call);
        done, rest := done + [call], next;
    }
    RemainingEnd(each.hash, old(each.blobs), old(each.accepted), all, done, each.blobs, rest);
    return Done(kpkgs);
  }

  // -------------------------------------------------------------- what reading returns

  /** The packages returned are those of the last header. */
  lemma {:induction false} PackagesAreOfLastHeader(entries: Archive, kpkgs: Option<seq<KubePkg>>,
                                                   ds: Option<map<Digest, DigestMeta>>, i: nat, pkgs: seq<KubePkg>)
    requires Range(entries, kpkgs, ds, i).0 == Done(Some(pkgs))
    ensures (kpkgs == Some(pkgs) && forall e | e in entries :: e.name != "kubepkg.json") ||
      exists k | 0 <= k < |entries| :: entries[k].name == "kubepkg.json" && LoadKubePkgs(entries[k].body) == Some(pkgs) &&
        forall j | k < j < |entries| :: entries[j].name != "kubepkg.json"
    decreases |entries|
  {
    if entries != [] {
      var rest := entries[1..];
      assert forall j | 0 <= j < |rest| :: rest[j] == entries[j + 1];
      match OnEntry(entries[0], kpkgs, ds, i) {
        case Stop(_) => assert false;
        case Go(list) => PackagesAreOfLastHeader(rest, list, ds, i, pkgs);
        case CallBack(_, all) => PackagesAreOfLastHeader(rest, kpkgs, Some(all), i + 1, pkgs);
      }
      if k :| 0 <= k < |rest| && rest[k].name == "kubepkg.json" && LoadKubePkgs(rest[k].body) == Some(pkgs) &&
              forall j | k < j < |rest| :: rest[j].name != "kubepkg.json" {
        assert entries[k + 1] == rest[k];
        assert forall j | k + 1 < j < |entries| :: entries[j] == rest[j - 1];
      } else {
        assert entries[0].name == "kubepkg.json" ==> LoadKubePkgs(entries[0].body) == Some(pkgs);
      }
    }
  }

  /** The content of the blob entries, in order. */
  function BlobContents(entries: Archive): seq<Bytes> {
    if entries == [] then []
    else (if "blobs/" <= entries[0].name then [ContentOf(entries[0].body)] else []) + BlobContents(entries[1..])
  }

  /** One call for each content, in order, numbered from `i`. */
  ghost predicate CallsBack(calls: seq<Call>, contents: seq<Bytes>, i: nat) {
    |calls| == |contents| && forall j | 0 <= j < |calls| :: calls[j].content == contents[j] && calls[j].i == i + j
  }

  lemma CallsBackBefore(call: Call, calls: seq<Call>, contents: seq<Bytes>, i: nat)
    requires CallsBack(calls, contents, i + 1) && call.i == i
    ensures CallsBack([call] + calls, [call.content] + contents, i)
  {
  }

  /** Reading that returns packages has called back for each blob entry, in order, with its content. */
  lemma {:induction false} EveryBlobIsCalledBack(entries: Archive, kpkgs: Option<seq<KubePkg>>,
                                                 ds: Option<map<Digest, DigestMeta>>, i: nat)
    requires Range(entries, kpkgs, ds, i).0.Done? && Range(entries, kpkgs, ds, i).0.pkgs.Some?
    ensures CallsBack(Range(entries, kpkgs, ds, i).1, BlobContents(entries), i)
    decreases |entries|
  {
    if entries != [] {
      match OnEntry(entries[0], kpkgs, ds, i)
      case Stop(_) => assert false;
      case Go(list) =>
        HeaderIsNoBlob(entries[0].name);
        EveryBlobIsCalledBack(entries[1..], list, ds, i);
        assert [] + BlobContents(entries[1..]) == BlobContents(entries[1..]);
      case CallBack(call, all) =>
        EveryBlobIsCalledBack(entries[1..], kpkgs, Some(all), i + 1);
        CallsBackBefore(call, Range(entries[1..], kpkgs, Some(all), i + 1).1, BlobContents(entries[1..]), i);
    }
  }

  lemma HeaderIsNoBlob(name: string)
    ensures name == "kubepkg.json" ==> !("blobs/" <= name)
  {
    if name == "kubepkg.json" { assert name[0] == 'k'; }
  }
}
