/**
 When `KubeTarRange` of pkg/kubepkg/kubepkg.go ends with neither packages nor an error: at a malformed
 blob path it wraps an error that is nil.
 */
module AirgapSilence {
  import opened Wrappers
  import opened Text
  import opened Registry
  import opened KubeTar
  import opened KubeTarRange
  import opened Airgap
  import opened AirgapImport

  // -------------------------------------------------------------------- silent endings

  /** A blob path without exactly three parts. */
  predicate IsMalformed(e: Entry) { IsBlob(e) && |Split(e.name, '/')| != 3 }

  /** Packages have been read before entry `k`. */
  ghost predicate HasPackages(entries: Archive, kpkgs: Option<seq<KubePkg>>, k: nat)
    requires k <= |entries|
  {
    kpkgs.Some? || exists j | 0 <= j < k :: IsHeader(entries[j])
  }

  /** Entry `j` is read without an end: a header that loads, a well-formed blob after a header, or neither. */
  ghost predicate IsFine(entries: Archive, kpkgs: Option<seq<KubePkg>>, j: nat)
    requires j < |entries|
  {
    (IsHeader(entries[j]) ==> LoadKubePkgs(entries[j].body).Some?) &&
    (IsBlob(entries[j]) ==> !IsMalformed(entries[j]) && HasPackages(entries, kpkgs, j))
  }

  /** The reading ends at the malformed entry `k`. */
  ghost predicate EndsAt(entries: Archive, kpkgs: Option<seq<KubePkg>>, k: nat)
    requires k < |entries|
  {
    IsMalformed(entries[k]) && HasPackages(entries, kpkgs, k) && forall j | 0 <= j < k :: IsFine(entries, kpkgs, j)
  }

  ghost predicate EndsSilently(entries: Archive, kpkgs: Option<seq<KubePkg>>) {
    (kpkgs.None? && forall j | 0 <= j < |entries| :: !IsHeader(entries[j]) && !IsBlob(entries[j])) ||
    exists k: nat | k < |entries| :: EndsAt(entries, kpkgs, k)
  }

  /** Leaving out a first entry that is fine does not change how the reading ends. */
  lemma EndsLater(entries: Archive, kpkgs: Option<seq<KubePkg>>, next: Option<seq<KubePkg>>)
    requires entries != [] && IsFine(entries, kpkgs, 0)
    requires if IsHeader(entries[0]) then next.Some? else next == kpkgs
    ensures EndsSilently(entries, kpkgs) <==> EndsSilently(entries[1..], next)
  {
    var rest := entries[1..];
    assert forall j: nat | j < |rest| :: rest[j] == entries[j + 1];
    forall k: nat | k <= |rest| ensures HasPackages(entries, kpkgs, k + 1) <==> HasPackages(rest, next, k) {
      if j :| 0 <= j < k && IsHeader(rest[j]) { assert IsHeader(entries[j + 1]); }
      if j :| 0 <= j < k + 1 && IsHeader(entries[j]) { assert j > 0 ==> IsHeader(rest[j - 1]); }
    }
    assert forall j: nat | j < |rest| :: IsFine(entries, kpkgs, j + 1) <==> IsFine(rest, next, j);
    forall k: nat | k < |rest| ensures EndsAt(entries, kpkgs, k + 1) <==> EndsAt(rest, next, k) {
      EndsAtLater(entries, kpkgs, next, k);
    }
    if EndsSilently(entries, kpkgs) {
      if k: nat :| k < |entries| && EndsAt(entries, kpkgs, k) {
        assert k > 0 && EndsAt(rest, next, k - 1);
      }
    }
    if EndsSilently(rest, next) {
      if k: nat :| k < |rest| && EndsAt(rest, next, k) {
        assert EndsAt(entries, kpkgs, k + 1);
      } else {
        forall j | 0 <= j < |entries| ensures !IsHeader(entries[j]) && !IsBlob(entries[j]) {
          assert j > 0 ==> !IsHeader(rest[j - 1]) && !IsBlob(rest[j - 1]);
        }
      }
    }
  }

  lemma EndsAtLater(entries: Archive, kpkgs: Option<seq<KubePkg>>, next: Option<seq<KubePkg>>, k: nat)
    requires entries != [] && IsFine(entries, kpkgs, 0) && k < |entries| - 1
    requires HasPackages(entries, kpkgs, k + 1) <==> HasPackages(entries[1..], next, k)
    requires forall j: nat | j < |entries| - 1 :: IsFine(entries, kpkgs, j + 1) <==> IsFine(entries[1..], next, j)
    ensures EndsAt(entries, kpkgs, k + 1) <==> EndsAt(entries[1..], next, k)
  {
    if EndsAt(entries, kpkgs, k + 1) {
      forall j | 0 <= j < k ensures IsFine(entries[1..], next, j) { assert IsFine(entries, kpkgs, j + 1); }
    }
    if EndsAt(entries[1..], next, k) {
      forall j | 0 <= j < k + 1 ensures IsFine(entries, kpkgs, j) {
        if j > 0 { assert IsFine(entries[1..], next, j - 1) && IsFine(entries, kpkgs, (j - 1) + 1); }
      }
    }
  }

  /** Reading ends with neither packages nor an error exactly when there is nothing to read at all, or
      when it comes to a malformed blob path after packages, having met no error before. */
  lemma {:induction false} SilentExactly(entries: Archive, kpkgs: Option<seq<KubePkg>>, ds: Option<map<Digest, DigestMeta>>, i: nat)
    ensures Range(entries, kpkgs, ds, i).0 == Done(None) <==> EndsSilently(entries, kpkgs)
  {
    if entries == [] {
    } else {
      match OnEntry(entries[0], kpkgs, ds, i)
      case Stop(result) => StopsSilentlyExactly(entries, kpkgs);
      case Go(list) =>
        EndsLater(entries, kpkgs, list);
        SilentExactly(entries[1..], list, ds, i);
      case CallBack(_, all) =>
        EndsLater(entries, kpkgs, kpkgs);
        SilentExactly(entries[1..], kpkgs, Some(all), i + 1);
    }
  }

  /** A first entry that is not fine ends the reading, silently if it is malformed after packages. */
  lemma StopsSilentlyExactly(entries: Archive, kpkgs: Option<seq<KubePkg>>)
    requires entries != [] && !IsFine(entries, kpkgs, 0)
    ensures EndsSilently(entries, kpkgs) <==> IsMalformed(entries[0]) && kpkgs.Some?
  {
    if IsMalformed(entries[0]) && kpkgs.Some? { assert EndsAt(entries, kpkgs, 0); }
  }

  /** A malformed path behind a packed archive: every packed digest has been called back for, and the
      result is neither packages nor an error, whatever follows. */
  lemma SilentAfterAll(c: Content, filter: BlobFilter, pkgs: seq<KubePkg>, e: Entry, rest: Archive)
    requires Pack(c, filter, pkgs).1 && Loadable(pkgs) && IsMalformed(e)
    ensures Range(Pack(c, filter, pkgs).0 + ([e] + rest), None, None, 0) ==
      (Done(None), CallsFor(c, LastOf(AllMetas(pkgs)), Packed(filter, AllMetas(pkgs)), 0))
  {
    var tail := [e] + rest;
    forall k | 0 <= k < |tail| && IsHeader(tail[k]) ensures exists j | 0 <= j < k :: IsBlob(tail[j]) {
      assert IsBlob(tail[0]) && k > 0;
    }
    RangeOfPackThen(c, filter, pkgs, tail);
    var calls := CallsFor(c, LastOf(AllMetas(pkgs)), Packed(filter, AllMetas(pkgs)), 0);
    assert calls + [] == calls;
  }

  /** An import returns neither packages nor an error exactly when reading ends silently and every call
      made before was accepted. */
  lemma SilentImportExactly(entries: Archive, hash: Hash, start: Store, accepted: seq<Call>, blobs: Store, accepted': seq<Call>, r: Result)
    requires IsOutcome(Range(entries, None, None, 0), hash, start, accepted, blobs, accepted', r)
    ensures r == Done(None) <==>
      EndsSilently(entries, None) && accepted' == accepted + Range(entries, None, None, 0).1
  {
    SilentExactly(entries, None, None, 0);
    var calls := Range(entries, None, None, 0).1;
    var n := ImportCalls(start, hash, calls).1;
    assert |accepted'| == |accepted| + n;
    assert n == |calls| ==> calls[..n] == calls;
  }

  /** Behind a packed archive, the malformed path comes after everything has been imported. */
  lemma EverythingImportedSilently(c: Content, hash: Hash, filter: BlobFilter, pkgs: seq<KubePkg>, e: Entry, rest: Archive, target: Store)
    requires Transfer(c, hash, filter, pkgs) && IsMalformed(e)
    ensures var (result, calls) := Range(Pack(c, filter, pkgs).0 + ([e] + rest), None, None, 0);
      var (after, n) := ImportCalls(target, hash, calls);
      result == Done(None) && n == |calls| && Added(hash, target, after, DigestsOf(Packed(filter, AllMetas(pkgs))))
  {
    var metas := AllMetas(pkgs);
    var packed := Packed(filter, metas);
    SilentAfterAll(c, filter, pkgs, e, rest);
    AllPackedAreAvailable(c, hash, filter, pkgs);
    forall m | m in packed ensures m in metas && Available(c, hash, m) { PackedMembers(filter, metas, m); }
    ImportAddsPacked(c, hash, metas, packed, target);
  }
}
