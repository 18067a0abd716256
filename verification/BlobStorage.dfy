/**
 The content-addressed blob storage of pkg/kubepkg/tgzblobstorage.go and `Registry.Wrap`.

 An upload writes to a file of its own under a fresh id while hashing what it writes; a commit
 moves the file to the path of its digest.  Any number of uploads may interleave.
 */
module BlobStorage {
  import opened Wrappers
  import opened Text
  import opened Registry

  type Files = map<string, Bytes>

  /** `blobDataPath`. */
  function BlobDataPath(d: Digest): string
    requires ParseDigest(d).Some?
  {
    "/kubepkg/blobs/" + ParseDigest(d).value.0 + "/" + ParseDigest(d).value.1
  }

  /** `blobUploadPath`. */
  function UploadPath(id: string): string { "/kubepkg/_uploads/" + id }

  lemma UploadPathsApart(a: string, b: string)
    ensures UploadPath(a) == UploadPath(b) <==> a == b
  {
    assert UploadPath(a)[18..] == a && UploadPath(b)[18..] == b;
  }

  /** Different digests have different paths, and no upload writes to any of them. */
  lemma BlobPathsApart(d: Digest, e: Digest, id: string)
    requires ParseDigest(d).Some? && ParseDigest(e).Some?
    ensures BlobDataPath(d) == BlobDataPath(e) <==> d == e
    ensures BlobDataPath(d) != UploadPath(id)
  {
    ParsedDigest(d);
    ParsedDigest(e);
    var p, q := ParseDigest(d).value, ParseDigest(e).value;
    assert BlobDataPath(d)[9] == 'b' && UploadPath(id)[9] == '_';
    if BlobDataPath(d) == BlobDataPath(e) {
      assert BlobDataPath(d)[15..] == p.0 + ['/'] + p.1;
      assert BlobDataPath(e)[15..] == q.0 + ['/'] + q.1;
      SplitFirst(p.0, '/', p.1);
      SplitFirst(q.0, '/', q.1);
      SplitWhole(p.1, '/');
      SplitWhole(q.1, '/');
      assert [p.0] + [p.1] == [q.0] + [q.1];
      assert [p.0] + [p.1] == [p.0, p.1] && [q.0] + [q.1] == [q.0, q.1];
      assert [p.0, p.1][0] == [q.0, q.1][0] && [p.0, p.1][1] == [q.0, q.1][1];
    }
  }

  /** Each file under the blob directory holds bytes with that digest. */
  ghost predicate ContentAddressed(files: Files, hash: Hash) {
    forall d | ParseDigest(d).Some? && BlobDataPath(d) in files :: hash(files[BlobDataPath(d)]) == d
  }

  // ----------------------------------------------------------------- one upload

  datatype Upload = Upload(digested: Bytes, open: bool)

  /** What a commit comes to: the file cannot be committed, the digest is not the expected one,
      the move fails, or the blob is stored. */
  datatype Outcome = NotCommitted | Mismatch | NotMoved | Stored(digest: Digest)

  function CommitOutcome(hash: Hash, u: Upload, provisional: Option<Digest>, fileOk: bool, moveOk: bool): Outcome {
    if !u.open || !fileOk then NotCommitted
    else if provisional.Some? && provisional.value != hash(u.digested) then Mismatch
    else if !moveOk then NotMoved
    else Stored(hash(u.digested))
  }

  function Moved(files: Files, from: string, to: string): Files
    requires from in files
  {
    (files - {from})[to := files[from]]
  }

  class Driver {
    var files: Files

    constructor ()
      ensures files == map[]
    {
      files := map[];
    }
  }

  class BlobWriter {
    const id: string
    const driver: Driver
    const hash: Hash
    var digested: Bytes
    var open: bool

    ghost predicate Valid()
      reads this, driver
    {
      IsHash(hash) && (open ==> UploadPath(id) in driver.files && driver.files[UploadPath(id)] == digested)
    }

    /** The state of the storage, seen with whatever other uploads there are. */
    ghost function View(others: map<string, Upload>): State
      reads this, driver
    {
      State(driver.files, others[id := Upload(digested, open)])
    }

    /** `Create`, with the file for a fresh id opened. */
    constructor (driver: Driver, hash: Hash, id: string)
      requires IsHash(hash) && UploadPath(id) !in driver.files
      modifies driver
      ensures Valid() && this.driver == driver && this.hash == hash && this.id == id && open && digested == []
      ensures driver.files == old(driver.files)[UploadPath(id) := []]
      ensures forall others | id !in others :: IsStep(hash, State(old(driver.files), others), View(others), Create(id))
    {
      this.driver, this.hash, this.id := driver, hash, id;
      digested, open := [], true;
      new;
      driver.files := driver.files[UploadPath(id) := []];
    }

    method Write(b: Bytes) returns (ok: bool)
      requires Valid()
      modifies this, driver
      ensures Valid() && open == old(open)
      ensures ok ==> old(open) && digested == old(digested) + b
      ensures ok ==> driver.files == old(driver.files)[UploadPath(id) := old(digested) + b]
      ensures !ok ==> digested == old(digested) && driver.files == old(driver.files)
      ensures ok ==> forall others :: IsStep(hash, old(View(others)), View(others), Step.Write(id, b))
    {
      ok := *;
      if !ok || !open { return false; }
      ghost var was := Upload(digested, open);
      driver.files := driver.files[UploadPath(id) := driver.files[UploadPath(id)] + b];
      digested := digested + b;
      forall others ensures IsStep(hash, old(View(others)), View(others), Step.Write(id, b)) {
        assert others[id := was][id := Upload(digested, open)] == others[id := Upload(digested, open)];
      }
    }

    /** Closes the file, checks the expected digest if there is one, and moves the file. */
    method Commit(provisional: Option<Digest>) returns (outcome: Outcome, ghost fileOk: bool, ghost moveOk: bool)
      requires Valid()
      modifies this, driver
      ensures Valid() && digested == old(digested)
      ensures outcome == CommitOutcome(hash, Upload(old(digested), old(open)), provisional, fileOk, moveOk)
      ensures open == (old(open) && outcome.NotCommitted?)
      ensures driver.files == if outcome.Stored?
        then Moved(old(driver.files), UploadPath(id), BlobDataPath(outcome.digest)) else old(driver.files)
      ensures forall others ::
        IsStep(hash, old(View(others)), View(others), Step.Commit(id, provisional, fileOk, moveOk))
    {
      var committed, moved := *, *;
      fileOk, moveOk := committed, moved;
      if !open || !committed {
        outcome := NotCommitted;
      } else {
        open := false;
        var d := hash(digested);
        outcome := if provisional.Some? && provisional.value != d then Mismatch else if !moved then NotMoved else Stored(d);
        if outcome.Stored? {
          BlobPathsApart(d, d, id);
          driver.files := (driver.files - {UploadPath(id)})[BlobDataPath(d) := driver.files[UploadPath(id)]];
        }
      }
      forall others
        ensures IsStep(hash, old(View(others)), View(others), Step.Commit(id, provisional, fileOk, moveOk))
      {
        assert others[id := Upload(digested, old(open))][id := Upload(digested, open)] == others[id := Upload(digested, open)];
      }
    }
  }

  /** `Stat` and `Open`: the stored bytes, if any. */
  function Open(files: Files, d: Digest): Option<Bytes>
    requires ParseDigest(d).Some?
  {
    if BlobDataPath(d) in files then Some(files[BlobDataPath(d)]) else None
  }

  // ------------------------------------------------------- any number of uploads

  datatype State = State(files: Files, uploads: map<string, Upload>)

  datatype Step =
    | Create(id: string)
    | Write(id: string, b: Bytes)
    | Commit(id: string, provisional: Option<Digest>, fileOk: bool, moveOk: bool)
    | Forget(id: string)

  /** One step of the storage. */
  predicate IsStep(hash: Hash, s: State, s': State, step: Step) { Enabled(s, step) && s' == Do(hash, s, step) }

  predicate Enabled(s: State, step: Step) {
    match step
    case Create(id) => id !in s.uploads && UploadPath(id) !in s.files
    case Write(id, _) => id in s.uploads && s.uploads[id].open && UploadPath(id) in s.files
    case Commit(id, _, _, _) => id in s.uploads && (s.uploads[id].open ==> UploadPath(id) in s.files)
    case Forget(id) => id in s.uploads
  }

  function Do(hash: Hash, s: State, step: Step): State
    requires Enabled(s, step)
  {
    match step
    case Create(id) => State(s.files[UploadPath(id) := []], s.uploads[id := Upload([], true)])
    case Write(id, b) =>
      var u := s.uploads[id];
      State(s.files[UploadPath(id) := s.files[UploadPath(id)] + b], s.uploads[id := u.(digested := u.digested + b)])
    case Commit(id, provisional, fileOk, moveOk) =>
      var u := s.uploads[id];
      var outcome := CommitOutcome(hash, u, provisional, fileOk, moveOk);
      State(if outcome.Stored? && ParseDigest(outcome.digest).Some?
              then Moved(s.files, UploadPath(id), BlobDataPath(outcome.digest)) else s.files,
            s.uploads[id := u.(open := u.open && outcome.NotCommitted?)])
    case Forget(id) => s.(uploads := s.uploads - {id})
  }

  ghost predicate Inv(hash: Hash, s: State) {
    IsHash(hash) && ContentAddressed(s.files, hash) &&
    forall id | id in s.uploads && s.uploads[id].open ::
      UploadPath(id) in s.files && s.files[UploadPath(id)] == s.uploads[id].digested
  }

  /** No step of any upload breaks content addressing or another upload's file; a commit whose
      digest is not the expected one changes no file at all. */
  lemma StepKeepsInv(hash: Hash, s: State, step: Step)
    requires Inv(hash, s) && Enabled(s, step)
    ensures Inv(hash, Do(hash, s, step))
    ensures step.Commit? && step.provisional.Some? && step.provisional.value != hash(s.uploads[step.id].digested) ==>
      Do(hash, s, step).files == s.files
  {
    var s' := Do(hash, s, step);
    forall id | id in s'.uploads && s'.uploads[id].open
      ensures UploadPath(id) in s'.files && s'.files[UploadPath(id)] == s'.uploads[id].digested
    {
      UploadPathsApart(id, step.id);
      if step.Commit? && s.uploads[step.id].open { BlobPathsApart(hash(s.uploads[step.id].digested), hash([]), id); }
    }
    forall d | ParseDigest(d).Some? && BlobDataPath(d) in s'.files ensures hash(s'.files[BlobDataPath(d)]) == d {
      BlobPathsApart(d, d, step.id);
      if step.Commit? && s.uploads[step.id].open { BlobPathsApart(d, hash(s.uploads[step.id].digested), step.id); }
    }
  }

  predicate IsRun(hash: Hash, s: State, steps: seq<Step>)
    decreases |steps|
  {
    steps == [] || (Enabled(s, steps[0]) && IsRun(hash, Do(hash, s, steps[0]), steps[1..]))
  }

  function After(hash: Hash, s: State, steps: seq<Step>): State
    requires IsRun(hash, s, steps)
    decreases |steps|
  {
    if steps == [] then s else After(hash, Do(hash, s, steps[0]), steps[1..])
  }

  /** After any interleaving of uploads, whatever can be opened under a digest hashes to it. */
  lemma {:induction false} OpenedContentHashes(hash: Hash, s: State, steps: seq<Step>, d: Digest)
    requires Inv(hash, s) && IsRun(hash, s, steps) && ParseDigest(d).Some?
    ensures Open(After(hash, s, steps).files, d).Some? ==> hash(Open(After(hash, s, steps).files, d).value) == d
    decreases |steps|
  {
    if steps == [] {
    } else {
      StepKeepsInv(hash, s, steps[0]);
      OpenedContentHashes(hash, Do(hash, s, steps[0]), steps[1..], d);
    }
  }

  /** Once stored, content can be opened from then on: no step removes it, and replacing it
      takes other bytes with the same digest. */
  lemma {:induction false} StoredContentStays(hash: Hash, s: State, steps: seq<Step>, d: Digest)
    requires Inv(hash, s) && IsRun(hash, s, steps) && ParseDigest(d).Some? && Open(s.files, d).Some?
    ensures Open(After(hash, s, steps).files, d).Some?
    ensures (forall b | hash(b) == d :: b == Open(s.files, d).value) ==> Open(After(hash, s, steps).files, d) == Open(s.files, d)
    decreases |steps|
  {
    if steps == [] {
    } else {
      var step, s' := steps[0], Do(hash, s, steps[0]);
      StepKeepsInv(hash, s, step);
      BlobPathsApart(d, d, step.id);
      assert Open(s'.files, d).Some?;
      assert hash(s'.files[BlobDataPath(d)]) == d;
      StoredContentStays(hash, s', steps[1..], d);
    }
  }

  /** `Registry.Wrap` with an expected digest: the reader was closed after `n` bytes of `content`.
      The blob is stored exactly when those bytes have the digest; else nothing is. */
  lemma PartialReadStoresNothingWrong(hash: Hash, s: State, id: string, content: Bytes, n: nat, d: Digest)
    requires Inv(hash, s) && Enabled(s, Create(id)) && n <= |content| && ParseDigest(d).Some?
    requires Open(s.files, d).None?
    ensures var s1 := Do(hash, s, Create(id));
      var s2 := Do(hash, s1, Write(id, content[..n]));
      var s3 := Do(hash, s2, Commit(id, Some(d), true, true));
      Open(s3.files, d) == (if hash(content[..n]) == d then Some(content[..n]) else None) &&
      forall e | ParseDigest(e).Some? && e != d :: Open(s3.files, e) == Open(s.files, e)
  {
    forall e | ParseDigest(e).Some? ensures BlobDataPath(e) != UploadPath(id) && (BlobDataPath(e) == BlobDataPath(d) <==> e == d) {
      BlobPathsApart(e, d, id);
    }
    assert [] + content[..n] == content[..n];
  }

  /** What a commit does: it stores the bytes written so far under their own digest, in the place of the
      upload's file, exactly when the upload is open, both file operations succeed, and the digest is the expected
      one if any is; otherwise no file changes.  A commit that fails to close its file can be tried again. */
  lemma CommitMeaning(hash: Hash, s: State, id: string, expected: Option<Digest>, fileOk: bool, moveOk: bool)
    requires Inv(hash, s) && Enabled(s, Commit(id, expected, fileOk, moveOk))
    ensures var u, s' := s.uploads[id], Do(hash, s, Commit(id, expected, fileOk, moveOk));
      var d := hash(u.digested);
      var (alg, hex) := ParseDigest(d).value;
      var blob, upload := "/kubepkg/blobs/" + alg + "/" + hex, "/kubepkg/_uploads/" + id;
      (if u.open && fileOk && moveOk && (expected.None? || expected.value == d) then
        upload !in s'.files && blob in s'.files && s'.files[blob] == u.digested && Open(s'.files, d) == Some(u.digested) &&
        forall path | path != blob && path != upload :: SameAt(s.files, s'.files, path)
      else s'.files == s.files) &&
      s'.uploads.Keys == s.uploads.Keys && s'.uploads[id] == u.(open := u.open && !fileOk) &&
      forall other | other in s.uploads && other != id :: s'.uploads[other] == s.uploads[other]
  {
    var d := hash(s.uploads[id].digested);
    BlobPathsApart(d, d, id);
  }

  predicate SameAt(a: Files, b: Files, path: string) {
    (path in a <==> path in b) && (path in a ==> a[path] == b[path])
  }
}
