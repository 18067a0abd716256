/**
 The pull-through cache of pkg/containerregistry/proxy/proxyblobstore.go.

 A reader of a blob that is not local copies what it hands out into a local upload, which is
 committed, under the digest that was asked for, when the reader is closed.  The local store
 verifies every commit.  Readers may be abandoned anywhere; seeking is not modelled.
 */
module ProxyCache {
  import opened Wrappers
  import opened Registry

  type Store = map<Digest, Bytes>

  /** The local store's `Commit`. */
  function Committed(hash: Hash, local: Store, d: Digest, written: Bytes): Store {
    if hash(written) == d then local[d := written] else local
  }

  /** Where a full read of `Open(d)` gets its bytes. */
  function Readable(local: Store, remote: Store, d: Digest): Option<Bytes> {
    if d in local then Some(local[d]) else if d in remote then Some(remote[d]) else None
  }

  /** A reader handed out by `Open`, with the position reached; `caching` when it is the remote's. */
  datatype Reader = Reader(digest: Digest, source: Bytes, pos: nat, caching: bool, open: bool)

  // ------------------------------------------------------------------- the store

  class ProxyBlobStore {
    var local: Store
    const remote: Store
    const hash: Hash

    constructor (hash: Hash, local: Store, remote: Store)
      ensures this.hash == hash && this.local == local && this.remote == remote
    {
      this.hash, this.local, this.remote := hash, local, remote;
    }

    /** `Stat`: when the remote does not know the blob, opening it may still work, and then the
        whole blob is copied. */
    method Stat(d: Digest) returns (size: Option<nat>)
      modifies this
      ensures local == old(local) ||
        (d !in old(local) && d in remote && hash(remote[d]) == d && local == old(local)[d := remote[d]])
      ensures forall readers :: IsStep(hash, remote, State(old(local), readers), State(local, readers), Step.Stat(d, local != old(local)))
      ensures size.Some? ==> Readable(local, remote, d).Some? && size.value == |Readable(local, remote, d).value|
      ensures d in old(local) ==> size == Some(|old(local)[d]|)
      ensures size.Some? ==> d in local || (d in remote && size.value == |remote[d]|)
    {
      if d in local { return Some(|local[d]|); }
      var reachable, statKnown := *, *;
      if !reachable || d !in remote { return None; }
      if statKnown { return Some(|remote[d]|); }
      if hash(remote[d]) != d { return None; }
      local := local[d := remote[d]];
      return Some(|local[d]|);
    }

    method Open(d: Digest) returns (r: BlobReader?)
      ensures r != null ==> fresh(r) && r.store == this && r.digested == [] && r.open && r.digest == d
      ensures r != null ==> Readable(local, remote, d) == Some(r.source) && (r.caching <==> d !in local)
      ensures d in local ==> r != null && r.source == local[d]
      ensures d !in local && r != null ==> d in remote && r.source == remote[d]
      ensures r != null ==> forall id, others | id !in others ::
        IsStep(hash, remote, State(local, others), r.View(id, others), Step.Open(id, d))
    {
      if d in local {
        r := new BlobReader(this, d, local[d], false);
        return;
      }
      var reachable := *;
      if !reachable || d !in remote { return null; }
      r := new BlobReader(this, d, remote[d], true);
    }

    /** `Get` reads everything but never closes the reader, so it caches nothing. */
    method Get(d: Digest) returns (bytes: Option<Bytes>)
      ensures bytes.Some? ==> bytes == Readable(local, remote, d)
      ensures d in local ==> bytes == Some(local[d])
      ensures d !in local && bytes.Some? ==> d in remote && bytes.value == remote[d]
      ensures local == old(local)
    {
      var r := Open(d);
      if r == null { return None; }
      var out: Bytes := [];
      while |r.digested| < |r.source|
        invariant r.Valid() && r.digested == out && fresh(r)
        decreases |r.source| - |r.digested|
      {
        var n := |r.source| - |r.digested|;
        var chunk := r.Read(n);
        out := out + chunk;
      }
      assert r.source[..|r.source|] == r.source;
      return Some(out);
    }
  }

  class BlobReader {
    const store: ProxyBlobStore
    const digest: Digest
    const source: Bytes
    const caching: bool
    /** what has been handed out, and copied to the upload when caching */
    var digested: Bytes
    var open: bool

    ghost predicate Valid()
      reads this
    {
      |digested| <= |source| && digested == source[..|digested|]
    }

    /** The state of the cache, seen with whatever other readers there are. */
    ghost function View(id: nat, others: map<nat, Reader>): State
      reads this, store
    {
      State(store.local, others[id := Reader(digest, source, |digested|, caching, open)])
    }

    constructor (store: ProxyBlobStore, digest: Digest, source: Bytes, caching: bool)
      ensures this.store == store && this.digest == digest && this.source == source && this.caching == caching
      ensures digested == [] && open && Valid()
    {
      this.store, this.digest, this.source, this.caching := store, digest, source, caching;
      digested, open := [], true;
    }

    /** At most `n` further bytes. */
    method Read(n: nat) returns (chunk: Bytes)
      requires Valid()
      modifies this
      ensures Valid() && open == old(open) && digested == old(digested) + chunk
      ensures |chunk| == if n < |source| - |old(digested)| then n else |source| - |old(digested)|
      ensures old(open) ==> forall id, others ::
        IsStep(store.hash, store.remote, old(View(id, others)), View(id, others), Step.Read(id, |chunk|))
    {
      var m := if n < |source| - |digested| then n else |source| - |digested|;
      chunk := source[|digested|..|digested| + m];
      assert source[..|digested| + m] == source[..|digested|] + chunk;
      digested := digested + chunk;
      forall id: nat, others: map<nat, Reader> | open
        ensures IsStep(store.hash, store.remote, old(View(id, others)), View(id, others), Step.Read(id, |chunk|))
      {
        var was, now := Reader(digest, source, |old(digested)|, caching, open), Reader(digest, source, |digested|, caching, open);
        assert others[id := was][id := now] == others[id := now];
      }
    }

    /** Commits the copy under the digest asked for; a short or wrong copy is refused. */
    method Close() returns (ok: bool)
      requires Valid() && open
      modifies this, store
      ensures !open && Valid() && digested == old(digested)
      ensures store.local == if caching then Committed(store.hash, old(store.local), digest, digested) else old(store.local)
      ensures ok <==> caching ==> store.hash(digested) == digest
      ensures caching && ok ==> digest in store.local && store.local[digest] == digested
      ensures forall d | d != digest || !caching || !ok :: d in store.local <==> d in old(store.local)
      ensures forall d | d in old(store.local) && (d != digest || !caching || !ok) :: store.local[d] == old(store.local)[d]
      ensures forall id, others :: IsStep(store.hash, store.remote, old(View(id, others)), View(id, others), Step.Close(id))
    {
      open := false;
      ok := true;
      if caching {
        ok := store.hash(digested) == digest;
        if ok { store.local := store.local[digest := digested]; }
      }
      forall id: nat, others: map<nat, Reader>
        ensures IsStep(store.hash, store.remote, old(View(id, others)), View(id, others), Step.Close(id))
      {
        var was, now := Reader(digest, source, |digested|, caching, true), Reader(digest, source, |digested|, caching, false);
        assert others[id := was][id := now] == others[id := now];
      }
    }
  }

  // --------------------------------------------------------------------- whole runs

  datatype State = State(local: Store, readers: map<nat, Reader>)

  datatype Step =
    | Stat(digest: Digest, copies: bool)
    | Open(id: nat, digest: Digest)
    | Read(id: nat, n: nat)
    | Close(id: nat)
    | Abandon(id: nat)

  /** One step of the cache. */
  predicate IsStep(hash: Hash, remote: Store, s: State, s': State, step: Step) {
    Enabled(remote, s, step) && s' == Do(hash, remote, s, step)
  }

  predicate Enabled(remote: Store, s: State, step: Step) {
    match step
    case Stat(d, copies) => copies ==> d !in s.local && d in remote
    case Open(id, d) => id !in s.readers && Readable(s.local, remote, d).Some?
    case Read(id, n) => id in s.readers && s.readers[id].open && s.readers[id].pos + n <= |s.readers[id].source|
    case Close(id) => id in s.readers && s.readers[id].open && s.readers[id].pos <= |s.readers[id].source|
    case Abandon(id) => id in s.readers
  }

  function Do(hash: Hash, remote: Store, s: State, step: Step): State
    requires Enabled(remote, s, step)
  {
    match step
    case Stat(d, copies) => if copies then s.(local := Committed(hash, s.local, d, remote[d])) else s
    case Open(id, d) => s.(readers := s.readers[id := Reader(d, Readable(s.local, remote, d).value, 0, d !in s.local, true)])
    case Read(id, n) => s.(readers := s.readers[id := s.readers[id].(pos := s.readers[id].pos + n)])
    case Close(id) =>
      var r := s.readers[id];
      State(if r.caching then Committed(hash, s.local, r.digest, r.source[..r.pos]) else s.local,
            s.readers[id := r.(open := false)])
    case Abandon(id) => s.(readers := s.readers - {id})
  }

  /** Local content has its digest, and caching readers read what the remote has. */
  ghost predicate Inv(hash: Hash, remote: Store, s: State) {
    (forall d | d in s.local :: hash(s.local[d]) == d) &&
    forall id | id in s.readers :: s.readers[id].caching ==>
      s.readers[id].digest in remote && s.readers[id].source == remote[s.readers[id].digest]
  }

  lemma StepKeepsInv(hash: Hash, remote: Store, s: State, step: Step)
    requires Inv(hash, remote, s) && Enabled(remote, s, step)
    ensures Inv(hash, remote, Do(hash, remote, s, step))
    ensures s.local.Keys <= Do(hash, remote, s, step).local.Keys
  {
  }

  predicate IsRun(hash: Hash, remote: Store, s: State, steps: seq<Step>)
    decreases |steps|
  {
    steps == [] || (Enabled(remote, s, steps[0]) && IsRun(hash, remote, Do(hash, remote, s, steps[0]), steps[1..]))
  }

  function After(hash: Hash, remote: Store, s: State, steps: seq<Step>): State
    requires IsRun(hash, remote, s, steps)
    decreases |steps|
  {
    if steps == [] then s else After(hash, remote, Do(hash, remote, s, steps[0]), steps[1..])
  }

  /** The store only gains blobs, and what it holds always has its digest, however honest the
      remote and wherever readers stop. */
  lemma {:induction false} CacheIsAddressed(hash: Hash, remote: Store, s: State, steps: seq<Step>, d: Digest)
    requires Inv(hash, remote, s) && IsRun(hash, remote, s, steps)
    ensures d in s.local ==> d in After(hash, remote, s, steps).local
    ensures d in After(hash, remote, s, steps).local ==> hash(After(hash, remote, s, steps).local[d]) == d
    decreases |steps|
  {
    if steps == [] {
    } else {
      StepKeepsInv(hash, remote, s, steps[0]);
      CacheIsAddressed(hash, remote, Do(hash, remote, s, steps[0]), steps[1..], d);
    }
  }

  /** Only the one blob has this digest. */
  ghost predicate Unforgeable(hash: Hash, d: Digest, content: Bytes) {
    hash(content) == d && forall b | hash(b) == d :: b == content
  }

  /** Caching is invisible: reading a blob gives the same bytes before and after any run, for
      content that is the only preimage of its digest. */
  lemma {:induction false} CacheIsTransparent(hash: Hash, remote: Store, s: State, steps: seq<Step>, d: Digest, content: Bytes)
    requires Inv(hash, remote, s) && IsRun(hash, remote, s, steps)
    requires Readable(s.local, remote, d) == Some(content) && Unforgeable(hash, d, content)
    ensures Readable(After(hash, remote, s, steps).local, remote, d) == Some(content)
    decreases |steps|
  {
    if steps == [] {
    } else {
      var s' := Do(hash, remote, s, steps[0]);
      StepKeepsInv(hash, remote, s, steps[0]);
      assert d in s'.local ==> hash(s'.local[d]) == d;
      CacheIsTransparent(hash, remote, s', steps[1..], d, content);
    }
  }

  /** However the cache was used since it was empty, a full read gives the remote's bytes. */
  ghost predicate AlwaysReadsRemote(hash: Hash, remote: Store, s: State, d: Digest)
    requires d in remote
  {
    forall steps: seq<Step> | IsRun(hash, remote, s, steps) ::
      Readable(After(hash, remote, s, steps).local, remote, d) == Some(remote[d])
  }

  /** A remote whose bytes do not have the digest is never cached as such, but a reader that
      stops where they do caches that prefix, and the next read differs.  Transparency from an
      empty cache holds exactly when no proper prefix of the remote's bytes has the digest. */
  lemma TransparentExactly(hash: Hash, remote: Store, s: State, d: Digest)
    requires d in remote && s == State(map[], map[])
    ensures AlwaysReadsRemote(hash, remote, s, d) <==> forall n: nat | n < |remote[d]| :: hash(remote[d][..n]) != d
  {
    if n: nat :| n < |remote[d]| && hash(remote[d][..n]) == d {
      var steps := [Open(0, d), Read(0, n), Close(0)];
      var s1 := Do(hash, remote, s, steps[0]);
      var s2 := Do(hash, remote, s1, steps[1]);
      var s3 := Do(hash, remote, s2, steps[2]);
      assert steps[1..] == [Read(0, n), Close(0)] && steps[1..][1..] == [Close(0)];
      assert IsRun(hash, remote, s2, [Close(0)]) && After(hash, remote, s2, [Close(0)]) == s3;
      assert IsRun(hash, remote, s1, steps[1..]) && After(hash, remote, s1, steps[1..]) == s3;
      assert IsRun(hash, remote, s, steps) && After(hash, remote, s, steps) == s3;
      assert s3.local[d] == remote[d][..n] && |remote[d][..n]| != |remote[d]|;
      assert !AlwaysReadsRemote(hash, remote, s, d);
    } else {
      forall steps: seq<Step> | IsRun(hash, remote, s, steps)
        ensures Readable(After(hash, remote, s, steps).local, remote, d) == Some(remote[d])
      {
        NoPrefixNoChange(hash, remote, s, steps, d);
      }
    }
  }

  lemma {:induction false} NoPrefixNoChange(hash: Hash, remote: Store, s: State, steps: seq<Step>, d: Digest)
    requires Inv(hash, remote, s) && IsRun(hash, remote, s, steps)
    requires d in remote && forall n: nat | n < |remote[d]| :: hash(remote[d][..n]) != d
    requires d in s.local ==> s.local[d] == remote[d]
    ensures Readable(After(hash, remote, s, steps).local, remote, d) == Some(remote[d])
    decreases |steps|
  {
    if steps == [] {
    } else {
      StepKeepsInv(hash, remote, s, steps[0]);
      assert remote[d][..|remote[d]|] == remote[d];
      NoPrefixNoChange(hash, remote, Do(hash, remote, s, steps[0]), steps[1..], d);
    }
  }
}
