/** Reading a manifest back: sort the references by offset, patch each chunk into a zeroed buffer. */
module Restore {
  import opened Bytes
  import opened Codec
  import opened Chunker
  import opened ChunkerLaws
  import opened Sorting
  import opened StoreSpec

  type Files = map<Hash, bytes>

  /**
   * The loop of `read_manifest` over references in reading order.  Each read suspends the
   * caller, so the k-th chunk comes from the files as they are by then, `at[k]`; `None` is a
   * missing file.
   */
  function Assemble(c: Codec, at: seq<Files>, refs: seq<Ref>, buf: bytes): Option<bytes>
    requires |at| == |refs|
  {
    if refs == [] then Some(buf)
    else if refs[0].sha !in at[0] then None
    else Assemble(c, at[1..], refs[1..], PyPatch(buf, refs[0].offset, Decompress(c, at[0][refs[0].sha])))
  }

  // Files that do not change while they are read.
  function Still(files: Files, n: nat): (at: seq<Files>)
    ensures |at| == n
  {
    seq(n, _ => files)
  }

  function Offset(r: Ref): nat {
    r.offset
  }

  function Restored(c: Codec, at: seq<Files>, refs: seq<Ref>, totalBytes: nat): Option<bytes>
    requires |at| == |refs|
  {
    SortBySorts(Offset, refs);
    Assemble(c, at, SortBy(Offset, refs), Zeros(totalBytes))
  }

  // The files hold the chunk `d` under its hash.
  predicate Holds(c: Codec, files: Files, d: bytes) {
    c.hash(d) in files && files[c.hash(d)] == Payload(c, d)
  }

  ghost predicate HoldAll(c: Codec, at: seq<Files>, ps: seq<Piece>) {
    |at| == |ps| && forall i :: 0 <= i < |ps| ==> Holds(c, at[i], ps[i].data)
  }

  ghost predicate PiecesIn(ps: seq<Piece>, chunks: set<bytes>) {
    forall i :: 0 <= i < |ps| ==> ps[i].data in chunks
  }

  // What is left of a buffer of `n` bytes behind `k` of them.
  function Left(n: nat, k: nat): nat {
    if n > k then n - k else 0
  }

  // Each patch replaces zeros by the next stretch of the disk, and makes the buffer grow where there are none left.
  lemma {:induction false} AssembleTiles(c: Codec, chunks: set<bytes>, at: seq<Files>, ps: seq<Piece>, done: bytes, d: bytes, z: nat)
    requires Sound(c, chunks) && PiecesIn(ps, chunks)
    requires HoldAll(c, at, ps) && Tiles(ps, d, |done|)
    ensures Assemble(c, at, RefsOf(c, ps), done + Zeros(z)) == Some((done + d) + Zeros(Left(z, |d|)))
    decreases |ps|
  {
    var refs := RefsOf(c, ps);
    if ps == [] {
      assert (done + d) + Zeros(z) == done + Zeros(z);
    } else {
      var n := |ps[0].data|;
      var more := done + ps[0].data;
      HeldReadsBack(c, chunks, at[0], ps[0].data);
      PatchZeros(done, ps[0].data, z);
      JoinSplit(done, d, n);
      assert refs[0] == RefOf(c, ps[0]) && refs[1..] == RefsOf(c, ps[1..]);
      AssembleTiles(c, chunks, at[1..], ps[1..], more, d[n..], Left(z, n));
      hide PyPatch, Zeros, Decompress, Payload, Sound;
      assert Assemble(c, at, refs, done + Zeros(z)) == Assemble(c, at[1..], refs[1..], more + Zeros(Left(z, n)));
      assert Left(Left(z, n), |d[n..]|) == Left(z, |d|);
    }
  }

  // A held chunk reads back as what was written.
  lemma HeldReadsBack(c: Codec, chunks: set<bytes>, files: Files, d: bytes)
    requires Sound(c, chunks) && d in chunks && Holds(c, files, d)
    ensures Decompress(c, files[c.hash(d)]) == d
  {
    ReadBackIff(c, d);
  }

  lemma PatchZeros(done: bytes, d: bytes, n: nat)
    ensures PyPatch(done + Zeros(n), |done|, d) == (done + d) + Zeros(Left(n, |d|))
  {
  }

  lemma JoinSplit(done: bytes, d: bytes, n: nat)
    requires n <= |d|
    ensures (done + d[..n]) + d[n..] == done + d
  {
  }

  lemma {:induction false} TilesAscend(ps: seq<Piece>, d: bytes, at: nat, i: nat, j: nat)
    requires Tiles(ps, d, at) && i < j < |ps|
    ensures ps[i].offset < ps[j].offset
  {
    if i == 0 {
      TileAt(ps[1..], d[|ps[0].data|..], at + |ps[0].data|, j - 1);
    } else {
      TilesAscend(ps[1..], d[|ps[0].data|..], at + |ps[0].data|, i - 1, j - 1);
    }
  }

  /** Sorting any permutation of a disk's references gives them in disk order. */
  lemma ReferencesSort(c: Codec, ps: seq<Piece>, d: bytes, refs: seq<Ref>)
    requires Tiles(ps, d, 0) && multiset(refs) == multiset(RefsOf(c, ps))
    ensures SortBy(Offset, refs) == RefsOf(c, ps)
  {
    forall i, j | 0 <= i < j < |ps|
      ensures Offset(RefsOf(c, ps)[i]) < Offset(RefsOf(c, ps)[j])
    {
      TilesAscend(ps, d, 0, i, j);
    }
    SortUndoesPermutation(Offset, refs, RefsOf(c, ps));
  }

  /**
   * Whatever size the manifest states, a restore gives the whole disk, and zeros behind it if the
   * size is too large: a slice beyond the end of the buffer makes it grow.
   */
  lemma RestoreAnyTotal(c: Codec, chunks: set<bytes>, p: Params, data: bytes, refs: seq<Ref>, at: seq<Files>, total: nat)
    requires Sound(c, chunks) && PiecesIn(Chunks(p, data, 0), chunks)
    requires multiset(refs) == multiset(RefsOf(c, Chunks(p, data, 0)))
    requires HoldAll(c, at, Chunks(p, data, 0))
    ensures |at| == |refs|
    ensures Restored(c, at, refs, total) == Some(data + Zeros(if total > |data| then total - |data| else 0))
  {
    var ps := Chunks(p, data, 0);
    assert |multiset(refs)| == |multiset(RefsOf(c, ps))|;
    ChunksTile(p, data, 0);
    ReferencesSort(c, ps, data, refs);
    assert [] + Zeros(total) == Zeros(total) && [] + data == data;
    AssembleTiles(c, chunks, at, ps, [], data, total);
  }

  /**
   * Restoring from a disk's references, in whatever order they are listed, gives the disk back
   * if each file is right at the moment its own chunk is read.
   */
  lemma RestoreAnyOrder(c: Codec, chunks: set<bytes>, p: Params, data: bytes, refs: seq<Ref>, at: seq<Files>)
    requires Sound(c, chunks) && PiecesIn(Chunks(p, data, 0), chunks)
    requires multiset(refs) == multiset(RefsOf(c, Chunks(p, data, 0)))
    requires HoldAll(c, at, Chunks(p, data, 0))
    ensures |at| == |refs| && Restored(c, at, refs, |data|) == Some(data)
  {
    RestoreAnyTotal(c, chunks, p, data, refs, at, |data|);
    assert data + Zeros(0) == data;
  }

  /** A pinned chunk is on disk with the right bytes. */
  lemma PinnedIsHeld(c: Codec, chunks: set<bytes>, st: Store, pins: multiset<Hash>, except: set<Hash>, d: bytes)
    requires RowsBacked(c, chunks, st, except) && CountsAre(st, pins)
    requires d in chunks && c.hash(d) in pins && c.hash(d) !in except
    ensures Holds(c, st.files, d)
  {
    assert Count(st, c.hash(d)) == pins[c.hash(d)];
  }

  /** In a consistent store a manifest whose references are all pinned restores to its disk. */
  lemma PinnedManifestRestores(c: Codec, chunks: set<bytes>, st: Store, pins: multiset<Hash>, p: Params, data: bytes)
    requires Sound(c, chunks) && Consistent(c, chunks, st, pins)
    requires var ps := Chunks(p, data, 0); PiecesIn(ps, chunks) && Held(c, ps, 0, |ps|) <= pins
    ensures var refs := RefsOf(c, Chunks(p, data, 0));
            Restored(c, Still(st.files, |refs|), refs, |data|) == Some(data)
  {
    var ps := Chunks(p, data, 0);
    var at := Still(st.files, |ps|);
    forall i | 0 <= i < |ps|
      ensures Holds(c, at[i], ps[i].data)
    {
      assert Hashes(c, ps)[0..|ps|][i] == c.hash(ps[i].data);
      assert c.hash(ps[i].data) in Held(c, ps, 0, |ps|);
      PinnedIsHeld(c, chunks, st, pins, {}, ps[i].data);
    }
    RestoreAnyOrder(c, chunks, p, data, RefsOf(c, ps), at);
  }
}
