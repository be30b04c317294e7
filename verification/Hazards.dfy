/** Where the store's promises end: what goes wrong, and exactly when. */
module Hazards {
  import opened Bytes
  import opened Codec
  import opened Chunker
  import opened ChunkerLaws
  import opened Sorting
  import opened StoreSpec
  import opened Restore
  import opened Owners
  import opened Interleaving
  import SR = StoreRuns

  /**
   * A backup that raises between a file and its row leaves the file behind: with a one-byte disk,
   * a real sweep after it ends with an empty index and the file still there.
   */
  lemma AbortLeavesFile(c: Codec, p: Params, b: byte)
    requires Sound(c, {[b]})
    ensures var ops := [SR.Abort([b], Fault(0, true)), SR.Sweep(false)];
            var w0 := SR.FRESH_WORLD;
            SR.Enabled(p, w0, ops[0]) &&
            var w1 := SR.Do(c, p, w0, ops[0]);
            SR.Enabled(p, w1, ops[1]) &&
            var w2 := SR.Do(c, p, w1, ops[1]);
            && SR.Run(c, {[b]}, p, [w0, w1, w2], ops)
            && w2.st.index == map[] && w2.st.files == map[c.hash([b]) := Payload(c, [b])]
  {
    OneByteDisk(p, b);
    hide Chunks, Sound, Payload;
    var ps := [Piece(0, [b])];
    assert ps[..0] == [];
    var w1 := SR.Do(c, p, SR.FRESH_WORLD, SR.Abort([b], Fault(0, true)));
    assert w1.st == Store(map[], map[c.hash([b]) := Payload(c, [b])]);
    assert ZeroRefs(w1.st) == {};
    assert w1.st.files - {} == w1.st.files && w1.st.index - {} == w1.st.index;
  }

  // Whatever is on disk under the hash of one of `chunks` is its payload.
  ghost predicate FilesRight(c: Codec, chunks: set<bytes>, st: Store) {
    forall d :: d in chunks && c.hash(d) in st.files ==> st.files[c.hash(d)] == Payload(c, d)
  }

  // Which rows and files there are after chunks with the hashes `hs` have been stored.
  ghost predicate Gained(st: Store, st': Store, hs: seq<Hash>) {
    && (forall h :: h in st'.files <==> h in st.files || (h in hs && h !in st.index))
    && (forall h :: h in st'.index <==> h in st.index || h in hs)
  }

  lemma WriteChunkGains(c: Codec, st: Store, mid: Store, hs: seq<Hash>, d: bytes)
    requires Gained(st, mid, hs)
    ensures Gained(st, WriteChunk(c, mid, d).0, hs + [c.hash(d)])
  {
  }

  lemma WriteChunkFilesRight(c: Codec, chunks: set<bytes>, st: Store, d: bytes)
    requires NoCollisions(c, chunks) && FilesRight(c, chunks, st) && d in chunks
    ensures FilesRight(c, chunks, WriteChunk(c, st, d).0)
  {
  }

  lemma HashesLast(c: Codec, ps: seq<Piece>)
    requires ps != []
    ensures Hashes(c, ps) == Hashes(c, ps[..|ps| - 1]) + [c.hash(ps[|ps| - 1].data)]
  {
  }

  lemma {:induction false} StorePiecesFiles(c: Codec, chunks: set<bytes>, st: Store, ps: seq<Piece>)
    requires NoCollisions(c, chunks) && FilesRight(c, chunks, st) && PiecesIn(ps, chunks)
    ensures var st' := StorePieces(c, st, ps).0; FilesRight(c, chunks, st') && Gained(st, st', Hashes(c, ps))
  {
    if ps != [] {
      hide WriteChunk, NoCollisions, FilesRight, Gained, Hashes;
      var k := |ps| - 1;
      var mid := StorePieces(c, st, ps[..k]).0;
      assert StorePieces(c, st, ps).0 == WriteChunk(c, mid, ps[k].data).0;
      HashesLast(c, ps);
      StorePiecesFiles(c, chunks, st, ps[..k]);
      WriteChunkFilesRight(c, chunks, mid, ps[k].data);
      WriteChunkGains(c, st, mid, Hashes(c, ps[..k]), ps[k].data);
    }
  }

  lemma {:induction false} AssembleNeedsFiles(c: Codec, files: Files, ps: seq<Piece>, buf: bytes, k: nat)
    requires k < |ps| && c.hash(ps[k].data) !in files
    ensures Assemble(c, Still(files, |ps|), RefsOf(c, ps), buf) == None
  {
    var refs := RefsOf(c, ps);
    var at := Still(files, |ps|);
    assert at[1..] == Still(files, |ps| - 1) && refs[1..] == RefsOf(c, ps[1..]);
    if k > 0 && refs[0].sha in files {
      AssembleNeedsFiles(c, files, ps[1..], PyPatch(buf, refs[0].offset, Decompress(c, files[refs[0].sha])), k - 1);
    }
  }

  /**
   * A backup takes an index row as proof that the chunk is on disk.  What it returns restores
   * exactly when every chunk that the index already knew really had its file: one row left
   * behind without its file, as by a sweep that stops between its two deletions, makes every
   * later backup with that chunk unreadable.
   */
  lemma BackupRestoresIff(c: Codec, chunks: set<bytes>, p: Params, st: Store, data: bytes)
    requires Sound(c, chunks) && FilesRight(c, chunks, st) && PiecesIn(Chunks(p, data, 0), chunks)
    ensures var (st', m) := WriteDisk(c, p, st, data);
            Restored(c, Still(st'.files, |m.refs|), m.refs, m.totalBytes) == Some(data)
            <==> forall h :: h in Hashes(c, Chunks(p, data, 0)) && h in st.index ==> h in st.files
  {
    var ps := Chunks(p, data, 0);
    var st' := StorePieces(c, st, ps).0;
    StorePiecesFiles(c, chunks, st, ps);
    if forall h :: h in Hashes(c, ps) && h in st.index ==> h in st.files {
      forall i | 0 <= i < |ps|
        ensures Holds(c, st'.files, ps[i].data)
      {
        assert Hashes(c, ps)[i] == c.hash(ps[i].data);
      }
      RestoreAnyOrder(c, chunks, p, data, RefsOf(c, ps), Still(st'.files, |ps|));
    } else {
      var h :| h in Hashes(c, ps) && h in st.index && h !in st.files;
      var k :| 0 <= k < |ps| && Hashes(c, ps)[k] == h;
      ChunksTile(p, data, 0);
      ReferencesSort(c, ps, data, RefsOf(c, ps));
      AssembleNeedsFiles(c, st'.files, ps, Zeros(|data|), k);
    }
  }

  // A first backup is taken and released; a sweep starts; a second backup of the same byte overlaps it.
  function OverlapStep(h: Hash, b: byte, k: nat): Step {
    match k
    case 0 => Begin([b])
    case 1 => Lookup(0)
    case 2 => PutFile(0)
    case 3 => Insert(0)
    case 4 => Finish(0)
    case 5 => Drop(0)
    case 6 => SweepStart
    case 7 => Begin([b])
    case 8 => Lookup(1)
    case 9 => SweepUnlink(h)
    case 10 => Bump(1)
    case 11 => SweepDelete
    case 12 => Finish(1)
    case _ => SweepEnd
  }

  function OverlapState(h: Hash, payload: bytes, b: byte, k: nat): State {
    var d: bytes := [b];
    var files: Files := map[h := payload];
    var used, unused := map[h := Row(1, |payload|, 1)], map[h := Row(1, |payload|, 0)];
    var gone := Owner(d, 1, 1, Releasing);
    match k
    case 0 => INIT
    case 1 => State(EMPTY_STORE, [Owner(d, 0, 0, Looking)], Idle)
    case 2 => State(EMPTY_STORE, [Owner(d, 0, 0, Missed)], Idle)
    case 3 => State(Store(map[], files), [Owner(d, 0, 0, FileWritten)], Idle)
    case 4 => State(Store(used, files), [Owner(d, 0, 1, Looking)], Idle)
    case 5 => State(Store(used, files), [Owner(d, 0, 1, Live)], Idle)
    case 6 => State(Store(unused, files), [gone], Idle)
    case 7 => State(Store(unused, files), [gone], Sweeping({h}, None))
    case 8 => State(Store(unused, files), [gone, Owner(d, 0, 0, Looking)], Sweeping({h}, None))
    case 9 => State(Store(unused, files), [gone, Owner(d, 0, 0, Found)], Sweeping({h}, None))
    case 10 => State(Store(unused, map[]), [gone, Owner(d, 0, 0, Found)], Sweeping({h}, Some(h)))
    case 11 => State(Store(used, map[]), [gone, Owner(d, 0, 1, Looking)], Sweeping({h}, Some(h)))
    case 12 => State(Store(used, map[]), [gone, Owner(d, 0, 1, Looking)], Sweeping({}, None))
    case 13 => State(Store(used, map[]), [gone, Owner(d, 0, 1, Live)], Sweeping({}, None))
    case _ => State(Store(used, map[]), [gone, Owner(d, 0, 1, Live)], Idle)
  }

  function OverlapStates(c: Codec, b: byte): seq<State> {
    seq(15, k requires 0 <= k < 15 => OverlapState(c.hash([b]), Payload(c, [b]), b, k))
  }

  function OverlapSteps(c: Codec, b: byte): seq<Step> {
    seq(14, k requires 0 <= k < 14 => OverlapStep(c.hash([b]), b, k))
  }

  /**
   * Without the hypothesis on sweeps a finished backup can be lost: no gap between two passes
   * protects a write that found its chunk just before the sweep removed it.
   */
  lemma OverlapLosesBackup(c: Codec, p: Params, b: byte)
    ensures var ss := OverlapStates(c, b);
            && Run(c, {[b]}, p, ss, OverlapSteps(c, b))
            && Enabled(p, ss[10], Bump(1)) && !Safe(c, p, ss[10], Bump(1))
            && ss[14].owners[1] == Owner([b], 0, 1, Live)
            && Restored(c, Still(ss[14].st.files, 1), [Ref(c.hash([b]), 0, 1)], 1) == None
    ensures RefsOf(c, Chunks(p, [b], 0)) == [Ref(c.hash([b]), 0, 1)]
  {
    OverlapIsRun(c, p, b);
    OverlapEnds(c, p, b);
    NothingToRestore(c, p, b);
    hide Chunks, OverlapStep, OverlapState, OverlapSteps, Run, Restored, Safe, Enabled;
  }

  lemma OverlapEnds(c: Codec, p: Params, b: byte)
    ensures var ss := OverlapStates(c, b);
            && Enabled(p, ss[10], Bump(1)) && !Safe(c, p, ss[10], Bump(1))
            && ss[14].owners[1] == Owner([b], 0, 1, Live) && ss[14].st.files == map[]
  {
    OneByteDisk(p, b);
    hide Chunks;
    var s := OverlapState(c.hash([b]), Payload(c, [b]), b, 10);
    assert Current(p, s.owners[1]) == [b];
  }

  lemma NothingToRestore(c: Codec, p: Params, b: byte)
    ensures RefsOf(c, Chunks(p, [b], 0)) == [Ref(c.hash([b]), 0, 1)]
    ensures Restored(c, Still(map[], 1), [Ref(c.hash([b]), 0, 1)], 1) == None
  {
    OneByteDisk(p, b);
    hide Chunks;
    var ps := [Piece(0, [b])];
    assert RefsOf(c, ps) == [Ref(c.hash([b]), 0, 1)];
    OneByteSort(c, b);
    AssembleNeedsFiles(c, map[], ps, Zeros(1), 0);
  }

  lemma OneByteSort(c: Codec, b: byte)
    ensures SortBy(Offset, [Ref(c.hash([b]), 0, 1)]) == [Ref(c.hash([b]), 0, 1)]
  {
    var refs := [Ref(c.hash([b]), 0, 1)];
    assert SortBy(Offset, refs[..0]) == [];
  }

  lemma OverlapIsRun(c: Codec, p: Params, b: byte)
    ensures Run(c, {[b]}, p, OverlapStates(c, b), OverlapSteps(c, b))
  {
    OneByteDisk(p, b);
    hide Chunks, OverlapStep, OverlapState, Next, Enabled;
    var ss, steps := OverlapStates(c, b), OverlapSteps(c, b);
    assert ss[0] == INIT by { FirstState(c, b); }
    forall k | 0 <= k < |steps|
      ensures Enabled(p, ss[k], steps[k]) && ss[k + 1] == Next(c, p, ss[k], steps[k])
      ensures steps[k].Begin? ==> PiecesIn(Chunks(p, steps[k].data, 0), {[b]})
    {
      if k < 7 { FirstBackup(c, p, b, k); } else { SecondBackup(c, p, b, k); }
    }
  }

  lemma FirstState(c: Codec, b: byte)
    ensures OverlapState(c.hash([b]), Payload(c, [b]), b, 0) == INIT
  {
  }

  lemma FirstBackup(c: Codec, p: Params, b: byte, k: nat)
    requires k < 7
    ensures var h, payload := c.hash([b]), Payload(c, [b]);
            var s, a := OverlapState(h, payload, b, k), OverlapStep(h, b, k);
            && Enabled(p, s, a) && OverlapState(h, payload, b, k + 1) == Next(c, p, s, a)
            && (a.Begin? ==> a.data == [b])
  {
    OneByteDisk(p, b);
    hide Chunks, Payload;
    match k
    case 0 => case 1 => case 2 => case 3 => case 4 => case 5 =>
    case 6 =>
      assert ZeroRefs(OverlapState(c.hash([b]), Payload(c, [b]), b, 6).st) == {c.hash([b])};
  }

  lemma SecondBackup(c: Codec, p: Params, b: byte, k: nat)
    requires 7 <= k < 14
    ensures var h, payload := c.hash([b]), Payload(c, [b]);
            var s, a := OverlapState(h, payload, b, k), OverlapStep(h, b, k);
            && Enabled(p, s, a) && OverlapState(h, payload, b, k + 1) == Next(c, p, s, a)
            && (a.Begin? ==> a.data == [b])
  {
    OneByteDisk(p, b);
    hide Chunks, Payload;
    match k
    case 7 => case 8 => case 9 =>
    case 10 =>
      var st := OverlapState(c.hash([b]), Payload(c, [b]), b, 10).st;
      assert Increment(st, c.hash([b])).index == map[c.hash([b]) := Row(1, |Payload(c, [b])|, 1)];
    case 11 =>
      assert {c.hash([b])} - {c.hash([b])} == {};
    case 12 => case 13 =>
  }
}
