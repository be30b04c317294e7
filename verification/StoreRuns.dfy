/** Whole runs of backups, aborted backups, releases and sweeps that do not overlap in time. */
module StoreRuns {
  import opened Bytes
  import opened Codec
  import opened Slices
  import opened Chunker
  import opened ChunkerLaws
  import opened StoreSpec
  import opened Restore
  import opened Ledger
  import opened Owners
  import CS = ChunkStore

  /** `Abort` is a backup that raises; `Release` names a manifest by position. */
  datatype Op = Backup(data: bytes) | Abort(data: bytes, fault: Fault) | Release(i: nat) | Sweep(dryRun: bool)

  /** `written` sums what backups wrote, `freed` what real sweeps reported as freed. */
  datatype World = World(st: Store, owners: seq<Owner>, written: nat, freed: nat)

  const FRESH_WORLD := World(EMPTY_STORE, [], 0, 0)

  /** A manifest is released at most once. */
  predicate Enabled(p: Params, w: World, op: Op) {
    match op
    case Backup(_) => true
    case Abort(data, fault) => fault.stored <= |Chunks(p, data, 0)|
    case Release(i) => i < |w.owners| && w.owners[i].phase == Live
    case Sweep(_) => true
  }

  // A manifest all of whose references have been given back.
  function Released(p: Params, o: Owner): Owner {
    Owner(o.data, |Pieces(p, o)|, |Pieces(p, o)|, Releasing)
  }

  ghost function Do(c: Codec, p: Params, w: World, op: Op): World
    requires Enabled(p, w, op)
  {
    match op
    case Backup(data) =>
      var (st, m) := WriteDisk(c, p, w.st, data);
      World(st, w.owners + [Owner(data, 0, |m.refs|, Live)], w.written + m.uniqueBytes, w.freed)
    case Abort(data, fault) =>
      var (st, written) := AbortDisk(c, p, w.st, data, fault);
      World(st, w.owners + [Owner(data, 0, fault.stored, Dead)], w.written + written, w.freed)
    case Release(i) =>
      var refs := RefsOf(c, Pieces(p, w.owners[i]));
      w.(st := DecrementAll(w.st, CS.Shas(refs)),
         owners := w.owners[i := Released(p, w.owners[i])])
    case Sweep(dryRun) =>
      if dryRun then w else w.(st := Swept(w.st), freed := w.freed + StatsOf(w.st).freedBytes)
  }

  ghost predicate OpIn(p: Params, chunks: set<bytes>, op: Op) {
    (op.Backup? || op.Abort?) ==> PiecesIn(Chunks(p, op.data, 0), chunks)
  }

  /** `ws` are the worlds between the operations `ops`, each possible where it stands; all chunks are in `chunks`. */
  ghost predicate Run(c: Codec, chunks: set<bytes>, p: Params, ws: seq<World>, ops: seq<Op>) {
    && Sound(c, chunks)
    && |ws| == |ops| + 1
    && ws[0] == FRESH_WORLD
    && forall i :: 0 <= i < |ops| ==>
         OpIn(p, chunks, ops[i]) && Enabled(p, ws[i], ops[i]) && ws[i + 1] == Do(c, p, ws[i], ops[i])
  }

  ghost predicate Sane(c: Codec, chunks: set<bytes>, p: Params, w: World) {
    && Consistent(c, chunks, w.st, Claims(c, p, w.owners))
    && (forall i :: 0 <= i < |w.owners| ==> WellFormed(p, chunks, w.owners[i]))
    && w.written - w.freed == Total(RowSizes(w.st))
  }

  // A backup of which `k` chunks were stored, whether it finished or died.
  lemma DoBackup(c: Codec, chunks: set<bytes>, p: Params, w: World, o: Owner)
    requires Sound(c, chunks) && Sane(c, chunks, p, w)
    requires WellFormed(p, chunks, o) && o.lo == 0
    ensures var (st, written) := StorePieces(c, w.st, Pieces(p, o)[..o.hi]);
            Sane(c, chunks, p, World(st, w.owners + [o], w.written + written, w.freed))
  {
    hide Consistent, Total, StorePieces, Chunks, RowSizes;
    var ps := Pieces(p, o);
    StorePiecesKeeps(c, chunks, w.st, Claims(c, p, w.owners), ps[..o.hi]);
    StorePiecesBalance(c, w.st, ps[..o.hi]);
    assert Hashes(c, ps[..o.hi])[0..o.hi] == Hashes(c, ps)[0..o.hi];
    ClaimsAppend(c, p, w.owners, o);
  }

  // A file placed without its row changes neither counts nor index bytes.
  lemma DoAbort(c: Codec, chunks: set<bytes>, p: Params, w: World, data: bytes, fault: Fault)
    requires Sound(c, chunks) && Sane(c, chunks, p, w)
    requires fault.stored <= |Chunks(p, data, 0)| && PiecesIn(Chunks(p, data, 0), chunks)
    ensures Sane(c, chunks, p, Do(c, p, w, Abort(data, fault)))
  {
    hide Sane, StorePieces, Chunks, PlaceFile, Sound;
    var ps := Chunks(p, data, 0);
    var o := Owner(data, 0, fault.stored, Dead);
    DoBackup(c, chunks, p, w, o);
    var (st, written) := StorePieces(c, w.st, ps[..fault.stored]);
    if fault.placed && fault.stored < |ps| {
      PlacedStaysSane(c, chunks, p, World(st, w.owners + [o], w.written + written, w.freed), ps[fault.stored].data);
    }
  }

  lemma PlacedStaysSane(c: Codec, chunks: set<bytes>, p: Params, w: World, d: bytes)
    requires Sane(c, chunks, p, w)
    ensures Sane(c, chunks, p, w.(st := PlaceFile(c, w.st, d)))
  {
    PlaceFileKeeps(c, chunks, w.st, Claims(c, p, w.owners), d);
    assert RowSizes(PlaceFile(c, w.st, d)) == RowSizes(w.st);
    hide Consistent, Total, Claims, PlaceFile, WellFormed;
  }

  lemma ReleasedClaims(c: Codec, p: Params, os: seq<Owner>, i: nat)
    requires i < |os| && os[i].lo == 0 && os[i].hi == |Pieces(p, os[i])|
    ensures var hs := Hashes(c, Pieces(p, os[i]));
            Claim(c, p, os[i]) == multiset(hs)
            && Claims(c, p, os) == Claims(c, p, os[i := Released(p, os[i])]) + multiset(hs)
  {
    hide Claims, Chunks;
    var o, hs := os[i], Hashes(c, Pieces(p, os[i]));
    assert hs[0..|hs|] == hs;
    assert Claim(c, p, Released(p, o)) == multiset{};
    ClaimsUpdate(c, p, os, i, Released(p, o));
  }

  /** A release takes away exactly the claim of its manifest: the clamp at zero never acts. */
  lemma DoRelease(c: Codec, chunks: set<bytes>, p: Params, w: World, i: nat)
    requires Sane(c, chunks, p, w) && Enabled(p, w, Release(i))
    ensures Sane(c, chunks, p, Do(c, p, w, Release(i)))
    ensures forall h :: Count(Do(c, p, w, Release(i)).st, h) == Count(w.st, h) - Claim(c, p, w.owners[i])[h]
  {
    hide Consistent, Total, DecrementAll, Chunks, RowSizes, Count, Claim;
    var o := w.owners[i];
    var hs := Hashes(c, Pieces(p, o));
    CS.ShasOfRefs(c, Pieces(p, o));
    ReleasedClaims(c, p, w.owners, i);
    DecrementAllKeeps(c, chunks, w.st, Claims(c, p, w.owners[i := Released(p, o)]), hs);
    DecrementAllBalance(w.st, hs);
  }

  lemma DoKeepsSane(c: Codec, chunks: set<bytes>, p: Params, w: World, op: Op)
    requires Sound(c, chunks) && Sane(c, chunks, p, w) && Enabled(p, w, op) && OpIn(p, chunks, op)
    ensures Sane(c, chunks, p, Do(c, p, w, op))
  {
    hide Sane, Total, StorePieces, Chunks, RowSizes, Swept, DecrementAll;
    match op
    case Backup(data) =>
      var ps := Chunks(p, data, 0);
      TakeAll(ps);
      DoBackup(c, chunks, p, w, Owner(data, 0, |ps|, Live));
    case Abort(data, fault) =>
      DoAbort(c, chunks, p, w, data, fault);
    case Release(i) =>
      DoRelease(c, chunks, p, w, i);
    case Sweep(dryRun) =>
      DoSweep(c, chunks, p, w, dryRun);
  }

  lemma DoSweep(c: Codec, chunks: set<bytes>, p: Params, w: World, dryRun: bool)
    requires Sane(c, chunks, p, w)
    ensures Sane(c, chunks, p, Do(c, p, w, Sweep(dryRun)))
  {
    SweptKeeps(c, chunks, w.st, Claims(c, p, w.owners));
    SweptBalance(c, chunks, w.st, Claims(c, p, w.owners));
    hide Consistent, Total, RowSizes, Swept, Claims;
  }

  /** Every world of a run is sane. */
  lemma {:induction false} RunsStaySane(c: Codec, chunks: set<bytes>, p: Params, ws: seq<World>, ops: seq<Op>, k: nat)
    requires Run(c, chunks, p, ws, ops) && k <= |ops|
    ensures Sane(c, chunks, p, ws[k])
  {
    if k == 0 {
      assert RowSizes(EMPTY_STORE) == map[];
    } else {
      RunsStaySane(c, chunks, p, ws, ops, k - 1);
      DoKeepsSane(c, chunks, p, ws[k - 1], ops[k - 1]);
    }
  }

  /**
   * At every moment of a run, every manifest that was not released restores to exactly the bytes
   * that were backed up, whatever it shares with released ones and however its references are listed.
   */
  lemma LiveManifestsRestore(c: Codec, chunks: set<bytes>, p: Params, ws: seq<World>, ops: seq<Op>, k: nat, i: nat, refs: seq<Ref>)
    requires Run(c, chunks, p, ws, ops) && k <= |ops|
    requires i < |ws[k].owners| && ws[k].owners[i].phase == Live
    requires multiset(refs) == multiset(RefsOf(c, Pieces(p, ws[k].owners[i])))
    ensures Restored(c, Still(ws[k].st.files, |refs|), refs, |ws[k].owners[i].data|) == Some(ws[k].owners[i].data)
  {
    var w := ws[k];
    var ps := Pieces(p, w.owners[i]);
    RunsStaySane(c, chunks, p, ws, ops, k);
    assert |multiset(refs)| == |multiset(RefsOf(c, ps))|;
    forall j | 0 <= j < |ps|
      ensures Holds(c, w.st.files, ps[j].data)
    {
      ClaimsPiece(c, p, w.owners, i, j);
      PinnedIsHeld(c, chunks, w.st, Claims(c, p, w.owners), {}, ps[j].data);
    }
    RestoreAnyOrder(c, chunks, p, w.owners[i].data, refs, Still(w.st.files, |refs|));
  }

  /**
   * Reference counts are conserved: a count is never below the chunk's multiplicity over the
   * unreleased manifests, and equal to it when no backup of the run aborted.
   */
  lemma CountsConserved(c: Codec, chunks: set<bytes>, p: Params, ws: seq<World>, ops: seq<Op>, k: nat, h: Hash)
    requires Run(c, chunks, p, ws, ops) && k <= |ops|
    ensures Count(ws[k].st, h) >= LiveClaims(c, p, ws[k].owners)[h]
    ensures (forall i :: 0 <= i < k ==> !ops[i].Abort?) ==> Count(ws[k].st, h) == LiveClaims(c, p, ws[k].owners)[h]
  {
    RunsStaySane(c, chunks, p, ws, ops, k);
    LiveClaimsBound(c, p, ws[k].owners);
    if forall i :: 0 <= i < k ==> !ops[i].Abort? {
      NothingHalfDone(c, chunks, p, ws, ops, k);
    }
  }

  lemma {:induction false} NothingHalfDone(c: Codec, chunks: set<bytes>, p: Params, ws: seq<World>, ops: seq<Op>, k: nat)
    requires Run(c, chunks, p, ws, ops) && k <= |ops|
    requires forall i :: 0 <= i < k ==> !ops[i].Abort?
    ensures forall i :: 0 <= i < |ws[k].owners| ==> ws[k].owners[i].phase == Live || ws[k].owners[i].lo == ws[k].owners[i].hi
  {
    if k > 0 {
      NothingHalfDone(c, chunks, p, ws, ops, k - 1);
      assert ws[k - 1 + 1] == Do(c, p, ws[k - 1], ops[k - 1]);
    }
  }

  /**
   * Bytes reported as written, less bytes reported as freed, are the bytes in the index; the disk
   * holds these and the bytes of files without a row.
   */
  lemma BytesBalance(c: Codec, chunks: set<bytes>, p: Params, ws: seq<World>, ops: seq<Op>, k: nat)
    requires Run(c, chunks, p, ws, ops) && k <= |ops|
    ensures ws[k].written - ws[k].freed == Total(RowSizes(ws[k].st))
    ensures Total(FileSizes(ws[k].st)) == Total(RowSizes(ws[k].st)) + Total(OrphanSizes(ws[k].st))
  {
    RunsStaySane(c, chunks, p, ws, ops, k);
    DiskBytes(c, chunks, ws[k].st, Claims(c, p, ws[k].owners));
  }

  // ---- files without a row ----

  // `op` places the file of a chunk that has no row and raises before it has one.
  ghost predicate Strands(c: Codec, p: Params, w: World, op: Op, h: Hash) {
    op.Abort? && op.fault.placed &&
    var ps, n := Chunks(p, op.data, 0), op.fault.stored;
    n < |ps| && h == c.hash(ps[n].data) && h !in StorePieces(c, w.st, ps[..n]).0.index
  }

  // `op` counts a chunk with the hash `h`.
  predicate Stores(c: Codec, p: Params, op: Op, h: Hash) {
    match op
    case Backup(data) => h in Hashes(c, Chunks(p, data, 0))
    case Abort(data, fault) => var ps := Chunks(p, data, 0); fault.stored <= |ps| && h in Hashes(c, ps[..fault.stored])
    case _ => false
  }

  lemma DoOrphans(c: Codec, p: Params, w: World, op: Op, h: Hash)
    requires Enabled(p, w, op)
    ensures h in Orphans(Do(c, p, w, op).st)
            <==> Strands(c, p, w, op, h) || (h in Orphans(w.st) && !Stores(c, p, op, h))
  {
    match op
    case Backup(data) =>
      hide Chunks;
      StorePiecesOrphans(c, w.st, Chunks(p, data, 0));
    case Abort(data, fault) =>
      hide Chunks, StorePieces, Orphans, PlaceFile;
      var ps, n := Chunks(p, data, 0), fault.stored;
      StorePiecesOrphans(c, w.st, ps[..n]);
      if n < |ps| {
        PlaceFileOrphans(c, StorePieces(c, w.st, ps[..n]).0, ps[n].data);
      }
    case Release(i) =>
      hide Chunks;
      DecrementAllOrphans(w.st, CS.Shas(RefsOf(c, Pieces(p, w.owners[i]))));
    case Sweep(_) =>
      SweptOrphans(w.st);
  }

  // The `i`-th operation stranded the file of `h`, and none since has given it a row.
  ghost predicate StrandedBy(c: Codec, p: Params, ws: seq<World>, ops: seq<Op>, i: nat, k: nat, h: Hash)
    requires |ws| == |ops| + 1 && i < k <= |ops|
  {
    Strands(c, p, ws[i], ops[i], h) && forall j :: i < j < k ==> !Stores(c, p, ops[j], h)
  }

  /**
   * A file is on disk without a row exactly when some backup raised between placing it and
   * inserting its row, and no chunk with its hash has been stored since: sweeps never remove it.
   */
  lemma {:induction false} OrphansIff(c: Codec, chunks: set<bytes>, p: Params, ws: seq<World>, ops: seq<Op>, k: nat, h: Hash)
    requires Run(c, chunks, p, ws, ops) && k <= |ops|
    ensures h in Orphans(ws[k].st) <==> exists i :: 0 <= i < k && StrandedBy(c, p, ws, ops, i, k, h)
  {
    hide Strands, Stores, Orphans, Do, Sound, Enabled;
    if k == 0 {
      NoOrphans();
    } else {
      OrphansIff(c, chunks, p, ws, ops, k - 1, h);
      DoOrphans(c, p, ws[k - 1], ops[k - 1], h);
      assert ws[k - 1 + 1] == Do(c, p, ws[k - 1], ops[k - 1]);
      if Strands(c, p, ws[k - 1], ops[k - 1], h) {
        assert StrandedBy(c, p, ws, ops, k - 1, k, h);
      } else if h in Orphans(ws[k].st) {
        var i :| 0 <= i < k - 1 && StrandedBy(c, p, ws, ops, i, k - 1, h);
        assert StrandedBy(c, p, ws, ops, i, k, h);
      }
      forall i | 0 <= i < k && StrandedBy(c, p, ws, ops, i, k, h)
        ensures h in Orphans(ws[k].st)
      {
        assert i < k - 1 ==> StrandedBy(c, p, ws, ops, i, k - 1, h);
      }
    }
  }

  lemma NoOrphans()
    ensures Orphans(EMPTY_STORE) == {}
  {
  }

  lemma DoNotEmpty(c: Codec, chunks: set<bytes>, p: Params, w: World, op: Op)
    requires Sound(c, chunks) && c.unlz4([]) == None && FilesNotEmpty(w.st)
    requires Enabled(p, w, op) && OpIn(p, chunks, op)
    ensures FilesNotEmpty(Do(c, p, w, op).st)
  {
    if op.Backup? || op.Abort? {
      ChunksNotEmpty(p, op.data);
    }
    hide Chunks;
    match op
    case Backup(data) =>
      StorePiecesNotEmpty(c, chunks, w.st, Chunks(p, data, 0));
    case Abort(data, fault) =>
      var ps, n := Chunks(p, data, 0), fault.stored;
      StorePiecesNotEmpty(c, chunks, w.st, ps[..n]);
      if n < |ps| {
        PayloadNotEmpty(c, chunks, ps[n].data);
      }
    case Release(i) =>
      DecrementAllBalance(w.st, CS.Shas(RefsOf(c, Pieces(p, w.owners[i]))));
    case Sweep(_) =>
  }

  lemma ChunksNotEmpty(p: Params, data: bytes)
    ensures forall i :: 0 <= i < |Chunks(p, data, 0)| ==> Chunks(p, data, 0)[i].data != []
  {
    ChunksTile(p, data, 0);
    forall i | 0 <= i < |Chunks(p, data, 0)|
      ensures Chunks(p, data, 0)[i].data != []
    {
      TileNotEmpty(Chunks(p, data, 0), data, 0, i);
    }
  }

  lemma {:induction false} RunsNotEmpty(c: Codec, chunks: set<bytes>, p: Params, ws: seq<World>, ops: seq<Op>, k: nat)
    requires Run(c, chunks, p, ws, ops) && k <= |ops| && c.unlz4([]) == None
    ensures FilesNotEmpty(ws[k].st)
  {
    if k > 0 {
      hide Do, Sound, OpIn, Enabled;
      RunsNotEmpty(c, chunks, p, ws, ops, k - 1);
      DoNotEmpty(c, chunks, p, ws[k - 1], ops[k - 1]);
      assert ws[k - 1 + 1] == Do(c, p, ws[k - 1], ops[k - 1]);
    }
  }

  /**
   * The index and the disk hold the same number of bytes exactly when no file has been left
   * without its row.  (The empty string is not a frame, so no stored payload is empty.)
   */
  lemma DiskAgreesIff(c: Codec, chunks: set<bytes>, p: Params, ws: seq<World>, ops: seq<Op>, k: nat)
    requires Run(c, chunks, p, ws, ops) && k <= |ops| && c.unlz4([]) == None
    ensures Total(FileSizes(ws[k].st)) == Total(RowSizes(ws[k].st))
            <==> forall h, i :: 0 <= i < k ==> !StrandedBy(c, p, ws, ops, i, k, h)
  {
    BytesBalance(c, chunks, p, ws, ops, k);
    RunsNotEmpty(c, chunks, p, ws, ops, k);
    TotalZero(OrphanSizes(ws[k].st));
    OrphansWeigh(ws[k].st);
    hide StrandedBy, Total, Orphans, OrphanSizes, Do, Sound, FilesNotEmpty, FileSizes, RowSizes;
    if h :| h in Orphans(ws[k].st) {
      OrphansIff(c, chunks, p, ws, ops, k, h);
    }
    forall h, i | 0 <= i < k && StrandedBy(c, p, ws, ops, i, k, h)
      ensures h in Orphans(ws[k].st)
    {
      OrphansIff(c, chunks, p, ws, ops, k, h);
    }
  }

  lemma OrphansWeigh(st: Store)
    requires FilesNotEmpty(st)
    ensures (forall h :: h in OrphanSizes(st) ==> OrphanSizes(st)[h] == 0) <==> forall h :: h !in Orphans(st)
  {
    if h :| h in Orphans(st) {
      assert h in OrphanSizes(st) && OrphanSizes(st)[h] > 0;
    }
  }

  /**
   * After a real sweep exactly the chunks that some holder still references are left in the index,
   * the disk holds their files and those that no row knew before, and the next sweep, dry or real,
   * would report nothing.
   */
  lemma SweepLeavesOnlyReferenced(c: Codec, chunks: set<bytes>, p: Params, ws: seq<World>, ops: seq<Op>, k: nat)
    requires Run(c, chunks, p, ws, ops) && k < |ops| && ops[k] == Sweep(false)
    ensures forall h :: h in ws[k + 1].st.index <==> h in Claims(c, p, ws[k].owners)
    ensures ws[k + 1].st.files.Keys == ws[k + 1].st.index.Keys + Orphans(ws[k].st)
    ensures Orphans(ws[k + 1].st) == Orphans(ws[k].st)
    ensures StatsOf(ws[k + 1].st) == SweepStats(0, 0, 0)
  {
    RunsStaySane(c, chunks, p, ws, ops, k);
    SweptKeeps(c, chunks, ws[k].st, Claims(c, p, ws[k].owners));
    SweptOrphans(ws[k].st);
    SweptBalance(c, chunks, ws[k].st, Claims(c, p, ws[k].owners));
  }
}
