/** The chunk store as the program writes it: an index and a directory, changed in place. */
module ChunkStore {
  import opened Bytes
  import opened Codec
  import opened Fingerprint
  import opened Chunker
  import opened Slices
  import opened Sorting
  import opened StoreSpec
  import opened Restore
  import opened Ledger

  class ChunkStore {
    const codec: Codec
    const params: Params
    var index: map<Hash, Row>
    var files: map<Hash, bytes>

    constructor (codec: Codec, params: Params)
      ensures this.codec == codec && this.params == params
      ensures Contents() == EMPTY_STORE
    {
      this.codec, this.params := codec, params;
      index, files := map[], map[];
    }

    ghost function Contents(): Store
      reads this
    {
      Store(index, files)
    }

    // ---- the statements ----

    method DbGetChunk(sha: Hash) returns (row: Option<Row>)
      ensures row == if sha in index then Some(index[sha]) else None
    {
      if sha in index {
        return Some(index[sha]);
      }
      return None;
    }

    method DbIncrementRef(sha: Hash)
      modifies this
      ensures Contents() == Increment(old(Contents()), sha)
    {
      if sha in index {
        var row := index[sha];
        index := index[sha := row.(refCount := row.refCount + 1)];
      }
    }

    method DbInsertChunk(sha: Hash, sizeBytes: nat, compressedBytes: nat)
      modifies this
      ensures Contents() == InsertRow(old(Contents()), sha, sizeBytes, compressedBytes)
      ensures Count(Contents(), sha) == Count(old(Contents()), sha) + 1
      ensures index.Keys == old(index.Keys) + {sha} && index - {sha} == old(index) - {sha} && files == old(files)
      ensures if sha in old(index)
              then index[sha].sizeBytes == old(index)[sha].sizeBytes && index[sha].compressedBytes == old(index)[sha].compressedBytes
              else index[sha].sizeBytes == sizeBytes && index[sha].compressedBytes == compressedBytes
    {
      if sha in index {
        DbIncrementRef(sha);
      } else {
        index := index[sha := Row(sizeBytes, compressedBytes, 1)];
      }
    }

    method DbDecrementRef(sha: Hash)
      modifies this
      ensures Contents() == Decrement(old(Contents()), sha)
      ensures Count(Contents(), sha) == if Count(old(Contents()), sha) == 0 then 0 else Count(old(Contents()), sha) - 1
      ensures index.Keys == old(index.Keys) && index - {sha} == old(index) - {sha} && files == old(files)
      ensures sha in index ==>
                index[sha].sizeBytes == old(index)[sha].sizeBytes && index[sha].compressedBytes == old(index)[sha].compressedBytes
    {
      if sha in index {
        var row := index[sha];
        var lowered := row.refCount - 1;
        index := index[sha := row.(refCount := if lowered < 0 then 0 else lowered)];
      }
    }

    method DbDeleteChunk(sha: Hash)
      modifies this
      ensures Contents() == DeleteRow(old(Contents()), sha)
    {
      if sha in index && index[sha].refCount == 0 {
        index := index - {sha};
      }
    }

    // The rows come in no particular order.
    method DbGetZeroRefChunks() returns (rows: seq<Hash>)
      ensures forall h :: h in rows <==> h in ZeroRefs(Contents())
      ensures forall i, j :: 0 <= i < j < |rows| ==> rows[i] != rows[j]
      ensures |rows| == |ZeroRefs(Contents())|
    {
      var left := set h | h in index && index[h].refCount == 0;
      rows := [];
      while left != {}
        invariant left <= ZeroRefs(Contents())
        invariant forall h :: h in rows <==> h in ZeroRefs(Contents()) && h !in left
        invariant forall i, j :: 0 <= i < j < |rows| ==> rows[i] != rows[j]
        invariant |rows| + |left| == |ZeroRefs(Contents())|
        decreases left
      {
        var h :| h in left;
        rows := rows + [h];
        left := left - {h};
      }
    }

    // ---- write path ----

    /** A known chunk gets one more reference; a new one gets a file, compressed if that is shorter, and a row. */
    method WriteChunk(data: bytes) returns (r: WriteResult)
      modifies this
      ensures (Contents(), r) == StoreSpec.WriteChunk(codec, old(Contents()), data)
      ensures r.sha == codec.hash(data) && r.sizeBytes == |data| && (r.isNew <==> codec.hash(data) !in old(index))
      ensures !r.isNew ==>
                var row := old(index)[r.sha];
                && r.compressedBytes == row.compressedBytes
                && index == old(index)[r.sha := Row(row.sizeBytes, row.compressedBytes, row.refCount + 1)] && files == old(files)
      ensures r.isNew ==>
                var frame := codec.lz4(data);
                var stored := if codec.enabled && |frame| < |data| then frame else data;
                && r.compressedBytes == |stored|
                && index == old(index)[r.sha := Row(|data|, |stored|, 1)] && files == old(files)[r.sha := stored]
    {
      var sha := codec.hash(data);
      var existing := DbGetChunk(sha);
      if existing.Some? {
        DbIncrementRef(sha);
        return WriteResult(sha, |data|, existing.value.compressedBytes, false);
      }
      var payload := Payload(codec, data);
      files := files[sha := payload];
      DbInsertChunk(sha, |data|, |payload|);
      return WriteResult(sha, |data|, |payload|, true);
    }

    // A chunk write whose insert raises: at most the file is there.
    method WriteChunkFails(data: bytes, placed: bool)
      modifies this
      ensures Contents() == if placed then PlaceFile(codec, old(Contents()), data) else old(Contents())
    {
      var sha := codec.hash(data);
      var existing := DbGetChunk(sha);
      if existing.None? && placed {
        files := files[sha := Payload(codec, data)];
      }
    }

    /** `fault` is the exception that the database or the disk will raise, if any; then there is no manifest. */
    method WriteDisk(data: bytes, fault: Option<Fault>, out: array<bv64>) returns (m: Option<Manifest>)
      requires TableReady(out)
      modifies this
      ensures Strikes(params, data, fault) ==>
                m == None && Contents() == AbortDisk(codec, params, old(Contents()), data, fault.value).0
      ensures !Strikes(params, data, fault) ==>
                m.Some? && (Contents(), m.value) == StoreSpec.WriteDisk(codec, params, old(Contents()), data)
    {
      var chunkRefs: seq<Ref>, totalWritten: nat := [], 0;
      var pieces := RabinCdcChunks(data, params, out);
      hide Chunks, StoredSoFar, StoreSpec.WriteChunk, PlaceFile, TableReady;
      NoPieces(codec, Contents(), pieces);
      for i := 0 to |pieces|
        invariant StoredSoFar(codec, old(Contents()), pieces[..i], Contents(), totalWritten, chunkRefs)
        invariant fault.Some? ==> i <= fault.value.stored
      {
        if fault.Some? && fault.value.stored == i {
          AllStored(codec, old(Contents()), pieces[..i], Contents(), totalWritten, chunkRefs);
          WriteChunkFails(pieces[i].data, fault.value.placed);
          return None;
        }
        OneMorePiece(codec, old(Contents()), pieces, i, Contents(), totalWritten, chunkRefs);
        var result := WriteChunk(pieces[i].data);
        chunkRefs := chunkRefs + [Ref(result.sha, pieces[i].offset, result.sizeBytes)];
        if result.isNew {
          totalWritten := totalWritten + result.compressedBytes;
        }
      }
      TakeAll(pieces);
      AllStored(codec, old(Contents()), pieces, Contents(), totalWritten, chunkRefs);
      return Some(Manifest(chunkRefs, |data|, totalWritten));
    }

    // ---- read path ----

    method ReadManifest(m: Manifest) returns (data: Option<bytes>)
      ensures data == Restored(codec, Still(files, |m.refs|), m.refs, m.totalBytes)
    {
      var sorted := SortBy(Offset, m.refs);
      SortBySorts(Offset, m.refs);
      ghost var at := Still(files, |m.refs|);
      var result := Zeros(m.totalBytes);
      for i := 0 to |sorted|
        invariant Assemble(codec, at, sorted, Zeros(m.totalBytes)) == Assemble(codec, at[i..], sorted[i..], result)
      {
        var ref := sorted[i];
        assert at[i..][1..] == at[i + 1..] && sorted[i..][1..] == sorted[i + 1..];
        if ref.sha !in files {
          return None;
        }
        result := PyPatch(result, ref.offset, Decompress(codec, files[ref.sha]));
      }
      return Some(result);
    }

    // ---- garbage collection ----

    /** A sweep that nothing interrupts: what goes, what stays, and what is reported. */
    method Gc(dryRun: bool) returns (stats: SweepStats)
      modifies this
      ensures Contents() == if dryRun then old(Contents()) else Swept(old(Contents()))
      ensures stats == StatsOf(old(Contents()))
      ensures stats.eligible == stats.deleted == |set h | h in old(index) && old(index)[h].refCount == 0|
      ensures !dryRun ==> |index| + stats.deleted == |old(index)|
      ensures !dryRun ==> Total(FileSizes(Contents())) + stats.freedBytes == Total(FileSizes(old(Contents())))
      ensures dryRun ==> index == old(index) && files == old(files)
    {
      SweepReports(Contents());
      hide ZeroRefs, SweptOf, Swept, GarbageSizes, FileSizes, Total, DeleteRow, Unlink;
      var eligible := DbGetZeroRefChunks();
      NothingSwept(Contents());
      AllSwept(Contents());
      var deleted, freedBytes := 0, 0;
      ghost var before := Contents();
      ghost var done: set<Hash> := {};
      for i := 0 to |eligible|
        invariant forall h :: h in done <==> h in eligible[..i]
        invariant Contents() == if dryRun then before else SweptOf(before, done)
        invariant deleted == i && freedBytes == Total(GarbageSizes(before, done))
      {
        var sha := eligible[i];
        assert eligible[..i + 1] == eligible[..i] + [sha];
        SweepOne(before, done, sha);
        NotYetSwept(before, done, sha);
        done := done + {sha};
        var size := if sha in files then |files[sha]| else 0;
        if !dryRun {
          UnlinkIs(Contents(), sha);
          files := files - {sha};
          DbDeleteChunk(sha);
        }
        deleted := deleted + 1;
        freedBytes := freedBytes + size;
      }
      assert eligible[..|eligible|] == eligible;
      assert done == ZeroRefs(before);
      return SweepStats(|eligible|, deleted, freedBytes);
    }

    method DecrementRefs(chunkRefs: seq<Ref>)
      modifies this
      ensures Contents() == DecrementAll(old(Contents()), Shas(chunkRefs))
    {
      for i := 0 to |chunkRefs|
        invariant Contents() == DecrementAll(old(Contents()), Shas(chunkRefs[..i]))
      {
        DbDecrementRef(chunkRefs[i].sha);
        assert Shas(chunkRefs[..i + 1]) == Shas(chunkRefs[..i]) + [chunkRefs[i].sha];
      }
      assert chunkRefs[..|chunkRefs|] == chunkRefs;
    }
  }

  lemma UnlinkIs(st: Store, h: Hash)
    ensures Unlink(st, h) == Store(st.index, st.files - {h})
  {
  }

  // Where the loop of `write_disk` stands once it has stored `ps`.
  ghost predicate StoredSoFar(c: Codec, st0: Store, ps: seq<Piece>, st: Store, written: nat, refs: seq<Ref>) {
    (st, written) == StorePieces(c, st0, ps) && refs == RefsOf(c, ps)
  }

  lemma NoPieces(c: Codec, st: Store, ps: seq<Piece>)
    ensures StoredSoFar(c, st, ps[..0], st, 0, [])
  {
  }

  lemma AllStored(c: Codec, st0: Store, ps: seq<Piece>, st: Store, written: nat, refs: seq<Ref>)
    requires StoredSoFar(c, st0, ps, st, written, refs)
    ensures (st, written) == StorePieces(c, st0, ps) && refs == RefsOf(c, ps)
  {
  }

  // What the loop does with piece `i`.
  lemma OneMorePiece(c: Codec, st0: Store, ps: seq<Piece>, i: nat, st: Store, written: nat, refs: seq<Ref>)
    requires i < |ps| && StoredSoFar(c, st0, ps[..i], st, written, refs)
    ensures var (st2, r) := StoreSpec.WriteChunk(c, st, ps[i].data);
            StoredSoFar(c, st0, ps[..i + 1], st2, if r.isNew then written + r.compressedBytes else written,
                        refs + [Ref(r.sha, ps[i].offset, r.sizeBytes)])
  {
    TakeOneMore(ps, i);
    assert RefsOf(c, ps[..i + 1]) == RefsOf(c, ps[..i]) + [RefOf(c, ps[i])];
  }

  function Shas(refs: seq<Ref>): (hs: seq<Hash>)
    ensures |hs| == |refs|
  {
    seq(|refs|, i requires 0 <= i < |refs| => refs[i].sha)
  }

  /** The digests of a manifest's references are the digests of its chunks. */
  lemma ShasOfRefs(c: Codec, ps: seq<Piece>)
    ensures Shas(RefsOf(c, ps)) == Hashes(c, ps)
  {
  }
}
