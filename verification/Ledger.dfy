/** Bytes in the index and on disk, and how each store operation moves them. */
module Ledger {
  import opened Bytes
  import opened Codec
  import opened Chunker
  import opened ChunkerLaws
  import opened StoreSpec

  /** The sum of the values of a map. */
  ghost function Total(m: map<Hash, nat>): nat
    decreases |m|
  {
    if m == map[] then 0 else
      var h :| h in m;
      m[h] + Total(m - {h})
  }

  lemma {:induction false} TotalSplit(m: map<Hash, nat>, h: Hash)
    requires h in m
    ensures Total(m) == m[h] + Total(m - {h})
    decreases |m|
  {
    var k :| k in m && Total(m) == m[k] + Total(m - {k});
    if k != h {
      TotalSplit(m - {k}, h);
      TotalSplit(m - {h}, k);
      assert m - {k} - {h} == m - {h} - {k};
    }
  }

  lemma TotalInsert(m: map<Hash, nat>, h: Hash, v: nat)
    requires h !in m
    ensures Total(m[h := v]) == Total(m) + v
  {
    TotalSplit(m[h := v], h);
    assert m[h := v] - {h} == m;
  }

  function Only(m: map<Hash, nat>, hs: set<Hash>): map<Hash, nat> {
    map h | h in m && h in hs :: m[h]
  }

  lemma {:induction false} TotalParts(m: map<Hash, nat>, hs: set<Hash>)
    ensures Total(m) == Total(m - hs) + Total(Only(m, hs))
    decreases |hs|
  {
    if hs == {} {
      assert m - hs == m && Only(m, hs) == map[];
    } else {
      var h :| h in hs;
      TotalParts(m, hs - {h});
      if h in m {
        TotalSplit(m - (hs - {h}), h);
        TotalSplit(Only(m, hs), h);
        assert Only(m, hs) - {h} == Only(m, hs - {h});
        assert m - (hs - {h}) - {h} == m - hs;
      } else {
        assert Only(m, hs) == Only(m, hs - {h}) && m - hs == m - (hs - {h});
      }
    }
  }

  function RowSizes(st: Store): map<Hash, nat> {
    map h | h in st.index :: st.index[h].compressedBytes
  }

  function FileSizes(st: Store): map<Hash, nat> {
    map h | h in st.files :: |st.files[h]|
  }

  // What `stat` reports for each unreferenced chunk, 0 where there is no file.
  function GarbageSizes(st: Store, hs: set<Hash>): map<Hash, nat> {
    map h | h in hs :: if h in st.files then |st.files[h]| else 0
  }

  datatype SweepStats = SweepStats(eligible: nat, deleted: nat, freedBytes: nat)

  /** What a sweep of `st` reports, dry or not. */
  ghost function StatsOf(st: Store): SweepStats {
    SweepStats(|ZeroRefs(st)|, |ZeroRefs(st)|, Total(GarbageSizes(st, ZeroRefs(st))))
  }

  // The sizes of the files that no row knows.
  function OrphanSizes(st: Store): map<Hash, nat> {
    Only(FileSizes(st), Orphans(st))
  }

  /** The disk holds the bytes of the index and those of the orphans. */
  lemma DiskBytes(c: Codec, chunks: set<bytes>, st: Store, pins: multiset<Hash>)
    requires Consistent(c, chunks, st, pins)
    ensures Total(FileSizes(st)) == Total(RowSizes(st)) + Total(OrphanSizes(st))
  {
    TotalParts(FileSizes(st), Orphans(st));
    assert FileSizes(st) - Orphans(st) == RowSizes(st);
  }

  lemma {:induction false} TotalZero(m: map<Hash, nat>)
    ensures Total(m) == 0 <==> forall h :: h in m ==> m[h] == 0
    decreases |m|
  {
    if m != map[] {
      var k :| k in m && Total(m) == m[k] + Total(m - {k});
      TotalZero(m - {k});
      assert forall h :: h in m && h != k ==> h in m - {k} && (m - {k})[h] == m[h];
    }
  }

  // ---- files without a row ----

  lemma WriteChunkOrphans(c: Codec, st: Store, d: bytes)
    ensures Orphans(WriteChunk(c, st, d).0) == Orphans(st) - {c.hash(d)}
  {
  }

  /** Storing a chunk gives its file a row. */
  lemma {:induction false} StorePiecesOrphans(c: Codec, st: Store, ps: seq<Piece>)
    ensures Orphans(StorePieces(c, st, ps).0) == Orphans(st) - (set h | h in Hashes(c, ps))
  {
    if ps != [] {
      hide WriteChunk, Orphans;
      var k := |ps| - 1;
      StorePiecesOrphans(c, st, ps[..k]);
      WriteChunkOrphans(c, StorePieces(c, st, ps[..k]).0, ps[k].data);
      assert Hashes(c, ps) == Hashes(c, ps[..k]) + [c.hash(ps[k].data)];
    }
  }

  lemma PlaceFileOrphans(c: Codec, st: Store, d: bytes)
    ensures Orphans(PlaceFile(c, st, d)) == if c.hash(d) in st.index then Orphans(st) else Orphans(st) + {c.hash(d)}
  {
  }

  lemma {:induction false} DecrementAllOrphans(st: Store, hs: seq<Hash>)
    ensures Orphans(DecrementAll(st, hs)) == Orphans(st)
  {
    if hs != [] {
      DecrementAllOrphans(st, hs[..|hs| - 1]);
    }
  }

  /** A sweep goes by the index: it never removes a file that no row knows. */
  lemma SweptOrphans(st: Store)
    ensures Orphans(Swept(st)) == Orphans(st)
  {
  }

  // Whatever is on disk has at least one byte.
  ghost predicate FilesNotEmpty(st: Store) {
    forall h :: h in st.files ==> st.files[h] != []
  }

  lemma {:induction false} StorePiecesNotEmpty(c: Codec, chunks: set<bytes>, st: Store, ps: seq<Piece>)
    requires Lz4Inverse(c, chunks) && c.unlz4([]) == None && FilesNotEmpty(st)
    requires forall i :: 0 <= i < |ps| ==> ps[i].data in chunks && ps[i].data != []
    ensures FilesNotEmpty(StorePieces(c, st, ps).0)
  {
    if ps != [] {
      StorePiecesNotEmpty(c, chunks, st, ps[..|ps| - 1]);
      PayloadNotEmpty(c, chunks, ps[|ps| - 1].data);
    }
  }

  lemma PayloadNotEmpty(c: Codec, chunks: set<bytes>, d: bytes)
    requires Lz4Inverse(c, chunks) && c.unlz4([]) == None && d in chunks && d != []
    ensures Payload(c, d) != []
  {
  }

  /** What a backup reports as newly written is what the index grows by, and at most what it was given. */
  lemma {:induction false} StorePiecesBalance(c: Codec, st: Store, ps: seq<Piece>)
    ensures var (st', written) := StorePieces(c, st, ps);
            Total(RowSizes(st')) == Total(RowSizes(st)) + written && written <= Sum(ps)
  {
    if ps != [] {
      var k := |ps| - 1;
      StorePiecesBalance(c, st, ps[..k]);
      WriteChunkBalance(c, StorePieces(c, st, ps[..k]).0, ps[k].data);
    }
  }

  function Sum(ps: seq<Piece>): nat {
    if ps == [] then 0 else Sum(ps[..|ps| - 1]) + |ps[|ps| - 1].data|
  }

  lemma WriteChunkBalance(c: Codec, st: Store, d: bytes)
    ensures var (st', r) := WriteChunk(c, st, d);
            Total(RowSizes(st')) == Total(RowSizes(st)) + (if r.isNew then r.compressedBytes else 0)
  {
    var h := c.hash(d);
    var st' := WriteChunk(c, st, d).0;
    if h in st.index {
      assert RowSizes(st') == RowSizes(st);
    } else {
      TotalInsert(RowSizes(st), h, |Payload(c, d)|);
      assert RowSizes(st') == RowSizes(st)[h := |Payload(c, d)|];
    }
  }

  lemma {:induction false} DecrementAllBalance(st: Store, hs: seq<Hash>)
    ensures RowSizes(DecrementAll(st, hs)) == RowSizes(st)
    ensures DecrementAll(st, hs).files == st.files
  {
    if hs != [] {
      DecrementAllBalance(st, hs[..|hs| - 1]);
    }
  }

  // The store after a sweep has dealt with the chunks in `done`.
  function SweptOf(st: Store, done: set<Hash>): Store {
    Store(st.index - done, st.files - done)
  }

  // What is left of a chunk that the sweep has not reached.
  lemma NotYetSwept(st: Store, done: set<Hash>, h: Hash)
    requires h !in done
    ensures h in SweptOf(st, done).files <==> h in st.files
    ensures h in st.files ==> SweptOf(st, done).files[h] == st.files[h]
  {
  }

  lemma NothingSwept(st: Store)
    ensures SweptOf(st, {}) == st && Total(GarbageSizes(st, {})) == 0
  {
    assert st.index - {} == st.index && st.files - {} == st.files;
  }

  lemma AllSwept(st: Store)
    ensures SweptOf(st, ZeroRefs(st)) == Swept(st)
  {
  }

  lemma SweepOne(st: Store, done: set<Hash>, h: Hash)
    requires h in ZeroRefs(st) && h !in done
    ensures DeleteRow(Unlink(SweptOf(st, done), h), h) == SweptOf(st, done + {h})
    ensures Total(GarbageSizes(st, done + {h}))
         == Total(GarbageSizes(st, done)) + (if h in st.files then |st.files[h]| else 0)
  {
    var size := if h in st.files then |st.files[h]| else 0;
    TotalInsert(GarbageSizes(st, done), h, size);
    assert GarbageSizes(st, done + {h}) == GarbageSizes(st, done)[h := size];
    assert st.index - done - {h} == st.index - (done + {h});
    assert st.files - done - {h} == st.files - (done + {h});
  }

  /** What a sweep reports as freed is what the index shrinks by; a second sweep frees nothing. */
  lemma SweptBalance(c: Codec, chunks: set<bytes>, st: Store, pins: multiset<Hash>)
    requires Consistent(c, chunks, st, pins)
    ensures Total(RowSizes(Swept(st))) + StatsOf(st).freedBytes == Total(RowSizes(st))
    ensures StatsOf(Swept(st)) == SweepStats(0, 0, 0)
  {
    var zero := ZeroRefs(st);
    TotalParts(RowSizes(st), zero);
    SweptSizes(c, chunks, st, pins);
    SweptKeeps(c, chunks, st, pins);
    hide ZeroRefs, Swept, RowSizes, Consistent;
    assert GarbageSizes(Swept(st), {}) == map[];
  }

  lemma SweepCounts(st: Store)
    ensures |Swept(st).index| + |ZeroRefs(st)| == |st.index|
  {
    var zero, left := ZeroRefs(st), Swept(st).index.Keys;
    assert left == st.index.Keys - zero && zero <= st.index.Keys;
    assert left + zero == st.index.Keys && left * zero == {};
    assert |left + zero| == |left| + |zero|;
    assert |st.index.Keys| == |st.index| && |left| == |Swept(st).index|;
  }

  lemma FreedFiles(st: Store, zero: set<Hash>)
    ensures Total(FileSizes(Store(st.index, st.files - zero))) + Total(GarbageSizes(st, zero)) == Total(FileSizes(st))
  {
    var garbage := GarbageSizes(st, zero);
    TotalParts(FileSizes(st), zero);
    TotalParts(garbage, st.files.Keys);
    TotalZero(garbage - st.files.Keys);
    assert FileSizes(st) - zero == FileSizes(Store(st.index, st.files - zero));
    assert Only(garbage, st.files.Keys) == Only(FileSizes(st), zero);
    hide Total;
  }

  /** A sweep reports as many deletions as rows go, and as many bytes as the disk is relieved of, whatever the store. */
  lemma SweepReports(st: Store)
    ensures StatsOf(st).eligible == StatsOf(st).deleted == |set h | h in st.index && st.index[h].refCount == 0|
    ensures |Swept(st).index| + StatsOf(st).deleted == |st.index|
    ensures Total(FileSizes(Swept(st))) + StatsOf(st).freedBytes == Total(FileSizes(st))
  {
    SweepCounts(st);
    FreedFiles(st, ZeroRefs(st));
    assert FileSizes(Swept(st)) == FileSizes(Store(st.index, st.files - ZeroRefs(st)));
    hide Total, GarbageSizes, FileSizes;
  }

  lemma SweptSizes(c: Codec, chunks: set<bytes>, st: Store, pins: multiset<Hash>)
    requires Consistent(c, chunks, st, pins)
    ensures Only(RowSizes(st), ZeroRefs(st)) == GarbageSizes(st, ZeroRefs(st))
    ensures RowSizes(st) - ZeroRefs(st) == RowSizes(Swept(st))
  {
  }

  lemma {:induction false} SumCons(q: Piece, ps: seq<Piece>)
    ensures Sum([q] + ps) == |q.data| + Sum(ps)
  {
    var all := [q] + ps;
    if ps == [] {
      assert all[..0] == [];
    } else {
      SumCons(q, ps[..|ps| - 1]);
      assert all[..|all| - 1] == [q] + ps[..|ps| - 1];
    }
  }

  /** The chunk lengths of a disk add up to the disk. */
  lemma {:induction false} TilesSum(ps: seq<Piece>, d: bytes, at: nat)
    requires Tiles(ps, d, at)
    ensures Sum(ps) == |d|
    decreases |ps|
  {
    if ps != [] {
      var n := |ps[0].data|;
      TilesSum(ps[1..], d[n..], at + n);
      SumCons(ps[0], ps[1..]);
      assert [ps[0]] + ps[1..] == ps;
    }
  }

  /** A backup never writes more bytes than it was given. */
  lemma UniqueAtMostTotal(c: Codec, p: Params, st: Store, data: bytes)
    ensures var m := WriteDisk(c, p, st, data).1; m.uniqueBytes <= m.totalBytes == |data|
  {
    ChunksTile(p, data, 0);
    TilesSum(Chunks(p, data, 0), data, 0);
    StorePiecesBalance(c, st, Chunks(p, data, 0));
  }
}
