/** What deduplication promises: repeated content costs references, not bytes. */
module Dedup {
  import opened Bytes
  import opened Codec
  import opened Chunker
  import opened ChunkerLaws
  import opened StoreSpec
  import opened Owners
  import SR = StoreRuns

  /** Storing pieces adds one reference for each, whatever the store held before. */
  lemma {:induction false} CountsGrow(c: Codec, st: Store, ps: seq<Piece>, h: Hash)
    ensures Count(StorePieces(c, st, ps).0, h) == Count(st, h) + multiset(Hashes(c, ps))[h]
  {
    if ps != [] {
      var k := |ps| - 1;
      CountsGrow(c, st, ps[..k], h);
      assert Hashes(c, ps) == Hashes(c, ps[..k]) + [c.hash(ps[k].data)];
    }
  }

  ghost predicate AllIndexed(c: Codec, st: Store, ps: seq<Piece>) {
    forall i :: 0 <= i < |ps| ==> c.hash(ps[i].data) in st.index
  }

  /** Pieces that the index knows are stored without writing a byte. */
  lemma {:induction false} KnownPiecesAreFree(c: Codec, st: Store, ps: seq<Piece>)
    requires AllIndexed(c, st, ps)
    ensures var (st', written) := StorePieces(c, st, ps);
            written == 0 && st'.files == st.files && st'.index.Keys == st.index.Keys
  {
    if ps != [] {
      KnownPiecesAreFree(c, st, ps[..|ps| - 1]);
    }
  }

  lemma {:induction false} StoredIsIndexed(c: Codec, st: Store, ps: seq<Piece>)
    ensures AllIndexed(c, StorePieces(c, st, ps).0, ps)
    ensures st.index.Keys <= StorePieces(c, st, ps).0.index.Keys
  {
    if ps != [] {
      StoredIsIndexed(c, st, ps[..|ps| - 1]);
    }
  }

  /**
   * Whatever was backed up, aborted, released and swept before: backing up data of a manifest
   * that is still there writes nothing, touches no file and only raises counts.
   */
  lemma LiveDataIsFree(c: Codec, chunks: set<bytes>, p: Params, ws: seq<SR.World>, ops: seq<SR.Op>, k: nat, i: nat, h: Hash)
    requires SR.Run(c, chunks, p, ws, ops) && k <= |ops|
    requires i < |ws[k].owners| && ws[k].owners[i].phase == Live
    ensures var st, data := ws[k].st, ws[k].owners[i].data;
            var (st', m) := WriteDisk(c, p, st, data);
            && m.uniqueBytes == 0 && m.totalBytes == |data|
            && st'.files == st.files && st'.index.Keys == st.index.Keys
            && Count(st', h) == Count(st, h) + multiset(Hashes(c, Chunks(p, data, 0)))[h]
  {
    hide Chunks, StorePieces;
    var w := ws[k];
    var ps := Pieces(p, w.owners[i]);
    SR.RunsStaySane(c, chunks, p, ws, ops, k);
    forall j | 0 <= j < |ps|
      ensures c.hash(ps[j].data) in w.st.index
    {
      ClaimsPiece(c, p, w.owners, i, j);
      assert Count(w.st, c.hash(ps[j].data)) > 0;
    }
    KnownPiecesAreFree(c, w.st, ps);
    CountsGrow(c, w.st, ps, h);
  }

  lemma {:induction false} StorePiecesAppend(c: Codec, st: Store, ps: seq<Piece>, qs: seq<Piece>)
    ensures var (st1, w1) := StorePieces(c, st, ps);
            var (st2, w2) := StorePieces(c, st1, qs);
            StorePieces(c, st, ps + qs) == (st2, w1 + w2)
  {
    if qs == [] {
      assert ps + qs == ps;
    } else {
      var k := |qs| - 1;
      StorePiecesAppend(c, st, ps, qs[..k]);
      assert (ps + qs)[..|ps| + k] == ps + qs[..k];
    }
  }

  // Every chunk of a repeated block is a chunk of the block.
  lemma {:induction false} RepeatedChunks(p: Params, block: bytes, k: nat, at: nat, i: nat)
    requires EndsOnCut(p, block) && i < |Chunks(p, Repeat(block, k), at)|
    ensures exists j :: 0 <= j < |Chunks(p, block, 0)| && Chunks(p, block, 0)[j].data == Chunks(p, Repeat(block, k), at)[i].data
  {
    hide EndsOnCut, Chunks;
    if k == 0 {
      assert Chunks(p, [], at) == [] by { NoChunks(p, at); }
    } else {
      ChunksAppendClosed(p, block, Repeat(block, k - 1), at);
      ChunksShift(p, block, 0, at);
      var n := |Chunks(p, block, at)|;
      if i < n {
        assert Chunks(p, block, 0)[i].data == Chunks(p, block, at)[i].data;
      } else {
        RepeatedChunks(p, block, k - 1, at + |block|, i - n);
      }
    }
  }

  lemma NoChunks(p: Params, at: nat)
    ensures Chunks(p, [], at) == []
  {
  }

  /** Any number of copies of a block that ends on a cut cost what one copy costs. */
  lemma CopiesCostOne(c: Codec, p: Params, st: Store, block: bytes, k: nat)
    requires EndsOnCut(p, block) && k > 0
    ensures WriteDisk(c, p, st, Repeat(block, k)).1.uniqueBytes == WriteDisk(c, p, st, block).1.uniqueBytes
    ensures WriteDisk(c, p, st, Repeat(block, k)).0.files == WriteDisk(c, p, st, block).0.files
  {
    hide EndsOnCut, Chunks, StorePieces;
    var ps, qs := Chunks(p, block, 0), Chunks(p, Repeat(block, k - 1), |block|);
    var once := StorePieces(c, st, ps).0;
    ChunksAppendClosed(p, block, Repeat(block, k - 1), 0);
    StorePiecesAppend(c, st, ps, qs);
    StoredIsIndexed(c, st, ps);
    forall i | 0 <= i < |qs|
      ensures c.hash(qs[i].data) in once.index
    {
      RepeatedChunks(p, block, k - 1, |block|, i);
    }
    KnownPiecesAreFree(c, once, qs);
  }

  // What storing `d` would write now.
  function Cost(c: Codec, st: Store, d: bytes): nat {
    if c.hash(d) in st.index then 0 else |d|
  }

  // Pieces with at most two contents cost at most those two, in bytes and in files.
  lemma {:induction false} TwoContentsCost(c: Codec, st: Store, ps: seq<Piece>, x: bytes, y: bytes)
    requires forall i :: 0 <= i < |ps| ==> ps[i].data == x || ps[i].data == y
    ensures var (st', written) := StorePieces(c, st, ps);
            && written + Cost(c, st', x) + Cost(c, st', y) <= Cost(c, st, x) + Cost(c, st, y)
            && st'.files.Keys <= st.files.Keys + {c.hash(x), c.hash(y)}
  {
    if ps != [] {
      TwoContentsCost(c, st, ps[..|ps| - 1], x, y);
    }
  }

  /** A disk of one repeated byte, of any size, writes at most two chunks: two files, and no more bytes than two chunks have. */
  lemma UniformDiskCost(c: Codec, p: Params, st: Store, b: byte, n: nat)
    ensures var (st', m) := WriteDisk(c, p, st, Fill(b, n));
            && m.uniqueBytes <= 2 * p.Hi()
            && |st'.files.Keys - st.files.Keys| <= 2
  {
    var ps := Chunks(p, Fill(b, n), 0);
    var st' := StorePieces(c, st, ps).0;
    if ps == [] {
      assert StorePieces(c, st, ps) == (st, 0);
      AtMostTwo(st'.files.Keys - st.files.Keys, "", "");
    } else {
      var last := ps[|ps| - 1].data;
      var size := FirstCut(p, Fill(b, n), 0);
      UniformDiskChunks(p, b, n, n, 0);
      ChunkSizes(p, Fill(b, n), 0);
      forall i | 0 <= i < |ps|
        ensures ps[i].data == ps[0].data || ps[i].data == last
      {
        if i < |ps| - 1 {
          assert ps[i].data == Fill(b, size) && ps[0].data == Fill(b, size);
        }
      }
      TwoContentsCost(c, st, ps, ps[0].data, last);
      assert |ps[0].data| <= p.Hi() && |last| <= p.Hi();
      AtMostTwo(st'.files.Keys - st.files.Keys, c.hash(ps[0].data), c.hash(last));
    }
  }

  lemma AtMostTwo(s: set<Hash>, x: Hash, y: Hash)
    requires s <= {x, y}
    ensures |s| <= 2
  {
    assert {x, y} == s + ({x, y} - s);
  }
}
