/** The chunk index and the chunk files as values, one function per SQL statement or file call. */
module StoreSpec {
  import opened Bytes
  import opened Codec
  import opened Chunker

  datatype Row = Row(sizeBytes: nat, compressedBytes: nat, refCount: nat)
  datatype Store = Store(index: map<Hash, Row>, files: map<Hash, bytes>)
  datatype Ref = Ref(sha: Hash, offset: nat, length: nat)
  datatype WriteResult = WriteResult(sha: Hash, sizeBytes: nat, compressedBytes: nat, isNew: bool)
  datatype Manifest = Manifest(refs: seq<Ref>, totalBytes: nat, uniqueBytes: nat)

  /** A backup raises after `stored` chunks; `placed`: the file of the next chunk was already renamed into place. */
  datatype Fault = Fault(stored: nat, placed: bool)

  const EMPTY_STORE := Store(map[], map[])

  // ---- the statements ----

  function Increment(st: Store, h: Hash): Store {
    if h in st.index then st.(index := st.index[h := st.index[h].(refCount := st.index[h].refCount + 1)]) else st
  }

  // INSERT ... ON CONFLICT DO UPDATE SET ref_count = ref_count + 1
  function InsertRow(st: Store, h: Hash, size: nat, compressed: nat): Store {
    if h in st.index then Increment(st, h) else st.(index := st.index[h := Row(size, compressed, 1)])
  }

  // SET ref_count = GREATEST(0, ref_count - 1)
  function Decrement(st: Store, h: Hash): Store {
    if h !in st.index then st else
      var row := st.index[h];
      st.(index := st.index[h := row.(refCount := if row.refCount == 0 then 0 else row.refCount - 1)])
  }

  // DELETE ... AND ref_count = 0
  function DeleteRow(st: Store, h: Hash): Store {
    if h in st.index && st.index[h].refCount == 0 then st.(index := st.index - {h}) else st
  }

  function WriteFile(st: Store, h: Hash, payload: bytes): Store {
    st.(files := st.files[h := payload])
  }

  function Unlink(st: Store, h: Hash): Store {
    st.(files := st.files - {h})
  }

  function ZeroRefs(st: Store): set<Hash> {
    set h | h in st.index && st.index[h].refCount == 0
  }

  // ---- whole calls, run alone ----

  function WriteChunk(c: Codec, st: Store, d: bytes): (Store, WriteResult) {
    var h := c.hash(d);
    if h in st.index then
      (Increment(st, h), WriteResult(h, |d|, st.index[h].compressedBytes, false))
    else
      var payload := Payload(c, d);
      (InsertRow(WriteFile(st, h, payload), h, |d|, |payload|), WriteResult(h, |d|, |payload|, true))
  }

  /** The state and the bytes newly written after the pieces `ps` have been stored in order. */
  function StorePieces(c: Codec, st: Store, ps: seq<Piece>): (Store, nat) {
    if ps == [] then (st, 0) else
      var (st1, written) := StorePieces(c, st, ps[..|ps| - 1]);
      var (st2, r) := WriteChunk(c, st1, ps[|ps| - 1].data);
      (st2, if r.isNew then written + r.compressedBytes else written)
  }

  function RefOf(c: Codec, p: Piece): Ref {
    Ref(c.hash(p.data), p.offset, |p.data|)
  }

  function RefsOf(c: Codec, ps: seq<Piece>): (refs: seq<Ref>)
    ensures |refs| == |ps|
  {
    seq(|ps|, i requires 0 <= i < |ps| => RefOf(c, ps[i]))
  }

  function WriteDisk(c: Codec, p: Params, st: Store, data: bytes): (Store, Manifest) {
    var ps := Chunks(p, data, 0);
    var (st', written) := StorePieces(c, st, ps);
    (st', Manifest(RefsOf(c, ps), |data|, written))
  }

  // The fault strikes while `data` is being stored.
  predicate Strikes(p: Params, data: bytes, fault: Option<Fault>) {
    fault.Some? && fault.value.stored < |Chunks(p, data, 0)|
  }

  // A chunk write that raises between its file and its row; after a hit there is no file to write.
  function PlaceFile(c: Codec, st: Store, d: bytes): Store {
    if c.hash(d) in st.index then st else WriteFile(st, c.hash(d), Payload(c, d))
  }

  /** What a backup that raises leaves, and the bytes it newly wrote for counted chunks. */
  function AbortDisk(c: Codec, p: Params, st: Store, data: bytes, f: Fault): (Store, nat)
    requires f.stored <= |Chunks(p, data, 0)|
  {
    var ps := Chunks(p, data, 0);
    var (st', written) := StorePieces(c, st, ps[..f.stored]);
    (if f.placed && f.stored < |ps| then PlaceFile(c, st', ps[f.stored].data) else st', written)
  }

  function DecrementAll(st: Store, hs: seq<Hash>): Store {
    if hs == [] then st else Decrement(DecrementAll(st, hs[..|hs| - 1]), hs[|hs| - 1])
  }

  /** What a sweep that runs alone leaves: every row without references is gone, with its file. */
  function Swept(st: Store): Store {
    Store(st.index - ZeroRefs(st), st.files - ZeroRefs(st))
  }

  // ---- counting references ----

  function Count(st: Store, h: Hash): nat {
    if h in st.index then st.index[h].refCount else 0
  }

  function Hashes(c: Codec, ps: seq<Piece>): (hs: seq<Hash>)
    ensures |hs| == |ps|
  {
    seq(|ps|, i requires 0 <= i < |ps| => c.hash(ps[i].data))
  }

  /** The references held on the pieces from `lo` to `hi`. */
  function Held(c: Codec, ps: seq<Piece>, lo: nat, hi: nat): multiset<Hash>
    requires lo <= hi <= |ps|
  {
    multiset(Hashes(c, ps)[lo..hi])
  }

  lemma HeldGrows(c: Codec, ps: seq<Piece>, lo: nat, hi: nat)
    requires lo <= hi < |ps|
    ensures Held(c, ps, lo, hi + 1) == Held(c, ps, lo, hi) + multiset{c.hash(ps[hi].data)}
  {
    var hs := Hashes(c, ps);
    assert hs[lo..hi + 1] == hs[lo..hi] + [hs[hi]];
  }

  lemma HeldShrinks(c: Codec, ps: seq<Piece>, lo: nat, hi: nat)
    requires lo < hi <= |ps|
    ensures Held(c, ps, lo, hi) == Held(c, ps, lo + 1, hi) + multiset{c.hash(ps[lo].data)}
  {
    var hs := Hashes(c, ps);
    assert hs[lo..hi] == [hs[lo]] + hs[lo + 1..hi];
  }

  // ---- what every reachable store keeps ----

  /** Every row, `except` those listed, has its file, of the recorded size and with the right payload. */
  ghost predicate RowsBacked(c: Codec, chunks: set<bytes>, st: Store, except: set<Hash>) {
    && (forall h :: h in st.index && h !in except ==>
          h in st.files && st.index[h].compressedBytes == |st.files[h]|)
    && (forall d :: d in chunks && c.hash(d) in st.index && c.hash(d) !in except ==>
          st.index[c.hash(d)].sizeBytes == |d| && st.files[c.hash(d)] == Payload(c, d))
  }

  /** Each count is the multiplicity in `pins`; hashes without a row are not pinned. */
  ghost predicate CountsAre(st: Store, pins: multiset<Hash>) {
    forall h :: Count(st, h) == pins[h]
  }

  /** The invariant between calls when calls do not overlap. */
  ghost predicate Consistent(c: Codec, chunks: set<bytes>, st: Store, pins: multiset<Hash>) {
    && RowsBacked(c, chunks, st, {})
    && CountsAre(st, pins)
  }

  /** The files that no row knows. */
  function Orphans(st: Store): set<Hash> {
    st.files.Keys - st.index.Keys
  }

  lemma WriteChunkKeeps(c: Codec, chunks: set<bytes>, st: Store, pins: multiset<Hash>, d: bytes)
    requires Sound(c, chunks) && d in chunks && Consistent(c, chunks, st, pins)
    ensures Consistent(c, chunks, WriteChunk(c, st, d).0, pins + multiset{c.hash(d)})
  {
  }

  /** Storing pieces adds exactly one reference for each piece. */
  lemma {:induction false} StorePiecesKeeps(c: Codec, chunks: set<bytes>, st: Store, pins: multiset<Hash>, ps: seq<Piece>)
    requires Sound(c, chunks) && Consistent(c, chunks, st, pins)
    requires forall i :: 0 <= i < |ps| ==> ps[i].data in chunks
    ensures Consistent(c, chunks, StorePieces(c, st, ps).0, pins + Held(c, ps, 0, |ps|))
  {
    if ps != [] {
      hide WriteChunk, Consistent, Sound;
      var k := |ps| - 1;
      StorePiecesKeeps(c, chunks, st, pins, ps[..k]);
      assert Hashes(c, ps[..k])[0..k] == Hashes(c, ps)[0..k];
      HeldGrows(c, ps, 0, k);
      WriteChunkKeeps(c, chunks, StorePieces(c, st, ps[..k]).0, pins + Held(c, ps, 0, k), ps[k].data);
      assert pins + Held(c, ps, 0, k) + multiset{c.hash(ps[k].data)} == pins + Held(c, ps, 0, k + 1);
    }
  }

  lemma PlaceFileKeeps(c: Codec, chunks: set<bytes>, st: Store, pins: multiset<Hash>, d: bytes)
    requires Consistent(c, chunks, st, pins)
    ensures Consistent(c, chunks, PlaceFile(c, st, d), pins)
  {
  }

  lemma DecrementKeeps(c: Codec, chunks: set<bytes>, st: Store, pins: multiset<Hash>, h: Hash)
    requires Consistent(c, chunks, st, pins + multiset{h})
    ensures Consistent(c, chunks, Decrement(st, h), pins)
    ensures Count(st, h) > 0
  {
    forall x
      ensures Count(st, x) == pins[x] + (if x == h then 1 else 0)
    {
      assert Count(st, x) == (pins + multiset{h})[x];
    }
  }

  /** Releasing pinned references takes exactly them away: the clamp at zero never acts. */
  lemma {:induction false} DecrementAllKeeps(c: Codec, chunks: set<bytes>, st: Store, pins: multiset<Hash>, hs: seq<Hash>)
    requires Consistent(c, chunks, st, pins + multiset(hs))
    ensures Consistent(c, chunks, DecrementAll(st, hs), pins)
    ensures forall h :: Count(DecrementAll(st, hs), h) == Count(st, h) - multiset(hs)[h]
    decreases |hs|
  {
    if hs != [] {
      var k := |hs| - 1;
      assert hs == hs[..k] + [hs[k]];
      assert pins + multiset(hs) == pins + multiset{hs[k]} + multiset(hs[..k]);
      DecrementAllKeeps(c, chunks, st, pins + multiset{hs[k]}, hs[..k]);
      DecrementKeeps(c, chunks, DecrementAll(st, hs[..k]), pins, hs[k]);
    } else {
      assert pins + multiset(hs) == pins;
    }
  }

  /** A sweep removes all and only the chunks that nothing pins. */
  lemma SweptKeeps(c: Codec, chunks: set<bytes>, st: Store, pins: multiset<Hash>)
    requires Consistent(c, chunks, st, pins)
    ensures Consistent(c, chunks, Swept(st), pins)
    ensures forall h :: h in Swept(st).index <==> h in pins
    ensures ZeroRefs(Swept(st)) == {}
  {
    assert forall h :: Count(st, h) == pins[h];
    assert forall h :: Count(Swept(st), h) == Count(st, h);
  }
}
