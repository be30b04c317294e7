/**
 * Every call of the store split at its awaits.  Any number of backups, releases and deaths, and
 * one sweep at a time, take atomic steps in any order.
 */
module Interleaving {
  import opened Bytes
  import opened Codec
  import opened Chunker
  import opened StoreSpec
  import opened Restore
  import opened Owners

  /** `pending` is what is left of the sweep's snapshot; `unlinked` is the chunk between its two deletions. */
  datatype SweepState = Idle | Sweeping(pending: set<Hash>, unlinked: Option<Hash>)

  datatype State = State(st: Store, owners: seq<Owner>, sweep: SweepState)

  const INIT := State(EMPTY_STORE, [], Idle)

  datatype Step =
    | Begin(data: bytes)        // write_disk is called
    | Lookup(i: nat)            // SELECT for the next chunk
    | Bump(i: nat)              // UPDATE ref_count + 1 after a hit
    | PutFile(i: nat)           // the payload reaches its path after a miss
    | Insert(i: nat)            // INSERT ... ON CONFLICT
    | Finish(i: nat)            // the manifest is returned
    | Drop(i: nat)              // decrement_refs lowers the next count; the first one ends the manifest
    | Die(i: nat)               // the call never goes on
    | SweepStart                // SELECT ... WHERE ref_count = 0
    | SweepUnlink(h: Hash)
    | SweepDelete               // DELETE ... AND ref_count = 0
    | SweepEnd
    | SweepSkip(h: Hash)        // the unlink or the DELETE of one chunk raises, and the sweep goes on
    | SweepDie                  // the sweep never goes on

  // The chunk that owner `o` is working on.
  function Current(p: Params, o: Owner): bytes
    requires o.hi < |Pieces(p, o)|
  {
    Pieces(p, o)[o.hi].data
  }

  // The owner once it holds a reference on the chunk it was working on.
  function Advanced(o: Owner): Owner {
    o.(hi := o.hi + 1, phase := Looking)
  }

  // The owner once the lowest of its references is given back.
  function Dropped(o: Owner): Owner {
    o.(lo := o.lo + 1, phase := Releasing)
  }

  predicate At(s: State, i: nat, phase: Phase) {
    i < |s.owners| && s.owners[i].phase == phase
  }

  predicate Enabled(p: Params, s: State, a: Step) {
    match a
    case Begin(_) => true
    case Lookup(i) => At(s, i, Looking) && s.owners[i].hi < |Pieces(p, s.owners[i])|
    case Bump(i) => At(s, i, Found) && s.owners[i].hi < |Pieces(p, s.owners[i])|
    case PutFile(i) => At(s, i, Missed) && s.owners[i].hi < |Pieces(p, s.owners[i])|
    case Insert(i) => At(s, i, FileWritten) && s.owners[i].hi < |Pieces(p, s.owners[i])|
    case Finish(i) => At(s, i, Looking) && s.owners[i].hi == |Pieces(p, s.owners[i])|
    case Drop(i) => (At(s, i, Live) || At(s, i, Releasing)) && s.owners[i].lo < s.owners[i].hi <= |Pieces(p, s.owners[i])|
    case Die(i) => i < |s.owners| && s.owners[i].phase != Live
    case SweepStart => s.sweep.Idle?
    case SweepUnlink(h) => s.sweep.Sweeping? && s.sweep.unlinked.None? && h in s.sweep.pending
    case SweepDelete => s.sweep.Sweeping? && s.sweep.unlinked.Some?
    case SweepEnd => s.sweep == Sweeping({}, None)
    case SweepSkip(h) => s.sweep.Sweeping? && h in s.sweep.pending && (s.sweep.unlinked == None || s.sweep.unlinked == Some(h))
    case SweepDie => s.sweep.Sweeping?
  }

  function Next(c: Codec, p: Params, s: State, a: Step): State
    requires Enabled(p, s, a)
  {
    match a
    case Begin(data) => s.(owners := s.owners + [Owner(data, 0, 0, Looking)])
    case Lookup(i) =>
      var o := s.owners[i];
      Move(s, s.st, i, o.(phase := if c.hash(Current(p, o)) in s.st.index then Found else Missed))
    case Bump(i) =>
      var o := s.owners[i];
      Move(s, Increment(s.st, c.hash(Current(p, o))), i, Advanced(o))
    case PutFile(i) =>
      var o := s.owners[i];
      Move(s, WriteFile(s.st, c.hash(Current(p, o)), Payload(c, Current(p, o))), i, o.(phase := FileWritten))
    case Insert(i) =>
      var o := s.owners[i];
      var d := Current(p, o);
      Move(s, InsertRow(s.st, c.hash(d), |d|, |Payload(c, d)|), i, Advanced(o))
    case Finish(i) => Move(s, s.st, i, s.owners[i].(phase := Live))
    case Drop(i) =>
      var o := s.owners[i];
      Move(s, Decrement(s.st, c.hash(Pieces(p, o)[o.lo].data)), i, Dropped(o))
    case Die(i) => Move(s, s.st, i, s.owners[i].(phase := Dead))
    case SweepStart => s.(sweep := Sweeping(ZeroRefs(s.st), None))
    case SweepUnlink(h) => s.(st := Unlink(s.st, h), sweep := s.sweep.(unlinked := Some(h)))
    case SweepDelete =>
      var h := s.sweep.unlinked.value;
      s.(st := DeleteRow(s.st, h), sweep := Sweeping(s.sweep.pending - {h}, None))
    case SweepEnd => s.(sweep := Idle)
    case SweepSkip(h) => s.(sweep := Sweeping(s.sweep.pending - {h}, None))
    case SweepDie => s.(sweep := Idle)
  }

  function Move(s: State, st: Store, i: nat, o: Owner): State
    requires i < |s.owners|
  {
    s.(st := st, owners := s.owners[i := o])
  }

  /** `ss` are the states between the steps `steps` of a run that starts from nothing. */
  ghost predicate Run(c: Codec, chunks: set<bytes>, p: Params, ss: seq<State>, steps: seq<Step>) {
    && |ss| == |steps| + 1
    && ss[0] == INIT
    && forall k :: 0 <= k < |steps| ==>
         && (steps[k].Begin? ==> PiecesIn(Chunks(p, steps[k].data, 0), chunks))
         && Enabled(p, ss[k], steps[k])
         && ss[k + 1] == Next(c, p, ss[k], steps[k])
  }

  // The hashes that a running sweep still has to deal with.
  function Pending(s: State): set<Hash> {
    if s.sweep.Sweeping? then s.sweep.pending else {}
  }

  // Some write is at `phase` with a chunk whose hash is `h`.
  ghost predicate Busy(c: Codec, p: Params, s: State, phase: Phase, h: Hash) {
    exists i :: 0 <= i < |s.owners| && BusyAt(c, p, s.owners[i], phase, h)
  }

  ghost predicate BusyAt(c: Codec, p: Params, o: Owner, phase: Phase, h: Hash) {
    o.phase == phase && o.hi < |Pieces(p, o)| && c.hash(Current(p, o)) == h
  }

  // The chunk whose file the sweep has removed and whose row it has still to look at.
  function Unlinked(s: State): set<Hash> {
    if s.sweep.Sweeping? && s.sweep.unlinked.Some? then {s.sweep.unlinked.value} else {}
  }

  // The one row that may be without its file: unlinked, and nobody references it.
  function Half(s: State): set<Hash> {
    Unlinked(s) * ZeroRefs(s.st)
  }

  // A reference on `d` can be counted: the sweep has no unlink of its file ahead, and has not left it without one.
  predicate Committable(c: Codec, s: State, d: bytes) {
    c.hash(d) !in Pending(s) || (c.hash(d) in Unlinked(s) && Holds(c, s.st.files, d))
  }

  /**
   * The hypothesis on sweeps, step by step: nobody commits a chunk that the sweep is about to
   * unlink, or has unlinked and nobody has put back; no file is unlinked that a writer has put in
   * place and not yet indexed; no row is deleted that a writer has found and not yet counted up;
   * and the sweep does not stop between its two deletions of a chunk that nobody references and
   * nobody has put back.
   */
  ghost predicate Safe(c: Codec, p: Params, s: State, a: Step)
    requires Enabled(p, s, a)
  {
    match a
    case Bump(i) => Committable(c, s, Current(p, s.owners[i]))
    case Insert(i) => Committable(c, s, Current(p, s.owners[i]))
    case SweepUnlink(h) => !Busy(c, p, s, FileWritten, h)
    case SweepDelete => var h := s.sweep.unlinked.value; Count(s.st, h) == 0 ==> !Busy(c, p, s, Found, h)
    case SweepSkip(_) => Half(s) <= s.st.files.Keys
    case SweepDie => Half(s) <= s.st.files.Keys
    case _ => true
  }

  /** A cruder hypothesis: no write is between lookup and commit for a chunk still to be swept. */
  ghost predicate NoOverlap(c: Codec, p: Params, s: State) {
    forall i :: 0 <= i < |s.owners| && MidChunk(s.owners[i]) && s.owners[i].hi < |Pieces(p, s.owners[i])|
      ==> c.hash(Current(p, s.owners[i])) !in Pending(s)
  }

  // ---- the invariant ----

  // Rows record the sizes of their chunks.
  ghost predicate RowsRight(c: Codec, chunks: set<bytes>, st: Store) {
    forall d :: d in chunks && c.hash(d) in st.index ==>
      st.index[c.hash(d)].sizeBytes == |d| && st.index[c.hash(d)].compressedBytes == |Payload(c, d)|
  }

  // The file of `h` is the payload of a chunk with that hash.
  ghost predicate FileKnown(c: Codec, chunks: set<bytes>, st: Store, h: Hash)
    requires h in st.files
  {
    exists d :: d in chunks && c.hash(d) == h && st.files[h] == Payload(c, d)
  }

  ghost predicate FilesKnown(c: Codec, chunks: set<bytes>, st: Store) {
    forall h :: h in st.files ==> FileKnown(c, chunks, st, h)
  }

  // `h` is the hash of a chunk of somebody's data.
  ghost predicate SomebodysChunk(c: Codec, p: Params, os: seq<Owner>, h: Hash) {
    exists i: nat, k: nat :: IsChunk(c, p, os, i, k, h)
  }

  predicate IsChunk(c: Codec, p: Params, os: seq<Owner>, i: nat, k: nat, h: Hash) {
    i < |os| && k < |Pieces(p, os[i])| && c.hash(Pieces(p, os[i])[k].data) == h
  }

  ghost predicate RowsKnown(c: Codec, p: Params, os: seq<Owner>, st: Store) {
    forall h :: h in st.index ==> SomebodysChunk(c, p, os, h)
  }

  ghost predicate OwnerOk(c: Codec, chunks: set<bytes>, p: Params, st: Store, o: Owner) {
    && WellFormed(p, chunks, o)
    && (o.phase == Found ==> c.hash(Current(p, o)) in st.index)
    && (o.phase == FileWritten ==> Holds(c, st.files, Current(p, o)))
  }

  ghost predicate SweepOk(s: State) {
    s.sweep.Sweeping? ==>
      && s.sweep.pending - Unlinked(s) <= ZeroRefs(s.st)
      && (s.sweep.unlinked.Some? ==> s.sweep.unlinked.value in s.sweep.pending)
  }

  ghost predicate Good(c: Codec, chunks: set<bytes>, p: Params, s: State) {
    && RowsBacked(c, chunks, s.st, Half(s))
    && RowsRight(c, chunks, s.st)
    && FilesKnown(c, chunks, s.st)
    && RowsKnown(c, p, s.owners, s.st)
    && CountsAre(s.st, Claims(c, p, s.owners))
    && (forall i :: 0 <= i < |s.owners| ==> OwnerOk(c, chunks, p, s.st, s.owners[i]))
    && SweepOk(s)
  }

  // What one chunk's statement does to the store, seen by everyone else.
  ghost predicate StoreMoves(c: Codec, chunks: set<bytes>, st: Store, st': Store, calm: set<Hash>) {
    && (forall h :: h in st.index ==> h in st'.index)
    && (forall d :: d in chunks && Holds(c, st.files, d) ==> Holds(c, st'.files, d))
    && (forall h :: h in calm && h in ZeroRefs(st) ==> h in ZeroRefs(st'))
  }

  lemma KnownStays(c: Codec, p: Params, os: seq<Owner>, i: nat, o: Owner, h: Hash)
    requires i < |os| && o.data == os[i].data && SomebodysChunk(c, p, os, h)
    ensures SomebodysChunk(c, p, os[i := o], h)
  {
    hide Chunks;
    var j: nat, k: nat :| IsChunk(c, p, os, j, k, h);
    assert IsChunk(c, p, os[i := o], j, k, h);
  }

  lemma RowsStayKnown(c: Codec, p: Params, os: seq<Owner>, i: nat, o: Owner, st: Store, st': Store)
    requires i < |os| && o.data == os[i].data && RowsKnown(c, p, os, st)
    requires forall h :: h in st'.index ==> h in st.index || SomebodysChunk(c, p, os, h)
    ensures RowsKnown(c, p, os[i := o], st')
  {
    hide SomebodysChunk;
    forall h | h in st'.index
      ensures SomebodysChunk(c, p, os[i := o], h)
    {
      KnownStays(c, p, os, i, o, h);
    }
  }

  // An owner moves on: it is enough that its own state fits and that the store keeps what others rely on.
  lemma MoveKeepsGood(c: Codec, chunks: set<bytes>, p: Params, s: State, st: Store, i: nat, o: Owner)
    requires Good(c, chunks, p, s) && i < |s.owners|
    requires RowsBacked(c, chunks, st, Unlinked(s) * ZeroRefs(st)) && RowsRight(c, chunks, st)
    requires CountsAre(st, Claims(c, p, s.owners[i := o]))
    requires OwnerOk(c, chunks, p, st, o) && FilesKnown(c, chunks, st) && o.data == s.owners[i].data
    requires StoreMoves(c, chunks, s.st, st, Pending(s) - Unlinked(s))
    requires forall h :: h in st.index ==> h in s.st.index || SomebodysChunk(c, p, s.owners, h)
    ensures Good(c, chunks, p, Move(s, st, i, o))
  {
    hide RowsBacked, RowsRight, CountsAre, Claims, Chunks, Holds, FilesKnown, SomebodysChunk;
    var os := s.owners[i := o];
    RowsStayKnown(c, p, s.owners, i, o, s.st, st);
    hide RowsKnown;
    forall j | 0 <= j < |os|
      ensures OwnerOk(c, chunks, p, st, os[j])
    {
      assert OwnerOk(c, chunks, p, s.st, s.owners[j]);
      assert WellFormed(p, chunks, s.owners[j]);
      if j != i && s.owners[j].phase == FileWritten {
        assert Current(p, s.owners[j]) in chunks;
      }
    }
  }

  lemma Cancel(x: multiset<Hash>, y: multiset<Hash>, shared: multiset<Hash>, more: multiset<Hash>)
    requires x + shared == y + (shared + more)
    ensures x == y + more
  {
    forall h
      ensures x[h] == (y + more)[h]
    {
      assert (x + shared)[h] == (y + (shared + more))[h];
    }
  }

  // One more reference for the owner that has just committed a chunk.
  lemma ClaimsGrow(c: Codec, p: Params, os: seq<Owner>, i: nat)
    requires i < |os| && os[i].lo <= os[i].hi < |Pieces(p, os[i])|
    ensures Claims(c, p, os[i := Advanced(os[i])]) == Claims(c, p, os) + multiset{c.hash(Current(p, os[i]))}
  {
    hide Claims, Chunks, Held;
    var o := Advanced(os[i]);
    HeldGrows(c, Pieces(p, o), o.lo, os[i].hi);
    ClaimsUpdate(c, p, os, i, o);
    Cancel(Claims(c, p, os[i := o]), Claims(c, p, os), Claim(c, p, os[i]), multiset{c.hash(Current(p, os[i]))});
  }

  lemma ClaimsDrop(c: Codec, p: Params, os: seq<Owner>, i: nat)
    requires i < |os| && os[i].lo < os[i].hi <= |Pieces(p, os[i])|
    ensures Claims(c, p, os) == Claims(c, p, os[i := Dropped(os[i])]) + multiset{c.hash(Pieces(p, os[i])[os[i].lo].data)}
  {
    hide Claims, Chunks, Held;
    var o := Dropped(os[i]);
    HeldShrinks(c, Pieces(p, o), os[i].lo, o.hi);
    ClaimsUpdate(c, p, os, i, o);
    Cancel(Claims(c, p, os), Claims(c, p, os[i := o]), Claim(c, p, o), multiset{c.hash(Pieces(p, os[i])[os[i].lo].data)});
  }

  lemma ClaimsSame(c: Codec, p: Params, os: seq<Owner>, i: nat, phase: Phase)
    requires i < |os|
    ensures Claims(c, p, os[i := os[i].(phase := phase)]) == Claims(c, p, os)
  {
    hide Claims, Chunks, Held;
    ClaimsUpdate(c, p, os, i, os[i].(phase := phase));
    Cancel(Claims(c, p, os[i := os[i].(phase := phase)]), Claims(c, p, os), Claim(c, p, os[i]), multiset{});
  }

  // ---- one step at a time ----

  lemma PhaseStepKeepsGood(c: Codec, chunks: set<bytes>, p: Params, s: State, a: Step)
    requires Good(c, chunks, p, s) && Enabled(p, s, a)
    requires a.Lookup? || a.Finish? || a.Die?
    ensures Good(c, chunks, p, Next(c, p, s, a))
  {
    hide RowsBacked, RowsRight, CountsAre, Claims, Chunks, Holds, FilesKnown, SomebodysChunk;
    var o := s.owners[a.i];
    assert OwnerOk(c, chunks, p, s.st, o);
    var phase := Next(c, p, s, a).owners[a.i].phase;
    ClaimsSame(c, p, s.owners, a.i, phase);
    MoveKeepsGood(c, chunks, p, s, s.st, a.i, o.(phase := phase));
  }

  lemma AppendKnown(c: Codec, p: Params, os: seq<Owner>, o: Owner, st: Store)
    requires RowsKnown(c, p, os, st)
    ensures RowsKnown(c, p, os + [o], st)
  {
    hide Chunks;
    forall h | h in st.index
      ensures SomebodysChunk(c, p, os + [o], h)
    {
      var i: nat, k: nat :| IsChunk(c, p, os, i, k, h);
      assert IsChunk(c, p, os + [o], i, k, h);
    }
  }

  lemma BeginKeepsGood(c: Codec, chunks: set<bytes>, p: Params, s: State, data: bytes)
    requires Good(c, chunks, p, s) && PiecesIn(Chunks(p, data, 0), chunks)
    ensures Good(c, chunks, p, Next(c, p, s, Begin(data)))
  {
    hide RowsBacked, RowsRight, Chunks, Holds, Claims, Count, FilesKnown;
    AppendKnown(c, p, s.owners, Owner(data, 0, 0, Looking), s.st);
    hide RowsKnown;
    var o := Owner(data, 0, 0, Looking);
    ClaimsAppend(c, p, s.owners, o);
    assert Claim(c, p, o) == multiset{};
    assert OwnerOk(c, chunks, p, s.st, o);
    hide Claim, Pieces, WellFormed;
  }

  // What an owner in the middle of a chunk may rely on.
  lemma MidChunkFacts(c: Codec, chunks: set<bytes>, p: Params, s: State, i: nat, st: Store)
    requires Good(c, chunks, p, s) && i < |s.owners| && MidChunk(s.owners[i])
    ensures var o := s.owners[i];
            && o.lo <= o.hi < |Pieces(p, o)|
            && Current(p, o) in chunks
            && (o.phase == Found ==> c.hash(Current(p, o)) in s.st.index)
            && (o.phase == FileWritten ==> Holds(c, s.st.files, Current(p, o)))
            && OwnerOk(c, chunks, p, st, Advanced(o))
            && (Holds(c, st.files, Current(p, o)) ==> OwnerOk(c, chunks, p, st, o.(phase := FileWritten)))
    ensures RowsBacked(c, chunks, s.st, Half(s)) && RowsRight(c, chunks, s.st) && CountsAre(s.st, Claims(c, p, s.owners))
    ensures FilesKnown(c, chunks, s.st) && SomebodysChunk(c, p, s.owners, c.hash(Current(p, s.owners[i])))
    ensures Half(s) == Unlinked(s) * ZeroRefs(s.st) && Unlinked(s) <= Pending(s)
  {
    hide Claims, Chunks, RowsBacked, RowsRight, CountsAre, Holds, FilesKnown, RowsKnown;
    var o := s.owners[i];
    assert OwnerOk(c, chunks, p, s.st, o) && WellFormed(p, chunks, o);
    assert IsChunk(c, p, s.owners, i, o.hi, c.hash(Current(p, o)));
  }

  // A committed reference: the UPDATE after a hit, or the INSERT, which repairs a lost race by counting up.
  lemma CommitKeepsGood(c: Codec, chunks: set<bytes>, p: Params, s: State, a: Step)
    requires Sound(c, chunks) && Good(c, chunks, p, s) && Enabled(p, s, a) && Safe(c, p, s, a)
    requires a.Bump? || a.Insert?
    ensures Good(c, chunks, p, Next(c, p, s, a))
  {
    hide Claims, Chunks, Pieces, Good, RowsBacked, RowsRight, CountsAre, InsertRow, Increment, StoreMoves, OwnerOk, Half, Holds,
         Claim, Pending, Unlinked, ZeroRefs, FilesKnown, SomebodysChunk;
    var o := s.owners[a.i];
    MidChunkFacts(c, chunks, p, s, a.i, Next(c, p, s, a).st);
    var d := Current(p, o);
    ClaimsGrow(c, p, s.owners, a.i);
    CommitStore(c, chunks, s.st, Unlinked(s), Claims(c, p, s.owners), d);
    CommitMoves(c, chunks, s.st, d, Pending(s) - Unlinked(s));
    SameFilesKnown(c, chunks, s.st, Next(c, p, s, a).st);
    MoveKeepsGood(c, chunks, p, s, Next(c, p, s, a).st, a.i, Advanced(o));
  }

  lemma CommitStore(c: Codec, chunks: set<bytes>, st: Store, gone: set<Hash>, pins: multiset<Hash>, d: bytes)
    requires Sound(c, chunks) && d in chunks
    requires RowsBacked(c, chunks, st, gone * ZeroRefs(st)) && RowsRight(c, chunks, st) && CountsAre(st, pins)
    requires Holds(c, st.files, d) || (c.hash(d) in st.index && c.hash(d) !in gone)
    ensures var st' := InsertRow(st, c.hash(d), |d|, |Payload(c, d)|);
            && RowsBacked(c, chunks, st', gone * ZeroRefs(st')) && RowsRight(c, chunks, st')
            && CountsAre(st', pins + multiset{c.hash(d)})
    ensures c.hash(d) in st.index ==> Increment(st, c.hash(d)) == InsertRow(st, c.hash(d), |d|, |Payload(c, d)|)
    ensures var st' := InsertRow(st, c.hash(d), |d|, |Payload(c, d)|);
            st'.files == st.files && st'.index.Keys == st.index.Keys + {c.hash(d)}
  {
    CommitRight(c, chunks, st, d);
    CommitBacked(c, chunks, st, gone, d);
    CommitCounts(st, pins, c.hash(d), |d|, |Payload(c, d)|);
    hide Sound, RowsBacked, RowsRight, CountsAre, ZeroRefs, Holds, Payload;
  }

  lemma CommitRight(c: Codec, chunks: set<bytes>, st: Store, d: bytes)
    requires NoCollisions(c, chunks) && d in chunks && RowsRight(c, chunks, st)
    ensures RowsRight(c, chunks, InsertRow(st, c.hash(d), |d|, |Payload(c, d)|))
  {
    hide Payload;
  }

  lemma CommitBacked(c: Codec, chunks: set<bytes>, st: Store, gone: set<Hash>, d: bytes)
    requires NoCollisions(c, chunks) && d in chunks
    requires RowsBacked(c, chunks, st, gone * ZeroRefs(st)) && RowsRight(c, chunks, st)
    requires Holds(c, st.files, d) || (c.hash(d) in st.index && c.hash(d) !in gone)
    ensures var st' := InsertRow(st, c.hash(d), |d|, |Payload(c, d)|); RowsBacked(c, chunks, st', gone * ZeroRefs(st'))
  {
    hide Payload;
  }

  lemma CommitCounts(st: Store, pins: multiset<Hash>, h: Hash, size: nat, compressed: nat)
    requires CountsAre(st, pins)
    ensures CountsAre(InsertRow(st, h, size, compressed), pins + multiset{h})
  {
  }

  lemma CommitMoves(c: Codec, chunks: set<bytes>, st: Store, d: bytes, calm: set<Hash>)
    requires c.hash(d) !in calm
    ensures StoreMoves(c, chunks, st, InsertRow(st, c.hash(d), |d|, |Payload(c, d)|), calm)
  {
  }

  lemma SameFilesKnown(c: Codec, chunks: set<bytes>, st: Store, st': Store)
    requires FilesKnown(c, chunks, st) && (forall h :: h in st'.files ==> h in st.files && st'.files[h] == st.files[h])
    ensures FilesKnown(c, chunks, st')
  {
    forall h | h in st'.files
      ensures FileKnown(c, chunks, st', h)
    {
      assert FileKnown(c, chunks, st, h);
    }
  }

  lemma NewFileKnown(c: Codec, chunks: set<bytes>, st: Store, d: bytes)
    requires FilesKnown(c, chunks, st) && d in chunks
    ensures FilesKnown(c, chunks, WriteFile(st, c.hash(d), Payload(c, d)))
  {
    var st' := WriteFile(st, c.hash(d), Payload(c, d));
    forall h | h in st'.files
      ensures FileKnown(c, chunks, st', h)
    {
      assert h != c.hash(d) ==> FileKnown(c, chunks, st, h);
    }
  }

  lemma PutFileKeepsGood(c: Codec, chunks: set<bytes>, p: Params, s: State, a: Step)
    requires Sound(c, chunks) && Good(c, chunks, p, s) && Enabled(p, s, a) && a.PutFile?
    ensures Good(c, chunks, p, Next(c, p, s, a))
  {
    hide Claims, Chunks, Pieces, Good, RowsBacked, RowsRight, StoreMoves, OwnerOk, Half, Pending, Unlinked, ZeroRefs, FilesKnown, SomebodysChunk;
    MidChunkFacts(c, chunks, p, s, a.i, Next(c, p, s, a).st);
    ClaimsSame(c, p, s.owners, a.i, FileWritten);
    NewFileKnown(c, chunks, s.st, Current(p, s.owners[a.i]));
    PutFileStore(c, chunks, s.st, Unlinked(s), Current(p, s.owners[a.i]), Pending(s) - Unlinked(s));
    MoveKeepsGood(c, chunks, p, s, Next(c, p, s, a).st, a.i, s.owners[a.i].(phase := FileWritten));
  }

  lemma PutFileStore(c: Codec, chunks: set<bytes>, st: Store, gone: set<Hash>, d: bytes, calm: set<Hash>)
    requires Sound(c, chunks) && d in chunks
    requires RowsBacked(c, chunks, st, gone * ZeroRefs(st)) && RowsRight(c, chunks, st)
    ensures var st' := WriteFile(st, c.hash(d), Payload(c, d));
            && RowsBacked(c, chunks, st', gone * ZeroRefs(st')) && RowsRight(c, chunks, st')
            && StoreMoves(c, chunks, st, st', calm)
  {
  }

  // What a release may rely on.
  lemma DropFacts(c: Codec, chunks: set<bytes>, p: Params, s: State, i: nat, st: Store)
    requires Good(c, chunks, p, s) && Enabled(p, s, Drop(i))
    ensures i < |s.owners| && s.owners[i].lo < s.owners[i].hi <= |Pieces(p, s.owners[i])|
    ensures OwnerOk(c, chunks, p, st, Dropped(s.owners[i]))
    ensures RowsBacked(c, chunks, s.st, Unlinked(s) * ZeroRefs(s.st)) && RowsRight(c, chunks, s.st)
    ensures CountsAre(s.st, Claims(c, p, s.owners)) && FilesKnown(c, chunks, s.st)
  {
    hide Claims, Chunks, RowsBacked, RowsRight, CountsAre, FilesKnown, RowsKnown;
    assert OwnerOk(c, chunks, p, s.st, s.owners[i]) && WellFormed(p, chunks, s.owners[i]);
  }

  lemma DropKeepsGood(c: Codec, chunks: set<bytes>, p: Params, s: State, i: nat)
    requires Good(c, chunks, p, s) && Enabled(p, s, Drop(i))
    ensures Good(c, chunks, p, Next(c, p, s, Drop(i)))
  {
    hide Good, Chunks;
    DropMoves(c, chunks, p, s, i, s.owners[i], c.hash(Pieces(p, s.owners[i])[s.owners[i].lo].data));
  }

  lemma DropMoves(c: Codec, chunks: set<bytes>, p: Params, s: State, i: nat, o: Owner, h: Hash)
    requires Enabled(p, s, Drop(i)) && o == s.owners[i] && h == c.hash(Pieces(p, o)[o.lo].data)
    requires Good(c, chunks, p, s)
    ensures Good(c, chunks, p, Move(s, Decrement(s.st, h), i, Dropped(o)))
  {
    hide Move, Claims, Chunks, Pieces, Good, RowsBacked, RowsRight, CountsAre, StoreMoves, Decrement, Count, OwnerOk, Half, Claim,
         Pending, Unlinked, ZeroRefs, FilesKnown, SomebodysChunk;
    DropFacts(c, chunks, p, s, i, Decrement(s.st, h));
    ClaimsDrop(c, p, s.owners, i);
    DropStore(c, chunks, s.st, Unlinked(s), Claims(c, p, s.owners[i := Dropped(o)]), h, Pending(s) - Unlinked(s));
    SameFilesKnown(c, chunks, s.st, Decrement(s.st, h));
    MoveKeepsGood(c, chunks, p, s, Decrement(s.st, h), i, Dropped(o));
  }

  /** The count that a release lowers is never zero already: the clamp does not act. */
  lemma DropNeverClamps(c: Codec, chunks: set<bytes>, p: Params, s: State, i: nat)
    requires Good(c, chunks, p, s) && Enabled(p, s, Drop(i))
    ensures Count(s.st, c.hash(Pieces(p, s.owners[i])[s.owners[i].lo].data)) > 0
  {
    hide Claims, Chunks, RowsBacked;
    ClaimsPiece(c, p, s.owners, i, s.owners[i].lo);
  }

  lemma DropStore(c: Codec, chunks: set<bytes>, st: Store, gone: set<Hash>, pins: multiset<Hash>, h: Hash, calm: set<Hash>)
    requires RowsBacked(c, chunks, st, gone * ZeroRefs(st)) && RowsRight(c, chunks, st) && CountsAre(st, pins + multiset{h})
    ensures var st' := Decrement(st, h);
            && RowsBacked(c, chunks, st', gone * ZeroRefs(st')) && RowsRight(c, chunks, st') && CountsAre(st', pins)
            && StoreMoves(c, chunks, st, st', calm)
            && st'.files == st.files && st'.index.Keys == st.index.Keys
    ensures Count(st, h) > 0
  {
    forall x
      ensures Count(st, x) == pins[x] + (if x == h then 1 else 0)
    {
      assert Count(st, x) == (pins + multiset{h})[x];
    }
  }

  ghost predicate SweepStep(a: Step) {
    a.SweepStart? || a.SweepUnlink? || a.SweepDelete? || a.SweepEnd? || a.SweepSkip? || a.SweepDie?
  }

  // A safe step of the sweep takes away nothing that a writer relies on.
  lemma SweepSparesOwners(c: Codec, chunks: set<bytes>, p: Params, s: State, a: Step, i: nat)
    requires Good(c, chunks, p, s) && Enabled(p, s, a) && Safe(c, p, s, a) && SweepStep(a) && i < |s.owners|
    ensures OwnerOk(c, chunks, p, Next(c, p, s, a).st, s.owners[i])
  {
    hide Claims, Chunks, RowsBacked, RowsRight, CountsAre, SweepOk, FilesKnown, RowsKnown;
    assert OwnerOk(c, chunks, p, s.st, s.owners[i]);
  }

  lemma SweepStepCounts(c: Codec, p: Params, s: State, a: Step, pins: multiset<Hash>)
    requires Enabled(p, s, a) && SweepStep(a) && CountsAre(s.st, pins)
    ensures CountsAre(Next(c, p, s, a).st, pins)
  {
    hide Chunks;
    var s' := Next(c, p, s, a);
    assert forall h :: Count(s'.st, h) == Count(s.st, h);
  }

  lemma SweepStepStore(c: Codec, chunks: set<bytes>, p: Params, s: State, a: Step)
    requires RowsBacked(c, chunks, s.st, Half(s)) && RowsRight(c, chunks, s.st) && SweepOk(s) && Enabled(p, s, a)
    requires SweepStep(a) && !a.SweepSkip? && !a.SweepDie?
    ensures var s' := Next(c, p, s, a); RowsBacked(c, chunks, s'.st, Half(s')) && RowsRight(c, chunks, s'.st) && SweepOk(s')
  {
    hide Chunks;
  }

  // A file that is on disk again backs its row.
  lemma FileBacksRow(c: Codec, chunks: set<bytes>, st: Store, except: set<Hash>)
    requires NoCollisions(c, chunks) && RowsBacked(c, chunks, st, except) && RowsRight(c, chunks, st) && FilesKnown(c, chunks, st)
    requires except <= st.files.Keys
    ensures RowsBacked(c, chunks, st, {})
  {
    forall h | h in st.index
      ensures h in st.files && st.index[h].compressedBytes == |st.files[h]|
    {
      assert h in except ==> FileKnown(c, chunks, st, h);
    }
    forall d | d in chunks && c.hash(d) in st.index
      ensures st.files[c.hash(d)] == Payload(c, d)
    {
      assert c.hash(d) in except ==> FileKnown(c, chunks, st, c.hash(d));
    }
  }

  // The sweep leaves a chunk alone whose row has its file.
  lemma SweepStopsStore(c: Codec, chunks: set<bytes>, p: Params, s: State, a: Step)
    requires Sound(c, chunks) && RowsBacked(c, chunks, s.st, Half(s)) && RowsRight(c, chunks, s.st) && FilesKnown(c, chunks, s.st)
    requires SweepOk(s) && Enabled(p, s, a) && Safe(c, p, s, a) && (a.SweepSkip? || a.SweepDie?)
    ensures var s' := Next(c, p, s, a); RowsBacked(c, chunks, s'.st, Half(s')) && RowsRight(c, chunks, s'.st) && SweepOk(s')
  {
    FileBacksRow(c, chunks, s.st, Half(s));
    hide Chunks, RowsBacked, RowsRight, FilesKnown, Sound;
    assert Half(Next(c, p, s, a)) == {};
  }

  lemma SweepStepKnown(c: Codec, chunks: set<bytes>, p: Params, s: State, a: Step)
    requires FilesKnown(c, chunks, s.st) && RowsKnown(c, p, s.owners, s.st) && Enabled(p, s, a) && SweepStep(a)
    ensures FilesKnown(c, chunks, Next(c, p, s, a).st) && RowsKnown(c, p, s.owners, Next(c, p, s, a).st)
  {
    hide FilesKnown, SomebodysChunk, Chunks;
    SameFilesKnown(c, chunks, s.st, Next(c, p, s, a).st);
  }

  /** After each of the sweep's two deletions, every row but the one in between has its file. */
  lemma SweepStepKeepsGood(c: Codec, chunks: set<bytes>, p: Params, s: State, a: Step)
    requires Sound(c, chunks) && Good(c, chunks, p, s) && Enabled(p, s, a) && Safe(c, p, s, a) && SweepStep(a)
    ensures Good(c, chunks, p, Next(c, p, s, a))
  {
    var s' := Next(c, p, s, a);
    assert s'.owners == s.owners;
    hide Claims, Chunks, RowsBacked, RowsRight, CountsAre, OwnerOk, SweepOk, Next, Enabled, Safe, Half, FilesKnown, RowsKnown, Sound;
    forall i | 0 <= i < |s.owners|
      ensures OwnerOk(c, chunks, p, s'.st, s.owners[i])
    {
      SweepSparesOwners(c, chunks, p, s, a, i);
    }
    SweepStepCounts(c, p, s, a, Claims(c, p, s.owners));
    SweepStepKnown(c, chunks, p, s, a);
    if a.SweepSkip? || a.SweepDie? {
      SweepStopsStore(c, chunks, p, s, a);
    } else {
      SweepStepStore(c, chunks, p, s, a);
    }
  }

  lemma StepKeepsGood(c: Codec, chunks: set<bytes>, p: Params, s: State, a: Step)
    requires Sound(c, chunks) && Good(c, chunks, p, s) && Enabled(p, s, a) && Safe(c, p, s, a)
    requires a.Begin? ==> PiecesIn(Chunks(p, a.data, 0), chunks)
    ensures Good(c, chunks, p, Next(c, p, s, a))
  {
    hide Good, Next, Safe;
    match a
    case Begin(data) => BeginKeepsGood(c, chunks, p, s, data);
    case Bump(_) => CommitKeepsGood(c, chunks, p, s, a);
    case Insert(_) => CommitKeepsGood(c, chunks, p, s, a);
    case PutFile(_) => PutFileKeepsGood(c, chunks, p, s, a);
    case Drop(i) => DropKeepsGood(c, chunks, p, s, i);
    case Lookup(_) => PhaseStepKeepsGood(c, chunks, p, s, a);
    case Finish(_) => PhaseStepKeepsGood(c, chunks, p, s, a);
    case Die(_) => PhaseStepKeepsGood(c, chunks, p, s, a);
    case SweepStart => SweepStepKeepsGood(c, chunks, p, s, a);
    case SweepUnlink(_) => SweepStepKeepsGood(c, chunks, p, s, a);
    case SweepDelete => SweepStepKeepsGood(c, chunks, p, s, a);
    case SweepEnd => SweepStepKeepsGood(c, chunks, p, s, a);
    case SweepSkip(_) => SweepStepKeepsGood(c, chunks, p, s, a);
    case SweepDie => SweepStepKeepsGood(c, chunks, p, s, a);
  }

  /** Keeping writes away from the chunks still to be swept makes every step safe but those at which the sweep gives up. */
  lemma NoOverlapIsSafe(c: Codec, chunks: set<bytes>, p: Params, s: State, a: Step)
    requires Good(c, chunks, p, s) && NoOverlap(c, p, s) && Enabled(p, s, a)
    ensures Safe(c, p, s, a) || ((a.SweepSkip? || a.SweepDie?) && Half(s) != {})
  {
    hide Claims, Chunks, RowsBacked, CountsAre, OwnerOk;
  }

  /** Every state of every interleaving is good, as long as each step is safe with respect to the sweep. */
  lemma {:induction false} RunsStayGood(c: Codec, chunks: set<bytes>, p: Params, ss: seq<State>, steps: seq<Step>, k: nat)
    requires Sound(c, chunks) && Run(c, chunks, p, ss, steps) && k <= |steps|
    requires forall j :: 0 <= j < k ==> Safe(c, p, ss[j], steps[j])
    ensures Good(c, chunks, p, ss[k])
  {
    hide Next, Safe, Enabled;
    if k > 0 {
      RunsStayGood(c, chunks, p, ss, steps, k - 1);
      hide Good;
      StepKeepsGood(c, chunks, p, ss[k - 1], steps[k - 1]);
      assert ss[k - 1 + 1] == Next(c, p, ss[k - 1], steps[k - 1]);
    }
  }

  // What a step adds to the count of `h`: a completed increment or insert, or a decrement.
  function Delta(c: Codec, p: Params, s: State, a: Step, h: Hash): int
    requires Enabled(p, s, a)
  {
    match a
    case Bump(i) => if c.hash(Current(p, s.owners[i])) == h then 1 else 0
    case Insert(i) => if c.hash(Current(p, s.owners[i])) == h then 1 else 0
    case Drop(i) => if c.hash(Pieces(p, s.owners[i])[s.owners[i].lo].data) == h then -1 else 0
    case _ => 0
  }

  // Increments and inserts completed minus decrements, over the first `k` steps.
  ghost function Net(c: Codec, chunks: set<bytes>, p: Params, ss: seq<State>, steps: seq<Step>, k: nat, h: Hash): int
    requires Run(c, chunks, p, ss, steps) && k <= |steps|
  {
    if k == 0 then 0 else Net(c, chunks, p, ss, steps, k - 1, h) + Delta(c, p, ss[k - 1], steps[k - 1], h)
  }

  // An increment that finds its row and a decrement above zero do what they are meant to do.
  lemma StatementCounts(c: Codec, p: Params, s: State, a: Step, h: Hash)
    requires Enabled(p, s, a)
    requires a.Bump? ==> c.hash(Current(p, s.owners[a.i])) in s.st.index
    requires a.Drop? ==> Count(s.st, c.hash(Pieces(p, s.owners[a.i])[s.owners[a.i].lo].data)) > 0
    ensures Count(Next(c, p, s, a).st, h) == Count(s.st, h) + Delta(c, p, s, a, h)
  {
    hide Chunks, Pieces;
  }

  lemma StepCounts(c: Codec, chunks: set<bytes>, p: Params, s: State, a: Step, h: Hash)
    requires Good(c, chunks, p, s) && Enabled(p, s, a)
    ensures Count(Next(c, p, s, a).st, h) == Count(s.st, h) + Delta(c, p, s, a, h)
  {
    hide Good, Chunks, Next, Delta, Count;
    if a.Bump? {
      MidChunkFacts(c, chunks, p, s, a.i, s.st);
    } else if a.Drop? {
      DropNeverClamps(c, chunks, p, s, a.i);
    }
    StatementCounts(c, p, s, a, h);
  }

  /** Each count is the number of increments and inserts completed minus the number of decrements. */
  lemma {:induction false} CountsDuringRun(c: Codec, chunks: set<bytes>, p: Params, ss: seq<State>, steps: seq<Step>,
                                           k: nat, h: Hash)
    requires Sound(c, chunks) && Run(c, chunks, p, ss, steps) && k <= |steps|
    requires forall j :: 0 <= j < k ==> Safe(c, p, ss[j], steps[j])
    ensures Count(ss[k].st, h) == Net(c, chunks, p, ss, steps, k, h) == Claims(c, p, ss[k].owners)[h]
  {
    hide Next, Safe, Enabled, Count;
    RunsStayGood(c, chunks, p, ss, steps, k);
    if k == 0 {
      assert ss[0] == INIT;
    } else {
      CountsDuringRun(c, chunks, p, ss, steps, k - 1, h);
      RunsStayGood(c, chunks, p, ss, steps, k - 1);
      hide Good;
      StepCounts(c, chunks, p, ss[k - 1], steps[k - 1], h);
      assert ss[k - 1 + 1] == Next(c, p, ss[k - 1], steps[k - 1]);
    }
  }

  /** In a good state every chunk that somebody references is on disk with the right bytes. */
  lemma ReferencedIsHeld(c: Codec, chunks: set<bytes>, p: Params, s: State, i: nat, k: nat)
    requires Good(c, chunks, p, s) && i < |s.owners| && s.owners[i].lo <= k < s.owners[i].hi
    ensures k < |Pieces(p, s.owners[i])| && Holds(c, s.st.files, Pieces(p, s.owners[i])[k].data)
  {
    hide Claims, Chunks, RowsBacked, RowsRight;
    var o := s.owners[i];
    assert OwnerOk(c, chunks, p, s.st, o) && WellFormed(p, chunks, o);
    var d := Pieces(p, o)[k].data;
    ClaimsPiece(c, p, s.owners, i, k);
    assert Count(s.st, c.hash(d)) > 0;
    PinnedIsHeld(c, chunks, s.st, Claims(c, p, s.owners), Half(s), d);
  }

  /**
   * A restore spread over any run: if the manifest is live whenever one of its chunks is read,
   * the j-th of them from the files of state `when[j]`, then the restore returns the disk, whatever
   * writes, releases, deaths and sweep steps come in between.
   */
  lemma RestoreDuringRun(c: Codec, chunks: set<bytes>, p: Params, ss: seq<State>, steps: seq<Step>,
                         i: nat, data: bytes, refs: seq<Ref>, when: seq<nat>)
    requires Sound(c, chunks) && Run(c, chunks, p, ss, steps)
    requires forall j :: 0 <= j < |steps| ==> Safe(c, p, ss[j], steps[j])
    requires PiecesIn(Chunks(p, data, 0), chunks)
    requires multiset(refs) == multiset(RefsOf(c, Chunks(p, data, 0)))
    requires |when| == |refs|
    requires forall j :: 0 <= j < |when| ==>
               when[j] < |ss| && i < |ss[when[j]].owners| && ss[when[j]].owners[i].data == data && ss[when[j]].owners[i].phase == Live
    ensures Restored(c, seq(|when|, j requires 0 <= j < |when| => ss[when[j]].st.files), refs, |data|) == Some(data)
  {
    var ps := Chunks(p, data, 0);
    var at: seq<Files> := seq(|when|, j requires 0 <= j < |when| => ss[when[j]].st.files);
    assert |multiset(refs)| == |multiset(RefsOf(c, ps))|;
    forall j | 0 <= j < |ps|
      ensures Holds(c, at[j], ps[j].data)
    {
      RunsStayGood(c, chunks, p, ss, steps, when[j]);
      assert OwnerOk(c, chunks, p, ss[when[j]].st, ss[when[j]].owners[i]);
      ReferencedIsHeld(c, chunks, p, ss[when[j]], i, j);
    }
    RestoreAnyOrder(c, chunks, p, data, refs, at);
  }

  /** Nobody waits for anybody: every call can take its next step or die, and so can a sweep. */
  lemma NobodyIsStuck(c: Codec, chunks: set<bytes>, p: Params, s: State, i: nat, data: bytes, h: Hash)
    requires Good(c, chunks, p, s) && i < |s.owners|
    ensures var o := s.owners[i];
            match o.phase
            case Looking => if o.hi < |Pieces(p, o)| then Enabled(p, s, Lookup(i)) else Enabled(p, s, Finish(i))
            case Found => Enabled(p, s, Bump(i))
            case Missed => Enabled(p, s, PutFile(i))
            case FileWritten => Enabled(p, s, Insert(i))
            case Live => o.lo < o.hi ==> Enabled(p, s, Drop(i))
            case Releasing => o.lo < o.hi ==> Enabled(p, s, Drop(i))
            case Dead => true
    ensures Enabled(p, s, Begin(data)) && (s.owners[i].phase != Live ==> Enabled(p, s, Die(i)))
    ensures match s.sweep
            case Idle => Enabled(p, s, SweepStart)
            case Sweeping(pending, unlinked) =>
              && Enabled(p, s, SweepDie) && (pending == {} ==> Enabled(p, s, SweepEnd))
              && (match unlinked
                  case None => h in pending ==> Enabled(p, s, SweepUnlink(h)) && Enabled(p, s, SweepSkip(h))
                  case Some(u) => Enabled(p, s, SweepDelete) && Enabled(p, s, SweepSkip(u)))
  {
    hide Claims, Chunks, RowsBacked, RowsRight, CountsAre, FilesKnown, RowsKnown;
    assert OwnerOk(c, chunks, p, s.st, s.owners[i]) && WellFormed(p, chunks, s.owners[i]);
  }

  /** A chunk write whose steps nobody interrupts does what the whole call does. */
  lemma UninterruptedWrite(c: Codec, p: Params, s: State, i: nat)
    requires At(s, i, Looking) && s.owners[i].hi < |Pieces(p, s.owners[i])|
    ensures var looked := Next(c, p, s, Lookup(i));
            var done := if looked.owners[i].phase == Found then Next(c, p, looked, Bump(i))
                        else Next(c, p, Next(c, p, looked, PutFile(i)), Insert(i));
            done == Move(s, WriteChunk(c, s.st, Current(p, s.owners[i])).0, i, Advanced(s.owners[i]))
  {
    hide Chunks;
  }
}
