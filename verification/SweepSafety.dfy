/**
 * The condition on sweeps is the weakest one.  After a safe step nothing is ever lost as long as
 * all further steps are safe; after an unsafe one a running backup or a live manifest can lose a
 * chunk even though all further steps are.
 */
module SweepSafety {
  import opened Bytes
  import opened Codec
  import opened Chunker
  import opened ChunkerLaws
  import opened StoreSpec
  import opened Restore
  import opened Owners
  import opened Interleaving

  // ---- loss ----

  /** A backup that goes on or whose manifest is live; dead calls and releases need no files. */
  predicate Going(o: Owner) {
    o.phase != Dead && o.phase != Releasing
  }

  // Owner `i` references its `k`-th chunk.
  predicate Refers(p: Params, s: State, i: nat, k: nat) {
    i < |s.owners| && Going(s.owners[i]) && s.owners[i].lo <= k < s.owners[i].hi && k < |Pieces(p, s.owners[i])|
  }

  function Chunk(p: Params, s: State, i: nat, k: nat): bytes
    requires Refers(p, s, i, k)
  {
    Pieces(p, s.owners[i])[k].data
  }

  /** Somebody needs a chunk that is not on disk, or not as it was written. */
  ghost predicate Lost(c: Codec, p: Params, s: State) {
    exists i: nat, k: nat :: Refers(p, s, i, k) && !Holds(c, s.st.files, Chunk(p, s, i, k))
  }

  ghost predicate Allowed(c: Codec, chunks: set<bytes>, p: Params, s: State, a: Step) {
    && Enabled(p, s, a) && Safe(c, p, s, a)
    && (a.Begin? ==> PiecesIn(Chunks(p, a.data, 0), chunks))
  }

  // The state after `steps`, if each of them is possible and safe where it is taken.
  ghost function After(c: Codec, chunks: set<bytes>, p: Params, s: State, steps: seq<Step>): Option<State>
    decreases |steps|
  {
    if steps == [] then Some(s)
    else if !Allowed(c, chunks, p, s, steps[0]) then None
    else After(c, chunks, p, Next(c, p, s, steps[0]), steps[1..])
  }

  /** Safe steps can lead from here to a loss. */
  ghost predicate CanLose(c: Codec, chunks: set<bytes>, p: Params, s: State) {
    exists steps :: LosesBy(c, chunks, p, s, steps)
  }

  ghost predicate LosesBy(c: Codec, chunks: set<bytes>, p: Params, s: State, steps: seq<Step>) {
    var t := After(c, chunks, p, s, steps);
    t.Some? && Lost(c, p, t.value)
  }

  lemma LoseNow(c: Codec, chunks: set<bytes>, p: Params, s: State)
    requires Lost(c, p, s)
    ensures CanLose(c, chunks, p, s)
  {
    assert LosesBy(c, chunks, p, s, []);
  }

  lemma LoseLater(c: Codec, chunks: set<bytes>, p: Params, s: State, a: Step)
    requires Allowed(c, chunks, p, s, a) && CanLose(c, chunks, p, Next(c, p, s, a))
    ensures CanLose(c, chunks, p, s)
  {
    hide Safe, Enabled, Lost, Next;
    assert Enabled(p, s, a);
    var steps :| LosesBy(c, chunks, p, Next(c, p, s, a), steps);
    assert ([a] + steps)[1..] == steps;
    assert LosesBy(c, chunks, p, s, [a] + steps);
  }

  // ---- safe steps lose nothing ----

  lemma GoodIsNotLost(c: Codec, chunks: set<bytes>, p: Params, s: State)
    requires Good(c, chunks, p, s)
    ensures !Lost(c, p, s)
  {
    hide Good, Chunks, Holds;
    forall i: nat, k: nat | Refers(p, s, i, k)
      ensures Holds(c, s.st.files, Chunk(p, s, i, k))
    {
      ReferencedIsHeld(c, chunks, p, s, i, k);
    }
  }

  lemma {:induction false} GoodStays(c: Codec, chunks: set<bytes>, p: Params, s: State, steps: seq<Step>)
    requires Sound(c, chunks) && Good(c, chunks, p, s)
    ensures !LosesBy(c, chunks, p, s, steps)
    decreases |steps|
  {
    hide Good, Next, Lost, Safe, Enabled, Sound;
    if steps == [] {
      GoodIsNotLost(c, chunks, p, s);
    } else if Allowed(c, chunks, p, s, steps[0]) {
      StepKeepsGood(c, chunks, p, s, steps[0]);
      GoodStays(c, chunks, p, Next(c, p, s, steps[0]), steps[1..]);
    }
  }

  // ---- unsafe steps can ----

  // The owners that stand at `phase` with a chunk of hash `h`.
  ghost function BusyOnes(c: Codec, p: Params, s: State, phase: Phase, h: Hash): set<nat> {
    set i: nat | i < |s.owners| && BusyAt(c, p, s.owners[i], phase, h)
  }

  // What a detour may not touch: store and sweep, and every owner that is not in the way.
  ghost predicate SameBut(c: Codec, p: Params, s: State, t: State, phase: Phase, h: Hash) {
    && t.st == s.st && t.sweep == s.sweep && |t.owners| == |s.owners|
    && forall i :: 0 <= i < |s.owners| && !BusyAt(c, p, s.owners[i], phase, h) ==> t.owners[i] == s.owners[i]
  }

  /** The calls in the way of a sweep step can die. */
  lemma {:induction false} Clear(c: Codec, chunks: set<bytes>, p: Params, s: State, phase: Phase, h: Hash) returns (t: State)
    requires phase != Live && phase != Dead
    ensures SameBut(c, p, s, t, phase, h) && !Busy(c, p, t, phase, h)
    ensures CanLose(c, chunks, p, t) ==> CanLose(c, chunks, p, s)
    decreases |BusyOnes(c, p, s, phase, h)|
  {
    if Busy(c, p, s, phase, h) {
      var i :| 0 <= i < |s.owners| && BusyAt(c, p, s.owners[i], phase, h);
      var s1 := Next(c, p, s, Die(i));
      OneFewer(c, p, s, i, phase, h);
      hide CanLose, BusyAt;
      t := Clear(c, chunks, p, s1, phase, h);
      if CanLose(c, chunks, p, t) {
        LoseLater(c, chunks, p, s, Die(i));
      }
    } else {
      t := s;
    }
  }

  lemma OneFewer(c: Codec, p: Params, s: State, i: nat, phase: Phase, h: Hash)
    requires phase != Live && phase != Dead && i < |s.owners| && BusyAt(c, p, s.owners[i], phase, h)
    ensures Enabled(p, s, Die(i)) && Safe(c, p, s, Die(i))
    ensures var s1 := Next(c, p, s, Die(i));
            && SameBut(c, p, s, s1, phase, h)
            && (forall j :: 0 <= j < |s.owners| && BusyAt(c, p, s1.owners[j], phase, h) ==> BusyAt(c, p, s.owners[j], phase, h))
            && |BusyOnes(c, p, s1, phase, h)| < |BusyOnes(c, p, s, phase, h)|
  {
    hide Chunks;
    var s1 := Next(c, p, s, Die(i));
    assert BusyOnes(c, p, s1, phase, h) == BusyOnes(c, p, s, phase, h) - {i};
  }

  // Owner `i` holds on to a chunk with hash `h` and is between two chunks.
  ghost predicate Clings(c: Codec, p: Params, s: State, i: nat, k: nat, h: Hash) {
    Refers(p, s, i, k) && s.owners[i].phase == Looking && c.hash(Chunk(p, s, i, k)) == h
  }

  // The sweep is about to unlink the file of a chunk that is referenced.
  lemma UnlinkLoses(c: Codec, chunks: set<bytes>, p: Params, s: State, i: nat, k: nat, h: Hash)
    requires Clings(c, p, s, i, k, h) && Enabled(p, s, SweepUnlink(h))
    ensures CanLose(c, chunks, p, s)
  {
    hide CanLose, Chunks;
    var t := Clear(c, chunks, p, s, FileWritten, h);
    assert t.owners[i] == s.owners[i];
    var u := Next(c, p, t, SweepUnlink(h));
    assert Refers(p, u, i, k) && !Holds(c, u.st.files, Chunk(p, u, i, k));
    LoseNow(c, chunks, p, u);
    LoseLater(c, chunks, p, t, SweepUnlink(h));
  }

  // The sweep ends the deletion of `v` and leaves everybody's references alone.
  lemma DeleteFirst(c: Codec, chunks: set<bytes>, p: Params, s: State, i: nat, k: nat, h: Hash, v: Hash) returns (t: State)
    requires Clings(c, p, s, i, k, h) && s.sweep.Sweeping? && s.sweep.unlinked == Some(v)
    ensures Clings(c, p, t, i, k, h) && t.sweep == Sweeping(s.sweep.pending - {v}, None)
    ensures t.st == DeleteRow(s.st, v)
    ensures CanLose(c, chunks, p, t) ==> CanLose(c, chunks, p, s)
  {
    hide CanLose, Chunks;
    var u := Clear(c, chunks, p, s, Found, v);
    assert u.owners[i] == s.owners[i];
    t := Next(c, p, u, SweepDelete);
    if CanLose(c, chunks, p, t) {
      LoseLater(c, chunks, p, u, SweepDelete);
    }
  }

  // A reference on a chunk that the running sweep has still to unlink.
  lemma PendingLoses(c: Codec, chunks: set<bytes>, p: Params, s: State, i: nat, k: nat, h: Hash)
    requires Clings(c, p, s, i, k, h) && h in Pending(s) && h !in Unlinked(s)
    ensures CanLose(c, chunks, p, s)
  {
    hide CanLose, Clings;
    if s.sweep.unlinked.Some? {
      var t := DeleteFirst(c, chunks, p, s, i, k, h, s.sweep.unlinked.value);
      UnlinkLoses(c, chunks, p, t, i, k, h);
    } else {
      UnlinkLoses(c, chunks, p, s, i, k, h);
    }
  }

  /** The running sweep can go on to its end; it touches nothing outside what it has left to do. */
  lemma {:induction false} Drain(c: Codec, chunks: set<bytes>, p: Params, s: State, i: nat, k: nat, h: Hash) returns (t: State)
    requires Clings(c, p, s, i, k, h) && h !in Pending(s)
    requires s.sweep.Sweeping? && s.sweep.unlinked.Some? ==> s.sweep.unlinked.value in s.sweep.pending
    ensures Clings(c, p, t, i, k, h) && t.sweep == Idle
    ensures h in t.st.index <==> h in s.st.index
    ensures h in t.st.index ==> t.st.index[h] == s.st.index[h]
    ensures CanLose(c, chunks, p, t) ==> CanLose(c, chunks, p, s)
    decreases |Pending(s)|, s.sweep.Sweeping? && s.sweep.unlinked.None?
  {
    hide CanLose, Chunks;
    if s.sweep.Idle? {
      t := s;
    } else if s.sweep.unlinked.Some? {
      var u := DeleteFirst(c, chunks, p, s, i, k, h, s.sweep.unlinked.value);
      t := Drain(c, chunks, p, u, i, k, h);
    } else if s.sweep.pending == {} {
      t := Next(c, p, s, SweepEnd);
      if CanLose(c, chunks, p, t) {
        LoseLater(c, chunks, p, s, SweepEnd);
      }
    } else {
      var v :| v in s.sweep.pending;
      var u := Clear(c, chunks, p, s, FileWritten, v);
      assert u.owners[i] == s.owners[i];
      var w := Next(c, p, u, SweepUnlink(v));
      t := Drain(c, chunks, p, w, i, k, h);
      if CanLose(c, chunks, p, t) {
        LoseLater(c, chunks, p, u, SweepUnlink(v));
      }
    }
  }

  // A chunk, taken as a disk of its own, is one chunk.
  lemma ChunkIsOneChunk(p: Params, d: bytes, k: nat)
    requires k < |Chunks(p, d, 0)|
    ensures var x := Chunks(p, d, 0)[k].data; x != [] && Chunks(p, x, 0) == [Piece(0, x)]
  {
    ResumeAtBoundary(p, d, 0, k);
    var b := Chunks(p, d, 0)[k].offset;
    var rest := d[b..];
    ChunksUnfold(p, rest, b);
    var n := FirstCut(p, rest, 0);
    var x := rest[..n];
    assert Chunks(p, d, 0)[k..][0] == Chunks(p, d, 0)[k];
    FirstCutIsFirst(p, rest, 0);
    CutsItself(p, rest, n);
    ChunksUnfold(p, x, 0);
    assert x[..n] == x && x[n..] == [];
    assert Chunks(p, x[n..], n) == [];
  }

  lemma CutsItself(p: Params, d: bytes, n: nat)
    requires CutsFirstAt(p, d, 0, n)
    ensures FirstCut(p, d[..n], 0) == n
  {
    hide IsCut;
    forall j | 0 < j < n
      ensures d[..n][..j] == d[..j]
    {
    }
    FirstCutUnique(p, d[..n], 0, n);
  }

  // Another backup of the chunk `x` comes and goes, and leaves its row with no references.
  function Visitor(c: Codec, s: State, x: bytes): State {
    var h := c.hash(x);
    s.(st := Store(s.st.index[h := Row(|x|, |Payload(c, x)|, 0)], s.st.files[h := Payload(c, x)]),
       owners := s.owners + [Owner(x, 1, 1, Releasing)])
  }

  lemma Visited(c: Codec, chunks: set<bytes>, p: Params, s: State, x: bytes)
    requires Chunks(p, x, 0) == [Piece(0, x)] && x in chunks
    requires c.hash(x) !in s.st.index && c.hash(x) !in Pending(s)
    ensures var t := Visitor(c, s, x);
            && t.sweep == s.sweep && |t.owners| == |s.owners| + 1
            && (forall i :: 0 <= i < |s.owners| ==> t.owners[i] == s.owners[i])
            && c.hash(x) in t.st.index && t.st.index[c.hash(x)].refCount == 0
            && (CanLose(c, chunks, p, t) ==> CanLose(c, chunks, p, s))
  {
    hide CanLose, Chunks, Payload;
    var n := |s.owners|;
    var s1 := Next(c, p, s, Begin(x));
    var s2 := Next(c, p, s1, Lookup(n));
    var s3 := Next(c, p, s2, PutFile(n));
    var s4 := Next(c, p, s3, Insert(n));
    var s5 := Next(c, p, s4, Finish(n));
    var s6 := Next(c, p, s5, Drop(n));
    assert s6 == Visitor(c, s, x);
    if CanLose(c, chunks, p, s6) {
      LoseLater(c, chunks, p, s5, Drop(n));
      LoseLater(c, chunks, p, s4, Finish(n));
      LoseLater(c, chunks, p, s3, Insert(n));
      LoseLater(c, chunks, p, s2, PutFile(n));
      LoseLater(c, chunks, p, s1, Lookup(n));
      LoseLater(c, chunks, p, s, Begin(x));
    }
  }

  // A reference that the index does not know: another backup of the chunk that comes and goes, and a sweep after it.
  lemma UncountedLoses(c: Codec, chunks: set<bytes>, p: Params, s: State, i: nat, k: nat, h: Hash)
    requires Clings(c, p, s, i, k, h) && Chunk(p, s, i, k) in chunks
    requires h !in s.st.index && h !in Pending(s)
    requires s.sweep.Sweeping? && s.sweep.unlinked.Some? ==> s.sweep.unlinked.value in s.sweep.pending
    ensures CanLose(c, chunks, p, s)
  {
    var x := Chunk(p, s, i, k);
    ChunkIsOneChunk(p, s.owners[i].data, k);
    hide CanLose, Chunks;
    Visited(c, chunks, p, s, x);
    var t := Drain(c, chunks, p, Visitor(c, s, x), i, k, h);
    var u := Next(c, p, t, SweepStart);
    UnlinkLoses(c, chunks, p, u, i, k, h);
    LoseLater(c, chunks, p, t, SweepStart);
  }

  lemma UnsafeCommitLoses(c: Codec, chunks: set<bytes>, p: Params, s: State, a: Step)
    requires Good(c, chunks, p, s) && Enabled(p, s, a) && !Safe(c, p, s, a)
    requires a.Bump? || a.Insert?
    ensures CanLose(c, chunks, p, Next(c, p, s, a))
  {
    hide CanLose, Chunks, RowsBacked, RowsRight, CountsAre, Claims;
    var o := s.owners[a.i];
    assert OwnerOk(c, chunks, p, s.st, o) && WellFormed(p, chunks, o);
    var t := Next(c, p, s, a);
    var h := c.hash(Current(p, o));
    assert Clings(c, p, t, a.i, o.hi, h);
    if h in Unlinked(s) {
      assert Refers(p, t, a.i, o.hi) && !Holds(c, t.st.files, Chunk(p, t, a.i, o.hi));
      LoseNow(c, chunks, p, t);
    } else {
      PendingLoses(c, chunks, p, t, a.i, o.hi, h);
    }
  }

  // The writer's insert comes after both deletions and refers to a file that is gone.
  lemma InsertLoses(c: Codec, chunks: set<bytes>, p: Params, s: State, i: nat, h: Hash)
    requires s.sweep.Sweeping? && s.sweep.unlinked == Some(h) && !Busy(c, p, s, Found, h) && h !in s.st.files
    requires i < |s.owners| && BusyAt(c, p, s.owners[i], FileWritten, h) && s.owners[i].lo <= s.owners[i].hi
    ensures CanLose(c, chunks, p, s)
  {
    hide CanLose, Chunks;
    var v := Next(c, p, s, SweepDelete);
    var w := Next(c, p, v, Insert(i));
    assert Refers(p, w, i, s.owners[i].hi) && !Holds(c, w.st.files, Chunk(p, w, i, s.owners[i].hi));
    LoseNow(c, chunks, p, w);
    LoseLater(c, chunks, p, v, Insert(i));
    LoseLater(c, chunks, p, s, SweepDelete);
  }

  lemma UnsafeUnlinkLoses(c: Codec, chunks: set<bytes>, p: Params, s: State, h: Hash)
    requires Good(c, chunks, p, s) && Enabled(p, s, SweepUnlink(h)) && !Safe(c, p, s, SweepUnlink(h))
    ensures CanLose(c, chunks, p, Next(c, p, s, SweepUnlink(h)))
  {
    hide CanLose, Chunks, RowsBacked, RowsRight, CountsAre, Claims, FilesKnown, RowsKnown;
    var i :| 0 <= i < |s.owners| && BusyAt(c, p, s.owners[i], FileWritten, h);
    assert OwnerOk(c, chunks, p, s.st, s.owners[i]) && WellFormed(p, chunks, s.owners[i]);
    var t := Next(c, p, s, SweepUnlink(h));
    var u := Clear(c, chunks, p, t, Found, h);
    assert u.owners[i] == s.owners[i];
    InsertLoses(c, chunks, p, u, i, h);
  }

  // The writer's increment finds no row, and its reference is not counted.
  lemma UnsafeDeleteLoses(c: Codec, chunks: set<bytes>, p: Params, s: State)
    requires Good(c, chunks, p, s) && Enabled(p, s, SweepDelete) && !Safe(c, p, s, SweepDelete)
    ensures CanLose(c, chunks, p, Next(c, p, s, SweepDelete))
  {
    hide CanLose, Chunks, RowsBacked, RowsRight, CountsAre, Claims;
    var h := s.sweep.unlinked.value;
    var i :| 0 <= i < |s.owners| && BusyAt(c, p, s.owners[i], Found, h);
    var o := s.owners[i];
    assert OwnerOk(c, chunks, p, s.st, o) && WellFormed(p, chunks, o);
    var t := Next(c, p, s, SweepDelete);
    var u := Next(c, p, t, Bump(i));
    assert Clings(c, p, u, i, o.hi, h);
    UncountedLoses(c, chunks, p, u, i, o.hi, h);
    LoseLater(c, chunks, p, t, Bump(i));
  }

  // Another backup finds the row that the sweep has left behind and refers to a file that is gone.
  lemma UnsafeStopLoses(c: Codec, chunks: set<bytes>, p: Params, s: State, a: Step)
    requires Good(c, chunks, p, s) && Enabled(p, s, a) && !Safe(c, p, s, a) && (a.SweepSkip? || a.SweepDie?)
    ensures CanLose(c, chunks, p, Next(c, p, s, a))
  {
    var h :| h in Half(s) && h !in s.st.files;
    var t := Next(c, p, s, a);
    assert t.st == s.st && t.owners == s.owners && h in s.st.index && h !in Pending(t);
    var i: nat, k: nat :| IsChunk(c, p, s.owners, i, k, h);
    var x := Pieces(p, s.owners[i])[k].data;
    assert OwnerOk(c, chunks, p, s.st, s.owners[i]) && WellFormed(p, chunks, s.owners[i]);
    ChunkIsOneChunk(p, s.owners[i].data, k);
    RowWithoutFileLoses(c, chunks, p, t, x);
  }

  lemma RowWithoutFileLoses(c: Codec, chunks: set<bytes>, p: Params, s: State, x: bytes)
    requires Chunks(p, x, 0) == [Piece(0, x)] && x in chunks
    requires c.hash(x) in s.st.index && c.hash(x) !in s.st.files && c.hash(x) !in Pending(s)
    ensures CanLose(c, chunks, p, s)
  {
    hide CanLose, Chunks;
    var n := |s.owners|;
    var s1 := Next(c, p, s, Begin(x));
    var s2 := Next(c, p, s1, Lookup(n));
    var s3 := Next(c, p, s2, Bump(n));
    assert Refers(p, s3, n, 0) && !Holds(c, s3.st.files, Chunk(p, s3, n, 0));
    LoseNow(c, chunks, p, s3);
    LoseLater(c, chunks, p, s2, Bump(n));
    LoseLater(c, chunks, p, s1, Lookup(n));
    LoseLater(c, chunks, p, s, Begin(x));
  }

  // The sweep dies, and the next one starts with the chunk `h`.
  function DieThenSweep(c: Codec, p: Params, s: State, h: Hash): State
    requires s.sweep.Sweeping? && h in ZeroRefs(s.st)
  {
    var begun := Next(c, p, Next(c, p, s, SweepDie), SweepStart);
    Next(c, p, Next(c, p, begun, SweepUnlink(h)), SweepDelete)
  }

  // The sweep deletes the row after all, dies, and the next one starts.
  function DeleteThenSweep(c: Codec, p: Params, s: State): State
    requires s.sweep.Sweeping? && s.sweep.unlinked.Some?
  {
    Next(c, p, Next(c, p, Next(c, p, s, SweepDelete), SweepDie), SweepStart)
  }

  lemma SameInTheEnd(c: Codec, p: Params, s: State, h: Hash)
    requires s.sweep.Sweeping? && s.sweep.unlinked == Some(h) && h in ZeroRefs(s.st) && h !in s.st.files
    ensures DieThenSweep(c, p, s, h) == DeleteThenSweep(c, p, s)
    ensures DieThenSweep(c, p, s, h).owners == s.owners && h !in DieThenSweep(c, p, s, h).st.index
  {
    hide Chunks;
    SameAsFinishing(s.st, h);
  }

  /**
   * The damage of a sweep that dies between its two deletions can be undone: as long as no backup
   * has looked the row up, the next sweep takes it away and leaves a good state.
   */
  lemma NextSweepRepairs(c: Codec, chunks: set<bytes>, p: Params, s: State, h: Hash)
    requires s.sweep.Sweeping? && s.sweep.unlinked == Some(h) && h in ZeroRefs(s.st) && h !in s.st.files
    requires !Busy(c, p, s, Found, h)
    requires Sound(c, chunks) && Good(c, chunks, p, s)
    ensures var t := DieThenSweep(c, p, s, h);
            Good(c, chunks, p, t) && t.owners == s.owners && h !in t.st.index
  {
    SameInTheEnd(c, p, s, h);
    AfterDelete(c, p, s);
    hide Good, Next, Safe, Sound, DieThenSweep;
    var deleted := Next(c, p, s, SweepDelete);
    StepKeepsGood(c, chunks, p, s, SweepDelete);
    StepKeepsGood(c, chunks, p, deleted, SweepDie);
    StepKeepsGood(c, chunks, p, Next(c, p, deleted, SweepDie), SweepStart);
  }

  lemma AfterDelete(c: Codec, p: Params, s: State)
    requires s.sweep.Sweeping? && s.sweep.unlinked.Some? && !Busy(c, p, s, Found, s.sweep.unlinked.value)
    ensures Safe(c, p, s, SweepDelete)
    ensures var deleted := Next(c, p, s, SweepDelete);
            && Enabled(p, deleted, SweepDie) && Safe(c, p, deleted, SweepDie)
            && Enabled(p, Next(c, p, deleted, SweepDie), SweepStart)
            && Safe(c, p, Next(c, p, deleted, SweepDie), SweepStart)
  {
  }

  lemma SameAsFinishing(st: Store, h: Hash)
    requires h in ZeroRefs(st) && h !in st.files
    ensures Unlink(st, h) == st
    ensures ZeroRefs(st) - {h} == ZeroRefs(DeleteRow(st, h))
  {
    assert st.files - {h} == st.files;
  }

  /**
   * The hypothesis on sweeps is exact.  From a good state, a step is safe if and only if no run of
   * safe steps after it can lose a chunk that a running backup or a live manifest references; and
   * exactly the safe steps keep the invariant.
   */
  lemma SafeIff(c: Codec, chunks: set<bytes>, p: Params, s: State, a: Step)
    requires Sound(c, chunks) && Good(c, chunks, p, s) && Enabled(p, s, a)
    requires a.Begin? ==> PiecesIn(Chunks(p, a.data, 0), chunks)
    ensures Safe(c, p, s, a) <==> !CanLose(c, chunks, p, Next(c, p, s, a))
    ensures Safe(c, p, s, a) <==> Good(c, chunks, p, Next(c, p, s, a))
  {
    if Safe(c, p, s, a) {
      hide Good, Next, Safe, CanLose;
      StepKeepsGood(c, chunks, p, s, a);
      GoodCannotLose(c, chunks, p, Next(c, p, s, a));
    } else {
      if a.Bump? || a.Insert? {
        UnsafeCommitLoses(c, chunks, p, s, a);
      } else if a.SweepUnlink? {
        UnsafeUnlinkLoses(c, chunks, p, s, a.h);
      } else if a.SweepSkip? || a.SweepDie? {
        UnsafeStopLoses(c, chunks, p, s, a);
      } else {
        UnsafeDeleteLoses(c, chunks, p, s);
      }
      hide Good, Next, Safe, CanLose;
      if Good(c, chunks, p, Next(c, p, s, a)) {
        GoodCannotLose(c, chunks, p, Next(c, p, s, a));
      }
    }
  }

  lemma GoodCannotLose(c: Codec, chunks: set<bytes>, p: Params, s: State)
    requires Sound(c, chunks) && Good(c, chunks, p, s)
    ensures !CanLose(c, chunks, p, s)
  {
    hide Good, Sound;
    forall steps
      ensures !LosesBy(c, chunks, p, s, steps)
    {
      GoodStays(c, chunks, p, s, steps);
    }
  }

  /** In every run, up to and including its first unsafe step: the step is safe if and only if loss stays out of reach. */
  lemma SafeInRunsIff(c: Codec, chunks: set<bytes>, p: Params, ss: seq<State>, steps: seq<Step>, k: nat)
    requires Sound(c, chunks) && Run(c, chunks, p, ss, steps) && k < |steps|
    requires forall j :: 0 <= j < k ==> Safe(c, p, ss[j], steps[j])
    ensures !Lost(c, p, ss[k])
    ensures Safe(c, p, ss[k], steps[k]) <==> !CanLose(c, chunks, p, ss[k + 1])
  {
    hide Good, Next, Safe, CanLose, Enabled, Lost, Sound;
    RunsStayGood(c, chunks, p, ss, steps, k);
    GoodIsNotLost(c, chunks, p, ss[k]);
    SafeIff(c, chunks, p, ss[k], steps[k]);
  }
}
