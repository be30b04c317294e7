/** `run_backup`: reading each enabled disk, storing it, and accounting for it on the job. */
module BackupService {
  import opened Bytes
  import opened Codec
  import opened Fingerprint
  import opened Chunker
  import opened ChunkerLaws
  import opened Slices
  import opened Sorting
  import opened StoreSpec
  import opened Restore
  import opened Ledger
  import opened DiskRanges
  import opened JobTypes
  import CS = ChunkStore

  datatype Image = Readable(data: bytes) | NotFound | Unreadable

  /**
   * `dirty` is QEMU's answer to the bitmap query, empty when the query fails; `fault` is what the
   * database or the chunk directory raises while the disk is being stored, if anything.
   */
  datatype Disk = Disk(enabled: bool, hasBitmap: bool, dirty: seq<Range>, image: Image, fault: Option<Fault>)

  const SYNTHETIC_SIZE: nat := 1024 * 1024

  // `_read_disk_full`: a missing image is a megabyte of zeros, any other failure raises.
  function ReadDiskFull(image: Image): Option<bytes> {
    match image
    case Readable(data) => Some(data)
    case NotFound => Some(Zeros(SYNTHETIC_SIZE))
    case Unreadable => None
  }

  function DirtyRanges(kind: Kind, d: Disk): seq<Range> {
    if kind == Incremental && d.hasBitmap then d.dirty else []
  }

  /** What `_backup_disk` hands to the store. */
  function DiskData(kind: Kind, d: Disk): Option<bytes> {
    var ranges := DirtyRanges(kind, d);
    match ReadDiskFull(d.image)
    case None => None
    case Some(full) => Some(if ranges == [] then full else Extract(full, SortBy(Start, ranges)))
  }

  /** The disk cannot be read, or storing it raises. */
  predicate Fails(p: Params, kind: Kind, d: Disk) {
    d.enabled && (DiskData(kind, d).None? || Strikes(p, DiskData(kind, d).value, d.fault))
  }

  /**
   * `refs` and the byte totals are the job's own; `stored` are the hashes it has counted in the
   * index and `uncredited` the bytes it wrote in the call that raised.
   */
  datatype Tally = Tally(st: Store, refs: seq<Ref>, bytesRead: nat, bytesWritten: nat, raised: bool,
                         stored: seq<Hash>, uncredited: nat)

  // One more disk: one that fails raises, and then nothing more happens.
  function AddDisk(c: Codec, p: Params, t: Tally, kind: Kind, d: Disk): Tally {
    if t.raised || !d.enabled then t
    else if DiskData(kind, d).None? then t.(raised := true)
    else
      var data := DiskData(kind, d).value;
      var hs := Hashes(c, Chunks(p, data, 0));
      if Strikes(p, data, d.fault) then
        var (st, written) := AbortDisk(c, p, t.st, data, d.fault.value);
        t.(st := st, raised := true, stored := t.stored + hs[..d.fault.value.stored], uncredited := written)
      else
        var (st, m) := WriteDisk(c, p, t.st, data);
        Tally(st, t.refs + m.refs, t.bytesRead + |data|, t.bytesWritten + m.uniqueBytes, false, t.stored + hs, 0)
  }

  /** The loop over the disks of a VM. */
  function BackupDisks(c: Codec, p: Params, st: Store, kind: Kind, disks: seq<Disk>): Tally {
    if disks == [] then Tally(st, [], 0, 0, false, [], 0)
    else AddDisk(c, p, BackupDisks(c, p, st, kind, disks[..|disks| - 1]), kind, disks[|disks| - 1])
  }

  lemma NoDisks(c: Codec, p: Params, st: Store, kind: Kind, disks: seq<Disk>)
    ensures BackupDisks(c, p, st, kind, disks[..0]) == Tally(st, [], 0, 0, false, [], 0)
    ensures disks[..|disks|] == disks
  {
  }

  lemma OneMoreDisk(c: Codec, p: Params, st: Store, kind: Kind, disks: seq<Disk>, i: nat)
    requires i < |disks|
    ensures BackupDisks(c, p, st, kind, disks[..i + 1]) == AddDisk(c, p, BackupDisks(c, p, st, kind, disks[..i]), kind, disks[i])
  {
    hide AddDisk;
    assert disks[..i + 1][..i] == disks[..i];
  }

  /** What the query for the parent manifest does. */
  datatype ParentQuery = Answered(parent: Option<nat>) | QueryRaised

  datatype JobManifest = JobManifest(refs: seq<Ref>, sizeBefore: nat, sizeAfter: nat, parent: Option<nat>)

  class BackupJob {
    const kind: Kind
    var status: Status
    var bytesRead: nat
    var bytesWritten: nat

    constructor (kind: Kind)
      ensures this.kind == kind && status == Queued && bytesRead == bytesWritten == 0
    {
      this.kind := kind;
      status, bytesRead, bytesWritten := Queued, 0, 0;
    }
  }

  datatype DiskResult = DiskResult(refs: seq<Ref>, bytesRead: nat, bytesWritten: nat)

  /** One disk; `None` stands for an exception. */
  method BackupDisk(kind: Kind, disk: Disk, store: CS.ChunkStore, out: array<bv64>) returns (r: Option<DiskResult>)
    requires TableReady(out)
    modifies store
    ensures DiskData(kind, disk).None? ==> r == None && store.Contents() == old(store.Contents())
    ensures DiskData(kind, disk).Some? ==>
              var data := DiskData(kind, disk).value;
              if Strikes(store.params, data, disk.fault)
              then r == None
                   && store.Contents() == AbortDisk(store.codec, store.params, old(store.Contents()), data, disk.fault.value).0
              else var (st, m) := WriteDisk(store.codec, store.params, old(store.Contents()), data);
                   store.Contents() == st && r == Some(DiskResult(m.refs, |data|, m.uniqueBytes))
  {
    var full := ReadDiskFull(disk.image);
    if full.None? {
      return None;
    }
    var data := ReadDiskRanges(full.value, DirtyRanges(kind, disk));
    var m := store.WriteDisk(data, disk.fault, out);
    return if m.None? then None else Some(DiskResult(m.value.refs, |data|, m.value.uniqueBytes));
  }

  /**
   * The job ends as a success with its manifest exactly when every enabled disk could be read and
   * stored and the parent query answered; otherwise it is failed, without sizes, and what was
   * stored so far stays referenced.
   */
  method RunBackup(job: BackupJob, disks: seq<Disk>, query: ParentQuery, store: CS.ChunkStore, out: array<bv64>)
    returns (manifest: Option<JobManifest>)
    requires TableReady(out)
    modifies job, store
    ensures var t := BackupDisks(store.codec, store.params, old(store.Contents()), job.kind, disks);
            && store.Contents() == t.st
            && (if t.raised || query.QueryRaised?
                then manifest == None && job.status == Failed
                     && job.bytesRead == old(job.bytesRead) && job.bytesWritten == old(job.bytesWritten)
                else manifest == Some(JobManifest(t.refs, job.bytesRead, job.bytesWritten, query.parent)) && job.status == Success
                     && job.bytesRead == t.bytesRead && job.bytesWritten == t.bytesWritten)
    ensures manifest.Some? <==> NoneFails(store.params, job.kind, disks) && query.Answered?
    ensures manifest.Some? ==>
              && SumLengths(manifest.value.refs) == job.bytesRead == ReadTotal(job.kind, disks)
              && job.bytesWritten <= job.bytesRead
  {
    ghost var st := store.Contents();
    JobOutcome(store.codec, store.params, st, job.kind, disks);
    NoDisks(store.codec, store.params, st, job.kind, disks);
    hide SumLengths, ReadTotal, NoneFails, WriteDisk, AbortDisk, Strikes, DiskData, BackupDisks, AddDisk, TableReady;
    job.status := Running;
    var allRefs: seq<Ref> := [];
    var totalRead: nat, totalWritten: nat := 0, 0;
    ghost var t := Tally(st, [], 0, 0, false, [], 0);
    for i := 0 to |disks|
      invariant job.status == Running && job.bytesRead == old(job.bytesRead) && job.bytesWritten == old(job.bytesWritten)
      invariant t == BackupDisks(store.codec, store.params, st, job.kind, disks[..i]) && !t.raised
      invariant t.st == store.Contents() && t.refs == allRefs && t.bytesRead == totalRead && t.bytesWritten == totalWritten
    {
      OneMoreDisk(store.codec, store.params, st, job.kind, disks, i);
      DiskOutcome(store.codec, store.params, t, job.kind, disks[i]);
      t := AddDisk(store.codec, store.params, t, job.kind, disks[i]);
      if !disks[i].enabled {
        continue;
      }
      var r := BackupDisk(job.kind, disks[i], store, out);
      if r.None? {
        job.status := Failed;
        RaisedStays(store.codec, store.params, st, job.kind, disks, i + 1);
        return None;
      }
      allRefs := allRefs + r.value.refs;
      totalRead := totalRead + r.value.bytesRead;
      totalWritten := totalWritten + r.value.bytesWritten;
    }
    if query.QueryRaised? {
      job.status := Failed;
      return None;
    }
    job.status := Success;
    job.bytesRead := totalRead;
    job.bytesWritten := totalWritten;
    return Some(JobManifest(allRefs, totalRead, totalWritten, query.parent));
  }

  // What one disk does to the tally.
  lemma DiskOutcome(c: Codec, p: Params, t: Tally, kind: Kind, d: Disk)
    requires !t.raised
    ensures var t' := AddDisk(c, p, t, kind, d);
            && (!d.enabled ==> t' == t)
            && (d.enabled && DiskData(kind, d).None? ==> t' == t.(raised := true))
            && (d.enabled && DiskData(kind, d).Some? ==>
                  var data := DiskData(kind, d).value;
                  if Strikes(p, data, d.fault) then t'.raised && t'.st == AbortDisk(c, p, t.st, data, d.fault.value).0
                  else var (st, m) := WriteDisk(c, p, t.st, data);
                       && !t'.raised && t'.st == st && t'.refs == t.refs + m.refs
                       && t'.bytesRead == t.bytesRead + |data| && t'.bytesWritten == t.bytesWritten + m.uniqueBytes)
  {
    hide WriteDisk, AbortDisk, DiskData, Hashes, Chunks;
  }

  lemma {:induction false} RaisedStays(c: Codec, p: Params, st: Store, kind: Kind, disks: seq<Disk>, i: nat)
    requires i <= |disks| && BackupDisks(c, p, st, kind, disks[..i]).raised
    ensures BackupDisks(c, p, st, kind, disks) == BackupDisks(c, p, st, kind, disks[..i])
  {
    if i < |disks| {
      assert disks[..|disks| - 1][..i] == disks[..i];
      RaisedStays(c, p, st, kind, disks[..|disks| - 1], i);
    } else {
      assert disks[..i] == disks;
    }
  }

  // ---- accounting ----

  predicate NoneFails(p: Params, kind: Kind, disks: seq<Disk>) {
    forall i :: 0 <= i < |disks| ==> !Fails(p, kind, disks[i])
  }

  // What the job reads from the disk.
  function DiskLength(kind: Kind, d: Disk): nat {
    if d.enabled && DiskData(kind, d).Some? then |DiskData(kind, d).value| else 0
  }

  /** The bytes read over the enabled disks. */
  function ReadTotal(kind: Kind, disks: seq<Disk>): nat {
    if disks == [] then 0 else
      var d := disks[|disks| - 1];
      ReadTotal(kind, disks[..|disks| - 1]) + DiskLength(kind, d)
  }

  function SumLengths(refs: seq<Ref>): nat {
    if refs == [] then 0 else SumLengths(refs[..|refs| - 1]) + refs[|refs| - 1].length
  }

  lemma {:induction false} SumLengthsAppend(a: seq<Ref>, b: seq<Ref>)
    ensures SumLengths(a + b) == SumLengths(a) + SumLengths(b)
  {
    if b == [] {
      assert a + b == a;
    } else {
      SumLengthsAppend(a, b[..|b| - 1]);
      assert (a + b)[..|a + b| - 1] == a + b[..|b| - 1];
    }
  }

  lemma {:induction false} SumLengthsOfRefs(c: Codec, ps: seq<Piece>)
    ensures SumLengths(RefsOf(c, ps)) == Sum(ps)
  {
    if ps != [] {
      SumLengthsOfRefs(c, ps[..|ps| - 1]);
      assert RefsOf(c, ps)[..|ps| - 1] == RefsOf(c, ps[..|ps| - 1]);
    }
  }

  // What one disk adds to the books.
  lemma DiskAccounting(c: Codec, p: Params, st: Store, data: bytes)
    ensures var (st', m) := WriteDisk(c, p, st, data);
            && SumLengths(m.refs) == |data| && m.uniqueBytes <= |data|
            && Total(RowSizes(st')) == Total(RowSizes(st)) + m.uniqueBytes
  {
    var ps := Chunks(p, data, 0);
    ChunksTile(p, data, 0);
    TilesSum(ps, data, 0);
    SumLengthsOfRefs(c, ps);
    StorePiecesBalance(c, st, ps);
  }

  /**
   * A job reads what its enabled disks hold, references every byte it read, writes no more than
   * that, and the index grows by exactly what it reports as written, and, when it raises, by what
   * the call that raised had written.
   */
  lemma {:induction false} JobAccounting(c: Codec, p: Params, st: Store, kind: Kind, disks: seq<Disk>)
    ensures var t := BackupDisks(c, p, st, kind, disks);
            && (t.raised <==> !NoneFails(p, kind, disks))
            && SumLengths(t.refs) == t.bytesRead && t.bytesWritten <= t.bytesRead
            && (!t.raised ==> t.bytesRead == ReadTotal(kind, disks))
            && Total(RowSizes(t.st)) == Total(RowSizes(st)) + t.bytesWritten + t.uncredited && (!t.raised ==> t.uncredited == 0)
  {
    if disks != [] {
      var front, d := disks[..|disks| - 1], disks[|disks| - 1];
      assert disks == front + [d];
      JobAccounting(c, p, st, kind, front);
      hide WriteDisk, AbortDisk, Strikes, Total, RowSizes, DiskData, Chunks, Hashes;
      var t := BackupDisks(c, p, st, kind, front);
      assert NoneFails(p, kind, disks) <==> NoneFails(p, kind, front) && !Fails(p, kind, d);
      if !t.raised && d.enabled && DiskData(kind, d).Some? {
        var data := DiskData(kind, d).value;
        if Strikes(p, data, d.fault) {
          AbortAccounting(c, p, t.st, data, d.fault);
        } else {
          DiskAccounting(c, p, t.st, data);
          SumLengthsAppend(t.refs, WriteDisk(c, p, t.st, data).1.refs);
        }
      }
    }
  }

  lemma AbortAccounting(c: Codec, p: Params, st: Store, data: bytes, fault: Option<Fault>)
    requires Strikes(p, data, fault)
    ensures var (st', written) := AbortDisk(c, p, st, data, fault.value);
            Total(RowSizes(st')) == Total(RowSizes(st)) + written
  {
    hide Chunks, Total, StorePieces;
    var ps := Chunks(p, data, 0);
    StorePiecesBalance(c, st, ps[..fault.value.stored]);
    var stored := StorePieces(c, st, ps[..fault.value.stored]).0;
    assert RowSizes(PlaceFile(c, stored, ps[fault.value.stored].data)) == RowSizes(stored);
  }

  // What a job may claim, as far as its own books go.
  lemma JobOutcome(c: Codec, p: Params, st: Store, kind: Kind, disks: seq<Disk>)
    ensures var t := BackupDisks(c, p, st, kind, disks);
            && (t.raised <==> !NoneFails(p, kind, disks))
            && SumLengths(t.refs) == t.bytesRead && t.bytesWritten <= t.bytesRead
            && (!t.raised ==> t.bytesRead == ReadTotal(kind, disks))
  {
    JobAccounting(c, p, st, kind, disks);
  }

  // ---- what the references of a job are good for ----

  ghost predicate DisksIn(p: Params, chunks: set<bytes>, kind: Kind, disks: seq<Disk>) {
    forall i :: 0 <= i < |disks| && DiskData(kind, disks[i]).Some? ==>
      PiecesIn(Chunks(p, DiskData(kind, disks[i]).value, 0), chunks)
  }

  lemma DiskPins(c: Codec, chunks: set<bytes>, p: Params, st: Store, pins: multiset<Hash>, data: bytes, fault: Option<Fault>)
    requires Sound(c, chunks) && Consistent(c, chunks, st, pins) && PiecesIn(Chunks(p, data, 0), chunks)
    ensures var hs := Hashes(c, Chunks(p, data, 0));
            if Strikes(p, data, fault)
            then Consistent(c, chunks, AbortDisk(c, p, st, data, fault.value).0, pins + multiset(hs[..fault.value.stored]))
            else Consistent(c, chunks, WriteDisk(c, p, st, data).0, pins + multiset(hs))
  {
    hide Consistent, Sound, Chunks, StorePieces, PlaceFile;
    var ps := Chunks(p, data, 0);
    var hs := Hashes(c, ps);
    if Strikes(p, data, fault) {
      var n := fault.value.stored;
      StorePiecesKeeps(c, chunks, st, pins, ps[..n]);
      assert Hashes(c, ps[..n])[0..n] == hs[..n];
      PlaceFileKeeps(c, chunks, StorePieces(c, st, ps[..n]).0, pins + multiset(hs[..n]), ps[n].data);
    } else {
      StorePiecesKeeps(c, chunks, st, pins, ps);
      assert hs[0..|ps|] == hs;
    }
  }

  /** A job counts exactly the references it stored, also when it fails half-way; a job that does not fail lists them all. */
  lemma {:induction false} JobPins(c: Codec, chunks: set<bytes>, p: Params, st: Store, pins: multiset<Hash>, kind: Kind, disks: seq<Disk>)
    requires Sound(c, chunks) && Consistent(c, chunks, st, pins) && DisksIn(p, chunks, kind, disks)
    ensures var t := BackupDisks(c, p, st, kind, disks);
            && Consistent(c, chunks, t.st, pins + multiset(t.stored))
            && (!t.raised ==> t.stored == CS.Shas(t.refs))
  {
    hide Consistent, Sound, DiskData, Chunks, WriteDisk, AbortDisk, Strikes;
    if disks == [] {
      assert pins + multiset(CS.Shas([])) == pins;
    } else {
      var front, d := disks[..|disks| - 1], disks[|disks| - 1];
      assert disks == front + [d];
      JobPins(c, chunks, p, st, pins, kind, front);
      var t := BackupDisks(c, p, st, kind, front);
      if !t.raised && d.enabled && DiskData(kind, d).Some? {
        assert DiskData(kind, disks[|disks| - 1]).Some?;
        var data := DiskData(kind, d).value;
        DiskPins(c, chunks, p, t.st, pins + multiset(t.stored), data, d.fault);
        DiskLists(c, p, t, kind, d);
        PinsAppend(pins, t.stored, AddDisk(c, p, t, kind, d).stored[|t.stored|..]);
      }
    }
  }

  // What a disk adds to the hashes that a job has counted.
  lemma DiskLists(c: Codec, p: Params, t: Tally, kind: Kind, d: Disk)
    requires !t.raised && d.enabled && DiskData(kind, d).Some?
    ensures var data := DiskData(kind, d).value;
            var hs := Hashes(c, Chunks(p, data, 0));
            var t' := AddDisk(c, p, t, kind, d);
            && t'.stored == t.stored + (if Strikes(p, data, d.fault) then hs[..d.fault.value.stored] else hs)
            && t'.stored[|t.stored|..] == (if Strikes(p, data, d.fault) then hs[..d.fault.value.stored] else hs)
            && (!t'.raised && t.stored == CS.Shas(t.refs) ==> t'.stored == CS.Shas(t'.refs))
  {
    hide DiskData, Chunks, AbortDisk, StorePieces;
    CS.ShasOfRefs(c, Chunks(p, DiskData(kind, d).value, 0));
  }

  lemma PinsAppend(pins: multiset<Hash>, x: seq<Hash>, y: seq<Hash>)
    ensures pins + multiset(x + y) == pins + multiset(x) + multiset(y)
  {
  }

  function DiskRefs(c: Codec, p: Params, kind: Kind, d: Disk): seq<Ref> {
    if d.enabled && DiskData(kind, d).Some? then RefsOf(c, Chunks(p, DiskData(kind, d).value, 0)) else []
  }

  /** The references that a job over `disks` lists when nothing fails: the disks' references in a row. */
  function JobRefs(c: Codec, p: Params, kind: Kind, disks: seq<Disk>): seq<Ref> {
    if disks == [] then [] else
      JobRefs(c, p, kind, disks[..|disks| - 1]) + DiskRefs(c, p, kind, disks[|disks| - 1])
  }

  lemma {:induction false} RefsAreJobRefs(c: Codec, p: Params, st: Store, kind: Kind, disks: seq<Disk>)
    requires !BackupDisks(c, p, st, kind, disks).raised
    ensures BackupDisks(c, p, st, kind, disks).refs == JobRefs(c, p, kind, disks)
  {
    hide DiskData, Chunks, Strikes, StorePieces;
    if disks != [] {
      RefsAreJobRefs(c, p, st, kind, disks[..|disks| - 1]);
    }
  }

  // Disk `k` has its own stretch of the job's references.
  lemma {:induction false} StretchOfDisk(c: Codec, p: Params, kind: Kind, disks: seq<Disk>, k: nat)
    requires k < |disks|
    ensures var refs, lo, hi := JobRefs(c, p, kind, disks), |JobRefs(c, p, kind, disks[..k])|, |JobRefs(c, p, kind, disks[..k + 1])|;
            lo <= hi <= |refs| && refs[lo..hi] == DiskRefs(c, p, kind, disks[k])
  {
    hide DiskRefs;
    var n := |disks| - 1;
    var before, mine := JobRefs(c, p, kind, disks[..n]), DiskRefs(c, p, kind, disks[n]);
    if k == n {
      TakeAll(disks);
      TailOfAppend(before, mine);
    } else {
      StretchOfDisk(c, p, kind, disks[..n], k);
      TakeTake(disks, k, n);
      TakeTake(disks, k + 1, n);
      SliceOfAppend(before, mine, |JobRefs(c, p, kind, disks[..k])|, |JobRefs(c, p, kind, disks[..k + 1])|);
    }
  }

  lemma StretchWithin<T>(s: seq<T>, lo: nat, hi: nat)
    requires lo <= hi <= |s|
    ensures multiset(s[lo..hi]) <= multiset(s)
  {
    assert s == s[..lo] + s[lo..hi] + s[hi..];
  }

  lemma StretchRestores(c: Codec, chunks: set<bytes>, p: Params, st: Store, pins: multiset<Hash>, refs: seq<Ref>,
                        lo: nat, hi: nat, data: bytes)
    requires Sound(c, chunks) && Consistent(c, chunks, st, pins) && PiecesIn(Chunks(p, data, 0), chunks)
    requires multiset(CS.Shas(refs)) <= pins
    requires lo <= hi <= |refs| && refs[lo..hi] == RefsOf(c, Chunks(p, data, 0))
    ensures Restored(c, Still(st.files, hi - lo), refs[lo..hi], |data|) == Some(data)
  {
    hide Consistent, Sound, Chunks, Restored;
    var ps := Chunks(p, data, 0);
    CS.ShasOfRefs(c, ps);
    var shas := CS.Shas(refs);
    assert Hashes(c, ps)[0..|ps|] == CS.Shas(refs[lo..hi]) == shas[lo..hi];
    StretchWithin(shas, lo, hi);
    hide CS.Shas, Hashes;
    PinnedManifestRestores(c, chunks, st, pins, p, data);
  }

  /** In any consistent store that still counts a job's references, each of its disks restores from its own stretch. */
  lemma PinnedJobRestores(c: Codec, chunks: set<bytes>, p: Params, st: Store, pins: multiset<Hash>, kind: Kind, disks: seq<Disk>, k: nat)
    requires Sound(c, chunks) && Consistent(c, chunks, st, pins) && DisksIn(p, chunks, kind, disks)
    requires multiset(CS.Shas(JobRefs(c, p, kind, disks))) <= pins
    requires k < |disks| && disks[k].enabled && DiskData(kind, disks[k]).Some?
    ensures var refs, data := JobRefs(c, p, kind, disks), DiskData(kind, disks[k]).value;
            var lo, hi := |JobRefs(c, p, kind, disks[..k])|, |JobRefs(c, p, kind, disks[..k + 1])|;
            && lo <= hi <= |refs|
            && Restored(c, Still(st.files, hi - lo), refs[lo..hi], |data|) == Some(data)
  {
    hide Consistent, Sound, DiskData, Chunks, JobRefs, Restored;
    var lo, hi := |JobRefs(c, p, kind, disks[..k])|, |JobRefs(c, p, kind, disks[..k + 1])|;
    StretchOfDisk(c, p, kind, disks, k);
    StretchRestores(c, chunks, p, st, pins, JobRefs(c, p, kind, disks), lo, hi, DiskData(kind, disks[k]).value);
  }

  lemma {:induction false} ReadableUpTo(c: Codec, p: Params, st: Store, kind: Kind, disks: seq<Disk>, k: nat)
    requires k <= |disks| && !BackupDisks(c, p, st, kind, disks).raised
    ensures !BackupDisks(c, p, st, kind, disks[..k]).raised
  {
    if BackupDisks(c, p, st, kind, disks[..k]).raised {
      RaisedStays(c, p, st, kind, disks, k);
    }
  }

  /** After a successful job, each enabled disk restores from its own stretch of the manifest. */
  lemma JobDisksRestore(c: Codec, chunks: set<bytes>, p: Params, st: Store, pins: multiset<Hash>, kind: Kind, disks: seq<Disk>, k: nat)
    requires Sound(c, chunks) && Consistent(c, chunks, st, pins) && DisksIn(p, chunks, kind, disks)
    requires k < |disks| && disks[k].enabled && !BackupDisks(c, p, st, kind, disks).raised
    ensures DiskData(kind, disks[k]).Some?
    ensures var t, data := BackupDisks(c, p, st, kind, disks), DiskData(kind, disks[k]).value;
            var lo, hi := |BackupDisks(c, p, st, kind, disks[..k]).refs|, |BackupDisks(c, p, st, kind, disks[..k + 1]).refs|;
            && lo <= hi <= |t.refs|
            && Restored(c, Still(t.st.files, hi - lo), t.refs[lo..hi], |data|) == Some(data)
  {
    hide Consistent, Sound, DiskData, Chunks, BackupDisks, Restored, JobRefs;
    var t := BackupDisks(c, p, st, kind, disks);
    JobAccounting(c, p, st, kind, disks);
    assert !Fails(p, kind, disks[k]);
    JobPins(c, chunks, p, st, pins, kind, disks);
    RefsAreJobRefs(c, p, st, kind, disks);
    ReadableUpTo(c, p, st, kind, disks, k);
    RefsAreJobRefs(c, p, st, kind, disks[..k]);
    ReadableUpTo(c, p, st, kind, disks, k + 1);
    RefsAreJobRefs(c, p, st, kind, disks[..k + 1]);
    PinnedJobRestores(c, chunks, p, t.st, pins + multiset(t.stored), kind, disks, k);
  }

  // ---- what is read from which disk ----

  /** A full job, a disk without a bitmap and an empty answer to the query read the whole image. */
  predicate ReadsAll(kind: Kind, d: Disk) {
    kind == Full || !d.hasBitmap || d.dirty == []
  }

  /** What a disk image holds; one that is not there counts as a megabyte of zeros. */
  predicate Shows(image: Image, x: bytes) {
    image == Readable(x) || (image == NotFound && x == seq(1048576, _ => 0))
  }

  lemma DataOfWhole(kind: Kind, d: Disk, x: bytes)
    requires ReadsAll(kind, d) && Shows(d.image, x)
    ensures DiskData(kind, d) == Some(x)
  {
  }

  lemma DataOfRanges(d: Disk, x: bytes)
    requires !ReadsAll(Incremental, d) && Shows(d.image, x)
    ensures DiskData(Incremental, d) == Some(Extract(x, SortBy(Start, d.dirty)))
  {
    hide Extract, SortBy;
  }

  lemma OneDiskRead(c: Codec, p: Params, st: Store, kind: Kind, disks: seq<Disk>, k: nat)
    requires k < |disks| && !BackupDisks(c, p, st, kind, disks).raised
    ensures BackupDisks(c, p, st, kind, disks[..k + 1]).bytesRead
         == BackupDisks(c, p, st, kind, disks[..k]).bytesRead + DiskLength(kind, disks[k])
  {
    hide BackupDisks, DiskData, Chunks, WriteDisk, AbortDisk, Hashes;
    OneMoreDisk(c, p, st, kind, disks, k);
    ReadableUpTo(c, p, st, kind, disks, k);
    ReadableUpTo(c, p, st, kind, disks, k + 1);
  }

  /** Such a disk comes back whole from its stretch of the job's references, and counts whole as read. */
  lemma WholeDiskRestores(c: Codec, chunks: set<bytes>, p: Params, st: Store, pins: multiset<Hash>, kind: Kind, disks: seq<Disk>,
                          k: nat, x: bytes)
    requires Sound(c, chunks) && Consistent(c, chunks, st, pins) && DisksIn(p, chunks, kind, disks)
    requires !BackupDisks(c, p, st, kind, disks).raised
    requires k < |disks| && disks[k].enabled && ReadsAll(kind, disks[k]) && Shows(disks[k].image, x)
    ensures var t, lo, hi := BackupDisks(c, p, st, kind, disks),
                             |BackupDisks(c, p, st, kind, disks[..k]).refs|, |BackupDisks(c, p, st, kind, disks[..k + 1]).refs|;
            && lo <= hi <= |t.refs|
            && Restored(c, Still(t.st.files, hi - lo), t.refs[lo..hi], |x|) == Some(x)
            && BackupDisks(c, p, st, kind, disks[..k + 1]).bytesRead == BackupDisks(c, p, st, kind, disks[..k]).bytesRead + |x|
  {
    DataOfWhole(kind, disks[k], x);
    hide Sound, Consistent, DisksIn, BackupDisks, Restored, DiskData, ReadsAll, Shows;
    JobDisksRestore(c, chunks, p, st, pins, kind, disks, k);
    OneDiskRead(c, p, st, kind, disks, k);
  }

  /** Any other disk gives its slices in offset order, which for disjoint ranges are the dirty bytes that it has. */
  lemma DirtyDiskRestores(c: Codec, chunks: set<bytes>, p: Params, st: Store, pins: multiset<Hash>, disks: seq<Disk>, k: nat, x: bytes)
    requires Sound(c, chunks) && Consistent(c, chunks, st, pins) && DisksIn(p, chunks, Incremental, disks)
    requires !BackupDisks(c, p, st, Incremental, disks).raised
    requires k < |disks| && disks[k].enabled && !ReadsAll(Incremental, disks[k]) && Shows(disks[k].image, x)
    ensures var t, lo, hi := BackupDisks(c, p, st, Incremental, disks),
                             |BackupDisks(c, p, st, Incremental, disks[..k]).refs|,
                             |BackupDisks(c, p, st, Incremental, disks[..k + 1]).refs|;
            var n := LengthWithin(disks[k].dirty, |x|);
            && lo <= hi <= |t.refs|
            && Restored(c, Still(t.st.files, hi - lo), t.refs[lo..hi], n) == Some(Extract(x, SortBy(Start, disks[k].dirty)))
            && (Disjoint(disks[k].dirty) ==>
                  Restored(c, Still(t.st.files, hi - lo), t.refs[lo..hi], n) == Some(CoveredBytes(x, disks[k].dirty, |x|)))
            && BackupDisks(c, p, st, Incremental, disks[..k + 1]).bytesRead
               == BackupDisks(c, p, st, Incremental, disks[..k]).bytesRead + n
  {
    DataOfRanges(disks[k], x);
    hide Sound, Consistent, DisksIn, BackupDisks, Restored, DiskData, ReadsAll, Shows, Extract, SortBy, Disjoint, CoveredBytes, LengthWithin;
    DeltaLength(x, disks[k].dirty);
    if Disjoint(disks[k].dirty) {
      DeltaIsCoveredBytes(x, disks[k].dirty);
    }
    JobDisksRestore(c, chunks, p, st, pins, Incremental, disks, k);
    OneDiskRead(c, p, st, Incremental, disks, k);
  }

  /** One enabled disk whose image cannot be read makes the job fail; a disk that is not enabled is left out. */
  lemma UnreadableOrDisabled(c: Codec, p: Params, st: Store, kind: Kind, disks: seq<Disk>, k: nat)
    requires k < |disks|
    ensures disks[k].enabled && disks[k].image == Unreadable ==> BackupDisks(c, p, st, kind, disks).raised
    ensures !disks[k].enabled ==> BackupDisks(c, p, st, kind, disks[..k + 1]) == BackupDisks(c, p, st, kind, disks[..k])
  {
    if disks[k].enabled && disks[k].image == Unreadable {
      JobOutcome(c, p, st, kind, disks);
      assert Fails(p, kind, disks[k]);
    }
    hide BackupDisks, DiskData, Strikes, Hashes, WriteDisk, AbortDisk;
    OneMoreDisk(c, p, st, kind, disks, k);
  }

  // ---- when the whole list of references restores through `read_manifest` ----

  predicate ShowsAt(r: Ref, pos: nat) {
    r.offset <= pos < r.offset + r.length
  }

  predicate Shown(refs: seq<Ref>, pos: nat) {
    exists i :: 0 <= i < |refs| && ShowsAt(refs[i], pos)
  }

  /** Every position from `lo` to `hi` belongs to exactly one reference, and no other position to any. */
  ghost predicate EndToEnd(refs: seq<Ref>, lo: nat, hi: nat) {
    && (forall pos: nat :: Shown(refs, pos) <==> lo <= pos < hi)
    && (forall i, j, pos: nat :: 0 <= i < j < |refs| && ShowsAt(refs[i], pos) ==> !ShowsAt(refs[j], pos))
  }

  lemma {:induction false} TilesEndToEnd(c: Codec, ps: seq<Piece>, d: bytes, at: nat)
    requires Tiles(ps, d, at)
    ensures EndToEnd(RefsOf(c, ps), at, at + |d|)
    decreases |ps|
  {
    if ps != [] {
      var n := |ps[0].data|;
      TilesEndToEnd(c, ps[1..], d[n..], at + n);
      assert RefsOf(c, ps) == [RefOf(c, ps[0])] + RefsOf(c, ps[1..]);
      OneMoreRef(RefOf(c, ps[0]), RefsOf(c, ps[1..]), at + n, at + |d|);
    }
  }

  lemma OneMoreRef(r: Ref, rest: seq<Ref>, mid: nat, hi: nat)
    requires r.length > 0 && r.offset + r.length == mid <= hi && EndToEnd(rest, mid, hi)
    ensures EndToEnd([r] + rest, r.offset, hi)
  {
    var refs := [r] + rest;
    forall pos: nat
      ensures Shown(refs, pos) <==> ShowsAt(r, pos) || Shown(rest, pos)
    {
      if ShowsAt(r, pos) {
        assert ShowsAt(refs[0], pos);
      }
      if Shown(rest, pos) {
        var i :| 0 <= i < |rest| && ShowsAt(rest[i], pos);
        assert ShowsAt(refs[i + 1], pos);
      }
    }
    forall i, j, pos: nat | 0 <= i < j < |refs| && ShowsAt(refs[i], pos)
      ensures !ShowsAt(refs[j], pos)
    {
      if i == 0 {
        assert ShowsAt(rest[j - 1], pos) ==> Shown(rest, pos);
      }
    }
  }

  // The job gets at least one byte from the disk.
  predicate Yields(kind: Kind, d: Disk) {
    DiskLength(kind, d) > 0
  }

  predicate AtMostOneYields(kind: Kind, disks: seq<Disk>) {
    forall i, j :: 0 <= i < j < |disks| && Yields(kind, disks[i]) ==> !Yields(kind, disks[j])
  }

  /** The bytes of the enabled disks, one disk after the other. */
  function JobData(kind: Kind, disks: seq<Disk>): (r: bytes)
    ensures |r| == ReadTotal(kind, disks)
  {
    if disks == [] then [] else
      var d := disks[|disks| - 1];
      JobData(kind, disks[..|disks| - 1]) + (if d.enabled && DiskData(kind, d).Some? then DiskData(kind, d).value else [])
  }

  lemma {:induction false} NoDataYields(kind: Kind, disks: seq<Disk>)
    requires forall i :: 0 <= i < |disks| ==> !Yields(kind, disks[i])
    ensures JobData(kind, disks) == []
  {
    hide DiskData;
    if disks != [] {
      NoDataYields(kind, disks[..|disks| - 1]);
    }
  }

  lemma {:induction false} NothingYields(c: Codec, p: Params, kind: Kind, disks: seq<Disk>)
    requires forall i :: 0 <= i < |disks| ==> !Yields(kind, disks[i])
    ensures JobData(kind, disks) == [] && JobRefs(c, p, kind, disks) == []
  {
    hide DiskData;
    NoDataYields(kind, disks);
    if disks != [] {
      NothingYields(c, p, kind, disks[..|disks| - 1]);
    }
  }

  // A job with one disk that yields bytes lists that disk's references.
  lemma {:induction false} OneDiskRefs(c: Codec, p: Params, kind: Kind, disks: seq<Disk>)
    requires AtMostOneYields(kind, disks)
    ensures JobRefs(c, p, kind, disks) == RefsOf(c, Chunks(p, JobData(kind, disks), 0))
  {
    hide DiskData;
    if disks != [] {
      var front, d := disks[..|disks| - 1], disks[|disks| - 1];
      if Yields(kind, d) {
        assert disks[|disks| - 1] == d;
        NothingYields(c, p, kind, front);
        assert [] + DiskData(kind, d).value == DiskData(kind, d).value;
      } else {
        OneDiskRefs(c, p, kind, front);
        assert d.enabled && DiskData(kind, d).Some? ==> RefsOf(c, Chunks(p, DiskData(kind, d).value, 0)) == [];
        assert JobData(kind, front) + [] == JobData(kind, front);
        assert JobRefs(c, p, kind, front) + [] == JobRefs(c, p, kind, front);
      }
    }
  }

  // The first reference of a disk that yields bytes shows position 0.
  lemma DiskStartsAtZero(c: Codec, p: Params, kind: Kind, disks: seq<Disk>, k: nat)
    requires k < |disks| && Yields(kind, disks[k])
    ensures var lo, hi := |JobRefs(c, p, kind, disks[..k])|, |JobRefs(c, p, kind, disks[..k + 1])|;
            lo < hi <= |JobRefs(c, p, kind, disks)| && ShowsAt(JobRefs(c, p, kind, disks)[lo], 0)
  {
    hide DiskData, JobRefs;
    var data := DiskData(kind, disks[k]).value;
    var refs, lo, hi := JobRefs(c, p, kind, disks), |JobRefs(c, p, kind, disks[..k])|, |JobRefs(c, p, kind, disks[..k + 1])|;
    StretchOfDisk(c, p, kind, disks, k);
    ChunksTile(p, data, 0);
    hide Chunks;
    assert refs[lo..hi][0] == RefOf(c, Chunks(p, data, 0)[0]);
  }

  // The stretch of an earlier disk ends before that of a later one begins.
  lemma {:induction false} StretchesInOrder(c: Codec, p: Params, kind: Kind, disks: seq<Disk>, i: nat, j: nat)
    requires i <= j <= |disks|
    ensures |JobRefs(c, p, kind, disks[..i])| <= |JobRefs(c, p, kind, disks[..j])|
  {
    hide DiskData, Chunks;
    if i < j {
      StretchesInOrder(c, p, kind, disks, i, j - 1);
      assert disks[..j][..j - 1] == disks[..j - 1];
    }
  }

  /**
   * The references of a job that did not raise lie end to end over the bytes it read exactly when
   * at most one of its enabled disks yields any bytes: offsets restart at 0 for each disk.
   */
  lemma JobTilesIff(c: Codec, p: Params, st: Store, kind: Kind, disks: seq<Disk>)
    requires !BackupDisks(c, p, st, kind, disks).raised
    ensures var t := BackupDisks(c, p, st, kind, disks);
            EndToEnd(t.refs, 0, t.bytesRead) <==> AtMostOneYields(kind, disks)
  {
    hide BackupDisks, EndToEnd, AtMostOneYields;
    RefsAreJobRefs(c, p, st, kind, disks);
    JobOutcome(c, p, st, kind, disks);
    RefsTileIff(c, p, kind, disks);
  }

  lemma RefsTileIff(c: Codec, p: Params, kind: Kind, disks: seq<Disk>)
    ensures EndToEnd(JobRefs(c, p, kind, disks), 0, ReadTotal(kind, disks)) <==> AtMostOneYields(kind, disks)
  {
    hide DiskData, Chunks, JobRefs, ReadTotal, JobData, Yields;
    if AtMostOneYields(kind, disks) {
      hide AtMostOneYields, EndToEnd;
      OneDiskRefs(c, p, kind, disks);
      ChunksTile(p, JobData(kind, disks), 0);
      TilesEndToEnd(c, Chunks(p, JobData(kind, disks), 0), JobData(kind, disks), 0);
    } else {
      var i, j :| 0 <= i < j < |disks| && Yields(kind, disks[i]) && Yields(kind, disks[j]);
      DiskStartsAtZero(c, p, kind, disks, i);
      DiskStartsAtZero(c, p, kind, disks, j);
      StretchesInOrder(c, p, kind, disks, i + 1, j);
    }
  }

  /** Then the manifest of the job restores through `read_manifest` to that disk. */
  lemma OneDiskJobRestores(c: Codec, chunks: set<bytes>, p: Params, st: Store, pins: multiset<Hash>, kind: Kind, disks: seq<Disk>)
    requires Sound(c, chunks) && Consistent(c, chunks, st, pins) && DisksIn(p, chunks, kind, disks)
    requires !BackupDisks(c, p, st, kind, disks).raised && AtMostOneYields(kind, disks)
    ensures var t := BackupDisks(c, p, st, kind, disks);
            Restored(c, Still(t.st.files, |t.refs|), t.refs, t.bytesRead) == Some(JobData(kind, disks))
  {
    var t := BackupDisks(c, p, st, kind, disks);
    JobPins(c, chunks, p, st, pins, kind, disks);
    RefsAreJobRefs(c, p, st, kind, disks);
    JobAccounting(c, p, st, kind, disks);
    OneDiskRefs(c, p, kind, disks);
    JobDataIn(p, chunks, kind, disks);
    hide BackupDisks, DiskData, Chunks, JobRefs, Restored, Consistent, Sound, ReadTotal, JobData;
    var ps := Chunks(p, JobData(kind, disks), 0);
    CS.ShasOfRefs(c, ps);
    assert Hashes(c, ps)[0..|ps|] == Hashes(c, ps);
    PinnedManifestRestores(c, chunks, t.st, pins + multiset(t.stored), p, JobData(kind, disks));
  }

  lemma {:induction false} JobDataIn(p: Params, chunks: set<bytes>, kind: Kind, disks: seq<Disk>)
    requires DisksIn(p, chunks, kind, disks) && AtMostOneYields(kind, disks)
    ensures PiecesIn(Chunks(p, JobData(kind, disks), 0), chunks)
  {
    if disks != [] {
      var front, d := disks[..|disks| - 1], disks[|disks| - 1];
      assert disks[|disks| - 1] == d;
      if Yields(kind, d) {
        NoDataYields(kind, front);
        assert [] + DiskData(kind, d).value == DiskData(kind, d).value;
      } else {
        JobDataIn(p, chunks, kind, front);
        assert JobData(kind, front) + [] == JobData(kind, front);
      }
    }
  }

  /**
   * An incremental job of one disk restores through `read_manifest` to the gathered slices, moved
   * together.  For disjoint ranges these are the dirty bytes in ascending position,
   * and they are the disk exactly when the ranges cover all of it.
   */
  lemma IncrementalRestoresIff(c: Codec, chunks: set<bytes>, p: Params, st: Store, pins: multiset<Hash>, d: Disk, full: bytes)
    requires Sound(c, chunks) && Consistent(c, chunks, st, pins) && DisksIn(p, chunks, Incremental, [d])
    requires d.enabled && d.hasBitmap && d.dirty != [] && d.image == Readable(full) && !Fails(p, Incremental, d)
    ensures var t := BackupDisks(c, p, st, Incremental, [d]);
            var r := Restored(c, Still(t.st.files, |t.refs|), t.refs, t.bytesRead);
            && r == Some(Extract(full, SortBy(Start, d.dirty)))
            && (Disjoint(d.dirty) ==>
                  && r == Some(CoveredBytes(full, d.dirty, |full|))
                  && (r == Some(full) <==> forall k: nat :: k < |full| ==> Covered(d.dirty, k)))
  {
    hide Sound, Consistent, Chunks, Restored, Disjoint, Extract, SortBy, CoveredBytes, Covered, Strikes, BackupDisks;
    assert [d][..0] == [] && JobData(Incremental, []) == [];
    assert JobData(Incremental, [d]) == Extract(full, SortBy(Start, d.dirty));
    JobOutcome(c, p, st, Incremental, [d]);
    OneDiskJobRestores(c, chunks, p, st, pins, Incremental, [d]);
    if Disjoint(d.dirty) {
      DeltaIsCoveredBytes(full, d.dirty);
      CoveredIsAllIff(full, d.dirty);
    }
  }

  // The chunk of `r` is on disk and fits below `top`.
  predicate Fits(c: Codec, files: Files, top: nat, r: Ref) {
    r.sha in files && r.offset + |Decompress(c, files[r.sha])| <= top
  }

  lemma {:induction false} AssembleTail(c: Codec, files: Files, refs: seq<Ref>, buf: bytes, top: nat)
    requires top <= |buf| && forall r :: r in refs ==> Fits(c, files, top, r)
    requires forall pos :: top <= pos < |buf| ==> buf[pos] == 0
    ensures var r := Assemble(c, Still(files, |refs|), refs, buf);
            r.Some? && |r.value| == |buf| && forall pos :: top <= pos < |buf| ==> r.value[pos] == 0
  {
    if refs != [] {
      assert Still(files, |refs|)[1..] == Still(files, |refs| - 1);
      assert Fits(c, files, top, refs[0]);
      var d := Decompress(c, files[refs[0].sha]);
      PatchAt(buf, refs[0].offset, d);
      hide PyPatch, Decompress;
      AssembleTail(c, files, refs[1..], PyPatch(buf, refs[0].offset, d), top);
    }
  }

  lemma DiskRefsFit(c: Codec, chunks: set<bytes>, p: Params, st: Store, pins: multiset<Hash>, data: bytes, top: nat)
    requires Sound(c, chunks) && Consistent(c, chunks, st, pins) && PiecesIn(Chunks(p, data, 0), chunks)
    requires multiset(Hashes(c, Chunks(p, data, 0))) <= pins && |data| <= top
    ensures forall r :: r in RefsOf(c, Chunks(p, data, 0)) ==> Fits(c, st.files, top, r)
  {
    var ps := Chunks(p, data, 0);
    ChunksTile(p, data, 0);
    hide Chunks, Consistent, Sound;
    forall i | 0 <= i < |ps|
      ensures Fits(c, st.files, top, RefOf(c, ps[i]))
    {
      TileAt(ps, data, 0, i);
      assert Hashes(c, ps)[i] == c.hash(ps[i].data);
      assert c.hash(ps[i].data) in multiset(Hashes(c, ps));
      HeldAndReadBack(c, chunks, st, pins, ps[i].data);
    }
  }

  lemma HeldAndReadBack(c: Codec, chunks: set<bytes>, st: Store, pins: multiset<Hash>, d: bytes)
    requires Sound(c, chunks) && Consistent(c, chunks, st, pins) && d in chunks && c.hash(d) in pins
    ensures c.hash(d) in st.files && Decompress(c, st.files[c.hash(d)]) == d
  {
    PinnedIsHeld(c, chunks, st, pins, {}, d);
    HeldReadsBack(c, chunks, st.files, d);
  }

  // No disk of the job is longer than `top`.
  predicate NoneLonger(kind: Kind, disks: seq<Disk>, top: nat) {
    forall i :: 0 <= i < |disks| ==> DiskLength(kind, disks[i]) <= top
  }

  lemma {:induction false} JobRefsFit(c: Codec, chunks: set<bytes>, p: Params, st: Store, pins: multiset<Hash>,
                                      kind: Kind, disks: seq<Disk>, top: nat)
    requires Sound(c, chunks) && Consistent(c, chunks, st, pins) && DisksIn(p, chunks, kind, disks)
    requires multiset(CS.Shas(JobRefs(c, p, kind, disks))) <= pins && NoneLonger(kind, disks, top)
    ensures forall r :: r in JobRefs(c, p, kind, disks) ==> Fits(c, st.files, top, r)
  {
    if disks != [] {
      var front, d := disks[..|disks| - 1], disks[|disks| - 1];
      FrontAndLast(p, chunks, kind, disks, top);
      var mine := DiskRefs(c, p, kind, d);
      var before := JobRefs(c, p, kind, front);
      assert JobRefs(c, p, kind, disks) == before + mine;
      hide Sound, Consistent, DiskData, Chunks, Fits, JobRefs, CS.Shas, NoneLonger, DisksIn;
      ShasAppend(before, mine);
      JobRefsFit(c, chunks, p, st, pins, kind, front, top);
      if d.enabled && DiskData(kind, d).Some? {
        CS.ShasOfRefs(c, Chunks(p, DiskData(kind, d).value, 0));
        DiskRefsFit(c, chunks, p, st, pins, DiskData(kind, d).value, top);
      }
    }
  }

  lemma FrontAndLast(p: Params, chunks: set<bytes>, kind: Kind, disks: seq<Disk>, top: nat)
    requires disks != [] && DisksIn(p, chunks, kind, disks) && NoneLonger(kind, disks, top)
    ensures var front, d := disks[..|disks| - 1], disks[|disks| - 1];
            && DisksIn(p, chunks, kind, front) && NoneLonger(kind, front, top)
            && (d.enabled && DiskData(kind, d).Some? ==>
                  PiecesIn(Chunks(p, DiskData(kind, d).value, 0), chunks) && |DiskData(kind, d).value| <= top)
  {
    hide DiskData, Chunks;
    assert disks[|disks| - 1] == disks[|disks| - 1];
  }

  lemma ShasAppend(x: seq<Ref>, y: seq<Ref>)
    ensures CS.Shas(x + y) == CS.Shas(x) + CS.Shas(y)
    ensures multiset(CS.Shas(x)) <= multiset(CS.Shas(x + y)) && multiset(CS.Shas(y)) <= multiset(CS.Shas(x + y))
  {
    assert CS.Shas(x + y) == CS.Shas(x) + CS.Shas(y);
  }

  /**
   * With several disks `read_manifest` succeeds and is wrong: everything beyond the length of the
   * longest disk comes back as zeros.
   */
  lemma JobRestoreTail(c: Codec, chunks: set<bytes>, p: Params, st: Store, pins: multiset<Hash>,
                       kind: Kind, disks: seq<Disk>, top: nat)
    requires Sound(c, chunks) && Consistent(c, chunks, st, pins) && DisksIn(p, chunks, kind, disks)
    requires !BackupDisks(c, p, st, kind, disks).raised && NoneLonger(kind, disks, top)
    ensures var t := BackupDisks(c, p, st, kind, disks);
            top <= t.bytesRead ==>
              var r := Restored(c, Still(t.st.files, |t.refs|), t.refs, t.bytesRead);
              && r.Some? && |r.value| == t.bytesRead
              && forall pos :: top <= pos < t.bytesRead ==> r.value[pos] == 0
  {
    hide DiskData, Chunks, Consistent, Sound, DisksIn, NoneLonger, JobRefs, BackupDisks, CS.Shas;
    var t := BackupDisks(c, p, st, kind, disks);
    JobPins(c, chunks, p, st, pins, kind, disks);
    RefsAreJobRefs(c, p, st, kind, disks);
    JobRefsFit(c, chunks, p, t.st, pins + multiset(t.stored), kind, disks, top);
    SortBySorts(Offset, t.refs);
    var sorted := SortBy(Offset, t.refs);
    forall r | r in sorted
      ensures r in t.refs
    {
      assert r in multiset(sorted);
    }
    if top <= t.bytesRead {
      AssembleTail(c, t.st.files, sorted, Zeros(t.bytesRead), top);
    }
  }

  // The length of the longest disk that the job reads.
  function Longest(kind: Kind, disks: seq<Disk>): nat {
    if disks == [] then 0 else
      var n, rest := DiskLength(kind, disks[|disks| - 1]), Longest(kind, disks[..|disks| - 1]);
      if n > rest then n else rest
  }

  lemma {:induction false} LongestIsAll(kind: Kind, disks: seq<Disk>)
    ensures NoneLonger(kind, disks, Longest(kind, disks)) && Longest(kind, disks) <= ReadTotal(kind, disks)
    ensures Longest(kind, disks) == ReadTotal(kind, disks) ==> AtMostOneYields(kind, disks)
  {
    hide DiskLength;
    if disks != [] {
      var front, d := disks[..|disks| - 1], disks[|disks| - 1];
      LongestIsAll(kind, front);
      assert front + [d] == disks;
      assert forall i :: 0 <= i < |front| ==> disks[i] == front[i];
    }
  }

  /**
   * The whole manifest of a job restores to its disks one after the other exactly when at most one
   * of them yields bytes, whenever the last of these bytes is not zero.  (Zeros at the end can be
   * right by chance.)
   */
  lemma JobRestoresIff(c: Codec, chunks: set<bytes>, p: Params, st: Store, pins: multiset<Hash>, kind: Kind, disks: seq<Disk>)
    requires Sound(c, chunks) && Consistent(c, chunks, st, pins) && DisksIn(p, chunks, kind, disks)
    requires !BackupDisks(c, p, st, kind, disks).raised
    ensures var t := BackupDisks(c, p, st, kind, disks);
            var r := Restored(c, Still(t.st.files, |t.refs|), t.refs, t.bytesRead);
            && r.Some? && |r.value| == t.bytesRead == |JobData(kind, disks)|
            && (AtMostOneYields(kind, disks) ==> r == Some(JobData(kind, disks)))
            && (t.bytesRead > 0 && JobData(kind, disks)[t.bytesRead - 1] != 0 ==>
                  (r == Some(JobData(kind, disks)) <==> AtMostOneYields(kind, disks)))
  {
    hide Sound, Consistent, DisksIn, BackupDisks, Restored, DiskData, NoneLonger, AtMostOneYields, Longest;
    LongestIsAll(kind, disks);
    JobOutcome(c, p, st, kind, disks);
    JobRestoreTail(c, chunks, p, st, pins, kind, disks, Longest(kind, disks));
    if AtMostOneYields(kind, disks) {
      OneDiskJobRestores(c, chunks, p, st, pins, kind, disks);
    }
  }

  // Two one-byte disks of a full backup.
  function TwoDisks(a: byte, b: byte): seq<Disk> {
    [Disk(true, false, [], Readable([a]), None), Disk(true, false, [], Readable([b]), None)]
  }

  lemma TwoDisksTally(c: Codec, p: Params, a: byte, b: byte)
    ensures var t := BackupDisks(c, p, EMPTY_STORE, Full, TwoDisks(a, b));
            && !t.raised && t.bytesRead == 2
            && t.refs == [Ref(c.hash([a]), 0, 1), Ref(c.hash([b]), 0, 1)]
    ensures JobData(Full, TwoDisks(a, b)) == [a, b]
    ensures DisksIn(p, {[a], [b]}, Full, TwoDisks(a, b))
  {
    OneByteDisk(p, a);
    OneByteDisk(p, b);
    hide Chunks, StorePieces;
    var disks := TwoDisks(a, b);
    assert disks[..1] == [disks[0]] && disks[..1][..0] == [];
    assert [disks[0]][..0] == [];
    var none := BackupDisks(c, p, EMPTY_STORE, Full, []);
    assert none == Tally(EMPTY_STORE, [], 0, 0, false, [], 0);
    var one := BackupDisks(c, p, EMPTY_STORE, Full, [disks[0]]);
    assert one == AddDisk(c, p, none, Full, disks[0]);
    assert BackupDisks(c, p, EMPTY_STORE, Full, disks) == AddDisk(c, p, one, Full, disks[1]);
    assert JobData(Full, []) == [] && JobData(Full, [disks[0]]) == [a];
  }

  /** A job of two one-byte disks: its manifest restores to the disks one after the other only if both are zero. */
  lemma TwoDisksRestore(c: Codec, p: Params, a: byte, b: byte)
    requires Sound(c, {[a], [b]})
    ensures var t := BackupDisks(c, p, EMPTY_STORE, Full, TwoDisks(a, b));
            && !t.raised && JobData(Full, TwoDisks(a, b)) == [a, b]
            && var r := Restored(c, Still(t.st.files, |t.refs|), t.refs, t.bytesRead);
               r == Some([b, 0]) && (r == Some([a, b]) <==> a == 0 && b == 0)
  {
    hide Sound, BackupDisks, Restored, Holds, Consistent;
    var chunks := {[a], [b]};
    var disks := TwoDisks(a, b);
    TwoDisksTally(c, p, a, b);
    NothingStored(c, chunks);
    JobPins(c, chunks, p, EMPTY_STORE, multiset{}, Full, disks);
    var t := BackupDisks(c, p, EMPTY_STORE, Full, disks);
    assert CS.Shas(t.refs) == [c.hash([a]), c.hash([b])];
    PinnedInPlace(c, chunks, t.st, multiset{} + multiset(t.stored), [a]);
    PinnedInPlace(c, chunks, t.st, multiset{} + multiset(t.stored), [b]);
    TwoDisksOverwrite(c, p, t.st.files, a, b);
    assert [b, 0] == [a, b] <==> a == 0 && b == 0;
  }

  lemma NothingStored(c: Codec, chunks: set<bytes>)
    ensures Consistent(c, chunks, EMPTY_STORE, multiset{})
  {
  }

  lemma PinnedInPlace(c: Codec, chunks: set<bytes>, st: Store, pins: multiset<Hash>, d: bytes)
    requires Consistent(c, chunks, st, pins) && d in chunks && c.hash(d) in pins
    ensures Holds(c, st.files, d)
  {
    PinnedIsHeld(c, chunks, st, pins, {}, d);
  }

  lemma SortTwo(x: Ref, y: Ref)
    requires x.offset == y.offset
    ensures SortBy(Offset, [x, y]) == [x, y]
  {
    assert [x, y][..1] == [x] && [x][..0] == [];
    assert SortBy(Offset, []) == [] && SortBy(Offset, [x]) == [x];
  }

  lemma PatchTwo(a: byte, b: byte)
    ensures PyPatch(Zeros(2), 0, [a]) == [a, 0] && PyPatch([a, 0], 0, [b]) == [b, 0]
  {
  }

  // Two references at offset 0: the later one in the list wins, and the second byte stays zero.
  lemma TwoDisksOverwrite(c: Codec, p: Params, files: Files, a: byte, b: byte)
    requires Sound(c, {[a], [b]}) && Holds(c, files, [a]) && Holds(c, files, [b])
    ensures Restored(c, Still(files, 2), [Ref(c.hash([a]), 0, 1), Ref(c.hash([b]), 0, 1)], 2) == Some([b, 0])
  {
    var x, y := Ref(c.hash([a]), 0, 1), Ref(c.hash([b]), 0, 1);
    SortTwo(x, y);
    HeldReadsBack(c, {[a], [b]}, files, [a]);
    HeldReadsBack(c, {[a], [b]}, files, [b]);
    PatchTwo(a, b);
    hide SortBy, PyPatch, Decompress, Sound, Zeros, Holds;
    var at := Still(files, 2);
    assert Assemble(c, at[2..], [x, y][2..], [b, 0]) == Some([b, 0]);
    assert [x, y][1..] == [y] && at[1..] == Still(files, 1);
    assert Assemble(c, at[1..], [y], [a, 0]) == Some([b, 0]);
  }
}
