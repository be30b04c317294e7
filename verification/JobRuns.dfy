/**
 * Jobs and store together: whole runs in which the consumer's runs fill the chunk store, fail,
 * die or are delivered again, while manifests are released and sweeps go over the store.
 */
module JobRuns {
  import opened Bytes
  import opened Codec
  import opened Chunker
  import opened StoreSpec
  import opened Restore
  import opened JobTypes
  import opened BackupService
  import BP = BackupProtocol
  import CS = ChunkStore

  /** What a run has backed up. */
  datatype Content = Content(kind: Kind, disks: seq<Disk>)

  /**
   * `contents` goes with the protocol's manifests, `open` with the one that waits for its commit;
   * `lost` are the references that failed runs have counted and no manifest lists.
   */
  datatype System = System(s: BP.State, st: Store, contents: seq<Content>, open: Option<Content>,
                           lost: multiset<Hash>, released: set<nat>)

  const INIT := System(BP.INIT, EMPTY_STORE, [], None, multiset{}, {})

  /** A step of the protocol other than the loop over the disks, that loop, a release, or a sweep. */
  datatype Op =
    | Protocol(a: BP.Step)
    | RunDisks(disks: seq<Disk>, queryRaises: bool)
    | ReleaseManifest(k: nat)
    | Sweep(dryRun: bool)

  function KindInHand(x: System): Kind
    requires x.s.handler.Working?
  {
    var j := BP.JobOf(x.s, x.s.handler.m);
    if j < |x.s.jobs| then x.s.jobs[j].kind else Full
  }

  function Refs(c: Codec, p: Params, content: Content): seq<Ref> {
    JobRefs(c, p, content.kind, content.disks)
  }

  /** The references of one manifest. */
  function Pins(c: Codec, p: Params, content: Content): multiset<Hash> {
    multiset(CS.Shas(Refs(c, p, content)))
  }

  function OpenPins(c: Codec, p: Params, open: Option<Content>): multiset<Hash> {
    if open.Some? then Pins(c, p, open.value) else multiset{}
  }

  /** The references of the manifests that have not been released. */
  function LivePins(c: Codec, p: Params, contents: seq<Content>, released: set<nat>): multiset<Hash> {
    if contents == [] then multiset{} else
      var k := |contents| - 1;
      LivePins(c, p, contents[..k], released) + (if k in released then multiset{} else Pins(c, p, contents[k]))
  }

  predicate Enabled(x: System, op: Op) {
    match op
    case Protocol(a) => !a.Work? && BP.Enabled(x.s, a)
    case RunDisks(_, _) => x.s.handler.Working?
    case ReleaseManifest(k) => k < |x.contents| && k !in x.released
    case Sweep(_) => true
  }

  // What a step of the protocol does to a manifest that waits for its commit.
  function Settle(c: Codec, p: Params, x: System, s': BP.State): System {
    if x.open.None? then x.(s := s')
    else if |s'.manifests| > |x.s.manifests| then x.(s := s', contents := x.contents + [x.open.value], open := None)
    else if s'.handler.Closing? then x.(s := s')
    else x.(s := s', open := None, lost := x.lost + Pins(c, p, x.open.value))
  }

  function Do(c: Codec, p: Params, x: System, op: Op): System
    requires Enabled(x, op)
  {
    match op
    case Protocol(a) => Settle(c, p, x, BP.Next(x.s, a))
    case RunDisks(disks, queryRaises) =>
      var t := BackupDisks(c, p, x.st, KindInHand(x), disks);
      var raised := t.raised || queryRaises;
      var s' := BP.Next(x.s, BP.Work(raised));
      if raised then x.(s := s', st := t.st, lost := x.lost + multiset(t.stored))
      else x.(s := s', st := t.st, open := Some(Content(KindInHand(x), disks)))
    case ReleaseManifest(k) =>
      x.(st := DecrementAll(x.st, CS.Shas(Refs(c, p, x.contents[k]))), released := x.released + {k})
    case Sweep(dryRun) => if dryRun then x else x.(st := Swept(x.st))
  }

  ghost predicate OpIn(p: Params, chunks: set<bytes>, x: System, op: Op)
    requires Enabled(x, op)
  {
    op.RunDisks? ==> DisksIn(p, chunks, KindInHand(x), op.disks)
  }

  ghost predicate Run(c: Codec, chunks: set<bytes>, p: Params, xs: seq<System>, ops: seq<Op>) {
    && Sound(c, chunks)
    && |xs| == |ops| + 1
    && xs[0] == INIT
    && forall i :: 0 <= i < |ops| ==>
         Enabled(xs[i], ops[i]) && OpIn(p, chunks, xs[i], ops[i]) && xs[i + 1] == Do(c, p, xs[i], ops[i])
  }

  // ---- the invariant ----

  // Everything that should be counted.
  function AllPins(c: Codec, p: Params, x: System): multiset<Hash> {
    LivePins(c, p, x.contents, x.released) + OpenPins(c, p, x.open) + x.lost
  }

  ghost predicate Complete(p: Params, chunks: set<bytes>, content: Content) {
    DisksIn(p, chunks, content.kind, content.disks) && NoneFails(p, content.kind, content.disks)
  }

  ghost predicate Matches(x: System) {
    && |x.contents| == |x.s.manifests|
    && (x.open.Some? <==> x.s.handler.Closing?)
  }

  ghost predicate Sane(c: Codec, chunks: set<bytes>, p: Params, x: System) {
    && BP.MessagesOk(x.s) && BP.NeverTwo(x.s)
    && Matches(x)
    && Consistent(c, chunks, x.st, AllPins(c, p, x))
    && (forall k :: 0 <= k < |x.contents| ==> Complete(p, chunks, x.contents[k]))
    && (x.open.Some? ==> Complete(p, chunks, x.open.value))
  }

  lemma {:induction false} ReleasePins(c: Codec, p: Params, contents: seq<Content>, released: set<nat>, k: nat)
    requires k < |contents| && k !in released
    ensures LivePins(c, p, contents, released) == LivePins(c, p, contents, released + {k}) + Pins(c, p, contents[k])
  {
    hide Pins;
    var n := |contents| - 1;
    if k < n {
      ReleasePins(c, p, contents[..n], released, k);
    } else {
      LaterReleased(c, p, contents[..n], released, k);
    }
  }

  lemma {:induction false} LaterReleased(c: Codec, p: Params, contents: seq<Content>, released: set<nat>, k: nat)
    requires |contents| <= k
    ensures LivePins(c, p, contents, released + {k}) == LivePins(c, p, contents, released)
  {
    hide Pins;
    if contents != [] {
      LaterReleased(c, p, contents[..|contents| - 1], released, k);
    }
  }

  lemma CommitPins(c: Codec, p: Params, contents: seq<Content>, released: set<nat>, content: Content)
    requires |contents| !in released
    ensures LivePins(c, p, contents + [content], released) == LivePins(c, p, contents, released) + Pins(c, p, content)
  {
    hide Pins;
    assert (contents + [content])[..|contents|] == contents;
  }

  // ---- one operation at a time ----

  // A step of the protocol appends at most one manifest, and only at a commit.
  lemma ProtocolStep(s: BP.State, a: BP.Step)
    requires BP.Enabled(s, a) && !a.Work?
    ensures var s' := BP.Next(s, a);
            && |s.manifests| <= |s'.manifests| <= |s.manifests| + 1
            && (|s'.manifests| > |s.manifests| ==> s.handler.Closing? && !s'.handler.Closing?)
            && (s'.handler.Closing? ==> s.handler.Closing?)
  {
    hide BP.HasFullSuccess, BP.NewestSuccess, BP.HasManifest, BP.CheckCreate, BP.CheckCancel;
    if BP.Endpoint(a) {
      BP.EndpointFrame(s, a);
    }
  }

  lemma SamePins(c: Codec, p: Params, x: System, s': BP.State)
    requires x.open.Some? && |s'.manifests| > |x.s.manifests| ==> |x.contents| !in x.released
    ensures AllPins(c, p, Settle(c, p, x, s')) == AllPins(c, p, x)
  {
    hide Pins, LivePins;
    if x.open.Some? && |s'.manifests| > |x.s.manifests| {
      CommitPins(c, p, x.contents, x.released, x.open.value);
    }
  }

  ghost predicate ReleasedExist(x: System) {
    forall k :: k in x.released ==> k < |x.contents|
  }

  lemma ProtocolKeepsSane(c: Codec, chunks: set<bytes>, p: Params, x: System, a: BP.Step)
    requires Sane(c, chunks, p, x) && ReleasedExist(x) && Enabled(x, Protocol(a))
    ensures Sane(c, chunks, p, Do(c, p, x, Protocol(a)))
  {
    hide BP.MessagesOk, BP.NeverTwo, BP.Next, BP.Enabled, Consistent, AllPins, Complete, Pins;
    BP.MessagesStayOk(x.s, a);
    BP.StepKeepsNeverTwo(x.s, a);
    ProtocolStep(x.s, a);
    assert x.open.Some? && |BP.Next(x.s, a).manifests| > |x.s.manifests| ==> |x.contents| !in x.released;
    SamePins(c, p, x, BP.Next(x.s, a));
  }

  lemma RaisedPins(c: Codec, p: Params, x: System, more: multiset<Hash>, x': System)
    requires x'.contents == x.contents && x'.released == x.released && x'.open == x.open && x'.lost == x.lost + more
    ensures AllPins(c, p, x') == AllPins(c, p, x) + more
  {
    hide LivePins, Pins;
  }

  lemma OpenedPins(c: Codec, p: Params, x: System, content: Content, x': System)
    requires x'.contents == x.contents && x'.released == x.released && x'.lost == x.lost
    requires x.open == None && x'.open == Some(content)
    ensures AllPins(c, p, x') == AllPins(c, p, x) + Pins(c, p, content)
  {
    hide LivePins, Pins;
  }

  lemma WorkStep(s: BP.State, raised: bool)
    requires s.handler.Working?
    ensures var s' := BP.Next(s, BP.Work(raised));
            s'.manifests == s.manifests && (s'.handler.Closing? <==> !raised)
  {
    hide BP.NewestSuccess;
  }

  lemma RunKeepsSane(c: Codec, chunks: set<bytes>, p: Params, x: System, disks: seq<Disk>, queryRaises: bool)
    requires Sound(c, chunks) && Sane(c, chunks, p, x) && Enabled(x, RunDisks(disks, queryRaises))
    requires OpIn(p, chunks, x, RunDisks(disks, queryRaises))
    ensures Sane(c, chunks, p, Do(c, p, x, RunDisks(disks, queryRaises)))
  {
    hide BP.MessagesOk, BP.NeverTwo, BP.Next, Consistent, AllPins, BackupDisks, DisksIn, NoneFails, Sound, JobRefs, CS.Shas;
    var kind := KindInHand(x);
    var t := BackupDisks(c, p, x.st, kind, disks);
    var raised := t.raised || queryRaises;
    var x' := Do(c, p, x, RunDisks(disks, queryRaises));
    BP.MessagesStayOk(x.s, BP.Work(raised));
    BP.StepKeepsNeverTwo(x.s, BP.Work(raised));
    WorkStep(x.s, raised);
    JobPins(c, chunks, p, x.st, AllPins(c, p, x), kind, disks);
    JobOutcome(c, p, x.st, kind, disks);
    if raised {
      RaisedPins(c, p, x, multiset(t.stored), x');
    } else {
      RefsAreJobRefs(c, p, x.st, kind, disks);
      OpenedPins(c, p, x, Content(kind, disks), x');
    }
  }

  lemma ReleaseKeepsSane(c: Codec, chunks: set<bytes>, p: Params, x: System, k: nat)
    requires Sane(c, chunks, p, x) && Enabled(x, ReleaseManifest(k))
    ensures Sane(c, chunks, p, Do(c, p, x, ReleaseManifest(k)))
  {
    hide BP.MessagesOk, BP.NeverTwo, Consistent, LivePins, OpenPins, DecrementAll, Complete, CS.Shas, JobRefs;
    var x' := Do(c, p, x, ReleaseManifest(k));
    ReleasePins(c, p, x.contents, x.released, k);
    assert AllPins(c, p, x) == AllPins(c, p, x') + multiset(CS.Shas(Refs(c, p, x.contents[k])));
    DecrementAllKeeps(c, chunks, x.st, AllPins(c, p, x'), CS.Shas(Refs(c, p, x.contents[k])));
  }

  lemma SweepKeepsSane(c: Codec, chunks: set<bytes>, p: Params, x: System, dryRun: bool)
    requires Sane(c, chunks, p, x)
    ensures Sane(c, chunks, p, Do(c, p, x, Sweep(dryRun)))
  {
    hide Consistent, Swept, LivePins, OpenPins, Complete, BP.MessagesOk, BP.NeverTwo;
    SweptKeeps(c, chunks, x.st, AllPins(c, p, x));
  }

  lemma DoKeepsReleased(c: Codec, p: Params, x: System, op: Op)
    requires ReleasedExist(x) && Enabled(x, op)
    ensures ReleasedExist(Do(c, p, x, op))
  {
    hide BP.Next, BackupDisks, Pins, DecrementAll, Swept, Refs;
  }

  lemma DoKeepsSane(c: Codec, chunks: set<bytes>, p: Params, x: System, op: Op)
    requires Sound(c, chunks) && Sane(c, chunks, p, x) && ReleasedExist(x) && Enabled(x, op) && OpIn(p, chunks, x, op)
    ensures Sane(c, chunks, p, Do(c, p, x, op)) && ReleasedExist(Do(c, p, x, op))
  {
    hide Sane, Sound, ReleasedExist, Do;
    DoKeepsReleased(c, p, x, op);
    match op
    case Protocol(a) => ProtocolKeepsSane(c, chunks, p, x, a);
    case RunDisks(disks, queryRaises) => RunKeepsSane(c, chunks, p, x, disks, queryRaises);
    case ReleaseManifest(k) => ReleaseKeepsSane(c, chunks, p, x, k);
    case Sweep(dryRun) => SweepKeepsSane(c, chunks, p, x, dryRun);
  }

  lemma {:induction false} RunsStaySane(c: Codec, chunks: set<bytes>, p: Params, xs: seq<System>, ops: seq<Op>, n: nat)
    requires Run(c, chunks, p, xs, ops) && n <= |ops|
    ensures Sane(c, chunks, p, xs[n]) && ReleasedExist(xs[n])
  {
    if n > 0 {
      hide Do, Sane, Enabled, OpIn, Sound, ReleasedExist;
      RunsStaySane(c, chunks, p, xs, ops, n - 1);
      DoKeepsSane(c, chunks, p, xs[n - 1], ops[n - 1]);
      assert xs[n - 1 + 1] == Do(c, p, xs[n - 1], ops[n - 1]);
    }
  }

  // ---- what it is for ----

  // The stretch of disk `d` in the references of a manifest.
  function From(c: Codec, p: Params, content: Content, d: nat): nat
    requires d <= |content.disks|
  {
    |JobRefs(c, p, content.kind, content.disks[..d])|
  }

  /** Every enabled disk comes back from its own stretch of the manifest. */
  ghost predicate DisksRestore(c: Codec, p: Params, files: Files, content: Content) {
    forall d :: 0 <= d < |content.disks| && content.disks[d].enabled ==> DiskRestores(c, p, files, content, d)
  }

  ghost predicate DiskRestores(c: Codec, p: Params, files: Files, content: Content, d: nat)
    requires d < |content.disks|
  {
    var lo, hi := From(c, p, content, d), From(c, p, content, d + 1);
    var data := DiskData(content.kind, content.disks[d]);
    && data.Some?
    && lo <= hi <= |Refs(c, p, content)|
    && Restored(c, Still(files, hi - lo), Refs(c, p, content)[lo..hi], |data.value|) == data
  }

  /**
   * In every state of every run, whatever acks are lost and whatever runs failed or were repeated:
   * a successful job has exactly one manifest, and unless that is released every enabled disk
   * restores from its own stretch of it, with all that it shares with released manifests.
   */
  lemma SuccessfulJobsRestore(c: Codec, chunks: set<bytes>, p: Params, xs: seq<System>, ops: seq<Op>, n: nat, j: nat)
    requires Run(c, chunks, p, xs, ops) && n <= |ops| && BP.IsSuccess(xs[n].s, j)
    ensures var x := xs[n];
            exists k :: 0 <= k < |x.contents| && |x.contents| == |x.s.manifests|
              && (forall l :: 0 <= l < |x.s.manifests| ==> (x.s.manifests[l].job == j <==> l == k))
              && (k !in x.released ==> DisksRestore(c, p, x.st.files, x.contents[k]))
  {
    var x := xs[n];
    RunsStaySane(c, chunks, p, xs, ops, n);
    assert BP.HasManifest(x.s, j);
    var k :| 0 <= k < |x.s.manifests| && x.s.manifests[k].job == j;
    if k !in x.released {
      LiveDisksRestore(c, chunks, p, x, k);
    }
  }

  lemma LiveDisksRestore(c: Codec, chunks: set<bytes>, p: Params, x: System, k: nat)
    requires Sound(c, chunks) && Sane(c, chunks, p, x) && k < |x.contents| && k !in x.released
    ensures DisksRestore(c, p, x.st.files, x.contents[k])
  {
    hide Sound, Consistent, DiskData, JobRefs, Restored, LivePins, BP.MessagesOk, BP.NeverTwo;
    var content := x.contents[k];
    ReleasePins(c, p, x.contents, x.released, k);
    assert Pins(c, p, content) <= AllPins(c, p, x);
    forall d | 0 <= d < |content.disks| && content.disks[d].enabled
      ensures DiskRestores(c, p, x.st.files, content, d)
    {
      assert !Fails(p, content.kind, content.disks[d]);
      PinnedJobRestores(c, chunks, p, x.st, AllPins(c, p, x), content.kind, content.disks, d);
    }
  }

  /** A real sweep leaves exactly the chunks that something still references; a dry run changes nothing. */
  lemma SweepsInRuns(c: Codec, chunks: set<bytes>, p: Params, xs: seq<System>, ops: seq<Op>, n: nat)
    requires Run(c, chunks, p, xs, ops) && n < |ops| && ops[n].Sweep?
    ensures ops[n].dryRun ==> xs[n + 1] == xs[n]
    ensures !ops[n].dryRun ==>
              && (forall h :: h in xs[n + 1].st.index <==> h in AllPins(c, p, xs[n]))
              && xs[n + 1].s == xs[n].s && xs[n + 1].contents == xs[n].contents
  {
    hide LivePins, OpenPins;
    RunsStaySane(c, chunks, p, xs, ops, n);
    SweptKeeps(c, chunks, xs[n].st, AllPins(c, p, xs[n]));
  }

  /**
   * Each count is the chunk's multiplicity over unreleased manifests and the one about to be
   * committed, plus exactly the references that failed runs have left behind.
   */
  lemma CountsExplained(c: Codec, chunks: set<bytes>, p: Params, xs: seq<System>, ops: seq<Op>, n: nat, h: Hash)
    requires Run(c, chunks, p, xs, ops) && n <= |ops|
    ensures var x := xs[n];
            Count(x.st, h) == LivePins(c, p, x.contents, x.released)[h] + OpenPins(c, p, x.open)[h] + x.lost[h]
  {
    hide LivePins, OpenPins, Do, Enabled, OpIn;
    RunsStaySane(c, chunks, p, xs, ops, n);
    assert Count(xs[n].st, h) == AllPins(c, p, xs[n])[h];
  }
}
