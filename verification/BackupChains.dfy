/** What the job protocol guarantees over whole runs: final successes, cancelled jobs, manifest chains. */
module BackupChains {
  import opened Bytes
  import opened JobTypes
  import opened BackupProtocol

  // ---- the chain that a restore would walk ----

  /** Following `parent` from manifest `k`; the guard keeps the walk finite on any data at all. */
  function Chain(s: State, k: nat): seq<nat>
    requires k < |s.manifests|
  {
    match s.manifests[k].parent
    case None => [k]
    case Some(q) => if q < k then [k] + Chain(s, q) else [k]
  }

  /** The manifests of `vm` among the first `n`, newest first. */
  function Lineage(s: State, vm: nat, n: nat): seq<nat> {
    if n == 0 then [] else (if Belongs(s, n - 1, vm) then [n - 1] else []) + Lineage(s, vm, n - 1)
  }

  lemma {:induction false} LineageFromNewest(s: State, vm: nat, n: nat)
    ensures match Newest(s, vm, n)
            case None => Lineage(s, vm, n) == []
            case Some(q) => q < n && Belongs(s, q, vm) && Lineage(s, vm, n) == [q] + Lineage(s, vm, q)
  {
    if n > 0 && !Belongs(s, n - 1, vm) {
      LineageFromNewest(s, vm, n - 1);
    }
  }

  /** A lineage lists each manifest of its VM exactly once, strictly back in time. */
  lemma {:induction false} LineageIsComplete(s: State, vm: nat, n: nat)
    ensures forall k: nat :: k in Lineage(s, vm, n) <==> k < n && Belongs(s, k, vm)
    ensures forall i, j :: 0 <= i < j < |Lineage(s, vm, n)| ==> Lineage(s, vm, n)[i] > Lineage(s, vm, n)[j]
  {
    if n > 0 {
      LineageIsComplete(s, vm, n - 1);
      var rest := Lineage(s, vm, n - 1);
      forall i | 0 <= i < |rest|
        ensures rest[i] < n - 1
      {
        assert rest[i] in rest;
      }
    }
  }

  /**
   * The chain of a manifest is the whole lineage of its VM up to it: it stays within one VM, goes
   * strictly back in time, visits every earlier manifest exactly once and ends.
   */
  lemma {:induction false} ChainIsLineage(s: State, k: nat)
    requires Good(s) && k < |s.manifests|
    ensures Chain(s, k) == Lineage(s, VmOf(s, s.manifests[k].job), k + 1)
  {
    var vm := VmOf(s, s.manifests[k].job);
    assert Belongs(s, k, vm);
    LineageFromNewest(s, vm, k);
    if s.manifests[k].parent.Some? {
      var q := s.manifests[k].parent.value;
      ChainIsLineage(s, q);
      assert Lineage(s, vm, q + 1) == [q] + Lineage(s, vm, q);
    }
  }

  /** Every chain ends in a full backup, so every incremental has one to start from. */
  lemma {:induction false} ChainEndsInFull(s: State, k: nat)
    requires Good(s) && k < |s.manifests|
    ensures var chain := Chain(s, k); chain != [] && IsFull(s, chain[|chain| - 1])
  {
    var vm := VmOf(s, s.manifests[k].job);
    LineageFromNewest(s, vm, k);
    if s.manifests[k].parent.Some? {
      ChainEndsInFull(s, s.manifests[k].parent.value);
    } else {
      LineageIsComplete(s, vm, k);
      assert forall f: nat :: f < k ==> !Belongs(s, f, vm);
    }
  }

  /** In every state of every run that meets the hypotheses, every chain is the VM's whole lineage and ends in a full backup. */
  lemma ChainsInOrderlyRuns(ss: seq<State>, steps: seq<Step>, n: nat, k: nat)
    requires Run(ss, steps) && n <= |steps| && k < |ss[n].manifests|
    requires forall i :: 0 <= i < n ==> Orderly(ss[i], steps[i])
    ensures var s := ss[n]; var chain := Chain(s, k);
            && chain == Lineage(s, VmOf(s, s.manifests[k].job), k + 1)
            && chain != [] && IsFull(s, chain[|chain| - 1])
  {
    RunsStayGood(ss, steps, n);
    ChainIsLineage(ss[n], k);
    ChainEndsInFull(ss[n], k);
  }

  // ---- chains without the hypotheses ----

  ghost predicate PointsBack(s: State, parent: Option<nat>, vm: nat, n: nat) {
    parent.Some? ==> parent.value < n && Belongs(s, parent.value, vm)
  }

  // Every parent is an earlier manifest of the same VM.
  ghost predicate ParentsBack(s: State) {
    && (forall k :: 0 <= k < |s.manifests| ==> PointsBack(s, s.manifests[k].parent, VmOf(s, s.manifests[k].job), k))
    && (s.handler.Closing? ==> PointsBack(s, s.handler.parent, VmOf(s, JobOf(s, s.handler.m)), |s.manifests|))
  }

  lemma {:induction false} QueryPointsBack(s: State, vm: nat, n: nat)
    ensures PointsBack(s, NewestSuccess(s, vm, n), vm, n)
  {
    if n > 0 {
      QueryPointsBack(s, vm, n - 1);
    }
  }

  lemma PointsBackStays(s: State, s': State, parent: Option<nat>, vm: nat, n: nat)
    requires Extends(s, s') && NeverTwo(s) && n <= |s.manifests| && PointsBack(s, parent, vm, n)
    ensures PointsBack(s', parent, vm, n)
  {
  }

  // Steps add jobs and manifests at the end; a job's VM and kind are fixed.
  lemma StepExtends(s: State, a: Step)
    requires Enabled(s, a)
    ensures Extends(s, Next(s, a))
  {
    if Endpoint(a) {
      EndpointFrame(s, a);
    } else {
      HandlerJobs(s, a);
    }
    hide Next, Enabled, Written;
  }

  // What a step does to manifests and to the one that waits for its commit.
  lemma HandlerParents(s: State, a: Step)
    requires MessagesOk(s) && Enabled(s, a)
    ensures var s' := Next(s, a);
            && s'.manifests == (if Commits(s, a) then s.manifests + [Manifest(JobOf(s, s.handler.m), s.handler.parent)] else s.manifests)
            && (s'.handler.Closing? ==>
                  && !Commits(s, a) && JobOf(s', s'.handler.m) == JobOf(s, s'.handler.m) < |s.jobs|
                  && (s'.handler == s.handler
                      || s'.handler.parent == NewestSuccess(s, VmOf(s, JobOf(s, s'.handler.m)), |s.manifests|)))
  {
    if Endpoint(a) {
      EndpointFrame(s, a);
      hide Next;
    } else {
      hide NewestSuccess, HasManifest;
    }
  }

  lemma StepKeepsBack(s: State, a: Step)
    requires MessagesOk(s) && NeverTwo(s) && ParentsBack(s) && Enabled(s, a)
    ensures ParentsBack(Next(s, a))
  {
    var s' := Next(s, a);
    StepExtends(s, a);
    HandlerParents(s, a);
    if s.handler.Closing? {
      assert JobOf(s, s.handler.m) < |s.jobs|;
    }
    hide MessagesOk, Next, Enabled, Commits, NewestSuccess, PointsBack;
    forall k | 0 <= k < |s'.manifests|
      ensures PointsBack(s', s'.manifests[k].parent, VmOf(s', s'.manifests[k].job), k)
    {
      PointsBackStays(s, s', s'.manifests[k].parent, VmOf(s, s'.manifests[k].job), k);
    }
    if s'.handler.Closing? {
      var vm := VmOf(s, JobOf(s, s'.handler.m));
      QueryPointsBack(s, vm, |s.manifests|);
      PointsBackStays(s, s', s'.handler.parent, vm, |s.manifests|);
    }
  }

  lemma {:induction false} ParentsPointBack(ss: seq<State>, steps: seq<Step>, n: nat)
    requires Run(ss, steps) && n <= |steps|
    ensures MessagesOk(ss[n]) && NeverTwo(ss[n]) && ParentsBack(ss[n])
  {
    if n == 0 {
      NeverTwoManifests(ss, steps, n);
    } else {
      hide MessagesOk, NeverTwo, ParentsBack, Next, Enabled;
      NeverTwoManifests(ss, steps, n);
      ParentsPointBack(ss, steps, n - 1);
      StepKeepsBack(ss[n - 1], steps[n - 1]);
      assert ss[n - 1 + 1] == Next(ss[n - 1], steps[n - 1]);
    }
  }

  /** A chain of manifests of `vm` that starts at `k`, goes strictly back and stops where there is no parent. */
  ghost predicate GoesBack(s: State, chain: seq<nat>, k: nat, vm: nat) {
    && chain != [] && chain[0] == k
    && (forall i :: 0 <= i < |chain| ==> Belongs(s, chain[i], vm))
    && (forall i, j :: 0 <= i < j < |chain| ==> chain[i] > chain[j])
    && s.manifests[chain[|chain| - 1]].parent == None
  }

  lemma {:induction false} ChainGoesBack(s: State, k: nat)
    requires NeverTwo(s) && ParentsBack(s) && k < |s.manifests|
    ensures GoesBack(s, Chain(s, k), k, VmOf(s, s.manifests[k].job))
    decreases k
  {
    assert PointsBack(s, s.manifests[k].parent, VmOf(s, s.manifests[k].job), k);
    if s.manifests[k].parent.Some? {
      ChainGoesBack(s, s.manifests[k].parent.value);
    }
  }

  /** In every run, with no hypothesis: every chain stays in one VM, goes strictly back in time and ends. */
  lemma ChainsGoBack(ss: seq<State>, steps: seq<Step>, n: nat, k: nat)
    requires Run(ss, steps) && n <= |steps| && k < |ss[n].manifests|
    ensures GoesBack(ss[n], Chain(ss[n], k), k, VmOf(ss[n], ss[n].manifests[k].job))
  {
    ParentsPointBack(ss, steps, n);
    ChainGoesBack(ss[n], k);
  }

  // Every parent is the VM's newest manifest at the time.
  ghost predicate Whole(s: State) {
    forall k :: 0 <= k < |s.manifests| ==> WholeAt(s, k)
  }

  predicate WholeAt(s: State, k: nat)
    requires k < |s.manifests|
  {
    s.manifests[k].parent == Newest(s, VmOf(s, s.manifests[k].job), k)
  }

  // Every manifest without a parent is a full backup.
  ghost predicate Rooted(s: State) {
    forall k :: 0 <= k < |s.manifests| ==> RootedAt(s, k)
  }

  predicate RootedAt(s: State, k: nat)
    requires k < |s.manifests|
  {
    s.manifests[k].parent == None ==> IsFull(s, k)
  }

  ghost predicate AllWhole(s: State) {
    forall k :: 0 <= k < |s.manifests| ==> Chain(s, k) == Lineage(s, VmOf(s, s.manifests[k].job), k + 1)
  }

  ghost predicate AllEndInFull(s: State) {
    forall k :: 0 <= k < |s.manifests| ==> var chain := Chain(s, k); chain != [] && IsFull(s, chain[|chain| - 1])
  }

  lemma {:induction false} WholeChain(s: State, k: nat)
    requires NeverTwo(s) && ParentsBack(s) && Whole(s) && k < |s.manifests|
    ensures Chain(s, k) == Lineage(s, VmOf(s, s.manifests[k].job), k + 1)
    decreases k
  {
    var vm := VmOf(s, s.manifests[k].job);
    assert Belongs(s, k, vm) && PointsBack(s, s.manifests[k].parent, vm, k) && WholeAt(s, k);
    LineageFromNewest(s, vm, k);
    if s.manifests[k].parent.Some? {
      var q := s.manifests[k].parent.value;
      WholeChain(s, q);
      assert Lineage(s, vm, q + 1) == [q] + Lineage(s, vm, q);
    }
  }

  lemma WholeOnlyIf(s: State, k: nat)
    requires NeverTwo(s) && ParentsBack(s) && k < |s.manifests|
    requires Chain(s, k) == Lineage(s, VmOf(s, s.manifests[k].job), k + 1)
    ensures s.manifests[k].parent == Newest(s, VmOf(s, s.manifests[k].job), k)
  {
    var vm := VmOf(s, s.manifests[k].job);
    assert Belongs(s, k, vm) && PointsBack(s, s.manifests[k].parent, vm, k);
    assert Chain(s, k)[1..] == Lineage(s, vm, k);
    LineageFromNewest(s, vm, k);
    if s.manifests[k].parent.Some? {
      ChainGoesBack(s, s.manifests[k].parent.value);
      assert Chain(s, k)[1..] == Chain(s, s.manifests[k].parent.value);
    }
  }

  lemma AllWholeIff(s: State)
    requires NeverTwo(s) && ParentsBack(s)
    ensures AllWhole(s) <==> Whole(s)
  {
    hide NeverTwo, ParentsBack;
    if Whole(s) {
      forall k | 0 <= k < |s.manifests|
        ensures Chain(s, k) == Lineage(s, VmOf(s, s.manifests[k].job), k + 1)
      {
        WholeChain(s, k);
      }
    }
    if AllWhole(s) {
      forall k | 0 <= k < |s.manifests|
        ensures WholeAt(s, k)
      {
        WholeOnlyIf(s, k);
      }
    }
  }

  lemma AllEndInFullIff(s: State)
    requires NeverTwo(s) && ParentsBack(s)
    ensures AllEndInFull(s) <==> Rooted(s)
  {
    hide NeverTwo, ParentsBack, IsFull;
    forall k | 0 <= k < |s.manifests|
      ensures var chain := Chain(s, k); chain != [] && (Rooted(s) ==> IsFull(s, chain[|chain| - 1]))
      ensures AllEndInFull(s) ==> RootedAt(s, k)
    {
      ChainGoesBack(s, k);
      if Rooted(s) {
        assert RootedAt(s, Chain(s, k)[|Chain(s, k)| - 1]);
      }
    }
  }

  // The manifest about to be committed has the VM's newest one as its parent.
  predicate ParentIsNewest(s: State)
    requires s.handler.Closing?
  {
    s.handler.parent == Newest(s, VmOf(s, JobOf(s, s.handler.m)), |s.manifests|)
  }

  // The manifest about to be committed has a parent, or is a full backup.
  predicate ParentOrFull(s: State)
    requires s.handler.Closing?
  {
    var j := JobOf(s, s.handler.m);
    s.handler.parent.Some? || (j < |s.jobs| && s.jobs[j].kind == Full)
  }

  lemma {:induction false} NewestSame(s: State, s': State, vm: nat, n: nat)
    requires Extends(s, s') && NeverTwo(s) && n <= |s.manifests|
    ensures Newest(s', vm, n) == Newest(s, vm, n)
  {
    if n > 0 {
      NewestSame(s, s', vm, n - 1);
    }
  }

  // A manifest keeps what is said about it.
  lemma OldManifest(s: State, s': State, k: nat)
    requires Extends(s, s') && NeverTwo(s) && k < |s.manifests|
    ensures k < |s'.manifests| && (WholeAt(s', k) <==> WholeAt(s, k)) && (RootedAt(s', k) <==> RootedAt(s, k))
  {
    NewestSame(s, s', VmOf(s, s.manifests[k].job), k);
  }

  lemma NewManifest(s: State, s': State)
    requires Extends(s, s') && NeverTwo(s) && s.handler.Closing? && JobOf(s, s.handler.m) < |s.jobs|
    requires s'.manifests == s.manifests + [Manifest(JobOf(s, s.handler.m), s.handler.parent)]
    ensures WholeAt(s', |s.manifests|) <==> ParentIsNewest(s)
    ensures RootedAt(s', |s.manifests|) <==> ParentOrFull(s)
  {
    NewestSame(s, s', VmOf(s, JobOf(s, s.handler.m)), |s.manifests|);
  }

  /**
   * Exactly two things can go wrong, and only at a commit: the new chain is the whole lineage if and
   * only if the parent is the VM's newest manifest, and it ends in a full backup if and only if
   * there is a parent or the job is full.
   */
  lemma StepWholeIff(s: State, a: Step)
    requires MessagesOk(s) && NeverTwo(s) && Enabled(s, a)
    ensures Whole(Next(s, a)) <==> Whole(s) && (Commits(s, a) ==> ParentIsNewest(s))
    ensures Rooted(Next(s, a)) <==> Rooted(s) && (Commits(s, a) ==> ParentOrFull(s))
  {
    var s' := Next(s, a);
    StepExtends(s, a);
    HandlerParents(s, a);
    assert Commits(s, a) ==> s.handler.Closing? && JobOf(s, s.handler.m) < |s.jobs|;
    hide MessagesOk, NeverTwo, Next, Enabled, WholeAt, RootedAt, Commits, ParentIsNewest, ParentOrFull, Extends;
    var n := |s.manifests|;
    if Commits(s, a) {
      NewManifest(s, s');
      assert |s'.manifests| == n + 1;
    }
    forall k | 0 <= k < n
      ensures k < |s'.manifests| && (WholeAt(s', k) <==> WholeAt(s, k)) && (RootedAt(s', k) <==> RootedAt(s, k))
    {
      OldManifest(s, s', k);
    }
  }

  // Every commit of the first `n` steps gave its manifest the VM's newest one as the parent.
  ghost predicate NewestAtCommits(ss: seq<State>, steps: seq<Step>, n: nat)
    requires n < |ss| && n <= |steps|
  {
    forall i :: 0 <= i < n && Commits(ss[i], steps[i]) ==> ParentIsNewest(ss[i])
  }

  // Every commit of the first `n` steps was of a manifest with a parent or of a full backup.
  ghost predicate ParentOrFullAtCommits(ss: seq<State>, steps: seq<Step>, n: nat)
    requires n < |ss| && n <= |steps|
  {
    forall i :: 0 <= i < n && Commits(ss[i], steps[i]) ==> ParentOrFull(ss[i])
  }

  lemma OneMoreCommit(ss: seq<State>, steps: seq<Step>, n: nat)
    requires n + 1 < |ss| && n < |steps|
    ensures NewestAtCommits(ss, steps, n + 1)
            <==> NewestAtCommits(ss, steps, n) && (Commits(ss[n], steps[n]) ==> ParentIsNewest(ss[n]))
    ensures ParentOrFullAtCommits(ss, steps, n + 1)
            <==> ParentOrFullAtCommits(ss, steps, n) && (Commits(ss[n], steps[n]) ==> ParentOrFull(ss[n]))
  {
    hide ParentIsNewest, ParentOrFull;
  }

  lemma {:induction false} WholeInRunIff(ss: seq<State>, steps: seq<Step>, n: nat)
    requires Run(ss, steps) && n <= |steps|
    ensures Whole(ss[n]) <==> NewestAtCommits(ss, steps, n)
    ensures Rooted(ss[n]) <==> ParentOrFullAtCommits(ss, steps, n)
  {
    if n > 0 {
      WholeInRunIff(ss, steps, n - 1);
      ParentsPointBack(ss, steps, n - 1);
      OneMoreCommit(ss, steps, n - 1);
      hide Whole, Rooted, Next, Enabled, MessagesOk, NeverTwo, ParentsBack, NewestAtCommits, ParentOrFullAtCommits;
      StepWholeIff(ss[n - 1], steps[n - 1]);
      assert ss[n - 1 + 1] == Next(ss[n - 1], steps[n - 1]);
    }
  }

  /**
   * In every run: all chains are whole lineages exactly when every committed manifest got the VM's
   * newest one as its parent, and all chains end in a full backup exactly when every committed
   * manifest without a parent was a full one.
   */
  lemma ChainsInRunIff(ss: seq<State>, steps: seq<Step>, n: nat)
    requires Run(ss, steps) && n <= |steps|
    ensures AllWhole(ss[n]) <==> NewestAtCommits(ss, steps, n)
    ensures AllEndInFull(ss[n]) <==> ParentOrFullAtCommits(ss, steps, n)
  {
    ParentsPointBack(ss, steps, n);
    AllWholeIff(ss[n]);
    AllEndInFullIff(ss[n]);
    WholeInRunIff(ss, steps, n);
  }

  /** The query for the parent finds the VM's newest manifest exactly when that one's job is a success by then, or there is none. */
  lemma {:induction false} QueryFindsNewestIff(s: State, vm: nat, n: nat)
    ensures NewestSuccess(s, vm, n) == Newest(s, vm, n)
            <==> (match Newest(s, vm, n)
                  case None => true
                  case Some(q) => q < |s.manifests| && IsSuccess(s, s.manifests[q].job))
  {
    if n > 0 {
      QueryFindsNewestIff(s, vm, n - 1);
      QueryPointsBack(s, vm, n - 1);
    }
  }

  // ---- success is final ----

  lemma SuccessStays(s: State, a: Step, j: nat)
    requires Good(s) && Enabled(s, a) && CancelInTime(s, a) && IsSuccess(s, j)
    ensures IsSuccess(Next(s, a), j) && s.manifests <= Next(s, a).manifests
  {
    StepExtends(s, a);
    if Endpoint(a) {
      EndpointFrame(s, a);
      hide Next, Good;
    } else {
      if !s.handler.Idle? && !s.handler.Settled? {
        InHandNotSuccess(s);
      }
      hide Good, NewestSuccess, HasManifest, HasFullSuccess;
    }
  }

  /** Once a job is a success it stays one, with one and the same manifest. */
  lemma {:induction false} SuccessIsFinal(ss: seq<State>, steps: seq<Step>, i: nat, k: nat, j: nat)
    requires Run(ss, steps) && i <= k <= |steps| && IsSuccess(ss[i], j)
    requires forall n :: 0 <= n < k ==> Orderly(ss[n], steps[n])
    ensures IsSuccess(ss[k], j) && ss[i].manifests <= ss[k].manifests
    ensures exists m :: 0 <= m < |ss[i].manifests| && ss[k].manifests[m].job == j
                        && forall l :: 0 <= l < |ss[k].manifests| && ss[k].manifests[l].job == j ==> l == m
  {
    RunsStayGood(ss, steps, i);
    RunsStayGood(ss, steps, k);
    assert HasManifest(ss[i], j);
    var m :| 0 <= m < |ss[i].manifests| && ss[i].manifests[m].job == j;
    SuccessThroughout(ss, steps, i, k, j);
    assert ss[k].manifests[m].job == j;
  }

  /** In every run, with no hypothesis: once a job has a manifest, it keeps that one and never gets another. */
  lemma {:induction false} ManifestIsFinal(ss: seq<State>, steps: seq<Step>, i: nat, k: nat, m: nat)
    requires Run(ss, steps) && i <= k <= |steps| && m < |ss[i].manifests|
    ensures ss[i].manifests <= ss[k].manifests
    ensures forall l :: 0 <= l < |ss[k].manifests| ==> (ss[k].manifests[l].job == ss[i].manifests[m].job <==> l == m)
  {
    ManifestsGrow(ss, steps, i, k);
    NeverTwoManifests(ss, steps, k);
    assert ss[k].manifests[m] == ss[i].manifests[m];
  }

  lemma {:induction false} ManifestsGrow(ss: seq<State>, steps: seq<Step>, i: nat, k: nat)
    requires Run(ss, steps) && i <= k <= |steps|
    ensures ss[i].manifests <= ss[k].manifests
  {
    if i < k {
      hide Next, Enabled;
      ManifestsGrow(ss, steps, i, k - 1);
      StepExtends(ss[k - 1], steps[k - 1]);
      assert ss[k - 1 + 1] == Next(ss[k - 1], steps[k - 1]);
    }
  }

  lemma {:induction false} SuccessThroughout(ss: seq<State>, steps: seq<Step>, i: nat, k: nat, j: nat)
    requires Run(ss, steps) && i <= k <= |steps| && IsSuccess(ss[i], j)
    requires forall n :: 0 <= n < k ==> Orderly(ss[n], steps[n])
    ensures IsSuccess(ss[k], j) && ss[i].manifests <= ss[k].manifests
  {
    if i < k {
      SuccessThroughout(ss, steps, i, k - 1, j);
      RunsStayGood(ss, steps, k - 1);
      assert CancelInTime(ss[k - 1], steps[k - 1]);
      hide Good, Next, Enabled, Orderly, IsSuccess, CancelInTime;
      SuccessStays(ss[k - 1], steps[k - 1], j);
      assert ss[k - 1 + 1] == Next(ss[k - 1], steps[k - 1]);
    }
  }

  // One full backup of VM 1 whose ack is lost, and its second delivery.
  const LOST_ACK_STEPS: seq<Step> :=
    [SetVm(1, Available), CreateCheck(1, Full), CreateInsert(Request(1, Full), true), Deliver(0), Load(true, true), Start(true),
     Work(false), Close(true), Crash, Deliver(0), Load(true, true), Start(true)]

  // VM 1 and one full backup of it.
  function OneJob(status: Status, messages: seq<Message>, manifests: seq<Manifest>, handler: Handler, touched: set<nat>): State {
    State(map[1 := Available], [Job(1, Full, status)], messages, manifests, handler, touched, multiset{}, multiset{})
  }

  function LostAckState(k: nat): State {
    var vms := map[1 := Available];
    var first := [Manifest(0, None)];
    match k
    case 0 => INIT
    case 1 => State(vms, [], [], [], Idle, {}, multiset{}, multiset{})
    case 2 => State(vms, [], [], [], Idle, {}, multiset{}, multiset{Request(1, Full)})
    case 3 => OneJob(Queued, [Message(0, 0, Pending)], [], Idle, {})
    case 4 => OneJob(Queued, [Message(0, 1, InHand)], [], Delivered(0), {})
    case 5 => OneJob(Queued, [Message(0, 1, InHand)], [], Starting(0), {})
    case 6 => OneJob(Running, [Message(0, 1, InHand)], [], Working(0), {})
    case 7 => OneJob(Running, [Message(0, 1, InHand)], [], Closing(0, None), {0})
    case 8 => OneJob(Success, [Message(0, 1, InHand)], first, Settled(0), {0})
    case 9 => OneJob(Success, [Message(0, 1, Pending)], first, Idle, {0})
    case 10 => OneJob(Success, [Message(0, 2, InHand)], first, Delivered(0), {0})
    case 11 => OneJob(Success, [Message(0, 2, InHand)], first, Starting(0), {0})
    case _ => OneJob(Running, [Message(0, 2, InHand)], first, Working(0), {0})
  }

  /** Without the hypothesis on acks a success is left, and a running job has a manifest. */
  lemma LostAckUndoesSuccess()
    ensures var ss := seq(13, k requires 0 <= k < 13 => LostAckState(k));
            && Run(ss, LOST_ACK_STEPS)
            && IsSuccess(ss[8], 0) && !AckKept(ss[8], LOST_ACK_STEPS[8])
            && ss[12].jobs[0].status == Running && HasManifest(ss[12], 0)
  {
    var ss := seq(13, k requires 0 <= k < 13 => LostAckState(k));
    forall k | 0 <= k < 12
      ensures Enabled(ss[k], LOST_ACK_STEPS[k]) && ss[k + 1] == Next(ss[k], LOST_ACK_STEPS[k])
    {
      LostAckStep(k);
    }
    assert ss[12].manifests[0].job == 0;
  }

  lemma LostAckStep(k: nat)
    requires k < 12
    ensures Enabled(LostAckState(k), LOST_ACK_STEPS[k]) && LostAckState(k + 1) == Next(LostAckState(k), LOST_ACK_STEPS[k])
  {
    if k < 3 {
      FirstQueued(k);
    } else if k < 6 {
      FirstDelivery(k);
    } else if k < 8 {
      FirstRun(k);
    } else {
      SecondDelivery(k);
    }
  }

  lemma FirstQueued(k: nat)
    requires k < 3
    ensures Enabled(LostAckState(k), LOST_ACK_STEPS[k]) && LostAckState(k + 1) == Next(LostAckState(k), LOST_ACK_STEPS[k])
  {
    hide HasFullSuccess, NewestSuccess, HasManifest;
    match k
    case 0 => case 1 => case 2 =>
  }

  lemma FirstDelivery(k: nat)
    requires 3 <= k < 6
    ensures Enabled(LostAckState(k), LOST_ACK_STEPS[k]) && LostAckState(k + 1) == Next(LostAckState(k), LOST_ACK_STEPS[k])
  {
    hide HasFullSuccess, NewestSuccess, HasManifest;
    match k
    case 3 => case 4 => case 5 =>
  }

  lemma FirstRun(k: nat)
    requires 6 <= k < 8
    ensures Enabled(LostAckState(k), LOST_ACK_STEPS[k]) && LostAckState(k + 1) == Next(LostAckState(k), LOST_ACK_STEPS[k])
  {
    match k
    case 6 => assert NewestSuccess(LostAckState(6), 1, 0) == None;
    case 7 => assert !HasManifest(LostAckState(7), 0);
  }

  lemma SecondDelivery(k: nat)
    requires 8 <= k < 12
    ensures Enabled(LostAckState(k), LOST_ACK_STEPS[k]) && LostAckState(k + 1) == Next(LostAckState(k), LOST_ACK_STEPS[k])
  {
    hide HasFullSuccess, NewestSuccess, HasManifest;
    match k
    case 8 => case 9 => case 10 => case 11 =>
  }

  // ---- when a success is final ----

  // A run past its start is of a job that is running, or was cancelled meanwhile.
  ghost predicate RunsAreRunning(s: State) {
    s.handler.Working? || s.handler.Closing? || s.handler.Failing? ==>
      var j := JobOf(s, s.handler.m);
      j < |s.jobs| && (s.jobs[j].status == Running || s.jobs[j].status == Cancelled)
  }

  lemma EndpointStepKeepsRunning(s: State, a: Step)
    requires MessagesOk(s) && RunsAreRunning(s) && Enabled(s, a) && Endpoint(a)
    ensures RunsAreRunning(Next(s, a))
  {
    EndpointFrame(s, a);
    hide Next, HasManifest;
  }

  lemma HandlerStepKeepsRunning(s: State, a: Step)
    requires MessagesOk(s) && RunsAreRunning(s) && Enabled(s, a) && !Endpoint(a)
    ensures RunsAreRunning(Next(s, a))
  {
    hide NewestSuccess, HasManifest;
  }

  lemma StepKeepsRunning(s: State, a: Step)
    requires MessagesOk(s) && RunsAreRunning(s) && Enabled(s, a)
    ensures RunsAreRunning(Next(s, a))
  {
    if Endpoint(a) {
      EndpointStepKeepsRunning(s, a);
    } else {
      HandlerStepKeepsRunning(s, a);
    }
  }

  lemma {:induction false} RunningThroughout(ss: seq<State>, steps: seq<Step>, k: nat)
    requires Run(ss, steps) && k <= |steps|
    ensures MessagesOk(ss[k]) && RunsAreRunning(ss[k])
  {
    if k > 0 {
      RunningThroughout(ss, steps, k - 1);
      hide MessagesOk, RunsAreRunning, Next, Enabled;
      MessagesStayOk(ss[k - 1], steps[k - 1]);
      StepKeepsRunning(ss[k - 1], steps[k - 1]);
      assert ss[k - 1 + 1] == Next(ss[k - 1], steps[k - 1]);
    }
  }

  // Message `m` can still lead to a run: it waits for a delivery, is on its way to a start, or its ack may be lost.
  predicate CanRun(s: State, m: nat) {
    && m < |s.messages|
    && match s.messages[m].state
       case Pending => MoreDeliveries(s, m)
       case InHand => s.handler.Delivered? || s.handler.Starting? || (s.handler.Settled? && MoreDeliveries(s, m))
       case Acked => false
  }

  /** No cancel request is about to write, and no message of the job can still lead to a run. */
  ghost predicate NothingAhead(s: State, j: nat) {
    j !in s.cancelling && forall m :: 0 <= m < |s.messages| && s.messages[m].job == j ==> !CanRun(s, m)
  }

  lemma EndpointNothingAheadStays(s: State, a: Step, j: nat)
    requires MessagesOk(s) && RunsAreRunning(s) && Enabled(s, a) && IsSuccess(s, j) && NothingAhead(s, j) && Endpoint(a)
    ensures IsSuccess(Next(s, a), j) && NothingAhead(Next(s, a), j)
  {
    EndpointFrame(s, a);
    hide Next, HasManifest;
  }

  lemma HandlerNothingAheadStays(s: State, a: Step, j: nat)
    requires MessagesOk(s) && RunsAreRunning(s) && Enabled(s, a) && IsSuccess(s, j) && NothingAhead(s, j) && !Endpoint(a)
    ensures IsSuccess(Next(s, a), j) && NothingAhead(Next(s, a), j)
  {
    hide NewestSuccess, HasManifest;
  }

  lemma NothingAheadStays(s: State, a: Step, j: nat)
    requires MessagesOk(s) && RunsAreRunning(s) && Enabled(s, a) && IsSuccess(s, j) && NothingAhead(s, j)
    ensures IsSuccess(Next(s, a), j) && NothingAhead(Next(s, a), j)
  {
    if Endpoint(a) {
      EndpointNothingAheadStays(s, a, j);
    } else {
      HandlerNothingAheadStays(s, a, j);
    }
  }

  lemma {:induction false} SuccessNeverLeaves(s: State, j: nat, steps: seq<Step>)
    requires MessagesOk(s) && RunsAreRunning(s) && IsSuccess(s, j) && NothingAhead(s, j)
    ensures !LeavesBy(s, j, Success, steps)
    decreases |steps|
  {
    hide MessagesOk, RunsAreRunning, NothingAhead, Next, Enabled;
    if steps != [] && Enabled(s, steps[0]) {
      MessagesStayOk(s, steps[0]);
      StepKeepsRunning(s, steps[0]);
      NothingAheadStays(s, steps[0], j);
      SuccessNeverLeaves(Next(s, steps[0]), j, steps[1..]);
    }
  }

  lemma StartingLeaves(s: State, m: nat, j: nat)
    requires MessagesOk(s) && s.handler == Starting(m) && s.messages[m].job == j
    ensures CanLeave(s, j, Success)
  {
    hide CanLeave;
    LeaveNow(Next(s, Start(true)), j, Success);
    LeaveLater(s, j, Success, Start(true));
  }

  lemma DeliveredLeaves(s: State, m: nat, j: nat)
    requires MessagesOk(s) && s.handler == Delivered(m) && s.messages[m].job == j && IsSuccess(s, j)
    ensures CanLeave(s, j, Success)
  {
    hide CanLeave;
    MessagesStayOk(s, Load(true, true));
    StartingLeaves(Next(s, Load(true, true)), m, j);
    LeaveLater(s, j, Success, Load(true, true));
  }

  lemma PendingLeaves(s: State, m: nat, j: nat)
    requires MessagesOk(s) && IsSuccess(s, j)
    requires s.handler.Idle? && MoreDeliveries(s, m) && s.messages[m].job == j && s.messages[m].state == Pending
    ensures CanLeave(s, j, Success)
  {
    hide CanLeave;
    MessagesStayOk(s, Deliver(m));
    DeliveredLeaves(Next(s, Deliver(m)), m, j);
    LeaveLater(s, j, Success, Deliver(m));
  }

  lemma CanRunLeaves(s: State, m: nat, j: nat)
    requires MessagesOk(s) && IsSuccess(s, j) && CanRun(s, m) && s.messages[m].job == j
    ensures CanLeave(s, j, Success)
  {
    hide CanLeave;
    if s.handler == Starting(m) {
      StartingLeaves(s, m, j);
    } else if s.handler == Delivered(m) {
      DeliveredLeaves(s, m, j);
    } else if s.handler.Idle? {
      PendingLeaves(s, m, j);
    } else {
      MessagesStayOk(s, Crash);
      PendingLeaves(Next(s, Crash), m, j);
      LeaveLater(s, j, Success, Crash);
    }
  }

  /**
   * In every state of every run: a success is final, whatever acks are lost and cancels come,
   * exactly when no cancel request has it checked and no message of it can still lead to a run.
   */
  lemma SuccessFinalIff(ss: seq<State>, steps: seq<Step>, k: nat, j: nat)
    requires Run(ss, steps) && k <= |steps| && IsSuccess(ss[k], j)
    ensures !CanLeave(ss[k], j, Success) <==> NothingAhead(ss[k], j)
  {
    var s := ss[k];
    RunningThroughout(ss, steps, k);
    if NothingAhead(s, j) {
      forall more
        ensures !LeavesBy(s, j, Success, more)
      {
        SuccessNeverLeaves(s, j, more);
      }
    } else if j in s.cancelling {
      hide CanLeave;
      LeaveNow(Next(s, CancelWrite(j)), j, Success);
      LeaveLater(s, j, Success, CancelWrite(j));
    } else {
      var m :| 0 <= m < |s.messages| && s.messages[m].job == j && CanRun(s, m);
      CanRunLeaves(s, m, j);
    }
  }

  /**
   * A cancel request writes without looking again: from any good state whose handler is about to commit a success,
   * a cancel request checked now and written after the commit leaves a cancelled job with a manifest.
   */
  lemma LateCancelUndoesSuccess(s: State)
    requires Good(s) && s.handler.Closing? && s.jobs[JobOf(s, s.handler.m)].status == Status.Running
    ensures var j := JobOf(s, s.handler.m);
            var checked := Next(s, CancelCheck(j));
            var done := Next(checked, Close(true));
            && IsSuccess(done, j) && Enabled(done, CancelWrite(j))
            && var late := Next(done, CancelWrite(j)); late.jobs[j].status == Cancelled && HasManifest(late, j)
  {
    InHandNotSuccess(s);
    var j := JobOf(s, s.handler.m);
    var late := Next(Next(Next(s, CancelCheck(j)), Close(true)), CancelWrite(j));
    assert late.manifests[|s.manifests|].job == j;
  }

  // The run of `LostAckState` up to its commit; the job is cancelled late, and an incremental one runs after it.
  const LATE_CANCEL_STEPS: seq<Step> :=
    [SetVm(1, Available), CreateCheck(1, Full), CreateInsert(Request(1, Full), true), Deliver(0), Load(true, true), Start(true),
     Work(false), CancelCheck(0), Close(true), CreateCheck(1, Incremental), CancelWrite(0),
     CreateInsert(Request(1, Incremental), true), Ack, Deliver(1), Load(true, true), Start(true), Work(false), Close(true)]

  function SecondJob(status: Status, message: Message, manifests: seq<Manifest>, handler: Handler, touched: set<nat>): State {
    State(map[1 := Available], [Job(1, Full, Cancelled), Job(1, Incremental, status)],
          [Message(0, 1, if handler == Settled(0) then InHand else Acked), message],
          manifests, handler, touched, multiset{}, multiset{})
  }

  function LateCancelState(k: nat): State {
    var first := [Manifest(0, None)];
    var inHand := [Message(0, 1, InHand)];
    if k <= 7 then LostAckState(k) else
      match k
      case 8 => OneJob(Running, inHand, [], Closing(0, None), {0}).(cancelling := multiset{0})
      case 9 => OneJob(Success, inHand, first, Settled(0), {0}).(cancelling := multiset{0})
      case 10 => OneJob(Success, inHand, first, Settled(0), {0}).(cancelling := multiset{0}, creating := multiset{Request(1, Incremental)})
      case 11 => OneJob(Cancelled, inHand, first, Settled(0), {0}).(creating := multiset{Request(1, Incremental)})
      case 12 => SecondJob(Queued, Message(1, 0, Pending), first, Settled(0), {0})
      case 13 => SecondJob(Queued, Message(1, 0, Pending), first, Idle, {0})
      case 14 => SecondJob(Queued, Message(1, 1, InHand), first, Delivered(1), {0})
      case 15 => SecondJob(Queued, Message(1, 1, InHand), first, Starting(1), {0})
      case 16 => SecondJob(Running, Message(1, 1, InHand), first, Working(1), {0})
      case 17 => SecondJob(Running, Message(1, 1, InHand), first, Closing(1, None), {0, 1})
      case _ => SecondJob(Success, Message(1, 1, InHand), first + [Manifest(1, None)], Settled(1), {0, 1})
  }

  lemma LateCancelStep(k: nat)
    requires k < 18
    ensures Enabled(LateCancelState(k), LATE_CANCEL_STEPS[k]) && LateCancelState(k + 1) == Next(LateCancelState(k), LATE_CANCEL_STEPS[k])
  {
    if k < 7 {
      hide LostAckState, Next, Enabled;
      assert LATE_CANCEL_STEPS[k] == LOST_ACK_STEPS[k];
      LostAckStep(k);
    } else if k < 9 {
      LateCancelFirst(k);
    } else if k < 11 {
      LateCancelRequest(k);
    } else if k < 14 {
      LateCancelSecond(k);
    } else if k < 16 {
      LateCancelSecondRun(k);
    } else {
      LateCancelEnd(k);
    }
  }

  lemma LateCancelFirst(k: nat)
    requires 7 <= k < 9
    ensures Enabled(LateCancelState(k), LATE_CANCEL_STEPS[k]) && LateCancelState(k + 1) == Next(LateCancelState(k), LATE_CANCEL_STEPS[k])
  {
    hide HasFullSuccess, NewestSuccess;
    match k
    case 7 =>
    case 8 => assert !HasManifest(LateCancelState(8), 0);
  }

  lemma LateCancelRequest(k: nat)
    requires 9 <= k < 11
    ensures Enabled(LateCancelState(k), LATE_CANCEL_STEPS[k]) && LateCancelState(k + 1) == Next(LateCancelState(k), LATE_CANCEL_STEPS[k])
  {
    hide HasManifest, NewestSuccess;
    if k == 9 {
      assert FullSuccess(LateCancelState(9), 1, 0);
      hide FullSuccess;
    } else {
      hide HasFullSuccess;
    }
  }

  lemma LateCancelSecond(k: nat)
    requires 11 <= k < 14
    ensures Enabled(LateCancelState(k), LATE_CANCEL_STEPS[k]) && LateCancelState(k + 1) == Next(LateCancelState(k), LATE_CANCEL_STEPS[k])
  {
    hide NewestSuccess, HasManifest, HasFullSuccess;
    if k == 11 {
      assert multiset{Request(1, Incremental)} - multiset{Request(1, Incremental)} == multiset{};
    } else {
      LateCancelFetched(k);
    }
  }

  lemma LateCancelFetched(k: nat)
    requires 12 <= k < 14
    ensures Enabled(LateCancelState(k), LATE_CANCEL_STEPS[k]) && LateCancelState(k + 1) == Next(LateCancelState(k), LATE_CANCEL_STEPS[k])
  {
    hide NewestSuccess, HasManifest, HasFullSuccess;
    match k
    case 12 => case 13 =>
  }

  lemma LateCancelSecondRun(k: nat)
    requires 14 <= k < 16
    ensures Enabled(LateCancelState(k), LATE_CANCEL_STEPS[k]) && LateCancelState(k + 1) == Next(LateCancelState(k), LATE_CANCEL_STEPS[k])
  {
    hide NewestSuccess, HasManifest, HasFullSuccess;
    match k
    case 14 => case 15 =>
  }

  lemma LateCancelEnd(k: nat)
    requires 16 <= k < 18
    ensures Enabled(LateCancelState(k), LATE_CANCEL_STEPS[k]) && LateCancelState(k + 1) == Next(LateCancelState(k), LATE_CANCEL_STEPS[k])
  {
    match k
    case 16 =>
      assert NewestSuccess(LateCancelState(16), 1, 0) == None;
      assert NewestSuccess(LateCancelState(16), 1, 1) == None;
    case 17 => assert !HasManifest(LateCancelState(17), 1);
  }

  lemma LateCancelOrderly(k: nat)
    requires k < 18
    ensures Orderly(LateCancelState(k), LATE_CANCEL_STEPS[k]) <==> k != 10
  {
    assert !LATE_CANCEL_STEPS[k].Crash?;
    assert k == 10 <==> LATE_CANCEL_STEPS[k].CancelWrite?;
  }

  lemma LateCancelChain()
    ensures var s := LateCancelState(18);
            && LateCancelState(0) == INIT
            && s.manifests == [Manifest(0, None), Manifest(1, None)]
            && IsSuccess(s, 1) && Belongs(s, 0, 1) && Belongs(s, 1, 1) && IsFull(s, 0) && !IsFull(s, 1)
            && Chain(s, 1) == [1]
  {
  }

  /**
   * One late cancel is enough: a run from nothing, all other steps of which meet the hypotheses,
   * ends with a successful incremental backup whose chain is itself alone, without the VM's full one.
   */
  lemma LateCancelBreaksChain()
    ensures var ss := seq(19, k requires 0 <= k < 19 => LateCancelState(k));
            && Run(ss, LATE_CANCEL_STEPS)
            && (forall k :: 0 <= k < 18 ==> (Orderly(ss[k], LATE_CANCEL_STEPS[k]) <==> k != 10))
            && var s := ss[18];
               && |s.manifests| == 2 && s.manifests[1].job == 1 && IsSuccess(s, 1)
               && Belongs(s, 0, 1) && IsFull(s, 0) && Belongs(s, 1, 1) && !IsFull(s, 1)
               && Chain(s, 1) == [1]
  {
    hide Next, Enabled, Orderly, LateCancelState, Chain;
    var ss := seq(19, k requires 0 <= k < 19 => LateCancelState(k));
    forall k | 0 <= k < 18
      ensures Enabled(ss[k], LATE_CANCEL_STEPS[k]) && ss[k + 1] == Next(ss[k], LATE_CANCEL_STEPS[k])
      ensures Orderly(ss[k], LATE_CANCEL_STEPS[k]) <==> k != 10
    {
      LateCancelStep(k);
      LateCancelOrderly(k);
    }
    LateCancelChain();
  }

  // ---- cancelled jobs ----

  /** The handler is past the load of job `j`. */
  predicate PastLoad(s: State, j: nat) {
    (s.handler.Starting? || s.handler.Working? || s.handler.Closing? || s.handler.Failing?) && JobOf(s, s.handler.m) == j
  }

  ghost predicate Parked(s: State, j: nat) {
    j < |s.jobs| && s.jobs[j].status == Cancelled && !PastLoad(s, j) && j !in s.touched
  }

  lemma EndpointParkedStays(s: State, a: Step, j: nat)
    requires MessagesOk(s) && Enabled(s, a) && Parked(s, j) && Endpoint(a)
    ensures Parked(Next(s, a), j)
  {
    EndpointFrame(s, a);
    hide Next;
  }

  lemma HandlerParkedStays(s: State, a: Step, j: nat)
    requires MessagesOk(s) && Enabled(s, a) && Parked(s, j) && !Endpoint(a)
    ensures Parked(Next(s, a), j)
  {
    hide NewestSuccess, HasManifest;
  }

  lemma ParkedStays(s: State, a: Step, j: nat)
    requires MessagesOk(s) && Enabled(s, a) && Parked(s, j)
    ensures Parked(Next(s, a), j)
  {
    if Endpoint(a) {
      EndpointParkedStays(s, a, j);
    } else {
      HandlerParkedStays(s, a, j);
    }
  }

  lemma {:induction false} MessagesOkThroughout(ss: seq<State>, steps: seq<Step>, k: nat)
    requires Run(ss, steps) && k <= |steps|
    ensures MessagesOk(ss[k])
  {
    if k > 0 {
      MessagesOkThroughout(ss, steps, k - 1);
      MessagesStayOk(ss[k - 1], steps[k - 1]);
      assert ss[k - 1 + 1] == Next(ss[k - 1], steps[k - 1]);
    }
  }

  /**
   * A job that is cancelled before the handler has loaded it never reaches the chunk store and
   * stays cancelled, whatever happens to acks.
   */
  lemma {:induction false} CancelledBeforeLoad(ss: seq<State>, steps: seq<Step>, i: nat, k: nat, j: nat)
    requires Run(ss, steps) && i <= k <= |steps| && Parked(ss[i], j)
    ensures Parked(ss[k], j)
  {
    if i < k {
      CancelledBeforeLoad(ss, steps, i, k - 1, j);
      MessagesOkThroughout(ss, steps, k - 1);
      hide MessagesOk, Parked;
      ParkedStays(ss[k - 1], steps[k - 1], j);
      assert ss[k - 1 + 1] == Next(ss[k - 1], steps[k - 1]);
    }
  }

  /** A run of job `j` is under way and will write its status, unless the unique `job_id` turns its commit away. */
  predicate WillWrite(s: State, j: nat) {
    PastLoad(s, j) && !(s.handler.Closing? && HasManifest(s, j))
  }

  ghost predicate StaysCancelled(s: State, j: nat) {
    j < |s.jobs| && s.jobs[j].status == Cancelled && !WillWrite(s, j)
  }

  lemma ManifestStays(s: State, a: Step, j: nat)
    requires Enabled(s, a) && HasManifest(s, j)
    ensures HasManifest(Next(s, a), j)
  {
    var k :| 0 <= k < |s.manifests| && s.manifests[k].job == j;
    var s' := Next(s, a);
    assert k < |s'.manifests| && s'.manifests[k].job == j by {
      hide NewestSuccess, HasFullSuccess;
    }
  }

  lemma EndpointCancelledStays(s: State, a: Step, j: nat)
    requires MessagesOk(s) && Enabled(s, a) && StaysCancelled(s, j) && Endpoint(a)
    ensures StaysCancelled(Next(s, a), j)
  {
    if HasManifest(s, j) {
      ManifestStays(s, a, j);
    }
    EndpointFrame(s, a);
    hide Next, HasManifest;
  }

  lemma HandlerCancelledStays(s: State, a: Step, j: nat)
    requires MessagesOk(s) && Enabled(s, a) && StaysCancelled(s, j) && !Endpoint(a)
    ensures StaysCancelled(Next(s, a), j)
  {
    if HasManifest(s, j) {
      ManifestStays(s, a, j);
    }
    hide NewestSuccess, HasManifest;
  }

  lemma CancelledStays(s: State, a: Step, j: nat)
    requires MessagesOk(s) && Enabled(s, a) && StaysCancelled(s, j)
    ensures StaysCancelled(Next(s, a), j)
  {
    if Endpoint(a) {
      EndpointCancelledStays(s, a, j);
    } else {
      HandlerCancelledStays(s, a, j);
    }
  }

  lemma {:induction false} CancelledNeverLeaves(s: State, j: nat, steps: seq<Step>)
    requires MessagesOk(s) && StaysCancelled(s, j)
    ensures !LeavesBy(s, j, Cancelled, steps)
    decreases |steps|
  {
    if steps == [] {
    } else if Enabled(s, steps[0]) {
      hide MessagesOk, StaysCancelled, Next, Enabled;
      MessagesStayOk(s, steps[0]);
      CancelledStays(s, steps[0], j);
      CancelledNeverLeaves(Next(s, steps[0]), j, steps[1..]);
    }
  }

  lemma UnderWayLeaves(s: State, j: nat)
    requires MessagesOk(s) && j < |s.jobs| && WillWrite(s, j)
    ensures CanLeave(s, j, Cancelled)
  {
    hide CanLeave, HasManifest, NewestSuccess;
    if s.handler.Starting? {
      LeaveNow(Next(s, Start(true)), j, Cancelled);
      LeaveLater(s, j, Cancelled, Start(true));
    } else if s.handler.Working? {
      var failing := Next(s, Work(true));
      LeaveNow(Next(failing, Close(true)), j, Cancelled);
      LeaveLater(failing, j, Cancelled, Close(true));
      LeaveLater(s, j, Cancelled, Work(true));
    } else {
      LeaveNow(Next(s, Close(true)), j, Cancelled);
      LeaveLater(s, j, Cancelled, Close(true));
    }
  }

  /** A cancelled job is cancelled for good exactly when no run of it is under way that will write its status. */
  lemma CancelFinalIff(s: State, j: nat)
    requires MessagesOk(s) && j < |s.jobs| && s.jobs[j].status == Cancelled
    ensures !CanLeave(s, j, Cancelled) <==> !WillWrite(s, j)
  {
    if WillWrite(s, j) {
      UnderWayLeaves(s, j);
    } else {
      hide MessagesOk;
      forall steps
        ensures !LeavesBy(s, j, Cancelled, steps)
      {
        CancelledNeverLeaves(s, j, steps);
      }
    }
  }

  // The run above up to its start, then a cancel request, then the rest of the run.
  const OVERWRITE_STEPS: seq<Step> :=
    [SetVm(1, Available), CreateCheck(1, Full), CreateInsert(Request(1, Full), true), Deliver(0), Load(true, true), Start(true),
     CancelCheck(0), CancelWrite(0), Work(false), Close(true)]

  function OverwriteState(k: nat): State {
    var inHand := [Message(0, 1, InHand)];
    if k <= 6 then LostAckState(k) else
      match k
      case 7 => OneJob(Running, inHand, [], Working(0), {}).(cancelling := multiset{0})
      case 8 => OneJob(Cancelled, inHand, [], Working(0), {})
      case 9 => OneJob(Cancelled, inHand, [], Closing(0, None), {0})
      case _ => OneJob(Success, inHand, [Manifest(0, None)], Settled(0), {0})
  }

  /** Such a run from nothing, with every ack kept and every cancel in time: a cancelled job ends as a success. */
  lemma RunOverwritesCancelled()
    ensures var ss := seq(11, k requires 0 <= k < 11 => OverwriteState(k));
            && Run(ss, OVERWRITE_STEPS)
            && (forall k :: 0 <= k < 10 ==> Orderly(ss[k], OVERWRITE_STEPS[k]))
            && ss[8].jobs[0].status == Cancelled && IsSuccess(ss[10], 0)
  {
    hide Next, Enabled, Orderly, OverwriteState;
    var ss := seq(11, k requires 0 <= k < 11 => OverwriteState(k));
    forall k | 0 <= k < 10
      ensures Enabled(ss[k], OVERWRITE_STEPS[k]) && ss[k + 1] == Next(ss[k], OVERWRITE_STEPS[k])
      ensures Orderly(ss[k], OVERWRITE_STEPS[k])
    {
      OverwriteStep(k);
    }
    OverwriteEnds();
  }

  lemma OverwriteEnds()
    ensures OverwriteState(0) == INIT
    ensures OverwriteState(8).jobs == [Job(1, Full, Cancelled)] && OverwriteState(10).jobs == [Job(1, Full, Success)]
  {
  }

  lemma OverwriteStep(k: nat)
    requires k < 10
    ensures Enabled(OverwriteState(k), OVERWRITE_STEPS[k])
    ensures OverwriteState(k + 1) == Next(OverwriteState(k), OVERWRITE_STEPS[k])
    ensures Orderly(OverwriteState(k), OVERWRITE_STEPS[k])
  {
    OverwriteOrderly(k);
    if k < 6 {
      hide LostAckState, Next, Enabled;
      assert OVERWRITE_STEPS[k] == LOST_ACK_STEPS[k];
      LostAckStep(k);
    } else {
      LateStep(k);
    }
  }

  lemma OverwriteOrderly(k: nat)
    requires k < 10
    ensures Orderly(OverwriteState(k), OVERWRITE_STEPS[k])
  {
    assert !OVERWRITE_STEPS[k].Crash?;
    assert k == 7 <==> OVERWRITE_STEPS[k].CancelWrite?;
  }

  lemma LateStep(k: nat)
    requires 6 <= k < 10
    ensures Enabled(OverwriteState(k), OVERWRITE_STEPS[k])
    ensures OverwriteState(k + 1) == Next(OverwriteState(k), OVERWRITE_STEPS[k])
  {
    match k
    case 6 => case 7 =>
    case 8 => assert NewestSuccess(OverwriteState(8), 1, 0) == None;
    case 9 =>
  }
}
