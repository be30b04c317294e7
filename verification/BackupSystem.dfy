/** The endpoints and the consumer as the program writes them: tables and a queue changed in place. */
module BackupSystem {
  import opened Bytes
  import opened JobTypes
  import opened BackupProtocol

  /** The tables, the message stream and the state of the one consumer. */
  class Platform {
    var vms: map<nat, VmStatus>
    var jobs: seq<Job>
    var messages: seq<Message>
    var manifests: seq<Manifest>
    var handler: Handler
    ghost var touched: set<nat>
    ghost var cancelling: multiset<nat>
    ghost var creating: multiset<Request>

    ghost function View(): State
      reads this
    {
      State(vms, jobs, messages, manifests, handler, touched, cancelling, creating)
    }

    constructor ()
      ensures View() == INIT
    {
      vms, jobs, messages, manifests, handler := map[], [], [], [], Idle;
      touched, cancelling, creating := {}, multiset{}, multiset{};
    }

    // ---- endpoints ----

    /** A create request that nothing interrupts between its count and its insert. */
    method CreateBackupJob(vm: nat, requested: Kind, natsUp: bool) returns (reply: Reply)
      modifies this
      ensures var checked := CheckCreate(old(View()), vm, requested);
              if checked.Refused? then reply == checked.reply && View() == old(View())
              else reply == Done(|old(jobs)|)
                   && View() == Next(Next(old(View()), CreateCheck(vm, requested)), CreateInsert(checked.r, natsUp))
      ensures reply == NotFound <==> vm !in old(vms) || old(vms)[vm] == Deleted
      ensures reply == Conflict <==> vm in old(vms) && old(vms)[vm] == Provisioning
      ensures vms == old(vms) && manifests == old(manifests) && handler == old(handler)
      ensures !reply.Done? ==> jobs == old(jobs) && messages == old(messages)
      ensures reply.Done? ==>
                var full := requested == Full || !exists j :: 0 <= j < |old(jobs)| && IsFullSuccess(old(jobs)[j], vm);
                && reply.id == |old(jobs)| && jobs == old(jobs) + [Job(vm, if full then Full else Incremental, Queued)]
                && messages == old(messages) + (if natsUp then [Message(|old(jobs)|, 0, Pending)] else [])
    {
      FullSuccesses(View(), vm);
      hide HasFullSuccess, Next, IsFullSuccess;
      if vm !in vms || vms[vm] == Deleted {
        return NotFound;
      }
      if vms[vm] == Provisioning {
        return Conflict;
      }
      var kind := requested;
      if kind == Incremental {
        var fullCount := CountFullSuccesses(vm);
        if fullCount == 0 {
          kind := Full;
        }
      }
      CreateInOneGo(View(), vm, requested, natsUp);
      var id := |jobs|;
      jobs := jobs + [Job(vm, kind, Queued)];
      if natsUp {
        messages := messages + [Message(id, 0, Pending)];
      }
      return Done(id);
    }

    // SELECT count(...) WHERE vm, full, success
    method CountFullSuccesses(vm: nat) returns (n: nat)
      ensures n > 0 <==> HasFullSuccess(View(), vm)
      ensures n == |FullOnes(jobs, vm, |jobs|)|
    {
      hide HasFullSuccess, FullOnes;
      n := 0;
      NoFullOnes(jobs, vm);
      for j := 0 to |jobs|
        invariant n == |FullOnes(jobs, vm, j)|
      {
        OneMoreFull(jobs, vm, j);
        if jobs[j].vm == vm && jobs[j].kind == Full && jobs[j].status == Success {
          n := n + 1;
        }
      }
      FullSuccesses(View(), vm);
    }

    /** A cancel request that nothing interrupts between its check and its write. */
    method CancelBackupJob(j: nat) returns (reply: Reply)
      modifies this
      ensures reply == CheckCancel(old(View()), j).1
      ensures View() == if reply.Done? then Next(Next(old(View()), CancelCheck(j)), CancelWrite(j)) else old(View())
      ensures reply == NotFound <==> j >= |old(jobs)|
      ensures reply == Conflict <==> j < |old(jobs)| && old(jobs)[j].status in {Success, Failed, Cancelled}
      ensures reply.Done? ==> reply.id == j && jobs == old(jobs)[j := Job(old(jobs)[j].vm, old(jobs)[j].kind, Cancelled)]
      ensures !reply.Done? ==> jobs == old(jobs)
      ensures vms == old(vms) && messages == old(messages) && manifests == old(manifests) && handler == old(handler)
    {
      if j >= |jobs| {
        return NotFound;
      }
      if jobs[j].status !in {Queued, Running} {
        return Conflict;
      }
      jobs := jobs[j := jobs[j].(status := Cancelled)];
      return Done(j);
    }

    // ---- the consumer ----

    method Fetch(m: nat)
      requires Enabled(View(), Deliver(m))
      modifies this
      ensures View() == Next(old(View()), Deliver(m))
    {
      messages := messages[m := Message(messages[m].job, messages[m].deliveries + 1, InHand)];
      handler := Delivered(m);
    }

    // SELECT the newest manifest of a successful job of `vm`
    method GetParentManifestId(vm: nat) returns (parent: Option<nat>)
      requires forall k :: 0 <= k < |manifests| ==> manifests[k].job < |jobs|
      ensures IsNewestSuccess(View(), vm, |manifests|, parent)
    {
      var k := |manifests|;
      while k > 0
        invariant 0 <= k <= |manifests|
        invariant forall l :: k <= l < |manifests| ==> !SuccessOf(View(), l, vm)
      {
        k := k - 1;
        var job := jobs[manifests[k].job];
        if job.vm == vm && job.status == Success {
          return Some(k);
        }
      }
      return None;
    }

    // The stretches of `_handle` and `run_backup` between two commits.

    method LoadJob(jobFound: bool, vmFound: bool)
      requires MessagesOk(View()) && Enabled(View(), Load(jobFound, vmFound))
      modifies this
      ensures View() == Next(old(View()), Load(jobFound, vmFound))
      ensures handler.Settled? || handler.Starting?
    {
      var m := handler.m;
      var j := messages[m].job;
      if !jobFound || jobs[j].status == Cancelled {
        handler := Settled(m);
        return;
      }
      if !vmFound {
        handler := Settled(m);
        return;
      }
      handler := Starting(m);
    }

    // job.status = running; commit
    method StartRun(committed: bool)
      requires MessagesOk(View()) && Enabled(View(), Start(committed))
      modifies this
      ensures View() == Next(old(View()), Start(committed))
      ensures handler.Idle? || handler.Working?
    {
      var m := handler.m;
      if !committed {
        Nak();
        return;
      }
      var j := messages[m].job;
      jobs := jobs[j := jobs[j].(status := Running)];
      handler := Working(m);
    }

    // The loop over the disks and the new manifest's parent.
    method RunDisks(raised: bool)
      requires MessagesOk(View()) && NeverTwo(View()) && Enabled(View(), Work(raised))
      modifies this
      ensures View() == Next(old(View()), Work(raised))
      ensures handler.Closing? || handler.Failing?
    {
      var m := handler.m;
      var j := messages[m].job;
      if raised {
        handler := Failing(m);
      } else {
        var parent := GetParentManifestId(jobs[j].vm);
        QueryIs(View(), jobs[j].vm, |manifests|, parent);
        handler := Closing(m, parent);
      }
      touched := touched + {j};
    }

    // db.add(manifest); job.status = ...; commit
    method CloseRun(committed: bool)
      requires MessagesOk(View()) && Enabled(View(), Close(committed))
      modifies this
      ensures View() == Next(old(View()), Close(committed))
      ensures handler.Idle? || handler.Settled?
    {
      var m := handler.m;
      if !committed {
        Nak();
        return;
      }
      var j := messages[m].job;
      if handler.Closing? {
        if exists k :: 0 <= k < |manifests| && manifests[k].job == j {
          Nak(); // the unique `job_id` turns the commit away
          return;
        }
        manifests := manifests + [Manifest(j, handler.parent)];
        jobs := jobs[j := jobs[j].(status := Success)];
      } else {
        jobs := jobs[j := jobs[j].(status := Failed)];
      }
      handler := Settled(m);
    }

    method SendAck()
      requires MessagesOk(View()) && Enabled(View(), Ack)
      modifies this
      ensures View() == Next(old(View()), Ack)
    {
      messages := messages[handler.m := messages[handler.m].(state := Acked)];
      handler := Idle;
    }

    /** One delivery that no other call interrupts, from load to ack or nak. */
    method Handle(jobFound: bool, vmFound: bool, runCommits: bool, raised: bool, endCommits: bool)
      requires MessagesOk(View()) && NeverTwo(View()) && handler.Delivered?
      modifies this
      ensures View() == Handled(old(View()), jobFound, vmFound, runCommits, raised, endCommits)
    {
      hide NeverTwo, Next, MessagesOk;
      SoundStep(View(), Load(jobFound, vmFound));
      LoadJob(jobFound, vmFound);
      if handler.Settled? {
        SendAck();
        return;
      }
      SoundStep(View(), Start(runCommits));
      StartRun(runCommits);
      if handler.Idle? {
        return;
      }
      SoundStep(View(), Work(raised));
      RunDisks(raised);
      SoundStep(View(), Close(endCommits));
      CloseRun(endCommits);
      if handler.Idle? {
        return;
      }
      SendAck();
    }

    /** One round of the consumer's loop: fetch a message and handle it. */
    method Consume(msg: nat, jobFound: bool, vmFound: bool, runCommits: bool, raised: bool, endCommits: bool)
      requires MessagesOk(View()) && NeverTwo(View()) && Enabled(View(), Deliver(msg))
      modifies this
      ensures View() == Handled(Next(old(View()), Deliver(msg)), jobFound, vmFound, runCommits, raised, endCommits)
      ensures handler.Idle? && |messages| == |old(messages)|
      ensures messages[msg].job == old(messages)[msg].job && messages[msg].deliveries == old(messages)[msg].deliveries + 1
      ensures forall m :: 0 <= m < |messages| && m != msg ==> messages[m] == old(messages)[m]
    {
      hide NeverTwo, MessagesOk, Handled;
      SoundStep(View(), Deliver(msg));
      HandledOutcome(Next(View(), Deliver(msg)), jobFound, vmFound, runCommits, raised, endCommits);
      Fetch(msg);
      Handle(jobFound, vmFound, runCommits, raised, endCommits);
    }

    // The message will be delivered again, until MAX_DELIVER.
    method Nak()
      requires MessagesOk(View()) && !handler.Idle?
      modifies this
      ensures View() == Release(old(View()))
    {
      messages := messages[handler.m := messages[handler.m].(state := Pending)];
      handler := Idle;
    }
  }

  // The job is a successful full backup of `vm`.
  predicate IsFullSuccess(job: Job, vm: nat) {
    job == Job(vm, Full, Success)
  }

  /** The successful full backups of `vm` among the first `n` jobs. */
  function FullOnes(jobs: seq<Job>, vm: nat, n: nat): set<nat>
    requires n <= |jobs|
  {
    set j: nat | j < n && IsFullSuccess(jobs[j], vm)
  }

  lemma NoFullOnes(jobs: seq<Job>, vm: nat)
    ensures FullOnes(jobs, vm, 0) == {}
  {
  }

  lemma OneMoreFull(jobs: seq<Job>, vm: nat, n: nat)
    requires n < |jobs|
    ensures |FullOnes(jobs, vm, n + 1)| == |FullOnes(jobs, vm, n)| + (if IsFullSuccess(jobs[n], vm) then 1 else 0)
  {
    hide IsFullSuccess;
    if IsFullSuccess(jobs[n], vm) {
      assert FullOnes(jobs, vm, n + 1) == FullOnes(jobs, vm, n) + {n};
    } else {
      assert FullOnes(jobs, vm, n + 1) == FullOnes(jobs, vm, n);
    }
  }

  lemma FullSuccesses(s: State, vm: nat)
    ensures HasFullSuccess(s, vm) <==> exists j :: 0 <= j < |s.jobs| && IsFullSuccess(s.jobs[j], vm)
    ensures HasFullSuccess(s, vm) <==> |FullOnes(s.jobs, vm, |s.jobs|)| > 0
  {
    if HasFullSuccess(s, vm) {
      var j :| 0 <= j < |s.jobs| && FullSuccess(s, vm, j);
      assert IsFullSuccess(s.jobs[j], vm) && j in FullOnes(s.jobs, vm, |s.jobs|);
    }
    if j :| 0 <= j < |s.jobs| && IsFullSuccess(s.jobs[j], vm) {
      assert FullSuccess(s, vm, j);
    }
    if FullOnes(s.jobs, vm, |s.jobs|) != {} {
      var j :| j in FullOnes(s.jobs, vm, |s.jobs|);
      assert FullSuccess(s, vm, j);
    }
  }

  // The two steps of a create request in a row.
  lemma CreateInOneGo(s: State, vm: nat, requested: Kind, published: bool)
    requires CheckCreate(s, vm, requested).Accepted?
    ensures var r := CheckCreate(s, vm, requested).r;
            Next(Next(s, CreateCheck(vm, requested)), CreateInsert(r, published))
            == s.(jobs := s.jobs + [Job(r.vm, r.kind, Queued)],
                  messages := if published then s.messages + [Message(|s.jobs|, 0, Pending)] else s.messages)
  {
    hide HasFullSuccess;
    var r := CheckCreate(s, vm, requested).r;
    assert s.creating + multiset{r} - multiset{r} == s.creating;
  }

  /** The steps of one delivery in a row. */
  function Handled(s: State, jobFound: bool, vmFound: bool, runCommits: bool, raised: bool, endCommits: bool): State
    requires s.handler.Delivered?
  {
    var loaded := Next(s, Load(jobFound, vmFound));
    if loaded.handler.Settled? then Next(loaded, Ack) else
      var started := Next(loaded, Start(runCommits));
      if started.handler.Idle? then started else
        var closed := Next(Next(started, Work(raised)), Close(endCommits));
        if closed.handler.Idle? then closed else Next(closed, Ack)
  }

  // What the stretches ask for, with no hypothesis on acks or cancels.
  lemma SoundStep(s: State, a: Step)
    requires MessagesOk(s) && NeverTwo(s) && Enabled(s, a)
    ensures MessagesOk(Next(s, a)) && NeverTwo(Next(s, a))
  {
    hide Next;
    MessagesStayOk(s, a);
    StepKeepsNeverTwo(s, a);
  }

  // ---- the steps of a delivery, each by what it changes ----

  // The handler has message `m` in its hand, and `j` is its job.
  ghost predicate Holding(s: State, m: nat, j: nat) {
    && !s.handler.Idle? && s.handler.m == m < |s.messages|
    && s.messages[m].job == j < |s.jobs|
  }

  function Mark(s: State, m: nat, state: MessageState): seq<Message>
    requires m < |s.messages|
  {
    s.messages[m := Message(s.messages[m].job, s.messages[m].deliveries, state)]
  }

  function WithStatus(s: State, j: nat, status: Status): seq<Job>
    requires j < |s.jobs|
  {
    s.jobs[j := Job(s.jobs[j].vm, s.jobs[j].kind, status)]
  }

  lemma LoadIs(s: State, m: nat, j: nat, jobFound: bool, vmFound: bool)
    requires Holding(s, m, j) && s.handler.Delivered?
    ensures Next(s, Load(jobFound, vmFound))
         == s.(handler := if jobFound && vmFound && s.jobs[j].status != Cancelled then Starting(m) else Settled(m))
  {
  }

  lemma StartIs(s: State, m: nat, j: nat)
    requires Holding(s, m, j) && s.handler.Starting?
    ensures Next(s, Start(true)) == s.(jobs := WithStatus(s, j, Running), handler := Working(m))
    ensures Next(s, Start(false)) == s.(messages := Mark(s, m, Pending), handler := Idle)
  {
  }

  lemma WorkIs(s: State, m: nat, j: nat)
    requires Holding(s, m, j) && s.handler.Working?
    ensures Next(s, Work(true)) == s.(touched := s.touched + {j}, handler := Failing(m))
    ensures Next(s, Work(false))
         == s.(touched := s.touched + {j}, handler := Closing(m, NewestSuccess(s, s.jobs[j].vm, |s.manifests|)))
  {
    hide NewestSuccess;
  }

  lemma CloseIs(s: State, m: nat, j: nat)
    requires Holding(s, m, j) && (s.handler.Closing? || s.handler.Failing?)
    ensures Next(s, Close(false)) == s.(messages := Mark(s, m, Pending), handler := Idle)
    ensures s.handler.Failing? ==> Next(s, Close(true)) == s.(jobs := WithStatus(s, j, Failed), handler := Settled(m))
    ensures s.handler.Closing? && HasManifest(s, j) ==> Next(s, Close(true)) == s.(messages := Mark(s, m, Pending), handler := Idle)
    ensures s.handler.Closing? && !HasManifest(s, j) ==>
              Next(s, Close(true)) == s.(jobs := WithStatus(s, j, Success),
                                         manifests := s.manifests + [Manifest(j, s.handler.parent)], handler := Settled(m))
  {
    hide HasManifest;
  }

  lemma AckIs(s: State, m: nat, j: nat)
    requires Holding(s, m, j) && s.handler.Settled?
    ensures Next(s, Ack) == s.(messages := Mark(s, m, Acked), handler := Idle)
  {
  }

  // The status of a job without a manifest does not matter to the parent query.
  lemma {:induction false} QueryIgnoresJob(s: State, s': State, j: nat, vm: nat, n: nat)
    requires s'.manifests == s.manifests && |s'.jobs| == |s.jobs| && n <= |s.manifests| && !HasManifest(s, j)
    requires forall i :: 0 <= i < |s.jobs| && i != j ==> s'.jobs[i] == s.jobs[i]
    ensures NewestSuccess(s', vm, n) == NewestSuccess(s, vm, n)
  {
    if n > 0 {
      QueryIgnoresJob(s, s', j, vm, n - 1);
      assert s.manifests[n - 1].job != j;
    }
  }

  lemma SameManifestsSameAnswer(s: State, s': State, j: nat)
    requires s'.manifests == s.manifests
    ensures HasManifest(s', j) <==> HasManifest(s, j)
  {
  }

  // From the start of a run to its last commit.
  lemma RunOutcome(s: State, m: nat, j: nat, raised: bool, endCommits: bool)
    requires Holding(s, m, j) && s.handler.Starting?
    ensures var closed := Next(Next(Next(s, Start(true)), Work(raised)), Close(endCommits));
            var done := endCommits && (raised || !HasManifest(s, j));
            && closed.vms == s.vms && closed.cancelling == s.cancelling && closed.creating == s.creating
            && closed.handler == (if done then Settled(m) else Idle)
            && closed.messages == (if done then s.messages else Mark(s, m, Pending))
            && closed.jobs == WithStatus(s, j, if !done then Running else if raised then Failed else Success)
            && closed.touched == s.touched + {j}
            && (if done && !raised
                then |closed.manifests| == |s.manifests| + 1 && closed.manifests[..|s.manifests|] == s.manifests
                     && closed.manifests[|s.manifests|] == Manifest(j, NewestSuccess(s, s.jobs[j].vm, |s.manifests|))
                else closed.manifests == s.manifests)
  {
    hide HasManifest, NewestSuccess, Next;
    StartIs(s, m, j);
    var started := Next(s, Start(true));
    WorkIs(started, m, j);
    var worked := Next(started, Work(raised));
    SameManifestsSameAnswer(s, worked, j);
    CloseIs(worked, m, j);
    if !HasManifest(s, j) {
      QueryIgnoresJob(s, started, j, s.jobs[j].vm, |s.manifests|);
    }
  }

  // The same, with the ack.
  lemma RunAndAck(s: State, m: nat, j: nat, raised: bool, endCommits: bool)
    requires Holding(s, m, j) && s.handler.Starting?
    ensures var closed := Next(Next(Next(s, Start(true)), Work(raised)), Close(endCommits));
            (closed.handler.Idle? || closed.handler.Settled?) &&
            var acked := if closed.handler.Idle? then closed else Next(closed, Ack);
            var done := endCommits && (raised || !HasManifest(s, j));
            && acked.vms == s.vms && acked.cancelling == s.cancelling && acked.creating == s.creating
            && acked.handler == Idle
            && acked.messages == Mark(s, m, if done then Acked else Pending)
            && acked.jobs == WithStatus(s, j, if !done then Running else if raised then Failed else Success)
            && acked.touched == s.touched + {j} && acked.manifests == closed.manifests
  {
    hide HasManifest, Next;
    StartIs(s, m, j);
    WorkIs(Next(s, Start(true)), m, j);
    RunOutcome(s, m, j, raised, endCommits);
    var closed := Next(Next(Next(s, Start(true)), Work(raised)), Close(endCommits));
    if closed.handler.Settled? {
      AckIs(closed, m, j);
    }
  }

  /**
   * What one delivery changes, also one of a job that is a success already.  The message ends acked
   * if the job or its VM is not found, the job is cancelled, or its run gets to a committed end; it
   * ends pending, with the same count, if a commit fails or the unique `job_id` turns a second
   * manifest away.  The job ends as a success, with its only manifest, as failed, or as running.
   */
  lemma HandledOutcome(s: State, jobFound: bool, vmFound: bool, runCommits: bool, raised: bool, endCommits: bool)
    requires MessagesOk(s) && s.handler.Delivered?
    ensures var s' := Handled(s, jobFound, vmFound, runCommits, raised, endCommits);
            var m := s.handler.m;
            m < |s.messages| &&
            var j := s.messages[m].job;
            j < |s.jobs| &&
            var found := jobFound && vmFound && s.jobs[j].status != Cancelled;
            var run := found && runCommits;
            var done := run && endCommits && (raised || !HasManifest(s, j));
            && s'.handler == Idle
            && s'.messages == Mark(s, m, if !found || done then Acked else Pending)
            && s'.jobs == (if run then WithStatus(s, j, if !done then Running else if raised then Failed else Success) else s.jobs)
            && s'.touched == (if run then s.touched + {j} else s.touched)
            && (if done && !raised
                then |s'.manifests| == |s.manifests| + 1 && s'.manifests[..|s.manifests|] == s.manifests
                     && s'.manifests[|s.manifests|].job == j
                     && IsNewestSuccess(s, s.jobs[j].vm, |s.manifests|, s'.manifests[|s.manifests|].parent)
                else s'.manifests == s.manifests)
            && s'.vms == s.vms && s'.cancelling == s.cancelling && s'.creating == s.creating
  {
    var m := s.handler.m;
    var j := s.messages[m].job;
    assert Holding(s, m, j);
    hide MessagesOk, HasManifest, NewestSuccess, Next;
    LoadIs(s, m, j, jobFound, vmFound);
    var loaded := Next(s, Load(jobFound, vmFound));
    SameManifestsSameAnswer(s, loaded, j);
    if loaded.handler.Settled? {
      AckIs(loaded, m, j);
    } else if !runCommits {
      StartIs(loaded, m, j);
    } else {
      StartIs(loaded, m, j);
      RunOutcome(loaded, m, j, raised, endCommits);
      RunAndAck(loaded, m, j, raised, endCommits);
      QuerySame(s, loaded, s.jobs[j].vm, |s.manifests|);
      QueryIs(s, s.jobs[j].vm, |s.manifests|, NewestSuccess(s, s.jobs[j].vm, |s.manifests|));
      hide IsNewestSuccess;
    }
  }

  lemma {:induction false} QuerySame(s: State, s': State, vm: nat, n: nat)
    requires s'.manifests == s.manifests && s'.jobs == s.jobs
    ensures NewestSuccess(s', vm, n) == NewestSuccess(s, vm, n)
  {
    if n > 0 {
      QuerySame(s, s', vm, n - 1);
    }
  }

  // Manifest `k` belongs to a successful job of `vm`.
  predicate SuccessOf(s: State, k: nat, vm: nat) {
    Belongs(s, k, vm) && s.jobs[s.manifests[k].job].status == Success
  }

  /** What the parent query promises: a success of the VM with none after it, or there is none. */
  ghost predicate IsNewestSuccess(s: State, vm: nat, n: nat, parent: Option<nat>) {
    match parent
    case None => forall k :: 0 <= k < n ==> !SuccessOf(s, k, vm)
    case Some(q) => q < n && SuccessOf(s, q, vm) && forall k :: q < k < n ==> !SuccessOf(s, k, vm)
  }

  // The protocol's query is what the promise says.
  lemma {:induction false} QueryIs(s: State, vm: nat, n: nat, parent: Option<nat>)
    ensures IsNewestSuccess(s, vm, n, parent) <==> parent == NewestSuccess(s, vm, n)
  {
    if n > 0 && !SuccessOf(s, n - 1, vm) {
      QueryIs(s, vm, n - 1, parent);
    }
  }
}
