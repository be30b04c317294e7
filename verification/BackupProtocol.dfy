/** The life of backup jobs, their messages and their manifests, as a state machine over its atomic steps. */
module BackupProtocol {
  import opened Bytes
  import opened JobTypes

  const MAX_DELIVER: nat := 3

  /** `Available` is every status in which a VM can be backed up. */
  datatype VmStatus = Provisioning | Available | Deleted

  datatype Job = Job(vm: nat, kind: Kind, status: Status)
  datatype MessageState = Pending | InHand | Acked
  datatype Message = Message(job: nat, deliveries: nat, state: MessageState)

  /** A create request that has passed its checks, with the kind that the job will get. */
  datatype Request = Request(vm: nat, kind: Kind)

  /** A manifest's position is both its id and its creation time. */
  datatype Manifest = Manifest(job: nat, parent: Option<nat>)

  /** Where the one handler stands with message `m`. */
  datatype Handler =
    | Idle
    | Delivered(m: nat)                       // fetched, job not loaded yet
    | Starting(m: nat)                        // job and VM loaded, `running` not committed
    | Working(m: nat)                         // in the loop over the disks
    | Closing(m: nat, parent: Option<nat>)    // manifest built, final commit ahead
    | Failing(m: nat)                         // exception caught, final commit ahead
    | Settled(m: nat)                         // ack ahead

  /**
   * `touched` are the jobs whose run has reached the chunk store; `cancelling` and `creating` are
   * the requests that have passed their checks and not written yet.
   */
  datatype State = State(vms: map<nat, VmStatus>, jobs: seq<Job>, messages: seq<Message>,
                         manifests: seq<Manifest>, handler: Handler, touched: set<nat>, cancelling: multiset<nat>, creating: multiset<Request>)

  const INIT := State(map[], [], [], [], Idle, {}, multiset{}, multiset{})

  datatype Step =
    | SetVm(vm: nat, status: VmStatus)
    | CreateCheck(vm: nat, requested: Kind)
    | CreateInsert(r: Request, published: bool)
    | CancelCheck(j: nat)
    | CancelWrite(j: nat)
    | Deliver(msg: nat)
    | Load(jobFound: bool, vmFound: bool)
    | Start(committed: bool)
    | Work(raised: bool)
    | Close(committed: bool)
    | Ack
    | Crash                                   // the handler dies, or its ack is lost

  // ---- queries ----

  predicate FullSuccess(s: State, vm: nat, j: nat) {
    j < |s.jobs| && s.jobs[j].vm == vm && s.jobs[j].kind == Full && s.jobs[j].status == Success
  }

  // `full_count > 0`
  predicate HasFullSuccess(s: State, vm: nat) {
    exists j :: 0 <= j < |s.jobs| && FullSuccess(s, vm, j)
  }

  predicate HasManifest(s: State, j: nat) {
    exists k :: 0 <= k < |s.manifests| && s.manifests[k].job == j
  }

  predicate Belongs(s: State, k: nat, vm: nat) {
    k < |s.manifests| && s.manifests[k].job < |s.jobs| && s.jobs[s.manifests[k].job].vm == vm
  }

  // The newest of the first `n` manifests whose job is a success of `vm`.
  function NewestSuccess(s: State, vm: nat, n: nat): Option<nat> {
    if n == 0 then None
    else if Belongs(s, n - 1, vm) && s.jobs[s.manifests[n - 1].job].status == Success then Some(n - 1)
    else NewestSuccess(s, vm, n - 1)
  }

  // ---- steps ----

  function JobOf(s: State, m: nat): nat {
    if m < |s.messages| then s.messages[m].job else 0
  }

  function VmOf(s: State, j: nat): nat {
    if j < |s.jobs| then s.jobs[j].vm else 0
  }

  predicate IsSuccess(s: State, j: nat) {
    j < |s.jobs| && s.jobs[j].status == Success
  }

  function SetStatus(s: State, j: nat, status: Status): State {
    if j < |s.jobs| then s.(jobs := s.jobs[j := s.jobs[j].(status := status)]) else s
  }

  function SetMessage(s: State, m: nat, state: MessageState): State {
    if m < |s.messages| then s.(messages := s.messages[m := s.messages[m].(state := state)]) else s
  }

  // The handler lets go of its message; it will be delivered again.
  function Release(s: State): State {
    if s.handler.Idle? then s else SetMessage(s, s.handler.m, Pending).(handler := Idle)
  }

  predicate Enabled(s: State, a: Step) {
    match a
    case SetVm(_, _) => true
    case CreateCheck(_, _) => true
    case CreateInsert(r, _) => r in s.creating
    case CancelCheck(_) => true
    case CancelWrite(j) => j in s.cancelling
    case Deliver(m) =>
      s.handler.Idle? && m < |s.messages| && s.messages[m].state == Pending && s.messages[m].deliveries < MAX_DELIVER
    case Load(_, _) => s.handler.Delivered?
    case Start(_) => s.handler.Starting?
    case Work(_) => s.handler.Working?
    case Close(_) => s.handler.Closing? || s.handler.Failing?
    case Ack => s.handler.Settled?
    case Crash => !s.handler.Idle?
  }

  /** What the endpoints answer: an id, or an HTTP error. */
  datatype Reply = Done(id: nat) | NotFound | Conflict

  datatype Checked = Refused(reply: Reply) | Accepted(r: Request)

  // The checks of a create request, with the auto-promotion; the insert comes later.
  function CheckCreate(s: State, vm: nat, requested: Kind): Checked {
    if vm !in s.vms || s.vms[vm] == Deleted then Refused(NotFound)
    else if s.vms[vm] == Provisioning then Refused(Conflict)
    else Accepted(Request(vm, if requested == Incremental && !HasFullSuccess(s, vm) then Full else requested))
  }

  // The status check of a cancel request; the write comes later.
  function CheckCancel(s: State, j: nat): (State, Reply) {
    if j >= |s.jobs| then (s, NotFound)
    else if s.jobs[j].status != Queued && s.jobs[j].status != Running then (s, Conflict)
    else (s.(cancelling := s.cancelling + multiset{j}), Done(j))
  }

  function Next(s: State, a: Step): State
    requires Enabled(s, a)
  {
    match a
    case SetVm(vm, status) => s.(vms := s.vms[vm := status])
    case CreateCheck(vm, requested) =>
      var checked := CheckCreate(s, vm, requested);
      if checked.Refused? then s else s.(creating := s.creating + multiset{checked.r})
    case CreateInsert(r, published) =>
      s.(jobs := s.jobs + [Job(r.vm, r.kind, Queued)],
         messages := if published then s.messages + [Message(|s.jobs|, 0, Pending)] else s.messages,
         creating := s.creating - multiset{r})
    case CancelCheck(j) => CheckCancel(s, j).0
    case CancelWrite(j) => SetStatus(s, j, Cancelled).(cancelling := s.cancelling - multiset{j})
    case Deliver(m) =>
      s.(messages := s.messages[m := Message(s.messages[m].job, s.messages[m].deliveries + 1, InHand)], handler := Delivered(m))
    case Load(jobFound, vmFound) =>
      var m := s.handler.m;
      var j := JobOf(s, m);
      if !jobFound || j >= |s.jobs| || s.jobs[j].status == Cancelled || !vmFound then s.(handler := Settled(m))
      else s.(handler := Starting(m))
    case Start(committed) =>
      var m := s.handler.m;
      if committed then SetStatus(s, JobOf(s, m), Running).(handler := Working(m)) else Release(s)
    case Work(raised) =>
      var m := s.handler.m;
      var j := JobOf(s, m);
      s.(touched := s.touched + {j},
         handler := if raised then Failing(m) else Closing(m, NewestSuccess(s, VmOf(s, j), |s.manifests|)))
    case Close(committed) =>
      var m := s.handler.m;
      var j := JobOf(s, m);
      if !committed || (s.handler.Closing? && HasManifest(s, j)) then Release(s) // `job_id` is unique
      else if s.handler.Failing? then SetStatus(s, j, Failed).(handler := Settled(m))
      else SetStatus(s, j, Success).(manifests := s.manifests + [Manifest(j, s.handler.parent)], handler := Settled(m))
    case Ack => SetMessage(s, s.handler.m, Acked).(handler := Idle)
    case Crash => Release(s)
  }

  // The message may be delivered again.
  predicate MoreDeliveries(s: State, m: nat) {
    m < |s.messages| && s.messages[m].deliveries < MAX_DELIVER
  }

  /** The hypothesis on acks: the one that follows a committed success is not lost, unless it was the last delivery. */
  predicate AckKept(s: State, a: Step) {
    a.Crash? && s.handler.Settled? && MoreDeliveries(s, s.handler.m) ==> !IsSuccess(s, JobOf(s, s.handler.m))
  }

  /** The hypothesis on cancels: the job has not become a success between the check and the write. */
  predicate CancelInTime(s: State, a: Step) {
    a.CancelWrite? ==> !IsSuccess(s, a.j)
  }

  predicate Orderly(s: State, a: Step) {
    AckKept(s, a) && CancelInTime(s, a)
  }

  ghost predicate Run(ss: seq<State>, steps: seq<Step>) {
    && |ss| == |steps| + 1
    && ss[0] == INIT
    && forall k :: 0 <= k < |steps| ==> Enabled(ss[k], steps[k]) && ss[k + 1] == Next(ss[k], steps[k])
  }

  // ---- the invariant ----

  // The newest of the first `n` manifests of `vm`.
  function Newest(s: State, vm: nat, n: nat): Option<nat> {
    if n == 0 then None else if Belongs(s, n - 1, vm) then Some(n - 1) else Newest(s, vm, n - 1)
  }

  predicate IsFull(s: State, k: nat) {
    k < |s.manifests| && s.manifests[k].job < |s.jobs| && s.jobs[s.manifests[k].job].kind == Full
  }

  // One of the first `n` manifests is a full backup of `vm`.
  ghost predicate HasFull(s: State, vm: nat, n: nat) {
    exists f :: 0 <= f < n && Belongs(s, f, vm) && IsFull(s, f)
  }

  ghost predicate MessagesOk(s: State) {
    && (forall m :: 0 <= m < |s.messages| ==> s.messages[m].job < |s.jobs| && s.messages[m].deliveries <= MAX_DELIVER)
    && (forall m, n :: 0 <= m < n < |s.messages| ==> s.messages[m].job != s.messages[n].job)
    && (forall m :: 0 <= m < |s.messages| ==> (s.messages[m].state == InHand <==> !s.handler.Idle? && s.handler.m == m))
    && (!s.handler.Idle? ==> s.handler.m < |s.messages|)
  }

  /** A success has a manifest, and no job ever has two. */
  ghost predicate NeverTwo(s: State) {
    && (forall k :: 0 <= k < |s.manifests| ==> s.manifests[k].job < |s.jobs|)
    && (forall j :: IsSuccess(s, j) ==> HasManifest(s, j))
    && (forall k, l :: 0 <= k < l < |s.manifests| ==> s.manifests[k].job != s.manifests[l].job)
  }

  /** A job is a success exactly when it has a manifest, and it never has two. */
  ghost predicate OneManifestEach(s: State) {
    && NeverTwo(s)
    && (forall j :: 0 <= j < |s.jobs| && HasManifest(s, j) ==> IsSuccess(s, j))
  }

  // Nobody will run a finished job again.
  ghost predicate SuccessSettled(s: State) {
    forall m :: 0 <= m < |s.messages| && IsSuccess(s, s.messages[m].job)
      ==> s.messages[m].state == Acked || s.handler == Settled(m) || (s.messages[m].state == Pending && !MoreDeliveries(s, m))
  }

  ghost predicate ParentsOk(s: State) {
    && (forall k :: 0 <= k < |s.manifests| ==>
          s.manifests[k].parent == Newest(s, VmOf(s, s.manifests[k].job), k))
    && (s.handler.Closing? ==> s.handler.parent == Newest(s, VmOf(s, JobOf(s, s.handler.m)), |s.manifests|))
  }

  ghost predicate FullsOk(s: State) {
    && (forall j :: 0 <= j < |s.jobs| && s.jobs[j].kind == Incremental ==> HasFull(s, s.jobs[j].vm, |s.manifests|))
    && (forall r :: r in s.creating && r.kind == Incremental ==> HasFull(s, r.vm, |s.manifests|))
    && (forall k :: 0 <= k < |s.manifests| && !IsFull(s, k) ==> HasFull(s, VmOf(s, s.manifests[k].job), k))
  }

  ghost predicate Good(s: State) {
    MessagesOk(s) && OneManifestEach(s) && SuccessSettled(s) && ParentsOk(s) && FullsOk(s)
  }

  // ---- what does not matter to manifests ----

  // The jobs' VMs and kinds are fixed, so queries over old manifests give old answers.
  ghost predicate Extends(s: State, s': State) {
    && |s.jobs| <= |s'.jobs| && s.manifests <= s'.manifests
    && (forall j :: 0 <= j < |s.jobs| ==> s'.jobs[j].vm == s.jobs[j].vm && s'.jobs[j].kind == s.jobs[j].kind)
  }

  lemma {:induction false} NewestStays(s: State, s': State, vm: nat, n: nat)
    requires Extends(s, s') && OneManifestEach(s) && n <= |s.manifests|
    ensures Newest(s', vm, n) == Newest(s, vm, n)
  {
    if n > 0 {
      NewestStays(s, s', vm, n - 1);
    }
  }

  lemma HasFullStays(s: State, s': State, vm: nat, n: nat, n': nat)
    requires Extends(s, s') && OneManifestEach(s) && n <= n' && n <= |s.manifests|
    ensures HasFull(s, vm, n) ==> HasFull(s', vm, n')
  {
    if HasFull(s, vm, n) {
      var f :| 0 <= f < n && Belongs(s, f, vm) && IsFull(s, f);
      assert Belongs(s', f, vm) && IsFull(s', f);
    }
  }

  // The parent query looks at successes only; every manifest's job is one.
  lemma {:induction false} NewestIsSuccess(s: State, vm: nat, n: nat)
    requires OneManifestEach(s) && n <= |s.manifests|
    ensures NewestSuccess(s, vm, n) == Newest(s, vm, n)
  {
    if n > 0 {
      NewestIsSuccess(s, vm, n - 1);
      assert HasManifest(s, s.manifests[n - 1].job);
    }
  }

  // A step that leaves the manifests alone keeps what is said about them.
  lemma SameManifests(s: State, s': State)
    requires Good(s) && Extends(s, s') && s'.manifests == s.manifests
    requires s'.handler.Closing? ==>
               var j := JobOf(s', s'.handler.m);
               j < |s.jobs| && s'.handler.parent == Newest(s, VmOf(s, j), |s.manifests|)
    requires forall j :: |s.jobs| <= j < |s'.jobs| && s'.jobs[j].kind == Incremental ==> HasFull(s', s'.jobs[j].vm, |s'.manifests|)
    requires forall r :: r in s'.creating && r !in s.creating && r.kind == Incremental ==> HasFull(s', r.vm, |s'.manifests|)
    ensures ParentsOk(s') && FullsOk(s')
  {
    hide Newest, HasFull;
    forall k | 0 <= k < |s.manifests|
      ensures s'.manifests[k].parent == Newest(s', VmOf(s', s'.manifests[k].job), k)
      ensures !IsFull(s', k) ==> HasFull(s', VmOf(s', s'.manifests[k].job), k)
    {
      NewestStays(s, s', VmOf(s, s.manifests[k].job), k);
      HasFullStays(s, s', VmOf(s, s.manifests[k].job), k, k);
    }
    forall j | 0 <= j < |s.jobs| && s'.jobs[j].kind == Incremental
      ensures HasFull(s', s'.jobs[j].vm, |s'.manifests|)
    {
      HasFullStays(s, s', s.jobs[j].vm, |s.manifests|, |s.manifests|);
    }
    forall r | r in s'.creating && r.kind == Incremental
      ensures HasFull(s', r.vm, |s'.manifests|)
    {
      HasFullStays(s, s', r.vm, |s.manifests|, |s.manifests|);
    }
    if s'.handler.Closing? {
      NewestStays(s, s', VmOf(s, JobOf(s', s'.handler.m)), |s.manifests|);
    }
  }

  // A step that changes no success and no manifest keeps the correspondence between them.
  lemma SameSuccesses(s: State, s': State)
    requires OneManifestEach(s) && s'.manifests == s.manifests && |s.jobs| <= |s'.jobs|
    requires forall j :: 0 <= j < |s'.jobs| ==> (IsSuccess(s', j) <==> IsSuccess(s, j))
    ensures OneManifestEach(s')
  {
    forall j | 0 <= j < |s'.jobs|
      ensures IsSuccess(s', j) <==> HasManifest(s', j)
    {
      assert HasManifest(s', j) <==> HasManifest(s, j);
    }
  }

  // ---- one step at a time ----

  // The job in the handler's hand, up to its last commit, is not a success.
  lemma InHandNotSuccess(s: State)
    requires Good(s) && !s.handler.Idle? && !s.handler.Settled?
    ensures JobOf(s, s.handler.m) < |s.jobs| && !IsSuccess(s, JobOf(s, s.handler.m))
  {
    assert s.messages[s.handler.m].state == InHand;
  }

  predicate Endpoint(a: Step) {
    a.SetVm? || a.CreateCheck? || a.CreateInsert? || a.CancelCheck? || a.CancelWrite?
  }

  lemma MessagesStayOk(s: State, a: Step)
    requires MessagesOk(s) && Enabled(s, a)
    ensures MessagesOk(Next(s, a))
  {
    hide MessagesOk;
    if Endpoint(a) {
      EndpointKeepsMessages(s, a);
    } else {
      HandlerKeepsMessages(s, a);
    }
  }

  lemma InsertKeepsMessages(s: State, r: Request, published: bool)
    requires MessagesOk(s) && r in s.creating
    ensures MessagesOk(Next(s, CreateInsert(r, published)))
  {
  }

  lemma EndpointKeepsMessages(s: State, a: Step)
    requires MessagesOk(s) && Enabled(s, a)
    requires Endpoint(a)
    ensures MessagesOk(Next(s, a))
  {
    if a.CreateInsert? {
      InsertKeepsMessages(s, a.r, a.published);
    } else {
      QuietEndpoint(s, a);
      hide Next;
    }
  }

  // Only an insert touches messages and the number of jobs.
  lemma QuietEndpoint(s: State, a: Step)
    requires Enabled(s, a) && Endpoint(a) && !a.CreateInsert?
    ensures var s' := Next(s, a); s'.messages == s.messages && s'.handler == s.handler && |s'.jobs| == |s.jobs|
  {
    hide CheckCreate;
  }

  lemma ReleaseKeepsMessages(s: State)
    requires MessagesOk(s)
    ensures MessagesOk(Release(s))
  {
  }

  lemma HandlerKeepsMessages(s: State, a: Step)
    requires MessagesOk(s) && Enabled(s, a) && !Endpoint(a)
    ensures MessagesOk(Next(s, a))
  {
    hide NewestSuccess, HasManifest, Release;
    ReleaseKeepsMessages(s);
  }

  predicate Quiet(a: Step) {
    a.SetVm? || a.Deliver? || a.Load? || a.Ack? || a.Crash? || a.CancelCheck? || a.CancelWrite? || a == Start(false) || a == Close(false)
  }

  lemma QuietStepKeepsGood(s: State, a: Step)
    requires Good(s) && Enabled(s, a) && Orderly(s, a) && Quiet(a)
    ensures Good(Next(s, a))
  {
    MessagesStayOk(s, a);
    QuietStepChangesLittle(s, a);
    if s.handler.Closing? {
      ClosingParent(s);
    }
    hide HasFull, Newest, HasManifest, ParentsOk, FullsOk, OneManifestEach, MessagesOk, SuccessSettled, Extends, Next;
    SameManifests(s, Next(s, a));
    SameSuccesses(s, Next(s, a));
  }

  // No success appears or disappears, and a manifest waiting for its commit keeps waiting for it.
  ghost predicate ChangesLittle(s: State, s': State) {
    && Extends(s, s') && |s'.jobs| == |s.jobs| && s'.manifests == s.manifests && s'.creating == s.creating
    && (forall j :: 0 <= j < |s'.jobs| ==> (IsSuccess(s', j) <==> IsSuccess(s, j)))
    && (s'.handler.Closing? ==> s'.handler == s.handler && JobOf(s', s.handler.m) == JobOf(s, s.handler.m) < |s.jobs|)
    && SuccessSettled(s')
  }

  lemma QuietStepChangesLittle(s: State, a: Step)
    requires Good(s) && Enabled(s, a) && Orderly(s, a) && Quiet(a)
    ensures ChangesLittle(s, Next(s, a))
  {
    hide Good, Next, ChangesLittle;
    if a.SetVm? || a.CancelCheck? || a.CancelWrite? {
      EndpointChangesLittle(s, a);
    } else {
      HandlerChangesLittle(s, a);
    }
  }

  lemma EndpointChangesLittle(s: State, a: Step)
    requires Good(s) && Enabled(s, a) && Orderly(s, a)
    requires a.SetVm? || a.CancelCheck? || a.CancelWrite?
    ensures ChangesLittle(s, Next(s, a))
  {
    hide HasFull, Newest, HasManifest, ParentsOk, FullsOk, OneManifestEach;
  }

  lemma HandlerChangesLittle(s: State, a: Step)
    requires Good(s) && Enabled(s, a) && Orderly(s, a) && Quiet(a)
    requires !a.SetVm? && !a.CancelCheck? && !a.CancelWrite?
    ensures ChangesLittle(s, Next(s, a))
  {
    hide HasFull, Newest, HasManifest, ParentsOk, FullsOk, OneManifestEach;
    if !s.handler.Idle? && !s.handler.Settled? {
      InHandNotSuccess(s);
    }
  }

  lemma RunStepKeepsGood(s: State, a: Step)
    requires Good(s) && Enabled(s, a)
    requires a == Start(true) || a.Work? || (a == Close(true) && s.handler.Failing?)
    ensures Good(Next(s, a))
  {
    var s' := Next(s, a);
    MessagesStayOk(s, a);
    InHandNotSuccess(s);
    NewestIsSuccess(s, VmOf(s, JobOf(s, s.handler.m)), |s.manifests|);
    SameManifests(s, s');
    hide HasFull, Newest, HasManifest, ParentsOk, FullsOk, OneManifestEach;
    SameSuccesses(s, s');
  }

  // The count and the insert of a create request are two steps: what the count saw stays true.
  lemma CreateCheckKeepsGood(s: State, vm: nat, requested: Kind)
    requires Good(s)
    ensures Good(Next(s, CreateCheck(vm, requested)))
  {
    var s' := Next(s, CreateCheck(vm, requested));
    MessagesStayOk(s, CreateCheck(vm, requested));
    CheckSawFull(s, vm, requested);
    if s.handler.Closing? {
      ClosingParent(s);
    }
    assert s'.manifests == s.manifests && Extends(s, s') && s'.jobs == s.jobs && s'.handler == s.handler && s'.messages == s.messages;
    hide HasFull, Newest, HasManifest, ParentsOk, FullsOk, OneManifestEach, MessagesOk, CheckCreate, Next, Extends;
    SameManifests(s, s');
    SameSuccesses(s, s');
  }

  lemma CheckSawFull(s: State, vm: nat, requested: Kind)
    requires Good(s)
    ensures var s' := Next(s, CreateCheck(vm, requested));
            forall r :: r in s'.creating && r !in s.creating && r.kind == Incremental ==> HasFull(s', r.vm, |s'.manifests|)
  {
    hide HasFull, Newest, HasManifest, ParentsOk, FullsOk, HasFullSuccess, MessagesOk;
    var s' := Next(s, CreateCheck(vm, requested));
    if HasFullSuccess(s, vm) {
      FullSuccessHasManifest(s, vm);
      HasFullStays(s, s', vm, |s.manifests|, |s.manifests|);
    }
  }

  // A new job may be incremental only if a full backup of its VM has its manifest already.
  lemma CreateInsertKeepsGood(s: State, r: Request, published: bool)
    requires Good(s) && r in s.creating
    ensures Good(Next(s, CreateInsert(r, published)))
  {
    var s' := Next(s, CreateInsert(r, published));
    MessagesStayOk(s, CreateInsert(r, published));
    CreateAddsJob(s, r, published);
    NewIncremental(s, r, published);
    hide HasFull, Newest, HasManifest, ParentsOk, FullsOk, OneManifestEach, MessagesOk, SuccessSettled, Extends;
    if s.handler.Closing? {
      ClosingParent(s);
    }
    SameManifests(s, s');
    SameSuccesses(s, s');
  }

  // A new job is queued, at most one message is added, and nothing else changes.
  lemma CreateAddsJob(s: State, r: Request, published: bool)
    requires Good(s) && r in s.creating
    ensures var s' := Next(s, CreateInsert(r, published));
            && Extends(s, s') && s'.manifests == s.manifests && s'.handler == s.handler
            && (forall j :: 0 <= j < |s'.jobs| ==> (IsSuccess(s', j) <==> IsSuccess(s, j)))
            && (forall x :: x in s'.creating ==> x in s.creating)
            && (s.handler.Closing? ==> JobOf(s', s.handler.m) == JobOf(s, s.handler.m) < |s.jobs|)
            && SuccessSettled(s')
  {
    hide HasFull, Newest, HasManifest, ParentsOk, FullsOk, OneManifestEach;
  }

  lemma NewIncremental(s: State, r: Request, published: bool)
    requires Good(s) && r in s.creating
    ensures var s' := Next(s, CreateInsert(r, published));
            forall j :: |s.jobs| <= j < |s'.jobs| && s'.jobs[j].kind == Incremental ==> HasFull(s', s'.jobs[j].vm, |s'.manifests|)
  {
    hide HasFull, Newest, ParentsOk;
    var s' := Next(s, CreateInsert(r, published));
    if r.kind == Incremental {
      HasFullStays(s, s', r.vm, |s.manifests|, |s.manifests|);
    }
  }

  lemma ClosingParent(s: State)
    requires Good(s) && s.handler.Closing?
    ensures s.handler.parent == Newest(s, VmOf(s, JobOf(s, s.handler.m)), |s.manifests|)
  {
  }

  lemma FullSuccessHasManifest(s: State, vm: nat)
    requires Good(s) && HasFullSuccess(s, vm)
    ensures HasFull(s, vm, |s.manifests|)
  {
    var j :| 0 <= j < |s.jobs| && FullSuccess(s, vm, j);
    assert HasManifest(s, j);
    var k :| 0 <= k < |s.manifests| && s.manifests[k].job == j;
    assert Belongs(s, k, vm) && IsFull(s, k);
  }

  lemma CommitSettled(s: State)
    requires Good(s) && s.handler.Closing?
    ensures SuccessSettled(Next(s, Close(true)))
  {
    InHandNotSuccess(s);
    hide HasFull, Newest, HasManifest, ParentsOk, FullsOk, OneManifestEach;
  }

  // The commit that makes a job a success and gives it its manifest.
  lemma CommitKeepsGood(s: State)
    requires Good(s) && s.handler.Closing?
    ensures Good(Next(s, Close(true)))
  {
    hide HasFull, Newest, HasManifest, ParentsOk, FullsOk, OneManifestEach, MessagesOk, SuccessSettled, Next;
    MessagesStayOk(s, Close(true));
    CommitSettled(s);
    CommitOneManifestEach(s);
    CommitManifests(s);
  }

  lemma CommitOneManifestEach(s: State)
    requires Good(s) && s.handler.Closing?
    ensures OneManifestEach(Next(s, Close(true)))
  {
    hide ParentsOk, FullsOk, Newest;
    var s' := Next(s, Close(true));
    var j := JobOf(s, s.handler.m);
    InHandNotSuccess(s);
    forall i | 0 <= i < |s'.jobs|
      ensures IsSuccess(s', i) <==> HasManifest(s', i)
    {
      if i == j {
        assert s'.manifests[|s.manifests|].job == j;
      } else if IsSuccess(s, i) {
        var k :| 0 <= k < |s.manifests| && s.manifests[k].job == i;
        assert s'.manifests[k].job == i;
      }
    }
    assert !HasManifest(s, j);
  }

  lemma CommitManifests(s: State)
    requires Good(s) && s.handler.Closing?
    ensures ParentsOk(Next(s, Close(true))) && FullsOk(Next(s, Close(true)))
  {
    hide HasFull, Newest, HasManifest;
    var s' := Next(s, Close(true));
    var n, j := |s.manifests|, JobOf(s, s.handler.m);
    InHandNotSuccess(s);
    forall k | 0 <= k < |s'.manifests|
      ensures s'.manifests[k].parent == Newest(s', VmOf(s', s'.manifests[k].job), k)
      ensures !IsFull(s', k) ==> HasFull(s', VmOf(s', s'.manifests[k].job), k)
    {
      var vm := VmOf(s, s'.manifests[k].job);
      NewestStays(s, s', vm, k);
      HasFullStays(s, s', vm, k, k);
      if k == n {
        assert s.jobs[j].kind == Incremental ==> HasFull(s, vm, n);
      } else {
        assert IsFull(s', k) <==> IsFull(s, k);
      }
    }
    forall i | 0 <= i < |s'.jobs| && s'.jobs[i].kind == Incremental
      ensures HasFull(s', s'.jobs[i].vm, n + 1)
    {
      HasFullStays(s, s', s.jobs[i].vm, n, n + 1);
    }
    forall r | r in s'.creating && r.kind == Incremental
      ensures HasFull(s', r.vm, n + 1)
    {
      HasFullStays(s, s', r.vm, n, n + 1);
    }
  }

  lemma StepKeepsGood(s: State, a: Step)
    requires Good(s) && Enabled(s, a) && Orderly(s, a)
    ensures Good(Next(s, a))
  {
    hide Good, Next;
    match a
    case CreateCheck(vm, requested) => CreateCheckKeepsGood(s, vm, requested);
    case CreateInsert(r, published) => CreateInsertKeepsGood(s, r, published);
    case Close(committed) =>
      if committed && s.handler.Closing? {
        CommitKeepsGood(s);
      } else if committed {
        RunStepKeepsGood(s, a);
      } else {
        QuietStepKeepsGood(s, a);
      }
    case Start(committed) => if committed { RunStepKeepsGood(s, a); } else { QuietStepKeepsGood(s, a); }
    case Work(_) => RunStepKeepsGood(s, a);
    case _ => QuietStepKeepsGood(s, a);
  }

  /**
   * Over all interleavings of creates, cancels, deliveries, failed commits and crashes: a job is a
   * success exactly when it has exactly one manifest, and every parent is the VM's newest manifest.
   */
  lemma {:induction false} RunsStayGood(ss: seq<State>, steps: seq<Step>, k: nat)
    requires Run(ss, steps) && k <= |steps|
    requires forall i :: 0 <= i < k ==> Orderly(ss[i], steps[i])
    ensures Good(ss[k])
  {
    if k > 0 {
      RunsStayGood(ss, steps, k - 1);
      hide Good, Next, Orderly, Enabled;
      StepKeepsGood(ss[k - 1], steps[k - 1]);
      assert ss[k - 1 + 1] == Next(ss[k - 1], steps[k - 1]);
    }
  }

  // ---- what endpoints leave alone ----

  ghost predicate Framed(s: State, a: Step, s': State) {
    && s'.handler == s.handler && s'.manifests == s.manifests && s'.touched == s.touched
    && |s.jobs| <= |s'.jobs| && |s.messages| <= |s'.messages|
    && (forall m :: 0 <= m < |s.messages| ==> s'.messages[m] == s.messages[m])
    && (forall m :: |s.messages| <= m < |s'.messages| ==> s'.messages[m].job >= |s.jobs|)
    && (forall j :: 0 <= j < |s.jobs| ==> s'.jobs[j] == s.jobs[j] || (a == CancelWrite(j) && s'.jobs[j] == s.jobs[j].(status := Cancelled)))
    && (forall j :: j in s'.cancelling ==>
          j in s.cancelling || (j < |s.jobs| && (s.jobs[j].status == Queued || s.jobs[j].status == Running)))
  }

  lemma EndpointFrame(s: State, a: Step)
    requires Enabled(s, a) && Endpoint(a)
    ensures Framed(s, a, Next(s, a))
  {
    hide HasFullSuccess, Framed;
    match a
    case SetVm(vm, status) => SetVmFrame(s, vm, status);
    case CreateCheck(vm, requested) => CheckFrame(s, vm, requested);
    case CreateInsert(r, published) => InsertFrame(s, r, published);
    case CancelCheck(j) => CancelCheckFrame(s, j);
    case CancelWrite(j) => CancelFrame(s, j);
  }

  lemma SetVmFrame(s: State, vm: nat, status: VmStatus)
    ensures Framed(s, SetVm(vm, status), Next(s, SetVm(vm, status)))
  {
  }

  lemma CheckFrame(s: State, vm: nat, requested: Kind)
    ensures Framed(s, CreateCheck(vm, requested), Next(s, CreateCheck(vm, requested)))
  {
    hide CheckCreate;
  }

  lemma InsertFrame(s: State, r: Request, published: bool)
    requires r in s.creating
    ensures Framed(s, CreateInsert(r, published), Next(s, CreateInsert(r, published)))
  {
  }

  lemma CancelCheckFrame(s: State, j: nat)
    ensures Framed(s, CancelCheck(j), Next(s, CancelCheck(j)))
  {
  }

  lemma CancelFrame(s: State, j: nat)
    requires j in s.cancelling
    ensures Framed(s, CancelWrite(j), Next(s, CancelWrite(j)))
  {
  }

  // What the handler writes to the job in its hand, if anything.
  function Written(s: State, a: Step): Option<Status> {
    match a
    case Start(true) => Some(Running)
    case Close(true) =>
      if s.handler.Failing? then Some(Failed)
      else if s.handler.Closing? && !HasManifest(s, JobOf(s, s.handler.m)) then Some(Success)
      else None
    case _ => None
  }

  /** The handler writes one status at most, to the job in its hand, and appends a manifest only with a success. */
  lemma HandlerJobs(s: State, a: Step)
    requires Enabled(s, a) && !Endpoint(a)
    ensures var s' := Next(s, a);
            var w := Written(s, a);
            && (w.Some? ==> !s.handler.Idle?)
            && s'.jobs == (if w.Some? then SetStatus(s, JobOf(s, s.handler.m), w.value).jobs else s.jobs)
            && s'.manifests == (if w == Some(Success) then s.manifests + [Manifest(JobOf(s, s.handler.m), s.handler.parent)] else s.manifests)
  {
    hide NewestSuccess, HasManifest, JobOf;
  }

  // ---- without the hypotheses ----

  predicate Commits(s: State, a: Step) {
    a == Close(true) && s.handler.Closing? && !HasManifest(s, JobOf(s, s.handler.m))
  }

  lemma CommitAddsOne(s: State, a: Step)
    requires MessagesOk(s) && NeverTwo(s) && Enabled(s, a) && Commits(s, a)
    ensures NeverTwo(Next(s, a))
  {
    var s' := Next(s, a);
    var mine := JobOf(s, s.handler.m);
    assert s'.manifests == s.manifests + [Manifest(mine, s.handler.parent)];
    assert s'.manifests[|s.manifests|].job == mine < |s.jobs| == |s'.jobs|;
    hide MessagesOk, Next;
    forall j | IsSuccess(s', j)
      ensures HasManifest(s', j)
    {
      if j != mine {
        assert IsSuccess(s, j);
        var k :| 0 <= k < |s.manifests| && s.manifests[k].job == j;
        assert s'.manifests[k].job == j;
      }
    }
  }

  // Only a commit makes a success.
  ghost predicate MakesNone(s: State, s': State) {
    s'.manifests == s.manifests && |s.jobs| <= |s'.jobs| && forall j :: IsSuccess(s', j) ==> IsSuccess(s, j)
  }

  lemma OthersMakeNone(s: State, a: Step)
    requires Enabled(s, a) && !Commits(s, a)
    ensures MakesNone(s, Next(s, a))
  {
    if a.CreateInsert? {
      InsertMakesNone(s, a.r, a.published);
    } else if Endpoint(a) {
      EndpointFrame(s, a);
      QuietEndpoint(s, a);
      hide Next;
    } else {
      HandlerJobs(s, a);
      hide Next, HasManifest, Commits;
    }
  }

  lemma InsertMakesNone(s: State, r: Request, published: bool)
    requires r in s.creating
    ensures MakesNone(s, Next(s, CreateInsert(r, published)))
  {
  }

  lemma StepKeepsNeverTwo(s: State, a: Step)
    requires MessagesOk(s) && NeverTwo(s) && Enabled(s, a)
    ensures NeverTwo(Next(s, a))
  {
    hide MessagesOk, Next, Enabled;
    var s' := Next(s, a);
    if Commits(s, a) {
      CommitAddsOne(s, a);
    } else {
      OthersMakeNone(s, a);
      forall j | IsSuccess(s', j)
        ensures HasManifest(s', j)
      {
        assert HasManifest(s, j);
      }
    }
  }

  /**
   * In every run, lost acks and late cancels included, a success has exactly one manifest and no
   * job ever has two: the unique `job_id` turns the second commit away.
   */
  lemma {:induction false} NeverTwoManifests(ss: seq<State>, steps: seq<Step>, k: nat)
    requires Run(ss, steps) && k <= |steps|
    ensures MessagesOk(ss[k]) && NeverTwo(ss[k])
  {
    if k > 0 {
      NeverTwoManifests(ss, steps, k - 1);
      hide MessagesOk, NeverTwo, Next, Enabled;
      MessagesStayOk(ss[k - 1], steps[k - 1]);
      StepKeepsNeverTwo(ss[k - 1], steps[k - 1]);
      assert ss[k - 1 + 1] == Next(ss[k - 1], steps[k - 1]);
    }
  }

  // ---- deliveries ----

  // How often message `m` has been delivered in the first `k` steps.
  function DeliveredTimes(steps: seq<Step>, m: nat, k: nat): nat
    requires k <= |steps|
  {
    if k == 0 then 0 else DeliveredTimes(steps, m, k - 1) + (if steps[k - 1] == Deliver(m) then 1 else 0)
  }

  lemma StepDelivers(s: State, a: Step, m: nat)
    requires MessagesOk(s) && Enabled(s, a)
    ensures var s' := Next(s, a);
            && |s.messages| <= |s'.messages|
            && (m < |s.messages| ==> s'.messages[m].deliveries == s.messages[m].deliveries + (if a == Deliver(m) then 1 else 0))
            && (|s.messages| <= m < |s'.messages| ==> s'.messages[m].deliveries == 0)
            && (a == Deliver(m) ==> m < |s.messages| && s.messages[m].deliveries < 3)
  {
    hide NewestSuccess, HasManifest, CheckCreate, CheckCancel;
    if Endpoint(a) && !a.CreateInsert? {
      QuietEndpoint(s, a);
    }
  }

  /** In every run, a message's count is the number of its deliveries, and that is at most three. */
  lemma {:induction false} DeliveriesCounted(ss: seq<State>, steps: seq<Step>, m: nat, k: nat)
    requires Run(ss, steps) && k <= |steps|
    ensures DeliveredTimes(steps, m, k) == if m < |ss[k].messages| then ss[k].messages[m].deliveries else 0
    ensures DeliveredTimes(steps, m, k) <= 3
  {
    if k > 0 {
      DeliveriesCounted(ss, steps, m, k - 1);
      hide MessagesOk, NeverTwo, Next, Enabled;
      NeverTwoManifests(ss, steps, k - 1);
      StepDelivers(ss[k - 1], steps[k - 1], m);
      assert ss[k - 1 + 1] == Next(ss[k - 1], steps[k - 1]);
    }
  }

  /**
   * Whatever the state, every request can be made, the handler can take its next step with either
   * outcome or crash, and an idle handler can get any message that waits and has deliveries left.
   */
  lemma NobodyIsStuck(s: State, vm: nat, status: VmStatus, kind: Kind, r: Request, j: nat, m: nat, yes: bool, also: bool)
    ensures Enabled(s, SetVm(vm, status)) && Enabled(s, CreateCheck(vm, kind)) && Enabled(s, CancelCheck(j))
    ensures r in s.creating ==> Enabled(s, CreateInsert(r, yes))
    ensures j in s.cancelling ==> Enabled(s, CancelWrite(j))
    ensures match s.handler
            case Idle => m < |s.messages| && s.messages[m].state == Pending && s.messages[m].deliveries < 3 ==> Enabled(s, Deliver(m))
            case Delivered(_) => Enabled(s, Load(yes, also)) && Enabled(s, Crash)
            case Starting(_) => Enabled(s, Start(yes)) && Enabled(s, Crash)
            case Working(_) => Enabled(s, Work(yes)) && Enabled(s, Crash)
            case Closing(_, _) => Enabled(s, Close(yes)) && Enabled(s, Crash)
            case Failing(_) => Enabled(s, Close(yes)) && Enabled(s, Crash)
            case Settled(_) => Enabled(s, Ack) && Enabled(s, Crash)
  {
  }

  /** A message is acked only by the step that follows a refused load or a committed end. */
  lemma AckedBySettling(s: State, a: Step, m: nat)
    requires MessagesOk(s) && Enabled(s, a) && m < |s.messages| && s.messages[m].state != Acked
    ensures m < |Next(s, a).messages|
    ensures Next(s, a).messages[m].state == Acked <==> a == Ack && s.handler == Settled(m)
  {
    hide NewestSuccess, HasManifest, CheckCreate, CheckCancel;
    if Endpoint(a) && !a.CreateInsert? {
      QuietEndpoint(s, a);
    }
  }

  // ---- the hypotheses are exact ----

  /** From a good state, a step keeps the invariant exactly when it meets the two hypotheses. */
  lemma OrderlyIff(s: State, a: Step)
    requires Good(s) && Enabled(s, a)
    ensures Orderly(s, a) <==> Good(Next(s, a))
  {
    if Orderly(s, a) {
      hide Good, Next;
      StepKeepsGood(s, a);
    } else if a.CancelWrite? {
      LateCancelIsBad(s, a.j);
    } else {
      LostAckIsBad(s);
    }
  }

  lemma LateCancelIsBad(s: State, j: nat)
    requires OneManifestEach(s) && j in s.cancelling && IsSuccess(s, j)
    ensures !OneManifestEach(Next(s, CancelWrite(j)))
  {
    var s' := Next(s, CancelWrite(j));
    var k :| 0 <= k < |s.manifests| && s.manifests[k].job == j;
    assert s'.manifests[k].job == j;
    assert HasManifest(s', j);
  }

  lemma LostAckIsBad(s: State)
    requires MessagesOk(s) && s.handler.Settled? && MoreDeliveries(s, s.handler.m) && IsSuccess(s, JobOf(s, s.handler.m))
    ensures !SuccessSettled(Next(s, Crash))
  {
    var s' := Next(s, Crash);
    var m := s.handler.m;
    assert IsSuccess(s', s'.messages[m].job) && s'.messages[m].state == Pending;
  }

  ghost predicate AllGood(ss: seq<State>, n: nat)
    requires n < |ss|
  {
    forall i :: 0 <= i <= n ==> Good(ss[i])
  }

  predicate AllOrderly(ss: seq<State>, steps: seq<Step>, n: nat)
    requires n < |ss| && n <= |steps|
  {
    forall i :: 0 <= i < n ==> Orderly(ss[i], steps[i])
  }

  /** The states of a run are all good exactly when all of its steps meet the hypotheses. */
  lemma {:induction false} RunsGoodIff(ss: seq<State>, steps: seq<Step>, n: nat)
    requires Run(ss, steps) && n <= |steps|
    ensures AllGood(ss, n) <==> AllOrderly(ss, steps, n)
  {
    hide Good, Orderly;
    if n == 0 {
      RunsStayGood(ss, steps, 0);
    } else {
      RunsGoodIff(ss, steps, n - 1);
      hide Next, Enabled;
      assert ss[n - 1 + 1] == Next(ss[n - 1], steps[n - 1]);
      OneMoreStep(ss, steps, n - 1);
      hide AllGood, AllOrderly;
      if AllGood(ss, n - 1) {
        GoodNow(ss, n - 1);
        OrderlyIff(ss[n - 1], steps[n - 1]);
      }
    }
  }

  lemma GoodNow(ss: seq<State>, n: nat)
    requires n < |ss| && AllGood(ss, n)
    ensures Good(ss[n])
  {
  }

  lemma OneMoreStep(ss: seq<State>, steps: seq<Step>, n: nat)
    requires n + 1 < |ss| && n < |steps|
    ensures AllGood(ss, n + 1) <==> AllGood(ss, n) && Good(ss[n + 1])
    ensures AllOrderly(ss, steps, n + 1) <==> AllOrderly(ss, steps, n) && Orderly(ss[n], steps[n])
  {
    hide Good, Orderly;
  }

  // ---- continuations ----

  /** The state after `steps`, if each of them is possible where it is taken. */
  function After(s: State, steps: seq<Step>): Option<State>
    decreases |steps|
  {
    if steps == [] then Some(s)
    else if !Enabled(s, steps[0]) then None
    else After(Next(s, steps[0]), steps[1..])
  }

  ghost predicate LeavesBy(s: State, j: nat, status: Status, steps: seq<Step>) {
    var t := After(s, steps);
    t.Some? && !(j < |t.value.jobs| && t.value.jobs[j].status == status)
  }

  /** Some continuation, with no hypothesis on it, ends with job `j` in another status. */
  ghost predicate CanLeave(s: State, j: nat, status: Status) {
    exists steps :: LeavesBy(s, j, status, steps)
  }

  lemma LeaveNow(s: State, j: nat, status: Status)
    requires j < |s.jobs| && s.jobs[j].status != status
    ensures CanLeave(s, j, status)
  {
    assert LeavesBy(s, j, status, []);
  }

  lemma LeaveLater(s: State, j: nat, status: Status, a: Step)
    requires Enabled(s, a) && CanLeave(Next(s, a), j, status)
    ensures CanLeave(s, j, status)
  {
    hide Next, Enabled;
    var steps :| LeavesBy(Next(s, a), j, status, steps);
    assert ([a] + steps)[1..] == steps;
    assert LeavesBy(s, j, status, [a] + steps);
  }
}
