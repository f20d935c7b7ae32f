/** The job manager as a transition system: one dispatcher goroutine, one
    goroutine per started job, any number of callers that queue or cancel jobs
    or change the worker count, the deletion of mailboxes and the edits of the
    rows the resource keys are read from (app/modules/jobs.go,
    app/models/job.go, app/modules/mailboxes.go). */
module Dispatcher {
  import opened Options
  import opened JobKeys
  import opened JobTable
  import opened LockTable

  const MAX_WORKERS := 16

  /** Where the goroutine of a started job is: before RunJob reads the row of
      its mailbox, at work with what it read, after FinishJob, after
      releaseLocks, after the decrement of `running`. */
  datatype Phase = Started | Working(used: Reading) | Finished | Released | Counted

  datatype Flight = Flight(job: Job, r: Reading, phase: Phase)

  /** Where the dispatcher is. Walk holds the rest of the listing; the later
      points hold the row at hand and what was read for its keys. */
  datatype Pc =
    | Check
    | Select
    | Walk(rest: seq<Job>)
    | Test(job: Job, r: Reading, rest: seq<Job>)
    | Claim(job: Job, r: Reading, rest: seq<Job>)
    | Acquire(job: Job, r: Reading)
    | Start(job: Job, r: Reading)
    | Park

  /** The transaction that deletes a mailbox, which holds the write lock of the
      database from its first statement. `view` is its uncommitted table. */
  datatype Tx =
    | NoTx
    | Canceling(mb: MailboxId, view: Jobs)
    | Deleting(mb: MailboxId, view: Jobs)

  /** An update of a mailbox between its test and its UPDATE. */
  datatype Edit = Edit(mid: MailboxId, row: Mailbox)

  /** `lost` are the jobs whose row stays running although nobody runs them:
      the claimed row could not be read back, or the finish not be written. */
  datatype State = State(
    jobs: Jobs, nextId: JobId, mailboxes: map<MailboxId, Mailbox>, probeHost: string, tx: Tx,
    edits: set<Edit>, lost: set<JobId>,
    locks: Locks, workers: int, running: int,
    wake: bool,    // the one-slot wake channel
    pending: nat,  // callers between their change and their notify
    pc: Pc, flight: map<JobId, Flight>)

  datatype Step =
    // the dispatcher
    | CheckSlot | SelectQueued(listing: seq<Job>) | ReadKeys(unread: bool) | EndOfListing | TestLocks
    | ClaimJob(readBack: bool) | ClaimFails | AcquireKeys | StartJob | WakeUp | Tick
    // the goroutine of a job
    | ReadRow(id: JobId, unread: bool) | FinishJob(id: JobId, ok: bool) | FinishFails(id: JobId) | ReleaseKeys(id: JobId) | CountDown(id: JobId) | NotifyDone(id: JobId)
    // the callers
    | Insert(kind: Kind, mailbox: Option<MailboxId>, parent: Option<JobId>, at: int, wakes: bool)
    | SetWorkers(n: int) | Notify | CancelQueued(cid: JobId) | Prune(gone: set<JobId>)
    | AddMailbox(mid: MailboxId, row: Mailbox) | BeginEdit(edit: Edit, from: Mailbox) | PutMailbox(edit: Edit) | PutProbeHost(host: string)
    // the deletion of a mailbox
    | CancelJobsOf(dmb: MailboxId) | CheckRunning | CommitDelete | RollBack

  /** resourceKeys of a row, read now. An unread row or setting counts as absent. */
  function ReadingOf(s: State, job: Job, unread: bool): Reading {
    Reading(
      job.kind,
      if unread || job.mailbox.None? || job.mailbox.value !in s.mailboxes then None else Some(s.mailboxes[job.mailbox.value]),
      if unread then "" else s.probeHost)
  }

  function ClampWorkers(n: int): (r: int)
    ensures 1 <= r <= MAX_WORKERS
  {
    if n <= 0 then 2 else if n > MAX_WORKERS then MAX_WORKERS else n
  }

  predicate InPhase(s: State, id: JobId, phase: Phase) {
    id in s.flight && s.flight[id].phase == phase
  }

  predicate AtWork(s: State, id: JobId) {
    id in s.flight && s.flight[id].phase.Working?
  }

  predicate Executing(s: State, id: JobId) {
    id in s.flight && (s.flight[id].phase.Started? || s.flight[id].phase.Working?)
  }

  /** The dispatcher can take the step. */
  ghost predicate DispatcherMay(s: State, step: Step) {
    match step
    case CheckSlot => s.pc.Check?
    case SelectQueued(listing) => s.pc.Select? && IsListing(s.jobs, listing)
    case ReadKeys(_) => s.pc.Walk? && s.pc.rest != []
    case EndOfListing => s.pc.Walk? && s.pc.rest == []
    case TestLocks => s.pc.Test?
    case ClaimJob(_) => s.pc.Claim? && s.tx.NoTx?
    case ClaimFails => s.pc.Select? || s.pc.Claim?
    case AcquireKeys => s.pc.Acquire?
    case StartJob => s.pc.Start?
    case WakeUp => s.pc.Park? && s.wake
    case Tick => s.pc.Park?
    case _ => false
  }

  /** The goroutine of the job can take the step. */
  predicate JobMay(s: State, step: Step) {
    match step
    case ReadRow(id, _) => InPhase(s, id, Started)
    case FinishJob(id, _) => AtWork(s, id) && s.tx.NoTx?
    case FinishFails(id) => AtWork(s, id)
    case ReleaseKeys(id) => InPhase(s, id, Finished)
    case CountDown(id) => InPhase(s, id, Released)
    case NotifyDone(id) => InPhase(s, id, Counted)
    case _ => false
  }

  /** A caller, an edit or the deletion can take the step. */
  predicate CallerMay(s: State, step: Step) {
    match step
    case Insert(kind, mailbox, parent, _, _) =>
      && s.tx.NoTx?
      && (mailbox.Some? ==> mailbox.value in s.mailboxes && !Mailboxless(kind))
      && (parent.Some? ==> parent.value in s.jobs)
    case SetWorkers(_) => true
    case Notify => s.pending > 0
    case CancelQueued(_) => s.tx.NoTx?
    case Prune(gone) => s.tx.NoTx? && forall id :: id in gone && id in s.jobs ==> IsFinal(s.jobs[id].status)
    case AddMailbox(mid, _) => s.tx.NoTx? && mid !in s.mailboxes
    case BeginEdit(edit, from) => from.address != edit.row.address ==> !HasRunningFor(s.jobs, edit.mid)
    case PutMailbox(edit) => s.tx.NoTx? && edit in s.edits
    case PutProbeHost(_) => s.tx.NoTx?
    case CancelJobsOf(_) => s.tx.NoTx?
    case CheckRunning => s.tx.Canceling?
    case CommitDelete => s.tx.Deleting?
    case RollBack => !s.tx.NoTx?
    case _ => false
  }

  ghost predicate Enabled(s: State, step: Step) {
    DispatcherMay(s, step) || JobMay(s, step) || CallerMay(s, step)
  }

  predicate OfDispatcher(step: Step) {
    || step.CheckSlot? || step.SelectQueued? || step.ReadKeys? || step.EndOfListing? || step.TestLocks? || step.ClaimJob?
    || step.ClaimFails? || step.AcquireKeys? || step.StartJob? || step.WakeUp? || step.Tick?
  }

  predicate OfJob(step: Step) {
    step.ReadRow? || step.FinishJob? || step.FinishFails? || step.ReleaseKeys? || step.CountDown? || step.NotifyDone?
  }

  /** A step of the dispatcher. */
  function ByDispatcher(s: State, step: Step): State {
    match step
    case CheckSlot => s.(pc := if s.running < s.workers then Select else Park)
    case SelectQueued(listing) => s.(pc := Walk(listing))
    case ReadKeys(unread) =>
      if s.pc.Walk? && s.pc.rest != [] then
        s.(pc := Test(s.pc.rest[0], ReadingOf(s, s.pc.rest[0], unread), s.pc.rest[1..]))
      else s
    case EndOfListing => s.(pc := Park)
    case TestLocks =>
      if s.pc.Test? then
        s.(pc := if Free(s.locks, KeysOf(s.pc.r)) then Claim(s.pc.job, s.pc.r, s.pc.rest) else Walk(s.pc.rest))
      else s
    case ClaimJob(readBack) =>
      if s.pc.Claim? && IsQueued(s.jobs, s.pc.job.id) then
        s.(jobs := ClaimRow(s.jobs, s.pc.job.id),
           pc := if readBack then Acquire(s.pc.job, s.pc.r) else Park,
           lost := if readBack then s.lost else s.lost + {s.pc.job.id})
      else if s.pc.Claim? then s.(pc := Walk(s.pc.rest))
      else s
    case ClaimFails => s.(pc := Park)
    case AcquireKeys =>
      if s.pc.Acquire? then
        s.(locks := Acquired(s.locks, s.pc.job.id, KeysOf(s.pc.r)), pc := Start(s.pc.job, s.pc.r))
      else s
    case StartJob =>
      if s.pc.Start? then
        s.(running := s.running + 1, flight := s.flight[s.pc.job.id := Flight(s.pc.job, s.pc.r, Started)], pc := Check)
      else s
    case WakeUp => s.(wake := false, pc := Check)
    case Tick => s.(pc := Check)
    case _ => s
  }

  /** A step of the goroutine of a job. */
  function ByJob(s: State, step: Step): State {
    match step
    case ReadRow(id, unread) =>
      if id in s.flight then
        s.(flight := s.flight[id := s.flight[id].(phase := Working(ReadingOf(s, s.flight[id].job, unread)))])
      else s
    case FinishFails(id) =>
      if id in s.flight then s.(lost := s.lost + {id}, flight := s.flight[id := s.flight[id].(phase := Finished)]) else s
    case FinishJob(id, ok) =>
      if id in s.flight then
        s.(jobs := FinishRow(s.jobs, id, ok), flight := s.flight[id := s.flight[id].(phase := Finished)])
      else s
    case ReleaseKeys(id) =>
      if id in s.flight then
        s.(locks := ReleasedBy(s.locks, id), flight := s.flight[id := s.flight[id].(phase := Released)])
      else s
    case CountDown(id) =>
      if id in s.flight then
        s.(running := s.running - 1, flight := s.flight[id := s.flight[id].(phase := Counted)])
      else s
    case NotifyDone(id) => s.(wake := true, flight := s.flight - {id})
    case _ => s
  }

  /** A step of a caller, of an edit or of the deletion. */
  function ByCaller(s: State, step: Step): State {
    match step
    case Insert(kind, mailbox, parent, at, wakes) =>
      s.(jobs := s.jobs[s.nextId := Job(s.nextId, kind, mailbox, parent, at, Queued, mailbox)],
         nextId := s.nextId + 1, pending := if wakes then s.pending + 1 else s.pending)
    case SetWorkers(n) => s.(workers := ClampWorkers(n), pending := s.pending + 1)
    case Notify => if s.pending > 0 then s.(wake := true, pending := s.pending - 1) else s
    case CancelQueued(id) => s.(jobs := CancelRow(s.jobs, id))
    case Prune(gone) => s.(jobs := PruneRows(s.jobs, gone))
    case AddMailbox(mid, row) => s.(mailboxes := s.mailboxes[mid := row])
    case BeginEdit(edit, _) => s.(edits := s.edits + {edit})
    case PutMailbox(edit) =>
      s.(mailboxes := if edit.mid in s.mailboxes then s.mailboxes[edit.mid := edit.row] else s.mailboxes, edits := s.edits - {edit})
    case PutProbeHost(host) => s.(probeHost := host)
    case CancelJobsOf(mb) => s.(tx := Canceling(mb, CancelForMailbox(s.jobs, mb)))
    case CheckRunning =>
      if s.tx.Canceling? then
        s.(tx := if HasRunningFor(s.tx.view, s.tx.mb) then NoTx else Deleting(s.tx.mb, s.tx.view))
      else s
    case CommitDelete =>
      if s.tx.Deleting? then
        s.(jobs := ForgetMailbox(s.tx.view, s.tx.mb), mailboxes := s.mailboxes - {s.tx.mb}, tx := NoTx)
      else s
    case RollBack => s.(tx := NoTx)
    case _ => s
  }

  function Apply(s: State, step: Step): State {
    if OfDispatcher(step) then ByDispatcher(s, step)
    else if OfJob(step) then ByJob(s, step)
    else ByCaller(s, step)
  }

  /** A server start: ResetRunningJobs left no job running. */
  ghost predicate Init(s: State) {
    && (forall id :: id in s.jobs ==>
          var j := s.jobs[id];
          && j.id == id < s.nextId && !j.status.Running?
          && (j.mailbox.Some? ==> j.mailbox.value in s.mailboxes && !Mailboxless(j.kind))
          && (j.parent.Some? ==> j.parent.value < id)
          && (j.status.Queued? ==> j.mailbox == j.origin))
    && s.tx.NoTx? && s.locks == map[] && 1 <= s.workers <= MAX_WORKERS && s.running == 0
    && s.pc.Check? && s.flight == map[] && s.edits == {} && s.lost == {}
  }

  ghost predicate IsRun(states: seq<State>, steps: seq<Step>) {
    && |states| == |steps| + 1
    && Init(states[0])
    && forall i :: 0 <= i < |steps| ==> Enabled(states[i], steps[i]) && states[i + 1] == Apply(states[i], steps[i])
  }

  // --- What every step keeps ---

  /** The job holds its keys now: it was started and has not released them, or
      it is about to be started. */
  predicate Holding(s: State, id: JobId) {
    || Executing(s, id) || InPhase(s, id, Finished)
    || (s.pc.Start? && s.pc.job.id == id)
  }

  /** What was read at the claim of a job that holds its keys. */
  function HeldReading(s: State, id: JobId): Reading
    requires Holding(s, id)
  {
    if s.pc.Start? && s.pc.job.id == id then s.pc.r else s.flight[id].r
  }

  predicate HoldsKey(s: State, id: JobId, k: Key) {
    Holding(s, id) && k in KeysOf(HeldReading(s, id))
  }

  /** `locks` is the union of the key sets of the holders, each key mapped to
      its holder; so the key sets are disjoint. */
  ghost predicate LocksExact(s: State) {
    && (forall k :: k in s.locks ==> HoldsKey(s, s.locks[k], k))
    && (forall id, k :: HoldsKey(s, id, k) ==> k in s.locks && s.locks[k] == id)
  }

  /** Between the test of the keys and their acquisition nobody takes them. */
  ghost predicate TestedFree(s: State) {
    (s.pc.Claim? || s.pc.Acquire?) ==> Free(s.locks, KeysOf(s.pc.r))
  }

  predicate InState(jobs: Jobs, id: JobId, status: Status) {
    id in jobs && jobs[id].status == status
  }

  /** The job is claimed and its keys are about to be entered. */
  predicate BeingStarted(s: State, id: JobId) {
    (s.pc.Acquire? || s.pc.Start?) && s.pc.job.id == id
  }

  /** The row of a job is running exactly while it executes, is about to be
      started, or is lost; never two of them. */
  ghost predicate RunningRows(s: State) {
    && (forall id :: InState(s.jobs, id, Running) <==> Executing(s, id) || BeingStarted(s, id) || id in s.lost)
    && (forall id :: id in s.lost ==> !Executing(s, id) && !BeingStarted(s, id))
    && (forall id :: id in s.flight ==> !IsQueued(s.jobs, id) && id < s.nextId && !BeingStarted(s, id))
  }

  ghost predicate Rows(s: State) {
    forall id :: id in s.jobs ==>
      var j := s.jobs[id];
      && j.id == id < s.nextId
      && (j.mailbox.Some? ==> j.mailbox.value in s.mailboxes && !Mailboxless(j.kind))
      && (j.parent.Some? ==> j.parent.value < id)
      && (j.status.Queued? || j.status.Running? ==> j.mailbox == j.origin)
  }

  /** A listed row that is still queued is as it was listed (its parent may
      have been pruned meanwhile). */
  ghost predicate Fresh(s: State, row: Job) {
    row.id < s.nextId && (IsQueued(s.jobs, row.id) ==> s.jobs[row.id].(parent := row.parent) == row)
  }

  function AtHand(pc: Pc): seq<Job> {
    match pc
    case Walk(rest) => rest
    case Test(job, _, rest) => [job] + rest
    case Claim(job, _, rest) => [job] + rest
    case Acquire(job, _) => []
    case Start(job, _) => []
    case _ => []
  }

  ghost predicate Snapshot(s: State) {
    && (forall i :: 0 <= i < |AtHand(s.pc)| ==> Fresh(s, AtHand(s.pc)[i]))
    && (forall i, j :: 0 <= i < j < |AtHand(s.pc)| ==> Before(AtHand(s.pc)[i], AtHand(s.pc)[j]))
  }

  function InSlot(flight: map<JobId, Flight>): set<JobId> {
    set id | id in flight && !flight[id].phase.Counted?
  }

  /** `running` counts the started jobs that have not counted down. */
  ghost predicate Slots(s: State) {
    && 1 <= s.workers <= MAX_WORKERS
    && s.running == |InSlot(s.flight)|
    && s.running + (if s.pc.Check? || s.pc.Park? then 0 else 1) <= MAX_WORKERS
  }

  ghost predicate TxView(s: State) {
    && (s.tx.Canceling? || s.tx.Deleting? ==> s.tx.view == CancelForMailbox(s.jobs, s.tx.mb))
    && (s.tx.Deleting? ==> !HasRunningFor(s.jobs, s.tx.mb))
  }

  ghost predicate Inv(s: State) {
    LocksExact(s) && TestedFree(s) && RunningRows(s) && Rows(s) && Snapshot(s) && Slots(s) && TxView(s)
  }

  lemma InitInv(s: State)
    requires Init(s)
    ensures Inv(s)
  {
  }

  /** The callers and the deletion touch neither the locks nor the goroutines. */
  lemma CallerFrame(s: State, step: Step)
    requires !OfDispatcher(step) && !OfJob(step)
    ensures var s' := Apply(s, step); s'.locks == s.locks && s'.flight == s.flight && s'.running == s.running && s'.pc == s.pc && s'.lost == s.lost
  {
  }

  /** A job leaves the dispatcher, the mailboxes and the deletion as they are,
      and its row until it finishes. */
  lemma JobFrame(s: State, step: Step)
    requires OfJob(step)
    ensures var s' := Apply(s, step);
      && s'.pc == s.pc && s'.tx == s.tx && s'.mailboxes == s.mailboxes && s'.nextId == s.nextId && s'.workers == s.workers
      && s'.probeHost == s.probeHost && s'.edits == s.edits && s'.pending == s.pending
      && s'.jobs == (if step.FinishJob? && step.id in s.flight then FinishRow(s.jobs, step.id, step.ok) else s.jobs)
      && (forall k :: k in s'.locks ==> k in s.locks)
  {
  }

  /** The dispatcher leaves the mailboxes and the deletion as they are, and
      every row but the one it claims. */
  lemma DispatcherFrame(s: State, step: Step)
    requires OfDispatcher(step)
    ensures var s' := Apply(s, step);
      && s'.tx == s.tx && s'.mailboxes == s.mailboxes && s'.nextId == s.nextId && s'.workers == s.workers
  {
    DispatcherKeepsTx(s, step);
    DispatcherKeepsMailboxes(s, step);
  }

  lemma DispatcherKeepsTx(s: State, step: Step)
    ensures ByDispatcher(s, step).tx == s.tx && ByDispatcher(s, step).nextId == s.nextId
  {
  }

  lemma DispatcherKeepsMailboxes(s: State, step: Step)
    ensures ByDispatcher(s, step).mailboxes == s.mailboxes && ByDispatcher(s, step).workers == s.workers
  {
  }

  lemma DispatcherInputs(s: State, step: Step)
    requires OfDispatcher(step)
    ensures var s' := Apply(s, step); s'.probeHost == s.probeHost && s'.edits == s.edits && s'.pending == s.pending
  {
  }

  lemma DispatcherWrites(s: State, step: Step)
    requires OfDispatcher(step)
    ensures var s' := Apply(s, step);
      && s'.jobs == (if step.ClaimJob? && s.pc.Claim? then ClaimRow(s.jobs, s.pc.job.id) else s.jobs)
      && (!step.StartJob? ==> s'.flight == s.flight && s'.running == s.running)
  {
  }

  lemma StepLocksExact(s: State, step: Step)
    requires LocksExact(s) && TestedFree(s) && RunningRows(s) && Enabled(s, step)
    ensures LocksExact(Apply(s, step))
  {
    if step.AcquireKeys? {
      AcquireLocksExact(s);
    } else if step.ReleaseKeys? {
      ReleaseLocksExact(s, step.id);
    } else {
      HoldersFrame(s, step);
    }
  }

  /** Only the acquisition and the release change who holds what. */
  lemma HoldersFrame(s: State, step: Step)
    requires Enabled(s, step) && !step.AcquireKeys? && !step.ReleaseKeys? && RunningRows(s)
    ensures Apply(s, step).locks == s.locks
    ensures forall id: JobId, k :: HoldsKey(Apply(s, step), id, k) <==> HoldsKey(s, id, k)
  {
    if OfJob(step) {
      JobHolders(s, step);
    } else if OfDispatcher(step) {
      DispatcherHolders(s, step);
    } else {
      CallerFrame(s, step);
      SameHolders(s, Apply(s, step));
    }
  }

  lemma SameHolders(s: State, s': State)
    requires s'.flight == s.flight && (s'.pc == s.pc || (!s'.pc.Start? && !s.pc.Start?))
    ensures forall id: JobId, k :: HoldsKey(s', id, k) <==> HoldsKey(s, id, k)
  {
  }

  lemma JobHolders(s: State, step: Step)
    requires JobMay(s, step) && !step.ReleaseKeys?
    ensures ByJob(s, step).locks == s.locks
    ensures forall id: JobId, k :: HoldsKey(ByJob(s, step), id, k) <==> HoldsKey(s, id, k)
  {
    var s' := ByJob(s, step);
    forall id: JobId
      ensures Holding(s', id) <==> Holding(s, id)
      ensures Holding(s, id) ==> HeldReading(s', id) == HeldReading(s, id)
    {
      assert s'.pc == s.pc;
    }
  }

  lemma DispatcherHolders(s: State, step: Step)
    requires DispatcherMay(s, step) && !step.AcquireKeys? && RunningRows(s)
    ensures ByDispatcher(s, step).locks == s.locks
    ensures forall id: JobId, k :: HoldsKey(ByDispatcher(s, step), id, k) <==> HoldsKey(s, id, k)
  {
    if step.StartJob? {
      StartHolders(s);
    } else {
      SameHolders(s, ByDispatcher(s, step));
    }
  }

  lemma StartHolders(s: State)
    requires s.pc.Start? && RunningRows(s)
    ensures forall id: JobId, k :: HoldsKey(ByDispatcher(s, StartJob), id, k) <==> HoldsKey(s, id, k)
  {
  }

  lemma AcquireLocksExact(s: State)
    requires LocksExact(s) && TestedFree(s) && RunningRows(s) && s.pc.Acquire?
    ensures LocksExact(Apply(s, AcquireKeys))
  {
    var s' := ByDispatcher(s, AcquireKeys);
    assert forall id: JobId, k :: HoldsKey(s', id, k) <==> HoldsKey(s, id, k) || (id == s.pc.job.id && k in KeysOf(s.pc.r));
  }

  lemma ReleaseLocksExact(s: State, id: JobId)
    requires LocksExact(s) && RunningRows(s) && InPhase(s, id, Finished)
    ensures LocksExact(Apply(s, ReleaseKeys(id)))
  {
    var s' := ByJob(s, ReleaseKeys(id));
    assert forall other: JobId, k :: HoldsKey(s', other, k) <==> HoldsKey(s, other, k) && other != id;
  }

  lemma StepRunningRows(s: State, step: Step)
    requires RunningRows(s) && Rows(s) && TxView(s) && Snapshot(s) && Enabled(s, step)
    ensures RunningRows(Apply(s, step))
  {
    if OfJob(step) {
      JobRunningRows(s, step);
    } else if step.ClaimJob? {
      ClaimRunningRows(s, step);
    } else if step.StartJob? {
      StartRunningRows(s);
    } else if OfDispatcher(step) {
      DispatcherRunningRows(s, step);
    } else {
      CallerRunningRows(s, step);
    }
  }

  lemma JobRunningRows(s: State, step: Step)
    requires RunningRows(s) && JobMay(s, step)
    ensures RunningRows(ByJob(s, step))
  {
    forall id: JobId
      ensures RunningRow(ByJob(s, step), id)
    {
      JobRunningRow(s, step, id);
    }
    EachRunningRow(ByJob(s, step));
  }

  lemma EachRunningRow(s: State)
    requires forall id: JobId :: RunningRow(s, id)
    ensures RunningRows(s)
  {
    forall id: JobId
      ensures InState(s.jobs, id, Running) <==> Executing(s, id) || BeingStarted(s, id) || id in s.lost
      ensures id in s.lost ==> !Executing(s, id) && !BeingStarted(s, id)
      ensures id in s.flight ==> !IsQueued(s.jobs, id) && id < s.nextId && !BeingStarted(s, id)
    {
      assert RunningRow(s, id);
    }
  }

  /** What RunningRows says of one job. */
  predicate RunningRow(s: State, id: JobId) {
    && (InState(s.jobs, id, Running) <==> Executing(s, id) || BeingStarted(s, id) || id in s.lost)
    && (id in s.lost ==> !Executing(s, id) && !BeingStarted(s, id))
    && (id in s.flight ==> !IsQueued(s.jobs, id) && id < s.nextId && !BeingStarted(s, id))
  }

  lemma JobRunningRow(s: State, step: Step, id: JobId)
    requires RunningRows(s) && JobMay(s, step)
    ensures RunningRow(ByJob(s, step), id)
  {
    assert RunningRow(s, id) && RunningRow(s, step.id);
  }

  lemma ClaimRunningRows(s: State, step: Step)
    requires RunningRows(s) && Snapshot(s) && step.ClaimJob? && DispatcherMay(s, step)
    ensures RunningRows(ByDispatcher(s, step))
  {
    assert Fresh(s, AtHand(s.pc)[0]);
  }

  lemma StartRunningRows(s: State)
    requires RunningRows(s) && Rows(s) && s.pc.Start?
    ensures RunningRows(ByDispatcher(s, StartJob))
  {
    assert InState(s.jobs, s.pc.job.id, Running);
  }

  lemma DispatcherRunningRows(s: State, step: Step)
    requires RunningRows(s) && !step.ClaimJob? && !step.StartJob? && DispatcherMay(s, step)
    ensures RunningRows(ByDispatcher(s, step))
  {
    var s' := ByDispatcher(s, step);
    assert s'.jobs == s.jobs && s'.lost == s.lost && s'.flight == s.flight && s'.nextId == s.nextId;
    assert forall id: JobId :: BeingStarted(s', id) <==> BeingStarted(s, id);
  }

  lemma CallerRunningRows(s: State, step: Step)
    requires RunningRows(s) && Rows(s) && TxView(s) && CallerMay(s, step) && !OfDispatcher(step) && !OfJob(step)
    ensures RunningRows(Apply(s, step))
  {
    CallerFrame(s, step);
    CallerRunning(s, step);
  }

  /** The callers and the deletion start and end no running job and queue only
      new ones. */
  lemma CallerRunning(s: State, step: Step)
    requires Rows(s) && TxView(s) && CallerMay(s, step)
    ensures var s' := ByCaller(s, step);
      && (forall id: JobId :: InState(s'.jobs, id, Running) <==> InState(s.jobs, id, Running))
      && (forall id: JobId :: id < s.nextId && IsQueued(s'.jobs, id) ==> IsQueued(s.jobs, id))
      && s.nextId <= s'.nextId
  {
  }

  lemma StepSnapshot(s: State, step: Step)
    requires Rows(s) && TxView(s) && Snapshot(s) && Enabled(s, step)
    ensures Snapshot(Apply(s, step))
  {
    if step.SelectQueued? {
      SelectSnapshot(s, step);
    } else {
      StepFresh(s, step);
      StepHand(s, step);
    }
  }

  lemma SelectSnapshot(s: State, step: Step)
    requires Rows(s) && DispatcherMay(s, step) && step.SelectQueued?
    ensures Snapshot(ByDispatcher(s, step))
  {
  }

  /** The dispatcher goes through the listing from its head. */
  lemma StepHand(s: State, step: Step)
    requires Enabled(s, step) && !step.SelectQueued?
    ensures var h, h' := AtHand(s.pc), AtHand(Apply(s, step).pc); h' == [] || h' == h || (h != [] && h' == h[1..])
  {
    if OfJob(step) {
      JobFrame(s, step);
    } else if OfDispatcher(step) {
      DispatcherHand(s, step);
    } else {
      CallerFrame(s, step);
    }
  }

  lemma DispatcherHand(s: State, step: Step)
    requires DispatcherMay(s, step) && !step.SelectQueued?
    ensures var h, h' := AtHand(s.pc), AtHand(ByDispatcher(s, step).pc); h' == [] || h' == h || (h != [] && h' == h[1..])
  {
  }

  /** A row that is queued after a step was queued before it, unchanged. */
  lemma StepFresh(s: State, step: Step)
    requires Rows(s) && TxView(s) && Enabled(s, step)
    ensures forall row :: Fresh(s, row) ==> Fresh(Apply(s, step), row)
  {
    forall row | Fresh(s, row)
      ensures Fresh(Apply(s, step), row)
    {
      if OfJob(step) {
        JobFrame(s, step);
      } else if OfDispatcher(step) {
        DispatcherFrame(s, step);
        DispatcherWrites(s, step);
      } else {
        CallerFresh(s, step, row);
      }
    }
  }

  lemma CallerFresh(s: State, step: Step, row: Job)
    requires Rows(s) && TxView(s) && CallerMay(s, step) && Fresh(s, row)
    ensures Fresh(ByCaller(s, step), row)
  {
  }

  lemma StepSlots(s: State, step: Step)
    requires Slots(s) && RunningRows(s) && Enabled(s, step)
    ensures Slots(Apply(s, step))
  {
    if OfJob(step) {
      JobSlots(s, step);
    } else if OfDispatcher(step) {
      DispatcherSlots(s, step);
    } else {
      CallerFrame(s, step);
      CallerWorkers(s, step);
    }
  }

  lemma CallerWorkers(s: State, step: Step)
    requires 1 <= s.workers <= MAX_WORKERS
    ensures 1 <= ByCaller(s, step).workers <= MAX_WORKERS
  {
  }

  lemma DispatcherSlots(s: State, step: Step)
    requires Slots(s) && RunningRows(s) && DispatcherMay(s, step)
    ensures Slots(ByDispatcher(s, step))
  {
    var s' := ByDispatcher(s, step);
    if step.StartJob? {
      assert InSlot(s'.flight) == InSlot(s.flight) + {s.pc.job.id};
    } else {
      assert s'.flight == s.flight && s'.running == s.running;
    }
  }

  lemma JobSlots(s: State, step: Step)
    requires Slots(s) && JobMay(s, step)
    ensures Slots(ByJob(s, step))
  {
    var s' := ByJob(s, step);
    JobFrame(s, step);
    if step.CountDown? {
      assert InSlot(s'.flight) == InSlot(s.flight) - {step.id};
    } else {
      JobKeepsSlot(s, step);
    }
  }

  lemma JobKeepsSlot(s: State, step: Step)
    requires JobMay(s, step) && !step.CountDown?
    ensures ByJob(s, step).running == s.running && InSlot(ByJob(s, step).flight) == InSlot(s.flight)
  {
  }

  /** Nothing goes back to the queue. */
  lemma QueuedBefore(s: State, step: Step, id: JobId)
    requires TxView(s) && Enabled(s, step)
    requires id < s.nextId && IsQueued(Apply(s, step).jobs, id)
    ensures IsQueued(s.jobs, id)
  {
    if OfJob(step) {
      JobFrame(s, step);
    } else if OfDispatcher(step) {
      DispatcherFrame(s, step);
      DispatcherWrites(s, step);
    } else {
      CallerQueued(s, step, id);
    }
  }

  lemma CallerQueued(s: State, step: Step, id: JobId)
    requires TxView(s) && CallerMay(s, step)
    requires id < s.nextId && IsQueued(ByCaller(s, step).jobs, id)
    ensures IsQueued(s.jobs, id)
  {
  }

  /** What is at hand between the reading and the claim was so before, and
      the row is queued only if it was. */
  lemma HandKept(s: State, step: Step)
    requires Rows(s) && TxView(s) && Snapshot(s) && Enabled(s, step) && !step.ReadKeys?
    requires Apply(s, step).pc.Test? || Apply(s, step).pc.Claim?
    ensures s.pc.Test? || s.pc.Claim?
    ensures var s' := Apply(s, step);
      s'.pc.job == s.pc.job && s'.pc.r == s.pc.r && (IsQueued(s'.jobs, s.pc.job.id) ==> IsQueued(s.jobs, s.pc.job.id))
  {
    if OfJob(step) {
      JobFrame(s, step);
    } else if OfDispatcher(step) {
      DispatcherKeepsHand(s, step);
    } else {
      CallerFrame(s, step);
    }
    assert Fresh(s, AtHand(s.pc)[0]);
    if IsQueued(Apply(s, step).jobs, s.pc.job.id) {
      QueuedBefore(s, step, s.pc.job.id);
    }
  }

  lemma DispatcherKeepsHand(s: State, step: Step)
    requires DispatcherMay(s, step) && !step.ReadKeys?
    requires ByDispatcher(s, step).pc.Test? || ByDispatcher(s, step).pc.Claim?
    ensures step.TestLocks? && s.pc.Test? && ByDispatcher(s, step).pc.job == s.pc.job && ByDispatcher(s, step).pc.r == s.pc.r
  {
  }

  lemma StepTxView(s: State, step: Step)
    requires TxView(s) && Enabled(s, step)
    ensures TxView(Apply(s, step))
  {
    if OfJob(step) {
      JobFrame(s, step);
    } else if OfDispatcher(step) {
      DispatcherFrame(s, step);
      DispatcherWrites(s, step);
    } else {
      CallerTxView(s, step);
    }
  }

  lemma CallerTxView(s: State, step: Step)
    requires TxView(s) && CallerMay(s, step)
    ensures TxView(ByCaller(s, step))
  {
    if step.CheckRunning? {
      assert forall id :: id in s.jobs && InState(s.jobs, id, Running) ==> s.tx.view[id] == s.jobs[id];
    }
  }

  lemma StepTestedFree(s: State, step: Step)
    requires TestedFree(s) && Enabled(s, step)
    ensures TestedFree(Apply(s, step))
  {
    if OfJob(step) {
      JobFrame(s, step);
    } else if OfDispatcher(step) {
      DispatcherTested(s, step);
    } else {
      CallerFrame(s, step);
    }
  }

  lemma DispatcherTested(s: State, step: Step)
    requires TestedFree(s) && DispatcherMay(s, step)
    ensures TestedFree(ByDispatcher(s, step))
  {
  }

  lemma StepRows(s: State, step: Step)
    requires Rows(s) && TxView(s) && Enabled(s, step)
    ensures Rows(Apply(s, step))
  {
    if OfJob(step) {
      JobFrame(s, step);
    } else if OfDispatcher(step) {
      DispatcherFrame(s, step);
      DispatcherWrites(s, step);
    } else if step.CommitDelete? {
      CommitRows(s);
    } else {
      CallerRows(s, step);
    }
  }

  lemma CommitRows(s: State)
    requires Rows(s) && TxView(s) && s.tx.Deleting?
    ensures Rows(Apply(s, CommitDelete))
  {
  }

  lemma CallerRows(s: State, step: Step)
    requires Rows(s) && CallerMay(s, step) && !step.CommitDelete?
    ensures Rows(ByCaller(s, step))
  {
  }

  lemma StepInv(s: State, step: Step)
    requires Inv(s) && Enabled(s, step)
    ensures Inv(Apply(s, step))
  {
    StepLocksExact(s, step);
    StepRunningRows(s, step);
    StepSnapshot(s, step);
    StepSlots(s, step);
    StepTxView(s, step);
    StepTestedFree(s, step);
    StepRows(s, step);
  }

  lemma {:induction false} ReachableInv(states: seq<State>, steps: seq<Step>, i: nat)
    requires IsRun(states, steps) && i <= |steps|
    ensures Inv(states[i])
  {
    if i == 0 {
      InitInv(states[0]);
    } else {
      ReachableInv(states, steps, i - 1);
      StepInv(states[i - 1], steps[i - 1]);
    }
  }
}
