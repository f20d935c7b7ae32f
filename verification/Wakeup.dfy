/** No lost wakeup: a parked dispatcher that nothing is about to wake has
    nothing to start. */
module Wakeup {
  import opened Options
  import opened JobKeys
  import opened JobTable
  import opened LockTable
  import opened Dispatcher
  import Exclusion

  /** The wake channel is full, or somebody will still fill it: a caller that
      made its change, or a job that released its keys. */
  ghost predicate Pending(s: State) {
    || s.wake
    || s.pending > 0
    || exists id :: id in s.flight && (s.flight[id].phase.Released? || s.flight[id].phase.Counted?)
  }

  /** A key of the job, read now, is held. */
  ghost predicate Blocked(s: State, job: Job) {
    exists k :: k in KeysOf(ReadingOf(s, job, false)) && k in s.locks
  }

  ghost predicate OthersBlocked(s: State, hand: seq<Job>) {
    forall id :: IsQueued(s.jobs, id) && !Listed(hand, id) ==> Blocked(s, s.jobs[id])
  }

  ghost predicate Settled(s: State) {
    Pending(s) ||
    match s.pc
    case Park => s.running >= s.workers || OthersBlocked(s, [])
    case Walk(_) => OthersBlocked(s, AtHand(s.pc))
    case Test(_, _, _) => OthersBlocked(s, AtHand(s.pc))
    case Claim(_, _, _) => OthersBlocked(s, AtHand(s.pc))
    case _ => true
  }

  /** The keys at hand are keys the job still has. */
  ghost predicate ReadingCurrent(s: State) {
    (s.pc.Test? || s.pc.Claim?) && IsQueued(s.jobs, s.pc.job.id) ==>
      forall k :: k in KeysOf(s.pc.r) ==> k in KeysOf(ReadingOf(s, s.jobs[s.pc.job.id], false))
  }

  /** The steps of the theorem: no claim fails, every insert goes through the
      manager (it wakes), and no edit changes what the keys are read from
      (mailboxes may be added and deleted, finishes and reads may fail). */
  predicate Calm(s: State, step: Step) {
    && !step.ClaimFails? && (step.ClaimJob? ==> step.readBack)
    && (step.PutProbeHost? ==> step.host == s.probeHost)
    && (step.PutMailbox? && step.edit.mid in s.mailboxes ==> s.mailboxes[step.edit.mid] == step.edit.row)
    && (step.Insert? ==> step.wakes)
  }

  /** The keys of a job that stays queued stay the same. */
  lemma CalmReading(s: State, step: Step, id: JobId)
    requires Rows(s) && TxView(s) && Enabled(s, step) && Calm(s, step)
    requires id < s.nextId && IsQueued(Apply(s, step).jobs, id)
    ensures IsQueued(s.jobs, id)
    ensures ReadingOf(Apply(s, step), Apply(s, step).jobs[id], false) == ReadingOf(s, s.jobs[id], false)
  {
    QueuedBefore(s, step, id);
    var job, job' := s.jobs[id], Apply(s, step).jobs[id];
    assert job'.mailbox == job.mailbox && job'.kind == job.kind by {
      StepFresh(s, step);
      assert Fresh(s, job) && Fresh(Apply(s, step), job);
    }
    if job.mailbox.Some? {
      CalmMailbox(s, step, job.mailbox.value);
      assert step.CommitDelete? ==> s.tx.view[id].mailbox != Some(s.tx.mb);
    }
    CalmProbeHost(s, step);
  }

  lemma CalmProbeHost(s: State, step: Step)
    requires Calm(s, step)
    ensures Apply(s, step).probeHost == s.probeHost
  {
  }

  lemma CalmMailbox(s: State, step: Step, mb: MailboxId)
    requires Enabled(s, step) && Calm(s, step) && mb in s.mailboxes
    ensures (step.CommitDelete? && s.tx.mb == mb) || (mb in Apply(s, step).mailboxes && Apply(s, step).mailboxes[mb] == s.mailboxes[mb])
  {
  }

  lemma StepReadingCurrent(s: State, step: Step)
    requires Inv(s) && Enabled(s, step) && Calm(s, step) && ReadingCurrent(s)
    ensures ReadingCurrent(Apply(s, step))
  {
    var s' := Apply(s, step);
    if (s'.pc.Test? || s'.pc.Claim?) && IsQueued(s'.jobs, s'.pc.job.id) {
      if step.ReadKeys? {
        ReadCurrent(s, step);
      } else {
        HandKept(s, step);
        assert Fresh(s, AtHand(s.pc)[0]);
        CalmReading(s, step, s.pc.job.id);
      }
    }
  }

  lemma ReadCurrent(s: State, step: Step)
    requires Snapshot(s) && DispatcherMay(s, step) && step.ReadKeys?
    ensures ReadingCurrent(ByDispatcher(s, step))
  {
    var job := s.pc.rest[0];
    assert Fresh(s, AtHand(s.pc)[0]);
    if IsQueued(s.jobs, job.id) {
      assert ReadingOf(s, job, false) == ReadingOf(s, s.jobs[job.id], false);
      UnreadKeysAreFewer(s, job);
    }
  }

  lemma UnreadKeysAreFewer(s: State, job: Job)
    ensures forall k :: k in KeysOf(ReadingOf(s, job, true)) ==> k in KeysOf(ReadingOf(s, job, false))
  {
  }

  /** Nobody but a job that releases its keys frees a key. */
  lemma LocksGrow(s: State, step: Step)
    requires Enabled(s, step) && !step.ReleaseKeys?
    ensures forall k :: k in s.locks ==> k in Apply(s, step).locks
  {
    if OfJob(step) {
    } else if OfDispatcher(step) {
      DispatcherLocksGrow(s, step);
    } else {
      CallerFrame(s, step);
    }
  }

  lemma DispatcherLocksGrow(s: State, step: Step)
    ensures forall k :: k in s.locks ==> k in ByDispatcher(s, step).locks
  {
  }

  /** A wakeup stays pending until the dispatcher takes it. */
  lemma PendingStays(s: State, step: Step)
    requires RunningRows(s) && Enabled(s, step) && Pending(s) && !step.WakeUp?
    ensures Pending(Apply(s, step))
  {
    if OfJob(step) {
      JobPending(s, step);
    } else if OfDispatcher(step) {
      DispatcherPending(s, step);
    } else {
      CallerPending(s, step);
    }
  }

  lemma JobPending(s: State, step: Step)
    requires JobMay(s, step) && Pending(s)
    ensures Pending(ByJob(s, step))
  {
    var s' := ByJob(s, step);
    if !s'.wake && s'.pending == 0 {
      var id :| id in s.flight && (s.flight[id].phase.Released? || s.flight[id].phase.Counted?);
      assert id in s'.flight;
    }
  }

  lemma DispatcherPending(s: State, step: Step)
    requires RunningRows(s) && DispatcherMay(s, step) && Pending(s) && !step.WakeUp?
    ensures Pending(ByDispatcher(s, step))
  {
    DispatcherInputs(s, step);
    var s' := ByDispatcher(s, step);
    assert s'.wake == s.wake;
    if !s'.wake && s'.pending == 0 {
      var id :| id in s.flight && (s.flight[id].phase.Released? || s.flight[id].phase.Counted?);
      assert id in s'.flight && s'.flight[id] == s.flight[id];
    }
  }

  lemma CallerPending(s: State, step: Step)
    requires !OfDispatcher(step) && !OfJob(step) && CallerMay(s, step) && Pending(s)
    ensures Pending(ByCaller(s, step))
  {
    CallerFrame(s, step);
    var s' := ByCaller(s, step);
    if !s'.wake && s'.pending == 0 {
      var id :| id in s.flight && (s.flight[id].phase.Released? || s.flight[id].phase.Counted?);
      assert id in s'.flight;
    }
  }

  /** Only an insert takes an id. */
  lemma IdsKept(s: State, step: Step)
    requires !step.Insert?
    ensures Apply(s, step).nextId == s.nextId
  {
    if OfJob(step) {
      JobFrame(s, step);
    } else if OfDispatcher(step) {
      DispatcherFrame(s, step);
    }
  }

  lemma OthersStayBlocked(s: State, step: Step, hand: seq<Job>)
    requires Inv(s) && Enabled(s, step) && Calm(s, step) && !step.ReleaseKeys? && !step.Insert?
    requires OthersBlocked(s, hand)
    ensures OthersBlocked(Apply(s, step), hand)
  {
    var s' := Apply(s, step);
    LocksGrow(s, step);
    forall id | IsQueued(s'.jobs, id) && !Listed(hand, id)
      ensures Blocked(s', s'.jobs[id])
    {
      IdsKept(s, step);
      StepRows(s, step);
      CalmReading(s, step, id);
    }
  }

  lemma StepSettled(s: State, step: Step)
    requires Inv(s) && Enabled(s, step) && Calm(s, step) && ReadingCurrent(s) && Settled(s)
    ensures Settled(Apply(s, step))
  {
    if step.WakeUp? {
    } else if Pending(s) {
      PendingStays(s, step);
    } else if OfDispatcher(step) {
      DispatcherSettled(s, step);
    } else if OfJob(step) {
      JobSettled(s, step);
    } else {
      CallerSettled(s, step);
    }
  }

  lemma JobSettled(s: State, step: Step)
    requires Inv(s) && JobMay(s, step) && Settled(s) && !Pending(s)
    ensures Settled(ByJob(s, step))
  {
    var s' := ByJob(s, step);
    if step.ReleaseKeys? {
      assert step.id in s'.flight && s'.flight[step.id].phase.Released?;
    } else if step.CountDown? || step.NotifyDone? {
      // not enabled: the keys of every job are held
      assert false;
    } else {
      assert s'.pc == s.pc && s'.running == s.running && s'.workers == s.workers;
      if OthersBlocked(s, AtHand(s.pc)) {
        OthersStayBlocked(s, step, AtHand(s.pc));
      }
    }
  }

  lemma CallerSettled(s: State, step: Step)
    requires Inv(s) && CallerMay(s, step) && !OfDispatcher(step) && !OfJob(step) && Calm(s, step) && Settled(s) && !Pending(s)
    ensures Settled(ByCaller(s, step))
  {
    var s' := ByCaller(s, step);
    CallerFrame(s, step);
    if step.Insert? || step.SetWorkers? {
      assert s'.pending > 0;
    } else if step.Notify? {
      // not enabled: no caller is about to wake the dispatcher
      assert false;
    } else {
      assert s'.workers == s.workers;
      if OthersBlocked(s, AtHand(s.pc)) {
        OthersStayBlocked(s, step, AtHand(s.pc));
      }
    }
  }

  lemma DispatcherSettled(s: State, step: Step)
    requires Inv(s) && Calm(s, step) && ReadingCurrent(s) && Settled(s) && !Pending(s)
    requires DispatcherMay(s, step) && !step.WakeUp?
    ensures Settled(ByDispatcher(s, step))
  {
    match step {
      case SelectQueued(listing) =>
      case ReadKeys(unread) =>
        OthersStayBlocked(s, step, AtHand(s.pc));
        assert AtHand(ByDispatcher(s, step).pc) == AtHand(s.pc);
      case EndOfListing =>
        OthersStayBlocked(s, step, []);
      case TestLocks =>
        HeadPassed(s, step);
      case ClaimJob(_) =>
        HeadPassed(s, step);
      case CheckSlot | AcquireKeys | StartJob | Tick =>
    }
  }

  /** The row at hand is passed over only when its keys are held or it is no
      longer queued. */
  lemma HeadPassed(s: State, step: Step)
    requires Inv(s) && Calm(s, step) && ReadingCurrent(s) && OthersBlocked(s, AtHand(s.pc))
    requires DispatcherMay(s, step) && (step.TestLocks? || step.ClaimJob?)
    ensures var s' := ByDispatcher(s, step); s'.pc.Acquire? || OthersBlocked(s', AtHand(s'.pc))
  {
    var s' := ByDispatcher(s, step);
    OthersStayBlocked(s, step, AtHand(s.pc));
    if s'.pc.Walk? {
      assert forall id :: Listed(AtHand(s.pc), id) ==> id == s.pc.job.id || Listed(s'.pc.rest, id);
    }
  }

  /** The dispatcher checked at step j, and every step since was calm. */
  ghost predicate CalmSinceCheck(states: seq<State>, steps: seq<Step>, j: nat, i: nat) {
    && IsRun(states, steps) && j <= i <= |steps|
    && states[j].pc.Check?
    && (forall n :: j <= n < i ==> Calm(states[n], steps[n]))
  }

  ghost predicate Steady(s: State) {
    Settled(s) && ReadingCurrent(s)
  }

  lemma StepSteady(s: State, step: Step)
    requires Inv(s) && Enabled(s, step) && Calm(s, step) && Steady(s)
    ensures Steady(Apply(s, step))
  {
    StepReadingCurrent(s, step);
    StepSettled(s, step);
  }

  lemma CheckIsSteady(s: State)
    requires s.pc.Check?
    ensures Steady(s)
  {
  }

  lemma ReachableSteady(states: seq<State>, steps: seq<Step>, j: nat, i: nat)
    requires CalmSinceCheck(states, steps, j, i)
    ensures Steady(states[i])
  {
    CheckIsSteady(states[j]);
    forall n: nat | j <= n < i && Steady(states[n])
      ensures Steady(states[n + 1])
    {
      ReachableInv(states, steps, n);
      StepSteady(states[n], steps[n]);
    }
    SteadyChain(states, j, i);
  }

  lemma {:induction false} SteadyChain(states: seq<State>, j: nat, i: nat)
    requires j <= i < |states| && Steady(states[j])
    requires forall n: nat :: j <= n < i && Steady(states[n]) ==> Steady(states[n + 1])
    ensures Steady(states[i])
    decreases i
  {
    if j < i {
      SteadyChain(states, j, i - 1);
      assert Steady(states[i - 1 + 1]);
    }
  }

  predicate InFlight(s: State, id: JobId) {
    id in s.flight && !s.flight[id].phase.Released? && !s.flight[id].phase.Counted?
  }

  /** A key of the job, read now, is held by a job in flight. */
  ghost predicate Waits(s: State, job: Job) {
    exists k :: k in KeysOf(ReadingOf(s, job, false)) && k in s.locks && InFlight(s, s.locks[k])
  }

  lemma ParkedBlockedWaits(s: State, job: Job)
    requires LocksExact(s) && s.pc.Park? && Blocked(s, job)
    ensures Waits(s, job)
  {
    var k :| k in KeysOf(ReadingOf(s, job, false)) && k in s.locks;
    assert HoldsKey(s, s.locks[k], k);
  }

  /** Whatever happened before the last check: when the dispatcher is parked,
      no wakeup is pending and the steps since that check were calm, every slot
      is taken or every queued job has a key held by a job in flight. */
  lemma NoLostWakeup(states: seq<State>, steps: seq<Step>, j: nat, i: nat)
    requires CalmSinceCheck(states, steps, j, i)
    requires states[i].pc.Park? && !Pending(states[i])
    ensures states[i].running >= states[i].workers || forall id :: IsQueued(states[i].jobs, id) ==> Waits(states[i], states[i].jobs[id])
  {
    ReachableSteady(states, steps, j, i);
    ReachableInv(states, steps, i);
    var s := states[i];
    if s.running < s.workers {
      forall id | IsQueued(s.jobs, id)
        ensures Waits(s, s.jobs[id])
      {
        ParkedBlockedWaits(s, s.jobs[id]);
      }
    }
  }

  /** So a queued job that could run beside a parked dispatcher names its cause:
      since any earlier check a claim failed or was not read back, an insert
      did not wake, or an edit changed what keys are read from. */
  lemma StallHasACause(states: seq<State>, steps: seq<Step>, j: nat, i: nat, id: JobId) returns (n: nat)
    requires IsRun(states, steps) && j <= i <= |steps| && states[j].pc.Check?
    requires Stalled(states[i], id)
    ensures j <= n < i && !Calm(states[n], steps[n])
  {
    if forall n :: j <= n < i ==> Calm(states[n], steps[n]) {
      NoLostWakeup(states, steps, j, i);
      assert false;
    }
    n :| j <= n < i && !Calm(states[n], steps[n]);
  }

  /** The job could be started, the dispatcher is parked and nobody is about to
      wake it: the poll tick will. */
  ghost predicate Stalled(s: State, id: JobId) {
    && s.pc.Park? && !Pending(s) && s.running < s.workers
    && IsQueued(s.jobs, id) && !Blocked(s, s.jobs[id])
  }

  /** Each such step can be the cause, from any state. A claim that fails: */
  lemma FailedClaimStalls(s: State)
    requires TestedFree(s) && s.pc.Claim? && !Pending(s) && s.running < s.workers
    requires IsQueued(s.jobs, s.pc.job.id) && s.pc.r == ReadingOf(s, s.jobs[s.pc.job.id], false)
    ensures Enabled(s, ClaimFails) && Stalled(Apply(s, ClaimFails), s.pc.job.id)
  {
    var s', job := ByDispatcher(s, ClaimFails), s.jobs[s.pc.job.id];
    assert s'.flight == s.flight && ReadingOf(s', job, false) == s.pc.r;
  }

  /** a claimed row that is not read back, for any other job that could run: */
  lemma LostClaimStalls(s: State, id: JobId)
    requires s.pc.Claim? && s.tx.NoTx? && !Pending(s) && s.running < s.workers
    requires IsQueued(s.jobs, s.pc.job.id) && id != s.pc.job.id && IsQueued(s.jobs, id) && !Blocked(s, s.jobs[id])
    ensures Enabled(s, ClaimJob(false)) && Stalled(Apply(s, ClaimJob(false)), id)
  {
    var s', job := ByDispatcher(s, ClaimJob(false)), s.jobs[id];
    assert s'.flight == s.flight && s'.jobs[id] == job && ReadingOf(s', job, false) == ReadingOf(s, job, false);
  }

  /** an insert that does not wake: */
  lemma SilentInsertStalls(s: State, step: Step)
    requires s.pc.Park? && !Pending(s) && s.running < s.workers
    requires step.Insert? && !step.wakes && CallerMay(s, step)
    requires !Blocked(s, Apply(s, step).jobs[s.nextId])
    ensures Stalled(Apply(s, step), s.nextId)
  {
    var s' := ByCaller(s, step);
    assert s'.flight == s.flight && ReadingOf(s', s'.jobs[s.nextId], false) == ReadingOf(s, s'.jobs[s.nextId], false);
  }

  /** an edit that frees a job from the keys it waited for. */
  lemma EditStalls(s: State, step: Step, id: JobId)
    requires s.pc.Park? && !Pending(s) && s.running < s.workers && IsQueued(s.jobs, id)
    requires (step.PutMailbox? || step.PutProbeHost?) && Enabled(s, step)
    requires !Blocked(Apply(s, step), s.jobs[id])
    ensures Stalled(Apply(s, step), id)
  {
    assert ByCaller(s, step).flight == s.flight;
  }

  /** A run from a server start to a stalled job. */
  lemma FailedClaimRun() returns (states: seq<State>, steps: seq<Step>)
    ensures IsRun(states, steps) && Stalled(states[|steps|], 0)
  {
    var row := Mailbox("a", "h", true, 0);
    states, steps := Exclusion.FirstAtHand(Group, 1, 1, map[1 := row], Edit(1, row));
    states, steps := Exclusion.Extend(states, steps, TestLocks);
    FailedClaimStalls(states[|steps|]);
    states, steps := Exclusion.Extend(states, steps, ClaimFails);
  }

  /** The queue never stalls: when nothing runs and nothing will wake the
      parked dispatcher, no job is queued. */
  lemma IdleMeansEmptyQueue(states: seq<State>, steps: seq<Step>, j: nat, i: nat, id: JobId)
    requires CalmSinceCheck(states, steps, j, i)
    requires states[i].pc.Park? && !Pending(states[i]) && states[i].flight == map[]
    ensures !IsQueued(states[i].jobs, id)
  {
    ReachableInv(states, steps, i);
    assert InSlot(states[i].flight) == {};
    NoLostWakeup(states, steps, j, i);
  }

  /** Oldest first: with no wakeup pending and calm steps since the last check,
      a job is claimed only while every older queued job waits for a held key. */
  lemma OldestRunnableFirst(states: seq<State>, steps: seq<Step>, j: nat, i: nat, id: JobId)
    requires CalmSinceCheck(states, steps, j, i) && i < |steps|
    requires steps[i].ClaimJob? && !Pending(states[i])
    requires IsQueued(states[i].jobs, id)
    requires var older, job := states[i].jobs[id], states[i].pc.job;
      older.createdAt < job.createdAt || (older.createdAt == job.createdAt && older.id < job.id)
    ensures Blocked(states[i], states[i].jobs[id])
  {
    ReachableSteady(states, steps, j, i);
    ReachableInv(states, steps, i);
    OlderNotAtHand(states[i], id);
  }

  lemma OlderNotAtHand(s: State, id: JobId)
    requires Snapshot(s) && s.pc.Claim? && IsQueued(s.jobs, id) && Before(s.jobs[id], s.pc.job)
    ensures !Listed(AtHand(s.pc), id)
  {
    var hand := AtHand(s.pc);
    forall n | 0 <= n < |hand|
      ensures hand[n].id != id
    {
      assert Fresh(s, hand[n]);
      assert n == 0 || Before(hand[0], hand[n]);
    }
  }
}
