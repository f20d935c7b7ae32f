/** What the steps of the job manager change besides the rows of the jobs: the
    goroutines, the deletion, the rows the keys are read from, the lost jobs
    and the signals to the dispatcher. */
module StepEffects {
  import opened Options
  import opened JobKeys
  import opened JobTable
  import opened Dispatcher
  import opened WorkerSlots

  // --- The goroutines ---

  /** The phase of a goroutine after a step. */
  ghost function PhaseAfter(s: State, step: Step, f: Flight): Phase {
    match step
    case ReadRow(id, unread) => if id == f.job.id then Working(ReadingOf(s, f.job, unread)) else f.phase
    case FinishJob(id, _) => if id == f.job.id then Finished else f.phase
    case FinishFails(id) => if id == f.job.id then Finished else f.phase
    case ReleaseKeys(id) => if id == f.job.id then Released else f.phase
    case CountDown(id) => if id == f.job.id then Counted else f.phase
    case _ => f.phase
  }

  /** Each goroutine runs the job it is kept under. */
  ghost predicate Own(flight: map<JobId, Flight>) {
    forall id :: id in flight ==> flight[id].job.id == id
  }

  /** A start adds the goroutine of the job at hand, the last step of a
      goroutine ends it, its own steps take it from phase to phase, and no
      other step touches it. */
  ghost predicate FlightBecomes(s: State, step: Step, id: JobId, after: map<JobId, Flight>) {
    if step.StartJob? && s.pc.Start? && id == s.pc.job.id then id in after && after[id] == Flight(s.pc.job, s.pc.r, Started)
    else if step == NotifyDone(id) then id !in after
    else if id in s.flight then id in after && after[id] == s.flight[id].(phase := PhaseAfter(s, step, s.flight[id]))
    else id !in after
  }

  lemma StepFlight(s: State, step: Step, id: JobId)
    requires Own(s.flight) && Enabled(s, step)
    ensures FlightBecomes(s, step, id, Apply(s, step).flight)
  {
    if OfJob(step) {
      JobFlight(s, step, id);
    } else if OfDispatcher(step) {
      DispatcherFlight(s, step, id);
    } else {
      CallerFrame(s, step);
    }
  }

  lemma JobFlight(s: State, step: Step, id: JobId)
    requires Own(s.flight) && JobMay(s, step)
    ensures FlightBecomes(s, step, id, ByJob(s, step).flight)
  {
  }

  lemma DispatcherFlight(s: State, step: Step, id: JobId)
    requires DispatcherMay(s, step)
    ensures FlightBecomes(s, step, id, ByDispatcher(s, step).flight)
  {
  }

  lemma {:induction false} ReachableOwn(states: seq<State>, steps: seq<Step>, i: nat)
    requires IsRun(states, steps) && i <= |steps|
    ensures Own(states[i].flight)
  {
    if i > 0 {
      ReachableOwn(states, steps, i - 1);
      forall id | id in states[i].flight
        ensures states[i].flight[id].job.id == id
      {
        StepFlight(states[i - 1], steps[i - 1], id);
      }
    }
  }

  /** In every run, what each step does to each goroutine. */
  lemma EveryFlightExactly(states: seq<State>, steps: seq<Step>, i: nat, id: JobId)
    requires IsRun(states, steps) && i < |steps|
    ensures FlightBecomes(states[i], steps[i], id, states[i + 1].flight)
  {
    ReachableOwn(states, steps, i);
    StepFlight(states[i], steps[i], id);
  }

  /** The jobs nobody runs any more: a claimed row not read back, a finish not
      recorded. */
  lemma EveryLostExactly(states: seq<State>, steps: seq<Step>, i: nat, id: JobId)
    requires IsRun(states, steps) && i < |steps|
    ensures var s, step := states[i], steps[i];
      id in states[i + 1].lost <==>
        || id in s.lost
        || step == FinishFails(id)
        || (step == ClaimJob(false) && s.pc.Claim? && s.pc.job.id == id && IsQueued(s.jobs, id))
  {
    var s, step := states[i], steps[i];
    if OfJob(step) {
      JobLost(s, step, id);
    } else if OfDispatcher(step) {
      DispatcherLost(s, step, id);
    } else {
      CallerFrame(s, step);
    }
  }

  lemma JobLost(s: State, step: Step, id: JobId)
    requires JobMay(s, step)
    ensures id in ByJob(s, step).lost <==> id in s.lost || step == FinishFails(id)
  {
  }

  lemma DispatcherLost(s: State, step: Step, id: JobId)
    requires DispatcherMay(s, step)
    ensures id in ByDispatcher(s, step).lost <==>
      id in s.lost || (step == ClaimJob(false) && s.pc.Claim? && s.pc.job.id == id && IsQueued(s.jobs, id))
  {
  }

  // --- The deletion, and what the keys are read from ---

  /** A deletion goes on to its second statement exactly when no job of the
      mailbox runs, and is over when it is refused, commits or rolls back. */
  ghost predicate TxBecomes(s: State, step: Step, after: Tx) {
    match step
    case CancelJobsOf(mb) => after.Canceling? && after.mb == mb
    case CheckRunning =>
      s.tx.Canceling? &&
      if exists id :: id in s.jobs && s.jobs[id].status == Running && s.jobs[id].mailbox == Some(s.tx.mb) then after == NoTx
      else after == Deleting(s.tx.mb, s.tx.view)
    case CommitDelete => after == NoTx
    case RollBack => after == NoTx
    case _ => after == s.tx
  }

  /** A mailbox row is there once it was added, is the one written last, and
      goes with the mailbox; an update is pending between its test and its
      write. */
  ghost predicate InputsBecome(s: State, step: Step, s': State) {
    match step
    case AddMailbox(mid, row) => s'.mailboxes == s.mailboxes[mid := row] && s'.edits == s.edits && s'.probeHost == s.probeHost
    case BeginEdit(edit, _) => s'.mailboxes == s.mailboxes && s'.edits == s.edits + {edit} && s'.probeHost == s.probeHost
    case PutMailbox(edit) =>
      && s'.mailboxes == (if edit.mid in s.mailboxes then s.mailboxes[edit.mid := edit.row] else s.mailboxes)
      && s'.edits == s.edits - {edit} && s'.probeHost == s.probeHost
    case PutProbeHost(host) => s'.mailboxes == s.mailboxes && s'.edits == s.edits && s'.probeHost == host
    case CommitDelete => s.tx.Deleting? && s'.mailboxes == s.mailboxes - {s.tx.mb} && s'.edits == s.edits && s'.probeHost == s.probeHost
    case _ => s'.mailboxes == s.mailboxes && s'.edits == s.edits && s'.probeHost == s.probeHost
  }

  lemma EveryInputExactly(states: seq<State>, steps: seq<Step>, i: nat)
    requires IsRun(states, steps) && i < |steps|
    ensures TxBecomes(states[i], steps[i], states[i + 1].tx)
    ensures InputsBecome(states[i], steps[i], states[i + 1])
  {
    ReachableInv(states, steps, i);
    var s, step := states[i], steps[i];
    if OfJob(step) {
      JobFrame(s, step);
    } else if OfDispatcher(step) {
      DispatcherFrame(s, step);
      DispatcherInputs(s, step);
    } else {
      CallerTx(s, step);
      CallerInputs(s, step);
    }
  }

  /** Changing the worker count is never refused; a signal follows a change;
      the single statements on the rows wait for a deletion to end. */
  lemma CallersMay(s: State, n: int, id: JobId)
    ensures Enabled(s, SetWorkers(n)) && (Enabled(s, Step.Notify) <==> s.pending > 0)
    ensures Enabled(s, CancelQueued(id)) <==> s.tx == NoTx
    ensures Enabled(s, Insert(Sync, None, None, 0, true)) <==> s.tx == NoTx
    ensures s.tx == NoTx <==> !Enabled(s, RollBack)
  {
  }

  lemma CallerTx(s: State, step: Step)
    requires TxView(s) && CallerMay(s, step)
    ensures TxBecomes(s, step, ByCaller(s, step).tx)
  {
    if step.CheckRunning? {
      assert forall id :: id in s.jobs ==> (s.tx.view[id].status.Running? <==> s.jobs[id].status.Running?) && s.tx.view[id].mailbox == s.jobs[id].mailbox;
    }
  }

  lemma CallerInputs(s: State, step: Step)
    requires CallerMay(s, step)
    ensures InputsBecome(s, step, ByCaller(s, step))
  {
  }

  // --- The signals ---

  const IS_START: Step -> bool := (step: Step) => step.StartJob?
  const IS_END: Step -> bool := (step: Step) => step.NotifyDone?
  const IS_NOTIFY: Step -> bool := (step: Step) => step.Notify?
  const OWES: Step -> bool := (step: Step) => step.SetWorkers? || (step.Insert? && step.wakes)

  /** Every started job ends with one signal, and every change a caller made
      that concerns the dispatcher is followed by one; until then it is counted
      as pending. */
  lemma {:induction false} SignalsAccounted(states: seq<State>, steps: seq<Step>, i: nat)
    requires IsRun(states, steps) && i <= |steps|
    ensures |states[i].flight| + CountOf(steps[..i], IS_END) == CountOf(steps[..i], IS_START)
    ensures states[i].pending + CountOf(steps[..i], IS_NOTIFY) == states[0].pending + CountOf(steps[..i], OWES)
  {
    if i > 0 {
      var s, step := states[i - 1], steps[i - 1];
      SignalsAccounted(states, steps, i - 1);
      assert steps[..i][..i - 1] == steps[..i - 1] && steps[..i][i - 1] == step;
      ReachableInv(states, steps, i - 1);
      StepFlights(s, step);
      StepPending(s, step);
    }
  }

  lemma StepFlights(s: State, step: Step)
    requires RunningRows(s) && Enabled(s, step)
    ensures |Apply(s, step).flight| + One(step.NotifyDone?) == |s.flight| + One(step.StartJob?)
  {
    if OfJob(step) {
      JobFlights(s, step);
    } else if OfDispatcher(step) {
      DispatcherFlights(s, step);
    } else {
      CallerFrame(s, step);
    }
  }

  lemma JobFlights(s: State, step: Step)
    requires JobMay(s, step)
    ensures |ByJob(s, step).flight| + One(step.NotifyDone?) == |s.flight|
  {
    var after := ByJob(s, step).flight;
    if step.NotifyDone? {
      assert after.Keys == s.flight.Keys - {step.id};
    } else {
      assert after.Keys == s.flight.Keys;
    }
  }

  lemma DispatcherFlights(s: State, step: Step)
    requires RunningRows(s) && DispatcherMay(s, step)
    ensures |ByDispatcher(s, step).flight| == |s.flight| + One(step.StartJob?)
  {
    if step.StartJob? {
      assert BeingStarted(s, s.pc.job.id);
      assert ByDispatcher(s, step).flight.Keys == s.flight.Keys + {s.pc.job.id};
    }
  }

  lemma StepPending(s: State, step: Step)
    requires Enabled(s, step)
    ensures Apply(s, step).pending + One(step.Notify?) == s.pending + One(step.SetWorkers? || (step.Insert? && step.wakes))
  {
    if OfJob(step) {
      JobFrame(s, step);
    } else if OfDispatcher(step) {
      DispatcherInputs(s, step);
    } else {
      CallerPending(s, step);
    }
  }

  lemma CallerPending(s: State, step: Step)
    requires CallerMay(s, step)
    ensures ByCaller(s, step).pending + One(step.Notify?) == s.pending + One(step.SetWorkers? || (step.Insert? && step.wakes))
  {
  }

  /** A signal fills the channel, and only the dispatcher that wakes empties it. */
  lemma SignalsAreHeard(states: seq<State>, steps: seq<Step>, i: nat)
    requires IsRun(states, steps) && i < |steps|
    ensures states[i + 1].wake <==> steps[i].Notify? || steps[i].NotifyDone? || (states[i].wake && !steps[i].WakeUp?)
  {
    var s, step := states[i], steps[i];
    if OfJob(step) {
      JobWakes(s, step);
    } else if OfDispatcher(step) {
      DispatcherEmpties(s, step);
    } else {
      CallerFills(s, step);
    }
  }

  lemma DispatcherEmpties(s: State, step: Step)
    requires DispatcherMay(s, step)
    ensures ByDispatcher(s, step).wake == (s.wake && !step.WakeUp?)
  {
  }

  lemma CallerFills(s: State, step: Step)
    requires CallerMay(s, step)
    ensures ByCaller(s, step).wake == (s.wake || step.Notify?)
  {
  }
}
