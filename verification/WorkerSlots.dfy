/** How many jobs run at once, never more than the worker count allowed, and how
    often the dispatcher checks: it neither spins nor gets stuck in a listing. */
module WorkerSlots {
  import opened Options
  import opened JobKeys
  import opened JobTable
  import opened Dispatcher

  /** The dispatcher is between a check that found a slot free and the start of
      a job. */
  predicate Picking(pc: Pc) {
    !pc.Check? && !pc.Park?
  }

  /** At most so many jobs take a slot, the one about to be started included. */
  predicate Room(s: State, most: int) {
    s.running <= most && (Picking(s.pc) ==> s.running < most)
  }

  /** What fitted below a bound on the worker count does so after a step. */
  lemma StepRoom(s: State, step: Step, most: int)
    requires Enabled(s, step) && s.workers <= most && Room(s, most)
    ensures Room(Apply(s, step), most)
  {
    if OfJob(step) {
      JobFrame(s, step);
      JobFreesSlot(s, step);
    } else if OfDispatcher(step) {
      DispatcherRoom(s, step, most);
    } else {
      CallerFrame(s, step);
    }
  }

  lemma JobFreesSlot(s: State, step: Step)
    ensures ByJob(s, step).running <= s.running
  {
  }

  lemma DispatcherRoom(s: State, step: Step, most: int)
    requires DispatcherMay(s, step) && s.workers <= most && Room(s, most)
    ensures Room(ByDispatcher(s, step), most)
  {
  }

  /** The next state stays below every bound this one is below. */
  ghost predicate KeepsRoom(s: State, s': State) {
    forall most :: s.workers <= most && Room(s, most) ==> Room(s', most)
  }

  /** In every run the jobs that take a slot are never more than a worker count
      that was in force at some moment so far. */
  lemma NeverMoreThanWorkers(states: seq<State>, steps: seq<Step>, i: nat) returns (n: nat)
    requires IsRun(states, steps) && i <= |steps|
    ensures n <= i && |InSlot(states[i].flight)| == states[i].running <= states[n].workers
  {
    forall k: nat | k < i
      ensures KeepsRoom(states[k], states[k + 1])
    {
      forall most | states[k].workers <= most && Room(states[k], most)
        ensures Room(states[k + 1], most)
      {
        StepRoom(states[k], steps[k], most);
      }
    }
    n := RoomChain(states, i);
    ReachableInv(states, steps, i);
  }

  lemma {:induction false} RoomChain(states: seq<State>, i: nat) returns (n: nat)
    requires i < |states| && states[0].pc.Check? && states[0].running <= states[0].workers
    requires forall k: nat :: k < i ==> KeepsRoom(states[k], states[k + 1])
    ensures n <= i && Room(states[i], states[n].workers) && states[i].workers <= states[n].workers
  {
    if i == 0 {
      n := 0;
    } else {
      n := RoomChain(states, i - 1);
      assert KeepsRoom(states[i - 1], states[i - 1 + 1]);
      if states[i].workers > states[n].workers {
        n := i;
      }
    }
  }

  /** The dispatcher checked at step j and the worker count was not changed
      since. */
  ghost predicate SameCountSinceCheck(states: seq<State>, steps: seq<Step>, j: nat, i: nat) {
    && IsRun(states, steps) && j <= i <= |steps|
    && states[j].pc.Check?
    && (forall n :: j <= n < i ==> !steps[n].SetWorkers?)
  }

  /** A job is started beyond the worker count only when the count was lowered
      since the check: otherwise the start leaves as many jobs as workers at
      most, whatever the count was before. */
  lemma StartKeepsToWorkers(states: seq<State>, steps: seq<Step>, j: nat, i: nat)
    requires SameCountSinceCheck(states, steps, j, i) && i < |steps| && steps[i].StartJob?
    ensures states[i + 1].running <= states[i + 1].workers
  {
    PickingHasSlot(states, steps, j, i);
    DispatcherFrame(states[i], steps[i]);
  }

  /** A job about to be started has a slot. */
  predicate HasSlot(s: State) {
    Picking(s.pc) ==> s.running < s.workers
  }

  lemma PickingHasSlot(states: seq<State>, steps: seq<Step>, j: nat, i: nat)
    requires SameCountSinceCheck(states, steps, j, i)
    ensures HasSlot(states[i])
  {
    forall n: nat | j <= n < i && HasSlot(states[n])
      ensures HasSlot(states[n + 1])
    {
      StepKeepsSlot(states[n], steps[n]);
    }
    SlotChain(states, j, i);
  }

  lemma {:induction false} SlotChain(states: seq<State>, j: nat, i: nat)
    requires j <= i < |states| && HasSlot(states[j])
    requires forall n: nat :: j <= n < i && HasSlot(states[n]) ==> HasSlot(states[n + 1])
    ensures HasSlot(states[i])
    decreases i
  {
    if j < i {
      SlotChain(states, j, i - 1);
      assert HasSlot(states[i - 1 + 1]);
    }
  }

  lemma StepKeepsSlot(s: State, step: Step)
    requires Enabled(s, step) && !step.SetWorkers? && HasSlot(s)
    ensures HasSlot(Apply(s, step))
  {
    if OfJob(step) {
      JobFrame(s, step);
      JobFreesSlot(s, step);
    } else if OfDispatcher(step) {
      DispatcherKeepsSlot(s, step);
    } else {
      CallerFrame(s, step);
      CallerKeepsCount(s, step);
    }
  }

  lemma DispatcherKeepsSlot(s: State, step: Step)
    requires DispatcherMay(s, step) && HasSlot(s)
    ensures HasSlot(ByDispatcher(s, step))
  {
  }

  lemma CallerKeepsCount(s: State, step: Step)
    requires !step.SetWorkers?
    ensures ByCaller(s, step).workers == s.workers
  {
  }

  /** The count in force is the one asked for within 1 to 16, and 2 for none;
      only asking changes it. */
  lemma CountInForce(states: seq<State>, steps: seq<Step>, i: nat)
    requires IsRun(states, steps) && i < |steps|
    ensures var w := states[i + 1].workers;
      if steps[i].SetWorkers? then w == (if 1 <= steps[i].n <= 16 then steps[i].n else if steps[i].n > 16 then 16 else 2)
      else w == states[i].workers
  {
    if OfJob(steps[i]) {
      JobFrame(states[i], steps[i]);
    } else if OfDispatcher(steps[i]) {
      DispatcherFrame(states[i], steps[i]);
    } else if !steps[i].SetWorkers? {
      CallerKeepsCount(states[i], steps[i]);
    }
  }

  // --- How often the dispatcher checks ---

  /** How many of the steps are of the kind. */
  function CountOf(steps: seq<Step>, kind: Step -> bool): nat {
    if steps == [] then 0 else CountOf(steps[..|steps| - 1], kind) + (if kind(steps[|steps| - 1]) then 1 else 0)
  }

  function One(b: bool): nat {
    if b then 1 else 0
  }

  const IS_CHECK: Step -> bool := (step: Step) => step.CheckSlot?
  const RESUMES: Step -> bool := (step: Step) => step.StartJob? || step.WakeUp? || step.Tick?
  const IS_WAKEUP: Step -> bool := (step: Step) => step.WakeUp?
  const SIGNALS: Step -> bool := (step: Step) => step.Notify? || step.NotifyDone?

  /** The dispatcher does not spin: it checks once at the start, and then once
      after each start of a job, each wakeup and each tick of the poll; and it
      is woken no more often than somebody signalled, once more when the
      channel was full at the start. */
  lemma {:induction false} ChecksAreCaused(states: seq<State>, steps: seq<Step>, i: nat)
    requires IsRun(states, steps) && i <= |steps|
    ensures CountOf(steps[..i], IS_CHECK) + One(states[i].pc.Check?) == 1 + CountOf(steps[..i], RESUMES)
    ensures CountOf(steps[..i], IS_WAKEUP) + One(states[i].wake) <= One(states[0].wake) + CountOf(steps[..i], SIGNALS)
  {
    if i > 0 {
      var s, step := states[i - 1], steps[i - 1];
      ChecksAreCaused(states, steps, i - 1);
      assert steps[..i][..i - 1] == steps[..i - 1] && steps[..i][i - 1] == step;
      StepChecks(s, step);
      StepWakes(s, step);
    }
  }

  lemma StepChecks(s: State, step: Step)
    requires Enabled(s, step)
    ensures One(Apply(s, step).pc.Check?) + One(step.CheckSlot?) == One(s.pc.Check?) + One(step.StartJob? || step.WakeUp? || step.Tick?)
  {
    if OfJob(step) {
      JobFrame(s, step);
    } else if OfDispatcher(step) {
      DispatcherChecks(s, step);
    } else {
      CallerFrame(s, step);
    }
  }

  lemma DispatcherChecks(s: State, step: Step)
    requires DispatcherMay(s, step)
    ensures One(ByDispatcher(s, step).pc.Check?) + One(step.CheckSlot?) == One(s.pc.Check?) + One(step.StartJob? || step.WakeUp? || step.Tick?)
  {
  }

  lemma StepWakes(s: State, step: Step)
    requires Enabled(s, step)
    ensures One(step.WakeUp?) + One(Apply(s, step).wake) <= One(s.wake) + One(step.Notify? || step.NotifyDone?)
  {
    if OfJob(step) {
      JobWakes(s, step);
    } else if OfDispatcher(step) {
      DispatcherWakes(s, step);
    } else {
      CallerWakes(s, step);
    }
  }

  lemma JobWakes(s: State, step: Step)
    ensures ByJob(s, step).wake == (s.wake || step.NotifyDone?)
  {
  }

  lemma DispatcherWakes(s: State, step: Step)
    requires DispatcherMay(s, step)
    ensures One(step.WakeUp?) + One(ByDispatcher(s, step).wake) <= One(s.wake)
  {
  }

  lemma CallerWakes(s: State, step: Step)
    ensures ByCaller(s, step).wake ==> s.wake || step.Notify?
  {
  }

  /** The dispatcher is in the middle of a listing. */
  predicate InPass(pc: Pc) {
    pc.Walk? || pc.Test? || pc.Claim? || pc.Acquire? || pc.Start?
  }

  /** The steps left of a pass: at most four for each row of the rest. */
  function Left(pc: Pc): nat {
    match pc
    case Walk(rest) => 4 * |rest| + 1
    case Test(_, _, rest) => 4 * |rest| + 4
    case Claim(_, _, rest) => 4 * |rest| + 3
    case Acquire(_, _) => 2
    case Start(_, _) => 1
    case _ => 0
  }

  const DISPATCHES: Step -> bool := (step: Step) => OfDispatcher(step)

  /** A pass over a listing ends: while it lasts the dispatcher takes no more
      steps than four for each row listed, and one, whatever happens beside it. */
  lemma PassEnds(states: seq<State>, steps: seq<Step>, j: nat, i: nat)
    requires IsRun(states, steps) && j <= i <= |steps| && forall n :: j <= n <= i ==> InPass(states[n].pc)
    ensures CountOf(steps[j..i], DISPATCHES) + Left(states[i].pc) <= Left(states[j].pc)
  {
    forall n: nat | j <= n < i
      ensures GetsOn(states[n].pc, steps[n], states[n + 1].pc)
    {
      assert InPass(states[n].pc) && InPass(states[n + 1].pc);
      StepLeft(states[n], steps[n]);
    }
    LeftChain(states, steps, j, i);
  }

  /** A step of the dispatcher leaves fewer, any other one no more. */
  predicate GetsOn(pc: Pc, step: Step, pc': Pc) {
    One(OfDispatcher(step)) + Left(pc') <= Left(pc)
  }

  lemma {:induction false} LeftChain(states: seq<State>, steps: seq<Step>, j: nat, i: nat)
    requires j <= i <= |steps| < |states| && forall n: nat :: j <= n < i ==> GetsOn(states[n].pc, steps[n], states[n + 1].pc)
    ensures CountOf(steps[j..i], DISPATCHES) + Left(states[i].pc) <= Left(states[j].pc)
    decreases i
  {
    if j < i {
      LeftChain(states, steps, j, i - 1);
      assert steps[j..i][..i - 1 - j] == steps[j..i - 1] && steps[j..i][i - 1 - j] == steps[i - 1];
      assert GetsOn(states[i - 1].pc, steps[i - 1], states[i - 1 + 1].pc);
    }
  }

  lemma StepLeft(s: State, step: Step)
    requires Enabled(s, step) && InPass(s.pc) && InPass(Apply(s, step).pc)
    ensures One(OfDispatcher(step)) + Left(Apply(s, step).pc) <= Left(s.pc)
  {
    if OfJob(step) {
      JobFrame(s, step);
    } else if OfDispatcher(step) {
      DispatcherLeft(s, step);
    } else {
      CallerFrame(s, step);
    }
  }

  lemma DispatcherLeft(s: State, step: Step)
    requires DispatcherMay(s, step) && InPass(s.pc) && InPass(ByDispatcher(s, step).pc)
    ensures 1 + Left(ByDispatcher(s, step).pc) <= Left(s.pc)
  {
  }
}
