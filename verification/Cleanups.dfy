/** The daily cleanup: queued once for each occurrence, over restarts and
    missed hours (CleanupDue and queueCleanupIfDue in
    app/modules/scheduler.go). Dates are day numbers. */
module Cleanups {
  import opened Options
  import opened Schedules

  /** DefaultCleanupTime, 02:00. */
  const DEFAULT_CLEANUP_TIME: Clock := 120

  /** The date of the latest occurrence at or before now. */
  function LatestDate(now: int, cleanupTime: Option<Clock>): int {
    DayOf(LatestOccurrence(now, cleanupTime.GetOr(DEFAULT_CLEANUP_TIME)))
  }

  /** The date to record; lastRun is the recorded one, fired the one this
      process queued last. */
  function CleanupDue(now: int, cleanupTime: Option<Clock>, lastRun: Option<int>, fired: Option<int>): Option<int> {
    var t := cleanupTime.GetOr(DEFAULT_CLEANUP_TIME);
    var today := Occurrence(DayOf(now), t);
    var occ := if today > now then Occurrence(DayOf(now) - 1, t) else today;
    var date := DayOf(occ);
    var run := if lastRun.Some? && lastRun.value > DayOf(now) then None else lastRun;
    if (run.Some? && date <= run.value) || fired == Some(date) then None else Some(date)
  }

  /** A cleanup is due for the latest occurrence, unless this process queued it
      or its date or a later one that is not ahead of today is recorded; so it
      is later than the recorded date exactly when that date is not ahead. */
  lemma DueIsLater(now: int, cleanupTime: Option<Clock>, lastRun: Option<int>, fired: Option<int>)
    ensures var due := CleanupDue(now, cleanupTime, lastRun, fired);
      && (due.Some? ==> due.value == LatestDate(now, cleanupTime) && due.value <= DayOf(now))
      && (due.Some? && lastRun.Some? ==> (lastRun.value < due.value <==> lastRun.value <= DayOf(now)))
      && (due.None? <==> fired == Some(LatestDate(now, cleanupTime))
                         || (lastRun.Some? && LatestDate(now, cleanupTime) <= lastRun.value <= DayOf(now)))
  {
  }

  /** The recorded date, what this process queued last, and every date queued. */
  datatype State = State(recorded: Option<int>, fired: Option<int>, now: int, queued: seq<int>)

  /** `answers`, `queues` and `records` say whether the recorded date could be
      read (an error counts as no date), the job queued and the date recorded. */
  datatype Step =
    | Tick(now: int, cleanupTime: Option<Clock>, answers: bool, queues: bool, records: bool)
    | Restart

  function Apply(s: State, step: Step): State {
    match step
    case Tick(now, cleanupTime, answers, queues, records) =>
      var due := CleanupDue(now, cleanupTime, if answers then s.recorded else None, s.fired);
      if due.Some? && queues then State(if records then due else s.recorded, due, now, s.queued + [due.value]) else s.(now := now)
    case Restart => s.(fired := None)
  }

  class CleanupScheduler {
    var recorded: Option<int>
    var fired: Option<int>

    method QueueCleanupIfDue(now: int, cleanupTime: Option<Clock>, answers: bool, queues: bool, records: bool) returns (queued: Option<int>)
      modifies this
      ensures var s := Apply(State(old(recorded), old(fired), now, []), Tick(now, cleanupTime, answers, queues, records));
        && recorded == s.recorded && fired == s.fired
        && s.queued == (if queued.Some? then [queued.value] else [])
    {
      var due := CleanupDue(now, cleanupTime, if answers then recorded else None, fired);
      if due.None? {
        return None;
      }
      if !queues {
        return None;
      }
      fired := due;
      if records {
        recorded := due;
      }
      queued := due;
    }
  }

  ghost predicate IsRun(states: seq<State>, steps: seq<Step>) {
    && |states| == |steps| + 1
    && states[0].queued == [] && states[0].fired.None?
    && forall i :: 0 <= i < |steps| ==> states[i + 1] == Apply(states[i], steps[i])
  }

  // --- Never missing the latest occurrence ---

  /** What is remembered was queued in this run, or recorded before it. */
  predicate RemembersQueued(s: State, first: Option<int>) {
    && (s.fired.Some? ==> s.fired.value in s.queued)
    && (s.recorded.Some? ==> s.recorded.value in s.queued || s.recorded == first)
  }

  lemma {:induction false} ReachableRemembers(states: seq<State>, steps: seq<Step>, i: nat)
    requires IsRun(states, steps) && i <= |steps|
    ensures RemembersQueued(states[i], states[0].recorded)
  {
    if i > 0 {
      ReachableRemembers(states, steps, i - 1);
    }
  }

  /** The date, or a later one up to today, was queued in this run or recorded
      before it. */
  ghost predicate CaughtUp(s: State, first: Option<int>, date: int, today: int) {
    exists d :: date <= d <= today && (d in s.queued || first == Some(d))
  }

  /** Over restarts, missed hours, a clock set back, changes of the cleanup
      time and failed reads and records: after every tick that can queue, the
      latest occurrence was queued, or a later one that is not ahead of today.
      A date queued or recorded while the clock was ahead holds nothing back. */
  lemma LatestNeverMissed(states: seq<State>, steps: seq<Step>, i: nat)
    requires IsRun(states, steps) && i < |steps| && steps[i].Tick? && steps[i].queues
    ensures states[i + 1].now == steps[i].now
    ensures CaughtUp(states[i + 1], states[0].recorded, LatestDate(steps[i].now, steps[i].cleanupTime), DayOf(steps[i].now))
  {
    ReachableRemembers(states, steps, i);
    var s, s', date := states[i], states[i + 1], LatestDate(steps[i].now, steps[i].cleanupTime);
    DueIsLater(steps[i].now, steps[i].cleanupTime, if steps[i].answers then s.recorded else None, s.fired);
    if s'.queued != s.queued {
      assert date in s'.queued;
    } else if s.fired == Some(date) {
      assert date in s'.queued;
    } else {
      var d := s.recorded.value;
      assert d in s'.queued || states[0].recorded == Some(d);
    }
  }

  // --- Each date once ---

  predicate ClockForward(s: State, step: Step) {
    step.Tick? ==> s.now <= step.now
  }

  predicate NotAhead(s: State) {
    s.recorded.Some? ==> s.recorded.value <= DayOf(s.now)
  }

  predicate Ascends(queued: seq<int>) {
    forall i, j :: 0 <= i < j < |queued| ==> queued[i] < queued[j]
  }

  /** The tick finds a latest occurrence that was queued already, or an earlier
      one (the cleanup time changed). */
  predicate Repeats(s: State, step: Step) {
    step.Tick? && step.queues && s.queued != [] && LatestDate(step.now, step.cleanupTime) <= s.queued[|s.queued| - 1]
  }

  /** This process queued that occurrence last, or it was recorded and the
      record can be read. */
  predicate Remembered(s: State, step: Step)
    requires step.Tick?
  {
    var date := LatestDate(step.now, step.cleanupTime);
    s.fired == Some(date) || (step.answers && s.recorded.Some? && date <= s.recorded.value)
  }

  lemma QueuesExactly(s: State, step: Step)
    requires step.Tick? && step.queues && NotAhead(s) && ClockForward(s, step)
    ensures var date := LatestDate(step.now, step.cleanupTime);
      Apply(s, step).queued == if Remembered(s, step) then s.queued else s.queued + [date]
  {
    DueIsLater(step.now, step.cleanupTime, if step.answers then s.recorded else None, s.fired);
  }

  lemma {:induction false} ReachableNotAhead(states: seq<State>, steps: seq<Step>, i: nat)
    requires IsRun(states, steps) && i <= |steps| && NotAhead(states[0])
    requires forall k :: 0 <= k < i ==> ClockForward(states[k], steps[k])
    ensures NotAhead(states[i])
  {
    if i > 0 {
      ReachableNotAhead(states, steps, i - 1);
      if steps[i - 1].Tick? {
        DueIsLater(steps[i - 1].now, steps[i - 1].cleanupTime, if steps[i - 1].answers then states[i - 1].recorded else None, states[i - 1].fired);
      }
    }
  }

  lemma StepAscends(s: State, step: Step)
    requires NotAhead(s) && ClockForward(s, step)
    ensures Ascends(Apply(s, step).queued) <==> Ascends(s.queued) && (Repeats(s, step) ==> Remembered(s, step))
  {
    var before, after := s.queued, Apply(s, step).queued;
    if step.Tick? && step.queues {
      QueuesExactly(s, step);
      if after != before {
        assert after[..|before|] == before;
        assert forall i :: 0 <= i < |before| ==> after[i] == before[i];
        if before != [] {
          assert Ascends(after) ==> after[|before| - 1] < after[|before|];
        }
      }
    }
  }

  /** With the clock going forward the dates queued ascend, so that none is
      queued twice, exactly when every tick that finds an occurrence queued
      before still remembers it. */
  lemma {:induction false} AscendExactly(states: seq<State>, steps: seq<Step>, n: nat)
    requires IsRun(states, steps) && n <= |steps| && NotAhead(states[0])
    requires forall k :: 0 <= k < n ==> ClockForward(states[k], steps[k])
    ensures Ascends(states[n].queued) <==> forall k :: 0 <= k < n && Repeats(states[k], steps[k]) ==> Remembered(states[k], steps[k])
  {
    if n > 0 {
      AscendExactly(states, steps, n - 1);
      ReachableNotAhead(states, steps, n - 1);
      StepAscends(states[n - 1], steps[n - 1]);
    }
  }

  predicate Answers(step: Step) {
    step.Tick? ==> step.answers && step.records
  }

  /** The last date queued is recorded. */
  predicate Covered(s: State) {
    s.queued != [] ==> s.recorded.Some? && s.queued[|s.queued| - 1] <= s.recorded.value
  }

  lemma {:induction false} ReachableCovered(states: seq<State>, steps: seq<Step>, i: nat)
    requires IsRun(states, steps) && i <= |steps|
    requires forall k :: 0 <= k < i ==> Answers(steps[k])
    ensures Covered(states[i])
  {
    if i > 0 {
      ReachableCovered(states, steps, i - 1);
    }
  }

  /** So it is while the settings can be read and written: over restarts and
      changes of the cleanup time no date is queued twice. */
  lemma QueuedDatesAscend(states: seq<State>, steps: seq<Step>, n: nat)
    requires IsRun(states, steps) && n <= |steps| && NotAhead(states[0])
    requires forall k :: 0 <= k < n ==> ClockForward(states[k], steps[k]) && Answers(steps[k])
    ensures Ascends(states[n].queued)
  {
    forall k: nat | k < n && Repeats(states[k], steps[k])
      ensures Remembered(states[k], steps[k])
    {
      ReachableCovered(states, steps, k);
    }
    AscendExactly(states, steps, n);
  }

  /** A run in which the record of day 10 is not written, the server restarts
      and the day is queued again. */
  lemma UnrecordedDateQueuedTwice() returns (states: seq<State>, steps: seq<Step>)
    ensures IsRun(states, steps) && states[0] == State(None, None, 0, [])
    ensures forall k :: 0 <= k < |steps| ==> ClockForward(states[k], steps[k])
    ensures states[|steps|].queued == [10, 10]
  {
    var noon := 10 * DAY + 43200;
    steps := [Tick(noon, None, true, true, false), Restart, Tick(noon, None, true, true, true)];
    var s0 := State(None, None, 0, []);
    var s1 := Apply(s0, steps[0]);
    var s2 := Apply(s1, steps[1]);
    states := [s0, s1, s2, Apply(s2, steps[2])];
    assert LatestDate(noon, None) == 10;
    QueuesExactly(s0, steps[0]);
    QueuesExactly(s2, steps[2]);
  }

  /** With the clock set back before the recorded date the recorded dates do
      not ascend: day 10 is recorded, then day 2. */
  lemma ClockSetBackRecordsEarlierDate() returns (states: seq<State>, steps: seq<Step>)
    ensures IsRun(states, steps) && |steps| == 2
    ensures states[1].recorded == Some(10) && states[2].recorded == Some(2)
  {
    var s0 := State(None, None, 0, []);
    steps := [Tick(10 * DAY + 40000, None, true, true, true), Tick(2 * DAY + 40000, None, true, true, true)];
    var s1 := Apply(s0, steps[0]);
    var s2 := Apply(s1, steps[1]);
    states := [s0, s1, s2];
    DueIsLater(10 * DAY + 40000, None, None, None);
    DueIsLater(2 * DAY + 40000, None, Some(10), Some(10));
  }
}
