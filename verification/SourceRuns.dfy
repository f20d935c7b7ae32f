/** The stored lookup of one source, used by several runs at once, statement
    by statement (sourceCache in app/modules/sourcecache.go,
    ReplaceSendingSourceLookup in app/models/sending_source_lookup.go). A
    source is a host name of one kind or the domain of an SPF record. Times
    are seconds. */
module SourceRuns {
  import opened Options

  const FRESH_AGE := 12 * 3600

  /** An address, a prefix or a host name found. */
  type Entry = nat

  /** `wide` is what dnscheck.SPFTooWide says of the entries (never of a host
      name): such a row may not be used. */
  datatype Row = Row(entries: seq<Entry>, wide: bool, fetchedAt: int)

  datatype Answer = Answer(entries: seq<Entry>, complete: bool)

  type RunId = nat

  /** Where the call of a run is: before its first read, before the lookup,
      after it, before the statement that stores, after a refused one, before
      it is remembered, returned. */
  datatype Pc =
    | Idle
    | ReadFresh
    | LookUp
    | LookedUp(found: Answer)
    | Store(entries: seq<Entry>, force: bool)
    | Refused
    | Remember(answer: Answer)
    | Returned(answer: Answer, canceled: bool)

  datatype Run = Run(pc: Pc, memo: Option<Answer>)

  datatype State = State(row: Option<Row>, now: int, runs: map<RunId, Run>)

  /** `works` is false for a statement that fails: a failed read counts as no
      row, a failed write as one that was refused. */
  datatype Step =
    | Open(r: RunId)
    | Begin(r: RunId)
    | Read(r: RunId, works: bool)
    | Look(r: RunId, found: Answer, canceled: bool)
    | Consult(r: RunId, works: bool)
    | Write(r: RunId, works: bool)
    | ReadAgain(r: RunId, works: bool)
    | Keep(r: RunId)
    | End(r: RunId)
    | SetClock(t: int)
    | CleanUp

  predicate NonEmpty(row: Option<Row>) {
    row.Some? && row.value.entries != []
  }

  /** A row the runs may use. */
  predicate Usable(row: Option<Row>) {
    row.Some? && !row.value.wide
  }

  predicate Fresh(row: Option<Row>, now: int) {
    row.Some? && 0 <= now - row.value.fetchedAt <= FRESH_AGE
  }

  /** The conditional upsert: unless forced, a row that lists nothing does not
      replace one that lists something. */
  predicate Written(row: Option<Row>, entries: seq<Entry>, force: bool) {
    force || !(entries == [] && NonEmpty(row))
  }

  function Upserted(row: Option<Row>, entries: seq<Entry>, force: bool, now: int): Option<Row> {
    if Written(row, entries, force) then Some(Row(entries, false, now)) else row
  }

  /** The call of the run is at a point. */
  predicate At(s: State, r: RunId) {
    r in s.runs && !s.runs[r].pc.Idle?
  }

  function PcOf(s: State, r: RunId): Pc {
    if r in s.runs then s.runs[r].pc else Idle
  }

  predicate Enabled(s: State, step: Step) {
    match step
    case Open(r) => r !in s.runs
    case Begin(r) => r in s.runs && s.runs[r].pc.Idle?
    case Read(r, _) => PcOf(s, r).ReadFresh?
    case Look(r, _, _) => PcOf(s, r).LookUp?
    case Consult(r, _) => PcOf(s, r).LookedUp?
    case Write(r, _) => PcOf(s, r).Store?
    case ReadAgain(r, _) => PcOf(s, r).Refused?
    case Keep(r) => PcOf(s, r).Remember?
    case End(r) => PcOf(s, r).Returned?
    case SetClock(_) => true
    case CleanUp => true
  }

  function Stored(row: Option<Row>): Answer
    requires row.Some?
  {
    Answer(row.value.entries, true)
  }

  /** What the run does once it has looked the source up, with one read of the
      stored row: a complete lookup that found nothing keeps a non-empty row,
      one that is not complete falls back to any. */
  function Consulted(row: Option<Row>, found: Answer): Pc {
    if found.complete && found.entries == [] then
      if NonEmpty(row) && Usable(row) then Remember(Stored(row))
      else Store([], NonEmpty(row) && !Usable(row))
    else if found.complete then Store(found.entries, false)
    else if Usable(row) then Remember(Stored(row))
    else Remember(found)
  }

  function To(s: State, r: RunId, pc: Pc): State
    requires r in s.runs
  {
    s.(runs := s.runs[r := s.runs[r].(pc := pc)])
  }

  function Apply(s: State, step: Step): State
    requires Enabled(s, step)
  {
    match step
    case Open(r) => s.(runs := s.runs[r := Run(Idle, None)])
    case Begin(r) =>
      if s.runs[r].memo.Some? then To(s, r, Returned(s.runs[r].memo.value, false)) else To(s, r, ReadFresh)
    case Read(r, works) => To(s, r, if works && Fresh(s.row, s.now) && Usable(s.row) then Remember(Stored(s.row)) else LookUp)
    case Look(r, found, canceled) => To(s, r, if canceled then Returned(Answer(found.entries, false), true) else LookedUp(found))
    case Consult(r, works) => To(s, r, Consulted(if works then s.row else None, s.runs[r].pc.found))
    case Write(r, works) =>
      var pc := s.runs[r].pc;
      To(s.(row := if works then Upserted(s.row, pc.entries, pc.force, s.now) else s.row), r,
         if !(works && Written(s.row, pc.entries, pc.force)) && pc.entries == [] then Refused else Remember(Answer(pc.entries, true)))
    case ReadAgain(r, works) =>
      To(s, r, Remember(if works && NonEmpty(s.row) && Usable(s.row) then Stored(s.row) else Answer([], true)))
    case Keep(r) =>
      var answer := s.runs[r].pc.answer;
      s.(runs := s.runs[r := Run(Returned(answer, false), Some(answer))])
    case End(r) => To(s, r, Idle)
    case SetClock(t) => s.(now := t)
    case CleanUp => if s.row.Some? && s.row.value.fetchedAt > s.now then s.(row := None) else s
  }

  /** Consecutive states, whatever state the first one is. */
  ghost predicate IsRun(states: seq<State>, steps: seq<Step>) {
    && |states| == |steps| + 1
    && forall i :: 0 <= i < |steps| ==> Enabled(states[i], steps[i]) && states[i + 1] == Apply(states[i], steps[i])
  }

  /** No stored row is dated after now. */
  predicate NotDatedAhead(s: State) {
    s.row.Some? ==> s.row.value.fetchedAt <= s.now
  }

  predicate ClockForward(s: State, step: Step) {
    step.SetClock? ==> s.now <= step.t
  }

  /** No run is about to store an empty answer over a row it may not use. */
  predicate NothingForced(s: State) {
    forall r :: r in s.runs && s.runs[r].pc.Store? ==> !s.runs[r].pc.force
  }

  /** A non-empty row the runs may use is stored, and it stays that way. */
  predicate Settled(s: State) {
    NonEmpty(s.row) && Usable(s.row) && NotDatedAhead(s) && NothingForced(s)
  }

  /** Under any interleaving a settled source stays settled, whatever the
      lookups of the runs answer. */
  lemma StaysSettled(s: State, step: Step)
    requires Settled(s) && Enabled(s, step) && ClockForward(s, step)
    ensures Settled(Apply(s, step))
  {
  }

  predicate Good(answer: Answer) {
    answer.complete && answer.entries != []
  }

  /** The run has no answer to repeat, or a good one. */
  predicate MemoGood(s: State, r: RunId) {
    r in s.runs && (s.runs[r].memo.Some? ==> Good(s.runs[r].memo.value))
  }

  /** The read that would have found the stored row for the call fails: the
      fallback of a lookup that is not complete, or the one after an empty
      answer was not stored. */
  predicate MissesRow(s: State, step: Step, r: RunId) {
    || (step == Consult(r, false) && PcOf(s, r).LookedUp? && !PcOf(s, r).found.complete)
    || step == ReadAgain(r, false)
  }

  /** Where a call that began in a settled state can be, `good` saying whether
      the run had nothing bad to repeat and missed no row. */
  predicate OnTrack(s: State, r: RunId, good: bool) {
    r in s.runs &&
    match s.runs[r].pc
    case Idle => false
    case ReadFresh => good
    case LookUp => good
    case LookedUp(_) => good
    case Store(_, _) => good
    case Refused => good
    case Remember(answer) => Good(answer) <==> good
    case Returned(answer, canceled) => Good(answer) <==> good && !canceled
  }

  lemma StaysOnTrack(s: State, step: Step, r: RunId, good: bool)
    requires Settled(s) && Enabled(s, step) && OnTrack(s, r, good) && step != End(r)
    ensures OnTrack(Apply(s, step), r, good && !MissesRow(s, step, r))
  {
  }

  /** The steps k, k + 1, ... j - 1 hold a call of the run that begins at k and
      has not ended, with the clock going forward. */
  ghost predicate CallSpan(states: seq<State>, steps: seq<Step>, k: nat, j: nat, r: RunId) {
    && IsRun(states, steps) && k < j <= |steps| && steps[k] == Begin(r)
    && (forall i :: k <= i < j ==> steps[i] != End(r) && ClockForward(states[i], steps[i]))
  }

  /** The call missed the stored row between its begin and step j. */
  predicate MissedRow(states: seq<State>, steps: seq<Step>, k: nat, j: nat, r: RunId)
    requires j <= |steps| && j <= |states|
  {
    exists n :: k <= n < j && MissesRow(states[n], steps[n], r)
  }

  lemma {:induction false} CallOnTrack(states: seq<State>, steps: seq<Step>, k: nat, j: nat, r: RunId)
    requires CallSpan(states, steps, k, j, r) && Settled(states[k])
    ensures Settled(states[j]) && OnTrack(states[j], r, MemoGood(states[k], r) && !MissedRow(states, steps, k, j, r))
    decreases j
  {
    if j == k + 1 {
      StaysSettled(states[k], steps[k]);
      assert !MissesRow(states[k], steps[k], r);
    } else {
      CallOnTrack(states, steps, k, j - 1, r);
      StaysSettled(states[j - 1], steps[j - 1]);
      StaysOnTrack(states[j - 1], steps[j - 1], r, MemoGood(states[k], r) && !MissedRow(states, steps, k, j - 1, r));
      assert MissedRow(states, steps, k, j, r) <==> MissedRow(states, steps, k, j - 1, r) || MissesRow(states[j - 1], steps[j - 1], r);
    }
  }

  /** Once a non-empty row is stored, a call that begins after it answers
      completely and with something exactly when it was not canceled, its run
      had not remembered an empty or incomplete answer before, and no read that
      would have found the row failed: whatever the lookups answer and however
      the runs interleave. */
  lemma StoredSourceIsAnswered(states: seq<State>, steps: seq<Step>, k: nat, j: nat, r: RunId)
    requires CallSpan(states, steps, k, j, r) && Settled(states[k])
    requires PcOf(states[j], r).Returned?
    ensures Good(states[j].runs[r].pc.answer) <==>
      MemoGood(states[k], r) && !states[j].runs[r].pc.canceled && !MissedRow(states, steps, k, j, r)
  {
    CallOnTrack(states, steps, k, j, r);
  }

  // --- What is answered and what is stored ---

  /** The call looked the source up at one of its steps and found that. */
  ghost predicate Looked(steps: seq<Step>, k: nat, j: nat, r: RunId, found: Answer)
    requires j <= |steps|
  {
    exists n :: k <= n < j && steps[n] == Look(r, found, false)
  }

  /** The call read, at one of its steps, a stored row that may be used and
      lists what is answered. */
  ghost predicate ReadRow(states: seq<State>, steps: seq<Step>, k: nat, j: nat, r: RunId, answer: Answer)
    requires j <= |steps| && j <= |states|
  {
    exists n :: k <= n < j && Reads(states[n], steps[n], r, answer)
  }

  predicate Reads(s: State, step: Step, r: RunId, answer: Answer) {
    && step in {Read(r, true), Consult(r, true), ReadAgain(r, true)}
    && s.row.Some? && !s.row.value.wide && answer == Answer(s.row.value.entries, true)
  }

  /** The lookup of the call was cut off; what it had found is no complete
      answer. */
  ghost predicate CutOff(steps: seq<Step>, k: nat, j: nat, r: RunId, answer: Answer)
    requires j <= |steps|
  {
    exists n, complete :: k <= n < j && steps[n] == Look(r, Answer(answer.entries, complete), true) && !answer.complete
  }

  /** Where what the call holds comes from. */
  ghost predicate Traced(states: seq<State>, steps: seq<Step>, k: nat, j: nat, r: RunId)
    requires k <= |steps| && j <= |steps| < |states|
  {
    match PcOf(states[j], r)
    case Idle => false
    case ReadFresh => true
    case LookUp => true
    case LookedUp(found) => Looked(steps, k, j, r, found)
    case Store(entries, _) => Looked(steps, k, j, r, Answer(entries, true))
    case Refused => Looked(steps, k, j, r, Answer([], true))
    case Remember(answer) => Looked(steps, k, j, r, answer) || ReadRow(states, steps, k, j, r, answer)
    case Returned(answer, canceled) =>
      if canceled then CutOff(steps, k, j, r, answer)
      else Memo(states[k], r) == Some(answer) || Looked(steps, k, j, r, answer) || ReadRow(states, steps, k, j, r, answer)
  }

  /** The answer the run repeats. */
  function Memo(s: State, r: RunId): Option<Answer> {
    if r in s.runs then s.runs[r].memo else None
  }

  /** A step of another run leaves the call where it is. */
  lemma OtherRun(s: State, step: Step, r: RunId)
    requires Enabled(s, step) && (step.SetClock? || step.CleanUp? || step.r != r)
    ensures PcOf(Apply(s, step), r) == PcOf(s, r) && Memo(Apply(s, step), r) == Memo(s, r)
  {
  }

  lemma LookedLater(steps: seq<Step>, k: nat, j: nat, r: RunId, found: Answer)
    requires j < |steps|
    ensures Looked(steps, k, j, r, found) ==> Looked(steps, k, j + 1, r, found)
    ensures k <= j && steps[j] == Look(r, found, false) ==> Looked(steps, k, j + 1, r, found)
  {
  }

  lemma ReadRowLater(states: seq<State>, steps: seq<Step>, k: nat, j: nat, r: RunId, answer: Answer)
    requires j < |steps| && j < |states|
    ensures ReadRow(states, steps, k, j, r, answer) ==> ReadRow(states, steps, k, j + 1, r, answer)
    ensures k <= j && Reads(states[j], steps[j], r, answer) ==> ReadRow(states, steps, k, j + 1, r, answer)
  {
  }

  lemma TracedOther(states: seq<State>, steps: seq<Step>, k: nat, j: nat, r: RunId)
    requires k < j < |steps| < |states| && Traced(states, steps, k, j, r) && PcOf(states[j + 1], r) == PcOf(states[j], r)
    ensures Traced(states, steps, k, j + 1, r)
  {
    match PcOf(states[j], r)
    case Idle =>
    case ReadFresh =>
    case LookUp =>
    case LookedUp(found) => LookedLater(steps, k, j, r, found);
    case Store(entries, _) => LookedLater(steps, k, j, r, Answer(entries, true));
    case Refused => LookedLater(steps, k, j, r, Answer([], true));
    case Remember(answer) =>
      LookedLater(steps, k, j, r, answer);
      ReadRowLater(states, steps, k, j, r, answer);
    case Returned(answer, canceled) =>
      LookedLater(steps, k, j, r, answer);
      ReadRowLater(states, steps, k, j, r, answer);
  }

  /** Where a step of the call takes its answer from. */
  predicate Follows(s: State, step: Step, r: RunId, pc: Pc) {
    match pc
    case Idle => false
    case ReadFresh => false
    case LookUp => true
    case LookedUp(found) => step == Look(r, found, false)
    case Store(entries, _) => PcOf(s, r) == LookedUp(Answer(entries, true))
    case Refused => exists force :: PcOf(s, r) == Store([], force)
    case Remember(answer) =>
      || Reads(s, step, r, answer)
      || PcOf(s, r) == LookedUp(answer)
      || (answer.complete && exists force :: PcOf(s, r) == Store(answer.entries, force))
      || (PcOf(s, r) == Refused && answer == Answer([], true))
    case Returned(answer, canceled) =>
      if canceled then step.Look? && step == Look(r, step.found, true) && answer == Answer(step.found.entries, false)
      else PcOf(s, r) == Remember(answer)
  }

  lemma StepFollows(s: State, step: Step, r: RunId)
    requires Enabled(s, step) && r in s.runs && !s.runs[r].pc.Idle?
    requires !step.SetClock? && !step.CleanUp? && step.r == r && !step.End?
    ensures Follows(s, step, r, PcOf(Apply(s, step), r))
  {
  }

  lemma TracedOwn(states: seq<State>, steps: seq<Step>, k: nat, j: nat, r: RunId)
    requires k < j < |steps| < |states| && Traced(states, steps, k, j, r) && Follows(states[j], steps[j], r, PcOf(states[j + 1], r))
    ensures Traced(states, steps, k, j + 1, r)
  {
    match PcOf(states[j + 1], r)
    case Idle =>
    case ReadFresh =>
    case LookUp =>
    case LookedUp(found) => LookedLater(steps, k, j, r, found);
    case Store(entries, _) => LookedLater(steps, k, j, r, Answer(entries, true));
    case Refused => LookedLater(steps, k, j, r, Answer([], true));
    case Remember(answer) =>
      LookedLater(steps, k, j, r, answer);
      ReadRowLater(states, steps, k, j, r, answer);
    case Returned(answer, canceled) =>
      LookedLater(steps, k, j, r, answer);
      ReadRowLater(states, steps, k, j, r, answer);
      if canceled {
        assert steps[j] == Look(r, Answer(answer.entries, steps[j].found.complete), true);
      }
  }

  predicate OfRun(step: Step, r: RunId) {
    !step.SetClock? && !step.CleanUp? && step.r == r
  }

  lemma {:induction false} CallTraced(states: seq<State>, steps: seq<Step>, k: nat, j: nat, r: RunId)
    requires CallSpan(states, steps, k, j, r)
    ensures Traced(states, steps, k, j, r)
    decreases j
  {
    if j > k + 1 {
      CallTraced(states, steps, k, j - 1, r);
      if OfRun(steps[j - 1], r) {
        StepFollows(states[j - 1], steps[j - 1], r);
        TracedOwn(states, steps, k, j - 1, r);
      } else {
        OtherRun(states[j - 1], steps[j - 1], r);
        TracedOther(states, steps, k, j - 1, r);
      }
    }
  }

  /** Nothing is made up: what a call answers is what its run answered before,
      what the call looked up itself, or what a row listed that was stored, and
      might be used, when the call read it. A call that was cut off answers
      incompletely. */
  lemma AnswerHasASource(states: seq<State>, steps: seq<Step>, k: nat, j: nat, r: RunId)
    requires CallSpan(states, steps, k, j, r) && PcOf(states[j], r).Returned?
    ensures var answer := PcOf(states[j], r).answer;
      if PcOf(states[j], r).canceled then CutOff(steps, k, j, r, answer)
      else Memo(states[k], r) == Some(answer) || Looked(steps, k, j, r, answer) || ReadRow(states, steps, k, j, r, answer)
  {
    CallTraced(states, steps, k, j, r);
  }

  // --- Once the call has its answer ---

  /** The call is about to answer that, or has. */
  predicate Answers(pc: Pc, answer: Answer) {
    pc == Remember(answer) || pc == Returned(answer, false)
  }

  /** The call is on its way to store what it found and to answer it. */
  predicate Carries(pc: Pc, found: Answer) {
    pc == LookedUp(found) || pc == Store(found.entries, false) || Answers(pc, found)
  }

  lemma StepAnswers(s: State, step: Step, r: RunId, answer: Answer)
    requires Enabled(s, step) && step != End(r) && Answers(PcOf(s, r), answer)
    ensures Answers(PcOf(Apply(s, step), r), answer)
  {
  }

  /** A complete lookup that found something is stored and answered as it is. */
  lemma StepCarries(s: State, step: Step, r: RunId, found: Answer)
    requires Enabled(s, step) && step != End(r) && Carries(PcOf(s, r), found) && found.complete && found.entries != []
    ensures Carries(PcOf(Apply(s, step), r), found)
    ensures step == Write(r, true) ==> Apply(s, step).row == Some(Row(found.entries, false, s.now))
  {
  }

  lemma {:induction false} CallAnswers(states: seq<State>, steps: seq<Step>, k: nat, n: nat, j: nat, r: RunId, answer: Answer)
    requires CallSpan(states, steps, k, j, r) && k < n <= j && Answers(PcOf(states[n], r), answer)
    ensures Answers(PcOf(states[j], r), answer)
    decreases j
  {
    if n < j {
      CallAnswers(states, steps, k, n, j - 1, r, answer);
      StepAnswers(states[j - 1], steps[j - 1], r, answer);
    }
  }

  lemma {:induction false} CallCarries(states: seq<State>, steps: seq<Step>, k: nat, n: nat, j: nat, r: RunId, found: Answer)
    requires CallSpan(states, steps, k, j, r) && k <= n < j && steps[n] == Look(r, found, false) && found.complete && found.entries != []
    ensures Carries(PcOf(states[j], r), found)
    decreases j
  {
    if n < j - 1 {
      CallCarries(states, steps, k, n, j - 1, r, found);
      StepCarries(states[j - 1], steps[j - 1], r, found);
    }
  }

  /** A complete lookup that found something is answered as it is, and a
      statement of the call that works stores exactly what it found, dated
      then. */
  lemma FoundIsStored(states: seq<State>, steps: seq<Step>, k: nat, n: nat, j: nat, r: RunId, found: Answer)
    requires CallSpan(states, steps, k, j, r) && k <= n < j && steps[n] == Look(r, found, false) && found.complete && found.entries != []
    ensures PcOf(states[j], r).Returned? ==> PcOf(states[j], r) == Returned(found, false)
    ensures forall m :: n < m < j && steps[m] == Write(r, true) ==> states[m + 1].row == Some(Row(found.entries, false, states[m].now))
  {
    CallCarries(states, steps, k, n, j, r, found);
    forall m | n < m < j && steps[m] == Write(r, true)
      ensures states[m + 1].row == Some(Row(found.entries, false, states[m].now))
    {
      CallCarries(states, steps, k, n, m, r, found);
      StepCarries(states[m], steps[m], r, found);
    }
  }

  /** A stored row that may be used and is at most half a day old is answered
      without asking; otherwise the call looks the source up. */
  lemma FreshIsAnswered(states: seq<State>, steps: seq<Step>, k: nat, n: nat, j: nat, r: RunId, works: bool)
    requires CallSpan(states, steps, k, j, r) && k <= n < j && steps[n] == Read(r, works) && PcOf(states[j], r).Returned?
    ensures var row, now := states[n].row, states[n].now;
      if works && row.Some? && !row.value.wide && 0 <= now - row.value.fetchedAt <= 12 * 3600
      then PcOf(states[j], r) == Returned(Answer(row.value.entries, true), false)
      else PcOf(states[n + 1], r) == LookUp
  {
    var row, now := states[n].row, states[n].now;
    if works && row.Some? && !row.value.wide && 0 <= now - row.value.fetchedAt <= 12 * 3600 {
      CallAnswers(states, steps, k, n + 1, j, r, Answer(row.value.entries, true));
    }
  }

  /** A lookup that was not complete falls back to any stored row that may be
      used; a complete one that found nothing does to one that lists
      something; without such a row what was found is answered as it is, or
      goes on to be stored. */
  lemma FallsBack(states: seq<State>, steps: seq<Step>, k: nat, n: nat, j: nat, r: RunId, works: bool, found: Answer)
    requires CallSpan(states, steps, k, j, r) && k < n < j && steps[n] == Consult(r, works) && PcOf(states[n], r) == LookedUp(found)
    requires PcOf(states[j], r).Returned? && (!found.complete || found.entries == [])
    ensures var row := states[n].row;
      if works && row.Some? && !row.value.wide && (found.complete ==> row.value.entries != [])
      then PcOf(states[j], r) == Returned(Answer(row.value.entries, true), false)
      else if !found.complete then PcOf(states[j], r) == Returned(found, false)
      else PcOf(states[n + 1], r) == Store([], works && row.Some? && row.value.entries != [])
  {
    var row := states[n].row;
    if works && row.Some? && !row.value.wide && (found.complete ==> row.value.entries != []) {
      CallAnswers(states, steps, k, n + 1, j, r, Answer(row.value.entries, true));
    } else if !found.complete {
      CallAnswers(states, steps, k, n + 1, j, r, found);
    }
  }

  /** An empty answer is stored exactly when the statement works and no row
      that lists something is there (or the row there may not be used, when
      the call decided so); it is answered, unless the row found in its place
      lists something and may be used. */
  lemma EmptyIsStored(states: seq<State>, steps: seq<Step>, k: nat, n: nat, j: nat, r: RunId, works: bool, force: bool)
    requires CallSpan(states, steps, k, j, r) && k < n < j && steps[n] == Write(r, works) && PcOf(states[n], r) == Store([], force)
    ensures var row, listed := states[n].row, states[n].row.Some? && states[n].row.value.entries != [];
      if works && (force || !listed)
      then states[n + 1].row == Some(Row([], false, states[n].now)) && Answers(PcOf(states[j], r), Answer([], true))
      else states[n + 1].row == row && PcOf(states[n + 1], r) == Refused
  {
    var listed := states[n].row.Some? && states[n].row.value.entries != [];
    if works && (force || !listed) {
      CallAnswers(states, steps, k, n + 1, j, r, Answer([], true));
    }
  }

  lemma RefusedIsAnswered(states: seq<State>, steps: seq<Step>, k: nat, n: nat, j: nat, r: RunId, works: bool)
    requires CallSpan(states, steps, k, j, r) && k < n < j && steps[n] == ReadAgain(r, works)
    ensures var row := states[n].row;
      Answers(PcOf(states[j], r),
              if works && row.Some? && row.value.entries != [] && !row.value.wide then Answer(row.value.entries, true) else Answer([], true))
  {
    CallAnswers(states, steps, k, n + 1, j, r, PcOf(states[n + 1], r).answer);
  }

  /** A run that answered a source repeats that answer. */
  lemma RepeatsItsAnswer(states: seq<State>, steps: seq<Step>, k: nat, j: nat, r: RunId)
    requires CallSpan(states, steps, k, j, r) && PcOf(states[j], r).Returned? && Memo(states[k], r).Some?
    ensures PcOf(states[j], r) == Returned(Memo(states[k], r).value, false)
  {
    CallAnswers(states, steps, k, k + 1, j, r, Memo(states[k], r).value);
  }

  /** What a run remembers of the source: nothing while it looks, its answer
      once it has one. */
  predicate Remembers(run: Run) {
    match run.pc
    case Idle => true
    case Returned(answer, canceled) => run.memo == if canceled then None else Some(answer)
    case _ => run.memo == None
  }

  ghost predicate AllRemember(s: State) {
    forall r :: r in s.runs ==> Remembers(s.runs[r])
  }

  lemma StepRemembers(s: State, step: Step)
    requires AllRemember(s) && Enabled(s, step)
    ensures AllRemember(Apply(s, step))
    ensures forall r :: r in s.runs && s.runs[r].memo.Some? ==> r in Apply(s, step).runs && Apply(s, step).runs[r].memo == s.runs[r].memo
  {
  }

  lemma {:induction false} MemoStays(states: seq<State>, steps: seq<Step>, i: nat, j: nat, r: RunId)
    requires IsRun(states, steps) && i <= j <= |steps| && AllRemember(states[i])
    ensures AllRemember(states[j])
    ensures Memo(states[i], r).Some? ==> Memo(states[j], r) == Memo(states[i], r)
    decreases j
  {
    if i < j {
      MemoStays(states, steps, i, j - 1, r);
      StepRemembers(states[j - 1], steps[j - 1]);
    }
  }

  /** However the runs interleave, all calls of one run that are not cut off
      give the same answer. */
  lemma RunAnswersOnce(states: seq<State>, steps: seq<Step>, i: nat, j: nat, r: RunId, first: Answer, second: Answer)
    requires IsRun(states, steps) && i <= j <= |steps| && states[0].runs == map[]
    requires PcOf(states[i], r) == Returned(first, false) && PcOf(states[j], r) == Returned(second, false)
    ensures first == second
  {
    MemoStays(states, steps, 0, i, r);
    MemoStays(states, steps, i, j, r);
  }

  /** While no row the runs may not use is stored, none is ever stored or
      forced out: for host names that is always so. */
  predicate NeverWide(s: State) {
    NothingForced(s) && (s.row.Some? ==> !s.row.value.wide)
  }

  lemma {:induction false} StaysNeverWide(states: seq<State>, steps: seq<Step>, i: nat)
    requires IsRun(states, steps) && i <= |steps| && NeverWide(states[0])
    ensures NeverWide(states[i])
  {
    if i > 0 {
      StaysNeverWide(states, steps, i - 1);
      NeverWideStep(states[i - 1], steps[i - 1]);
    }
  }

  lemma NeverWideStep(s: State, step: Step)
    requires NeverWide(s) && Enabled(s, step)
    ensures NeverWide(Apply(s, step))
  {
  }

  /** A row stored at any moment of a run that began without a too wide one
      settles the source for good, as long as the clock is not set back. */
  lemma {:induction false} StoredRowSettles(states: seq<State>, steps: seq<Step>, i: nat, j: nat)
    requires IsRun(states, steps) && i <= j <= |steps| && NeverWide(states[0])
    requires NonEmpty(states[i].row) && NotDatedAhead(states[i])
    requires forall k :: i <= k < j ==> ClockForward(states[k], steps[k])
    ensures Settled(states[j])
    decreases j
  {
    if i == j {
      StaysNeverWide(states, steps, i);
    } else {
      StoredRowSettles(states, steps, i, j - 1);
      StaysSettled(states[j - 1], steps[j - 1]);
    }
  }

  /** From the moment a non-empty row is stored, in a run that began without a
      too wide one: every later call answers completely and with something
      exactly when it was not canceled, its run had not remembered an empty or
      incomplete answer, and no read that would have found the row failed. */
  lemma AnsweredOnceStored(states: seq<State>, steps: seq<Step>, i: nat, k: nat, j: nat, r: RunId)
    requires CallSpan(states, steps, k, j, r) && i <= k && NeverWide(states[0])
    requires NonEmpty(states[i].row) && NotDatedAhead(states[i])
    requires forall n :: i <= n < k ==> ClockForward(states[n], steps[n])
    requires PcOf(states[j], r).Returned?
    ensures Good(states[j].runs[r].pc.answer) <==>
      MemoGood(states[k], r) && !states[j].runs[r].pc.canceled && !MissedRow(states, steps, k, j, r)
  {
    StoredRowSettles(states, steps, i, k);
    StoredSourceIsAnswered(states, steps, k, j, r);
  }

  /** The daily cleanup deletes the row exactly when it is dated ahead. */
  lemma CleanedExactly(s: State)
    ensures Apply(s, CleanUp).row == if s.row.Some? && s.row.value.fetchedAt > s.now then None else s.row
    ensures Apply(s, CleanUp).runs == s.runs && Apply(s, CleanUp).now == s.now
  {
  }

  // --- Too wide rows ---

  predicate GoodRow(s: State) {
    NonEmpty(s.row) && Usable(s.row)
  }

  /** A run is about to store an empty answer over whatever is stored. */
  predicate Forcing(s: State, r: RunId) {
    PcOf(s, r) == Store([], true)
  }

  /** The one step that empties a source with a usable row: the write of a
      forcing run. */
  lemma EmptiedExactly(s: State, step: Step)
    requires GoodRow(s) && NotDatedAhead(s) && Enabled(s, step)
    ensures !GoodRow(Apply(s, step)) <==> step.Write? && step.works && Forcing(s, step.r)
  {
  }

  /** So the next step can empty it exactly when some run forces. */
  lemma CanBeEmptiedExactly(s: State)
    requires GoodRow(s) && NotDatedAhead(s)
    ensures (exists step :: Enabled(s, step) && !GoodRow(Apply(s, step))) <==> exists r :: Forcing(s, r)
  {
    forall step | Enabled(s, step) && !GoodRow(Apply(s, step))
      ensures exists r :: Forcing(s, r)
    {
      EmptiedExactly(s, step);
      assert Forcing(s, step.r);
    }
    if r :| Forcing(s, r) {
      EmptiedExactly(s, Write(r, true));
    }
  }

  /** A run forces only after it found nothing while a too wide row was
      stored. */
  lemma {:induction false} ForcingSawWideRow(states: seq<State>, steps: seq<Step>, j: nat, r: RunId) returns (k: nat)
    requires IsRun(states, steps) && j <= |steps| && NothingForced(states[0]) && Forcing(states[j], r)
    ensures k < j && steps[k] == Consult(r, true)
    ensures NonEmpty(states[k].row) && states[k].row.value.wide && PcOf(states[k], r) == LookedUp(Answer([], true))
  {
    if steps[j - 1].Consult? && steps[j - 1].r == r {
      k := j - 1;
    } else {
      StillForcing(states[j - 1], steps[j - 1], r);
      k := ForcingSawWideRow(states, steps, j - 1, r);
    }
  }

  lemma StillForcing(s: State, step: Step, r: RunId)
    requires Enabled(s, step) && !(step.Consult? && step.r == r) && Forcing(Apply(s, step), r)
    ensures Forcing(s, r)
  {
  }

  /** Whenever a source with a usable row is emptied, the run that did it had
      consulted a too wide row that was replaced since. */
  lemma EmptiedAfterWideRow(states: seq<State>, steps: seq<Step>, j: nat) returns (k: nat)
    requires IsRun(states, steps) && j < |steps| && NothingForced(states[0])
    requires GoodRow(states[j]) && NotDatedAhead(states[j]) && !GoodRow(states[j + 1])
    ensures steps[j].Write? && k < j && steps[k] == Consult(steps[j].r, true)
    ensures NonEmpty(states[k].row) && states[k].row.value.wide && PcOf(states[k], steps[j].r) == LookedUp(Answer([], true))
  {
    EmptiedExactly(states[j], steps[j]);
    k := ForcingSawWideRow(states, steps, j, steps[j].r);
  }

  lemma Extend(states: seq<State>, steps: seq<Step>, step: Step) returns (states': seq<State>, steps': seq<Step>)
    requires IsRun(states, steps) && Enabled(states[|steps|], step)
    ensures IsRun(states', steps') && steps' == steps + [step]
    ensures states' == states + [Apply(states[|steps|], step)]
  {
    states', steps' := states + [Apply(states[|steps|], step)], steps + [step];
  }

  /** Two runs that looked the source up while a too wide row was stored. */
  lemma BothLookedUp() returns (states: seq<State>, steps: seq<Step>)
    ensures IsRun(states, steps)
    ensures states[0] == State(Some(Row([1, 2], true, 0)), 0, map[0 := Run(Idle, None), 1 := Run(Idle, None)])
    ensures states[|steps|] == State(Some(Row([1, 2], true, 0)), 0,
      map[0 := Run(LookedUp(Answer([], true)), None), 1 := Run(LookedUp(Answer([1], true)), None)])
  {
    states, steps := [State(Some(Row([1, 2], true, 0)), 0, map[0 := Run(Idle, None), 1 := Run(Idle, None)])], [];
    states, steps := Extend(states, steps, Begin(0));
    states, steps := Extend(states, steps, Read(0, true));
    states, steps := Extend(states, steps, Look(0, Answer([], true), false));
    states, steps := Extend(states, steps, Begin(1));
    states, steps := Extend(states, steps, Read(1, true));
    states, steps := Extend(states, steps, Look(1, Answer([1], true), false));
  }

  /** It does happen: two runs begin over a stored row that is too wide; the
      one that found nothing empties the good row the other one stored
      meanwhile. */
  lemma ForcedRowReplacesGoodOne() returns (states: seq<State>, steps: seq<Step>)
    ensures IsRun(states, steps) && |steps| > 0
    ensures states[0] == State(Some(Row([1, 2], true, 0)), 0, map[0 := Run(Idle, None), 1 := Run(Idle, None)])
    ensures GoodRow(states[|steps| - 1]) && !NonEmpty(states[|steps|].row)
  {
    states, steps := BothLookedUp();
    states, steps := Extend(states, steps, Consult(0, true));
    states, steps := Extend(states, steps, Consult(1, true));
    states, steps := Extend(states, steps, Write(1, true));
    states, steps := Extend(states, steps, Write(0, true));
  }
}
