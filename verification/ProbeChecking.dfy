/** The delivery probe as a transition system: sends, arrival checks step by
    step (list, read and sort, record, delete in batches, mark), the alert
    mails, and in between resolutions by hand, switch-offs and the removal of
    records (app/modules/probe.go, app/models/probe_mail.go). Sends, checks and
    their alert mails hold the resource key of the probe, so no two of them
    overlap. */
module ProbeChecking {
  import opened Options
  import opened ProbeMails
  import opened ProbeSorting
  import opened ProbeRecording

  /** Where the probe job at work is. */
  datatype Pc =
    | Idle
    | Listed(waiting: Table)
    | Sorted(waiting: Table, found: seq<Message>, recorded: map<Token, Row>, sort: ProbeSort, now: int)
    | Removing(found: seq<Message>, sort: ProbeSort, deleted: seq<Message>)
    | Alerting(delays: set<RowId>, failures: set<RowId>)
    | Mailed(delays: set<RowId>, failures: set<RowId>)

  datatype AlertMail = AlertMail(delays: set<RowId>, failures: set<RowId>)

  /** `mails` are the alert mails that reached a recipient, `unmarked` the
      probe mails in those whose marking failed. */
  datatype State = State(rows: Table, next: RowId, pc: Pc, mails: seq<AlertMail>, unmarked: set<RowId>)

  datatype Step =
    // the probe jobs
    | Send(row: Row)
    | ListWaiting
    | SortFound(found: seq<Message>, recorded: map<Token, Row>, tag: string, sort: ProbeSort, now: int)
    | Record(delay: int, failure: int)
    | GiveUp
    | DeleteBatch(batch: seq<Message>)
    | MarkDeleted(gone: set<Token>, deletedAt: int)
    | ListAlerts
    | SendAlert(delivered: bool)
    | MarkAlert(ok: bool, markedAt: int)
    // everybody else
    | Resolve(id: RowId, at: int, who: string, reason: string)
    | Close(mailboxes: set<nat>, closedAt: int)
    | Purge(ids: set<RowId>)

  /** A row as InsertProbeMail stores it: sent, or refused by the server. */
  predicate Fresh(row: Row) {
    && row.seen.arrivedAt.None? && row.seen.lastCheckedAt.None? && row.seen.delaySeconds == 0
    && row.deletedAt.None? && row.notified == Stamps(None, None) && row.resolved.at.None?
    && ((row.status.Pending? && row.level.NoLevel?) || (row.status.SendFailed? && row.level.FailureLevel?))
  }

  function WaitingRows(rows: Table): Table {
    map id | id in rows && Waiting(rows[id].status) :: rows[id]
  }

  /** What was read of the tokens found. */
  ghost predicate IsRecorded(recorded: map<Token, Row>, rows: Table, found: seq<Message>) {
    && (forall t :: t in recorded ==> recorded[t].id in rows && rows[recorded[t].id] == recorded[t] && recorded[t].token == t)
    && (forall id, m :: id in rows && m in found && rows[id].token == m.token ==> m.token in recorded)
  }

  function DelaysDue(rows: Table): set<RowId> {
    set id | id in rows && DelayDue(rows[id])
  }

  function FailuresDue(rows: Table): set<RowId> {
    set id | id in rows && FailureDue(rows[id])
  }

  /** The rows of the tokens are marked deleted. */
  function Marked(rows: Table, gone: set<Token>, at: int): Table {
    map id | id in rows :: if rows[id].token in gone then rows[id].(deletedAt := Some(at)) else rows[id]
  }

  function Notified(rows: Table, delays: set<RowId>, failures: set<RowId>, at: int): Table {
    map id | id in rows :: NotifiedRow(rows[id], delays, failures, at)
  }

  function Closed(rows: Table, mailboxes: set<nat>, at: int): Table {
    map id | id in rows :: if rows[id].mailbox in mailboxes then ClosedRow(rows[id], at) else rows[id]
  }

  /** The tokens DeletedOf reports. */
  ghost function Gone(sort: ProbeSort, deleted: seq<Message>): set<Token> {
    set t | t in sort.verified.Values && Left(sort.verified, t, deleted) == {}
  }

  ghost predicate Enabled(s: State, step: Step) {
    match step
    case Send(row) => s.pc.Idle? && row.id == s.next && Fresh(row) && forall id :: id in s.rows ==> s.rows[id].token != row.token
    case ListWaiting => s.pc.Idle?
    case SortFound(found, recorded, tag, sort, now) =>
      s.pc.Listed? && DistinctUids(found) && IsRecorded(recorded, s.rows, found) && IsSort(sort, found, recorded, tag, now)
    case Record(_, _) => s.pc.Sorted?
    case GiveUp => s.pc.Listed? || s.pc.Sorted?
    case DeleteBatch(batch) =>
      s.pc.Removing? && forall m :: m in batch ==> m in s.pc.found && m.uid in s.pc.sort.remove
    case MarkDeleted(gone, _) => s.pc.Removing? && gone == Gone(s.pc.sort, s.pc.deleted)
    case ListAlerts => s.pc.Idle?
    case SendAlert(_) => s.pc.Alerting?
    case MarkAlert(_, _) => s.pc.Mailed?
    case Resolve(id, _, _, _) => id in s.rows
    case Close(_, _) => true
    case Purge(_) => true
  }

  function Apply(s: State, step: Step): State {
    match step
    case Send(row) => s.(rows := s.rows[row.id := row], next := s.next + 1)
    case ListWaiting => s.(pc := Listed(WaitingRows(s.rows)))
    case SortFound(found, recorded, _, sort, now) =>
      if s.pc.Listed? then s.(pc := Sorted(s.pc.waiting, found, recorded, sort, now)) else s
    case Record(delay, failure) =>
      if s.pc.Sorted? then
        s.(rows := TableAfterCheck(s.rows, s.pc.waiting, s.pc.recorded, s.pc.sort, s.pc.now, delay, failure),
           pc := Removing(s.pc.found, s.pc.sort, []))
      else s
    case GiveUp => s.(pc := Idle)
    case DeleteBatch(batch) => if s.pc.Removing? then s.(pc := s.pc.(deleted := s.pc.deleted + batch)) else s
    case MarkDeleted(gone, deletedAt) => s.(rows := Marked(s.rows, gone, deletedAt), pc := Idle)
    case ListAlerts => s.(pc := Alerting(DelaysDue(s.rows), FailuresDue(s.rows)))
    case SendAlert(delivered) =>
      if s.pc.Alerting? && delivered then
        s.(mails := s.mails + [AlertMail(s.pc.delays, s.pc.failures)], pc := Mailed(s.pc.delays, s.pc.failures))
      else s.(pc := Idle)
    case MarkAlert(ok, markedAt) =>
      if !s.pc.Mailed? then s
      else if ok then s.(rows := Notified(s.rows, s.pc.delays, s.pc.failures, markedAt), pc := Idle)
      else s.(pc := Idle, unmarked := s.unmarked + s.pc.delays + s.pc.failures)
    case Resolve(id, at, who, reason) =>
      if id in s.rows then s.(rows := s.rows[id := ResolvedRow(s.rows[id], at, who, reason)]) else s
    case Close(mailboxes, closedAt) => s.(rows := Closed(s.rows, mailboxes, closedAt))
    case Purge(ids) => s.(rows := s.rows - ids)
  }

  predicate Init(s: State) {
    s.rows == map[] && s.pc.Idle? && s.mails == [] && s.unmarked == {}
  }

  ghost predicate IsRun(states: seq<State>, steps: seq<Step>) {
    && |states| == |steps| + 1
    && Init(states[0])
    && forall i :: 0 <= i < |steps| ==> Enabled(states[i], steps[i]) && states[i + 1] == Apply(states[i], steps[i])
  }

  // --- What every step keeps ---

  /** The rows: status and level in step, tokens and ids of their own. */
  ghost predicate RowsOk(s: State) {
    && Keyed(s.rows)
    && (forall id :: id in s.rows ==> id < s.next && Mirrors(s.rows[id]))
    && (forall a, b :: a in s.rows && b in s.rows && s.rows[a].token == s.rows[b].token ==> a == b)
  }

  /** The row a while after it was read by a check: at most closed by hand or
      by the system. */
  predicate Behind(read: Row, row: Row) {
    && row.id == read.id && row.token == read.token && row.sentAt == read.sentAt && row.level == read.level
    && (row.status == read.status || (row.status.Resolved? && Open(read.status)))
  }

  ghost predicate ReadAs(read: Table, rows: Table) {
    && Keyed(read)
    && (forall id :: id in read && id in rows ==> Behind(read[id], rows[id]))
  }

  /** Every waiting row is among the listed ones. */
  ghost predicate ListOk(s: State) {
    s.pc.Listed? || s.pc.Sorted? ==>
      && ReadAs(s.pc.waiting, s.rows)
      && (forall id :: id in s.pc.waiting ==> Waiting(s.pc.waiting[id].status) && id < s.next)
      && (forall id :: id in s.rows && Waiting(s.rows[id].status) ==> id in s.pc.waiting)
  }

  ghost predicate RecordedOk(s: State) {
    s.pc.Sorted? ==>
      && (forall t :: t in s.pc.recorded ==> s.pc.recorded[t].token == t && s.pc.recorded[t].id < s.next)
      && (forall t, u :: t in s.pc.recorded && u in s.pc.recorded && s.pc.recorded[t].id == s.pc.recorded[u].id ==> t == u)
      && (forall t :: t in s.pc.recorded && s.pc.recorded[t].id in s.rows ==> Behind(s.pc.recorded[t], s.rows[s.pc.recorded[t].id]))
      && (forall t :: t in s.pc.recorded && s.pc.recorded[t].status.SendFailed? ==> s.pc.recorded[t].id !in s.pc.waiting)
      && (forall id, m :: id in s.rows && m in s.pc.found && s.rows[id].token == m.token ==>
            m.token in s.pc.recorded && s.pc.recorded[m.token].id == id)
  }

  ghost predicate SortOk(s: State) {
    s.pc.Sorted? ==> DistinctUids(s.pc.found) && exists tag :: IsSort(s.pc.sort, s.pc.found, s.pc.recorded, tag, s.pc.now)
  }

  /** No open record has the token of the message. */
  ghost predicate NoOpenRecord(rows: Table, token: Token) {
    forall id :: id in rows && rows[id].token == token ==> !Open(rows[id].status)
  }

  ghost predicate RemovalOk(s: State) {
    s.pc.Removing? ==> forall m :: m in s.pc.found && m.uid in s.pc.sort.remove ==> NoOpenRecord(s.rows, m.token)
  }

  /** The steps that touch single rows: what they may do to one. */
  predicate RowStep(row: Row, after: Row) {
    && after.id == row.id && after.token == row.token && after.sentAt == row.sentAt && after.mailbox == row.mailbox
    && Rank(row.level) <= Rank(after.level)
    && (Mirrors(row) ==> Mirrors(after))
    && (Open(after.status) ==> Open(row.status))
    && (!Open(row.status) ==> after.status == row.status && after.level == row.level)
  }

  lemma RecordRow(row: Row, waiting: Table, recorded: map<Token, Row>, s: ProbeSort, now: int, delay: int, failure: int)
    requires row.id in waiting ==> Behind(waiting[row.id], row)
    requires Late(row, recorded, s) ==> Behind(recorded[row.token], row)
    ensures RowStep(row, AfterCheck(row, waiting, recorded, s, now, delay, failure))
  {
  }

  /** Whatever a step does to a row, the level never falls, status and level
      stay in step, and a closed mail stays as it was closed. */
  lemma StepRow(s: State, step: Step, id: RowId)
    requires RowsOk(s) && ListOk(s) && RecordedOk(s) && Enabled(s, step)
    requires id in s.rows && id in Apply(s, step).rows
    ensures RowStep(s.rows[id], Apply(s, step).rows[id])
  {
    if step.Record? {
      RecordRow(s.rows[id], s.pc.waiting, s.pc.recorded, s.pc.sort, s.pc.now, step.delay, step.failure);
    }
  }

  /** Rows are only added by a send and removed by a purge. */
  lemma StepKeys(s: State, step: Step)
    requires Keyed(s.rows) && Enabled(s, step)
    ensures var after := Apply(s, step).rows;
      && (step.Send? ==> after.Keys == s.rows.Keys + {s.next})
      && (step.Purge? ==> after.Keys == s.rows.Keys - step.ids)
      && (!step.Send? && !step.Purge? ==> after.Keys == s.rows.Keys)
  {
  }

  lemma StepRowsOk(s: State, step: Step)
    requires RowsOk(s) && ListOk(s) && RecordedOk(s) && Enabled(s, step)
    ensures RowsOk(Apply(s, step))
  {
    StepKeys(s, step);
    forall id | id in s.rows && id in Apply(s, step).rows
      ensures RowStep(s.rows[id], Apply(s, step).rows[id])
    {
      StepRow(s, step, id);
    }
  }

  /** The steps possible while a check is between its listing and its record
      close rows or remove them. */
  predicate Beside(step: Step) {
    step.Resolve? || step.Close? || step.Purge?
  }

  /** After closing or removing rows. */
  ghost predicate Narrowed(before: Table, after: Table) {
    forall id :: id in after ==> id in before && Behind(before[id], after[id])
  }

  lemma BesideNarrows(s: State, step: Step)
    requires Keyed(s.rows) && Beside(step) && Enabled(s, step)
    ensures Narrowed(s.rows, Apply(s, step).rows)
    ensures Apply(s, step).pc == s.pc && Apply(s, step).next == s.next
  {
  }

  lemma NarrowedListOk(s: State, s': State)
    requires ListOk(s) && Narrowed(s.rows, s'.rows) && s'.pc == s.pc && s'.next == s.next
    ensures ListOk(s')
  {
  }

  lemma NarrowedRecordedOk(s: State, s': State)
    requires RecordedOk(s) && Narrowed(s.rows, s'.rows) && s'.pc == s.pc && s'.next == s.next
    ensures RecordedOk(s')
  {
  }

  lemma StepListOk(s: State, step: Step)
    requires RowsOk(s) && ListOk(s) && Enabled(s, step)
    ensures ListOk(Apply(s, step))
  {
    if Beside(step) {
      BesideNarrows(s, step);
      NarrowedListOk(s, Apply(s, step));
    }
  }

  lemma StepRecordedOk(s: State, step: Step)
    requires RowsOk(s) && ListOk(s) && RecordedOk(s) && Enabled(s, step)
    ensures RecordedOk(Apply(s, step))
  {
    if Beside(step) {
      BesideNarrows(s, step);
      NarrowedRecordedOk(s, Apply(s, step));
    } else if step.SortFound? {
      SortFoundRecordedOk(s, step);
    }
  }

  lemma SortFoundRecordedOk(s: State, step: Step)
    requires RowsOk(s) && ListOk(s) && step.SortFound? && Enabled(s, step)
    ensures RecordedOk(Apply(s, step))
  {
  }

  lemma StepSortOk(s: State, step: Step)
    requires SortOk(s) && Enabled(s, step)
    ensures SortOk(Apply(s, step))
  {
  }

  /** A verified message of a token: its mail arrived. */
  lemma VerifiedArrives(sort: ProbeSort, found: seq<Message>, recorded: map<Token, Row>, tag: string, now: int, m: Message)
    requires IsSort(sort, found, recorded, tag, now) && m in found && Verified(m, recorded)
    ensures m.token in sort.arrivals
  {
  }

  /** A message in the removal set is verified or a leftover. */
  lemma RemovedIsJudged(sort: ProbeSort, found: seq<Message>, recorded: map<Token, Row>, tag: string, now: int, m: Message)
    requires IsSort(sort, found, recorded, tag, now) && DistinctUids(found) && m in found && m.uid in sort.remove
    ensures Verified(m, recorded) || Leftover(m, recorded, tag, now)
  {
  }

  /** Recording closes a row whose mail arrived; a row read as closed is
      closed still. */
  lemma RecordClosesRow(row: Row, waiting: Table, recorded: map<Token, Row>, sort: ProbeSort, now: int, delay: int, failure: int)
    requires row.token in recorded && recorded[row.token].id == row.id && Behind(recorded[row.token], row)
    requires row.id in waiting ==> Behind(waiting[row.id], row)
    requires Waiting(row.status) ==> row.id in waiting
    requires row.token in sort.arrivals || !Open(recorded[row.token].status)
    ensures !Open(AfterCheck(row, waiting, recorded, sort, now, delay, failure).status)
  {
  }

  /** Recording closes the record of every message about to be removed. */
  lemma RecordCloses(s: State, step: Step, m: Message, id: RowId)
    requires Keyed(s.rows) && ListOk(s) && RecordedOk(s) && SortOk(s) && step.Record? && Enabled(s, step)
    requires m in s.pc.found && m.uid in s.pc.sort.remove
    requires id in s.rows && s.rows[id].token == m.token
    ensures !Open(AfterCheck(s.rows[id], s.pc.waiting, s.pc.recorded, s.pc.sort, s.pc.now, step.delay, step.failure).status)
  {
    var tag :| IsSort(s.pc.sort, s.pc.found, s.pc.recorded, tag, s.pc.now);
    RemovedIsJudged(s.pc.sort, s.pc.found, s.pc.recorded, tag, s.pc.now, m);
    if Verified(m, s.pc.recorded) {
      VerifiedArrives(s.pc.sort, s.pc.found, s.pc.recorded, tag, s.pc.now, m);
    }
    RecordClosesRow(s.rows[id], s.pc.waiting, s.pc.recorded, s.pc.sort, s.pc.now, step.delay, step.failure);
  }

  lemma RecordKeepsTokens(s: State, step: Step)
    requires s.pc.Sorted? && step.Record?
    ensures var after := Apply(s, step).rows;
      && after.Keys == s.rows.Keys
      && (forall id :: id in after ==> after[id].token == s.rows[id].token)
      && (forall id :: id in after ==>
            after[id] == AfterCheck(s.rows[id], s.pc.waiting, s.pc.recorded, s.pc.sort, s.pc.now, step.delay, step.failure))
  {
  }

  lemma StepRemovalOk(s: State, step: Step)
    requires RowsOk(s) && ListOk(s) && RecordedOk(s) && SortOk(s) && RemovalOk(s) && Enabled(s, step)
    ensures RemovalOk(Apply(s, step))
  {
    if step.Record? {
      forall m | m in s.pc.found && m.uid in s.pc.sort.remove
        ensures NoOpenRecord(Apply(s, step).rows, m.token)
      {
        forall id | id in s.rows && s.rows[id].token == m.token
          ensures !Open(AfterCheck(s.rows[id], s.pc.waiting, s.pc.recorded, s.pc.sort, s.pc.now, step.delay, step.failure).status)
        {
          RecordCloses(s, step, m, id);
        }
        RecordKeepsTokens(s, step);
      }
    } else if Beside(step) {
      BesideNarrows(s, step);
    }
  }

  ghost predicate Inv(s: State) {
    RowsOk(s) && ListOk(s) && RecordedOk(s) && SortOk(s) && RemovalOk(s)
  }

  lemma StepInv(s: State, step: Step)
    requires Inv(s) && Enabled(s, step)
    ensures Inv(Apply(s, step))
  {
    StepRowsOk(s, step);
    StepListOk(s, step);
    StepRecordedOk(s, step);
    StepSortOk(s, step);
    StepRemovalOk(s, step);
  }

  lemma {:induction false} ReachableInv(states: seq<State>, steps: seq<Step>, i: nat)
    requires IsRun(states, steps) && i <= |steps|
    ensures Inv(states[i])
  {
    if i > 0 {
      ReachableInv(states, steps, i - 1);
      StepInv(states[i - 1], steps[i - 1]);
    }
  }

  /** Whenever a check is about to record, what it holds meets what
      RecordProbeArrivals asks of its caller. */
  lemma RecordIsCallable(s: State, waiting: seq<Row>)
    requires Inv(s) && s.pc.Sorted? && Lists(waiting, s.pc.waiting)
    ensures Keyed(s.rows) && SameSent(s.rows, s.pc.waiting) && Reads(s.pc.recorded, s.rows, s.pc.waiting)
  {
  }

  // --- Main results ---

  /** In every run, whatever is resolved, switched off or removed in between: a
      message deleted from the probe server has, when it is deleted, no record
      or a closed one. */
  lemma NoOpenMailIsDeleted(states: seq<State>, steps: seq<Step>, i: nat, m: Message, id: RowId)
    requires IsRun(states, steps) && i < |steps| && steps[i].DeleteBatch? && m in steps[i].batch
    requires id in states[i].rows && states[i].rows[id].token == m.token
    ensures states[i].rows[id].status in {Arrived, Recovered, Resolved}
  {
    ReachableInv(states, steps, i);
    assert NoOpenRecord(states[i].rows, m.token);
  }

  /** Over a whole run the level of a mail never falls, and once it is closed
      its status and level never change; ids are not used again. */
  lemma {:induction false} MailLife(states: seq<State>, steps: seq<Step>, i: nat, j: nat, id: RowId)
    requires IsRun(states, steps) && i <= j <= |steps|
    requires id in states[i].rows && id in states[j].rows
    ensures Mirrors(states[i].rows[id]) && Mirrors(states[j].rows[id])
    ensures RowStep(states[i].rows[id], states[j].rows[id])
    decreases j
  {
    ReachableInv(states, steps, i);
    ReachableInv(states, steps, j);
    if i < j {
      ReachableInv(states, steps, j - 1);
      StepKeys(states[j - 1], steps[j - 1]);
      StaysRemoved(states, steps, i, j - 1, id);
      MailLife(states, steps, i, j - 1, id);
      StepRow(states[j - 1], steps[j - 1], id);
    }
  }

  /** What a step may leave of a row: resolving by hand takes one delayed,
      missing or unsent mail, switching off the open ones of the mailboxes, a
      purge removes the rows it names; a check touches what it found only, a
      marking its stamp only, and the rest changes no row. */
  ghost predicate Leaves(row: Row, step: Step, id: RowId, after: Table) {
    match step
    case Resolve(chosen, at, who, reason) =>
      id in after && after[id] == (if id == chosen && row.status in {Delayed, Failure, SendFailed}
                                   then row.(status := Resolved, resolved := Resolution(Some(at), who, reason)) else row)
    case Close(mailboxes, at) =>
      id in after && after[id] == (if row.mailbox in mailboxes && row.status in {Pending, Delayed, Failure, SendFailed}
                                   then row.(status := Resolved, resolved := Resolution(Some(at), "", "probe_disabled")) else row)
    case Purge(ids) => if id in ids then id !in after else id in after && after[id] == row
    case Record(_, _) => id in after && after[id] == row.(status := after[id].status, level := after[id].level, seen := after[id].seen)
    case MarkDeleted(_, _) => id in after && after[id] == row.(deletedAt := after[id].deletedAt)
    case MarkAlert(_, _) => id in after && after[id] == row.(notified := after[id].notified)
    case _ => id in after && after[id] == row
  }

  lemma EveryRowLeft(states: seq<State>, steps: seq<Step>, i: nat, id: RowId)
    requires IsRun(states, steps) && i < |steps| && id in states[i].rows
    ensures Leaves(states[i].rows[id], steps[i], id, states[i + 1].rows)
  {
    ReachableInv(states, steps, i);
    StepLeaves(states[i], steps[i], id);
  }

  lemma StepLeaves(s: State, step: Step, id: RowId)
    requires RowsOk(s) && Enabled(s, step) && id in s.rows
    ensures Leaves(s.rows[id], step, id, Apply(s, step).rows)
  {
  }

  /** A job that gives up, ends its check, or ends its alert mail, delivered
      or not, leaves the probe to the next one. */
  lemma JobEnds(states: seq<State>, steps: seq<Step>, i: nat)
    requires IsRun(states, steps) && i < |steps|
    requires steps[i].GiveUp? || steps[i].MarkDeleted? || steps[i].MarkAlert? || steps[i] == SendAlert(false)
    ensures states[i + 1].pc.Idle? && states[i + 1].mails == states[i].mails
  {
  }

  /** A row is marked deleted only while every verified copy of its mail that
      was found has been deleted from the server, and then it is. */
  lemma MarkedDeletedExactly(states: seq<State>, steps: seq<Step>, i: nat, id: RowId)
    requires IsRun(states, steps) && i < |steps| && id in states[i].rows && id in states[i + 1].rows
    ensures var row, pc := states[i].rows[id], states[i].pc;
      && (states[i + 1].rows[id].deletedAt != row.deletedAt ==> steps[i].MarkDeleted?)
      && (steps[i].MarkDeleted? ==>
            states[i + 1].rows[id].deletedAt ==
              if row.token in pc.sort.verified.Values
                 && forall u :: u in pc.sort.verified && pc.sort.verified[u] == row.token ==> exists m :: m in pc.deleted && m.uid == u
              then Some(steps[i].deletedAt) else row.deletedAt)
  {
    ReachableInv(states, steps, i);
    if steps[i].MarkDeleted? {
      var pc, row := states[i].pc, states[i].rows[id];
      assert row.token in steps[i].gone <==> row.token in pc.sort.verified.Values && Left(pc.sort.verified, row.token, pc.deleted) == {};
      NoneLeft(pc.sort.verified, row.token, pc.deleted);
    } else {
      DeletedKept(states[i], steps[i], id);
    }
  }

  lemma NoneLeft(verified: map<Uid, Token>, token: Token, deleted: seq<Message>)
    ensures Left(verified, token, deleted) == {} <==>
      forall u :: u in verified && verified[u] == token ==> exists m :: m in deleted && m.uid == u
  {
    if Left(verified, token, deleted) == {} {
      forall u | u in verified && verified[u] == token
        ensures exists m :: m in deleted && m.uid == u
      {
        assert u !in Left(verified, token, deleted);
      }
    }
  }

  lemma DeletedKept(s: State, step: Step, id: RowId)
    requires Inv(s) && Enabled(s, step) && !step.MarkDeleted? && id in s.rows && id in Apply(s, step).rows
    ensures Apply(s, step).rows[id].deletedAt == s.rows[id].deletedAt
  {
  }

  /** When the mail of the row was found, or else was missing still, at the
      record of a check. */
  function FoundAt(sort: ProbeSort, now: int, token: Token): int {
    if token in sort.arrivals then sort.arrivals[token] else now
  }

  /** Recording raises the level of a row only as far as its time earned. */
  lemma RecordEarns(row: Row, waiting: Table, recorded: map<Token, Row>, sort: ProbeSort, now: int, delay: int, failure: int)
    requires row.id in waiting ==> Behind(waiting[row.id], row)
    requires Late(row, recorded, sort) ==> Behind(recorded[row.token], row)
    ensures var after := AfterCheck(row, waiting, recorded, sort, now, delay, failure);
      var took := FoundAt(sort, now, row.token) - row.sentAt;
      && (after.level == FailureLevel ==> row.level == FailureLevel || failure <= 0 || took >= failure)
      && (after.level == DelayedLevel ==> row.level == DelayedLevel || delay <= 0 || took >= delay)
  {
  }

  /** The step records a check that found the mail, or found it missing, at
      least the threshold of the level after its send. */
  predicate Earned(s: State, step: Step, id: RowId, level: Level) {
    && step.Record? && s.pc.Sorted? && id in s.rows
    && var took := FoundAt(s.pc.sort, s.pc.now, s.rows[id].token) - s.rows[id].sentAt;
      match level
      case NoLevel => false
      case DelayedLevel => step.delay <= 0 || took >= step.delay
      case FailureLevel => step.failure <= 0 || took >= step.failure
  }

  lemma StepEarns(s: State, step: Step, id: RowId)
    requires RowsOk(s) && ListOk(s) && RecordedOk(s) && Enabled(s, step)
    requires id in s.rows && id in Apply(s, step).rows
    ensures Apply(s, step).rows[id].level == s.rows[id].level || Earned(s, step, id, Apply(s, step).rows[id].level)
  {
    StepRow(s, step, id);
    if step.Record? {
      RecordEarns(s.rows[id], s.pc.waiting, s.pc.recorded, s.pc.sort, s.pc.now, step.delay, step.failure);
    }
  }

  /** Over a whole run a mail changes its level only at the record of a check
      that found it missing, or arrived, at least the threshold of the new
      level after its send. */
  lemma LevelIsEarned(states: seq<State>, steps: seq<Step>, i: nat, j: nat, id: RowId) returns (n: nat)
    requires IsRun(states, steps) && i <= j <= |steps|
    requires id in states[i].rows && id in states[j].rows && states[i].rows[id].level != states[j].rows[id].level
    ensures i <= n < j && Earned(states[n], steps[n], id, states[j].rows[id].level)
  {
    forall m: nat | i <= m < j
      ensures EarnedFrom(states, steps, m, id)
    {
      StaysThere(states, steps, i, m, j, id);
      ReachableInv(states, steps, m);
      StepEarns(states[m], steps[m], id);
    }
    n := LastChange(states, steps, i, j, id);
  }

  ghost predicate EarnedFrom(states: seq<State>, steps: seq<Step>, m: nat, id: RowId) {
    && m < |steps| < |states| && id in states[m].rows && id in states[m + 1].rows
    && (states[m + 1].rows[id].level == states[m].rows[id].level || Earned(states[m], steps[m], id, states[m + 1].rows[id].level))
  }

  lemma {:induction false} LastChange(states: seq<State>, steps: seq<Step>, i: nat, j: nat, id: RowId) returns (n: nat)
    requires i < j < |states| && forall m: nat :: i <= m < j ==> EarnedFrom(states, steps, m, id)
    requires id in states[i].rows && id in states[j].rows && states[i].rows[id].level != states[j].rows[id].level
    ensures i <= n < j < |states| && n < |steps| && Earned(states[n], steps[n], id, states[j].rows[id].level)
    decreases j
  {
    assert EarnedFrom(states, steps, j - 1, id);
    if states[j - 1].rows[id].level != states[j].rows[id].level {
      n := j - 1;
    } else {
      n := LastChange(states, steps, i, j - 1, id);
    }
  }

  /** A row there at two states is there in between. */
  lemma {:induction false} StaysThere(states: seq<State>, steps: seq<Step>, i: nat, m: nat, j: nat, id: RowId)
    requires IsRun(states, steps) && i <= m < j <= |steps| && id in states[i].rows && id in states[j].rows
    ensures id in states[m].rows && id in states[m + 1].rows
    decreases j
  {
    ReachableInv(states, steps, i);
    ReachableInv(states, steps, j - 1);
    StaysRemoved(states, steps, i, j - 1, id);
    StepKeys(states[j - 1], steps[j - 1]);
    if m < j - 1 {
      StaysThere(states, steps, i, m, j - 1, id);
    }
  }

  /** An id below the next one that is gone stays gone. */
  lemma {:induction false} StaysRemoved(states: seq<State>, steps: seq<Step>, i: nat, j: nat, id: RowId)
    requires IsRun(states, steps) && i <= j <= |steps| && id < states[i].next
    ensures id < states[j].next
    decreases j
  {
    if i < j {
      StaysRemoved(states, steps, i, j - 1, id);
    }
  }

  lemma Extend(states: seq<State>, steps: seq<Step>, step: Step) returns (states': seq<State>, steps': seq<Step>)
    requires IsRun(states, steps) && Enabled(states[|steps|], step)
    ensures IsRun(states', steps') && |steps'| == |steps| + 1
    ensures states'[|steps'|] == Apply(states[|steps|], step)
  {
    states', steps' := states + [Apply(states[|steps|], step)], steps + [step];
  }

  /** The run of a check up to its record. */
  lemma SortedRun(row: Row, m: Message, sort: ProbeSort, now: int) returns (states: seq<State>, steps: seq<Step>)
    requires Fresh(row) && row.status.Pending? && row.id == 0 && m.token == row.token
    requires IsSort(sort, [m], map[row.token := row], "", now)
    ensures IsRun(states, steps)
    ensures states[|steps|] == State(map[0 := row], 1, Sorted(map[0 := row], [m], map[row.token := row], sort, now), [], {})
  {
    states, steps := [State(map[], 0, Idle, [], {})], [];
    states, steps := Extend(states, steps, Send(row));
    assert WaitingRows(map[0 := row]) == map[0 := row];
    states, steps := Extend(states, steps, ListWaiting);
    states, steps := Extend(states, steps, SortFound([m], map[row.token := row], "", sort, now));
  }

  /** A whole check: a mail that took twenty minutes, with thresholds of a
      quarter of an hour and an hour, is recovered at the delayed level and
      marked deleted once its message is gone. */
  lemma LateMailRun() returns (states: seq<State>, steps: seq<Step>)
    ensures IsRun(states, steps) && states[|steps|].pc.Idle? && states[|steps|].rows.Keys == {0}
    ensures var minute, row := 60_000_000_000, states[|steps|].rows[0];
      && row.status == Recovered && row.level == DelayedLevel
      && row.seen == Seen(1200, Some(20 * minute), Some(21 * minute), "")
      && row.deletedAt == Some(22 * minute)
  {
    var minute := 60_000_000_000;
    var row := Row(0, 1, "", 7, 0, Pending, NoLevel, Seen(0, None, None, ""), None, Stamps(None, None), Resolution(None, "", ""));
    var m := Message(3, 7, "", "", Some(20 * minute));
    var sort := ProbeSort(map[7 := 20 * minute], {3}, map[3 := 7], {}, map[]);
    OneVerified(m, map[7 := row], sort, 21 * minute);
    states, steps := SortedRun(row, m, sort, 21 * minute);
    var checked := row.(status := Recovered, level := DelayedLevel, seen := Seen(1200, Some(20 * minute), Some(21 * minute), ""));
    assert TableAfterCheck(map[0 := row], map[0 := row], map[7 := row], sort, 21 * minute, 15 * minute, 60 * minute) == map[0 := checked];
    states, steps := Extend(states, steps, Record(15 * minute, 60 * minute));
    states, steps := Extend(states, steps, DeleteBatch([m]));
    AllGone(m, sort);
    states, steps := Extend(states, steps, MarkDeleted({7}, 22 * minute));
  }

  lemma AllGone(m: Message, sort: ProbeSort)
    requires sort.verified == map[m.uid := m.token]
    ensures Gone(sort, [] + [m]) == {m.token}
  {
    assert m.uid in sort.verified && sort.verified[m.uid] == m.token;
    assert Left(sort.verified, m.token, [] + [m]) == {};
  }

  lemma OneVerified(m: Message, recorded: map<Token, Row>, sort: ProbeSort, now: int)
    requires Verified(m, recorded) && m.receivedAt.Some?
    requires sort == ProbeSort(map[m.token := m.receivedAt.value], {m.uid}, map[m.uid := m.token], {}, map[])
    ensures IsSort(sort, [m], recorded, "", now)
  {
    assert VerifiedIn([m], recorded) == {m};
    assert LeftoverIn([m], recorded, "", now) == {};
    assert MismatchedIn([m], recorded) == {};
  }
}
