/** The alert mails of the delivery probe (notifyProbeAlerts in
    app/modules/probe.go): which probe mails they report, how often, and what
    a marking that fails costs. */
module ProbeAlerts {
  import opened Options
  import opened ProbeMails
  import opened ProbeSorting
  import opened ProbeRecording
  import opened ProbeChecking

  predicate Reports(mail: AlertMail, id: RowId) {
    id in mail.delays || id in mail.failures
  }

  /** The later mail does not report again what the earlier one reported: not
      the same thing twice, and no delay after a failure. */
  predicate Apart(earlier: AlertMail, later: AlertMail, id: RowId) {
    && !(id in earlier.delays && id in later.delays)
    && !(id in earlier.failures && Reports(later, id))
  }

  predicate OneKind(mail: AlertMail, id: RowId) {
    !(id in mail.delays && id in mail.failures)
  }

  /** The probe mail is reported at most once as delayed and at most once as
      failed, and not as delayed after it was reported as failed. */
  ghost predicate OnceOnly(mails: seq<AlertMail>, id: RowId) {
    && (forall k :: 0 <= k < |mails| ==> OneKind(mails[k], id))
    && (forall k, l :: 0 <= k < l < |mails| ==> Apart(mails[k], mails[l], id))
  }

  /** The row carries the stamps of what the mail reported. */
  predicate Stamped(rows: Table, mail: AlertMail, id: RowId) {
    id in rows ==>
      && (Reports(mail, id) ==> rows[id].notified.delay.Some?)
      && (id in mail.failures ==> rows[id].notified.failure.Some?)
  }

  /** The mail at work: listed, or sent and not marked yet. */
  function AtWork(s: State): AlertMail {
    if s.pc.Alerting? || s.pc.Mailed? then AlertMail(s.pc.delays, s.pc.failures) else AlertMail({}, {})
  }

  /** The mails whose marking was tried. */
  function MarkedMails(s: State): seq<AlertMail> {
    if s.pc.Mailed? && s.mails != [] then s.mails[..|s.mails| - 1] else s.mails
  }

  ghost predicate LastAtWork(s: State) {
    s.pc.Mailed? ==> s.mails != [] && s.mails[|s.mails| - 1] == AtWork(s)
  }

  ghost predicate AlertsOk(s: State, id: RowId) {
    && LastAtWork(s)
    && (id in s.unmarked || Reports(AtWork(s), id) ==> id < s.next)
    && (forall m :: m in s.mails && Reports(m, id) ==> id < s.next)
    && OneKind(AtWork(s), id)
    && (id !in s.unmarked ==>
          && OnceOnly(s.mails, id)
          && (forall m :: m in MarkedMails(s) ==> Stamped(s.rows, m, id) && Apart(m, AtWork(s), id)))
  }

  /** The stamps of a row are changed by MarkAlert only. */
  lemma StampsKept(s: State, step: Step, id: RowId)
    requires Keyed(s.rows) && Enabled(s, step) && !(step.MarkAlert? && step.ok)
    requires id in Apply(s, step).rows
    ensures id in s.rows || (step.Send? && id == s.next)
    ensures id in s.rows && !(step.Send? && id == s.next) ==> Apply(s, step).rows[id].notified == s.rows[id].notified
  {
  }

  lemma StampedKept(s: State, step: Step, m: AlertMail, id: RowId)
    requires Keyed(s.rows) && Enabled(s, step) && !(step.MarkAlert? && step.ok)
    requires Stamped(s.rows, m, id) && (Reports(m, id) ==> id < s.next)
    ensures Stamped(Apply(s, step).rows, m, id)
  {
    if id in Apply(s, step).rows {
      StampsKept(s, step, id);
    }
  }

  lemma ListAlertsOk(s: State, step: Step, id: RowId)
    requires RowsOk(s) && AlertsOk(s, id) && step.ListAlerts? && Enabled(s, step)
    ensures AlertsOk(Apply(s, step), id)
  {
    var s' := Apply(s, step);
    assert MarkedMails(s') == MarkedMails(s) == s.mails;
    forall m | m in s.mails && Stamped(s.rows, m, id)
      ensures Apart(m, AtWork(s'), id)
    {
      assert Reports(AtWork(s'), id) ==> id in s.rows && (DelayDue(s.rows[id]) || FailureDue(s.rows[id]));
    }
  }

  lemma MarkStamps(rows: Table, delays: set<RowId>, failures: set<RowId>, at: int, id: RowId)
    requires Keyed(rows)
    ensures Stamped(Notified(rows, delays, failures, at), AlertMail(delays, failures), id)
    ensures forall m :: Stamped(rows, m, id) ==> Stamped(Notified(rows, delays, failures, at), m, id)
  {
  }

  lemma MarkAlertsOk(s: State, step: Step, id: RowId)
    requires RowsOk(s) && AlertsOk(s, id) && step.MarkAlert? && Enabled(s, step)
    ensures AlertsOk(Apply(s, step), id)
  {
    assert s.mails == MarkedMails(s) + [AtWork(s)];
    if step.ok {
      MarkStamps(s.rows, s.pc.delays, s.pc.failures, step.markedAt, id);
    }
  }

  lemma SendAlertOk(s: State, step: Step, id: RowId)
    requires RowsOk(s) && AlertsOk(s, id) && step.SendAlert? && Enabled(s, step)
    ensures AlertsOk(Apply(s, step), id)
  {
  }

  lemma OtherAlertsOk(s: State, step: Step, id: RowId)
    requires RowsOk(s) && AlertsOk(s, id) && Enabled(s, step)
    requires !step.ListAlerts? && !step.SendAlert? && !step.MarkAlert?
    ensures AlertsOk(Apply(s, step), id)
  {
    var s' := Apply(s, step);
    assert s'.mails == s.mails && s'.unmarked == s.unmarked && MarkedMails(s') == MarkedMails(s) && AtWork(s') == AtWork(s);
    forall m | m in MarkedMails(s) && id !in s.unmarked
      ensures Stamped(s'.rows, m, id)
    {
      assert m in s.mails;
      StampedKept(s, step, m, id);
    }
  }

  lemma {:induction false} ReachableAlertsOk(states: seq<State>, steps: seq<Step>, i: nat, id: RowId)
    requires IsRun(states, steps) && i <= |steps|
    ensures AlertsOk(states[i], id)
  {
    if i > 0 {
      var s, step := states[i - 1], steps[i - 1];
      ReachableAlertsOk(states, steps, i - 1, id);
      ReachableInv(states, steps, i - 1);
      if step.ListAlerts? {
        ListAlertsOk(s, step, id);
      } else if step.SendAlert? {
        SendAlertOk(s, step, id);
      } else if step.MarkAlert? {
        MarkAlertsOk(s, step, id);
      } else {
        OtherAlertsOk(s, step, id);
      }
    }
  }

  /** A probe mail no failed marking concerned is in at most one alert mail as
      a delay and in at most one as a failure, and in none as a delay after
      one as a failure, whatever happened to the other mails. */
  lemma EachMailReportedOnce(states: seq<State>, steps: seq<Step>, i: nat, id: RowId)
    requires IsRun(states, steps) && i <= |steps| && id !in states[i].unmarked
    ensures OnceOnly(states[i].mails, id)
  {
    ReachableAlertsOk(states, steps, i, id);
  }

  // --- After a marking that failed ---

  /** What a failure stamp says of the level, and what is listed of the stamps. */
  ghost predicate DueOk(s: State) {
    && (forall id :: id in s.rows && s.rows[id].notified.failure.Some? ==> s.rows[id].level.FailureLevel?)
    && (forall id :: id in AtWork(s).delays && id in s.rows ==> s.rows[id].notified == Stamps(None, None))
    && (forall id :: id in AtWork(s).failures && id in s.rows ==> s.rows[id].notified.failure.None? && s.rows[id].level.FailureLevel?)
    && (forall id: RowId :: Reports(AtWork(s), id) ==> id < s.next)
  }

  lemma StepDueOk(s: State, step: Step)
    requires ProbeChecking.Inv(s) && DueOk(s) && Enabled(s, step)
    ensures DueOk(Apply(s, step))
  {
    if step.MarkAlert? && step.ok {
      assert Apply(s, step).rows == Notified(s.rows, s.pc.delays, s.pc.failures, step.markedAt);
    } else if step.ListAlerts? {
      ListDueOk(s);
    } else {
      KeptDueOk(s, step);
    }
  }

  lemma ListDueOk(s: State)
    requires RowsOk(s) && DueOk(s) && s.pc.Idle?
    ensures DueOk(Apply(s, ListAlerts))
  {
    assert forall id :: id in s.rows ==> Mirrors(s.rows[id]);
  }

  lemma KeptDueOk(s: State, step: Step)
    requires ProbeChecking.Inv(s) && DueOk(s) && Enabled(s, step) && !(step.MarkAlert? && step.ok) && !step.ListAlerts?
    ensures DueOk(Apply(s, step))
  {
    var s' := Apply(s, step);
    WorkKept(s, step);
    forall id | id in s'.rows
      ensures SameStamps(s, s', id)
    {
      KeptStamps(s, step, id);
    }
    SameIsOk(s, s');
  }

  lemma SameIsOk(s: State, s': State)
    requires DueOk(s) && s.next <= s'.next && (AtWork(s') == AtWork(s) || AtWork(s') == AlertMail({}, {}))
    requires forall id :: id in s'.rows ==> SameStamps(s, s', id)
    ensures DueOk(s')
  {
    assert forall id: RowId :: id in AtWork(s).failures || id in AtWork(s).delays ==> Reports(AtWork(s), id);
  }

  /** The row is as it was for the alerts, or new. */
  predicate SameStamps(s: State, s': State, id: RowId) {
    id in s'.rows ==>
      if id in s.rows then s'.rows[id].notified == s.rows[id].notified && Rank(s.rows[id].level) <= Rank(s'.rows[id].level)
      else id == s.next && s'.rows[id].notified == Stamps(None, None)
  }

  lemma WorkKept(s: State, step: Step)
    requires Enabled(s, step) && !step.ListAlerts?
    ensures AtWork(Apply(s, step)) == AtWork(s) || AtWork(Apply(s, step)) == AlertMail({}, {})
    ensures s.next <= Apply(s, step).next
  {
  }

  lemma KeptStamps(s: State, step: Step, id: RowId)
    requires ProbeChecking.Inv(s) && Enabled(s, step) && !(step.MarkAlert? && step.ok)
    ensures SameStamps(s, Apply(s, step), id)
  {
    if id in Apply(s, step).rows {
      StampsKept(s, step, id);
      if id in s.rows {
        StepRow(s, step, id);
      }
    }
  }

  lemma {:induction false} ReachableDueOk(states: seq<State>, steps: seq<Step>, i: nat)
    requires IsRun(states, steps) && i <= |steps|
    ensures DueOk(states[i])
  {
    if i > 0 {
      ReachableDueOk(states, steps, i - 1);
      ReachableInv(states, steps, i - 1);
      StepDueOk(states[i - 1], steps[i - 1]);
    }
  }

  /** The stamps of a row stay until a marking goes through. */
  lemma StampsStay(states: seq<State>, steps: seq<Step>, i: nat, l: nat, id: RowId)
    requires IsRun(states, steps) && i <= l <= |steps| && id < states[i].next && id in states[l].rows
    requires forall n :: i <= n < l ==> !(steps[n].MarkAlert? && steps[n].ok)
    ensures id in states[i].rows && states[l].rows[id].notified == states[i].rows[id].notified
  {
    forall n: nat | i <= n < l
      ensures id < states[n].next && SameStamps(states[n], states[n + 1], id)
    {
      StaysRemoved(states, steps, i, n, id);
      ReachableInv(states, steps, n);
      KeptStamps(states[n], steps[n], id);
    }
    SameStampsChain(states, i, l, id);
  }

  lemma {:induction false} SameStampsChain(states: seq<State>, i: nat, l: nat, id: RowId)
    requires i <= l < |states| && id in states[l].rows
    requires forall n :: i <= n < l ==> id < states[n].next && SameStamps(states[n], states[n + 1], id)
    ensures id in states[i].rows && states[l].rows[id].notified == states[i].rows[id].notified
    decreases l
  {
    if i < l {
      assert SameStamps(states[l - 1], states[l - 1 + 1], id);
      SameStampsChain(states, i, l - 1, id);
    }
  }

  /** What is mailed is what was listed last. */
  lemma {:induction false} ListedStays(states: seq<State>, steps: seq<Step>, l: nat, j: nat)
    requires IsRun(states, steps) && l < j <= |steps| && states[j].pc.Alerting?
    requires forall n :: l < n < j ==> !steps[n].ListAlerts?
    ensures states[l + 1].pc == states[j].pc
  {
    if l + 1 < j {
      assert states[j - 1].pc == states[j].pc;
      ListedStays(states, steps, l, j - 1);
    }
  }

  /** An alert mail that is delivered (listed at step l, sent at step j)
      reports as delayed the mails that were delayed when it was listed and
      have no stamp of a delay, and as failed the missing and unsent ones with
      no stamp of a failure. */
  lemma DeliveredExactly(states: seq<State>, steps: seq<Step>, l: nat, j: nat, id: RowId)
    requires IsRun(states, steps) && l < j < |steps| && steps[l].ListAlerts? && steps[j] == SendAlert(true)
    requires forall n :: l < n < j ==> !steps[n].ListAlerts?
    ensures var mails, rows := states[j + 1].mails, states[l].rows;
      && mails != []
      && (id in mails[|mails| - 1].delays <==>
            id in rows && rows[id].status == Delayed && rows[id].notified.delay == None)
      && (id in mails[|mails| - 1].failures <==>
            id in rows && rows[id].status in {Failure, SendFailed} && rows[id].notified.failure == None)
  {
    ListedStays(states, steps, l, j);
  }

  /** After a marking that failed, the next alert mail that is delivered
      (listed at step l, sent at step j) reports each of its mails again,
      exactly when the mail is still delayed, failed or not sent by then. */
  lemma UnmarkedIsReportedAgain(states: seq<State>, steps: seq<Step>, i: nat, l: nat, j: nat, id: RowId)
    requires IsRun(states, steps) && i < l < j < |steps|
    requires steps[i].MarkAlert? && !steps[i].ok && Reports(AtWork(states[i]), id)
    requires steps[l].ListAlerts? && steps[j] == SendAlert(true)
    requires forall n :: i < n < j ==> !steps[n].MarkAlert?
    requires forall n :: l < n < j ==> !steps[n].ListAlerts?
    ensures var mails := states[j + 1].mails;
      mails != [] && (Reports(mails[|mails| - 1], id) <==>
                        id in states[l].rows && states[l].rows[id].status in {Delayed, Failure, SendFailed})
  {
    ReachableDueOk(states, steps, i);
    ReachableInv(states, steps, l);
    ReachableDueOk(states, steps, l);
    ListedStays(states, steps, l, j);
    if id in states[l].rows {
      StampsStay(states, steps, i, l, id);
      MailLife(states, steps, i, l, id);
      ListedExactly(states[i], states[l], id);
    }
  }

  lemma ListedExactly(before: State, s: State, id: RowId)
    requires DueOk(before) && Reports(AtWork(before), id) && id in before.rows
    requires id in s.rows && Mirrors(s.rows[id]) && s.rows[id].id == id
    requires s.rows[id].notified == before.rows[id].notified && Rank(before.rows[id].level) <= Rank(s.rows[id].level)
    ensures DelayDue(s.rows[id]) || FailureDue(s.rows[id]) <==> Resolvable(s.rows[id].status)
  {
  }

  /** A run in which the mail that could not be sent is reported again. */
  lemma FailedMarkingReportsAgain() returns (states: seq<State>, steps: seq<Step>)
    ensures IsRun(states, steps)
    ensures states[|steps|].unmarked == {0} && !OnceOnly(states[|steps|].mails, 0)
  {
    var row := Row(0, 1, "", 7, 0, SendFailed, FailureLevel, Seen(0, None, None, ""), None, Stamps(None, None), Resolution(None, "", ""));
    var rows: Table := map[0 := row];
    assert DelaysDue(rows) == {} && FailuresDue(rows) == {0};
    states, steps := [State(map[], 0, Idle, [], {})], [];
    states, steps := Extend(states, steps, Send(row));
    states, steps := Extend(states, steps, ListAlerts);
    states, steps := Extend(states, steps, SendAlert(true));
    states, steps := Extend(states, steps, MarkAlert(false, 1));
    states, steps := Extend(states, steps, ListAlerts);
    states, steps := Extend(states, steps, SendAlert(true));
    var mails := states[|steps|].mails;
    assert !Apart(mails[0], mails[1], 0);
  }
}
