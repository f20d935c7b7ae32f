/** The probe mails and the guarded statements that change their rows
    (app/models/probe_mail.go, app/modules/probe.go). Times are nanoseconds. */
module ProbeMails {
  import opened Numbers
  import opened Options
  import opened ProbeTiming

  type RowId = nat
  /** 16 hexadecimal digits. */
  type Token = nat

  datatype Status = Pending | Delayed | Failure | SendFailed | Arrived | Recovered | Resolved

  datatype Level = NoLevel | DelayedLevel | FailureLevel

  /** What the checks found. */
  datatype Seen = Seen(delaySeconds: int, arrivedAt: Option<int>, lastCheckedAt: Option<int>, errorMessage: string)

  /** When the delay and the failure were mailed. */
  datatype Stamps = Stamps(delay: Option<int>, failure: Option<int>)

  datatype Resolution = Resolution(at: Option<int>, who: string, reason: string)

  datatype Row = Row(
    id: RowId,
    mailbox: nat,
    address: string,
    token: Token,
    sentAt: int,
    status: Status,
    level: Level,
    seen: Seen,
    deletedAt: Option<int>,
    notified: Stamps,
    resolved: Resolution)

  type Table = map<RowId, Row>

  predicate Waiting(status: Status) {
    status.Pending? || status.Delayed? || status.Failure?
  }

  predicate Open(status: Status) {
    Waiting(status) || status.SendFailed?
  }

  predicate Resolvable(status: Status) {
    status.Delayed? || status.Failure? || status.SendFailed?
  }

  function Rank(level: Level): nat {
    match level
    case NoLevel => 0
    case DelayedLevel => 1
    case FailureLevel => 2
  }

  function ProbeLevelFor(elapsed: int, delay: int, failure: int): Level {
    if elapsed >= failure then FailureLevel
    else if elapsed >= delay then DelayedLevel
    else NoLevel
  }

  function Worse(a: Level, b: Level): Level {
    if Rank(b) > Rank(a) then b else a
  }

  /** What the status says about the level. */
  predicate Mirrors(row: Row) {
    match row.status
    case Pending => row.level.NoLevel?
    case Delayed => row.level.DelayedLevel?
    case Failure => row.level.FailureLevel?
    case SendFailed => row.level.FailureLevel?
    case Arrived => row.level.NoLevel?
    case Recovered => !row.level.NoLevel?
    case Resolved => true
  }

  // --- One check of one mail ---

  /** How long the mail took, or has been missing. */
  function Took(p: Row, arrivedAt: Option<int>, now: int): int {
    Max(arrivedAt.GetOr(now) - p.sentAt, 0)
  }

  function StatusFor(level: Level, arrived: bool): Status {
    if arrived then (if level.NoLevel? then Arrived else Recovered)
    else match level
      case FailureLevel => Failure
      case DelayedLevel => Delayed
      case NoLevel => Pending
  }

  function Checked(p: Row, arrivedAt: Option<int>, now: int, delay: int, failure: int): Row {
    var level := Worse(p.level, ProbeLevelFor(Took(p, arrivedAt, now), delay, failure));
    p.(status := StatusFor(level, arrivedAt.Some?),
       level := level,
       seen := Seen(Took(p, arrivedAt, now) / SECOND, if arrivedAt.Some? then arrivedAt else p.seen.arrivedAt, Some(now), p.seen.errorMessage))
  }

  /** What a check makes of a mail, judged by when it was sent, when it
      arrived, and else by the time of the check. */
  ghost predicate Judged(p: Row, q: Row, arrivedAt: Option<int>, now: int, delay: int, failure: int) {
    var took := (if arrivedAt.Some? then arrivedAt.value else now) - p.sentAt;
    && (q.level == FailureLevel <==> p.level == FailureLevel || failure <= 0 || took >= failure)
    && (q.level == DelayedLevel <==> q.level != FailureLevel && (p.level == DelayedLevel || delay <= 0 || took >= delay))
    && q.status == (if arrivedAt.Some? then (if q.level == NoLevel then Arrived else Recovered)
                    else if q.level == FailureLevel then Failure
                    else if q.level == DelayedLevel then Delayed
                    else Pending)
    && (if took < 0 then q.seen.delaySeconds == 0 else 0 <= took - q.seen.delaySeconds * 1_000_000_000 < 1_000_000_000)
    && q.seen.arrivedAt == (if arrivedAt.Some? then arrivedAt else p.seen.arrivedAt)
    && q.seen.lastCheckedAt == Some(now) && q.seen.errorMessage == p.seen.errorMessage
    && q == p.(status := q.status, level := q.level, seen := q.seen)
  }

  /** The level is the worst one ever earned: failure when the mail took, or
      has been missing for, the failure threshold, delayed when it did so for
      the delay threshold only. */
  lemma CheckedExactly(p: Row, arrivedAt: Option<int>, now: int, delay: int, failure: int)
    ensures Judged(p, Checked(p, arrivedAt, now, delay, failure), arrivedAt, now, delay, failure)
  {
  }

  /** A check never lowers the level, keeps status and level in step, closes
      the mail exactly when it arrived, and leaves a missing mail waiting for a
      moment after the check. */
  lemma CheckedLife(p: Row, arrivedAt: Option<int>, now: int, delay: int, failure: int)
    ensures var q := Checked(p, arrivedAt, now, delay, failure);
      && Rank(p.level) <= Rank(q.level)
      && Mirrors(q)
      && (Waiting(q.status) <==> arrivedAt.None?)
      && (Open(q.status) <==> Waiting(q.status))
      && (arrivedAt.None? && q.level.NoLevel? ==> now < q.sentAt + delay)
      && (arrivedAt.None? && q.level.DelayedLevel? ==> now < q.sentAt + failure)
  {
  }

  /** For a mail at no level yet and thresholds in order, what a check finds
      depends on the time since the send alone. */
  lemma FirstCheckExactly(p: Row, arrivedAt: Option<int>, now: int, delay: int, failure: int)
    requires p.level == NoLevel && 0 < delay < failure
    ensures var q := Checked(p, arrivedAt, now, delay, failure);
      && (arrivedAt.None? ==>
            && (q.status == Pending <==> now - p.sentAt < delay)
            && (q.status == Delayed <==> delay <= now - p.sentAt < failure)
            && (q.status == Failure <==> failure <= now - p.sentAt))
      && (arrivedAt.Some? ==>
            && (q.status == Arrived <==> arrivedAt.value - p.sentAt < delay)
            && (q.status == Recovered <==> delay <= arrivedAt.value - p.sentAt)
            && (q.level == FailureLevel <==> failure <= arrivedAt.value - p.sentAt))
  {
    CheckedExactly(p, arrivedAt, now, delay, failure);
  }

  /** A copy of a row, as a check holds it. */
  class ProbeMail {
    const stored: Row
    const id: RowId
    const address: string
    const token: Token
    const sentAt: int
    var status: Status
    var level: Level
    var delaySeconds: int
    var arrivedAt: Option<int>
    var lastCheckedAt: Option<int>
    var errorMessage: string

    function Value(): Row
      reads this
    {
      stored.(id := id, address := address, token := token, sentAt := sentAt, status := status, level := level,
              seen := Seen(delaySeconds, arrivedAt, lastCheckedAt, errorMessage))
    }

    constructor (row: Row)
      ensures Value() == row
    {
      stored, id, address, token, sentAt := row, row.id, row.address, row.token, row.sentAt;
      status, level := row.status, row.level;
      delaySeconds, arrivedAt := row.seen.delaySeconds, row.seen.arrivedAt;
      lastCheckedAt, errorMessage := row.seen.lastCheckedAt, row.seen.errorMessage;
    }

    /** The level the mail newly reached while it is missing. */
    method ApplyProbeCheck(arrival: Option<int>, now: int, delay: int, failure: int) returns (reached: Option<Level>)
      modifies this
      ensures Value() == Checked(old(Value()), arrival, now, delay, failure)
      ensures reached == if arrival.None? && level != old(level) then Some(level) else None
    {
      var before := level;
      lastCheckedAt := Some(now);
      if arrival.Some? {
        var took := Max(arrival.value - sentAt, 0);
        delaySeconds := took / SECOND;
        arrivedAt := arrival;
        level := Worse(level, ProbeLevelFor(took, delay, failure));
        if level.NoLevel? {
          status := Arrived;
        } else {
          status := Recovered;
        }
        return None;
      }
      var elapsed := Max(now - sentAt, 0);
      delaySeconds := elapsed / SECOND;
      level := Worse(level, ProbeLevelFor(elapsed, delay, failure));
      match level {
        case FailureLevel => status := Failure;
        case DelayedLevel => status := Delayed;
        case NoLevel => status := Pending;
      }
      return if level != before then Some(level) else None;
    }
  }

  // --- The statements ---

  /** UpdateProbeMailCheck: only a row that is still open takes the check. */
  function Updated(row: Row, p: Row): Row {
    if Open(row.status) then row.(status := p.status, level := p.level, seen := p.seen) else row
  }

  /** ResolveProbeMail: by hand, not while the mail is pending. */
  function ResolvedRow(row: Row, at: int, who: string, reason: string): Row {
    if Resolvable(row.status) then row.(status := Resolved, resolved := Resolution(Some(at), who, reason)) else row
  }

  const PROBE_DISABLED := "probe_disabled"

  /** CloseOpenProbeMails: by the system. */
  function ClosedRow(row: Row, at: int): Row {
    if Open(row.status) then row.(status := Resolved, resolved := Resolution(Some(at), "", PROBE_DISABLED)) else row
  }

  /** MarkProbeMailsNotified: the delays first, then the failures, which stamp
      a delay not mailed yet too. */
  function NotifiedRow(row: Row, delays: set<RowId>, failures: set<RowId>, at: int): Row {
    var first := if row.id in delays then row.notified.(delay := Some(at)) else row.notified;
    row.(notified := if row.id in failures then Stamps(if first.delay.Some? then first.delay else Some(at), Some(at)) else first)
  }

  /** ListUnnotifiedProbeAlerts. */
  predicate DelayDue(row: Row) {
    row.status.Delayed? && row.notified.delay.None?
  }

  predicate FailureDue(row: Row) {
    (row.status.Failure? || row.status.SendFailed?) && row.notified.failure.None?
  }

  /** A mail whose failure was mailed is due neither for a failure nor for a
      delay mail, a mail whose delay was mailed is not due for a delay mail; a
      mail in neither keeps its stamps, and no stamp of a delay is moved by a
      failure mail. */
  lemma NotifiedIsNotDue(row: Row, delays: set<RowId>, failures: set<RowId>, at: int)
    ensures var n := NotifiedRow(row, delays, failures, at);
      && (row.id in delays ==> !DelayDue(n) && n.notified.delay == Some(at))
      && (row.id in failures ==> !DelayDue(n) && !FailureDue(n) && n.notified.failure == Some(at))
      && (row.id !in failures ==> n.notified.failure == row.notified.failure)
      && (row.id !in delays && row.id !in failures ==> n == row)
      && (row.id !in delays && row.notified.delay.Some? ==> n.notified.delay == row.notified.delay)
      && (row.id in failures && row.notified.delay.None? ==> n.notified.delay == Some(at))
      && n == row.(notified := n.notified)
  {
  }

  /** Switching the probe off resolves the mails whose end is open, for nobody
      in particular, and leaves the others as they are. */
  lemma ClosedExactly(row: Row, at: int)
    ensures row.status in {Arrived, Recovered, Resolved} ==> ClosedRow(row, at) == row
    ensures row.status in {Pending, Delayed, Failure, SendFailed} ==>
      ClosedRow(row, at) == row.(status := Resolved, resolved := Resolution(Some(at), "", "probe_disabled"))
  {
  }
}
