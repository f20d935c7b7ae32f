/** Recording what an arrival check found: one transaction over the open
    probe mails (recordProbeArrivals in app/modules/probe.go). */
module ProbeRecording {
  import opened Options
  import opened ProbeTiming
  import opened ProbeMails
  import opened ProbeSorting

  function Mismatch(address: string, found: string): string {
    "token matched, sender differs (" + address + " vs " + (if found == "" then "(none)" else found) + ")"
  }

  function ArrivalIn(s: ProbeSort, token: Token): Option<int> {
    if token in s.arrivals then Some(s.arrivals[token]) else None
  }

  /** A waiting mail after the check. */
  function CheckedWaiting(p: Row, s: ProbeSort, now: int, delay: int, failure: int): Row {
    var error := if p.token in s.arrivals then ""
                 else if p.token in s.mismatched then Mismatch(p.address, s.mismatched[p.token])
                 else p.seen.errorMessage;
    Checked(p.(seen := p.seen.(errorMessage := error)), ArrivalIn(s, p.token), now, delay, failure)
  }

  /** The row is the one of a send_failed mail that arrived after all. */
  predicate Late(row: Row, recorded: map<Token, Row>, s: ProbeSort) {
    row.token in s.arrivals && row.token in recorded && recorded[row.token].id == row.id && recorded[row.token].status.SendFailed?
  }

  function AfterCheck(row: Row, waiting: Table, recorded: map<Token, Row>, s: ProbeSort, now: int, delay: int, failure: int): Row {
    if row.id in waiting then Updated(row, CheckedWaiting(waiting[row.id], s, now, delay, failure))
    else if Late(row, recorded, s) then Updated(row, Checked(recorded[row.token], ArrivalIn(s, row.token), now, delay, failure))
    else row
  }

  function TableAfterCheck(rows: Table, waiting: Table, recorded: map<Token, Row>, s: ProbeSort, now: int, delay: int, failure: int): Table {
    map id | id in rows :: AfterCheck(rows[id], waiting, recorded, s, now, delay, failure)
  }

  /** A recorded row was judged as the check read it, a row whose end was
      settled meanwhile is left alone, and no other row changes: a listed mail
      is found by its token, and one that could not be sent only when it
      arrived after all. */
  lemma RecordedExactly(row: Row, waiting: Table, recorded: map<Token, Row>, s: ProbeSort, now: int, delay: int, failure: int)
    ensures var q := AfterCheck(row, waiting, recorded, s, now, delay, failure);
      var found := row.token in s.arrivals && row.token in recorded && recorded[row.token].id == row.id
        && recorded[row.token].status == SendFailed;
      && (row.status in {Arrived, Recovered, Resolved} ==> q == row)
      && (row.id !in waiting && !found ==> q == row)
      && q == row.(status := q.status, level := q.level, seen := q.seen)
      && (row.status !in {Arrived, Recovered, Resolved} && row.id in waiting ==>
            var p := waiting[row.id];
            var error := q.seen.errorMessage;
            && Judged(p.(seen := p.seen.(errorMessage := error)), p.(status := q.status, level := q.level, seen := q.seen),
                      if p.token in s.arrivals then Some(s.arrivals[p.token]) else None, now, delay, failure)
            && (p.token in s.arrivals ==> error == "")
            && (p.token !in s.arrivals && p.token !in s.mismatched ==> error == p.seen.errorMessage)
            && (p.token !in s.arrivals && p.token in s.mismatched ==>
                  error == "token matched, sender differs (" + p.address + " vs " +
                    (if s.mismatched[p.token] == "" then "(none)" else s.mismatched[p.token]) + ")"))
      && (row.status !in {Arrived, Recovered, Resolved} && row.id !in waiting && found ==>
            var p := recorded[row.token];
            Judged(p, p.(status := q.status, level := q.level, seen := q.seen), Some(s.arrivals[row.token]), now, delay, failure))
  {
  }

  /** When a missing mail reaches its next level. */
  function NextLevelAt(row: Row, delay: int, failure: int): Option<int> {
    match row.level
    case NoLevel => Some(row.sentAt + delay)
    case DelayedLevel => Some(row.sentAt + failure)
    case FailureLevel => None
  }

  datatype Outcome = Outcome(checked: nat, arrived: nat, recovered: nat, missing: nat, levelAts: seq<int>)

  /** The listed mails whose row is open, and those whose row waits. */
  ghost function OpenOf(rows: Table, listed: Table): set<RowId> {
    set id | id in listed && id in rows && !(rows[id].status.Arrived? || rows[id].status.Recovered? || rows[id].status.Resolved?)
  }

  ghost function WaitingOf(rows: Table, listed: Table): set<RowId> {
    set id | id in listed && id in rows && (rows[id].status.Pending? || rows[id].status.Delayed? || rows[id].status.Failure?)
  }

  /** The listed mails that were open before and have the status now. */
  ghost function BecameOf(before: Table, rows: Table, listed: Table, status: Status): set<RowId> {
    set id | id in OpenOf(before, listed) && id in rows && rows[id].status == status
  }

  /** The mails that arrived although they could not be sent, it seemed. */
  ghost function LateOf(rows: Table, waiting: Table, recorded: map<Token, Row>, s: ProbeSort): set<RowId> {
    set id | id in rows && id !in waiting && Late(rows[id], recorded, s) && Open(rows[id].status)
  }

  /** A mail that waits gets worse then: at its delay threshold, or at its
      failure threshold when it is delayed already. */
  ghost predicate IsLevelMoment(m: int, rows: Table, listed: Table, delay: int, failure: int) {
    exists id :: id in WaitingOf(rows, listed) &&
      ((rows[id].level == NoLevel && m == rows[id].sentAt + delay) || (rows[id].level == DelayedLevel && m == rows[id].sentAt + failure))
  }

  /** Every moment is to come, and they are those at which a mail that waits
      gets worse next. */
  ghost predicate CoversLevels(levelAts: seq<int>, rows: Table, listed: Table, now: int, delay: int, failure: int) {
    && (forall m :: m in levelAts ==> now < m && IsLevelMoment(m, rows, listed, delay, failure))
    && (forall id :: id in WaitingOf(rows, listed) && NextLevelAt(rows[id], delay, failure).Some? ==>
          NextLevelAt(rows[id], delay, failure).value in levelAts)
  }

  /** A check at most CHECK_COALESCE after every moment is so for every mail. */
  lemma AnnouncedFits(at: int, regular: int, levelAts: seq<int>, rows: Table, listed: Table, now: int, delay: int, failure: int)
    requires CoversLevels(levelAts, rows, listed, now, delay, failure)
    requires (forall m :: m in levelAts ==> at <= m + CHECK_COALESCE) && (at == regular || at in levelAts)
    ensures forall id :: id in WaitingOf(rows, listed) && rows[id].level == NoLevel ==> at <= rows[id].sentAt + delay + CHECK_COALESCE
    ensures forall id :: id in WaitingOf(rows, listed) && rows[id].level == DelayedLevel ==> at <= rows[id].sentAt + failure + CHECK_COALESCE
    ensures at == regular || IsLevelMoment(at, rows, listed, delay, failure)
  {
  }

  /** The listed rows, by id. */
  ghost predicate Lists(waiting: seq<Row>, byId: Table) {
    && (forall i, j :: 0 <= i < j < |waiting| ==> waiting[i].id != waiting[j].id)
    && (forall p :: p in waiting ==> p.id in byId && byId[p.id] == p)
    && (forall id :: id in byId ==> byId[id] in waiting && byId[id].id == id)
  }

  /** Each row is stored under its id. */
  predicate Keyed(rows: Table) {
    forall id :: id in rows ==> rows[id].id == id
  }

  /** The time a mail was sent is never changed. */
  predicate SameSent(rows: Table, listed: Table) {
    forall id :: id in listed && id in rows ==> rows[id].sentAt == listed[id].sentAt
  }

  /** What was read by token: rows of their own, not among the listed ones
      when they could not be sent. */
  ghost predicate Reads(recorded: map<Token, Row>, rows: Table, waiting: Table) {
    && (forall t :: t in recorded ==> recorded[t].token == t)
    && (forall t, u :: t in recorded && u in recorded && recorded[t].id == recorded[u].id ==> t == u)
    && (forall t :: t in recorded && recorded[t].id in rows ==> rows[recorded[t].id].token == t)
    && (forall t :: t in recorded && recorded[t].status.SendFailed? ==> recorded[t].id !in waiting)
  }

  class ProbeTable {
    var rows: Table

    /** Guarded by the status: a mail resolved meanwhile stays resolved. */
    method UpdateProbeMailCheck(p: ProbeMail) returns (updated: bool)
      requires Keyed(rows)
      modifies this
      ensures Keyed(rows)
      ensures updated <==> p.id in old(rows) && Open(old(rows)[p.id].status)
      ensures rows == if p.id in old(rows) then old(rows)[p.id := Updated(old(rows)[p.id], p.Value())] else old(rows)
      ensures updated <==> p.id in old(rows) && old(rows)[p.id].status in {Pending, Delayed, Failure, SendFailed}
      ensures updated ==> rows == old(rows)[p.id := old(rows)[p.id].(status := p.status, level := p.level,
        seen := Seen(p.delaySeconds, p.arrivedAt, p.lastCheckedAt, p.errorMessage))]
      ensures !updated ==> rows == old(rows)
    {
      updated := p.id in rows && Open(rows[p.id].status);
      if updated {
        rows := rows[p.id := Updated(rows[p.id], p.Value())];
      }
    }

    method ResolveProbeMail(id: RowId, at: int, who: string, reason: string) returns (resolved: bool)
      requires Keyed(rows)
      modifies this
      ensures Keyed(rows)
      ensures resolved <==> id in old(rows) && old(rows)[id].status in {Delayed, Failure, SendFailed}
      ensures resolved ==> rows == old(rows)[id := ResolvedRow(old(rows)[id], at, who, reason)]
      ensures resolved ==> rows == old(rows)[id := old(rows)[id].(status := Resolved, resolved := Resolution(Some(at), who, reason))]
      ensures !resolved ==> rows == old(rows)
    {
      resolved := id in rows && Resolvable(rows[id].status);
      if resolved {
        rows := rows[id := ResolvedRow(rows[id], at, who, reason)];
      }
    }

    /** One transaction. The counts are those of the listed mails still open
        that arrived, recovered or wait on; a late arrival counts as recovered. */
    method RecordProbeArrivals(waiting: seq<Row>, ghost byId: Table, recorded: map<Token, Row>, s: ProbeSort,
                               now: int, delay: int, failure: int)
      returns (res: Outcome)
      requires Keyed(rows) && Lists(waiting, byId) && SameSent(rows, byId) && Reads(recorded, rows, byId)
      modifies this
      ensures rows == TableAfterCheck(old(rows), byId, recorded, s, now, delay, failure)
      ensures res.checked == |OpenOf(old(rows), byId)|
      ensures res.missing == |WaitingOf(rows, byId)|
      ensures res.arrived == |BecameOf(old(rows), rows, byId, Arrived)|
      ensures res.recovered == |BecameOf(old(rows), rows, byId, Recovered)| + |LateOf(old(rows), byId, recorded, s)|
      ensures CoversLevels(res.levelAts, rows, byId, now, delay, failure)
    {
      ghost var before := rows;
      res := RecordWaiting(waiting, byId, s, now, delay, failure);
      ghost var between := rows;
      var late := RecordLate(before, byId, recorded, s, now, delay, failure);
      LateLeavesListed(before, between, rows, byId, recorded, s, now, delay, failure);
      res := res.(recovered := res.recovered + late);
    }

    /** What a check does with its listing: it records the arrivals and, while
        mails are missing, announces the next check, which comes at most
        CHECK_COALESCE after the moment any of them gets worse. */
    method CheckArrivals(waiting: seq<Row>, ghost byId: Table, recorded: map<Token, Row>, s: ProbeSort,
                         now: int, lastSend: Option<int>, delay: int, failure: int)
      returns (next: Option<int>)
      requires Keyed(rows) && Lists(waiting, byId) && SameSent(rows, byId) && Reads(recorded, rows, byId)
      modifies this
      ensures rows == TableAfterCheck(old(rows), byId, recorded, s, now, delay, failure)
      ensures next.Some? <==> WaitingOf(rows, byId) != {}
      ensures next.Some? ==> now < next.value <= NextProbeCheckAt(lastSend, now, delay, failure) + CHECK_COALESCE
      ensures forall id :: id in WaitingOf(rows, byId) && rows[id].level == NoLevel ==>
        next.Some? && next.value <= rows[id].sentAt + delay + CHECK_COALESCE
      ensures forall id :: id in WaitingOf(rows, byId) && rows[id].level == DelayedLevel ==>
        next.Some? && next.value <= rows[id].sentAt + failure + CHECK_COALESCE
      ensures next.Some? ==>
        next.value == NextProbeCheckAt(lastSend, now, delay, failure) || IsLevelMoment(next.value, rows, byId, delay, failure)
    {
      var res := RecordProbeArrivals(waiting, byId, recorded, s, now, delay, failure);
      if res.missing == 0 {
        return None;
      }
      var at := NextAt(lastSend, now, delay, failure, res.levelAts);
      AnnouncedFits(at, NextProbeCheckAt(lastSend, now, delay, failure), res.levelAts, rows, byId, now, delay, failure);
      return Some(at);
    }

    method RecordWaiting(waiting: seq<Row>, ghost byId: Table, s: ProbeSort, now: int, delay: int, failure: int) returns (res: Outcome)
      requires Keyed(rows) && Lists(waiting, byId) && SameSent(rows, byId)
      modifies this
      ensures Keyed(rows) && WaitingRecorded(res, old(rows), rows, byId, s, now, delay, failure)
    {
      ghost var before := rows;
      ghost var done: Table := map[];
      res := Outcome(0, 0, 0, 0, []);
      for i := 0 to |waiting|
        invariant Keyed(rows) && IsPrefix(done, byId, waiting[..i])
        invariant WaitingRecorded(res, before, rows, done, s, now, delay, failure)
      {
        var listed := waiting[i];
        PrefixStep(done, byId, waiting, i);
        WaitingStep(res, before, rows, done, listed, s, now, delay, failure);
        done := done[listed.id := listed];
        var checked, updated := CheckOne(listed, s, now, delay, failure);
        if updated {
          res := Count(res, checked, delay, failure);
        }
      }
      assert waiting[..|waiting|] == waiting;
      PrefixIsAll(done, byId, waiting);
    }

    /** Judges one listed mail and writes it. */
    method CheckOne(listed: Row, s: ProbeSort, now: int, delay: int, failure: int) returns (checked: Row, updated: bool)
      requires Keyed(rows)
      modifies this
      ensures checked == CheckedWaiting(listed, s, now, delay, failure)
      ensures Keyed(rows) && rows == With(old(rows), listed.id, checked)
      ensures updated <==> listed.id in old(rows) && Open(old(rows)[listed.id].status)
    {
      var p := new ProbeMail(listed);
      var arrival := ArrivalIn(s, p.token);
      if arrival.Some? {
        p.errorMessage := "";
      } else if p.token in s.mismatched {
        p.errorMessage := Mismatch(p.address, s.mismatched[p.token]);
      }
      var reached := p.ApplyProbeCheck(arrival, now, delay, failure);
      updated := UpdateProbeMailCheck(p);
      checked := p.Value();
    }

    /** Judges one mail that arrived after all and writes it. */
    method RecoverOne(sent: Row, arrivedAt: int, now: int, delay: int, failure: int) returns (updated: bool)
      requires Keyed(rows)
      modifies this
      ensures Keyed(rows) && rows == With(old(rows), sent.id, Checked(sent, Some(arrivedAt), now, delay, failure))
      ensures updated <==> sent.id in old(rows) && Open(old(rows)[sent.id].status)
    {
      var p := new ProbeMail(sent);
      var reached := p.ApplyProbeCheck(Some(arrivedAt), now, delay, failure);
      updated := UpdateProbeMailCheck(p);
    }

    method RecordLate(ghost before: Table, ghost byId: Table, recorded: map<Token, Row>, s: ProbeSort, now: int, delay: int, failure: int)
      returns (late: nat)
      requires Keyed(before) && Keyed(rows) && Reads(recorded, before, byId)
      requires LateRecorded(0, before, rows, byId, map[], s, now, delay, failure)
      modifies this
      ensures LateRecorded(late, before, rows, byId, recorded, s, now, delay, failure)
    {
      late := 0;
      var todo := s.arrivals.Keys;
      ghost var done: map<Token, Row> := map[];
      while todo != {}
        invariant todo <= s.arrivals.Keys && Keyed(rows)
        invariant IsDone(done, recorded, s.arrivals.Keys - todo)
        invariant LateRecorded(late, before, rows, byId, done, s, now, delay, failure)
      {
        var token :| token in todo;
        ghost var doneTokens := s.arrivals.Keys - todo;
        todo := todo - {token};
        assert s.arrivals.Keys - todo == doneTokens + {token};
        if token !in recorded {
          continue;
        }
        LateStep(late, before, rows, byId, recorded, done, token, s, now, delay, failure);
        done := done[token := recorded[token]];
        if !recorded[token].status.SendFailed? {
          continue;
        }
        var updated := RecoverOne(recorded[token], s.arrivals[token], now, delay, failure);
        if updated {
          late := late + 1;
        }
      }
      assert s.arrivals.Keys - todo == s.arrivals.Keys;
      LateDone(late, before, rows, byId, recorded, done, s, now, delay, failure);
    }
  }

  /** The listed rows of the first mails. */
  ghost predicate IsPrefix(done: Table, byId: Table, first: seq<Row>) {
    && (forall id :: id in done ==> id in byId && done[id] == byId[id] && done[id] in first)
    && (forall p :: p in first ==> p.id in done)
  }

  lemma PrefixStep(done: Table, byId: Table, waiting: seq<Row>, i: nat)
    requires Lists(waiting, byId) && i < |waiting| && IsPrefix(done, byId, waiting[..i])
    ensures waiting[i].id !in done && IsPrefix(done[waiting[i].id := waiting[i]], byId, waiting[..i + 1])
    ensures waiting[i].id in byId && byId[waiting[i].id] == waiting[i]
  {
  }

  lemma PrefixIsAll(done: Table, byId: Table, waiting: seq<Row>)
    requires Lists(waiting, byId) && IsPrefix(done, byId, waiting)
    ensures done == byId
  {
  }

  /** What the first loop has done for the listed mails. */
  ghost predicate WaitingRecorded(res: Outcome, before: Table, rows: Table, done: Table, s: ProbeSort, now: int, delay: int, failure: int) {
    && rows == TableAfterCheck(before, done, map[], s, now, delay, failure)
    && res.checked == |OpenOf(before, done)|
    && res.missing == |WaitingOf(rows, done)|
    && res.arrived == |BecameOf(before, rows, done, Arrived)|
    && res.recovered == |BecameOf(before, rows, done, Recovered)|
    && CoversLevels(res.levelAts, rows, done, now, delay, failure)
  }

  /** One more mail, still open, counted. */
  function Counted(res: Outcome, checked: Row, delay: int, failure: int): Outcome {
    var next := NextLevelAt(checked, delay, failure);
    var r := res.(checked := res.checked + 1);
    if checked.status.Arrived? then r.(arrived := r.arrived + 1)
    else if checked.status.Recovered? then r.(recovered := r.recovered + 1)
    else r.(missing := r.missing + 1, levelAts := r.levelAts + (if next.Some? then [next.value] else []))
  }

  lemma WaitingStep(res: Outcome, before: Table, rows: Table, done: Table, p: Row, s: ProbeSort, now: int, delay: int, failure: int)
    requires Keyed(before) && Keyed(rows) && p.id !in done && (p.id in before ==> before[p.id].sentAt == p.sentAt)
    requires WaitingRecorded(res, before, rows, done, s, now, delay, failure)
    ensures var checked := CheckedWaiting(p, s, now, delay, failure);
      && (p.id in rows ==> p.id in before && rows[p.id] == before[p.id])
      && WaitingRecorded(if p.id in rows && Open(rows[p.id].status) then Counted(res, checked, delay, failure) else res,
                         before, With(rows, p.id, checked), done[p.id := p], s, now, delay, failure)
  {
    var checked := CheckedWaiting(p, s, now, delay, failure);
    assert checked.sentAt == p.sentAt && (Waiting(checked.status) <==> p.token !in s.arrivals) && (Waiting(checked.status) || checked.status.Arrived? || checked.status.Recovered?);
    OneMoreChecked(before, rows, done, p, s, now, delay, failure);
    OneMoreOpen(before, done, p);
    OneMoreWaiting(rows, done, p, checked);
    OneMoreBecame(before, rows, done, p, checked, Arrived);
    OneMoreBecame(before, rows, done, p, checked, Recovered);
    NextLevelIsAhead(p, s, now, delay, failure);
    MoreLevels(res.levelAts, rows, done, p, checked, now, delay, failure);
  }

  /** What the second loop has done for the arrived tokens. */
  ghost predicate LateRecorded(late: nat, before: Table, rows: Table, listed: Table, done: map<Token, Row>, s: ProbeSort,
                               now: int, delay: int, failure: int) {
    && rows == TableAfterCheck(before, listed, done, s, now, delay, failure)
    && late == |LateOf(before, listed, done, s)|
  }

  ghost predicate IsDone(done: map<Token, Row>, recorded: map<Token, Row>, tokens: set<Token>) {
    && (forall t :: t in done <==> t in recorded && t in tokens)
    && (forall t :: t in done ==> done[t] == recorded[t])
  }

  lemma LateStep(late: nat, before: Table, rows: Table, listed: Table, recorded: map<Token, Row>, done: map<Token, Row>, token: Token,
                 s: ProbeSort, now: int, delay: int, failure: int)
    requires Keyed(before) && Reads(recorded, before, listed)
    requires token in recorded && token in s.arrivals && token !in done
    requires forall t :: t in done ==> t in recorded && done[t] == recorded[t]
    requires LateRecorded(late, before, rows, listed, done, s, now, delay, failure)
    ensures var p := recorded[token];
      var failed := p.status.SendFailed?;
      && rows.Keys == before.Keys
      && (failed && p.id in rows ==> rows[p.id] == before[p.id])
      && LateRecorded(late + (if failed && p.id in rows && Open(rows[p.id].status) then 1 else 0), before,
                      if failed then With(rows, p.id, Checked(p, Some(s.arrivals[token]), now, delay, failure)) else rows,
                      listed, done[token := p], s, now, delay, failure)
  {
    OneMoreLate(before, rows, listed, recorded, done, token, s, now, delay, failure);
    OneMoreLateCounted(before, listed, recorded, done, token, s);
  }

  lemma LateDone(late: nat, before: Table, rows: Table, listed: Table, recorded: map<Token, Row>, done: map<Token, Row>,
                 s: ProbeSort, now: int, delay: int, failure: int)
    requires IsDone(done, recorded, s.arrivals.Keys)
    requires LateRecorded(late, before, rows, listed, done, s, now, delay, failure)
    ensures LateRecorded(late, before, rows, listed, recorded, s, now, delay, failure)
  {
    assert forall id :: id in before ==> (Late(before[id], done, s) <==> Late(before[id], recorded, s));
    assert LateOf(before, listed, done, s) == LateOf(before, listed, recorded, s);
    assert forall id :: id in before ==>
      AfterCheck(before[id], listed, done, s, now, delay, failure) == AfterCheck(before[id], listed, recorded, s, now, delay, failure);
  }

  method Count(before: Outcome, p: Row, delay: int, failure: int) returns (res: Outcome)
    ensures res == Counted(before, p, delay, failure)
  {
    res := before.(checked := before.checked + 1);
    if p.status.Arrived? {
      res := res.(arrived := res.arrived + 1);
    } else if p.status.Recovered? {
      res := res.(recovered := res.recovered + 1);
    } else {
      res := res.(missing := res.missing + 1);
      match p.level {
        case NoLevel => res := res.(levelAts := res.levelAts + [p.sentAt + delay]);
        case DelayedLevel => res := res.(levelAts := res.levelAts + [p.sentAt + failure]);
        case FailureLevel =>
      }
    }
  }

  function With(rows: Table, id: RowId, p: Row): Table {
    if id in rows then rows[id := Updated(rows[id], p)] else rows
  }

  /** The table after one more listed mail. */
  lemma OneMoreChecked(before: Table, rows: Table, done: Table, p: Row, s: ProbeSort, now: int, delay: int, failure: int)
    requires Keyed(before) && p.id !in done
    requires rows == TableAfterCheck(before, done, map[], s, now, delay, failure)
    ensures p.id in rows ==> rows[p.id] == before[p.id]
    ensures With(rows, p.id, CheckedWaiting(p, s, now, delay, failure)) ==
            TableAfterCheck(before, done[p.id := p], map[], s, now, delay, failure)
  {
  }

  lemma CountOne(more: set<RowId>, fewer: set<RowId>, id: RowId, added: bool)
    requires id !in fewer && (id in more <==> added) && forall other :: other != id ==> (other in more <==> other in fewer)
    ensures |more| == |fewer| + (if added then 1 else 0)
  {
    assert more == if added then fewer + {id} else fewer;
  }

  /** The counts after one more listed mail. */
  lemma OneMoreOpen(before: Table, done: Table, p: Row)
    requires p.id !in done
    ensures |OpenOf(before, done[p.id := p])| == |OpenOf(before, done)| + (if p.id in before && Open(before[p.id].status) then 1 else 0)
  {
    CountOne(OpenOf(before, done[p.id := p]), OpenOf(before, done), p.id, p.id in before && Open(before[p.id].status));
  }

  lemma OneMoreWaiting(rows: Table, done: Table, p: Row, checked: Row)
    requires p.id !in done
    ensures |WaitingOf(With(rows, p.id, checked), done[p.id := p])| ==
            |WaitingOf(rows, done)| + (if p.id in rows && Open(rows[p.id].status) && Waiting(checked.status) then 1 else 0)
  {
    var after := With(rows, p.id, checked);
    var waits := p.id in rows && Open(rows[p.id].status) && Waiting(checked.status);
    assert waits <==> p.id in after && Waiting(after[p.id].status);
    CountOne(WaitingOf(after, done[p.id := p]), WaitingOf(rows, done), p.id, waits);
  }

  lemma OneMoreBecame(before: Table, rows: Table, done: Table, p: Row, checked: Row, status: Status)
    requires p.id !in done && rows.Keys == before.Keys && (p.id in rows ==> rows[p.id] == before[p.id])
    ensures |BecameOf(before, With(rows, p.id, checked), done[p.id := p], status)| ==
            |BecameOf(before, rows, done, status)| + (if p.id in rows && Open(rows[p.id].status) && checked.status == status then 1 else 0)
  {
    var after := With(rows, p.id, checked);
    var became := p.id in rows && Open(rows[p.id].status) && checked.status == status;
    var more, fewer := BecameOf(before, after, done[p.id := p], status), BecameOf(before, rows, done, status);
    assert p.id in more <==> became;
    forall id | id != p.id ensures id in more <==> id in fewer {
      assert id in after <==> id in rows;
    }
    CountOne(more, fewer, p.id, became);
  }

  /** The next level of a mail the check leaves waiting is to come. */
  lemma NextLevelIsAhead(p: Row, s: ProbeSort, now: int, delay: int, failure: int)
    ensures var checked := CheckedWaiting(p, s, now, delay, failure);
      && checked.sentAt == p.sentAt
      && (Waiting(checked.status) && NextLevelAt(checked, delay, failure).Some? ==> now < NextLevelAt(checked, delay, failure).value)
  {
  }

  lemma MoreLevels(levelAts: seq<int>, rows: Table, done: Table, p: Row, checked: Row, now: int, delay: int, failure: int)
    requires CoversLevels(levelAts, rows, done, now, delay, failure) && p.id !in done
    requires p.id in rows ==> rows[p.id].sentAt == checked.sentAt
    requires Waiting(checked.status) && NextLevelAt(checked, delay, failure).Some? ==> now < NextLevelAt(checked, delay, failure).value
    ensures var next := NextLevelAt(checked, delay, failure);
      CoversLevels(if p.id in rows && Open(rows[p.id].status) && Waiting(checked.status) && next.Some? then levelAts + [next.value] else levelAts,
                   With(rows, p.id, checked), done[p.id := p], now, delay, failure)
  {
    var after, next := With(rows, p.id, checked), NextLevelAt(checked, delay, failure);
    LevelsStay(levelAts, rows, after, done, p, now, delay, failure);
    if p.id in rows && Open(rows[p.id].status) && Waiting(checked.status) && next.Some? {
      assert p.id in WaitingOf(after, done[p.id := p]);
      assert IsLevelMoment(next.value, after, done[p.id := p], delay, failure);
    }
  }

  /** The moments of the mails listed before stay among the moments. */
  lemma LevelsStay(levelAts: seq<int>, rows: Table, after: Table, done: Table, p: Row, now: int, delay: int, failure: int)
    requires CoversLevels(levelAts, rows, done, now, delay, failure) && p.id !in done
    requires forall id :: id != p.id ==> (id in after <==> id in rows) && (id in rows ==> after[id] == rows[id])
    ensures forall m :: m in levelAts ==> now < m && IsLevelMoment(m, after, done[p.id := p], delay, failure)
    ensures forall id :: id in WaitingOf(after, done[p.id := p]) && id != p.id && NextLevelAt(after[id], delay, failure).Some? ==>
      NextLevelAt(after[id], delay, failure).value in levelAts
  {
    forall m | m in levelAts
      ensures IsLevelMoment(m, after, done[p.id := p], delay, failure)
    {
      var id :| id in WaitingOf(rows, done) &&
        ((rows[id].level == NoLevel && m == rows[id].sentAt + delay) || (rows[id].level == DelayedLevel && m == rows[id].sentAt + failure));
      assert id in WaitingOf(after, done[p.id := p]) && after[id] == rows[id];
    }
    forall id | id in WaitingOf(after, done[p.id := p]) && id != p.id
      ensures id in WaitingOf(rows, done)
    {
    }
  }

  /** Late arrivals change no listed row. */
  lemma LateLeavesListed(before: Table, between: Table, after: Table, listed: Table, recorded: map<Token, Row>, s: ProbeSort,
                         now: int, delay: int, failure: int)
    requires Keyed(before)
    requires between == TableAfterCheck(before, listed, map[], s, now, delay, failure)
    requires after == TableAfterCheck(before, listed, recorded, s, now, delay, failure)
    ensures forall id :: id in listed && id in before ==> between[id] == after[id]
    ensures WaitingOf(between, listed) == WaitingOf(after, listed)
    ensures forall status :: BecameOf(before, between, listed, status) == BecameOf(before, after, listed, status)
  {
  }

  /** The table after one more arrived token. */
  lemma OneMoreLate(before: Table, rows: Table, listed: Table, recorded: map<Token, Row>, done: map<Token, Row>, token: Token,
                    s: ProbeSort, now: int, delay: int, failure: int)
    requires Keyed(before) && Reads(recorded, before, listed)
    requires token in recorded && token in s.arrivals && token !in done
    requires forall t :: t in done ==> t in recorded && done[t] == recorded[t]
    requires rows == TableAfterCheck(before, listed, done, s, now, delay, failure)
    ensures var p := recorded[token];
      && (p.status.SendFailed? && p.id in rows ==> rows[p.id] == before[p.id])
      && (if p.status.SendFailed? then With(rows, p.id, Checked(p, ArrivalIn(s, token), now, delay, failure)) else rows) ==
         TableAfterCheck(before, listed, done[token := p], s, now, delay, failure)
  {
    var p := recorded[token];
    LateMore(before, listed, recorded, done, token, s);
    var after := if p.status.SendFailed? then With(rows, p.id, Checked(p, ArrivalIn(s, token), now, delay, failure)) else rows;
    forall id | id in before
      ensures after[id] == AfterCheck(before[id], listed, done[token := p], s, now, delay, failure)
    {
    }
  }

  lemma LateMore(before: Table, listed: Table, recorded: map<Token, Row>, done: map<Token, Row>, token: Token, s: ProbeSort)
    requires Keyed(before) && Reads(recorded, before, listed)
    requires token in recorded && token in s.arrivals && token !in done
    requires forall t :: t in done ==> t in recorded && done[t] == recorded[t]
    ensures forall id :: id in before ==>
      (Late(before[id], done[token := recorded[token]], s) <==>
         Late(before[id], done, s) || (id == recorded[token].id && recorded[token].status.SendFailed?))
    ensures recorded[token].id in before ==> !Late(before[recorded[token].id], done, s)
  {
  }

  lemma OneMoreLateCounted(before: Table, listed: Table, recorded: map<Token, Row>, done: map<Token, Row>, token: Token, s: ProbeSort)
    requires Keyed(before) && Reads(recorded, before, listed)
    requires token in recorded && token in s.arrivals && token !in done
    requires forall t :: t in done ==> t in recorded && done[t] == recorded[t]
    ensures var p := recorded[token];
      |LateOf(before, listed, done[token := p], s)| ==
      |LateOf(before, listed, done, s)| + (if p.status.SendFailed? && p.id in before && Open(before[p.id].status) then 1 else 0)
  {
    var p := recorded[token];
    LateMore(before, listed, recorded, done, token, s);
    CountOne(LateOf(before, listed, done[token := p], s), LateOf(before, listed, done, s), p.id,
             p.status.SendFailed? && p.id in before && Open(before[p.id].status));
  }
}
