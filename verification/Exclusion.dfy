/** Whole-run safety of the job manager: which jobs never overlap, that a job
    is claimed once, and how the deletion of a mailbox races with the claims. */
module Exclusion {
  import opened Options
  import opened JobKeys
  import opened JobTable
  import opened LockTable
  import opened Dispatcher
  import Text

  /** The job is claimed and has not released its keys. */
  predicate Owns(s: State, id: JobId) {
    Executing(s, id) || InPhase(s, id, Finished) || BeingStarted(s, id)
  }

  /** The row of an owner, and what was read at its claim. */
  function OwnedJob(s: State, id: JobId): Job
    requires Owns(s, id)
  {
    if BeingStarted(s, id) then s.pc.job else s.flight[id].job
  }

  function OwnedReading(s: State, id: JobId): Reading
    requires Owns(s, id)
  {
    if BeingStarted(s, id) then s.pc.r else s.flight[id].r
  }

  /** At every moment of every run the jobs between their claim and their
      release were read with disjoint keys, so no two of them share a resource. */
  lemma OwnersNeverConflict(states: seq<State>, steps: seq<Step>, i: nat, a: JobId, b: JobId)
    requires IsRun(states, steps) && i <= |steps|
    requires a != b && Owns(states[i], a) && Owns(states[i], b)
    ensures !SharedResource(OwnedReading(states[i], a), OwnedReading(states[i], b))
  {
    ReachableInv(states, steps, i);
    var s := states[i];
    var ra, rb := OwnedReading(s, a), OwnedReading(s, b);
    ConflictIsSharedResource(ra, rb);
    if k :| k in KeysOf(ra) && k in KeysOf(rb) {
      OwnedKey(s, a, k);
      OwnedKey(s, b, k);
    }
  }

  /** A key of an owner is entered for it, or about to be and free. */
  lemma OwnedKey(s: State, id: JobId, k: Key)
    requires Inv(s) && Owns(s, id) && k in KeysOf(OwnedReading(s, id))
    ensures if s.pc.Acquire? && s.pc.job.id == id then k !in s.locks else k in s.locks && s.locks[k] == id
  {
    if !(s.pc.Acquire? && s.pc.job.id == id) {
      assert HoldsKey(s, id, k);
    }
  }

  /** The test lets a job pass exactly when no owner shares a resource with
      what was read for it. */
  lemma TestedExactly(states: seq<State>, steps: seq<Step>, i: nat)
    requires IsRun(states, steps) && i <= |steps| && states[i].pc.Test?
    ensures Apply(states[i], TestLocks).pc.Claim? <==>
      forall id: JobId :: Owns(states[i], id) ==> !SharedResource(states[i].pc.r, OwnedReading(states[i], id))
  {
    ReachableInv(states, steps, i);
    TestExactly(states[i]);
  }

  lemma TestExactly(s: State)
    requires Inv(s) && s.pc.Test?
    ensures ByDispatcher(s, TestLocks).pc.Claim? <==>
      forall id: JobId :: Owns(s, id) ==> !SharedResource(s.pc.r, OwnedReading(s, id))
  {
    forall id: JobId | Owns(s, id) && SharedResource(s.pc.r, OwnedReading(s, id))
      ensures !Free(s.locks, KeysOf(s.pc.r))
    {
      SharedIsHeld(s, id);
    }
    if k :| k in KeysOf(s.pc.r) && k in s.locks {
      assert HoldsKey(s, s.locks[k], k) && Owns(s, s.locks[k]);
      ConflictIsSharedResource(s.pc.r, OwnedReading(s, s.locks[k]));
    }
  }

  lemma SharedIsHeld(s: State, id: JobId)
    requires Inv(s) && s.pc.Test? && Owns(s, id) && SharedResource(s.pc.r, OwnedReading(s, id))
    ensures !Free(s.locks, KeysOf(s.pc.r))
  {
    ConflictIsSharedResource(s.pc.r, OwnedReading(s, id));
    var k :| k in KeysOf(s.pc.r) && k in KeysOf(OwnedReading(s, id));
    OwnedKey(s, id, k);
  }

  // --- What the kinds promise ---

  /** The row of the mailbox of the job was read. */
  predicate ReadFor(job: Job, r: Reading) {
    r.kind == job.kind && (job.mailbox.Some? ==> r.row.Some?)
  }

  predicate OfMailbox(job: Job, kinds: set<Kind>) {
    job.mailbox.Some? && job.kind in kinds
  }

  const INDEX_WRITERS: set<Kind> := {Sync, Fetch, Group, Reclassify, Reindex, Cleanup}
  const AGENT_KINDS: set<Kind> := {Analyze, Reindex, Cleanup}
  const PROBE_KINDS: set<Kind> := {ProbeSend, ProbeCheck}

  predicate SameHost(a: Reading, b: Reading) {
    a.row.Some? && b.row.Some? && SameHostName(a.row.value.imapHost, b.row.value.imapHost)
  }

  predicate SameAddress(a: Reading, b: Reading) {
    a.row.Some? && b.row.Some? && a.row.value.address == b.row.value.address
  }

  /** What the design promises of two jobs by their kinds: an analysis runs
      next to no reindex, no cleanup and no other analysis; two jobs fetch from
      one IMAP server never at the same time; the jobs that write the index of
      a mailbox run one at a time; a send and a check of the probe mails never
      overlap, nor two of either. */
  predicate ApartByKind(ja: Job, ra: Reading, jb: Job, rb: Reading) {
    && !(OfMailbox(ja, {Analyze}) && OfMailbox(jb, AGENT_KINDS))
    && (OfMailbox(ja, {Sync, Fetch}) && OfMailbox(jb, {Sync, Fetch}) ==> !SameHost(ra, rb))
    && (OfMailbox(ja, INDEX_WRITERS) && OfMailbox(jb, INDEX_WRITERS) ==> !SameAddress(ra, rb))
    && !(ja.kind in PROBE_KINDS && jb.kind in PROBE_KINDS)
  }

  /** When the two rows were read at the claims, the two jobs are apart by
      their kinds, whatever was read for any other job. */
  lemma KindsNeverOverlap(states: seq<State>, steps: seq<Step>, i: nat, a: JobId, b: JobId)
    requires IsRun(states, steps) && i <= |steps|
    requires a != b && Owns(states[i], a) && Owns(states[i], b)
    requires ReadFor(OwnedJob(states[i], a), OwnedReading(states[i], a)) && ReadFor(OwnedJob(states[i], b), OwnedReading(states[i], b))
    ensures ApartByKind(OwnedJob(states[i], a), OwnedReading(states[i], a), OwnedJob(states[i], b), OwnedReading(states[i], b))
  {
    OwnersNeverConflict(states, steps, i, a, b);
    KindsExactly(OwnedJob(states[i], a), OwnedReading(states[i], a), OwnedJob(states[i], b), OwnedReading(states[i], b));
  }

  /** Pair by pair, the exact condition under which the keys keep two jobs
      apart: both rows were read (and name one server or one address). */
  lemma KindsExactly(ja: Job, ra: Reading, jb: Job, rb: Reading)
    requires ra.kind == ja.kind && rb.kind == jb.kind
    ensures OfMailbox(ja, {Analyze}) && OfMailbox(jb, AGENT_KINDS) ==>
      (SharedResource(ra, rb) <==> ReadFor(ja, ra) && ReadFor(jb, rb))
    ensures OfMailbox(ja, {Sync, Fetch}) && OfMailbox(jb, {Sync, Fetch}) ==>
      (SharedResource(ra, rb) <==> SameHost(ra, rb) || SameAddress(ra, rb))
    ensures OfMailbox(ja, {Group, Reclassify}) && OfMailbox(jb, INDEX_WRITERS) ==>
      (SharedResource(ra, rb) <==> SameAddress(ra, rb))
    ensures OfMailbox(ja, INDEX_WRITERS) && OfMailbox(jb, INDEX_WRITERS) ==>
      (SameAddress(ra, rb) ==> SharedResource(ra, rb))
    ensures ja.kind in PROBE_KINDS && jb.kind in PROBE_KINDS ==> SharedResource(ra, rb)
  {
    if SameHost(ra, rb) && OfMailbox(ja, {Sync, Fetch}) && OfMailbox(jb, {Sync, Fetch}) {
      assert OnHost(ra, ra.row.value.imapHost) && OnHost(rb, ra.row.value.imapHost);
    }
    if SameAddress(ra, rb) && OfMailbox(ja, INDEX_WRITERS) && OfMailbox(jb, INDEX_WRITERS) {
      assert OnMailbox(ra, ra.row.value.address) && OnMailbox(rb, ra.row.value.address);
    }
  }

  // --- What the jobs work with ---

  function Used(s: State, id: JobId): Reading
    requires AtWork(s, id)
  {
    s.flight[id].phase.used
  }

  /** When two jobs at work share a resource, one of them uses a key both need
      and it did not claim: the keys protect what was read at the claims. */
  lemma WorkersShareUnclaimed(states: seq<State>, steps: seq<Step>, i: nat, a: JobId, b: JobId) returns (k: Key, who: JobId)
    requires IsRun(states, steps) && i <= |steps|
    requires a != b && AtWork(states[i], a) && AtWork(states[i], b)
    requires SharedResource(Used(states[i], a), Used(states[i], b))
    ensures k in KeysOf(Used(states[i], a)) && k in KeysOf(Used(states[i], b))
    ensures (who == a || who == b) && k !in KeysOf(states[i].flight[who].r)
  {
    var s := states[i];
    ReachableInv(states, steps, i);
    OwnersNeverConflict(states, steps, i, a, b);
    ConflictIsSharedResource(s.flight[a].r, s.flight[b].r);
    ConflictIsSharedResource(Used(s, a), Used(s, b));
    k :| k in KeysOf(Used(s, a)) && k in KeysOf(Used(s, b));
    who := if k in KeysOf(s.flight[a].r) then b else a;
  }

  /** The claimer read the row of what is at hand at an earlier step. */
  lemma {:induction false} HandRead(states: seq<State>, steps: seq<Step>, i: nat) returns (n: nat)
    requires IsRun(states, steps) && i <= |steps|
    requires states[i].pc.Test? || states[i].pc.Claim? || states[i].pc.Acquire? || states[i].pc.Start?
    ensures n < i && steps[n].ReadKeys? && states[i].pc.r == ReadingOf(states[n], states[i].pc.job, steps[n].unread)
  {
    if steps[i - 1].ReadKeys? {
      HandIsRead(states[i - 1], steps[i - 1]);
      n := i - 1;
    } else {
      HandStays(states[i - 1], steps[i - 1]);
      n := HandRead(states, steps, i - 1);
    }
  }

  lemma HandIsRead(s: State, step: Step)
    requires Enabled(s, step) && step.ReadKeys?
    ensures var pc := Apply(s, step).pc; pc.Test? && pc.r == ReadingOf(s, pc.job, step.unread)
  {
  }

  lemma HandStays(s: State, step: Step)
    requires Enabled(s, step) && !step.ReadKeys?
    requires var pc := Apply(s, step).pc; pc.Test? || pc.Claim? || pc.Acquire? || pc.Start?
    ensures s.pc.Test? || s.pc.Claim? || s.pc.Acquire? || s.pc.Start?
    ensures Apply(s, step).pc.job == s.pc.job && Apply(s, step).pc.r == s.pc.r
  {
    if OfJob(step) {
      JobFrame(s, step);
    } else if OfDispatcher(step) {
      DispatcherHandStays(s, step);
    } else {
      CallerFrame(s, step);
    }
  }

  lemma DispatcherHandStays(s: State, step: Step)
    requires DispatcherMay(s, step) && !step.ReadKeys?
    requires var pc := ByDispatcher(s, step).pc; pc.Test? || pc.Claim? || pc.Acquire? || pc.Start?
    ensures s.pc.Test? || s.pc.Claim? || s.pc.Acquire? || s.pc.Start?
    ensures ByDispatcher(s, step).pc.job == s.pc.job && ByDispatcher(s, step).pc.r == s.pc.r
  {
  }

  /** The step starts the goroutine of the job. */
  predicate Starts(s: State, step: Step, id: JobId) {
    step.StartJob? && s.pc.Start? && s.pc.job.id == id
  }

  /** A goroutine the step does not start was there, with its job and its
      reading. */
  lemma FlightStays(s: State, step: Step, id: JobId)
    requires Enabled(s, step) && id in Apply(s, step).flight && !Starts(s, step, id)
    ensures id in s.flight
    ensures Apply(s, step).flight[id].job == s.flight[id].job && Apply(s, step).flight[id].r == s.flight[id].r
    ensures AtWork(Apply(s, step), id) ==> Apply(s, step).flight[id] == s.flight[id] || (step.ReadRow? && step.id == id)
  {
    if OfJob(step) {
      JobFlightStays(s, step, id);
    } else if OfDispatcher(step) {
      DispatcherWrites(s, step);
    } else {
      CallerFrame(s, step);
    }
  }

  lemma JobFlightStays(s: State, step: Step, id: JobId)
    requires JobMay(s, step) && id in ByJob(s, step).flight
    ensures id in s.flight
    ensures ByJob(s, step).flight[id].job == s.flight[id].job && ByJob(s, step).flight[id].r == s.flight[id].r
    ensures AtWork(ByJob(s, step), id) ==> ByJob(s, step).flight[id] == s.flight[id] || (step.ReadRow? && step.id == id)
  {
  }

  lemma FlightStarts(s: State, step: Step, id: JobId)
    requires Starts(s, step, id)
    ensures id in Apply(s, step).flight && Apply(s, step).flight[id] == Flight(s.pc.job, s.pc.r, Started)
  {
  }

  lemma {:induction false} FlightRead(states: seq<State>, steps: seq<Step>, i: nat, id: JobId) returns (n: nat)
    requires IsRun(states, steps) && i <= |steps| && id in states[i].flight
    ensures n < i && steps[n].ReadKeys?
    ensures states[i].flight[id].r == ReadingOf(states[n], states[i].flight[id].job, steps[n].unread)
  {
    if Starts(states[i - 1], steps[i - 1], id) {
      FlightStarts(states[i - 1], steps[i - 1], id);
      n := HandRead(states, steps, i - 1);
    } else {
      FlightStays(states[i - 1], steps[i - 1], id);
      n := FlightRead(states, steps, i - 1, id);
    }
  }

  lemma ClaimRead(states: seq<State>, steps: seq<Step>, i: nat, id: JobId) returns (n: nat)
    requires IsRun(states, steps) && i <= |steps| && Owns(states[i], id)
    ensures n < i && steps[n].ReadKeys?
    ensures OwnedReading(states[i], id) == ReadingOf(states[n], OwnedJob(states[i], id), steps[n].unread)
  {
    if BeingStarted(states[i], id) {
      n := HandRead(states, steps, i);
    } else {
      n := FlightRead(states, steps, i, id);
    }
  }

  lemma RowIsRead(s: State, id: JobId, unread: bool)
    requires id in s.flight
    ensures var s' := Apply(s, ReadRow(id, unread));
      id in s'.flight && s'.flight[id] == s.flight[id].(phase := Working(ReadingOf(s, s.flight[id].job, unread)))
  {
  }

  /** A job at work read what it works with at an earlier step. */
  lemma {:induction false} WorkRead(states: seq<State>, steps: seq<Step>, i: nat, id: JobId) returns (m: nat)
    requires IsRun(states, steps) && i <= |steps| && AtWork(states[i], id)
    ensures m < i && steps[m].ReadRow? && steps[m].id == id && id in states[m].flight
    ensures states[m].flight[id].job == states[i].flight[id].job && states[m].flight[id].r == states[i].flight[id].r
    ensures states[i].flight[id].phase.used == ReadingOf(states[m], states[i].flight[id].job, steps[m].unread)
  {
    var s, step := states[i - 1], steps[i - 1];
    if Starts(s, step, id) {
      FlightStarts(s, step, id);
    } else {
      FlightStays(s, step, id);
      if step.ReadRow? && step.id == id {
        RowIsRead(s, id, step.unread);
        m := i - 1;
      } else {
        m := WorkRead(states, steps, i - 1, id);
      }
    }
  }

  /** A job at work read the row of its mailbox twice: for its claim at step n,
      and after its start at step m. */
  lemma ReadTwice(states: seq<State>, steps: seq<Step>, i: nat, id: JobId) returns (n: nat, m: nat)
    requires IsRun(states, steps) && i <= |steps| && AtWork(states[i], id)
    ensures n < m < i && steps[n].ReadKeys? && steps[m].ReadRow? && steps[m].id == id
    ensures var f := states[i].flight[id];
      f.r == ReadingOf(states[n], f.job, steps[n].unread) && f.phase.used == ReadingOf(states[m], f.job, steps[m].unread)
  {
    m := WorkRead(states, steps, i, id);
    n := FlightRead(states, steps, m, id);
  }

  /** A check of the probe mails whose claim read the setting runs beside no
      fetch of the probe server. */
  lemma ProbeCheckApart(states: seq<State>, steps: seq<Step>, i: nat, a: JobId, b: JobId) returns (n: nat)
    requires IsRun(states, steps) && i <= |steps|
    requires a != b && Owns(states[i], a) && Owns(states[i], b)
    requires OwnedJob(states[i], a).kind.ProbeCheck?
    requires OfMailbox(OwnedJob(states[i], b), {Sync, Fetch}) && ReadFor(OwnedJob(states[i], b), OwnedReading(states[i], b))
    ensures n < i && steps[n].ReadKeys?
    ensures !steps[n].unread && Text.TrimSpace(states[n].probeHost) != "" ==>
      !SameHostName(states[n].probeHost, OwnedReading(states[i], b).row.value.imapHost)
  {
    n := ClaimRead(states, steps, i, a);
    OwnersNeverConflict(states, steps, i, a, b);
    OneServerIsShared(OwnedReading(states[i], a), OwnedReading(states[i], b));
  }

  lemma OneServerIsShared(a: Reading, b: Reading)
    requires a.kind.ProbeCheck? && b.kind in {Sync, Fetch} && b.row.Some?
    ensures Text.TrimSpace(a.probeHost) != "" && SameHostName(a.probeHost, b.row.value.imapHost) ==> SharedResource(a, b)
  {
    HostKeyExactly(a.probeHost, b.row.value.imapHost);
    HostKeyExactly(b.row.value.imapHost, a.probeHost);
    HostKeyExactly(a.probeHost, a.probeHost);
    assert OnHost(a, a.probeHost) && OnHost(b, a.probeHost) ==> SharedResource(a, b);
  }

  /** The columns the promises depend on. */
  predicate SameRow(a: Mailbox, b: Mailbox) {
    SameHostName(a.imapHost, b.imapHost) && a.address == b.address
  }

  /** The step changes the host or the address of the mailbox, or deletes it. */
  predicate EditsRow(s: State, step: Step, mid: MailboxId) {
    || (step.PutMailbox? && step.edit.mid == mid && mid in s.mailboxes && !SameRow(s.mailboxes[mid], step.edit.row))
    || (step.CommitDelete? && s.tx.Deleting? && s.tx.mb == mid)
  }

  predicate Unedited(states: seq<State>, steps: seq<Step>, n: nat, m: nat, mid: MailboxId)
    requires n <= m <= |steps| < |states|
  {
    forall j :: n <= j < m ==> !EditsRow(states[j], steps[j], mid)
  }

  lemma RowStays(s: State, step: Step, mid: MailboxId)
    requires Enabled(s, step) && mid in s.mailboxes && !EditsRow(s, step, mid)
    ensures mid in Apply(s, step).mailboxes && SameRow(s.mailboxes[mid], Apply(s, step).mailboxes[mid])
  {
    if OfJob(step) {
      JobFrame(s, step);
    } else if OfDispatcher(step) {
      DispatcherFrame(s, step);
    } else {
      CallerRowStays(s, step, mid);
    }
  }

  lemma CallerRowStays(s: State, step: Step, mid: MailboxId)
    requires CallerMay(s, step) && mid in s.mailboxes && !EditsRow(s, step, mid)
    ensures mid in ByCaller(s, step).mailboxes && SameRow(s.mailboxes[mid], ByCaller(s, step).mailboxes[mid])
  {
  }

  /** The mailbox has the same host and address in both states. */
  predicate RowKept(s: State, s': State, mid: MailboxId) {
    mid in s.mailboxes && mid in s'.mailboxes && SameRow(s.mailboxes[mid], s'.mailboxes[mid])
  }

  lemma RowKeptOn(a: State, b: State, c: State, mid: MailboxId)
    requires RowKept(a, b, mid) && RowKept(b, c, mid)
    ensures RowKept(a, c, mid)
  {
    var x, y, z := a.mailboxes[mid].imapHost, b.mailboxes[mid].imapHost, c.mailboxes[mid].imapHost;
    HostKeyExactly(x, y);
    HostKeyExactly(y, z);
    HostKeyExactly(x, z);
  }

  lemma {:induction false} UneditedRow(states: seq<State>, steps: seq<Step>, n: nat, m: nat, mid: MailboxId)
    requires IsRun(states, steps) && n <= m <= |steps| && mid in states[n].mailboxes && Unedited(states, steps, n, m, mid)
    ensures RowKept(states[n], states[m], mid)
    decreases m
  {
    if n < m {
      UneditedRow(states, steps, n, m - 1, mid);
      RowStays(states[m - 1], steps[m - 1], mid);
      RowKeptOn(states[n], states[m - 1], states[m], mid);
    }
  }

  /** Both reads of the job at work found the row of its mailbox. */
  predicate ReadBoth(s: State, id: JobId) {
    AtWork(s, id) && ReadFor(s.flight[id].job, s.flight[id].r) && ReadFor(s.flight[id].job, s.flight[id].phase.used)
  }

  /** What a job at work uses is what it claimed exactly when the host and the
      address of its mailbox were the same at its two reads, as they are when
      nothing edited the row between them. */
  lemma UsesWhatItClaimed(states: seq<State>, steps: seq<Step>, i: nat, id: JobId) returns (n: nat, m: nat)
    requires IsRun(states, steps) && i <= |steps| && ReadBoth(states[i], id) && states[i].flight[id].job.mailbox.Some?
    ensures n < m < i && steps[n].ReadKeys? && steps[m].ReadRow? && steps[m].id == id
    ensures var f, mid := states[i].flight[id], states[i].flight[id].job.mailbox.value;
      && mid in states[n].mailboxes && mid in states[m].mailboxes
      && f.r.row.value == states[n].mailboxes[mid] && f.phase.used.row.value == states[m].mailboxes[mid]
      && (SameRow(f.r.row.value, f.phase.used.row.value) <==> SameRow(states[n].mailboxes[mid], states[m].mailboxes[mid]))
      && (Unedited(states, steps, n, m, mid) ==> SameRow(f.r.row.value, f.phase.used.row.value))
  {
    n, m := ReadTwice(states, steps, i, id);
    var mid := states[i].flight[id].job.mailbox.value;
    if Unedited(states, steps, n, m, mid) {
      UneditedRow(states, steps, n, m, mid);
    }
  }

  predicate UsesClaimed(s: State, id: JobId) {
    ReadBoth(s, id) && (s.flight[id].job.mailbox.Some? ==> SameRow(s.flight[id].r.row.value, s.flight[id].phase.used.row.value))
  }

  /** Two jobs at work are apart by their kinds, in the rows they work with,
      when each uses what it claimed; so two of them that overlap had a row
      edited between its two reads. */
  lemma WorkersNeverOverlap(states: seq<State>, steps: seq<Step>, i: nat, a: JobId, b: JobId)
    requires IsRun(states, steps) && i <= |steps|
    requires a != b && UsesClaimed(states[i], a) && UsesClaimed(states[i], b)
    ensures ApartByKind(states[i].flight[a].job, Used(states[i], a), states[i].flight[b].job, Used(states[i], b))
  {
    ReachableInv(states, steps, i);
    KindsNeverOverlap(states, steps, i, a, b);
  }

  /** Two jobs that write the index of one mailbox are claimed at the same time
      only when its row was renamed between the two reads of their claims. */
  lemma OneWriterPerMailbox(states: seq<State>, steps: seq<Step>, i: nat, a: JobId, b: JobId, mid: MailboxId) returns (n: nat, m: nat)
    requires IsRun(states, steps) && i <= |steps|
    requires a != b && Owns(states[i], a) && Owns(states[i], b)
    requires var ja, jb := OwnedJob(states[i], a), OwnedJob(states[i], b);
      && OfMailbox(ja, INDEX_WRITERS) && OfMailbox(jb, INDEX_WRITERS) && ja.mailbox == jb.mailbox == Some(mid)
      && ReadFor(ja, OwnedReading(states[i], a)) && ReadFor(jb, OwnedReading(states[i], b))
    ensures n < i && m < i && steps[n].ReadKeys? && steps[m].ReadKeys?
    ensures mid in states[n].mailboxes && mid in states[m].mailboxes
    ensures states[n].mailboxes[mid].address != states[m].mailboxes[mid].address
    ensures if n <= m then !Unedited(states, steps, n, m, mid) else !Unedited(states, steps, m, n, mid)
  {
    n := ClaimRead(states, steps, i, a);
    m := ClaimRead(states, steps, i, b);
    KindsNeverOverlap(states, steps, i, a, b);
    if n <= m && Unedited(states, steps, n, m, mid) {
      UneditedRow(states, steps, n, m, mid);
    } else if m < n && Unedited(states, steps, m, n, mid) {
      UneditedRow(states, steps, m, n, mid);
    }
  }

  // --- How the promises fail ---

  lemma Extend(states: seq<State>, steps: seq<Step>, step: Step)
    returns (states': seq<State>, steps': seq<Step>)
    requires IsRun(states, steps) && Enabled(states[|steps|], step)
    ensures IsRun(states', steps') && steps' == steps + [step]
    ensures states'[|steps'|] == Apply(states[|steps|], step)
  {
    states', steps' := states + [Apply(states[|steps|], step)], steps + [step];
  }

  /** The owners of s are owners of s' of what they were. */
  ghost predicate OwnersStay(s: State, s': State) {
    forall id: JobId :: Owns(s, id) ==> Owns(s', id) && OwnedJob(s', id) == OwnedJob(s, id) && OwnedReading(s', id) == OwnedReading(s, id)
  }

  predicate ReadsWork(steps: seq<Step>) {
    forall n :: 0 <= n < |steps| ==> (steps[n].ReadKeys? ==> !steps[n].unread) && (steps[n].ReadRow? ==> !steps[n].unread)
  }

  /** A queued job whose keys are free is claimed and joins the owners. */
  lemma JoinsOwners(states: seq<State>, steps: seq<Step>) returns (states': seq<State>, steps': seq<Step>)
    requires IsRun(states, steps)
    requires var s := states[|steps|];
      s.pc.Test? && Free(s.locks, KeysOf(s.pc.r)) && IsQueued(s.jobs, s.pc.job.id) && s.tx.NoTx?
    ensures IsRun(states', steps') && (ReadsWork(steps) ==> ReadsWork(steps'))
    ensures var s := states[|steps|];
      states'[|steps'|] == s.(jobs := ClaimRow(s.jobs, s.pc.job.id), pc := Acquire(s.pc.job, s.pc.r))
    ensures Owns(states'[|steps'|], states[|steps|].pc.job.id) && OwnersStay(states[|steps|], states'[|steps'|])
  {
    ReachableInv(states, steps, |steps|);
    states', steps' := Extend(states, steps, TestLocks);
    states', steps' := Extend(states', steps', ClaimJob(true));
  }

  /** A queued job whose row could not be read passes the test and joins every
      owner, whatever their kinds. */
  lemma UnreadRowOverlaps(states: seq<State>, steps: seq<Step>) returns (states': seq<State>, steps': seq<Step>)
    requires IsRun(states, steps)
    requires var s := states[|steps|];
      && s.pc.Test? && !Mailboxless(s.pc.r.kind) && s.pc.r.row.None?
      && IsQueued(s.jobs, s.pc.job.id) && s.tx.NoTx?
    ensures IsRun(states', steps')
    ensures var s, s' := states[|steps|], states'[|steps'|];
      Owns(s', s.pc.job.id) && OwnedJob(s', s.pc.job.id) == s.pc.job && OwnersStay(s, s')
  {
    states', steps' := JoinsOwners(states, steps);
  }

  /** The host of a mailbox is edited between the claim of its fetch and the
      read it works with: the fetch joins any other fetch on the new server. */
  lemma EditedHostOverlaps(states: seq<State>, steps: seq<Step>, a: JobId, b: JobId, edit: Edit)
    returns (states': seq<State>, steps': seq<Step>)
    requires IsRun(states, steps)
    requires var s := states[|steps|];
      && s.tx.NoTx? && edit in s.edits && edit.mid in s.mailboxes
      && a != b && AtWork(s, a) && Used(s, a).row.Some? && InPhase(s, b, Started) && s.flight[b].job.mailbox == Some(edit.mid)
      && SameHostName(Used(s, a).row.value.imapHost, edit.row.imapHost)
    ensures IsRun(states', steps') && (ReadsWork(steps) ==> ReadsWork(steps'))
    ensures var s, s' := states[|steps|], states'[|steps'|];
      && AtWork(s', a) && s'.flight[a] == s.flight[a] && AtWork(s', b) && s'.flight[b].job == s.flight[b].job
      && SameHost(Used(s', a), Used(s', b))
  {
    states', steps' := Extend(states, steps, PutMailbox(edit));
    states', steps' := Extend(states', steps', ReadRow(b, false));
  }

  /** A rename tested before the jobs of its mailbox started goes through
      while one of them runs: the next one finds the keys of the new address
      free and joins it. */
  lemma RenamedMailboxOverlaps(states: seq<State>, steps: seq<Step>, edit: Edit)
    returns (states': seq<State>, steps': seq<Step>)
    requires IsRun(states, steps)
    requires var s := states[|steps|];
      && s.tx.NoTx? && edit in s.edits && edit.mid in s.mailboxes
      && s.pc.Walk? && s.pc.rest != [] && IsQueued(s.jobs, s.pc.rest[0].id)
      && s.pc.rest[0].mailbox == Some(edit.mid) && !Mailboxless(s.pc.rest[0].kind)
      && Free(s.locks, JobResourceKeys(s.pc.rest[0].kind, edit.row))
    ensures IsRun(states', steps') && (ReadsWork(steps) ==> ReadsWork(steps'))
    ensures var s, s' := states[|steps|], states'[|steps'|];
      Owns(s', s.pc.rest[0].id) && OwnedJob(s', s.pc.rest[0].id) == s.pc.rest[0] && OwnersStay(s, s')
  {
    var s := states[|steps|];
    states', steps' := Extend(states, steps, PutMailbox(edit));
    states', steps' := Extend(states', steps', ReadKeys(false));
    var tested := states'[|steps'|];
    assert KeysOf(tested.pc.r) == JobResourceKeys(s.pc.rest[0].kind, edit.row);
    states', steps' := JoinsOwners(states', steps');
    assert OwnersStay(s, tested);
  }

  /** The job at hand, whose keys are free, is claimed and started. */
  lemma ClaimAndStart(states: seq<State>, steps: seq<Step>) returns (states': seq<State>, steps': seq<Step>)
    requires IsRun(states, steps)
    requires var s := states[|steps|];
      s.pc.Test? && Free(s.locks, KeysOf(s.pc.r)) && IsQueued(s.jobs, s.pc.job.id) && s.tx.NoTx?
    ensures IsRun(states', steps') && (ReadsWork(steps) ==> ReadsWork(steps'))
    ensures var s := states[|steps|];
      states'[|steps'|] == s.(
        jobs := ClaimRow(s.jobs, s.pc.job.id), locks := Acquired(s.locks, s.pc.job.id, KeysOf(s.pc.r)),
        running := s.running + 1, flight := s.flight[s.pc.job.id := Flight(s.pc.job, s.pc.r, Started)], pc := Check)
  {
    states', steps' := JoinsOwners(states, steps);
    states', steps' := Extend(states', steps', AcquireKeys);
    states', steps' := Extend(states', steps', StartJob);
  }

  lemma ListQueue(states: seq<State>, steps: seq<Step>, listing: seq<Job>) returns (states': seq<State>, steps': seq<Step>)
    requires IsRun(states, steps)
    requires var s := states[|steps|]; s.pc.Check? && s.running < s.workers && IsListing(s.jobs, listing)
    ensures IsRun(states', steps') && (ReadsWork(steps) ==> ReadsWork(steps'))
    ensures states'[|steps'|] == states[|steps|].(pc := Walk(listing))
  {
    states', steps' := Extend(states, steps, CheckSlot);
    states', steps' := Extend(states', steps', SelectQueued(listing));
  }

  /** Two queued jobs of one kind, the first one claimed or not. */
  function TwoJobs(kind: Kind, m0: MailboxId, m1: MailboxId, first: Status): Jobs {
    map[0 := Job(0, kind, Some(m0), None, 0, first, Some(m0)), 1 := Job(1, kind, Some(m1), None, 1, Queued, Some(m1))]
  }

  lemma ListingOfTwo(kind: Kind, m0: MailboxId, m1: MailboxId)
    ensures IsListing(TwoJobs(kind, m0, m1, Queued), [TwoJobs(kind, m0, m1, Queued)[0], TwoJobs(kind, m0, m1, Queued)[1]])
    ensures IsListing(TwoJobs(kind, m0, m1, Running), [TwoJobs(kind, m0, m1, Running)[1]])
    ensures ClaimRow(TwoJobs(kind, m0, m1, Queued), 0) == TwoJobs(kind, m0, m1, Running)
  {
    var both := [TwoJobs(kind, m0, m1, Queued)[0], TwoJobs(kind, m0, m1, Queued)[1]];
    var one := [TwoJobs(kind, m0, m1, Running)[1]];
    assert both[0].id == 0 && both[1].id == 1 && one[0].id == 1;
    assert Listed(both, 0) && Listed(both, 1) && Listed(one, 1);
  }

  function StartOfTwo(kind: Kind, m0: MailboxId, m1: MailboxId, mailboxes: map<MailboxId, Mailbox>): State {
    State(TwoJobs(kind, m0, m1, Queued), 2, mailboxes, "", NoTx, {}, {}, map[], 2, 0, false, 0, Check, map[])
  }

  /** The first of the two jobs has just been started and the second one is
      listed. */
  ghost predicate FirstStarted(s: State, kind: Kind, m0: MailboxId, m1: MailboxId, mailboxes: map<MailboxId, Mailbox>, edit: Edit)
    requires m0 in mailboxes
  {
    && s.jobs == TwoJobs(kind, m0, m1, Running) && s.mailboxes == mailboxes && s.tx.NoTx? && edit in s.edits
    && s.pc == Walk([TwoJobs(kind, m0, m1, Running)[1]])
    && InPhase(s, 0, Started) && s.flight[0].job == TwoJobs(kind, m0, m1, Queued)[0]
    && s.locks == Acquired(map[], 0, JobResourceKeys(kind, mailboxes[m0]))
  }

  /** A run from a server start in which an edit passes its test and the first
      of two queued jobs starts. */
  lemma FirstOfTwo(kind: Kind, m0: MailboxId, m1: MailboxId, mailboxes: map<MailboxId, Mailbox>, edit: Edit)
    returns (states: seq<State>, steps: seq<Step>)
    requires m0 in mailboxes && m1 in mailboxes && edit.mid in mailboxes && !Mailboxless(kind)
    ensures IsRun(states, steps) && ReadsWork(steps)
    ensures FirstStarted(states[|steps|], kind, m0, m1, mailboxes, edit)
  {
    ListingOfTwo(kind, m0, m1);
    states, steps := FirstAtHand(kind, m0, m1, mailboxes, edit);
    states, steps := ClaimAndStart(states, steps);
    states, steps := ListQueue(states, steps, [TwoJobs(kind, m0, m1, Running)[1]]);
  }

  lemma StartsARun(kind: Kind, m0: MailboxId, m1: MailboxId, mailboxes: map<MailboxId, Mailbox>)
    requires m0 in mailboxes && m1 in mailboxes && !Mailboxless(kind)
    ensures IsRun([StartOfTwo(kind, m0, m1, mailboxes)], [])
  {
  }

  lemma FirstAtHand(kind: Kind, m0: MailboxId, m1: MailboxId, mailboxes: map<MailboxId, Mailbox>, edit: Edit)
    returns (states: seq<State>, steps: seq<Step>)
    requires m0 in mailboxes && m1 in mailboxes && edit.mid in mailboxes && !Mailboxless(kind)
    ensures IsRun(states, steps) && ReadsWork(steps)
    ensures var jobs := TwoJobs(kind, m0, m1, Queued);
      states[|steps|] == StartOfTwo(kind, m0, m1, mailboxes).(
        edits := {edit}, pc := Test(jobs[0], Reading(kind, Some(mailboxes[m0]), ""), [jobs[1]]))
  {
    var jobs := TwoJobs(kind, m0, m1, Queued);
    ListingOfTwo(kind, m0, m1);
    states, steps := [StartOfTwo(kind, m0, m1, mailboxes)], [];
    StartsARun(kind, m0, m1, mailboxes);
    states, steps := Extend(states, steps, BeginEdit(edit, mailboxes[edit.mid]));
    states, steps := ListQueue(states, steps, [jobs[0], jobs[1]]);
    states, steps := Extend(states, steps, ReadKeys(false));
    assert [jobs[0], jobs[1]][1..] == [jobs[1]];
  }

  /** A run from a server start in which two analyses of one mailbox are
      claimed together. */
  lemma UnreadRowsOverlap() returns (states: seq<State>, steps: seq<Step>)
    ensures IsRun(states, steps)
    ensures var s := states[|steps|];
      && Owns(s, 0) && Owns(s, 1)
      && OfMailbox(OwnedJob(s, 0), {Analyze}) && OfMailbox(OwnedJob(s, 1), {Analyze})
  {
    var row := Mailbox("a", "h", true, 0);
    states, steps := FirstOfTwo(Analyze, 1, 1, map[1 := row], Edit(1, row));
    assert Executing(states[|steps|], 0);
    states, steps := Extend(states, steps, ReadKeys(true));
    states, steps := UnreadRowOverlaps(states, steps);
  }

  lemma HostsDiffer()
    ensures HostKey("g") != HostKey("h")
  {
    assert HostKey("g")[5] == 'g' && HostKey("h")[5] == 'h';
  }

  lemma AddressesDiffer(a: Mailbox, b: Mailbox)
    requires a.address != b.address
    ensures MailboxKey(a) != MailboxKey(b)
  {
    assert MailboxKey(a)[8..] == a.address && MailboxKey(b)[8..] == b.address;
  }

  lemma HostIsNoAddress(host: string, mb: Mailbox)
    ensures HostKey(host) != MailboxKey(mb)
  {
    assert HostKey(host)[0] == 'h' && MailboxKey(mb)[0] == 'm';
  }

  /** Fetches of two mailboxes on two servers share no key. */
  lemma FetchesApart(a: Mailbox, b: Mailbox)
    requires HostKey(a.imapHost) != HostKey(b.imapHost) && a.address != b.address
    ensures Free(Acquired(map[], 0, JobResourceKeys(Fetch, a)), JobResourceKeys(Fetch, b))
  {
    AddressesDiffer(a, b);
    HostIsNoAddress(a.imapHost, b);
    HostIsNoAddress(b.imapHost, a);
  }

  /** The first fetch reads the row it works with, and the row of the second
      one is read for its claim. */
  lemma SecondAtHand(states: seq<State>, steps: seq<Step>, mailboxes: map<MailboxId, Mailbox>, edit: Edit)
    returns (states': seq<State>, steps': seq<Step>)
    requires IsRun(states, steps) && mailboxes.Keys == {1, 2}
    requires FirstStarted(states[|steps|], Fetch, 1, 2, mailboxes, edit)
    ensures IsRun(states', steps') && (ReadsWork(steps) ==> ReadsWork(steps'))
    ensures var s, s' := states[|steps|], states'[|steps'|];
      s' == s.(
        flight := s.flight[0 := s.flight[0].(phase := Working(Reading(Fetch, Some(mailboxes[1]), s.probeHost)))],
        pc := Test(TwoJobs(Fetch, 1, 2, Running)[1], Reading(Fetch, Some(mailboxes[2]), s.probeHost), []))
  {
    states', steps' := Extend(states, steps, ReadRow(0, false));
    assert states[|steps|].pc.rest[1..] == [];
    states', steps' := Extend(states', steps', ReadKeys(false));
  }

  /** The second fetch is claimed and started while its mailbox names another
      server. */
  lemma SecondStarted(states: seq<State>, steps: seq<Step>, mailboxes: map<MailboxId, Mailbox>, edit: Edit)
    returns (states': seq<State>, steps': seq<Step>)
    requires IsRun(states, steps) && mailboxes.Keys == {1, 2}
    requires HostKey(mailboxes[1].imapHost) != HostKey(mailboxes[2].imapHost) && mailboxes[1].address != mailboxes[2].address
    requires FirstStarted(states[|steps|], Fetch, 1, 2, mailboxes, edit)
    ensures IsRun(states', steps') && (ReadsWork(steps) ==> ReadsWork(steps'))
    ensures var s, s' := states[|steps|], states'[|steps'|];
      && s'.tx.NoTx? && s'.mailboxes == mailboxes && edit in s'.edits
      && AtWork(s', 0) && s'.flight[0].job == s.flight[0].job && Used(s', 0).row == Some(mailboxes[1])
      && InPhase(s', 1, Started) && s'.flight[1].job == s.jobs[1]
  {
    FetchesApart(mailboxes[1], mailboxes[2]);
    states', steps' := SecondAtHand(states, steps, mailboxes, edit);
    states', steps' := ClaimAndStart(states', steps');
  }

  /** A run from a server start, every read working, in which two fetches work
      on one server. */
  lemma EditedHostRun() returns (states: seq<State>, steps: seq<Step>)
    ensures IsRun(states, steps) && ReadsWork(steps)
    ensures var s := states[|steps|];
      && AtWork(s, 0) && AtWork(s, 1) && OfMailbox(s.flight[0].job, {Fetch}) && OfMailbox(s.flight[1].job, {Fetch})
      && SameHost(Used(s, 0), Used(s, 1))
  {
    var edit := Edit(2, Mailbox("b", "h", true, 0));
    var mailboxes: map<MailboxId, Mailbox> := map[1 := Mailbox("a", "h", true, 0), 2 := Mailbox("b", "g", true, 0)];
    HostsDiffer();
    states, steps := FirstOfTwo(Fetch, 1, 2, mailboxes, edit);
    states, steps := SecondStarted(states, steps, mailboxes, edit);
    states, steps := EditedHostOverlaps(states, steps, 0, 1, edit);
  }

  /** A run from a server start, every read working, in which two jobs write
      the index of one mailbox. */
  lemma RenamedMailboxRun() returns (states: seq<State>, steps: seq<Step>)
    ensures IsRun(states, steps) && ReadsWork(steps)
    ensures var s := states[|steps|];
      && Owns(s, 0) && Owns(s, 1)
      && OfMailbox(OwnedJob(s, 0), {Group}) && OfMailbox(OwnedJob(s, 1), {Group})
      && OwnedJob(s, 0).mailbox == OwnedJob(s, 1).mailbox
  {
    var edit := Edit(1, Mailbox("b", "h", true, 0));
    var row := Mailbox("a", "h", true, 0);
    states, steps := FirstOfTwo(Group, 1, 1, map[1 := row], edit);
    AddressesDiffer(row, edit.row);
    assert JobResourceKeys(Group, edit.row) == [MailboxKey(edit.row)];
    assert Executing(states[|steps|], 0);
    states, steps := RenamedMailboxOverlaps(states, steps, edit);
  }

  // --- The life of a job ---

  /** How far a job is: not queued yet, queued, running, final, pruned. */
  function Progress(s: State, id: JobId): int {
    if id >= s.nextId then 0
    else if id !in s.jobs then 4
    else if s.jobs[id].status.Queued? then 1
    else if s.jobs[id].status.Running? then 2
    else 3
  }

  predicate Claims(s: State, step: Step, id: JobId) {
    step.ClaimJob? && s.pc.Claim? && s.pc.job.id == id && IsQueued(s.jobs, id)
  }

  /** The status follows queued -> running -> done or error, or queued ->
      canceled. */
  lemma StepStatus(s: State, step: Step, id: JobId)
    requires RunningRows(s) && TxView(s) && Enabled(s, step)
    requires id in s.jobs && id in Apply(s, step).jobs && s.jobs[id].status != Apply(s, step).jobs[id].status
    requires id < s.nextId
    ensures var before, after := s.jobs[id].status, Apply(s, step).jobs[id].status;
      || (before.Queued? && after.Running? && Claims(s, step, id))
      || (before.Queued? && after.Canceled? && (step.CancelQueued? || step.CommitDelete?))
      || (before.Running? && step.FinishJob? && step.id == id && after == if step.ok then Done else Error)
  {
    if OfJob(step) {
      JobFrame(s, step);
      assert InState(s.jobs, step.id, Running);
    } else if OfDispatcher(step) {
      DispatcherWrites(s, step);
    } else {
      CallerStatus(s, step, id);
    }
  }

  lemma CallerStatus(s: State, step: Step, id: JobId)
    requires TxView(s) && CallerMay(s, step) && id < s.nextId
    requires id in s.jobs && id in ByCaller(s, step).jobs && s.jobs[id].status != ByCaller(s, step).jobs[id].status
    ensures s.jobs[id].status.Queued? && ByCaller(s, step).jobs[id].status.Canceled? && (step.CancelQueued? || step.CommitDelete?)
  {
  }

  /** The status of the row after the step. */
  ghost function StatusAfter(s: State, step: Step, id: JobId): Status
    requires id in s.jobs
  {
    var row := s.jobs[id];
    if Claims(s, step, id) then Running
    else if step == FinishJob(id, true) then Done
    else if step == FinishJob(id, false) then Error
    else if row.status == Queued && (step == CancelQueued(id) || Forgets(s, step, row)) then Canceled
    else row.status
  }

  /** The deletion of the mailbox of the row goes through. */
  ghost predicate Forgets(s: State, step: Step, row: Job) {
    step == CommitDelete && s.tx.Deleting? && row.mailbox == Some(s.tx.mb)
  }

  ghost predicate RowBecomes(s: State, step: Step, id: JobId, after: Jobs)
    requires id in s.jobs
  {
    var row := s.jobs[id];
    if step.Prune? && id in step.gone then id !in after
    else
      id in after && after[id] == row.(
        status := StatusAfter(s, step, id),
        mailbox := if Forgets(s, step, row) then None else row.mailbox,
        parent := if step.Prune? && row.parent.Some? && row.parent.value in step.gone then None else row.parent)
  }

  /** What each statement does to each row: a claim, a finish and a cancel set
      the status, a deletion cancels what was queued for the mailbox and takes
      the mailbox off its rows, pruning removes rows and takes them off as
      parents, and nothing else changes any row. */
  lemma StepRowExactly(s: State, step: Step, id: JobId)
    requires RunningRows(s) && TxView(s) && Enabled(s, step) && id in s.jobs && id < s.nextId
    ensures RowBecomes(s, step, id, Apply(s, step).jobs)
  {
    if OfJob(step) {
      JobRowExactly(s, step, id);
    } else if OfDispatcher(step) {
      DispatcherRowExactly(s, step, id);
    } else {
      CallerRowExactly(s, step, id);
    }
  }

  lemma JobRowExactly(s: State, step: Step, id: JobId)
    requires JobMay(s, step) && id in s.jobs
    ensures RowBecomes(s, step, id, ByJob(s, step).jobs)
  {
  }

  lemma DispatcherRowExactly(s: State, step: Step, id: JobId)
    requires DispatcherMay(s, step) && id in s.jobs
    ensures RowBecomes(s, step, id, ByDispatcher(s, step).jobs)
  {
  }

  lemma CallerRowExactly(s: State, step: Step, id: JobId)
    requires TxView(s) && CallerMay(s, step) && id in s.jobs && id < s.nextId
    ensures RowBecomes(s, step, id, ByCaller(s, step).jobs)
  {
  }

  /** Every row after the step was there before it, or was just queued. */
  lemma StepRowsFrom(s: State, step: Step, id: JobId)
    requires TxView(s) && Enabled(s, step) && id in Apply(s, step).jobs && id !in s.jobs
    ensures step.Insert? && id == s.nextId
    ensures Apply(s, step).jobs[id] == Job(id, step.kind, step.mailbox, step.parent, step.at, Queued, step.mailbox)
  {
    if OfJob(step) {
      JobFrame(s, step);
    } else if OfDispatcher(step) {
      DispatcherWrites(s, step);
    } else {
      CallerRowsFrom(s, step, id);
    }
  }

  lemma CallerRowsFrom(s: State, step: Step, id: JobId)
    requires TxView(s) && CallerMay(s, step) && id in ByCaller(s, step).jobs && id !in s.jobs
    ensures step.Insert? && id == s.nextId
    ensures ByCaller(s, step).jobs[id] == Job(id, step.kind, step.mailbox, step.parent, step.at, Queued, step.mailbox)
  {
  }

  /** In every run each step does to each row exactly what its statement says,
      and a row that comes is a queued one just inserted. */
  lemma EveryRowExactly(states: seq<State>, steps: seq<Step>, i: nat, id: JobId)
    requires IsRun(states, steps) && i < |steps|
    ensures id in states[i].jobs ==> RowBecomes(states[i], steps[i], id, states[i + 1].jobs)
    ensures id !in states[i].jobs && id in states[i + 1].jobs ==>
      && steps[i].Insert?
      && states[i + 1].jobs[id] == Job(id, steps[i].kind, steps[i].mailbox, steps[i].parent, steps[i].at, Queued, steps[i].mailbox)
  {
    ReachableInv(states, steps, i);
    if id in states[i].jobs {
      StepRowExactly(states[i], steps[i], id);
    } else if id in states[i + 1].jobs {
      StepRowsFrom(states[i], steps[i], id);
    }
  }

  /** A final status stays until the row is pruned, and a pruned id never
      comes back. */
  lemma StepProgress(s: State, step: Step, id: JobId)
    requires RunningRows(s) && Rows(s) && TxView(s) && Enabled(s, step)
    ensures Progress(s, id) <= Progress(Apply(s, step), id)
    ensures Progress(s, id) == 0 ==> Progress(Apply(s, step), id) <= 1
    ensures Progress(s, id) < 3 ==> Progress(Apply(s, step), id) < 4
  {
    if OfJob(step) {
      JobFrame(s, step);
      assert step.FinishJob? ==> InState(s.jobs, step.id, Running);
    } else if OfDispatcher(step) {
      DispatcherFrame(s, step);
      DispatcherWrites(s, step);
    } else {
      CallerProgress(s, step, id);
    }
  }

  lemma CallerProgress(s: State, step: Step, id: JobId)
    requires Rows(s) && TxView(s) && CallerMay(s, step)
    ensures Progress(s, id) <= Progress(ByCaller(s, step), id)
    ensures Progress(s, id) == 0 ==> Progress(ByCaller(s, step), id) <= 1
    ensures Progress(s, id) < 3 ==> Progress(ByCaller(s, step), id) < 4
  {
  }

  lemma ProgressMonotone(states: seq<State>, steps: seq<Step>, i: nat, j: nat, id: JobId)
    requires IsRun(states, steps) && i <= j <= |steps|
    ensures Progress(states[i], id) <= Progress(states[j], id)
  {
    forall n: nat | i <= n < j
      ensures Progress(states[n], id) <= Progress(states[n + 1], id)
    {
      ReachableInv(states, steps, n);
      StepProgress(states[n], steps[n], id);
    }
    ProgressChain(states, i, j, id);
  }

  lemma {:induction false} ProgressChain(states: seq<State>, i: nat, j: nat, id: JobId)
    requires i <= j < |states| && forall n :: i <= n < j ==> Progress(states[n], id) <= Progress(states[n + 1], id)
    ensures Progress(states[i], id) <= Progress(states[j], id)
    decreases j
  {
    if i < j {
      ProgressChain(states, i, j - 1, id);
      assert Progress(states[j - 1], id) <= Progress(states[j - 1 + 1], id);
    }
  }

  /** No job is claimed twice in a run. */
  lemma ClaimedOnce(states: seq<State>, steps: seq<Step>, i: nat, j: nat, id: JobId)
    requires IsRun(states, steps) && i < j < |steps|
    requires Claims(states[i], steps[i], id)
    ensures !Claims(states[j], steps[j], id)
  {
    ReachableInv(states, steps, i);
    ReachableInv(states, steps, j);
    assert Progress(states[i + 1], id) == 2;
    ProgressMonotone(states, steps, i + 1, j, id);
  }

  lemma StepLost(s: State, step: Step)
    ensures s.lost <= Apply(s, step).lost
  {
    if OfDispatcher(step) {
      DispatcherLost(s, step);
    }
  }

  lemma DispatcherLost(s: State, step: Step)
    ensures s.lost <= ByDispatcher(s, step).lost
  {
  }

  /** A row that was lost stays running for the rest of the run. */
  lemma LostStays(states: seq<State>, steps: seq<Step>, i: nat, j: nat, id: JobId)
    requires IsRun(states, steps) && i <= j <= |steps| && id in states[i].lost
    ensures id in states[j].lost && InState(states[j].jobs, id, Running)
  {
    forall n: nat | i <= n < j
      ensures states[n].lost <= states[n + 1].lost
    {
      StepLost(states[n], steps[n]);
    }
    LostChain(states, i, j);
    ReachableInv(states, steps, j);
  }

  lemma {:induction false} LostChain(states: seq<State>, i: nat, j: nat)
    requires i <= j < |states| && forall n :: i <= n < j ==> states[n].lost <= states[n + 1].lost
    ensures states[i].lost <= states[j].lost
    decreases j
  {
    if i < j {
      LostChain(states, i, j - 1);
      assert states[j - 1].lost <= states[j - 1 + 1].lost;
    }
  }

  /** A job runs for the mailbox it was queued for: it is never claimed with
      the NULL a deleted mailbox leaves, which would expand it to every mailbox. */
  lemma ClaimedForItsMailbox(states: seq<State>, steps: seq<Step>, i: nat, id: JobId)
    requires IsRun(states, steps) && i < |steps| && Claims(states[i], steps[i], id)
    ensures states[i].pc.job.mailbox == states[i].jobs[id].mailbox == states[i].jobs[id].origin
    ensures states[i].pc.job.mailbox.Some? ==> states[i].pc.job.mailbox.value in states[i].mailboxes
  {
    ReachableInv(states, steps, i);
    assert Fresh(states[i], AtHand(states[i].pc)[0]);
  }

  // --- Deleting a mailbox ---

  /** The transaction was begun at step i and ends at step j. */
  ghost predicate DeletionSpan(states: seq<State>, steps: seq<Step>, i: nat, j: nat, mb: MailboxId) {
    && IsRun(states, steps) && i < j < |steps|
    && steps[i] == CancelJobsOf(mb)
    && (forall n :: i < n <= j ==> !states[n].tx.NoTx?)
    && states[j + 1].tx.NoTx?
  }

  /** The write lock keeps every row as it was when the deletion began. */
  lemma DeletionFreezes(states: seq<State>, steps: seq<Step>, i: nat, j: nat, mb: MailboxId)
    requires DeletionSpan(states, steps, i, j, mb)
    ensures Frozen(states[i], states[j], mb)
  {
    BeginFreezes(states[i], steps[i], states[i + 1], mb);
    forall n: nat | i < n < j
      ensures Frozen(states[n], states[n + 1], states[n].tx.mb)
    {
      LockFreezes(states[n], steps[n], states[n + 1]);
    }
    FrozenChain(states, i, j, mb);
  }

  lemma {:induction false} FrozenChain(states: seq<State>, i: nat, j: nat, mb: MailboxId)
    requires i < j < |states|
    requires Frozen(states[i], states[i + 1], mb)
    requires forall n :: i < n < j ==> !states[n].tx.NoTx? && Frozen(states[n], states[n + 1], states[n].tx.mb)
    ensures Frozen(states[i], states[j], mb)
  {
    if j > i + 1 {
      FrozenChain(states, i, j - 1, mb);
      assert Frozen(states[j - 1], states[j - 1 + 1], states[j - 1].tx.mb);
    }
  }

  predicate Frozen(before: State, now: State, mb: MailboxId) {
    now.jobs == before.jobs && now.mailboxes == before.mailboxes && !now.tx.NoTx? && now.tx.mb == mb
  }

  lemma BeginFreezes(s: State, step: Step, s': State, mb: MailboxId)
    requires step == CancelJobsOf(mb) && s' == Apply(s, step)
    ensures Frozen(s, s', mb)
  {
  }

  lemma LockFreezes(s: State, step: Step, s': State)
    requires Enabled(s, step) && s' == Apply(s, step) && !s.tx.NoTx? && !s'.tx.NoTx?
    ensures Frozen(s, s', s.tx.mb)
  {
    if OfJob(step) {
      JobFrame(s, step);
    } else if OfDispatcher(step) {
      DispatcherFrame(s, step);
      DispatcherWrites(s, step);
    } else {
      CallerFreezes(s, step);
    }
  }

  lemma CallerFreezes(s: State, step: Step)
    requires CallerMay(s, step) && !s.tx.NoTx? && !ByCaller(s, step).tx.NoTx?
    ensures Frozen(s, ByCaller(s, step), s.tx.mb)
  {
  }

  /** No job that was queued for the mailbox is queued or running. */
  ghost predicate NoneActive(jobs: Jobs, mb: MailboxId) {
    forall id :: id in jobs && jobs[id].origin == Some(mb) ==> IsFinal(jobs[id].status) && jobs[id].mailbox != Some(mb)
  }

  /** The rows of the other jobs are as they were. */
  ghost predicate OthersKept(before: Jobs, after: Jobs, mb: MailboxId) {
    before.Keys == after.Keys && forall id :: id in before && before[id].mailbox != Some(mb) ==> after[id] == before[id]
  }

  lemma CommitOutcome(s: State)
    requires Rows(s) && TxView(s) && s.tx.Deleting?
    ensures !HasRunningFor(s.jobs, s.tx.mb)
    ensures NoneActive(Apply(s, CommitDelete).jobs, s.tx.mb) && OthersKept(s.jobs, Apply(s, CommitDelete).jobs, s.tx.mb)
  {
  }

  ghost predicate RunsFor(jobs: Jobs, id: JobId, mb: MailboxId) {
    id in jobs && jobs[id].status == Running && jobs[id].mailbox == Some(mb)
  }

  /** A deletion that ends goes through only when no job of the mailbox was
      running as it began, is refused only when one was, or rolls back because a
      statement failed. After it went through no job queued for the mailbox is
      queued or running any more; otherwise every row is unchanged. */
  lemma DeletionOutcome(states: seq<State>, steps: seq<Step>, i: nat, j: nat, mb: MailboxId)
    requires DeletionSpan(states, steps, i, j, mb)
    ensures steps[j].CommitDelete? || steps[j].CheckRunning? || steps[j].RollBack?
    ensures steps[j].CommitDelete? ==> forall id :: !RunsFor(states[i].jobs, id, mb)
    ensures steps[j].CheckRunning? ==> exists id :: RunsFor(states[i].jobs, id, mb)
    ensures steps[j].CommitDelete? ==>
      && states[j + 1].mailboxes == states[i].mailboxes - {mb}
      && NoneActive(states[j + 1].jobs, mb) && OthersKept(states[i].jobs, states[j + 1].jobs, mb)
    ensures !steps[j].CommitDelete? ==> states[j + 1].jobs == states[i].jobs && states[j + 1].mailboxes == states[i].mailboxes
  {
    DeletionFreezes(states, steps, i, j, mb);
    ReachableInv(states, steps, j);
    EndingStep(states[j], steps[j]);
    EndsDeletion(states[j], steps[j]);
    RunsForExactly(states[i].jobs, mb);
  }

  lemma RunsForExactly(jobs: Jobs, mb: MailboxId)
    ensures HasRunningFor(jobs, mb) <==> exists id :: RunsFor(jobs, id, mb)
  {
    if HasRunningFor(jobs, mb) {
      var id :| id in jobs && jobs[id].mailbox == Some(mb) && jobs[id].status.Running?;
      assert RunsFor(jobs, id, mb);
    }
  }

  /** A lost row refuses every later deletion of its mailbox. */
  lemma LostRefusesDeletion(states: seq<State>, steps: seq<Step>, n: nat, i: nat, j: nat, mb: MailboxId, id: JobId)
    requires DeletionSpan(states, steps, i, j, mb) && n <= i && id in states[n].lost
    requires id in states[i].jobs && states[i].jobs[id].mailbox == Some(mb)
    ensures !steps[j].CommitDelete?
  {
    LostStays(states, steps, n, i, id);
    assert RunsFor(states[i].jobs, id, mb);
    DeletionOutcome(states, steps, i, j, mb);
  }

  lemma EndingStep(s: State, step: Step)
    requires Enabled(s, step) && !s.tx.NoTx? && Apply(s, step).tx.NoTx?
    ensures step.CommitDelete? || step.CheckRunning? || step.RollBack?
  {
    if OfJob(step) {
      JobFrame(s, step);
    } else if OfDispatcher(step) {
      DispatcherFrame(s, step);
    }
  }

  lemma EndsDeletion(s: State, step: Step)
    requires Rows(s) && TxView(s) && Enabled(s, step) && !s.tx.NoTx? && Apply(s, step).tx.NoTx?
    requires step.CommitDelete? || step.CheckRunning? || step.RollBack?
    ensures step.CommitDelete? ==> !HasRunningFor(s.jobs, s.tx.mb)
    ensures step.CheckRunning? ==> HasRunningFor(s.jobs, s.tx.mb)
    ensures step.CommitDelete? ==>
      && Apply(s, step).mailboxes == s.mailboxes - {s.tx.mb}
      && NoneActive(Apply(s, step).jobs, s.tx.mb) && OthersKept(s.jobs, Apply(s, step).jobs, s.tx.mb)
    ensures !step.CommitDelete? ==> Apply(s, step).jobs == s.jobs && Apply(s, step).mailboxes == s.mailboxes
  {
    if step.CommitDelete? {
      CommitOutcome(s);
    } else if step.CheckRunning? {
      CheckOutcome(s);
    }
  }

  lemma CheckOutcome(s: State)
    requires TxView(s) && s.tx.Canceling? && ByCaller(s, CheckRunning).tx.NoTx?
    ensures HasRunningFor(s.jobs, s.tx.mb)
  {
    assert forall id :: id in s.jobs ==> (s.tx.view[id].status.Running? <==> s.jobs[id].status.Running?);
  }
}
