/** The jobs one request causes: how the in-process runner works through them,
    and the two ways the command line finds them again (app/modules/jobs.go,
    app/modules/cli_jobs.go). The table is a sequence: a row's id is its
    index, and rows are appended. */
module JobTree {
  import opened Options
  import opened JobKeys
  import opened JobTable

  type Rows = seq<Job>

  /** Every row is stored under its id, after its parent, and only jobs that
      have run have children. */
  ghost predicate Valid(rows: Rows) {
    && (forall i :: 0 <= i < |rows| ==> rows[i].id == i && (rows[i].parent.Some? ==> rows[i].parent.value < i))
    && (forall i :: 0 <= i < |rows| && rows[i].parent.Some? ==> !rows[rows[i].parent.value].status.Queued?)
  }

  /** The row is the root or was caused by it, directly or not. */
  predicate InTree(rows: Rows, root: JobId, id: JobId)
    decreases id
  {
    id < |rows| && (id == root || (rows[id].parent.Some? && rows[id].parent.value < id && InTree(rows, root, rows[id].parent.value)))
  }

  // --- The in-process runner ---

  /** What running a job finds: the mailboxes an expansion created a child for
      (not the ones with an identical active job), whether a follow-up analysis
      was created, and whether the job succeeded. */
  datatype Outcome = Outcome(created: set<MailboxId>, analysis: bool, ok: bool)

  predicate Analyzable(kind: Kind) {
    kind.Sync? || kind.Group? || kind.Reindex? || kind.Reclassify?
  }

  function ChildOf(id: JobId, kind: Kind, mailbox: MailboxId, parent: Job): Job {
    Job(id, kind, Some(mailbox), Some(parent.id), parent.createdAt, Queued, Some(mailbox))
  }

  /** The children runExpansion creates, one per target mailbox in order. */
  function Expanded(next: JobId, job: Job, targets: seq<MailboxId>, created: set<MailboxId>): Rows
    decreases |targets|
  {
    if targets == [] then []
    else if targets[0] in created then
      [ChildOf(next, job.kind, targets[0], job)] + Expanded(next + 1, job, targets[1..], created)
    else Expanded(next, job, targets[1..], created)
  }

  /** The rows a run of the job appends. */
  function Spawned(next: JobId, job: Job, targets: seq<MailboxId>, o: Outcome): Rows {
    if Mailboxless(job.kind) then []
    else if job.mailbox.None? then Expanded(next, job, targets, o.created)
    else if Analyzable(job.kind) && o.analysis then [ChildOf(next, Analyze, job.mailbox.value, job)]
    else []
  }

  function Ran(rows: Rows, id: JobId, targets: seq<MailboxId>, o: Outcome): Rows
    requires id < |rows|
  {
    rows[id := rows[id].(status := if o.ok then Done else Error)] + Spawned(|rows|, rows[id], targets, o)
  }

  /** How many jobs can still come of a queued job, itself included: an
      expansion over n mailboxes, a job that may queue an analysis, the rest. */
  function Weight(job: Job, n: nat): nat {
    if Mailboxless(job.kind) then 1
    else if job.mailbox.None? then 1 + n * (if Analyzable(job.kind) then 2 else 1)
    else if Analyzable(job.kind) then 2
    else 1
  }

  predicate Next(job: Job, chain: set<JobId>) {
    job.status.Queued? && job.parent.Some? && job.parent.value in chain
  }

  /** The weight of the queued jobs the chain caused. */
  function Load(rows: Rows, chain: set<JobId>, n: nat): nat {
    if rows == [] then 0
    else Load(rows[..|rows| - 1], chain, n) + (if Next(rows[|rows| - 1], chain) then Weight(rows[|rows| - 1], n) else 0)
  }

  lemma {:induction false} LoadAppend(a: Rows, b: Rows, chain: set<JobId>, n: nat)
    ensures Load(a + b, chain, n) == Load(a, chain, n) + Load(b, chain, n)
  {
    if b == [] {
      assert a + b == a;
    } else {
      assert (a + b)[..|a + b| - 1] == a + b[..|b| - 1];
      LoadAppend(a, b[..|b| - 1], chain, n);
    }
  }

  lemma {:induction false} LoadSame(a: Rows, b: Rows, chain: set<JobId>, chain': set<JobId>, n: nat)
    requires |a| == |b|
    requires forall i :: 0 <= i < |a| ==> (Next(a[i], chain) <==> Next(b[i], chain')) && Weight(a[i], n) == Weight(b[i], n)
    ensures Load(a, chain, n) == Load(b, chain', n)
  {
    if a != [] {
      LoadSame(a[..|a| - 1], b[..|b| - 1], chain, chain', n);
    }
  }

  lemma {:induction false} ExpandedRows(next: JobId, job: Job, targets: seq<MailboxId>, created: set<MailboxId>, chain: set<JobId>, n: nat)
    ensures var rows := Expanded(next, job, targets, created);
      && |rows| <= |targets|
      && (forall i :: 0 <= i < |rows| ==>
            rows[i].id == next + i && rows[i].parent == Some(job.id) && rows[i].status.Queued? && rows[i].kind == job.kind && rows[i].mailbox.Some?)
      && Load(rows, chain, n) <= |targets| * (if Analyzable(job.kind) then 2 else 1)
    decreases |targets|
  {
    if targets != [] {
      if targets[0] in created {
        var head := ChildOf(next, job.kind, targets[0], job);
        var rest := Expanded(next + 1, job, targets[1..], created);
        ExpandedRows(next + 1, job, targets[1..], created, chain, n);
        LoadAppend([head], rest, chain, n);
        assert Load([head], chain, n) <= (if Analyzable(job.kind) then 2 else 1) by {
          assert [head][..0] == [];
        }
      } else {
        ExpandedRows(next, job, targets[1..], created, chain, n);
      }
    }
  }

  /** The jobs a job causes weigh less than the job. */
  lemma SpawnedWeighsLess(next: JobId, job: Job, targets: seq<MailboxId>, o: Outcome, chain: set<JobId>)
    ensures var rows := Spawned(next, job, targets, o);
      && Load(rows, chain, |targets|) < Weight(job, |targets|)
      && (forall i :: 0 <= i < |rows| ==> rows[i].id == next + i && rows[i].parent == Some(job.id) && rows[i].status.Queued?)
  {
    if !Mailboxless(job.kind) && job.mailbox.None? {
      ExpandedRows(next, job, targets, o.created, chain, |targets|);
    } else if !Mailboxless(job.kind) && Analyzable(job.kind) && o.analysis {
      var rows := Spawned(next, job, targets, o);
      assert rows[..0] == [];
    }
  }

  /** Running the next job makes the load smaller. */
  lemma RanWeighsLess(rows: Rows, chain: set<JobId>, id: JobId, targets: seq<MailboxId>, o: Outcome)
    requires Valid(rows) && id < |rows| && Next(rows[id], chain)
    ensures Load(Ran(rows, id, targets, o), chain + {id}, |targets|) < Load(rows, chain, |targets|)
  {
    var n := |targets|;
    var spawned := Spawned(|rows|, rows[id], targets, o);
    var done := rows[id].(status := if o.ok then Done else Error);
    SpawnedWeighsLess(|rows|, rows[id], targets, o, chain + {id});
    LoadAppend(rows[id := done], spawned, chain + {id}, n);
    LoadUpdate(rows, chain, id, done, n);
  }

  lemma LoadUpdate(rows: Rows, chain: set<JobId>, id: JobId, done: Job, n: nat)
    requires Valid(rows) && id < |rows| && Next(rows[id], chain) && !done.status.Queued?
    ensures Load(rows[id := done], chain + {id}, n) == Load(rows, chain, n) - Weight(rows[id], n)
  {
    var before, after := rows[..id], rows[id + 1..];
    LoadSplit(rows, chain, id, n);
    LoadSplit(rows[id := done], chain + {id}, id, n);
    assert rows[id := done][..id] == before && rows[id := done][id + 1..] == after;
    // no row has the queued job as its parent yet
    LoadSame(before, before, chain, chain + {id}, n);
    LoadSame(after, after, chain, chain + {id}, n);
  }

  lemma LoadSplit(rows: Rows, chain: set<JobId>, id: JobId, n: nat)
    requires id < |rows|
    ensures Load(rows, chain, n) ==
            Load(rows[..id], chain, n) + (if Next(rows[id], chain) then Weight(rows[id], n) else 0) + Load(rows[id + 1..], chain, n)
  {
    assert rows == rows[..id + 1] + rows[id + 1..];
    LoadAppend(rows[..id + 1], rows[id + 1..], chain, n);
    assert rows[..id + 1][..id] == rows[..id];
  }

  /** The chain holds the first job and jobs it caused, all of them run; every
      job one of the chain caused is in the chain or queued. */
  ghost predicate ChainOk(rows: Rows, first: JobId, chain: set<JobId>) {
    && Valid(rows) && first < |rows| && first in chain
    && (forall id :: id in chain ==> id < |rows| && IsFinal(rows[id].status) && InTree(rows, first, id))
    && (forall i :: 0 <= i < |rows| && rows[i].parent.Some? && rows[i].parent.value in chain ==> i in chain || rows[i].status.Queued?)
  }

  lemma RanValid(rows: Rows, id: JobId, targets: seq<MailboxId>, o: Outcome)
    requires Valid(rows) && id < |rows|
    ensures Valid(Ran(rows, id, targets, o))
  {
    SpawnedWeighsLess(|rows|, rows[id], targets, o, {});
  }

  lemma RanChain(rows: Rows, first: JobId, chain: set<JobId>, id: JobId, targets: seq<MailboxId>, o: Outcome)
    requires ChainOk(rows, first, chain) && id < |rows| && Next(rows[id], chain)
    ensures ChainOk(Ran(rows, id, targets, o), first, chain + {id})
    ensures Ran(rows, id, targets, o)[..first] == rows[..first]
  {
    var ran := Ran(rows, id, targets, o);
    RootNotBelowItself(rows, first, rows[id].parent.value);
    RanValid(rows, id, targets, o);
    SpawnedWeighsLess(|rows|, rows[id], targets, o, {});
    forall k | k in chain + {id}
      ensures InTree(ran, first, k)
    {
      SameTree(rows, ran, first, k);
    }
  }

  lemma FirstChain(rows: Rows, job: Job, targets: seq<MailboxId>, o: Outcome)
    requires Valid(rows) && job.id == |rows| && job.parent.None?
    ensures ChainOk(Ran(rows + [job], job.id, targets, o), job.id, {job.id})
    ensures Ran(rows + [job], job.id, targets, o)[..job.id] == rows
  {
    RanValid(rows + [job], job.id, targets, o);
    SpawnedWeighsLess(|rows| + 1, job, targets, o, {});
  }

  // --- What a run causes, said of the rows ---

  ghost predicate IsChild(rows: Rows, id: JobId, k: JobId) {
    k < |rows| && rows[k].parent == Some(id)
  }

  /** The target of the first job comes before the one of the second. */
  ghost predicate Ahead(targets: seq<MailboxId>, a: Job, b: Job) {
    exists p, q :: 0 <= p < q < |targets| && a.mailbox == Some(targets[p]) && b.mailbox == Some(targets[q])
  }

  /** The job has a child of its kind for each target it created one for, in
      the order of the targets, and no other. */
  ghost predicate ChildPerTarget(rows: Rows, id: JobId, targets: seq<MailboxId>, created: set<MailboxId>)
    requires id < |rows|
  {
    && (forall mb :: mb in targets && mb in created ==> exists k: JobId :: IsChild(rows, id, k) && rows[k].mailbox == Some(mb))
    && (forall k: JobId :: IsChild(rows, id, k) ==>
          rows[k].kind == rows[id].kind && rows[k].mailbox.Some? && rows[k].mailbox.value in created && rows[k].mailbox.value in targets)
    && (forall k: JobId, l: JobId :: k < l && IsChild(rows, id, k) && IsChild(rows, id, l) ==> Ahead(targets, rows[k], rows[l]))
  }

  ghost predicate NoChild(rows: Rows, id: JobId) {
    forall k: JobId :: !IsChild(rows, id, k)
  }

  /** The only child is an analysis of the mailbox of the job. */
  ghost predicate OneAnalysis(rows: Rows, id: JobId)
    requires id < |rows|
  {
    && (exists k: JobId :: IsChild(rows, id, k))
    && (forall k: JobId :: IsChild(rows, id, k) ==> rows[k].kind == Analyze && rows[k].mailbox == rows[id].mailbox)
    && (forall k: JobId, l: JobId :: IsChild(rows, id, k) && IsChild(rows, id, l) ==> k == l)
  }

  /** A job without a mailbox expands, unless its kind takes none; one that
      changed the groups of its mailbox queues the analysis that was wanted;
      any other causes nothing. */
  ghost predicate Caused(rows: Rows, id: JobId, targets: seq<MailboxId>, o: Outcome)
    requires id < |rows|
  {
    var job := rows[id];
    if job.kind in {Notify, ProbeSend, ProbeCheck} then NoChild(rows, id)
    else if job.mailbox == None then ChildPerTarget(rows, id, targets, o.created)
    else if job.kind in {Sync, Group, Reindex, Reclassify} && o.analysis then OneAnalysis(rows, id)
    else NoChild(rows, id)
  }

  /** The job ended as it went, and caused what it had to. */
  ghost predicate RanAs(rows: Rows, id: JobId, targets: seq<MailboxId>, o: Outcome) {
    id < |rows| && rows[id].status == (if o.ok then Done else Error) && Caused(rows, id, targets, o)
  }

  /** With every mailbox listed once, each target created for has exactly one
      child, and the children come in the order of the targets. */
  lemma OneChildPerTarget(rows: Rows, id: JobId, targets: seq<MailboxId>, created: set<MailboxId>)
    requires id < |rows| && ChildPerTarget(rows, id, targets, created)
    requires forall p, q :: 0 <= p < q < |targets| ==> targets[p] != targets[q]
    ensures forall k: JobId, l: JobId :: IsChild(rows, id, k) && IsChild(rows, id, l) && rows[k].mailbox == rows[l].mailbox ==> k == l
    ensures forall p, q, k: JobId, l: JobId ::
      (0 <= p < q < |targets| && IsChild(rows, id, k) && IsChild(rows, id, l)
       && rows[k].mailbox == Some(targets[p]) && rows[l].mailbox == Some(targets[q])) ==> k < l
  {
    forall k: JobId, l: JobId | IsChild(rows, id, k) && IsChild(rows, id, l) && k < l
      ensures rows[k].mailbox != rows[l].mailbox
    {
      assert Ahead(targets, rows[k], rows[l]);
    }
  }

  lemma {:induction false} ExpandedExactly(next: JobId, job: Job, targets: seq<MailboxId>, created: set<MailboxId>)
    ensures var rows := Expanded(next, job, targets, created);
      && (forall i :: 0 <= i < |rows| ==>
            rows[i].kind == job.kind && rows[i].mailbox.Some? && rows[i].mailbox.value in created && rows[i].mailbox.value in targets)
      && (forall mb :: mb in targets && mb in created ==> exists i :: 0 <= i < |rows| && rows[i].mailbox == Some(mb))
      && (forall i, j :: 0 <= i < j < |rows| ==> Ahead(targets, rows[i], rows[j]))
    decreases |targets|
  {
    if targets != [] {
      var rows := Expanded(next, job, targets, created);
      if targets[0] in created {
        var rest := Expanded(next + 1, job, targets[1..], created);
        ExpandedExactly(next + 1, job, targets[1..], created);
        assert rows == [ChildOf(next, job.kind, targets[0], job)] + rest;
        forall mb | mb in targets && mb in created
          ensures exists i :: 0 <= i < |rows| && rows[i].mailbox == Some(mb)
        {
          if mb == targets[0] {
            assert rows[0].mailbox == Some(mb);
          } else {
            var i :| 0 <= i < |rest| && rest[i].mailbox == Some(mb);
            assert rows[i + 1] == rest[i];
          }
        }
        forall i, j | 0 <= i < j < |rows|
          ensures Ahead(targets, rows[i], rows[j])
        {
          AheadFrom(targets, rows, rest, i, j);
        }
      } else {
        ExpandedExactly(next, job, targets[1..], created);
        assert rows == Expanded(next, job, targets[1..], created);
        forall i, j | 0 <= i < j < |rows|
          ensures Ahead(targets, rows[i], rows[j])
        {
          AheadInMore(targets, rows[i], rows[j]);
        }
      }
    }
  }

  lemma AheadInMore(targets: seq<MailboxId>, a: Job, b: Job)
    requires targets != [] && Ahead(targets[1..], a, b)
    ensures Ahead(targets, a, b)
  {
    var rest := targets[1..];
    var p, q :| 0 <= p < q < |rest| && a.mailbox == Some(rest[p]) && b.mailbox == Some(rest[q]);
    assert a.mailbox == Some(targets[p + 1]) && b.mailbox == Some(targets[q + 1]);
  }

  lemma AheadFrom(targets: seq<MailboxId>, rows: Rows, rest: Rows, i: nat, j: nat)
    requires targets != [] && |rows| == |rest| + 1 && rows[1..] == rest && rows[0].mailbox == Some(targets[0])
    requires forall k :: 0 <= k < |rest| ==> rest[k].mailbox.Some? && rest[k].mailbox.value in targets[1..]
    requires forall k, l :: 0 <= k < l < |rest| ==> Ahead(targets[1..], rest[k], rest[l])
    requires i < j < |rows|
    ensures Ahead(targets, rows[i], rows[j])
  {
    assert rows[j] == rest[j - 1];
    if i == 0 {
      var q :| 0 <= q < |targets[1..]| && targets[1..][q] == rows[j].mailbox.value;
      assert rows[i].mailbox == Some(targets[0]) && rows[j].mailbox == Some(targets[q + 1]);
    } else {
      assert rows[i] == rest[i - 1];
      AheadInMore(targets, rows[i], rows[j]);
    }
  }

  /** A job that has no child yet causes what it has to when it runs. */
  lemma RanCauses(rows: Rows, id: JobId, targets: seq<MailboxId>, o: Outcome)
    requires Valid(rows) && id < |rows| && rows[id].status.Queued?
    ensures RanAs(Ran(rows, id, targets, o), id, targets, o)
  {
    var job, ran, spawned := rows[id], Ran(rows, id, targets, o), Spawned(|rows|, rows[id], targets, o);
    assert ran[id].kind == job.kind && ran[id].mailbox == job.mailbox;
    ChildrenAreSpawned(rows, id, targets, o);
    if !Mailboxless(job.kind) && job.mailbox.None? {
      ExpandedExactly(|rows|, job, targets, o.created);
      assert spawned == Expanded(|rows|, job, targets, o.created);
      assert forall i :: 0 <= i < |spawned| ==> spawned[i].kind == ran[id].kind && spawned[i].mailbox.Some?;
      ExpansionCauses(ran, id, |rows|, spawned, targets, o.created);
    } else if spawned != [] {
      assert IsChild(ran, id, |rows|);
    }
  }

  /** The rows from n on are the children of the job. */
  ghost predicate Appended(ran: Rows, id: JobId, n: nat, spawned: Rows) {
    && |ran| == n + |spawned|
    && (forall k: JobId :: IsChild(ran, id, k) <==> n <= k < |ran|)
    && (forall i :: 0 <= i < |spawned| ==> ran[n + i] == spawned[i])
  }

  lemma ExpansionCauses(ran: Rows, id: JobId, n: nat, spawned: Rows, targets: seq<MailboxId>, created: set<MailboxId>)
    requires id < n && Appended(ran, id, n, spawned)
    requires forall i :: 0 <= i < |spawned| ==>
      spawned[i].kind == ran[id].kind && spawned[i].mailbox.Some? && spawned[i].mailbox.value in created && spawned[i].mailbox.value in targets
    requires forall mb :: mb in targets && mb in created ==> exists i :: 0 <= i < |spawned| && spawned[i].mailbox == Some(mb)
    requires forall i, j :: 0 <= i < j < |spawned| ==> Ahead(targets, spawned[i], spawned[j])
    ensures ChildPerTarget(ran, id, targets, created)
  {
    forall mb | mb in targets && mb in created
      ensures exists k: JobId :: IsChild(ran, id, k) && ran[k].mailbox == Some(mb)
    {
      var i :| 0 <= i < |spawned| && spawned[i].mailbox == Some(mb);
      assert IsChild(ran, id, n + i);
    }
    forall k: JobId | IsChild(ran, id, k)
      ensures n <= k && ran[k] == spawned[k - n]
    {
      assert ran[n + (k - n)] == spawned[k - n];
    }
  }

  lemma ChildrenAreSpawned(rows: Rows, id: JobId, targets: seq<MailboxId>, o: Outcome)
    requires Valid(rows) && id < |rows| && rows[id].status.Queued?
    ensures Appended(Ran(rows, id, targets, o), id, |rows|, Spawned(|rows|, rows[id], targets, o))
  {
    var ran := Ran(rows, id, targets, o);
    SpawnedWeighsLess(|rows|, rows[id], targets, o, {});
    forall k: JobId | k < |rows|
      ensures !IsChild(ran, id, k)
    {
      assert rows[k].parent.Some? ==> !rows[rows[k].parent.value].status.Queued?;
    }
  }

  /** What another job caused is not changed by the run of a job. */
  lemma RanKeeps(rows: Rows, id: JobId, next: JobId, targets: seq<MailboxId>, o: Outcome, of: Outcome)
    requires Valid(rows) && next < |rows| && id != next && RanAs(rows, id, targets, of)
    ensures RanAs(Ran(rows, next, targets, o), id, targets, of)
  {
    var ran := Ran(rows, next, targets, o);
    SpawnedWeighsLess(|rows|, rows[next], targets, o, {});
    assert forall k :: |rows| <= k < |ran| ==> ran[k].parent == Some(next);
    SameChildren(rows, ran, id, targets, of);
  }

  lemma SameChildren(rows: Rows, ran: Rows, id: JobId, targets: seq<MailboxId>, o: Outcome)
    requires |rows| <= |ran| && RanAs(rows, id, targets, o) && ran[id] == rows[id]
    requires forall k :: 0 <= k < |rows| ==> ran[k].parent == rows[k].parent && ran[k].kind == rows[k].kind && ran[k].mailbox == rows[k].mailbox
    requires forall k :: |rows| <= k < |ran| ==> ran[k].parent != Some(id)
    ensures RanAs(ran, id, targets, o)
  {
    assert forall k: JobId :: IsChild(ran, id, k) <==> IsChild(rows, id, k);
    if ChildPerTarget(rows, id, targets, o.created) {
      SameChildPerTarget(rows, ran, id, targets, o.created);
    }
    if OneAnalysis(rows, id) {
      var k: JobId :| IsChild(rows, id, k);
      assert IsChild(ran, id, k);
    }
  }

  lemma SameChildPerTarget(rows: Rows, ran: Rows, id: JobId, targets: seq<MailboxId>, created: set<MailboxId>)
    requires |rows| <= |ran| && id < |rows| && ran[id].kind == rows[id].kind && ChildPerTarget(rows, id, targets, created)
    requires forall k :: 0 <= k < |rows| ==> ran[k].kind == rows[k].kind && ran[k].mailbox == rows[k].mailbox
    requires forall k: JobId :: IsChild(ran, id, k) <==> IsChild(rows, id, k)
    ensures ChildPerTarget(ran, id, targets, created)
  {
    forall mb | mb in targets && mb in created
      ensures exists k: JobId :: IsChild(ran, id, k) && ran[k].mailbox == Some(mb)
    {
      var k: JobId :| IsChild(rows, id, k) && rows[k].mailbox == Some(mb);
      assert IsChild(ran, id, k);
    }
    forall k: JobId, l: JobId | k < l && IsChild(ran, id, k) && IsChild(ran, id, l)
      ensures Ahead(targets, ran[k], ran[l])
    {
      assert Ahead(targets, rows[k], rows[l]);
    }
  }

  /** Every job of the chain ran as it had to, and every row after the first
      was caused by one of the chain. */
  ghost predicate ChainRan(rows: Rows, first: JobId, chain: set<JobId>, targets: seq<MailboxId>, outcome: JobId -> Outcome) {
    && (forall id :: id in chain ==> RanAs(rows, id, targets, outcome(id)))
    && (forall k :: first < k < |rows| ==> rows[k].parent.Some? && rows[k].parent.value in chain)
  }

  /** What the runner keeps: the chain so far, and the row that was asked for. */
  ghost predicate InlineOk(rows: Rows, asked: Job, chain: set<JobId>, targets: seq<MailboxId>, outcome: JobId -> Outcome) {
    && ChainOk(rows, asked.id, chain) && ChainRan(rows, asked.id, chain, targets, outcome)
    && rows[asked.id] == asked.(status := rows[asked.id].status)
  }

  lemma InlineStart(rows: Rows, asked: Job, targets: seq<MailboxId>, outcome: JobId -> Outcome)
    requires Valid(rows) && asked.id == |rows| && asked.parent.None? && asked.status.Queued?
    ensures InlineOk(Ran(rows + [asked], asked.id, targets, outcome(asked.id)), asked, {asked.id}, targets, outcome)
    ensures Ran(rows + [asked], asked.id, targets, outcome(asked.id))[..asked.id] == rows
  {
    FirstChain(rows, asked, targets, outcome(asked.id));
    RanChainRan(rows + [asked], asked.id, {}, asked.id, targets, outcome);
    assert {} + {asked.id} == {asked.id};
  }

  lemma InlineStep(rows: Rows, asked: Job, chain: set<JobId>, next: JobId, targets: seq<MailboxId>, outcome: JobId -> Outcome)
    requires InlineOk(rows, asked, chain, targets, outcome) && next < |rows| && Next(rows[next], chain)
    ensures InlineOk(Ran(rows, next, targets, outcome(next)), asked, chain + {next}, targets, outcome)
    ensures Ran(rows, next, targets, outcome(next))[..asked.id] == rows[..asked.id]
  {
    RanChain(rows, asked.id, chain, next, targets, outcome(next));
    RanChainRan(rows, asked.id, chain, next, targets, outcome);
  }

  lemma InlineDone(rows: Rows, asked: Job, chain: set<JobId>, targets: seq<MailboxId>, outcome: JobId -> Outcome)
    requires InlineOk(rows, asked, chain, targets, outcome) && forall i :: 0 <= i < |rows| ==> !Next(rows[i], chain)
    ensures forall id: JobId :: id in chain <==> InTree(rows, asked.id, id)
  {
    forall id: JobId | InTree(rows, asked.id, id)
      ensures id in chain
    {
      TreeInClosed(rows, asked.id, id, chain);
    }
  }

  lemma RanChainRan(rows: Rows, first: JobId, chain: set<JobId>, next: JobId, targets: seq<MailboxId>, outcome: JobId -> Outcome)
    requires Valid(rows) && next < |rows| && rows[next].status.Queued? && next !in chain && ChainRan(rows, first, chain, targets, outcome)
    ensures ChainRan(Ran(rows, next, targets, outcome(next)), first, chain + {next}, targets, outcome)
  {
    var ran := Ran(rows, next, targets, outcome(next));
    RanCauses(rows, next, targets, outcome(next));
    forall id | id in chain
      ensures RanAs(ran, id, targets, outcome(id))
    {
      RanKeeps(rows, id, next, targets, outcome(next), outcome(id));
    }
    SpawnedWeighsLess(|rows|, rows[next], targets, outcome(next), {});
  }

  class Runner {
    var rows: Rows

    /** The oldest queued job one of the chain caused. Its keys are free: every
        job of this process released its own. */
    method ClaimNext(chain: set<JobId>) returns (next: Option<JobId>)
      ensures next.None? ==> forall i :: 0 <= i < |rows| ==> !Next(rows[i], chain)
      ensures next.Some? ==> next.value < |rows| && Next(rows[next.value], chain)
      ensures next.Some? ==> forall i :: 0 <= i < next.value ==> !Next(rows[i], chain)
    {
      for i := 0 to |rows|
        invariant forall k :: 0 <= k < i ==> !Next(rows[k], chain)
      {
        if Next(rows[i], chain) {
          return Some(i);
        }
      }
      return None;
    }

    method Execute(id: JobId, targets: seq<MailboxId>, o: Outcome)
      requires id < |rows|
      modifies this
      ensures rows == Ran(old(rows), id, targets, o)
    {
      var spawned := Spawned(|rows|, rows[id], targets, o);
      rows := rows[id := rows[id].(status := if o.ok then Done else Error)] + spawned;
    }

    /** Queues a job, runs it and then every job it causes. It ends, and has
        run exactly the jobs of the tree, whatever the runs find: one child per
        target of an expansion, one analysis where one was wanted. */
    method RunJobInline(kind: Kind, mailbox: Option<MailboxId>, at: int, targets: seq<MailboxId>, outcome: JobId -> Outcome)
      returns (first: JobId, chain: set<JobId>)
      requires Valid(rows)
      modifies this
      ensures Valid(rows) && first == |old(rows)| < |rows| && rows[..first] == old(rows)
      ensures forall id: JobId :: id in chain <==> InTree(rows, first, id)
      ensures rows[first].kind == kind && rows[first].mailbox == mailbox && rows[first].createdAt == at
      ensures forall id :: id in chain ==> RanAs(rows, id, targets, outcome(id))
      ensures forall k :: first < k < |rows| ==> rows[k].parent.Some? && rows[k].parent.value in chain
    {
      first := |rows|;
      var job := Job(first, kind, mailbox, None, at, Queued, mailbox);
      InlineStart(rows, job, targets, outcome);
      rows := rows + [job];
      Execute(first, targets, outcome(first));
      chain := {first};
      while true
        invariant InlineOk(rows, job, chain, targets, outcome) && rows[..first] == old(rows)
        decreases Load(rows, chain, |targets|)
      {
        var next := ClaimNext(chain);
        if next.None? {
          break;
        }
        RanWeighsLess(rows, chain, next.value, targets, outcome(next.value));
        InlineStep(rows, job, chain, next.value, targets, outcome);
        Execute(next.value, targets, outcome(next.value));
        chain := chain + {next.value};
      }
      InlineDone(rows, job, chain, targets, outcome);
    }
  }

  lemma {:induction false} SameTree(a: Rows, b: Rows, root: JobId, id: JobId)
    requires |a| <= |b| && forall i :: 0 <= i < |a| ==> a[i].parent == b[i].parent
    requires InTree(a, root, id)
    ensures InTree(b, root, id)
    decreases id
  {
    if id != root {
      SameTree(a, b, root, a[id].parent.value);
    }
  }

  /** A set that holds the root and every row whose parent it holds holds the tree. */
  lemma {:induction false} TreeInClosed(rows: Rows, root: JobId, id: JobId, closed: set<JobId>)
    requires root in closed && InTree(rows, root, id)
    requires forall i :: 0 <= i < |rows| && rows[i].parent.Some? && rows[i].parent.value in closed ==> i in closed
    ensures id in closed
    decreases id
  {
    if id != root {
      TreeInClosed(rows, root, rows[id].parent.value, closed);
    }
  }

  // --- Finding the tree again ---

  const LIST_LIMIT := 500

  /** The first row ListJobs returns (the newest LIST_LIMIT rows). */
  function Oldest(rows: Rows): nat {
    if |rows| <= LIST_LIMIT then 0 else |rows| - LIST_LIMIT
  }

  /** The follow-ups of the root are all listed. */
  ghost predicate Fits(rows: Rows, root: JobId) {
    forall id: JobId :: InTree(rows, root, id) && id != root ==> |rows| - id <= LIST_LIMIT
  }

  predicate Failed(job: Job) {
    !job.status.Queued? && !job.status.Done?
  }

  /** The follow-ups in a tree that were canceled or ended with an error. */
  ghost function Failures(rows: Rows, root: JobId, tree: set<JobId>): set<JobId> {
    set id | id in tree && id != root && id < |rows| && Failed(rows[id])
  }

  /** One pass over the listing, oldest first: the tree it collects, and how
      many of its follow-ups failed. */
  method ReportFollowUps(rows: Rows, root: JobId) returns (tree: set<JobId>, failed: nat)
    requires Valid(rows) && root < |rows|
    ensures (forall id: JobId :: id in tree <==> InTree(rows, root, id)) <==> Fits(rows, root)
    ensures failed == |Failures(rows, root, tree)|
  {
    failed := 0;
    tree := {root};
    assert Failures(rows, root, tree) == {};
    for i := Oldest(rows) to |rows|
      invariant root in tree
      invariant forall id :: id in tree ==> InTree(rows, root, id) && (id == root || Oldest(rows) <= id < i)
      invariant forall k :: Oldest(rows) <= k < i ==> !Missing(rows, tree, k)
      invariant failed == |Failures(rows, root, tree)|
    {
      var j := rows[i];
      assert forall k :: Oldest(rows) <= k <= i && rows[k].parent.Some? ==> rows[k].parent.value != i;
      if j.parent.Some? && j.parent.value in tree {
        Collect(rows, root, tree, i);
        assert forall k :: Oldest(rows) <= k < i ==> (Missing(rows, tree + {i}, k) ==> Missing(rows, tree, k));
        tree := tree + {i};
        if !j.status.Queued? {
          if !j.status.Done? {
            failed := failed + 1;
          }
        }
      }
    }
    CollectedTree(rows, root, tree);
  }

  /** Taking one more row of the tree. */
  lemma Collect(rows: Rows, root: JobId, tree: set<JobId>, i: JobId)
    requires Valid(rows) && i < |rows| && rows[i].parent.Some? && rows[i].parent.value in tree
    requires forall id :: id in tree ==> InTree(rows, root, id) && (id == root || id < i)
    ensures i != root && InTree(rows, root, i)
    ensures |Failures(rows, root, tree + {i})| == |Failures(rows, root, tree)| + (if Failed(rows[i]) then 1 else 0)
  {
    RootNotBelowItself(rows, root, rows[i].parent.value);
    assert i !in Failures(rows, root, tree);
    assert Failures(rows, root, tree + {i}) == Failures(rows, root, tree) + (if Failed(rows[i]) then {i} else {});
  }

  lemma CollectedTree(rows: Rows, root: JobId, tree: set<JobId>)
    requires root in tree
    requires forall id :: id in tree ==> InTree(rows, root, id) && (id == root || Oldest(rows) <= id)
    requires forall k :: Oldest(rows) <= k < |rows| ==> !Missing(rows, tree, k)
    ensures (forall id: JobId :: id in tree <==> InTree(rows, root, id)) <==> Fits(rows, root)
  {
    if Fits(rows, root) {
      forall id: JobId | InTree(rows, root, id)
        ensures id in tree
      {
        FittingTreeInClosed(rows, root, id, tree);
      }
    }
  }

  lemma {:induction false} RootNotBelowItself(rows: Rows, root: JobId, id: JobId)
    requires InTree(rows, root, id)
    ensures root <= id
    decreases id
  {
    if id != root {
      RootNotBelowItself(rows, root, rows[id].parent.value);
    }
  }

  lemma {:induction false} FittingTreeInClosed(rows: Rows, root: JobId, id: JobId, closed: set<JobId>)
    requires Fits(rows, root) && root in closed && InTree(rows, root, id)
    requires forall k :: Oldest(rows) <= k < |rows| ==> !Missing(rows, closed, k)
    ensures id in closed
    decreases id
  {
    if id != root {
      FittingTreeInClosed(rows, root, rows[id].parent.value, closed);
      assert !Missing(rows, closed, id);
    }
  }

  /** The oldest listed job one of the tree caused that is not in it. */
  method NextFollowUp(rows: Rows, tree: set<JobId>) returns (next: Option<JobId>)
    ensures next.None? ==> forall k :: 0 <= k < |rows| && |rows| - k <= LIST_LIMIT ==> !Missing(rows, tree, k)
    ensures next.Some? ==> next.value < |rows| && |rows| - next.value <= LIST_LIMIT && Missing(rows, tree, next.value)
    ensures next.Some? ==> forall k :: 0 <= k < next.value && |rows| - k <= LIST_LIMIT ==> !Missing(rows, tree, k)
  {
    next := None;
    var i := |rows|;
    while i > Oldest(rows)
      invariant Oldest(rows) <= i <= |rows|
      invariant next.None? ==> forall k :: i <= k < |rows| ==> !Missing(rows, tree, k)
      invariant next.Some? ==> i <= next.value < |rows| && Missing(rows, tree, next.value)
      invariant next.Some? ==> forall k :: i <= k < next.value ==> !Missing(rows, tree, k)
    {
      i := i - 1;
      if Missing(rows, tree, i) && (next.None? || i < next.value) {
        next := Some(i);
      }
    }
  }

  predicate Missing(rows: Rows, tree: set<JobId>, id: JobId)
    requires id < |rows|
  {
    id !in tree && rows[id].parent.Some? && rows[id].parent.value in tree
  }

  ghost function Upto(n: nat): (ids: set<JobId>)
    ensures forall id: JobId :: id in ids <==> id < n
  {
    if n == 0 then {} else Upto(n - 1) + {n - 1}
  }

  /** The table only grows between two reads. */
  ghost predicate Grows(a: Rows, b: Rows) {
    |a| <= |b| && forall i :: 0 <= i < |a| ==> a[i].parent == b[i].parent
  }

  /** Waits for a job and then for every job it caused, reading the table again
      before each. What it waited for is the tree of the table it read last. */
  method WaitForJobTree(table: nat -> Rows, ghost final: Rows, root: JobId) returns (waited: set<JobId>, last: nat)
    requires forall n: nat :: Valid(table(n)) && Grows(table(n), table(n + 1)) && Grows(table(n), final)
    requires root < |table(0)|
    ensures Fits(table(last), root) ==> forall id: JobId :: id in waited <==> InTree(table(last), root, id)
  {
    waited := {root};
    last := 0;
    while true
      invariant root in waited && waited <= Upto(|final|)
      invariant forall id :: id in waited ==> InTree(table(last), root, id)
      decreases Upto(|final|) - waited
    {
      var next := NextFollowUp(table(last), waited);
      if next.None? {
        assert forall k :: Oldest(table(last)) <= k < |table(last)| ==> !Missing(table(last), waited, k);
        break;
      }
      assert next.value in Upto(|final|) - waited;
      waited := waited + {next.value};
      forall id | id in waited
        ensures InTree(table(last + 1), root, id)
      {
        SameTree(table(last), table(last + 1), root, id);
      }
      last := last + 1;
    }
    if Fits(table(last), root) {
      forall id: JobId | InTree(table(last), root, id)
        ensures id in waited
      {
        FittingTreeInClosed(table(last), root, id, waited);
      }
    }
  }
}
