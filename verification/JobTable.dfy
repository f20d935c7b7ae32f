/** The rows of the jobs table and the statements that change them
    (app/models/job.go). Every statement is one atomic step. */
module JobTable {
  import opened Options
  import opened JobKeys

  type JobId = nat
  type MailboxId = nat

  datatype Status = Queued | Running | Done | Error | Canceled

  /** A row. `origin` is the mailbox the row was inserted with; `mailbox` is
      the column, which deleting the mailbox sets to NULL. */
  datatype Job = Job(
    id: JobId, kind: Kind, mailbox: Option<MailboxId>, parent: Option<JobId>,
    createdAt: int, status: Status, origin: Option<MailboxId>)

  type Jobs = map<JobId, Job>

  predicate IsQueued(jobs: Jobs, id: JobId) {
    id in jobs && jobs[id].status.Queued?
  }

  predicate IsFinal(status: Status) {
    status.Done? || status.Error? || status.Canceled?
  }

  /** ORDER BY created_at ASC, id ASC. */
  predicate Before(a: Job, b: Job) {
    a.createdAt < b.createdAt || (a.createdAt == b.createdAt && a.id < b.id)
  }

  predicate Listed(jobs: seq<Job>, id: JobId) {
    exists i :: 0 <= i < |jobs| && jobs[i].id == id
  }

  /** What the SELECT of the queued jobs returns: every queued row, oldest first. */
  ghost predicate IsListing(jobs: Jobs, listing: seq<Job>) {
    && (forall i :: 0 <= i < |listing| ==> IsQueued(jobs, listing[i].id) && jobs[listing[i].id] == listing[i])
    && (forall id :: IsQueued(jobs, id) ==> Listed(listing, id))
    && (forall i, j :: 0 <= i < j < |listing| ==>
          listing[i].createdAt < listing[j].createdAt || (listing[i].createdAt == listing[j].createdAt && listing[i].id < listing[j].id))
  }

  function ClaimRow(jobs: Jobs, id: JobId): Jobs {
    if IsQueued(jobs, id) then jobs[id := jobs[id].(status := Running)] else jobs
  }

  /** The update that finishes a job has no condition on its status. */
  function FinishRow(jobs: Jobs, id: JobId, ok: bool): Jobs {
    if id in jobs then jobs[id := jobs[id].(status := if ok then Done else Error)] else jobs
  }

  function CancelRow(jobs: Jobs, id: JobId): Jobs {
    if IsQueued(jobs, id) then jobs[id := jobs[id].(status := Canceled)] else jobs
  }

  function CancelForMailbox(jobs: Jobs, mb: MailboxId): Jobs {
    map id | id in jobs :: if jobs[id].mailbox == Some(mb) && jobs[id].status.Queued? then jobs[id].(status := Canceled) else jobs[id]
  }

  predicate HasRunningFor(jobs: Jobs, mb: MailboxId) {
    exists id :: id in jobs && jobs[id].mailbox == Some(mb) && jobs[id].status.Running?
  }

  /** ON DELETE SET NULL of jobs.mailbox_id. */
  function ForgetMailbox(jobs: Jobs, mb: MailboxId): Jobs {
    map id | id in jobs :: if jobs[id].mailbox == Some(mb) then jobs[id].(mailbox := None) else jobs[id]
  }

  /** Deletes finished rows; ON DELETE SET NULL of jobs.parent_id. */
  function PruneRows(jobs: Jobs, gone: set<JobId>): Jobs {
    map id | id in jobs && id !in gone ::
      if jobs[id].parent.Some? && jobs[id].parent.value in gone then jobs[id].(parent := None) else jobs[id]
  }
}
