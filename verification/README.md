# MailCare: verified model of the server's core

MailCare watches the return mail of a set of mailboxes. Its server works
through a queue of jobs, probes delivery by sending mails to itself, caches DNS
lookups of its sending sources, fires schedules and keeps settings that depend
on each other. This project models that logic in Dafny and proves what it
promises.

`dafny verify dfyconfig.toml` checks the whole project.

**Jobs.** `JobKeys`, `JobTable` and `LockTable` are the resource keys, the rows
and the lock table. `Dispatcher` is the job manager as a transition system: the
dispatcher goroutine step by step (check a slot, list, read keys, test, claim,
acquire, start, park), the goroutine of each job (read the mailbox row, finish,
release, count down, notify), callers that queue, cancel, prune and resize,
updates of mailboxes in their two steps (test, then write) and the transaction
that deletes a mailbox. Reads, the reading back of a claimed row and the record
of a finish may fail. `Exclusion`, `Wakeup`, `WorkerSlots` and `StepEffects` hold the
results over whole runs; `JobManager` is the class with the manager's fields, its methods proved against
the functions the steps use. `JobTree` is the in-process runner and the two ways
the command line finds the tree of a job.

**Delivery probe.** `ProbeTiming` is the timing arithmetic. `ProbeMails` holds
the rows and the guarded statements, `ProbeSorting` what found messages mean,
`ProbeRecording` the record transaction. `ProbeChecking` interleaves the steps of
a check (list, read and sort, record, delete in batches, mark) with sends,
resolutions by hand, switch-offs and removed records; `ProbeAlerts` adds the
alert mails.

**Sending sources.** `SourceRuns` interleaves any number of runs statement by
statement, each of which may fail, over the row of one source (one host kind, or
the domain of an SPF record). `SourceCaches` is the cache call by call for names
of several kinds.

**Schedules.** `Schedules`, `Cleanups` and `Notifications` are the check times,
the daily cleanup and the notifications. Times are integers and a local day has a
fixed length.

**Settings.** `SettingsTable` is the table and the writes of one request;
`DnsSettings`, `SmtpSettings` and `ProbeSettings` are the three groups validated
as combinations; `SettingsLock` interleaves requests, each for any of the groups
at once, whose reads may miss rows. A stored password is the connection it was
typed for. `CheckTimes`, `RecheckDays` and `SourceLists` are the text forms.

**Small parts.** `LoginLimits` is the wait after failed logins, `HeaderFolding`
the folding of long header lines (section 2.2.3 of RFC 5322) and the wrapping of
bodies, `Base64` the encoding (section 4 of RFC 4648).

Several promises of the comments in the source hold only under a condition. Each
is proved with the condition that decides it; where a run shows the failure it is
named beside it:

- The resource keys are computed from the mailbox row read at the claim, the job
  works with the row it reads when it runs. When that read at the claim fails the
  job holds no keys and joins every other one (`TestedExactly`, `KindsExactly`,
  `UnreadRowOverlaps`, `UnreadRowsOverlap`). When the host or the address is
  edited between the two reads, the keys protect another server or mailbox:
  `WorkersShareUnclaimed` and `UsesWhatItClaimed` say exactly when,
  `WorkersNeverOverlap` is the promise, `EditedHostRun` two fetches on one server.
  A rename is refused while a job of the mailbox runs, but its test is not part of
  its update: `OneWriterPerMailbox`, `RenamedMailboxRun`.
- A claim whose row cannot be read back, and a finish that cannot be recorded,
  leave a running row nobody runs until the server restarts (`lost` in
  `Dispatcher`, `LostStays`); it refuses the deletion of its mailbox
  (`LostRefusesDeletion`).
- A queued job that could run waits for the poll tick when, since the dispatcher
  last checked, a claim failed, an insert did not wake it or an edit freed the job
  (`NoLostWakeup`, `StallHasACause`, `FailedClaimStalls`, `FailedClaimRun`).
- A settings read that errors counts as the default, so a change can be validated
  against values that are not stored. `HarmlessExactly` says for which unread rows
  that matters; `UnreadPasswordMoves` points a stored password at another server.
- A check by hand moves the next check of the probe when no send is recorded:
  `HandCheckKeepsTheNextCheck` says exactly when it does not.
- A scheduled check runs late. Every moment has a check within the lateness, and
  one of its own, before the next moment, exactly when the moments are further
  apart than that (`EveryMomentIsChecked`, `OwnCheckExactly`).
- A probe mail is reported twice when the marking after its alert mail fails and
  it is still due at the next one (`UnmarkedIsReportedAgain`,
  `FailedMarkingReportsAgain`).
- A run that remembered an empty answer keeps giving it after another run stored
  a non-empty one, and a failed read misses the stored row:
  `StoredSourceIsAnswered` has the exact condition. A row stored before the limits
  of the address space were applied lets one run empty a good one:
  `EmptiedExactly`, `EmptiedAfterWideRow`, `ForcedRowReplacesGoodOne`.
- A cleanup date is queued again when it was neither recorded nor queued by this
  process (`AscendExactly`, `UnrecordedDateQueuedTwice`); the recorded date falls
  when the clock is set back before it (`DueIsLater`,
  `ClockSetBackRecordsEarlierDate`). The latest occurrence is never missed.
- The failures of a login pair start over when it was idle past the limit and a
  pruning found it so (`WholeStreakCounts`).
- A notification announced for a moment is sent for it exactly when the next tick
  is on the same or the next day (`AnnouncedFiresExactly`,
  `MomentMissedAfterALongGap`).
- The follow-ups of a job are found in the newest 500 rows only, so the tree is
  complete exactly when it fits them (`ReportFollowUps`).

## Model

| member | source | states |
|---|---|---|
| JobKeys.ConflictIsSharedResource | app/modules/jobs.go:315-366 | the keys of two jobs meet exactly when the jobs share an IMAP server (the same host name up to white space and the case of letters), a mailbox index, the agent, the probe mails or the notification: both directions |
| JobKeys.HostKeyExactly | app/modules/jobs.go:325-366 | two host settings have one key exactly when, trimmed, they have the same length and agree letter by letter up to case |
| Dispatcher.ReachableInv | app/modules/jobs.go:227-310 | in every reachable state of every interleaving: `locks` is exactly the union of the key sets of the jobs that hold keys, keys found free stay free until taken, a row is running exactly while its job is claimed and not finished or when its read-back or finish failed, `running` counts the started jobs and no listed row is stale |
| WorkerSlots.NeverMoreThanWorkers | app/modules/jobs.go:244-274 | in every run the jobs that take a slot, counted in the table of goroutines, are as many as `running` says and never more than a worker count that was in force at some moment so far |
| WorkerSlots.StartKeepsToWorkers | app/modules/jobs.go:244-274 | a job started with no change of the worker count since the last check leaves at most as many running as there are workers now |
| WorkerSlots.CountInForce | app/modules/jobs.go:184-190 | the count set is the one asked for from 1 to 16, 16 above, 2 below; no other step changes it |
| WorkerSlots.ChecksAreCaused | app/modules/jobs.go:227-274 | the dispatcher does not spin: over any run it checks once at the start and once after each start of a job, wakeup or tick, and it is woken no more often than it was signalled (once more when the channel was full at the start) |
| WorkerSlots.PassEnds | app/modules/jobs.go:279-296 | and a pass over a listing ends: while it lasts the dispatcher takes at most four steps for each row listed, and one, whatever happens beside it |
| StepEffects.SignalsAccounted | app/modules/jobs.go:184-274 | over any run: each job started has ended with its signal or is in flight, each change of a caller that concerns the dispatcher was followed by its signal or is counted as pending |
| StepEffects.SignalsAreHeard | app/modules/jobs.go:220-240 | the channel is full after a step exactly when the step signalled, or it was full and the dispatcher did not wake by it |
| StepEffects.EveryFlightExactly | app/modules/jobs.go:258-274 | in every run: a start adds the goroutine of the job at hand, its steps take it from phase to phase, its last one ends it, and no other step touches it |
| StepEffects.EveryLostExactly | app/modules/jobs.go:696-720 | a job is lost exactly by a claimed row that is not read back and by a finish that is not recorded, and stays so |
| StepEffects.EveryInputExactly | app/modules/mailboxes.go:452-607 | what each step does to the mailbox rows, the pending updates, the probe host and the deletion, which goes on exactly when no job of the mailbox runs and is over when it is refused, commits or rolls back |
| Exclusion.OwnersNeverConflict | app/modules/jobs.go:279-396 | two jobs between claim and release were read with keys that share no resource, whatever the interleaving with completions, cancels, edits and deletions |
| Exclusion.TestedExactly | app/modules/jobs.go:279-291 | the test lets a job pass exactly when no job between claim and release shares a resource with what was read for it |
| Exclusion.KindsNeverOverlap | app/modules/jobs.go:343-366 | of two jobs whose rows were read at their claims: no analysis beside a reindex, a cleanup or another analysis, no two fetches of one host, no two writers of one mailbox address, no probe send beside a probe check; whatever was read for other jobs |
| Exclusion.KindsExactly | app/modules/jobs.go:315-366 | pair of kinds by pair of kinds the exact condition under which the keys keep two jobs apart: both rows were read, and for fetches and writers name one server or one address |
| Exclusion.ProbeCheckApart | app/modules/jobs.go:323-330 | a check of the probe mails whose claim read the setting runs beside no fetch of a mailbox on the probe server |
| Exclusion.UnreadRowOverlaps | app/modules/jobs.go:333-339 | from any reachable state: a queued job whose row could not be read passes the test and is claimed beside every other job |
| Exclusion.UnreadRowsOverlap | app/modules/jobs.go:333-339 | a run from a server start with two analyses claimed together |
| Exclusion.WorkersShareUnclaimed | app/modules/jobs.go:747-770 | two jobs at work share a resource only when one of them uses a key both need that it did not claim |
| Exclusion.UsesWhatItClaimed | app/modules/jobs.go:334-339 | a job at work uses the host and address it claimed exactly when the row was the same at its two reads, as it is without an edit between them |
| Exclusion.WorkersNeverOverlap | app/modules/jobs.go:747-770 | two jobs at work that use what they claimed are apart by their kinds in the rows they work with |
| Exclusion.EditedHostOverlaps | app/modules/mailboxes.go:476-496 | from any reachable state: a host edited between the claim and the start of a fetch puts it beside any fetch on the new server |
| Exclusion.EditedHostRun | app/modules/jobs.go:747-760 | a run from a server start, every read working, with two fetches on one server |
| Exclusion.OneWriterPerMailbox | app/modules/mailboxes.go:452-483 | two jobs that write the index of one mailbox are claimed together only when it was renamed (or deleted) between the reads of their claims |
| Exclusion.RenamedMailboxOverlaps | app/modules/mailboxes.go:476-496 | from any reachable state: a rename tested before the jobs started lets the next job of the mailbox join the running one |
| Exclusion.RenamedMailboxRun | app/modules/mailboxes.go:476-496 | a run from a server start, every read working, with two writers of one mailbox |
| Exclusion.StepStatus | app/models/job.go:64-140 | a row only goes from queued to running by its claim, from queued to canceled, or from running to done or error by its own finish, done exactly when it succeeded |
| Exclusion.EveryRowExactly | app/models/job.go:64-140 | in every run each step does to each row exactly what its statement says: a claim, a finish and a cancel set the status, a deletion cancels what was queued and takes the mailbox off, pruning removes rows and takes them off as parents, an insert adds a queued row, and no step changes anything else |
| Exclusion.ClaimedOnce | app/models/job.go:64-96 | no job is claimed twice in a run |
| Exclusion.ClaimedForItsMailbox | app/models/job.go:64-82 | a claimed job still names the mailbox it was queued for, never the NULL a deletion leaves |
| Exclusion.LostStays | app/modules/jobs.go:711-713 | a claimed row that could not be read back or finished stays running for the rest of the run |
| Exclusion.LostRefusesDeletion | app/modules/mailboxes.go:587-607 | and no later deletion of its mailbox goes through |
| Exclusion.DeletionOutcome | app/modules/mailboxes.go:587-607 | a deletion goes through only when no job of the mailbox ran as it began and is refused only when one did; a statement that fails rolls it back; after it went through no job queued for the mailbox is queued or running, otherwise no row is changed |
| Wakeup.NoLostWakeup | app/modules/jobs.go:184-274 | with the dispatcher parked, nobody about to notify and calm steps since its last check (no claim failed, no insert without a wakeup, no edit of what keys are read from), every slot is taken or each queued job has a key held by a job in flight |
| Wakeup.StallHasACause | app/modules/jobs.go:227-274 | a queued job that could run beside a parked dispatcher nobody is about to wake is due to such a step since any earlier check |
| Wakeup.FailedClaimStalls | app/modules/jobs.go:244-258 | from any state a claim that fails leaves the job it would have taken until the poll tick |
| Wakeup.LostClaimStalls | app/models/job.go:86-96 | and so does a claimed row that is not read back, for the other jobs that could run |
| Wakeup.SilentInsertStalls | app/modules/jobs.go:524-534 | and so does an insert that does not wake, as from another process |
| Wakeup.EditStalls | app/modules/jobs.go:311-339 | and so does an edit that frees a queued job from the keys it waited for |
| Wakeup.FailedClaimRun | app/modules/jobs.go:227-258 | a run from a server start to a stalled job |
| Wakeup.IdleMeansEmptyQueue | app/modules/jobs.go:227-274 | with calm steps since the last check, nothing in flight and no wakeup pending, a parked dispatcher means an empty queue |
| Wakeup.OldestRunnableFirst | app/modules/jobs.go:279-296 | with calm steps since the last check and no wakeup pending, a job is claimed only while every older queued job waits for a held key |
| JobManager.Manager.LocksFree | app/modules/jobs.go:368-377 | true exactly when none of the keys is held |
| JobManager.Manager.AcquireLocks | app/modules/jobs.go:379-385 | the table gains exactly these keys, mapped to the job |
| JobManager.Manager.ReleaseLocks | app/modules/jobs.go:388-396 | the table loses exactly the keys of the job |
| JobManager.Manager.SetWorkers | app/modules/jobs.go:184-190 | the clamped count is set and the dispatcher is woken |
| JobManager.Manager.ClaimJobByID | app/models/job.go:86-96 | only a queued row is claimed; any other row and every other row stays |
| JobManager.Manager.SelectQueued | app/models/job.go:64-70 | every queued row once, oldest first, ids break ties |
| JobManager.Manager.ClaimRunnable | app/modules/jobs.go:279-296 | claims the oldest queued job whose keys are free and takes them; claims nothing exactly when there is none |
| JobManager.Manager.Dispatch | app/modules/jobs.go:244-274 | starts jobs until the slots are full or nothing can run; the started ones are running, hold their keys and were queued |
| JobTree.RanWeighsLess | app/modules/jobs.go:831-913 | running a job of the chain lowers the weight of what is still queued for it: expansion above sync, group, reindex and reclassify above analysis |
| JobTree.Runner.RunJobInline | app/modules/jobs.go:779-814 | ends for any set of mailboxes and any outcomes, and has run exactly the jobs of the tree of the requested one, each to done or error as it went; on the final rows each job of the tree caused what it had to (an expansion one child of its kind per target it created for, in their order; a sync, group, reindex or reclassify of a mailbox one analysis of it when wanted; anything else nothing), and every other row was there before |
| JobTree.OneChildPerTarget | app/modules/jobs.go:863-887 | with every mailbox listed once each of those targets has exactly one child, and the ids ascend with the targets |
| JobTree.ReportFollowUps | app/modules/cli_jobs.go:190-211 | one ascending pass over the newest 500 rows collects the full descendant set exactly when it fits the listing, and counts its failures |
| JobTree.NextFollowUp | app/modules/cli_jobs.go:170-185 | the oldest listed job caused by the tree and not in it, none exactly when there is none |
| JobTree.WaitForJobTree | app/modules/cli_jobs.go:137-165 | repeated searches over a growing table end, and reach the same descendant set |
| ProbeTiming.NextCheckIsTheNextMoment | app/modules/probe.go:649-676 | the next check is the least moment of the grid of whole delays and whole failure periods after the check, and strictly after it |
| ProbeTiming.HandCheckKeepsTheNextCheck | app/modules/probe.go:649-676 | a check by hand before the next one leaves it unchanged if and only if a send is recorded (or it ran at the same moment) |
| ProbeTiming.NextCheckWithoutSend | app/modules/probe.go:649-660 | without a recorded send the next check is a failure threshold after the check, an hour when none is set |
| ProbeTiming.EveryMomentIsChecked | app/modules/probe.go:649-704 | over any run of checks, scheduled ones late and others by hand, every grid moment passed has a check at most the coalescing and the lateness after it |
| ProbeTiming.OwnCheckExactly | app/modules/probe.go:649-704 | in every run a moment has a check before the next moment, if and only if the two are further apart than the coalescing and the lateness |
| ProbeTiming.ProbeLevelCheckAt | app/modules/probe.go:678-704 | the regular check, or the last moment checked together with the first level moment before it: none is left between it and the end of the coalescing |
| ProbeTiming.NextAt | app/modules/probe.go:1275-1278 | strictly after now, at most the coalescing after the regular next check and after every level moment given, and one of these |
| ProbeTiming.ProbeRetryAfter | app/modules/probe.go:1160-1171 | the retry interval times a power of two, capped, in closed form |
| ProbeTiming.MinProbeSendGap | app/modules/probe.go:520-544 | the least circular distance between any two of the times, not only neighbours; a day for a single time; as many gaps as times fit into a day |
| ProbeMails.CheckedExactly | app/modules/probe.go:706-769 | the level after a check is failure exactly when it was or the mail took, or is missing for, the failure threshold, delayed exactly when not failure but it was or the delay threshold is reached; the status follows from level and arrival; delay in whole seconds, arrival, time of the check and nothing else change |
| ProbeMails.FirstCheckExactly | app/modules/probe.go:706-769 | for a mail at no level and thresholds in order, by the time since its send alone: missing it is pending before the delay, delayed from it up to the failure, failure from there; arriving it is arrived before the delay, else recovered |
| ProbeMails.CheckedLife | app/modules/probe.go:706-769 | a check never lowers the level, keeps status and level in step, closes the mail exactly when it arrived, and leaves a missing one a level moment to come |
| ProbeMails.ProbeMail.ApplyProbeCheck | app/modules/probe.go:736-769 | the in-place update is the row `CheckedExactly` describes, and it reports the level newly reached while the mail is missing |
| ProbeMails.NotifiedIsNotDue | app/models/probe_mail.go:197-232 | after the marking a mail is not due again, a mail marked as failed is due for no delay mail either; which stamps are set and which stay |
| ProbeMails.ClosedExactly | app/models/probe_mail.go:179-195 | switching off resolves the mails whose end is open, for nobody, and no other |
| ProbeSorting.SortProbeMessages | app/modules/probe.go:1482-1512 | arrivals are the earliest per token, the removal set is the verified and the leftover messages, mismatches are the rest of the recorded tokens |
| ProbeSorting.SortedExactly | app/modules/probe.go:1482-1506 | message by message: one with a recorded token and the recorded address, up to case, is verified, arrives and goes; any other one goes exactly with the current identifier, a day old and no open record; the rest stays |
| ProbeSorting.MismatchedExactly | app/modules/probe.go:1499-1510 | a recorded token is reported with another sender exactly when a message of it was found and none from its address |
| ProbeSorting.ArrivalIsFound | app/modules/probe.go:1485-1496 | the arrival of a token is that of a message of it from its address, now when the server gave no time |
| ProbeSorting.OrderDoesNotMatter | app/modules/probe.go:1467-1512 | arrivals, removal set, verified, unrecorded and mismatched tokens are the same for every order of the listing |
| ProbeSorting.RemovalSetIsSplit | app/modules/probe.go:1467-1512 | with distinct UIDs verified and unrecorded split the removal set, and no token is both arrived and mismatched |
| ProbeSorting.DeletedOf | app/modules/probe.go:1514-1534 | a token is gone exactly when every verified copy of it was deleted, appears once, and the unrecorded deletions are counted |
| ProbeRecording.ProbeTable.UpdateProbeMailCheck | app/models/probe_mail.go:145-163 | only a pending, delayed, missing or unsent row takes the check: status, level and what was seen, nothing else |
| ProbeRecording.ProbeTable.ResolveProbeMail | app/models/probe_mail.go:165-177 | only a delayed, failed or unsent mail is resolved by hand, with who and why |
| ProbeRecording.ProbeTable.RecordProbeArrivals | app/modules/probe.go:1373-1451 | the table after the transaction; the counts of the mails checked, arrived, recovered (late arrivals of unsent ones among them) and missing, each by the status its row has now; level moments that are all to come and exactly those of the mails that wait on |
| ProbeRecording.RecordedExactly | app/modules/probe.go:1388-1450 | row by row: a listed mail is judged as it was read, by the arrival of its token, its error cleared, kept or set to the sender found; an unsent mail only when it arrived; a row settled meanwhile and any other row stays |
| ProbeRecording.ProbeTable.CheckArrivals | app/modules/probe.go:1232-1278 | the record and the next check together: none exactly when no mail is missing, else after now, at most the coalescing after the delay threshold of each pending and the failure threshold of each delayed mail, and the regular next check or one of these moments |
| ProbeChecking.ReachableInv | app/modules/probe.go:1196-1280 | in every interleaving of sends, check steps, resolutions, switch-offs and removals the rows read by a check differ from the table only by being closed or gone, and the removal set is safe |
| ProbeChecking.RecordIsCallable | app/modules/probe.go:1232-1250 | what a check holds when it records meets what the transaction asks |
| ProbeChecking.RecordClosesRow | app/modules/probe.go:1378-1451 | recording closes the row of a mail that arrived |
| ProbeChecking.NoOpenMailIsDeleted | app/modules/probe.go:1224-1253 | a message is deleted from the server only when its record is gone, arrived, recovered or resolved |
| ProbeChecking.LevelIsEarned | app/modules/probe.go:706-769 | over whole runs a mail changes its level only at the record of a check that found it missing, or arrived, at least the threshold of the new level after its send |
| ProbeChecking.EveryRowLeft | app/models/probe_mail.go:145-290 | in every run: what each step leaves of each row (resolutions by hand, switch-offs, purges, records, markings), and that the other steps change none |
| ProbeChecking.MarkedDeletedExactly | app/modules/probe.go:1253-1260 | a row is marked deleted exactly when every verified copy of its mail that was found was deleted |
| ProbeChecking.LateMailRun | app/modules/probe.go:1196-1280 | a run from the empty table in which a mail that took twenty minutes is recovered at the delayed level and marked deleted |
| ProbeChecking.MailLife | app/models/probe_mail.go:116-195 | over whole runs the level never falls, status mirrors level, and a closed mail never changes status or level |
| ProbeAlerts.DeliveredExactly | app/models/probe_mail.go:278-290 | an alert mail delivered reports exactly the mails delayed at its listing without a delay stamp, and the missing or unsent ones without a failure stamp |
| ProbeAlerts.EachMailReportedOnce | app/modules/probe.go:1634-1672 | a mail no failed marking concerned is in at most one alert mail as delayed, in at most one as failed, and in none as delayed after one as failed, whatever happened to the others |
| ProbeAlerts.UnmarkedIsReportedAgain | app/modules/probe.go:1644-1672 | after a failed marking the next alert mail delivered reports each of its mails again, exactly when the mail is still delayed, failed or unsent at its listing |
| ProbeAlerts.FailedMarkingReportsAgain | app/modules/probe.go:1667-1670 | a run in which a failed marking has a mail reported twice |
| SourceRuns.StaysSettled | app/models/sending_source_lookup.go:39-70 | a usable non-empty row stays one under every interleaving of the reads and conditional upserts, whatever is looked up |
| SourceRuns.AnswerHasASource | app/modules/sourcecache.go:159-279 | what a call answers is what its run answered before, what the call looked up itself, or the entries of a usable row stored when the call read it; a call cut off answers incompletely |
| SourceRuns.FoundIsStored | app/modules/sourcecache.go:256-261 | a complete lookup that found something is answered as it is, and a working statement of the call leaves exactly those entries, dated then |
| SourceRuns.FreshIsAnswered | app/modules/sourcecache.go:238-242 | a usable row at most twelve hours old is answered as it is, any other read goes on to the lookup |
| SourceRuns.FallsBack | app/modules/sourcecache.go:248-273 | an incomplete lookup answers any usable row read, else what it found; an empty one answers a usable row that lists something, else goes on to be stored, by force exactly over an unusable one |
| SourceRuns.EmptyIsStored | app/modules/sourcecache.go:250-261 | an empty answer is stored exactly when the statement works and no row that lists something is there, unless forced |
| SourceRuns.RefusedIsAnswered | app/modules/sourcecache.go:262-268 | and when it was not, the row found in its place is answered if it lists something and may be used |
| SourceRuns.RunAnswersOnce | app/modules/sourcecache.go:230-278 | however the runs interleave, all calls of one run that are not cut off give the same answer |
| SourceRuns.StoredSourceIsAnswered | app/modules/sourcecache.go:159-279 | a call begun after a non-empty row was stored answers completely with something if and only if it is not canceled, its run had not remembered an empty or incomplete answer, and no read that would have found the row failed |
| SourceRuns.StoredRowSettles | app/modules/sourcecache.go:300-360 | without a too wide row to begin with, a stored non-empty row settles the source for the rest of the run |
| SourceRuns.AnsweredOnceStored | app/modules/sourcecache.go:159-279 | both together over one run: from the moment a row is stored every later call has that answer |
| SourceRuns.EmptiedExactly | app/modules/sourcecache.go:353-360 | the only step that empties a source with a usable row is the write of a run about to store an empty answer by force |
| SourceRuns.CanBeEmptiedExactly | app/modules/sourcecache.go:353-360 | so the next step can empty it if and only if some run is about to |
| SourceRuns.EmptiedAfterWideRow | app/modules/sourcecache.go:247-261 | and that run had found nothing while a too wide row was stored that was replaced since |
| SourceRuns.ForcedRowReplacesGoodOne | app/modules/sourcecache.go:247-261 | a run of two calls from a stored too wide row in which the good row of one is emptied by the other |
| SourceCaches.StoredRow | app/modules/sourcecache.go:300-318 | the most recently fetched row among the kinds, only fresh ones when asked |
| SourceCaches.KeptRow | app/modules/sourcecache.go:327-345 | the most recently fetched row among the kinds that lists something |
| SourceCaches.SourceStore.Replace | app/models/sending_source_lookup.go:48-70 | an empty row never replaces one that lists something, unless forced; whether it was written is reported |
| SourceCaches.SourceCache.ResolveHost | app/modules/sourcecache.go:159-215 | whole calls keep uniform rows of a name uniform; with only non-empty ones the answer is good unless canceled or remembered; which row answers and what is stored, for any rows; other names untouched |
| SourceCaches.SourceCache.AskedHost | app/modules/sourcecache.go:173-209 | what a lookup that had to be made stores and answers, by what it found |
| Schedules.DueCheckTimes | app/modules/scheduler.go:340-369 | exactly the occurrences of today and yesterday in (last, now] not fired, none twice |
| Schedules.DueWithinADay | app/modules/scheduler.go:340-369 | for ticks at most a day apart that is every occurrence in (last, now] |
| Schedules.Scheduler.Tick | app/modules/scheduler.go:101-114 | what is due fires and each time remembers the latest occurrence it fired |
| Schedules.FiredExactlyOnce | app/modules/scheduler.go:101-131 | over any forward run of ticks at most a day apart each occurrence after the start is fired by exactly one tick |
| Schedules.NextCheckAt | app/modules/settings.go:808-831 | the first occurrence of any listed time strictly after now, none exactly for an empty list |
| Schedules.DueExactlyWhenNextHasCome | app/modules/scheduler.go:340-369 | for any gap something is due exactly when the next check announced at the first tick has come |
| Schedules.ProbeSendDue | app/modules/probe.go:631-647 | of the times due the latest |
| Cleanups.DueIsLater | app/modules/scheduler.go:286-313 | the latest occurrence is due if and only if this process did not queue it and no date from it up to today is recorded; it is later than the recorded date if and only if that date does not lie ahead of today |
| Cleanups.CleanupScheduler.QueueCleanupIfDue | app/modules/scheduler.go:247-262 | the new state is the one of the step, also when the queue or the settings cannot be written |
| Cleanups.AscendExactly | app/modules/scheduler.go:247-262 | with the clock going forward the queued dates of a run ascend if and only if every tick that finds an occurrence queued before remembers it, in this process or in the settings |
| Cleanups.QueuedDatesAscend | app/modules/scheduler.go:247-262 | so they do over restarts and changes of the time while the settings can be read and written |
| Cleanups.UnrecordedDateQueuedTwice | app/modules/scheduler.go:259-261 | a run in which a record fails, the server restarts and the date is queued twice |
| Cleanups.LatestNeverMissed | app/modules/scheduler.go:286-313 | over any run, clock set back and failed reads and records included: after every tick that can queue, the latest occurrence or a later one not ahead of today was queued in the run or recorded before it, so a date from a clock that was ahead holds nothing back |
| Cleanups.ClockSetBackRecordsEarlierDate | app/modules/scheduler.go:305-307 | a run with the clock set back in which the recorded date falls |
| Notifications.NotifyDue | app/modules/notify.go:525-551 | exactly the due times whose occurrence falls on a notification day (the day of the last mail, or the interval or more after it), none twice |
| Notifications.NextNotifyAt | app/modules/notify.go:553-584 | the least moment after now on a notification day, and always one within the days searched while notifications are on |
| Notifications.DueExactlyWhenNextMomentHasCome | app/modules/notify.go:533-584 | for ticks at most a day apart something is due exactly when the announced moment has come |
| Notifications.DueAreMoments | app/modules/notify.go:533-584 | for any gap what is due was announced |
| Notifications.AnnouncedFiresExactly | app/modules/notify.go:533-584 | for any gap the announced moment itself is fired if and only if it lies on the day of the tick or the day before |
| Notifications.MomentMissedAfterALongGap | app/modules/notify.go:533-551 | settings and ticks with which an announced moment passes |
| DnsSettings.DnsCheck | app/modules/settings.go:203-230 | refused exactly when the combination with what was read has no resolver to ask or an invalid one; else the rows written are the ones given, which resolve to that combination |
| SmtpSettings.SaveNotificationSettings | app/modules/notify.go:312-431 | refused exactly when the combination with what was read is one not to save; else the rows written are the ones given, which resolve to it, and a default deletes its row |
| SmtpSettings.ChangeKeepsValid | app/modules/notify.go:394-428 | an accepted change keeps notifications on only with host and sender, and the stored password for the saved host, port, security and username, when what could not be read is harmless |
| ProbeSettings.ProbeUpdate | app/modules/probe.go:329-480 | refused exactly when the combination with what was read is one not to save; else the rows written are the ones given, for any stored table, and they resolve to the combination when the thresholds are stored in order |
| ProbeSettings.ChangeKeepsValid | app/modules/probe.go:441-466 | an accepted change keeps the probe on only when set up, the delay before the failure and the next send, the stored password for the saved server, when what could not be read is harmless |
| ProbeSettings.GapAtLeast | app/modules/probe.go:504-518 | true exactly when every two send times are that far apart |
| ProbeSettings.ResolvedInOrder | app/modules/probe.go:163-168 | what is read of the thresholds is in range and in order whatever is stored: a delay out of range counts as the default, a failure not after it as the default or the minute after it |
| SettingsLock.HarmlessExactly | app/modules/settingslock.go:27-38 | for any unread rows: every request accepted against what was read, of any groups together, keeps every promise if and only if the unread rows are harmless (no empty resolver list, no switch, no password or its server, no longer delay, earlier failure or closer send times missed) |
| SettingsLock.SavesAreSerial | app/modules/settingslock.go:8-34 | under the lock, whatever the requests and the reads that miss rows: only a save that works changes the table, row by row to what it wrote, and what it wrote was accepted against the table it changes, but for the rows its read missed |
| SettingsLock.SettingsStayGood | app/modules/settingslock.go:8-50 | under any interleaving of locked requests, failed saves and harmless failed reads included, every promise holds in every state |
| SettingsLock.NothingUnreadIsHarmless | app/models/setting.go:13-18 | a request that could read every row is harmless |
| SettingsLock.HarmfulReadBreaks | app/modules/settingslock.go:27-38 | after any other read of a request that holds the lock a run can go on to break a promise |
| SettingsLock.UnreadPasswordMoves | app/modules/notify.go:394-428 | a run from good settings in which the password row is not read and the password is pointed at another server |
| SettingsLock.NothingSavedIsGood | app/modules/settings.go:20-23 | the defaults alone keep every promise |
| SettingsLock.WithoutTheLockItBreaks | app/modules/settingslock.go:8-19 | without the lock two accepted changes leave the check without a resolver |
| CheckTimes.ParseCheckTimes | app/modules/settings.go:727-761 | every entry is a time and the result holds each once in order; an error means some entry is no time |
| CheckTimes.PieceExactly | app/modules/settings.go:735-748 | an entry is a time exactly when, white space around it aside, it is one or two characters of an hour, a colon and two of a minute, each read as a number in its range |
| CheckTimes.TextOrder | app/modules/settings.go:749-756 | the texts sort as the times they stand for |
| CheckTimes.ParseFormat | app/modules/settings.go:727-766 | parsing what was printed gives every normalized list back |
| RecheckDays.FormatRecheckDays | app/modules/settings.go:642-652 | the differences from the defaults, in category order |
| RecheckDays.ParseRecheckDays | app/modules/settings.go:598-617 | the entries read one by one, refused as a whole when one is no entry, unknown or out of range |
| RecheckDays.WithPartExactly | app/modules/settings.go:602-615 | a blank entry adds nothing, a category=days pair sets the days, with white space allowed around both, anything else is refused |
| RecheckDays.ResolveFormat | app/modules/settings.go:619-652 | what is printed of a full map resolves to the map |
| RecheckDays.SavedChangeResolves | app/modules/settings.go:161-174 | saved changes resolve to the old days with exactly the changes |
| SourceLists.Collect | app/modules/settings.go:998-1031 | strictly all entries valid and within the bound, else refused; leniently what is still valid, cut at the bound; each once in order |
| SourceLists.SavedListResolves | app/modules/settings.go:1033-1048 | a list accepted and saved one entry per line is read back as it is |
| SourceLists.NormalizedExactly | app/modules/settings.go:1088-1131 | one dot at the end dropped, a name is accepted exactly when it has at most 253 characters in labels of 1 to 63 letters, digits and inner hyphens, the last not all digits, and is no name of this machine; it comes out in lower case |
| SourceLists.HostsNormalize | app/modules/settings.go:1088-1131 | a normalized host name normalizes to itself and fits a line |
| SourceLists.SavedHostsResolve | app/modules/settings.go:1156-1159 | so for the sending source hosts |
| LoginLimits.DoublingClosedForm | app/modules/auth.go:443-450 | one more doubling step is the closed form 30 s times a power of two, at most 15 min |
| LoginLimits.LoginLimiter.Blocked | app/modules/auth.go:408-422 | the wait still in force, if any |
| LoginLimits.LoginLimiter.Fail | app/modules/auth.go:424-453 | the new records are those of the step and the wait returned is the closed form of the failures counted |
| LoginLimits.LoginLimiter.Reset | app/modules/auth.go:455-460 | forgets this pair only |
| LoginLimits.LoginLimiter.PruneLocked | app/modules/auth.go:462-477 | every 256th failure drops exactly the records idle for an hour |
| LoginLimits.PruningIsInvisible | app/modules/auth.go:462-465 | pruning changes no wait of any pair from then on, also after resets |
| LoginLimits.WholeStreakCounts | app/modules/auth.go:359-366 | over any run the whole streak of a pair is counted if and only if no pruning, at a 256th failure, found it idle past the limit since its last reset |
| LoginLimits.WaitOfTheStreak | app/modules/auth.go:359-366 | and then its next wait is the closed form of that streak |
| HeaderFolding.Cut | app/modules/smtp.go:394-402 | folds at the last space that leaves at most 78 characters, else at the first one; not at all only when the line fits or has no space to fold at |
| HeaderFolding.HeaderLine | app/modules/smtp.go:384-408 | unfolding gives the line back; every folded line has at most 78 characters or no inner space; only a line over 998 is folded |
| HeaderFolding.WrapBase64 | app/modules/smtp.go:428-438 | the lines of the output are the text in pieces of 76 characters, all but the last one full, nothing lost, and none holds a NUL or is over the limit |
| HeaderFolding.NeedsBase64 | app/modules/smtp.go:417-426 | true exactly when a line is over the limit or a NUL is in the body |
| HeaderFolding.BodyPart | app/modules/smtp.go:363-369 | what is sent has no line over the limit and no NUL; it is the body itself whenever that is so, else lines of 76 characters that decode to the body |
| Base64.EncodeExactly | app/modules/smtp.go:428-431 | group by group the 24 bits of three octets, six at a time, the first ones first; padding for the octets missing |
| Base64.DecodeEncode | app/modules/smtp.go:428-431 | decoding gives back every body encoded |

## Left out

- IMAP, SMTP and DNS traffic, HTTP handlers, the command line, the frontend and the mail templates; what they return is an input of the steps and methods.
- Encryption, bcrypt, session cookies, tokens, users and groups.
- Starting and stopping the job manager, the reset of stale jobs, job targets, progress texts and results, and the label of jobs of a deleted mailbox.
- The check for an identical active job before an insert: it is a separate statement; an expansion is given the mailboxes it created children for.
- The claim of a given id beside a running dispatcher, which reserves keys without testing them; the in-process runner has its process to itself.
- Fairness of the goroutine scheduler: no lost wakeup is a safety property, that a woken dispatcher runs is not stated.
- Exclusion.OneWriterPerMailbox: the move of the files of a renamed mailbox, between the test of the rename and its update, is not modelled; only the row is.
- JobManager.Manager.ClaimRunnable: the methods of the class are given a database that answers; statements that fail are steps of the dispatcher model.
- JobTree.Runner.RunJobInline: the keys are free because every earlier job of the process released its own; a claim that fails is not modelled.
- The bookkeeping of failed arrival checks, the mail about an unreadable probe server, the choice of the participating mailboxes and the rendering of the subject with its token.
- ProbeChecking.ReachableInv: the recorded probe mails are read in one step; the source reads them in batches of 500 tokens.
- ProbeAlerts.EachMailReportedOnce: a mail lost between the SMTP server and its reader is not modelled; a mail counts when at least one recipient got it.
- ProbeTiming.EveryMomentIsChecked: how late a check runs (scheduler ticks, the queue, other jobs) is a parameter; retries of an unreadable server are not checks.
- ProbeMails.ProbeMail.ApplyProbeCheck: times are unbounded integers of nanoseconds; the truncation to seconds of stored times is not modelled.
- SourceRuns.StoredSourceIsAnswered: addresses and host names of a row are one list of entries, and a complete SPF evaluation is taken to respect the limits of the address space.
- The pruning of rows no source refers to, and names of two kinds statement by statement: the source judges the kinds together within one call only.
- Daylight-saving shifts, and times of day that do not parse: the saved forms are normalized before they are used.
- The automatic analysis after a usage limit, and the jobs a tick does not queue because they could do nothing.
- The agent settings, the lists of IP addresses (their normalizer is a library call; `SavedListResolves` holds for any normalizer that is stable), folder and identifier of the probe, notification times, interval and recipients as settings.
- SettingsLock.SettingsStayGood: a password typed is taken to be meant for the server the request leaves saved; a key file that is missing refuses the request.
- SourceLists.Collect: the line number of an invalid entry is not part of the result, and white space is ASCII.
- RFC 2047 encoding of header values, the Date and Message-ID headers and the order of the headers.
