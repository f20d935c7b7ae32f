/** The fields of the job manager and the methods that change them, run by one
    goroutine (app/modules/jobs.go, app/models/job.go). The interleaving of
    several goroutines is the transition system of module Dispatcher, which
    takes the same functions as its steps. */
module JobManager {
  import opened Options
  import opened JobKeys
  import opened JobTable
  import opened LockTable
  import opened Dispatcher

  class Manager {
    var locks: Locks
    var workers: int
    var running: int
    var wake: bool
    // the database
    var jobs: Jobs
    var mailboxes: map<MailboxId, Mailbox>
    var probeHost: string

    /** Every row is stored under its id. */
    ghost predicate Valid()
      reads this
    {
      forall id :: id in jobs ==> jobs[id].id == id
    }

    function ResourceKeys(job: Job): seq<Key>
      reads this`mailboxes, this`probeHost
    {
      KeysOf(Reading(
        job.kind,
        if job.mailbox.None? || job.mailbox.value !in mailboxes then None else Some(mailboxes[job.mailbox.value]),
        probeHost))
    }

    predicate Runnable(id: JobId)
      reads this`jobs, this`locks, this`mailboxes, this`probeHost
    {
      IsQueued(jobs, id) && Free(locks, ResourceKeys(jobs[id]))
    }

    method LocksFree(keys: seq<Key>) returns (free: bool)
      ensures free == Free(locks, keys)
    {
      for i := 0 to |keys|
        invariant forall n :: 0 <= n < i ==> keys[n] !in locks
      {
        if keys[i] in locks {
          return false;
        }
      }
      return true;
    }

    method AcquireLocks(id: JobId, keys: seq<Key>)
      modifies this`locks
      ensures locks == Acquired(old(locks), id, keys)
    {
      for i := 0 to |keys|
        invariant forall k :: k in locks <==> k in old(locks) || k in keys[..i]
        invariant forall k :: k in locks ==> locks[k] == if k in keys[..i] then id else old(locks)[k]
      {
        assert forall k :: k in keys[..i + 1] <==> k in keys[..i] || k == keys[i];
        locks := locks[keys[i] := id];
      }
      assert keys[..|keys|] == keys;
    }

    method ReleaseLocks(id: JobId)
      modifies this`locks
      ensures locks == ReleasedBy(old(locks), id)
    {
      var left := locks.Keys;
      while left != {}
        invariant left <= old(locks).Keys
        invariant forall k :: k in locks <==> k in old(locks) && (k in left || old(locks)[k] != id)
        invariant forall k :: k in locks ==> locks[k] == old(locks)[k]
        decreases |left|
      {
        var k :| k in left;
        if k in locks && locks[k] == id {
          locks := locks - {k};
        }
        left := left - {k};
      }
    }

    method Notify()
      modifies this`wake
      ensures wake
    {
      if !wake {
        wake := true;
      }
    }

    method SetWorkers(n: int)
      modifies this`workers, this`wake
      ensures workers == ClampWorkers(n) && wake
    {
      workers := ClampWorkers(n);
      Notify();
    }

    method ClaimJobByID(id: JobId) returns (claimed: Option<Job>)
      modifies this`jobs
      ensures jobs == ClaimRow(old(jobs), id)
      ensures claimed == if IsQueued(old(jobs), id) then Some(jobs[id]) else None
    {
      if id !in jobs || !jobs[id].status.Queued? {
        return None;
      }
      jobs := jobs[id := jobs[id].(status := Running)];
      return Some(jobs[id]);
    }

    /** The oldest of some rows. */
    method Oldest(rows: set<JobId>) returns (first: JobId)
      requires Valid() && rows != {} && rows <= jobs.Keys
      ensures first in rows
      ensures forall id :: id in rows && id != first ==> Before(jobs[first], jobs[id])
    {
      first :| first in rows;
      var left := rows - {first};
      while left != {}
        invariant left <= rows && first in rows && first !in left
        invariant forall id :: id in rows && id !in left && id != first ==> Before(jobs[first], jobs[id])
        decreases |left|
      {
        var id :| id in left;
        if Before(jobs[id], jobs[first]) {
          first := id;
        }
        left := left - {id};
      }
    }

    /** SELECT ... WHERE status = 'queued' ORDER BY created_at ASC, id ASC. */
    method SelectQueued() returns (listing: seq<Job>)
      requires Valid()
      ensures IsListing(jobs, listing)
    {
      var left := set id | id in jobs && jobs[id].status.Queued?;
      listing := [];
      while left != {}
        invariant forall id :: id in left ==> IsQueued(jobs, id)
        invariant forall id :: IsQueued(jobs, id) ==> id in left || Listed(listing, id)
        invariant forall i :: 0 <= i < |listing| ==> IsQueued(jobs, listing[i].id) && jobs[listing[i].id] == listing[i]
        invariant forall i, j :: 0 <= i < j < |listing| ==> Before(listing[i], listing[j])
        invariant forall i, id :: 0 <= i < |listing| && id in left ==> Before(listing[i], jobs[id])
        decreases |left|
      {
        var id := Oldest(left);
        ghost var before := listing;
        listing := listing + [jobs[id]];
        left := left - {id};
        assert listing[|before|].id == id;
        assert forall other: JobId :: Listed(before, other) ==> Listed(listing, other) by {
          assert forall i :: 0 <= i < |before| ==> listing[i] == before[i];
        }
      }
    }

    /** Claims the oldest queued job whose keys are free and takes its keys. */
    method ClaimRunnable() returns (claimed: Option<Job>)
      requires Valid()
      modifies this`jobs, this`locks
      ensures Valid()
      ensures claimed.None? ==> jobs == old(jobs) && locks == old(locks) && forall id: JobId :: !Runnable(id)
      ensures claimed.Some? ==>
        var id := claimed.value.id;
        && old(Runnable(id)) && jobs == ClaimRow(old(jobs), id) && claimed.value == jobs[id]
        && locks == Acquired(old(locks), id, old(ResourceKeys(jobs[id])))
        && forall other: JobId :: old(Runnable(other)) && other != id ==> Before(old(jobs)[id], old(jobs)[other])
    {
      var listing := SelectQueued();
      for i := 0 to |listing|
        invariant jobs == old(jobs) && locks == old(locks)
        invariant forall n :: 0 <= n < i ==> !Runnable(listing[n].id)
      {
        var keys := ResourceKeys(listing[i]);
        var free := LocksFree(keys);
        if free {
          claimed := ClaimJobByID(listing[i].id);
          if claimed.Some? {
            AcquireLocks(listing[i].id, keys);
            return;
          }
        }
      }
      return None;
    }

    /** The started jobs are marked running and hold their keys. */
    ghost predicate AllStarted(started: seq<Job>)
      reads this
    {
      forall i :: 0 <= i < |started| ==> InState(jobs, started[i].id, Running) && HoldsKeys(started[i])
    }

    predicate HoldsKeys(job: Job)
      reads this`locks, this`mailboxes, this`probeHost
    {
      forall k :: k in ResourceKeys(job) ==> k in locks && locks[k] == job.id
    }

    /** Only claims changed the table. */
    ghost predicate OnlyClaimed(before: Jobs)
      reads this`jobs
    {
      && jobs.Keys == before.Keys
      && forall id :: id in before && jobs[id] != before[id] ==> IsQueued(before, id) && jobs[id] == before[id].(status := Running)
    }

    /** Starts jobs until every slot is taken or no queued job can run. The
        started jobs run elsewhere. */
    method Dispatch() returns (started: seq<Job>)
      requires Valid()
      modifies this`jobs, this`locks, this`running
      ensures Valid() && workers == old(workers)
      ensures running == old(running) + |started|
      ensures running >= workers || forall id: JobId :: !Runnable(id)
      ensures started != [] ==> running <= workers
      ensures AllStarted(started) && OnlyClaimed(old(jobs))
      ensures forall i :: 0 <= i < |started| ==> IsQueued(old(jobs), started[i].id)
    {
      started := [];
      while running < workers
        invariant Valid() && workers == old(workers)
        invariant running == old(running) + |started|
        invariant started != [] ==> running <= workers
        invariant AllStarted(started) && OnlyClaimed(old(jobs))
        invariant forall i :: 0 <= i < |started| ==> IsQueued(old(jobs), started[i].id)
        decreases workers - running
      {
        label before:
        var job := ClaimRunnable();
        if job.None? {
          return;
        }
        assert AllStarted(started) by {
          forall i | 0 <= i < |started|
            ensures InState(jobs, started[i].id, Running) && HoldsKeys(started[i])
          {
            assert old@before(HoldsKeys(started[i]));
          }
        }
        assert HoldsKeys(job.value);
        running := running + 1;
        started := started + [job.value];
      }
    }
  }
}
