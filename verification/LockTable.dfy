/** The table of held resource keys of the job manager (app/modules/jobs.go). */
module LockTable {
  import opened JobKeys
  import opened JobTable

  /** Resource key -> the job that holds it. */
  type Locks = map<Key, JobId>

  predicate Free(locks: Locks, keys: seq<Key>) {
    forall k :: k in keys ==> k !in locks
  }

  function Acquired(locks: Locks, id: JobId, keys: seq<Key>): Locks {
    locks + map k | k in keys :: id
  }

  function ReleasedBy(locks: Locks, id: JobId): Locks {
    map k | k in locks && locks[k] != id :: locks[k]
  }
}
