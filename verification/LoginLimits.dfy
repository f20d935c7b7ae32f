/** The login limiter (app/modules/auth.go): failures per client and username,
    a wait that doubles, and records dropped when idle. Times are seconds. */
module LoginLimits {
  import opened Numbers
  import opened Options

  const FAILURES_BEFORE_LOCK := 5
  const LOCK_INITIAL := 30
  const LOCK_MAX := 15 * 60
  const RECORD_TTL := 3600
  const PRUNE_EVERY := 256

  /** A client address and a username, as loginKey joins them. */
  type Key = string

  datatype Record = Record(failures: nat, lock: int, lockUntil: Option<int>, seen: int)

  type Records = map<Key, Record>

  datatype State = State(records: Records, ops: nat)

  /** The wait after so many failures in a row: capped doubling in closed form. */
  function LockAfter(failures: nat): int {
    if failures < FAILURES_BEFORE_LOCK then 0
    else Min(LOCK_INITIAL * Pow2(failures - FAILURES_BEFORE_LOCK), LOCK_MAX)
  }

  function Doubled(lock: int): int {
    if lock == 0 then LOCK_INITIAL else if lock * 2 > LOCK_MAX then LOCK_MAX else lock * 2
  }

  lemma DoublingClosedForm(failures: nat)
    requires failures + 1 >= FAILURES_BEFORE_LOCK
    ensures Doubled(LockAfter(failures)) == LockAfter(failures + 1)
  {
  }

  /** Every record holds the wait of its failures, from its last one on. */
  ghost predicate Valid(records: Records) {
    forall k :: k in records ==>
      && records[k].failures >= 1
      && records[k].lock == LockAfter(records[k].failures)
      && records[k].lockUntil == if records[k].failures < FAILURES_BEFORE_LOCK then None else Some(records[k].seen + records[k].lock)
  }

  /** The wait in force at a time. */
  function Wait(records: Records, key: Key, now: int): Option<int> {
    if key !in records || records[key].lockUntil.None? then None
    else if records[key].lockUntil.value - now <= 0 then None
    else Some(records[key].lockUntil.value - now)
  }

  function Pruned(records: Records, now: int): Records {
    map k | k in records && records[k].seen >= now - RECORD_TTL :: records[k]
  }

  /** The records after pruneLocked, which runs at the start of a failure. */
  function AfterPrune(s: State, now: int): Records {
    if (s.ops + 1) % PRUNE_EVERY == 0 then Pruned(s.records, now) else s.records
  }

  function Failed(records: Records, key: Key, now: int): Record {
    var n := (if key in records then records[key].failures else 0) + 1;
    Record(n, LockAfter(n), if n < FAILURES_BEFORE_LOCK then None else Some(now + LockAfter(n)), now)
  }

  lemma FailedValid(records: Records, key: Key, now: int)
    requires Valid(records)
    ensures Valid(records[key := Failed(records, key, now)])
  {
  }

  class LoginLimiter {
    var records: Records
    var ops: nat

    constructor ()
      ensures records == map[] && ops == 0 && Valid(records)
    {
      records, ops := map[], 0;
    }

    method Blocked(key: Key, now: int) returns (remaining: int, blocked: bool)
      ensures blocked <==> Wait(records, key, now).Some?
      ensures remaining == Wait(records, key, now).GetOr(0)
    {
      if key !in records || records[key].lockUntil.None? {
        return 0, false;
      }
      remaining := records[key].lockUntil.value - now;
      if remaining <= 0 {
        return 0, false;
      }
      return remaining, true;
    }

    method Fail(key: Key, now: int) returns (wait: int)
      requires Valid(records)
      modifies this
      ensures Valid(records) && State(records, ops) == Apply(old(State(records, ops)), Step.Fail(key, now))
      ensures wait == LockAfter(records[key].failures) && Wait(records, key, now) == if wait == 0 then None else Some(wait)
    {
      PruneLocked(now);
      ghost var pruned := records;
      var rec := if key in records then records[key] else Record(0, 0, None, now);
      wait, rec := Extended(rec, now);
      records := records[key := rec];
      assert rec == Failed(pruned, key, now);
      FailedValid(pruned, key, now);
    }

    /** One more failure of the record. */
    method Extended(before: Record, now: int) returns (wait: int, rec: Record)
      requires before.lock == LockAfter(before.failures)
      ensures rec.failures == before.failures + 1 && rec.seen == now
      ensures rec.lock == wait == LockAfter(rec.failures)
      ensures rec.lockUntil == if rec.failures < FAILURES_BEFORE_LOCK then None else Some(now + wait)
    {
      if before.failures + 1 >= FAILURES_BEFORE_LOCK {
        DoublingClosedForm(before.failures);
      }
      rec := before.(seen := now, failures := before.failures + 1, lockUntil := None);
      if rec.failures < FAILURES_BEFORE_LOCK {
        return 0, rec;
      }
      if rec.lock == 0 {
        rec := rec.(lock := LOCK_INITIAL);
      } else if rec.lock * 2 > LOCK_MAX {
        rec := rec.(lock := LOCK_MAX);
      } else {
        rec := rec.(lock := rec.lock * 2);
      }
      rec := rec.(lockUntil := Some(now + rec.lock));
      return rec.lock, rec;
    }

    method Reset(key: Key)
      requires Valid(records)
      modifies this
      ensures Valid(records) && State(records, ops) == Apply(old(State(records, ops)), Step.Reset(key))
    {
      records := records - {key};
    }

    method PruneLocked(now: int)
      requires Valid(records)
      modifies this
      ensures Valid(records) && records == AfterPrune(old(State(records, ops)), now) && ops == old(ops) + 1
    {
      ops := ops + 1;
      if ops % PRUNE_EVERY != 0 {
        return;
      }
      var cutoff := now - RECORD_TTL;
      var todo := records.Keys;
      ghost var before := records;
      while todo != {}
        invariant todo <= before.Keys && ops == old(ops) + 1
        invariant forall k :: k in records <==> k in before && (k in todo || before[k].seen >= cutoff)
        invariant forall k :: k in records ==> records[k] == before[k]
      {
        var key :| key in todo;
        todo := todo - {key};
        if records[key].seen < cutoff {
          records := records - {key};
        }
      }
      assert records == Pruned(before, now);
    }
  }

  // --- Pruning cannot be seen ---

  /** From now on the two hold the same waits. */
  ghost predicate SameWaits(a: Records, b: Records, now: int) {
    forall key, t :: now <= t ==> Wait(a, key, t) == Wait(b, key, t)
  }

  function Without(records: Records, keys: set<Key>): Records {
    map k | k in records && k !in keys :: records[k]
  }

  /** Dropping idle records changes no wait from then on, also after any
      pairs were reset: the longest wait is over before a record is idle for
      long enough. */
  lemma PruningIsInvisible(records: Records, now: int, reset: set<Key>)
    requires Valid(records)
    ensures SameWaits(Without(Pruned(records, now), reset), Without(records, reset), now)
  {
  }

  // --- Runs ---

  datatype Step = Fail(key: Key, now: int) | Reset(rkey: Key)

  function Apply(s: State, step: Step): State {
    match step
    case Fail(key, now) =>
      var records := AfterPrune(s, now);
      State(records[key := Failed(records, key, now)], s.ops + 1)
    case Reset(key) => s.(records := s.records - {key})
  }

  function After(steps: seq<Step>): State {
    if steps == [] then State(map[], 0) else Apply(After(steps[..|steps| - 1]), steps[|steps| - 1])
  }

  /** The failures of the pair since its last reset, and the last one. */
  function Streak(steps: seq<Step>, key: Key): nat {
    if steps == [] then 0
    else
      var before := Streak(steps[..|steps| - 1], key);
      match steps[|steps| - 1]
      case Fail(k, _) => if k == key then before + 1 else before
      case Reset(k) => if k == key then 0 else before
  }

  function LastFailure(steps: seq<Step>, key: Key): Option<int> {
    if steps == [] then None
    else
      var before := LastFailure(steps[..|steps| - 1], key);
      match steps[|steps| - 1]
      case Fail(k, now) => if k == key then Some(now) else before
      case Reset(k) => if k == key then None else before
  }

  function Failures(steps: seq<Step>): nat {
    if steps == [] then 0
    else Failures(steps[..|steps| - 1]) + if steps[|steps| - 1].Fail? then 1 else 0
  }

  /** The pair has failed, and at this time was idle for longer than its record
      is kept. */
  predicate Idle(steps: seq<Step>, key: Key, now: int) {
    LastFailure(steps, key).Some? && now - LastFailure(steps, key).value > RECORD_TTL
  }

  /** Since the last reset of the pair some 256th failure, of whatever pair,
      found it idle. */
  predicate Dropped(steps: seq<Step>, key: Key) {
    if steps == [] then false
    else
      var before := steps[..|steps| - 1];
      match steps[|steps| - 1]
      case Fail(_, now) => Dropped(before, key) || ((Failures(before) + 1) % PRUNE_EVERY == 0 && Idle(before, key, now))
      case Reset(k) => k != key && Dropped(before, key)
  }

  /** The failures the limiter counts for the pair. */
  function Count(records: Records, key: Key): nat {
    if key in records then records[key].failures else 0
  }

  /** What the records say of the pair after a run. */
  ghost predicate Tracks(steps: seq<Step>, key: Key) {
    var s := After(steps);
    && s.ops == Failures(steps)
    && (Streak(steps, key) > 0 <==> LastFailure(steps, key).Some?)
    && (key in s.records ==> Some(s.records[key].seen) == LastFailure(steps, key) && s.records[key].failures >= 1)
    && (if Dropped(steps, key) then Count(s.records, key) < Streak(steps, key) else Count(s.records, key) == Streak(steps, key))
  }

  lemma {:induction false} RunTracks(steps: seq<Step>, key: Key)
    ensures Tracks(steps, key)
  {
    if steps != [] {
      RunTracks(steps[..|steps| - 1], key);
    }
  }

  /** Over any run of failures and resets of any pairs: the limiter has counted
      the whole streak of a pair exactly when no pruning since its last reset
      found it idle. */
  lemma WholeStreakCounts(steps: seq<Step>, key: Key)
    ensures Count(After(steps).records, key) == Streak(steps, key) <==> !Dropped(steps, key)
  {
    RunTracks(steps, key);
  }

  /** So the next failure makes the pair wait as long as the closed form says
      of its streak. */
  lemma WaitOfTheStreak(steps: seq<Step>, key: Key, now: int)
    requires !Dropped(steps + [Fail(key, now)], key)
    ensures var records := After(steps + [Fail(key, now)]).records;
      key in records && records[key].lock == LockAfter(Streak(steps, key) + 1)
  {
    var all := steps + [Fail(key, now)];
    assert all[..|all| - 1] == steps;
    RunTracks(all, key);
  }
}
