/** When the scheduler fires (app/modules/scheduler.go, NextCheckAt in
    app/modules/settings.go). Times are seconds, a time of the day is a minute
    of the day, and every day has the same length. */
module Schedules {
  import opened Options

  const DAY := 86400

  /** A normalized HH:MM. */
  type Clock = t: nat | t < 1440

  function DayOf(at: int): int {
    at / DAY
  }

  /** The occurrence of a time of the day on a day. */
  function Occurrence(day: int, t: Clock): int {
    day * DAY + t * 60
  }

  /** So many minutes after the start of a day. */
  ghost predicate IsOccurrence(at: int, t: Clock) {
    at % 86400 == 60 * t
  }

  lemma OccurrenceOn(day: int, t: Clock)
    ensures DayOf(Occurrence(day, t)) == day && IsOccurrence(Occurrence(day, t), t)
    ensures 86400 * day <= Occurrence(day, t) < 86400 * (day + 1)
  {
  }

  /** A time whose occurrence arrived. */
  datatype Due = Due(time: Clock, at: int)

  type Fired = map<Clock, int>

  predicate NotFired(fired: Fired, t: Clock, at: int) {
    t in fired ==> fired[t] != at
  }

  /** The occurrence of today or of yesterday lies in (last, now] and was not
      the last one fired. */
  predicate IsDue(d: Due, last: int, now: int, times: seq<Clock>, fired: Fired) {
    && d.time in times
    && (d.at == Occurrence(DayOf(now), d.time) || d.at == Occurrence(DayOf(now) - 1, d.time))
    && last < d.at <= now
    && NotFired(fired, d.time, d.at)
  }

  predicate NoRepeats<T(==)>(s: seq<T>) {
    forall i, j :: 0 <= i < j < |s| ==> s[i] != s[j]
  }

  /** Of the occurrences of one time the earlier one comes first. */
  predicate InOrder(due: seq<Due>) {
    forall i, j :: 0 <= i < j < |due| && due[i].time == due[j].time ==> due[i].at < due[j].at
  }

  method DueCheckTimes(last: int, now: int, times: seq<Clock>, fired: Fired) returns (due: seq<Due>)
    ensures forall d :: d in due <==> IsDue(d, last, now, times, fired)
    ensures NoRepeats(times) ==> NoRepeats(due) && InOrder(due)
  {
    due := [];
    for i := 0 to |times|
      invariant forall d :: d in due <==> IsDue(d, last, now, times[..i], fired)
      invariant NoRepeats(times) ==> InOrder(due)
    {
      var t := times[i];
      var today := Occurrence(DayOf(now), t);
      assert times[..i + 1] == times[..i] + [t];
      ghost var before := due;
      for k := 0 to 2
        invariant NoRepeats(times) ==> InOrder(due)
        invariant forall d :: d in due <==>
          d in before || (d.time == t && IsDue(d, last, now, [t], fired) && ((k > 0 && d.at == today - DAY) || (k > 1 && d.at == today)))
      {
        var occ := if k == 0 then today - DAY else today;
        if occ <= last || occ > now {
          continue;
        }
        if t in fired && fired[t] == occ {
          continue;
        }
        due := due + [Due(t, occ)];
      }
    }
    assert times[..|times|] == times;
  }

  /** Looking at two days is enough for ticks at most a day apart: every
      occurrence in (last, now] is found. */
  lemma DueWithinADay(d: Due, last: int, now: int, times: seq<Clock>, fired: Fired)
    requires now - last <= DAY
    ensures IsDue(d, last, now, times, fired) <==>
              d.time in times && IsOccurrence(d.at, d.time) && last < d.at <= now && NotFired(fired, d.time, d.at)
  {
  }

  // --- Every occurrence once ---

  /** One scheduler: the previous tick and the last firing of each time. */
  class Scheduler {
    var lastTick: int
    var lastFired: Fired

    constructor (now: int)
      ensures lastTick == now && lastFired == map[]
    {
      lastTick, lastFired := now, map[];
    }

    /** One tick: what is due fires, and each time remembers the latest
        occurrence it fired now. */
    method Tick(now: int, times: seq<Clock>) returns (due: seq<Due>)
      modifies this
      ensures lastTick == now
      ensures forall d :: d in due <==> IsDue(d, old(lastTick), now, times, old(lastFired))
      ensures NoRepeats(times) ==> NoRepeats(due)
      ensures Remembers(lastFired, old(lastFired), due)
      ensures NoRepeats(times) ==> forall d :: d in due ==> d.at <= lastFired[d.time]
    {
      var last := lastTick;
      lastTick := now;
      due := DueCheckTimes(last, now, times, lastFired);
      for i := 0 to |due|
        invariant lastTick == now
        invariant Remembers(lastFired, old(lastFired), due[..i])
        invariant InOrder(due) ==> forall k :: 0 <= k < i ==> due[k].at <= lastFired[due[k].time]
      {
        assert due[..i + 1] == due[..i] + [due[i]];
        lastFired := lastFired[due[i].time := due[i].at];
      }
      assert due[..|due|] == due;
    }
  }

  ghost predicate Remembers(after: Fired, before: Fired, due: seq<Due>) {
    && (forall t :: t in after <==> t in before || exists d :: d in due && d.time == t)
    && (forall t :: t in after && (exists d :: d in due && d.time == t) ==> Due(t, after[t]) in due)
    && (forall t :: t in before && !(exists d :: d in due && d.time == t) ==> after[t] == before[t])
  }

  /** The ticks of a scheduler and what each fired; fired[i] is what it
      remembers after the first i ticks. The list of times is fixed, the clock
      goes forward, at most a day at a time. */
  ghost predicate IsTicking(ticks: seq<int>, fired: seq<Fired>, due: seq<seq<Due>>, times: seq<Clock>) {
    && |ticks| == |fired| == |due| + 1
    && fired[0] == map[]
    && (forall i :: 0 <= i < |due| ==> ticks[i] <= ticks[i + 1] <= ticks[i] + DAY)
    && (forall i :: 0 <= i < |due| ==>
          && (forall d :: d in due[i] <==> IsDue(d, ticks[i], ticks[i + 1], times, fired[i]))
          && Remembers(fired[i + 1], fired[i], due[i]))
  }

  /** What is remembered as fired has passed. */
  lemma {:induction false} FiredHasPassed(ticks: seq<int>, fired: seq<Fired>, due: seq<seq<Due>>, times: seq<Clock>, i: nat, t: Clock)
    requires IsTicking(ticks, fired, due, times) && i <= |due| && t in fired[i]
    ensures fired[i][t] <= ticks[i]
  {
    if i > 0 {
      assert Remembers(fired[i], fired[i - 1], due[i - 1]);
      assert ticks[i - 1] <= ticks[i];
      if exists d :: d in due[i - 1] && d.time == t {
        assert IsDue(Due(t, fired[i][t]), ticks[i - 1], ticks[i], times, fired[i - 1]);
      } else {
        FiredHasPassed(ticks, fired, due, times, i - 1, t);
      }
    }
  }

  lemma {:induction false} TicksMonotone(ticks: seq<int>, i: nat, j: nat)
    requires forall k :: 0 <= k < |ticks| - 1 ==> ticks[k] <= ticks[k + 1]
    requires i <= j < |ticks|
    ensures ticks[i] <= ticks[j]
    decreases j
  {
    if i < j {
      TicksMonotone(ticks, i, j - 1);
      assert ticks[j - 1] <= ticks[j - 1 + 1];
    }
  }

  /** A tick fires exactly the occurrences since the one before. */
  lemma TickFires(ticks: seq<int>, fired: seq<Fired>, due: seq<seq<Due>>, times: seq<Clock>, i: nat, d: Due)
    requires IsTicking(ticks, fired, due, times) && i < |due|
    requires d.time in times && IsOccurrence(d.at, d.time)
    ensures d in due[i] <==> ticks[i] < d.at <= ticks[i + 1]
  {
    assert ticks[i] <= ticks[i + 1] <= ticks[i] + DAY;
    DueWithinADay(d, ticks[i], ticks[i + 1], times, fired[i]);
    if d.time in fired[i] {
      FiredHasPassed(ticks, fired, due, times, i, d.time);
    }
  }

  /** Each occurrence of a listed time after the start is fired by exactly one
      tick. */
  lemma FiredExactlyOnce(ticks: seq<int>, fired: seq<Fired>, due: seq<seq<Due>>, times: seq<Clock>, d: Due) returns (i: nat)
    requires IsTicking(ticks, fired, due, times)
    requires d.time in times && IsOccurrence(d.at, d.time) && ticks[0] < d.at <= ticks[|due|]
    ensures i < |due| && d in due[i]
    ensures forall j :: 0 <= j < |due| && d in due[j] ==> j == i
  {
    i := 0;
    while ticks[i + 1] < d.at
      invariant i < |due| && ticks[i] < d.at
      decreases |due| - i
    {
      i := i + 1;
    }
    TickFires(ticks, fired, due, times, i, d);
    forall j | 0 <= j < |due| && d in due[j]
      ensures j == i
    {
      TickFires(ticks, fired, due, times, j, d);
      if j < i {
        TicksMonotone(ticks, j + 1, i);
      } else if i < j {
        TicksMonotone(ticks, i + 1, j);
      }
    }
  }

  // --- The next check ---

  /** The first occurrence of any of the times after now. */
  ghost predicate IsNext(next: int, now: int, times: seq<Clock>) {
    && now < next
    && (exists t :: t in times && IsOccurrence(next, t))
    && (forall t, at :: t in times && IsOccurrence(at, t) && now < at ==> next <= at)
  }

  method NextCheckAt(now: int, times: seq<Clock>) returns (next: Option<int>)
    ensures next.None? <==> times == []
    ensures next.Some? ==> IsNext(next.value, now, times)
  {
    next := None;
    for i := 0 to |times|
      invariant next.None? <==> i == 0
      invariant next.Some? ==> IsNext(next.value, now, times[..i])
    {
      var t := times[i];
      assert times[..i + 1] == times[..i] + [t];
      var cand := Occurrence(DayOf(now), t);
      if cand <= now {
        cand := Occurrence(DayOf(now) + 1, t);
      }
      FirstAfter(now, t, cand);
      if next.None? || cand < next.value {
        next := Some(cand);
      }
    }
    assert times[..|times|] == times;
  }

  lemma FirstAfter(now: int, t: Clock, cand: int)
    requires cand == if Occurrence(DayOf(now), t) <= now then Occurrence(DayOf(now) + 1, t) else Occurrence(DayOf(now), t)
    ensures IsOccurrence(cand, t) && now < cand
    ensures forall at :: IsOccurrence(at, t) && now < at ==> cand <= at
  {
  }

  /** The last occurrence of a time at or before now is of today or yesterday. */
  function LatestOccurrence(now: int, t: Clock): int {
    if Occurrence(DayOf(now), t) <= now then Occurrence(DayOf(now), t) else Occurrence(DayOf(now) - 1, t)
  }

  lemma LatestIsLast(now: int, t: Clock, at: int)
    requires IsOccurrence(at, t) && at <= now
    ensures at <= LatestOccurrence(now, t) <= now
  {
  }

  /** For any gap between two ticks: something is due exactly when the next
      check announced at the first tick has come. */
  lemma DueExactlyWhenNextHasCome(last: int, now: int, times: seq<Clock>, next: int)
    requires IsNext(next, last, times)
    ensures (exists d :: IsDue(d, last, now, times, map[])) <==> next <= now
  {
    if next <= now {
      var t :| t in times && IsOccurrence(next, t);
      LatestIsLast(now, t, next);
      assert IsDue(Due(t, LatestOccurrence(now, t)), last, now, times, map[]);
    }
    forall d | IsDue(d, last, now, times, map[])
      ensures next <= now
    {
      OccurrenceOn(DayOf(now), d.time);
      OccurrenceOn(DayOf(now) - 1, d.time);
      assert IsOccurrence(d.at, d.time);
    }
  }

  /** Of several send times passed in one tick the latest sends. */
  method ProbeSendDue(last: int, now: int, times: seq<Clock>, fired: Fired) returns (latest: Option<Due>)
    ensures latest.None? <==> forall d :: !IsDue(d, last, now, times, fired)
    ensures latest.Some? ==> IsDue(latest.value, last, now, times, fired)
    ensures latest.Some? ==> forall d :: IsDue(d, last, now, times, fired) ==> d.at <= latest.value.at
  {
    var due := DueCheckTimes(last, now, times, fired);
    if |due| == 0 {
      return None;
    }
    assert IsDue(due[0], last, now, times, fired);
    var best := due[0];
    for i := 1 to |due|
      invariant best in due && forall k :: 0 <= k < i ==> due[k].at <= best.at
    {
      if due[i].at > best.at {
        best := due[i];
      }
    }
    latest := Some(best);
    forall d | IsDue(d, last, now, times, fired)
      ensures d.at <= best.at
    {
      assert d in due;
    }
  }
}
