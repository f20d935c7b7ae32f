/** When arrival checks of the delivery probe run (app/modules/probe.go).
    Times and durations are nanoseconds. */
module ProbeTiming {
  import opened Numbers
  import opened Options

  const SECOND := 1_000_000_000
  const MINUTE := 60 * SECOND
  const DEFAULT_FAILURE := 60 * MINUTE
  const CHECK_COALESCE := MINUTE
  const RETRY_INTERVAL := 10 * MINUTE
  const MINUTES_A_DAY := 1440

  // --- The regular next check ---

  /** The failure threshold the timing uses: the default one when none is set. */
  function Failure(failure: int): int {
    if failure <= 0 then DEFAULT_FAILURE else failure
  }

  /** The moments at which checks are meant to run after a send: every whole
      delay before the failure threshold, and every whole failure period. */
  ghost predicate IsCheckMoment(at: int, lastSend: int, delay: int, failure: int) {
    OnGrid(at - lastSend, delay, if 0 < failure then failure else 60 * MINUTE)
  }

  predicate OnGrid(x: int, delay: int, period: int)
    requires 0 < period
  {
    0 < x && ((0 < delay && x % delay == 0 && x < period) || x % period == 0)
  }

  lemma MulMono(a: int, b: int, d: int)
    requires a <= b && 0 <= d
    ensures a * d <= b * d
  {
  }

  lemma MultipleMod(k: int, d: int)
    requires 0 < d
    ensures (k * d) % d == 0
  {
    var q, r := (k * d) / d, (k * d) % d;
    assert (k - q) * d == k * d - q * d == r;
    if k - q >= 1 {
      MulMono(1, k - q, d);
    } else if k - q <= -1 {
      MulMono(k - q, -1, d);
    }
  }

  /** (x / d + 1) * d is the least multiple of d above x. */
  lemma NextMultiple(x: int, d: int)
    requires 0 <= x && 0 < d
    ensures ((x / d + 1) * d) % d == 0
    ensures x < (x / d + 1) * d <= x + d
    ensures forall y {:trigger y % d} :: x < y < (x / d + 1) * d ==> y % d != 0
  {
    var q := x / d;
    assert x == q * d + x % d;
    assert (q + 1) * d == q * d + d;
    MultipleMod(q + 1, d);
    forall y | x < y < (q + 1) * d
      ensures y % d != 0
    {
      if y % d == 0 {
        assert y == (y / d) * d;
        if y / d <= q {
          MulMono(y / d, q, d);
        } else {
          MulMono(q + 1, y / d, d);
        }
        assert false;
      }
    }
  }

  /** The time since the send of the next check. */
  function NextStep(elapsed: int, delay: int, period: int): int
    requires 0 <= elapsed && 0 < period
  {
    if 0 < delay < period && (elapsed / delay + 1) * delay < period then (elapsed / delay + 1) * delay
    else if elapsed < period then period
    else (elapsed / period + 1) * period
  }

  lemma NextStepOnGrid(elapsed: int, delay: int, period: int)
    requires 0 <= elapsed && 0 < period
    ensures elapsed < NextStep(elapsed, delay, period) <= elapsed + period
    ensures OnGrid(NextStep(elapsed, delay, period), delay, period)
  {
    if delay > 0 {
      NextMultiple(elapsed, delay);
    }
    NextMultiple(elapsed, period);
    MultipleMod(1, period);
    if elapsed < period && delay < period {
      assert NextStep(elapsed, delay, period) <= period;
    }
  }

  lemma SmallMod(x: int, d: int)
    requires 0 < x < d
    ensures x % d != 0
  {
  }

  lemma NextStepIsLeast(elapsed: int, delay: int, period: int, x: int)
    requires 0 <= elapsed && 0 < period && elapsed < x < NextStep(elapsed, delay, period)
    ensures !OnGrid(x, delay, period)
  {
    if x % period == 0 {
      if x < period {
        SmallMod(x, period);
      } else if period <= elapsed {
        NextMultiple(elapsed, period);
      }
    } else if 0 < delay && x % delay == 0 && x < period {
      if x < delay {
        SmallMod(x, delay);
      } else {
        NextMultiple(elapsed, delay);
      }
    }
  }

  function NextProbeCheckAt(lastSend: Option<int>, checkedAt: int, delay: int, failure: int): int {
    if lastSend.None? then checkedAt + Failure(failure)
    else lastSend.value + NextStep(Max(checkedAt - lastSend.value, 0), delay, Failure(failure))
  }

  /** The least check moment after a check. */
  ghost predicate IsNextMoment(next: int, lastSend: int, checkedAt: int, delay: int, failure: int) {
    && checkedAt < next
    && IsCheckMoment(next, lastSend, delay, failure)
    && (forall at :: checkedAt < at < next ==> !IsCheckMoment(at, lastSend, delay, failure))
  }

  /** After a send the next check is at the least moment of the grid after the
      check. */
  lemma NextCheckIsTheNextMoment(lastSend: int, checkedAt: int, delay: int, failure: int)
    ensures var next := NextProbeCheckAt(Some(lastSend), checkedAt, delay, failure);
      && IsNextMoment(next, lastSend, checkedAt, delay, failure)
      && next <= Max(checkedAt, lastSend) + Failure(failure)
  {
    var period := Failure(failure);
    var elapsed := Max(checkedAt - lastSend, 0);
    var next := NextProbeCheckAt(Some(lastSend), checkedAt, delay, failure);
    NextStepOnGrid(elapsed, delay, period);
    forall at | checkedAt < at < next
      ensures !IsCheckMoment(at, lastSend, delay, failure)
    {
      if lastSend < at {
        NextStepIsLeast(elapsed, delay, period, at - lastSend);
      }
    }
  }

  /** Without a recorded send the next check is one failure period after the
      check, an hour when none is set. */
  lemma NextCheckWithoutSend(checkedAt: int, delay: int, failure: int)
    ensures NextProbeCheckAt(None, checkedAt, delay, failure) - checkedAt == if 0 < failure then failure else 60 * MINUTE
  {
  }

  lemma SameNextMoment(first: int, second: int, lastSend: int, checkedAt: int, byHand: int, delay: int, failure: int)
    requires checkedAt <= byHand < first
    requires IsNextMoment(first, lastSend, checkedAt, delay, failure)
    requires IsNextMoment(second, lastSend, byHand, delay, failure)
    ensures first == second
  {
  }

  /** A check run by hand before the next one leaves the time of the next one
      as it is exactly when a send is recorded (or it ran at the same moment). */
  lemma HandCheckKeepsTheNextCheck(lastSend: Option<int>, checkedAt: int, byHand: int, delay: int, failure: int)
    requires checkedAt <= byHand < NextProbeCheckAt(lastSend, checkedAt, delay, failure)
    ensures NextProbeCheckAt(lastSend, byHand, delay, failure) == NextProbeCheckAt(lastSend, checkedAt, delay, failure)
            <==> lastSend.Some? || byHand == checkedAt
  {
    if lastSend.Some? {
      NextCheckIsTheNextMoment(lastSend.value, checkedAt, delay, failure);
      NextCheckIsTheNextMoment(lastSend.value, byHand, delay, failure);
      SameNextMoment(NextProbeCheckAt(lastSend, checkedAt, delay, failure), NextProbeCheckAt(lastSend, byHand, delay, failure),
                     lastSend.value, checkedAt, byHand, delay, failure);
    }
  }

  /** Checks that run, by hand or scheduled, at most so long after the time
      announced for them: the regular next check or, when it is put together
      with a level, up to CHECK_COALESCE later. */
  ghost predicate OnTime(checks: seq<int>, lastSend: int, delay: int, failure: int, late: nat) {
    forall i :: 0 < i < |checks| ==>
      checks[i - 1] < checks[i] <= NextProbeCheckAt(Some(lastSend), checks[i - 1], delay, failure) + CHECK_COALESCE + late
  }

  ghost predicate CheckedWithin(checks: seq<int>, from: int, to: int) {
    exists j :: 0 <= j < |checks| && from <= checks[j] <= to
  }

  /** However many checks are run by hand in between, every check moment a run
      passes has a check at most CHECK_COALESCE and the lateness after it. */
  lemma {:induction false} EveryMomentIsChecked(checks: seq<int>, lastSend: int, delay: int, failure: int, late: nat, at: int)
    requires checks != [] && OnTime(checks, lastSend, delay, failure, late)
    requires IsCheckMoment(at, lastSend, delay, failure) && checks[0] < at <= checks[|checks| - 1]
    ensures CheckedWithin(checks, at, at + CHECK_COALESCE + late)
  {
    var last := |checks| - 1;
    if checks[last - 1] < at {
      NextCheckIsTheNextMoment(lastSend, checks[last - 1], delay, failure);
    } else {
      var before := checks[..last];
      assert OnTime(before, lastSend, delay, failure, late);
      EveryMomentIsChecked(before, lastSend, delay, failure, late, at);
      var j :| 0 <= j < |before| && at <= before[j] <= at + CHECK_COALESCE + late;
      assert checks[j] == before[j];
    }
  }

  /** The run passes both moments and has a check from the first one on that
      comes before the second one. */
  ghost predicate HasOwnCheck(checks: seq<int>, m: int, next: int) {
    checks != [] && checks[0] < m && next <= checks[|checks| - 1] ==> CheckedWithin(checks, m, next - 1)
  }

  /** No moment is skipped for the one after it, in any run, exactly when they
      are further apart than the checks may be late. */
  lemma OwnCheckExactly(lastSend: int, delay: int, failure: int, late: nat, m: int, next: int)
    requires IsCheckMoment(m, lastSend, delay, failure) && IsNextMoment(next, lastSend, m, delay, failure)
    ensures (forall checks :: OnTime(checks, lastSend, delay, failure, late) ==> HasOwnCheck(checks, m, next))
            <==> CHECK_COALESCE + late < next - m
  {
    if CHECK_COALESCE + late < next - m {
      forall checks | OnTime(checks, lastSend, delay, failure, late)
        ensures HasOwnCheck(checks, m, next)
      {
        if checks != [] && checks[0] < m && next <= checks[|checks| - 1] {
          EveryMomentIsChecked(checks, lastSend, delay, failure, late, m);
          var j :| 0 <= j < |checks| && m <= checks[j] <= m + CHECK_COALESCE + late;
          assert m <= checks[j] <= next - 1;
        }
      }
    } else {
      NextCheckIsTheNextMoment(lastSend, m - 1, delay, failure);
      var checks := [m - 1, next];
      assert OnTime(checks, lastSend, delay, failure, late);
      assert !HasOwnCheck(checks, m, next);
    }
  }

  // --- The check the levels need ---

  /** The earliest of the moments after now. */
  ghost predicate IsFirstAfter(first: int, moments: seq<int>, now: int) {
    && first in moments && now < first
    && (forall m :: m in moments && now < m ==> first <= m)
  }

  ghost predicate Together(m: int, moments: seq<int>, next: int, first: int) {
    (m in moments || m == next) && first <= m <= first + CHECK_COALESCE
  }

  /** The regular next check, or, when a missing mail reaches its next level
      before it, the last of the moments checked together with that one. */
  method ProbeLevelCheckAt(next: int, moments: seq<int>, now: int) returns (at: int)
    ensures (forall m :: m in moments && now < m ==> next <= m) ==> at == next
    ensures forall first :: IsFirstAfter(first, moments, now) && first < next ==>
      Together(at, moments, next, first) && forall m :: Together(m, moments, next, first) ==> m <= at
    ensures now < next ==> now < at
    ensures at <= next + CHECK_COALESCE
    ensures forall m :: m in moments && now < m ==> at <= m + CHECK_COALESCE
    ensures at == next || at in moments
  {
    var first: Option<int> := None;
    for i := 0 to |moments|
      invariant first.None? ==> forall k :: 0 <= k < i ==> moments[k] <= now
      invariant first.Some? ==> first.value in moments[..i] && now < first.value
      invariant first.Some? ==> forall k :: 0 <= k < i && now < moments[k] ==> first.value <= moments[k]
    {
      var m := moments[i];
      if now < m && (first.None? || m < first.value) {
        first := Some(m);
      }
    }
    if first.None? || first.value >= next {
      return next;
    }
    assert IsFirstAfter(first.value, moments, now);
    at := first.value;
    for i := 0 to |moments|
      invariant first.value <= at <= first.value + CHECK_COALESCE && at in moments
      invariant forall k :: 0 <= k < i && moments[k] <= first.value + CHECK_COALESCE ==> moments[k] <= at
    {
      var m := moments[i];
      if at < m && m - first.value <= CHECK_COALESCE {
        at := m;
      }
    }
    if at < next && next - first.value <= CHECK_COALESCE {
      at := next;
    }
  }

  /** The check after one that found mails missing: after the check, never
      much later than the regular next one, and never more than
      CHECK_COALESCE after the moment a missing mail reaches its next level. */
  method NextAt(lastSend: Option<int>, now: int, delay: int, failure: int, levelAts: seq<int>) returns (at: int)
    requires forall m :: m in levelAts ==> now < m
    ensures now < at <= NextProbeCheckAt(lastSend, now, delay, failure) + CHECK_COALESCE
    ensures forall m :: m in levelAts ==> at <= m + CHECK_COALESCE
    ensures (forall m :: m in levelAts ==> NextProbeCheckAt(lastSend, now, delay, failure) <= m) ==>
              at == NextProbeCheckAt(lastSend, now, delay, failure)
    ensures at == NextProbeCheckAt(lastSend, now, delay, failure) || at in levelAts
  {
    var next := NextProbeCheckAt(lastSend, now, delay, failure);
    if lastSend.Some? {
      NextCheckIsTheNextMoment(lastSend.value, now, delay, failure);
    }
    at := ProbeLevelCheckAt(next, levelAts, now);
  }

  // --- Retrying an unreadable server ---

  /** Doubling from the retry interval, capped, in closed form. */
  method ProbeRetryAfter(failures: int, failure: int) returns (d: int)
    ensures failures >= 1 ==> d == Min(RETRY_INTERVAL * Pow2(failures - 1), Max(failure, RETRY_INTERVAL))
    ensures failures <= 1 ==> d == RETRY_INTERVAL
  {
    var limit := Max(failure, RETRY_INTERVAL);
    d := RETRY_INTERVAL;
    var i := 1;
    while i < failures && d < limit
      invariant i == 1 || 1 < i <= failures
      invariant d == RETRY_INTERVAL * Pow2(i - 1)
    {
      d := d * 2;
      i := i + 1;
    }
    if failures >= 1 {
      Pow2Mono(i - 1, failures - 1);
    }
    return Min(d, limit);
  }

  // --- The shortest gap between two send times ---

  /** How far two times of the day are apart, past midnight too. */
  function Circular(a: int, b: int): int {
    var d := if a <= b then b - a else a - b;
    Min(d, MINUTES_A_DAY - d)
  }

  predicate Sorted(s: seq<int>) {
    forall i, j :: 0 <= i < j < |s| ==> s[i] <= s[j]
  }

  /** The library sort. */
  function Sort(s: seq<int>): seq<int> {
    if s == [] then [] else Insert(s[0], Sort(s[1..]))
  }

  function Insert(x: int, s: seq<int>): seq<int> {
    if s == [] || x <= s[0] then [x] + s else [s[0]] + Insert(x, s[1..])
  }

  lemma {:induction false} SortSorts(s: seq<int>)
    ensures Sorted(Sort(s))
    ensures multiset(Sort(s)) == multiset(s) && |Sort(s)| == |s|
  {
    if s != [] {
      SortSorts(s[1..]);
      InsertSorts(s[0], Sort(s[1..]));
      InsertPermutes(s[0], Sort(s[1..]));
      assert s == [s[0]] + s[1..];
    }
  }

  lemma {:induction false} InsertPermutes(x: int, s: seq<int>)
    ensures multiset(Insert(x, s)) == multiset(s) + multiset{x} && |Insert(x, s)| == |s| + 1
  {
    if s != [] && x > s[0] {
      InsertPermutes(x, s[1..]);
      assert s == [s[0]] + s[1..];
    }
  }

  lemma {:induction false} InsertSorts(x: int, s: seq<int>)
    requires Sorted(s)
    ensures Sorted(Insert(x, s)) && Insert(x, s) != []
    ensures Insert(x, s)[0] == x || (s != [] && Insert(x, s)[0] == s[0])
  {
    if s != [] && x > s[0] {
      InsertSorts(x, s[1..]);
    }
  }

  /** The times that parse. */
  function Parsed(times: seq<Option<int>>): seq<int> {
    if times == [] then []
    else if times[|times| - 1].None? then Parsed(times[..|times| - 1])
    else Parsed(times[..|times| - 1]) + [times[|times| - 1].value]
  }

  predicate OfDay(mins: seq<int>) {
    forall i :: 0 <= i < |mins| ==> 0 <= mins[i] < MINUTES_A_DAY
  }

  lemma SortOfDay(mins: seq<int>)
    requires OfDay(mins)
    ensures Sorted(Sort(mins)) && OfDay(Sort(mins)) && |Sort(mins)| == |mins|
  {
    SortSorts(mins);
    var sorted := Sort(mins);
    forall i | 0 <= i < |sorted|
      ensures 0 <= sorted[i] < MINUTES_A_DAY
    {
      assert sorted[i] in multiset(sorted);
      assert sorted[i] in mins;
    }
  }

  function WrapGap(mins: seq<int>): int
    requires mins != []
  {
    MINUTES_A_DAY - mins[|mins| - 1] + mins[0]
  }

  /** gap is the shortest of the gap past midnight and the gaps before the
      first n times. */
  ghost predicate IsNeighbourGap(gap: int, mins: seq<int>, n: nat)
    requires 0 < n <= |mins|
  {
    && gap <= WrapGap(mins)
    && (forall k :: 0 < k < n ==> gap <= mins[k] - mins[k - 1])
    && (gap == WrapGap(mins) || exists k :: 0 < k < n && gap == mins[k] - mins[k - 1])
  }

  lemma {:induction false} NeighbourGapApart(gap: int, mins: seq<int>, i: int, j: int)
    requires mins != [] && Sorted(mins) && IsNeighbourGap(gap, mins, |mins|) && 0 <= i <= j < |mins|
    ensures (j - i) * gap <= mins[j] - mins[i]
    decreases j - i
  {
    if i < j {
      NeighbourGapApart(gap, mins, i, j - 1);
      assert gap <= mins[j] - mins[j - 1];
      assert (j - i) * gap == (j - 1 - i) * gap + gap;
    }
  }

  lemma NeighbourGapIsLeast(gap: int, mins: seq<int>, i: int, j: int)
    requires Sorted(mins) && OfDay(mins)
    requires 0 <= i < j < |mins| && IsNeighbourGap(gap, mins, |mins|)
    ensures gap <= Circular(mins[i], mins[j])
  {
    assert mins[j - 1] >= mins[i] && gap <= mins[j] - mins[j - 1];
    assert mins[0] <= mins[i] && mins[j] <= mins[|mins| - 1];
  }

  /** Some two times are as close as the shortest neighbour gap. */
  lemma NeighbourGapIsReached(gap: int, mins: seq<int>)
    requires Sorted(mins) && OfDay(mins)
    requires |mins| > 1 && IsNeighbourGap(gap, mins, |mins|)
    ensures exists i, j :: 0 <= i < j < |mins| && gap == Circular(mins[i], mins[j])
  {
    var last := |mins| - 1;
    if gap == WrapGap(mins) {
      NeighbourGapIsLeast(gap, mins, 0, last);
      assert gap == Circular(mins[0], mins[last]);
    } else {
      var k :| 0 < k < |mins| && gap == mins[k] - mins[k - 1];
      NeighbourGapIsLeast(gap, mins, k - 1, k);
      assert gap == Circular(mins[k - 1], mins[k]);
    }
  }

  lemma NeighbourGapStep(gap: int, mins: seq<int>, i: int)
    requires 0 < i < |mins| && IsNeighbourGap(gap, mins, i)
    ensures IsNeighbourGap(Min(gap, mins[i] - mins[i - 1]), mins, i + 1)
  {
  }

  /** No two of the times are closer, past midnight too, and (with more than
      one) some two are as close; as many gaps as times fit into one day. */
  ghost predicate IsShortestGap(gap: int, mins: seq<int>) {
    && (|mins| == 1 ==> gap == MINUTES_A_DAY)
    && (forall i, j :: 0 <= i < j < |mins| ==> gap <= Circular(mins[i], mins[j]))
    && (|mins| > 1 ==> exists i, j :: 0 <= i < j < |mins| && gap == Circular(mins[i], mins[j]))
    && |mins| * gap <= MINUTES_A_DAY
  }

  lemma NeighbourGapIsShortest(gap: int, mins: seq<int>)
    requires Sorted(mins) && OfDay(mins) && mins != [] && IsNeighbourGap(gap, mins, |mins|)
    ensures IsShortestGap(gap, mins)
  {
    forall i, j | 0 <= i < j < |mins|
      ensures gap <= Circular(mins[i], mins[j])
    {
      NeighbourGapIsLeast(gap, mins, i, j);
    }
    NeighbourGapApart(gap, mins, 0, |mins| - 1);
    assert |mins| * gap == (|mins| - 1) * gap + gap;
    if |mins| > 1 {
      NeighbourGapIsReached(gap, mins);
    }
  }

  /** The shortest gap between two send times that follow each other is the
      shortest one between any two of them. */
  method MinProbeSendGap(times: seq<Option<int>>) returns (gap: int, found: bool)
    requires forall t :: t in times && t.Some? ==> 0 <= t.value < MINUTES_A_DAY
    ensures found <==> Parsed(times) != []
    ensures found ==> IsShortestGap(gap, Sort(Parsed(times)))
  {
    var mins := Minutes(times);
    if mins == [] {
      return 0, false;
    }
    SortOfDay(mins);
    mins := Sort(mins);
    gap := MINUTES_A_DAY - mins[|mins| - 1] + mins[0];
    for i := 1 to |mins|
      invariant IsNeighbourGap(gap, mins, i)
    {
      NeighbourGapStep(gap, mins, i);
      gap := Min(gap, mins[i] - mins[i - 1]);
    }
    NeighbourGapIsShortest(gap, mins);
    found := true;
  }

  method Minutes(times: seq<Option<int>>) returns (mins: seq<int>)
    requires forall t :: t in times && t.Some? ==> 0 <= t.value < MINUTES_A_DAY
    ensures mins == Parsed(times) && OfDay(mins)
  {
    mins := [];
    for i := 0 to |times|
      invariant mins == Parsed(times[..i]) && OfDay(mins)
    {
      var t := times[i];
      assert times[..i + 1][..i] == times[..i];
      if t.None? {
        continue;
      }
      mins := mins + [t.value];
    }
    assert times[..|times|] == times;
  }
}
