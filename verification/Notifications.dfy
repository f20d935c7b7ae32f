/** When the notification mails go out (app/modules/notify.go). */
module Notifications {
  import opened Options
  import opened Schedules

  datatype Settings = Settings(enabled: bool, times: seq<Clock>, intervalDays: int, lastSentAt: Option<int>)

  function DaysBetween(a: int, b: int): int {
    DayOf(b) - DayOf(a)
  }

  /** No mail was sent yet, the last one on that same day, or the interval has
      passed since. */
  predicate NotifyDay(s: Settings, t: int) {
    s.lastSentAt.Some? ==>
      DaysBetween(s.lastSentAt.value, t) == 0 || DaysBetween(s.lastSentAt.value, t) >= s.intervalDays
  }

  /** Without a mail sent before every day is one; after one its own day is,
      and the days the interval or more after it are. */
  ghost predicate OnNotificationDay(s: Settings, t: int) {
    s.lastSentAt != None ==> var sent := DayOf(s.lastSentAt.value); DayOf(t) == sent || DayOf(t) >= sent + s.intervalDays
  }

  ghost predicate Notifies(d: Due, last: int, now: int, s: Settings, fired: Fired) {
    s.enabled && IsDue(d, last, now, s.times, fired) && OnNotificationDay(s, d.at)
  }

  method NotifyDue(last: int, now: int, s: Settings, fired: Fired) returns (due: seq<Due>)
    ensures forall d :: d in due <==> Notifies(d, last, now, s, fired)
    ensures NoRepeats(s.times) ==> NoRepeats(due)
  {
    due := [];
    if !s.enabled {
      return;
    }
    var all := DueCheckTimes(last, now, s.times, fired);
    for i := 0 to |all|
      invariant forall d :: d in due <==> d in all[..i] && NotifyDay(s, d.at)
      invariant NoRepeats(all) ==> NoRepeats(due)
    {
      assert all[..i + 1] == all[..i] + [all[i]];
      if NotifyDay(s, all[i].at) {
        due := due + [all[i]];
      }
    }
    assert all[..|all|] == all;
  }

  /** A notification would go out at this moment if the scheduler ticked. */
  ghost predicate IsMoment(s: Settings, at: int, t: Clock) {
    t in s.times && IsOccurrence(at, t) && OnNotificationDay(s, at)
  }

  /** The first moment after now. */
  ghost predicate IsNextMoment(next: int, now: int, s: Settings) {
    && now < next
    && (exists t :: IsMoment(s, next, t))
    && (forall t, at :: IsMoment(s, at, t) && now < at ==> next <= at)
  }

  /** The times of a parsed list ascend. */
  predicate Ascending(times: seq<Clock>) {
    forall i, j :: 0 <= i < j < |times| ==> times[i] < times[j]
  }

  /** The days NextNotifyAt looks at. */
  function Bound(now: int, s: Settings): int {
    var ahead := if s.lastSentAt.Some? then DaysBetween(now, s.lastSentAt.value) else 0;
    s.intervalDays + 1 + if ahead > 0 then ahead else 0
  }

  /** Every moment before the candidate of a day and a time is behind. */
  ghost predicate NoneBefore(now: int, s: Settings, day: int, k: nat)
    requires k <= |s.times|
  {
    && (forall t, at :: IsMoment(s, at, t) && now < at ==> day <= DayOf(at))
    && (forall j :: 0 <= j < k ==> Occurrence(day, s.times[j]) <= now || !NotifyDay(s, Occurrence(day, s.times[j])))
  }

  /** The first moment after now at which a notification goes out; while
      notifications are on, with a time and a valid interval, there is always
      one within the days searched. */
  method NextNotifyAt(now: int, s: Settings) returns (next: Option<int>)
    requires Ascending(s.times)
    ensures next.Some? ==> s.enabled && IsNextMoment(next.value, now, s)
    ensures !s.enabled || s.times == [] ==> next.None?
    ensures s.enabled && s.times != [] && s.intervalDays >= 1 ==> next.Some?
  {
    if !s.enabled {
      return None;
    }
    var days := s.intervalDays + 1;
    if s.lastSentAt.Some? {
      var ahead := DaysBetween(now, s.lastSentAt.value);
      if ahead > 0 {
        days := days + ahead;
      }
    }
    var offset := 0;
    while offset <= days
      invariant 0 <= offset && (offset <= days + 1 || offset == 0)
      invariant NoneBefore(now, s, DayOf(now) + offset, 0)
    {
      var day := DayOf(now) + offset;
      for k := 0 to |s.times|
        invariant NoneBefore(now, s, day, k)
      {
        var cand := Occurrence(day, s.times[k]);
        OccurrenceOn(day, s.times[k]);
        if now < cand && NotifyDay(s, cand) {
          FirstOfDay(now, s, day, k);
          return Some(cand);
        }
      }
      NextDay(now, s, day);
      offset := offset + 1;
    }
    if s.times != [] && s.intervalDays >= 1 {
      var day := DayWithin(now, s);
      OccurrenceOn(day, s.times[0]);
      assert IsMoment(s, Occurrence(day, s.times[0]), s.times[0]);
      assert false;
    }
    next := None;
  }

  lemma FirstOfDay(now: int, s: Settings, day: int, k: nat)
    requires Ascending(s.times) && k < |s.times| && NoneBefore(now, s, day, k)
    requires now < Occurrence(day, s.times[k]) && NotifyDay(s, Occurrence(day, s.times[k]))
    ensures IsNextMoment(Occurrence(day, s.times[k]), now, s)
  {
    var cand := Occurrence(day, s.times[k]);
    OccurrenceOn(day, s.times[k]);
    assert IsMoment(s, cand, s.times[k]);
    forall t, at | IsMoment(s, at, t) && now < at
      ensures cand <= at
    {
      var j :| 0 <= j < |s.times| && s.times[j] == t;
      assert DayOf(at) == day ==> at == Occurrence(day, s.times[j]);
    }
  }

  lemma NextDay(now: int, s: Settings, day: int)
    requires NoneBefore(now, s, day, |s.times|)
    ensures NoneBefore(now, s, day + 1, 0)
  {
  }

  /** A notification day after today and within the bound. */
  lemma DayWithin(now: int, s: Settings) returns (day: int)
    requires s.intervalDays >= 1
    ensures DayOf(now) < day <= DayOf(now) + Bound(now, s)
    ensures forall t: Clock :: now < Occurrence(day, t) && NotifyDay(s, Occurrence(day, t))
  {
    var ahead := if s.lastSentAt.Some? then DaysBetween(now, s.lastSentAt.value) else 0;
    day := DayOf(now) + (if s.lastSentAt.None? then 1
                         else if ahead > 0 then ahead
                         else if ahead + s.intervalDays >= 1 then ahead + s.intervalDays
                         else 1);
    forall t: Clock
      ensures now < Occurrence(day, t) && NotifyDay(s, Occurrence(day, t))
    {
      OccurrenceOn(day, t);
    }
  }

  /** With ticks at most a day apart the notifications due are announced ones:
      something is due exactly when the next moment has come. */
  lemma DueExactlyWhenNextMomentHasCome(last: int, now: int, s: Settings, next: int)
    requires s.enabled && IsNextMoment(next, last, s) && now - last <= DAY
    ensures (exists d :: Notifies(d, last, now, s, map[])) <==> next <= now
  {
    if next <= now {
      var t :| IsMoment(s, next, t);
      DueWithinADay(Due(t, next), last, now, s.times, map[]);
      assert Notifies(Due(t, next), last, now, s, map[]);
    }
    DueAreMoments(last, now, s, next);
  }

  /** For any gap: what is due was announced. */
  lemma DueAreMoments(last: int, now: int, s: Settings, next: int)
    requires IsNextMoment(next, last, s)
    ensures forall d :: Notifies(d, last, now, s, map[]) ==> next <= d.at <= now
  {
    forall d | Notifies(d, last, now, s, map[])
      ensures next <= d.at <= now
    {
      OccurrenceOn(DayOf(now), d.time);
      OccurrenceOn(DayOf(now) - 1, d.time);
      assert IsMoment(s, d.at, d.time);
    }
  }

  /** For any gap: the announced moment itself is fired exactly when it lies
      on the day of the tick or the day before. */
  lemma AnnouncedFiresExactly(last: int, now: int, s: Settings, next: int)
    requires s.enabled && IsNextMoment(next, last, s) && next <= now
    ensures (exists t :: Notifies(Due(t, next), last, now, s, map[])) <==> DayOf(now) - DayOf(next) <= 1
  {
    var t :| IsMoment(s, next, t);
    OccurrenceOn(DayOf(now), t);
    OccurrenceOn(DayOf(now) - 1, t);
    if DayOf(now) - DayOf(next) <= 1 {
      assert DayOf(next) <= DayOf(now);
      assert Notifies(Due(t, next), last, now, s, map[]);
    }
    forall u | Notifies(Due(u, next), last, now, s, map[])
      ensures DayOf(now) - DayOf(next) <= 1
    {
      OccurrenceOn(DayOf(now), u);
      OccurrenceOn(DayOf(now) - 1, u);
    }
  }

  /** With ticks further apart a moment can pass unnoticed: the last mail went
      out early on day 0, the interval is a week and the next tick is on day 3. */
  lemma MomentMissedAfterALongGap() returns (s: Settings, last: int, now: int, next: int)
    ensures s.enabled && IsNextMoment(next, last, s) && next <= now && now - last > DAY
    ensures forall d :: !Notifies(d, last, now, s, map[])
  {
    s := Settings(true, [420], 7, Some(18000));
    last, next, now := 21600, 25200, 3 * DAY;
    assert IsMoment(s, next, 420);
  }
}
