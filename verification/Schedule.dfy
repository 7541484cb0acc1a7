/**
  When each job runs, for each website (api/workers/schedule.py).

  An instant is a whole number of microseconds since 0001-01-01T00:00Z, which
  is a Monday in the proleptic Gregorian calendar; day `d` is `[d * DAY, (d+1) * DAY)`
  and its weekday is `d % 7` with 0 for Monday.
*/
module Schedule {
  import opened Prelude

  const MINUTE := 60_000_000
  const HOUR := 60 * MINUTE
  const DAY := 24 * HOUR

  datatype Job = Job(name: string, queue: string, hour: nat, minuteFrom: nat, minuteTo: nat, weekday: Option<nat>) {
    predicate Valid() {
      && hour < 24
      && minuteFrom < minuteTo <= 60
      && (weekday.Some? ==> weekday.value < 7)
    }

    /** The minute within the hour, spread by the website's stable offset. */
    function SlotMinute(offset: nat): (minute: nat)
      requires Valid()
      ensures minuteFrom <= minute < minuteTo
    {
      minuteFrom + offset % (minuteTo - minuteFrom)
    }

    predicate RunsOn(day: int) {
      weekday.None? || day % 7 == weekday.value
    }

    /** The distance between two consecutive slots of this job. */
    function Period(): (p: int)
      ensures p == DAY || p == 7 * DAY
    {
      if weekday.None? then DAY else 7 * DAY
    }
  }

  const SYNC_SEARCH_CONSOLE := Job("sync_search_console", "sync", 1, 0, 60, None)
  const SYNC_ANALYTICS := Job("sync_analytics", "sync", 2, 0, 60, None)
  const CRAWL_WEBSITE := Job("crawl_website", "crawl", 3, 0, 60, None)
  const CALCULATE_SCORES := Job("calculate_scores", "analysis", 4, 0, 60, None)
  const GENERATE_RECOMMENDATIONS := Job("generate_recommendations", "ai", 4, 30, 60, None)
  const GENERATE_WEEKLY_REPORT := Job("generate_weekly_report", "reports", 6, 0, 60, Some(0))

  const JOBS: seq<Job> := [
    SYNC_SEARCH_CONSOLE, SYNC_ANALYTICS, CRAWL_WEBSITE, CALCULATE_SCORES,
    GENERATE_RECOMMENDATIONS, GENERATE_WEEKLY_REPORT]

  function DayOf(t: int): int {
    t / DAY
  }

  function SlotOn(job: Job, offset: nat, day: int): int
    requires job.Valid()
  {
    day * DAY + job.hour * HOUR + job.SlotMinute(offset) * MINUTE
  }

  lemma SlotOnItsDay(job: Job, offset: nat, day: int)
    requires job.Valid()
    ensures day * DAY <= SlotOn(job, offset, day) < (day + 1) * DAY
    ensures DayOf(SlotOn(job, offset, day)) == day
  {
    assert job.hour * HOUR + job.SlotMinute(offset) * MINUTE <= 23 * HOUR + 59 * MINUTE;
  }

  /** The instants at which this job is due for a website with this offset. */
  predicate IsSlot(job: Job, offset: nat, t: int)
    requires job.Valid()
  {
    job.RunsOn(DayOf(t)) && t == SlotOn(job, offset, DayOf(t))
  }

  /** The job's hour and the website's minute on this day, which is one of the job's days. */
  ghost predicate ReadsSlot(job: Job, offset: nat, day: int, t: int)
    requires job.Valid()
  {
    && (job.weekday.None? || day % 7 == job.weekday.value)
    && t == day * 86_400_000_000 + job.hour * 3_600_000_000
       + (job.minuteFrom + offset % (job.minuteTo - job.minuteFrom)) * 60_000_000
  }

  /** An instant is a slot when the clock and the calendar say so. */
  lemma SlotMeans(job: Job, offset: nat, t: int)
    requires job.Valid()
    ensures IsSlot(job, offset, t) <==> exists day: int :: ReadsSlot(job, offset, day, t)
  {
    if IsSlot(job, offset, t) {
      assert ReadsSlot(job, offset, DayOf(t), t);
    }
    if day: int :| ReadsSlot(job, offset, day, t) {
      SlotOnItsDay(job, offset, day);
    }
  }

  /** How many days before `day` the job last ran on, counting `day` itself as 0. */
  function DaysSinceRunDay(job: Job, day: int): (back: nat)
    requires job.Valid()
    ensures back < 7
  {
    if job.weekday.None? then 0 else (day - job.weekday.value) % 7
  }

  /** Closed form of the most recent slot at or before `now`. */
  function Due(job: Job, offset: nat, now: int): int
    requires job.Valid()
  {
    var candidate := SlotOn(job, offset, DayOf(now) - DaysSinceRunDay(job, DayOf(now)));
    if candidate <= now then candidate else candidate - job.Period()
  }

  function Next(job: Job, offset: nat, now: int): int
    requires job.Valid()
  {
    Due(job, offset, now) + job.Period()
  }

  // ---- weekday arithmetic -------------------------------------------------

  lemma SlotsAPeriodApart(job: Job, offset: nat, t: int)
    requires job.Valid() && IsSlot(job, offset, t)
    ensures IsSlot(job, offset, t + job.Period()) && IsSlot(job, offset, t - job.Period())
  {
    var d := DayOf(t);
    var days := if job.weekday.None? then 1 else 7;
    hide SlotOn, DayOf;
    SlotOnItsDay(job, offset, d + days);
    SlotOnItsDay(job, offset, d - days);
    SlotMoves(job, offset, d, days);
    SlotMoves(job, offset, d, -days);
    SameWeekday(d);
  }

  lemma SlotMoves(job: Job, offset: nat, day: int, days: int)
    requires job.Valid()
    ensures SlotOn(job, offset, day + days) == SlotOn(job, offset, day) + days * DAY
  {
  }

  lemma SameWeekday(day: int)
    ensures (day + 7) % 7 == day % 7 && (day - 7) % 7 == day % 7
  {
  }

  lemma WeekApart(c: int, d: int)
    requires c % 7 == d % 7
    ensures c < d ==> c + 7 <= d
  {
  }

  /** Nothing lies strictly between two slots that are one period apart. */
  lemma NoSlotBetween(job: Job, offset: nat, s: int, t: int)
    requires job.Valid() && IsSlot(job, offset, s) && IsSlot(job, offset, t)
    requires s < t
    ensures s + job.Period() <= t
  {
    SlotOnItsDay(job, offset, DayOf(s));
    SlotOnItsDay(job, offset, DayOf(t));
    hide DayOf;
    var c, d := DayOf(s), DayOf(t);
    assert t - s == (d - c) * DAY;
    if job.weekday.Some? {
      WeekApart(c, d);
    }
  }

  lemma DueWithinItsPeriod(job: Job, offset: nat, now: int)
    requires job.Valid()
    ensures Due(job, offset, now) <= now < Due(job, offset, now) + job.Period()
  {
    var today := DayOf(now);
    var runDay := today - DaysSinceRunDay(job, today);
    assert today * DAY <= now < (today + 1) * DAY;
    hide SlotOn, DayOf;
    SlotOnItsDay(job, offset, runDay);
    assert runDay <= today < runDay + if job.weekday.None? then 1 else 7;
  }

  lemma BackToWeekday(day: int, weekday: int)
    requires 0 <= weekday < 7
    ensures (day - (day - weekday) % 7) % 7 == weekday
  {
  }

  lemma DueIsASlot(job: Job, offset: nat, now: int)
    requires job.Valid()
    ensures IsSlot(job, offset, Due(job, offset, now))
  {
    var today := DayOf(now);
    var runDay := today - DaysSinceRunDay(job, today);
    hide DayOf, SlotOn;
    if job.weekday.Some? {
      BackToWeekday(today, job.weekday.value);
    }
    var candidate := SlotOn(job, offset, runDay);
    SlotOnItsDay(job, offset, runDay);
    SlotsAPeriodApart(job, offset, candidate);
  }

  // ---- the main results ---------------------------------------------------

  /** `Due` is a slot, is not after `now`, and no later slot is. */
  lemma {:induction false} DueIsGreatestSlot(job: Job, offset: nat, now: int)
    requires job.Valid()
    ensures IsSlot(job, offset, Due(job, offset, now))
    ensures Due(job, offset, now) <= now < Due(job, offset, now) + job.Period()
    ensures forall s :: IsSlot(job, offset, s) && s <= now ==> s <= Due(job, offset, now)
  {
    DueIsASlot(job, offset, now);
    DueWithinItsPeriod(job, offset, now);
    var due := Due(job, offset, now);
    forall s | IsSlot(job, offset, s) && s <= now
      ensures s <= due
    {
      if s > due { NoSlotBetween(job, offset, due, s); }
    }
  }

  /** `Next` is the least slot strictly after `now`, one period after `Due`. */
  lemma {:induction false} NextIsLeastSlot(job: Job, offset: nat, now: int)
    requires job.Valid()
    ensures IsSlot(job, offset, Next(job, offset, now))
    ensures now < Next(job, offset, now)
    ensures forall s :: IsSlot(job, offset, s) && now < s ==> Next(job, offset, now) <= s
    ensures Next(job, offset, now) - Due(job, offset, now) in {DAY, 7 * DAY}
  {
    DueIsGreatestSlot(job, offset, now);
    var due := Due(job, offset, now);
    SlotsAPeriodApart(job, offset, due);
    forall s | IsSlot(job, offset, s) && now < s
      ensures due + job.Period() <= s
    {
      NoSlotBetween(job, offset, due, s);
    }
  }

  lemma DueMonotone(job: Job, offset: nat, earlier: int, later: int)
    requires job.Valid() && earlier <= later
    ensures Due(job, offset, earlier) <= Due(job, offset, later)
    ensures Next(job, offset, earlier) <= Next(job, offset, later)
  {
    DueIsGreatestSlot(job, offset, earlier);
    DueIsGreatestSlot(job, offset, later);
  }

  /** A slot stays the due one for exactly one period. */
  lemma DueWithinPeriod(job: Job, offset: nat, slot: int, now: int)
    requires job.Valid() && IsSlot(job, offset, slot)
    ensures Due(job, offset, now) == slot <==> slot <= now < slot + job.Period()
  {
    DueIsGreatestSlot(job, offset, now);
    var due := Due(job, offset, now);
    if slot <= now < slot + job.Period() && due != slot {
      NoSlotBetween(job, offset, slot, due);
    }
  }

  /**
    Ticks that are never more than a period apart miss no slot: every slot after
    the first tick and not after the last one is the due slot of some tick.
  */
  lemma {:induction false} NoSlotMissed(job: Job, offset: nat, ticks: seq<int>, slot: int) returns (i: nat)
    requires job.Valid() && |ticks| > 0
    requires forall k :: 0 <= k < |ticks| - 1 ==> ticks[k] <= ticks[k + 1] <= ticks[k] + job.Period()
    requires IsSlot(job, offset, slot) && ticks[0] < slot <= ticks[|ticks| - 1]
    ensures i < |ticks| && Due(job, offset, ticks[i]) == slot
  {
    if ticks[|ticks| - 2] < slot {
      i := |ticks| - 1;
      DueWithinPeriod(job, offset, slot, ticks[i]);
    } else {
      i := NoSlotMissed(job, offset, ticks[..|ticks| - 1], slot);
    }
  }

  /**
    The night's order for one website: each job's slot is before the next
    job's, except that scores and recommendations share a minute exactly when
    the score's stagger falls in the second half of the hour.
  */
  lemma NightIsOrdered(offset: nat, day: int)
    ensures forall j :: 0 <= j < |JOBS| ==> JOBS[j].Valid()
    ensures forall j :: 0 <= j < 3 ==> SlotOn(JOBS[j], offset, day) < SlotOn(JOBS[j + 1], offset, day)
    ensures SlotOn(CALCULATE_SCORES, offset, day) <= SlotOn(GENERATE_RECOMMENDATIONS, offset, day)
    ensures SlotOn(CALCULATE_SCORES, offset, day) == SlotOn(GENERATE_RECOMMENDATIONS, offset, day)
       <==> offset % 60 >= 30
    ensures SlotOn(GENERATE_RECOMMENDATIONS, offset, day) < day * DAY + 5 * HOUR
    ensures SlotOn(GENERATE_RECOMMENDATIONS, offset, day) < SlotOn(GENERATE_WEEKLY_REPORT, offset, day)
  {
    hide SlotOn;
    forall j | 0 <= j < 3
      ensures SlotOn(JOBS[j], offset, day) < SlotOn(JOBS[j + 1], offset, day)
    {
      assert JOBS[j].hour == j + 1 && JOBS[j + 1].hour == j + 2;
      LaterHour(JOBS[j], JOBS[j + 1], offset, day);
    }
    LaterHour(GENERATE_RECOMMENDATIONS, GENERATE_WEEKLY_REPORT, offset, day);
    HalfHours(offset, day);
  }

  lemma LaterHour(job: Job, later: Job, offset: nat, day: int)
    requires job.Valid() && later.Valid() && job.hour < later.hour
    ensures SlotOn(job, offset, day) < SlotOn(later, offset, day)
    ensures SlotOn(job, offset, day) < day * DAY + (job.hour + 1) * HOUR
  {
    assert job.SlotMinute(offset) * MINUTE < HOUR;
  }

  lemma HalfHours(offset: nat, day: int)
    ensures var scores, advice := SlotOn(CALCULATE_SCORES, offset, day), SlotOn(GENERATE_RECOMMENDATIONS, offset, day);
      scores <= advice && (scores == advice <==> offset % 60 >= 30)
  {
    Remainders(offset / 60, offset % 60);
    assert offset == 60 * (offset / 60) + offset % 60;
  }

  lemma Remainders(q: nat, r: nat)
    requires r < 60
    ensures (60 * q + r) % 30 == if r < 30 then r else r - 30
  {
    if r < 30 {
      Remainder(2 * q, r);
    } else {
      Remainder(2 * q + 1, r - 30);
    }
  }

  lemma Remainder(q: nat, r: nat)
    requires r < 30
    ensures (30 * q + r) % 30 == r
  {
  }

  // ---- the loops of the source --------------------------------------------

  lemma DueIsRecent(job: Job, offset: nat, now: int)
    requires job.Valid()
    ensures DayOf(now) - 7 <= DayOf(Due(job, offset, now)) <= DayOf(now)
    ensures DayOf(now) <= DayOf(Next(job, offset, now)) <= DayOf(now) + 7
  {
    DueWithinItsPeriod(job, offset, now);
    hide Due;
  }

  /** If no day after `day` holds the due slot, it is `day`'s slot or lies before `day`. */
  lemma DayHoldsDue(job: Job, offset: nat, now: int, day: int)
    requires job.Valid() && DayOf(Due(job, offset, now)) <= day
    ensures if job.RunsOn(day) && SlotOn(job, offset, day) <= now
      then Due(job, offset, now) == SlotOn(job, offset, day)
      else DayOf(Due(job, offset, now)) < day
  {
    DueIsGreatestSlot(job, offset, now);
    hide Due;
    SlotOnItsDay(job, offset, day);
    SlotOnItsDay(job, offset, DayOf(Due(job, offset, now)));
    if job.RunsOn(day) {
      assert IsSlot(job, offset, SlotOn(job, offset, day));
    }
    hide SlotOn, DayOf;
  }

  lemma DayHoldsNext(job: Job, offset: nat, now: int, day: int)
    requires job.Valid() && day <= DayOf(Next(job, offset, now))
    ensures if job.RunsOn(day) && SlotOn(job, offset, day) > now
      then Next(job, offset, now) == SlotOn(job, offset, day)
      else day < DayOf(Next(job, offset, now))
  {
    NextIsLeastSlot(job, offset, now);
    hide Due, Next;
    SlotOnItsDay(job, offset, day);
    SlotOnItsDay(job, offset, DayOf(Next(job, offset, now)));
    if job.RunsOn(day) {
      assert IsSlot(job, offset, SlotOn(job, offset, day));
    }
    hide SlotOn, DayOf;
  }

  lemma WholeDaysApart(t: int, days: int)
    ensures DayOf(t + days * DAY) == DayOf(t) + days
  {
  }

  /** Walks back day by day and returns the first slot that has passed. */
  method DueSlot(job: Job, offset: nat, now: int) returns (slot: Option<int>)
    requires job.Valid()
    ensures slot == Some(Due(job, offset, now))
  {
    hide Due, Next, SlotOn, DayOf;
    DueIsRecent(job, offset, now);
    for daysBack := 0 to 8
      invariant DayOf(Due(job, offset, now)) <= DayOf(now) - daysBack
    {
      WholeDaysApart(now, -daysBack);
      var day := DayOf(now - daysBack * DAY);
      DayHoldsDue(job, offset, now, day);
      if job.RunsOn(day) {
        var s := SlotOn(job, offset, day);
        if s <= now {
          return Some(s);
        }
      }
    }
    assert false;
    slot := None;
  }

  /** Walks forward day by day and returns the first slot still to come. */
  method NextSlot(job: Job, offset: nat, now: int) returns (slot: int)
    requires job.Valid()
    ensures slot == Next(job, offset, now)
  {
    hide Due, Next, SlotOn, DayOf;
    DueIsRecent(job, offset, now);
    for daysAhead := 0 to 8
      invariant DayOf(now) + daysAhead <= DayOf(Next(job, offset, now))
    {
      WholeDaysApart(now, daysAhead);
      var day := DayOf(now + daysAhead * DAY);
      DayHoldsNext(job, offset, now, day);
      if job.RunsOn(day) {
        var s := SlotOn(job, offset, day);
        if s > now {
          return s;
        }
      }
    }
    assert false;
    slot := 0;
  }
}
