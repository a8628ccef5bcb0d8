/** The end of a voting period that does not run at weekends. An instant is a number
    of microseconds since some Monday 00:00 UTC. */
module VotingDeadline {
  import opened Numbers

  const HOUR := 3_600_000_000
  const DAY := 24 * HOUR
  const WEEK := 7 * DAY
  const WORK := 5 * DAY
  const SATURDAY := 5

  function StartOfDay(t: int): int {
    t - t % DAY
  }

  function Weekday(t: int): int {
    (t / DAY) % 7
  }

  /** Saturday 00:00 after an instant that is on a weekday. */
  function NextWeekend(t: int): int {
    StartOfDay(t) + (SATURDAY - Weekday(t)) * DAY
  }

  // ---- what the deadline should be ----

  /** Monday-to-Friday time up to `t`, counted from the origin. */
  function WorkTime(t: int): int {
    (t / WEEK) * WORK + Min(t % WEEK, WORK)
  }

  /** The first instant by which `r` more of it has passed than at `start`. */
  ghost predicate IsDeadline(start: int, r: int, d: int) {
    WorkTime(d) == WorkTime(start) + r && forall t :: t < d ==> WorkTime(t) < WorkTime(d)
  }

  /** Weeks and days: where an instant lies in its week. */
  lemma WeekAndDay(t: int)
    ensures t == WEEK * (t / WEEK) + t % WEEK && 0 <= t % WEEK < WEEK
    ensures Weekday(t) == (t % WEEK) / DAY
    ensures StartOfDay(t) == WEEK * (t / WEEK) + DAY * Weekday(t)
    ensures Weekday(t) >= SATURDAY <==> t % WEEK >= WORK
  {
    var q, r := t / WEEK, t % WEEK;
    assert t / DAY == 7 * q + r / DAY;
  }

  lemma InWeek(q: int, r: int)
    requires 0 <= r < WEEK
    ensures (WEEK * q + r) / WEEK == q && (WEEK * q + r) % WEEK == r
    ensures WorkTime(WEEK * q + r) == WORK * q + Min(r, WORK)
  {
  }

  /** It counts exactly the instants of the first five days of 24 hours of each seven. */
  lemma WorkTimeCounts(t: int)
    ensures WorkTime(0) == 0
    ensures WorkTime(t + 1) == WorkTime(t) + if (t / 86_400_000_000) % 7 < 5 then 1 else 0
  {
    WeekAndDay(t);
    var q, r := t / WEEK, t % WEEK;
    if r + 1 < WEEK {
      InWeek(q, r + 1);
    } else {
      InWeek(q + 1, 0);
    }
  }

  lemma WorkTimeMonotone(t: int, u: int)
    requires t <= u
    ensures 0 <= WorkTime(u) - WorkTime(t) <= u - t
  {
  }

  // ---- the code ----

  /** Monday 00:00 for an instant at a weekend, any other instant as it is. */
  function Skipped(t: int): int {
    if t % WEEK >= WORK then WEEK * (t / WEEK + 1) else t
  }

  /** The day after a weekend day is the other weekend day or Monday. */
  lemma DayAfterWeekend(t: int)
    requires t % WEEK >= WORK
    ensures var u := StartOfDay(t) + DAY;
      u > t && (u == WEEK * (t / WEEK + 1) || (u / WEEK == t / WEEK && u % WEEK >= WORK))
  {
    WeekAndDay(t);
    InWeek(t / WEEK + 1, 0);
  }

  /** The first instant from `t` on that is on one of those days. */
  lemma SkippedIsFirst(t: int, u: int)
    ensures t <= Skipped(t) && (Skipped(t) / 86_400_000_000) % 7 < 5
    ensures t <= u < Skipped(t) ==> (u / 86_400_000_000) % 7 >= 5
  {
    WeekAndDay(t);
    WeekAndDay(Skipped(t));
    WeekAndDay(u);
    InWeek(t / WEEK + 1, 0);
    if t <= u < Skipped(t) {
      InWeek(t / WEEK, u - WEEK * (t / WEEK));
    }
  }

  method SkipWeekend(start: int) returns (t: int)
    ensures t == Skipped(start)
  {
    t := start;
    WeekAndDay(t);
    InWeek(start / WEEK + 1, 0);
    while Weekday(t) >= SATURDAY
      invariant Weekday(t) >= SATURDAY <==> t % WEEK >= WORK
      invariant t == Skipped(start) || (t / WEEK == start / WEEK && t % WEEK >= WORK && start % WEEK >= WORK)
      decreases WEEK * (start / WEEK + 1) - t
    {
      DayAfterWeekend(t);
      t := StartOfDay(t) + DAY;
      WeekAndDay(t);
    }
  }

  lemma SkippedWork(t: int)
    ensures t <= Skipped(t) && WorkTime(Skipped(t)) == WorkTime(t) && Skipped(t) % WEEK < WORK
  {
    InWeek(t / WEEK + 1, 0);
  }

  lemma WeekendAhead(t: int)
    requires t % WEEK < WORK
    ensures NextWeekend(t) == WEEK * (t / WEEK) + WORK > t
    ensures forall u :: t <= u <= NextWeekend(t) ==> WorkTime(u) == WorkTime(t) + (u - t)
  {
    WeekAndDay(t);
    var q := t / WEEK;
    assert NextWeekend(t) == WEEK * q + WORK;
    InWeek(q, t % WEEK);
    forall u | t <= u <= WEEK * q + WORK ensures WorkTime(u) == WorkTime(t) + (u - t) {
      InWeek(q, u - WEEK * q);
    }
  }

  /** Work time strictly grows up to any instant inside or at the end of a work week. */
  lemma StrictBefore(q: int, r: int, t: int)
    requires 0 < r <= WORK && t < WEEK * q + r
    ensures WorkTime(t) < WorkTime(WEEK * q + r)
  {
    InWeek(q, r);
  }

  lemma ReachedInWeek(start: int, total: int, cursor: int, remaining: int)
    requires cursor % WEEK < WORK && 0 < remaining <= NextWeekend(cursor) - cursor
    requires WorkTime(cursor) + remaining == WorkTime(start) + total
    ensures IsDeadline(start, total, cursor + remaining)
  {
    WeekendAhead(cursor);
    var d, q := cursor + remaining, cursor / WEEK;
    forall t | t < d ensures WorkTime(t) < WorkTime(d) {
      StrictBefore(q, d - WEEK * q, t);
    }
  }

  /** A positive period ends at the first instant by which exactly that much weekday
      time has passed; a period that is not positive is counted from the first
      weekday instant without looking at weekends. */
  method WeekdayDeadline(start: int, total: int) returns (d: int)
    ensures total > 0 ==> IsDeadline(start, total, d)
    ensures total <= 0 ==> d == Skipped(start) + total
  {
    var cursor := SkipWeekend(start);
    SkippedWork(start);
    var remaining := total;
    while true
      invariant cursor % WEEK < WORK
      invariant WorkTime(cursor) + remaining == WorkTime(start) + total
      invariant total > 0 ==> remaining > 0
      invariant total <= 0 ==> cursor == Skipped(start) && remaining == total
      decreases remaining
    {
      WeekendAhead(cursor);
      var untilWeekend := NextWeekend(cursor) - cursor;
      if remaining <= untilWeekend {
        if total > 0 {
          ReachedInWeek(start, total, cursor, remaining);
        }
        return cursor + remaining;
      }
      remaining := remaining - untilWeekend;
      SkippedWork(NextWeekend(cursor));
      cursor := SkipWeekend(NextWeekend(cursor));
    }
  }

  // ---- what follows from that ----

  lemma DeadlineIsUnique(start: int, r: int, d: int, d': int)
    requires IsDeadline(start, r, d) && IsDeadline(start, r, d')
    ensures d == d'
  {
    assert d < d' ==> WorkTime(d) < WorkTime(d');
    assert d' < d ==> WorkTime(d') < WorkTime(d);
  }

  lemma DeadlineMonotone(start: int, start': int, r: int, d: int, d': int)
    requires start <= start' && IsDeadline(start, r, d) && IsDeadline(start', r, d')
    ensures d <= d'
  {
    WorkTimeMonotone(start, start');
    assert d' < d ==> WorkTime(d') < WorkTime(d);
  }

  /** Waiting a and then b is waiting a + b. */
  lemma DeadlinesCompose(start: int, a: int, b: int, m: int, d: int, d': int)
    requires IsDeadline(start, a, m) && IsDeadline(m, b, d) && IsDeadline(start, a + b, d')
    ensures d == d'
  {
    DeadlineIsUnique(start, a + b, d, d');
  }

  /** At most one weekend for each work week begun. */
  lemma DeadlineBound(start: int, r: int, d: int)
    requires r > 0 && IsDeadline(start, r, d)
    ensures start + r <= d <= start + r + 2 * DAY * ((r + WORK - 1) / WORK)
  {
    if d < start {
      WorkTimeMonotone(d, start);
    } else {
      WorkTimeMonotone(start, d);
      DeadlineInWorkWeek(start, r, d);
    }
  }

  /** A deadline is never a weekend instant nor the very start of a week. */
  lemma DeadlineInWorkWeek(start: int, r: int, d: int)
    requires IsDeadline(start, r, d)
    ensures 0 < d % WEEK <= WORK
  {
    InWeek(d / WEEK - 1, WEEK - 1);
    assert d % WEEK > WORK || d % WEEK == 0 ==> WorkTime(d - 1) == WorkTime(d);
  }
}
