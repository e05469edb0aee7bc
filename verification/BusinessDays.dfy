/**
 * The run-retention clock of `run_engine.rs`: elapsed 24-hour days and UTC business days.
 * A moment is a count of nanoseconds since 1970-01-01T00:00:00Z.
 */
module BusinessDays {
  import opened Prelude
  import opened Domain

  const NANOS_PER_SECOND: int := 1_000_000_000
  const SECONDS_PER_DAY: U64 := 86_400
  const DAY: int := NANOS_PER_SECOND * SECONDS_PER_DAY

  /** The last calendar day a date can hold, counted from 1970-01-01. */
  const LAST_DAY: int := 95_026_236
  const FIRST_DAY: int := -96_465_292

  function DayOf(t: Moment): int { t / DAY }

  ghost predicate Representable(t: Moment) {
    FIRST_DAY <= DayOf(t) <= LAST_DAY
  }

  /** 1970-01-01 was a Thursday; Saturday is 5 and Sunday is 6. */
  function Weekday(day: int): nat { (day + 3) % 7 }

  predicate IsBusinessDay(day: int) { Weekday(day) < 5 }

  /** Moving a moment by whole days, when the calendar can hold the result. */
  function AddDays(t: Moment, days: nat): Option<Moment> {
    if DayOf(t) + days <= LAST_DAY then Some(t + days * DAY) else None
  }

  lemma DayOfShift(t: Moment, days: int)
    ensures DayOf(t + days * DAY) == DayOf(t) + days
  {
  }

  // --- the reference: count one day at a time -------------------------------------------------

  /** The `n`-th business day strictly after `day`. */
  function NthBusinessDay(day: int, n: nat): (r: int)
    ensures r >= day
    decreases n, if IsBusinessDay(day + 1) then 0 else if IsBusinessDay(day + 2) then 1 else 2
  {
    if n == 0 then day
    else if IsBusinessDay(day + 1) then NthBusinessDay(day + 1, n - 1)
    else NthBusinessDay(day + 1, n)
  }

  /** How many business days lie in (from, upto]. */
  function BusinessDaysIn(from: int, upto: int): nat
    decreases upto - from
  {
    if upto <= from then 0
    else BusinessDaysIn(from, upto - 1) + if IsBusinessDay(upto) then 1 else 0
  }

  function NaiveDeadline(created: Moment, n: nat): Option<Moment> {
    var day := NthBusinessDay(DayOf(created), n);
    if day <= LAST_DAY then Some(created + (day - DayOf(created)) * DAY) else None
  }

  // --- facts about the reference ---------------------------------------------------------------

  /** Counting `a` days and then `b` more is counting `a + b`. */
  lemma {:induction false} NthSplits(day: int, a: nat, b: nat)
    ensures NthBusinessDay(NthBusinessDay(day, a), b) == NthBusinessDay(day, a + b)
    decreases a, if IsBusinessDay(day + 1) then 0 else if IsBusinessDay(day + 2) then 1 else 2
  {
    if a != 0 {
      if IsBusinessDay(day + 1) {
        NthSplits(day + 1, a - 1, b);
      } else {
        NthSplits(day + 1, a, b);
      }
    }
  }

  /** Five business days from a business day is that weekday of the next week. */
  lemma FiveFromBusinessDay(day: int)
    requires IsBusinessDay(day)
    ensures NthBusinessDay(day, 5) == day + 7
  {
    hide NthBusinessDay;
    var w := Weekday(day);
    NthSplits(day, 5 - w - 1, w + 1);
    Stretch(day, 4 - w);
    assert NthBusinessDay(day, 4 - w) == day + (4 - w);
    assert Weekday(day + 7) == w;
    CrossWeekend(day + (4 - w));
    assert day + (4 - w) + 3 == day + 7 - w;
    NthSplits(day + (4 - w), 1, w);
    Stretch(day + 7 - w, w);
  }

  /** Inside one Monday-to-Friday stretch, counting is adding. */
  lemma {:induction false} Stretch(day: int, n: nat)
    requires Weekday(day) + n < 5
    ensures NthBusinessDay(day, n) == day + n
    decreases n
  {
    if n != 0 {
      assert Weekday(day + 1) == Weekday(day) + 1;
      Stretch(day + 1, n - 1);
    }
  }

  lemma CrossWeekend(day: int)
    requires Weekday(day) == 4
    ensures NthBusinessDay(day, 1) == day + 3
    ensures Weekday(day + 3) == 0
  {
    assert Weekday(day + 1) == 5 && Weekday(day + 2) == 6 && Weekday(day + 3) == 0;
    assert NthBusinessDay(day + 3, 0) == day + 3;
    assert NthBusinessDay(day + 2, 1) == day + 3;
    assert NthBusinessDay(day + 1, 1) == day + 3;
  }

  /** A positive count always lands on a business day, with exactly that many after the start. */
  lemma {:induction false} NthLands(day: int, n: nat)
    ensures n > 0 ==> NthBusinessDay(day, n) > day && IsBusinessDay(NthBusinessDay(day, n))
    ensures BusinessDaysIn(day, NthBusinessDay(day, n)) == n
    decreases n, if IsBusinessDay(day + 1) then 0 else if IsBusinessDay(day + 2) then 1 else 2
  {
    if n != 0 {
      if IsBusinessDay(day + 1) {
        NthLands(day + 1, n - 1);
      } else {
        NthLands(day + 1, n);
      }
      CountFromNext(day, NthBusinessDay(day, n));
    }
  }

  lemma {:induction false} CountFromNext(from: int, upto: int)
    requires from < upto
    ensures BusinessDaysIn(from, upto) == (if IsBusinessDay(from + 1) then 1 else 0) + BusinessDaysIn(from + 1, upto)
    decreases upto - from
  {
    if upto == from + 1 {
      assert BusinessDaysIn(from, from) == 0;
    } else {
      CountFromNext(from, upto - 1);
    }
  }

  lemma WeekdayRepeats(day: int, weeks: int)
    ensures Weekday(day + 7 * weeks) == Weekday(day)
  {
  }

  /** Shifting the start by whole weeks shifts the answer by the same weeks. */
  lemma {:induction false} NthShiftsByWeeks(day: int, weeks: nat, n: nat)
    ensures NthBusinessDay(day + 7 * weeks, n) == NthBusinessDay(day, n) + 7 * weeks
    decreases n, if IsBusinessDay(day + 1) then 0 else if IsBusinessDay(day + 2) then 1 else 2
  {
    if n != 0 {
      WeekdayRepeats(day + 1, weeks);
      WeekdayRepeats(day + 2, weeks);
      if IsBusinessDay(day + 1) {
        NthShiftsByWeeks(day + 1, weeks, n - 1);
      } else {
        NthShiftsByWeeks(day + 1, weeks, n);
      }
      assert day + 1 + 7 * weeks == day + 7 * weeks + 1;
    }
  }

  /** Five more business days is exactly one more week, from any start and any positive count. */
  lemma FiveMoreIsAWeek(day: int, n: nat)
    requires n >= 1
    ensures NthBusinessDay(day, n + 5) == NthBusinessDay(day, n) + 7
  {
    NthSplits(day, n, 5);
    NthLands(day, n);
    FiveFromBusinessDay(NthBusinessDay(day, n));
  }

  lemma {:induction false} WeeksOfFive(day: int, weeks: nat, n: nat)
    requires n >= 1
    ensures NthBusinessDay(day, 5 * weeks + n) == NthBusinessDay(day, n) + 7 * weeks
  {
    if weeks != 0 {
      WeeksOfFive(day, weeks - 1, n);
      FiveMoreIsAWeek(day, 5 * (weeks - 1) + n);
    }
  }

  lemma NthStrictlyIncreases(day: int, m: nat, n: nat)
    requires m < n
    ensures NthBusinessDay(day, m) < NthBusinessDay(day, n)
  {
    NthSplits(day, m, n - m);
    NthLands(NthBusinessDay(day, m), n - m);
  }

  /** How many days the next business day is away, beyond the first. */
  function UntilBusinessDay(day: int): nat {
    if IsBusinessDay(day + 1) then 0 else if IsBusinessDay(day + 2) then 1 else 2
  }

  /** Walking one day on the way to the `n`-th business day. */
  lemma OneDayOn(day: int, n: nat)
    requires n > 0
    ensures NthBusinessDay(day, n) == NthBusinessDay(day + 1, if IsBusinessDay(day + 1) then n - 1 else n) >= day + 1
    ensures !IsBusinessDay(day + 1) ==> UntilBusinessDay(day + 1) < UntilBusinessDay(day)
    ensures NthBusinessDay(day, 0) == day
  {
  }

  // --- the source's algorithm -------------------------------------------------------------------

  /** After the jump the same business day is still to be found, at most five counts away. */
  lemma JumpKeepsGoal(start: int, days: U64)
    requires days > 0
    ensures NthBusinessDay(start + 7 * ((days - 1) / 5), (days - 1) % 5 + 1) == NthBusinessDay(start, days)
  {
    var weeks, rest := (days - 1) / 5, (days - 1) % 5 + 1;
    assert days == 5 * weeks + rest;
    WeeksOfFive(start, weeks, rest);
    NthShiftsByWeeks(start, weeks, rest);
  }

  lemma AddDaysMeaning(t: Moment, days: nat)
    ensures AddDays(t, days).Some? <==> DayOf(t) + days <= LAST_DAY
    ensures AddDays(t, days).Some? ==>
            AddDays(t, days).value == t + days * DAY && DayOf(AddDays(t, days).value) == DayOf(t) + days
  {
  }

  /** The counted part: one day at a time until `remaining` business days have passed. */
  method CountWeekdays(from: Moment, count: nat) returns (r: Option<Moment>)
    requires DayOf(from) <= LAST_DAY
    ensures var goal := NthBusinessDay(DayOf(from), count);
            r == if goal <= LAST_DAY then Some(from + (goal - DayOf(from)) * DAY) else None
  {
    hide NthBusinessDay, IsBusinessDay, AddDays, DayOf;
    var deadline, remaining := from, count;
    ghost var elapsed: nat := 0;
    while remaining > 0
      invariant DayOf(deadline) == DayOf(from) + elapsed <= LAST_DAY
      invariant deadline == from + elapsed * DAY
      invariant NthBusinessDay(DayOf(deadline), remaining) == NthBusinessDay(DayOf(from), count)
      decreases remaining, UntilBusinessDay(DayOf(deadline))
    {
      OneDayOn(DayOf(deadline), remaining);
      AddDaysMeaning(deadline, 1);
      var next := AddDays(deadline, 1);
      if next == None {
        return None;
      }
      deadline := next.value;
      elapsed := elapsed + 1;
      if IsBusinessDay(DayOf(deadline)) {
        remaining := remaining - 1;
      }
    }
    NoneToCount(DayOf(deadline));
    r := Some(deadline);
  }

  lemma NoneToCount(day: int)
    ensures NthBusinessDay(day, 0) == day
  {
  }

  /**
   * Whole weeks in one jump, then at most five counted weekdays. The answer is the day-by-day
   * deadline for every start and every 64-bit count, including when there is none.
   */
  method BusinessDayDeadline(created: Moment, days: U64) returns (r: Option<Moment>)
    requires Representable(created)
    ensures r == NaiveDeadline(created, days)
  {
    if days == 0 {
      return Some(created);
    }
    hide NthBusinessDay, AddDays, DayOf;
    var weeks := (days - 1) / 5;
    ghost var goal := NthBusinessDay(DayOf(created), days);
    JumpKeepsGoal(DayOf(created), days);
    AddDaysMeaning(created, weeks * 7);
    if weeks * 7 > U64_MAX {
      return None;
    }
    var jumped := AddDays(created, weeks * 7);
    if jumped == None {
      return None;
    }
    r := CountWeekdays(jumped.value, (days - 1) % 5 + 1);
    if goal <= LAST_DAY {
      WholeDays(created, weeks * 7, goal - DayOf(created) - weeks * 7);
    }
  }

  lemma WholeDays(t: Moment, a: int, b: int)
    ensures t + a * DAY + b * DAY == t + (a + b) * DAY
  {
  }

  /** What a reader of the policy is told about the deadline, in one place. */
  lemma DeadlineMeaning(created: Moment, n: nat)
    ensures NaiveDeadline(created, n).None? <==> NthBusinessDay(DayOf(created), n) > LAST_DAY
    ensures NaiveDeadline(created, n).Some? ==>
              var due := NaiveDeadline(created, n).value;
              && due >= created
              && (due - created) % DAY == 0
              && BusinessDaysIn(DayOf(created), DayOf(due)) == n
              && (n > 0 ==> IsBusinessDay(DayOf(due)))
  {
    var day := NthBusinessDay(DayOf(created), n);
    NthLands(DayOf(created), n);
    if day <= LAST_DAY {
      DayOfShift(created, day - DayOf(created));
      assert ((day - DayOf(created)) * DAY) % DAY == 0;
    }
  }

  /** Deadlines are strictly later for larger counts, and five business days make a week. */
  lemma DeadlineOrder(created: Moment, m: nat, n: nat)
    requires m < n && NaiveDeadline(created, n).Some?
    ensures NaiveDeadline(created, m).Some?
    ensures NaiveDeadline(created, m).value < NaiveDeadline(created, n).value
    ensures n == m + 5 && m >= 1 ==>
              NaiveDeadline(created, n).value == NaiveDeadline(created, m).value + 7 * DAY
  {
    hide NthBusinessDay;
    var day := DayOf(created);
    NthStrictlyIncreases(day, m, n);
    var earlier, later := NthBusinessDay(day, m) - day, NthBusinessDay(day, n) - day;
    assert earlier * DAY < later * DAY;
    if n == m + 5 && m >= 1 {
      FiveMoreIsAWeek(day, m);
      assert later * DAY == earlier * DAY + 7 * DAY;
    }
  }

  // --- elapsed days -----------------------------------------------------------------------------

  /** Whole seconds since creation, never negative. */
  function AgeSeconds(created: Moment, now: Moment): nat {
    if now <= created then 0 else (now - created) / NANOS_PER_SECOND
  }

  predicate ElapsedDaysExpired(created: Moment, now: Moment, days: U64) {
    AgeSeconds(created, now) >= SaturatingMul(days, SECONDS_PER_DAY)
  }

  /** Saturating the product never changes the answer: no representable age reaches the cap. */
  lemma ElapsedDaysIsExact(created: Moment, now: Moment, days: U64)
    requires Representable(created) && Representable(now)
    ensures ElapsedDaysExpired(created, now, days) <==> days == 0 || now - created >= days * DAY
  {
  }
}
