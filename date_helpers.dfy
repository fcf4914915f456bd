/** Day arithmetic (lib/utils/dateHelpers.ts) on day numbers. */
module DateHelpers {
  import opened Types

  const MinutesPerDay := 1440

  /** `today()`: the day that contains instant `now`. */
  function Today(now: Minute): Day {
    now / MinutesPerDay
  }

  /** `tomorrow()`. */
  function Tomorrow(now: Minute): (r: Day)
    ensures r - Today(now) == 1
  {
    Today(now) + 1
  }

  /** Day of the week, 0 for Sunday through 6 for Saturday (day 0 was a
      Thursday). */
  function Weekday(d: Day): (w: int)
    ensures 0 <= w < 7
  {
    (d + 4) % 7
  }

  /** `(8 - dayOfWeek) % 7 || 7`. */
  function DaysToMonday(dayOfWeek: int): int
    requires 0 <= dayOfWeek < 7
  {
    var diff := (8 - dayOfWeek) % 7;
    if diff == 0 then 7 else diff
  }

  /** `nextMonday()`: the first Monday strictly after today. */
  function NextMonday(now: Minute): (r: Day)
    ensures 1 <= r - Today(now) <= 7
    ensures Weekday(r) == 1
    ensures Weekday(Today(now)) == 1 ==> r == Today(now) + 7
    ensures forall d :: Today(now) < d < r ==> Weekday(d) != 1
  {
    var base := Today(now);
    var r := base + DaysToMonday(Weekday(base));
    WeekdayShift(base, DaysToMonday(Weekday(base)));
    forall d | base < d < r ensures Weekday(d) != 1 {
      WeekdayShift(base, d - base);
    }
    r
  }

  lemma WeekdayShift(d: Day, k: nat)
    requires k < 8
    ensures Weekday(d + k) == (Weekday(d) + k) % 7
  {
  }

  /** `isPastDue`: strictly before today, so a date of today is not past due. */
  predicate IsPastDue(d: Day, now: Minute) {
    d < Today(now)
  }

  lemma PastDueStrict(now: Minute)
    ensures !IsPastDue(Today(now), now) && IsPastDue(Today(now) - 1, now)
  {
  }
}
