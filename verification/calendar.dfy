/**
 The calendar readings the date filters start from. The source derives them from
 the local clock with JavaScript's `Date`; here they are given, and `WellFormed`
 says how they hang together when every day lasts exactly 24 hours.
 */
module Calendar {

  /** One day in milliseconds. */
  const DayMs := 86_400_000

  /**
   The calendar reading the summary starts from: the current instant, local midnight
   today, today's weekday index (0 for Sunday), midnight on the first of the month,
   and today's day of the month.
   */
  datatype Clock = Clock(now: int, today: int, weekday: int, monthStart: int, dayOfMonth: int)
  {
    /** Midnight tomorrow: one day after midnight today. */
    function Tomorrow(): int { today + DayMs }

    /** Midnight on the preceding Sunday: today less its weekday index in days. */
    function WeekStart(): int { today - weekday * DayMs }

    /** A consistent reading of the calendar (days taken as exactly 24 hours). */
    ghost predicate WellFormed()
    {
      && today <= now < today + DayMs
      && 0 <= weekday <= 6
      && 1 <= dayOfMonth <= 31
      && monthStart == today - (dayOfMonth - 1) * DayMs
    }
  }
}
