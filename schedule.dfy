/** Due dates and SLA status. Calendar dates are day numbers (days since an
    epoch) and clock readings are instants in milliseconds since the same
    epoch, so the start of day `d` is the instant `d * MsPerDay`. */
module Schedule {
  import opened Records

  const MsPerDay: int := 86400000

  /** The instant at which a day begins. */
  function DayStart(day: int): int {
    day * MsPerDay
  }

  /** addDays: the day `days` days after `day` (before it, for a negative
      count). Its start lies exactly `days` whole days after the start of
      `day`. */
  function AddDays(day: int, days: int): (r: int)
    ensures DayStart(r) == DayStart(day) + days * MsPerDay
  {
    day + days
  }

  /** The status recorded for a contract due on `dueDate` when the clock
      reads `now`: late exactly when `now` is past the start of the due day. */
  function SlaStatusAt(now: int, dueDate: int): (s: SlaStatus)
    ensures s == Late <==> now > DayStart(dueDate)
    ensures s == OnTime <==> now <= DayStart(dueDate)
  {
    if now > DayStart(dueDate) then Late else OnTime
  }

  /** Once a contract would be recorded as late, recording it any later
      gives late as well; recording it earlier than an on-time reading gives
      on time. */
  lemma LatenessIsMonotone(now: int, later: int, dueDate: int)
    requires now <= later
    ensures SlaStatusAt(now, dueDate) == Late ==> SlaStatusAt(later, dueDate) == Late
    ensures SlaStatusAt(later, dueDate) == OnTime ==> SlaStatusAt(now, dueDate) == OnTime
  {
  }

  /** A contract started on `start` with an SLA of `sla` days is rated late
      exactly when the clock has passed the instant `sla` whole days after
      the start day began. */
  lemma DueDateRating(now: int, start: int, sla: int)
    ensures SlaStatusAt(now, AddDays(start, sla)) == Late <==> now > DayStart(start) + sla * MsPerDay
    ensures SlaStatusAt(now, AddDays(start, sla)) == OnTime <==> now <= DayStart(start) + sla * MsPerDay
  {
  }
}
