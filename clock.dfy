/** Time as the source uses it. A date is an instant in milliseconds; the
    server and most client checks first truncate both sides to the day
    (`setHours(0, 0, 0, 0)`), a few compare full instants with "now". */
module Clock {

  const MsPerDay: int := 86400000

  /** The day an instant falls on (the instant truncated to midnight). */
  function DayOf(t: int): int {
    t / MsPerDay
  }

  /** Truncation to the day keeps the order of instants. */
  lemma DayOfMonotone(a: int, b: int)
    requires a <= b
    ensures DayOf(a) <= DayOf(b)
  {
    var qa, qb := a / MsPerDay, b / MsPerDay;
    assert a == qa * MsPerDay + a % MsPerDay;
    assert b == qb * MsPerDay + b % MsPerDay;
  }
}
